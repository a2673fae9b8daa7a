/**
 Nonces of the network reactor: as long as fewer than 2^32 requests are made on a descriptor while an
 earlier one is outstanding, no nonce is reused too soon.
 */
module NetPacing {
  import opened Words
  import opened RequestIds
  import opened RegistrySpec
  import opened CallbackLog
  import opened NetReactor
  import opened NetDispatch
  import opened NetRuns
  import C = Control

  /** The nonces of a loop's callers are their serials, which differ on each descriptor. */
  ghost predicate CallersCounted(s: State, l: nat)
    requires l < |s.loops|
  {
    var cs := s.loops[l].callers;
    && (forall i :: 0 <= i < |cs| ==>
          cs[i].serial % 0x1_0000_0000 == cs[i].key.nonce && cs[i].serial <= s.Draws(cs[i].key.fd))
    && (forall i, j :: 0 <= i < j < |cs| && cs[i].key.fd == cs[j].key.fd ==> cs[i].serial != cs[j].serial)
    && (forall i, k ::
          0 <= i < |cs| && k in s.table.callbacks && k in s.born && k.fd == cs[i].key.fd ==> s.born[k] != cs[i].serial)
  }

  ghost predicate Counted(s: State) {
    && (forall fd :: s.table.Counter(fd) == s.Draws(fd) % 0x1_0000_0000)
    && (forall k :: k in s.table.callbacks ==>
          k in s.born && s.born[k] % 0x1_0000_0000 == k.nonce && s.born[k] <= s.Draws(k.fd))
    && (forall l :: 0 <= l < |s.loops| ==> CallersCounted(s, l))
  }

  /** Fewer than 2^32 draws on a descriptor since any outstanding request on it drew its nonce. */
  ghost predicate Paced(s: State, fd: nat) {
    && (forall k :: k in s.table.callbacks && k in s.born && k.fd == fd ==> s.Draws(fd) - s.born[k] < 0x1_0000_0000)
    && (forall l, i :: 0 <= l < |s.loops| && 0 <= i < |s.loops[l].callers| && s.loops[l].callers[i].key.fd == fd ==>
          s.Draws(fd) - s.loops[l].callers[i].serial < 0x1_0000_0000)
  }

  lemma DistinctSerials(a: nat, b: nat, draws: nat)
    requires a <= draws && b <= draws && draws - a < 0x1_0000_0000 && draws - b < 0x1_0000_0000
    requires a % 0x1_0000_0000 == b % 0x1_0000_0000
    ensures a == b
  {
  }

  /** A caller on a paced descriptor never finds its key taken. */
  lemma PacedKeyIsFree(s: State, l: nat, i: nat)
    requires Counted(s) && l < |s.loops| && i < |s.loops[l].callers| && Paced(s, s.loops[l].callers[i].key.fd)
    ensures s.loops[l].callers[i].key !in s.table.callbacks
  {
    var c := s.loops[l].callers[i];
    assert CallersCounted(s, l);
    if c.key in s.table.callbacks {
      DistinctSerials(c.serial, s.born[c.key], s.Draws(c.key.fd));
      assert false;
    }
  }

  lemma NextSerial(draws: nat)
    ensures Add32(draws % 0x1_0000_0000, 1) == (draws + 1) % 0x1_0000_0000
  {
  }

  lemma TableCounted(s: State, l: nat, m: Move)
    requires Ok(s) && Counted(s) && Enabled(s, l, m)
    ensures
      var s' := Step(s, l, m);
      && (forall fd :: s'.table.Counter(fd) == s'.Draws(fd) % 0x1_0000_0000)
      && (forall k :: k in s'.table.callbacks ==>
            k in s'.born && s'.born[k] % 0x1_0000_0000 == k.nonce && s'.born[k] <= s'.Draws(k.fd))
  {
    hide Fd, Nonce, LoopFor, IdOf, BitOr, C.Step, C.Enabled, C.Inv, RequestOk, StepLoop;
    assert CallersCounted(s, l);
    var s' := Step(s, l, m);
    forall fd: nat
      ensures s'.table.Counter(fd) == s'.Draws(fd) % 0x1_0000_0000
    {
      assert s.table.Counter(fd) == s.Draws(fd) % 0x1_0000_0000;
      NextSerial(s.Draws(fd));
      if m.Draw? {
        assert s'.draws == s.draws[m.op.fd := s.Draws(m.op.fd) + 1];
      }
    }
  }

  lemma DrawCounted(s: State, l: nat, m: Move)
    requires Ok(s) && Counted(s) && Enabled(s, l, m) && m.Draw?
    ensures CallersCounted(Step(s, l, m), l)
  {
    hide Fd, Nonce, LoopFor, IdOf, C.Step, C.Enabled, C.Inv, RequestOk;
    assert CallersCounted(s, l);
    NextSerial(s.Draws(m.op.fd));
  }

  lemma RegisterCounted(s: State, l: nat, m: Move)
    requires Ok(s) && Counted(s) && Enabled(s, l, m) && m.Register?
    ensures CallersCounted(Step(s, l, m), l)
  {
    hide Fd, Nonce, LoopFor, IdOf, C.Step, C.Enabled, Ok, Skeleton;
    assert CallersCounted(s, l);
    var cs, cs' := s.loops[l].callers, Step(s, l, m).loops[l].callers;
    assert forall i :: 0 <= i < |cs'| ==> cs'[i] == cs[if i < m.i then i else i + 1];
  }

  /** What a step other than the registration of a callback leaves of the table and its history. */
  lemma KeysShrink(s: State, l: nat, m: Move)
    requires Enabled(s, l, m) && !m.Register?
    ensures var s' := Step(s, l, m); s'.born == s.born && forall k :: k in s'.table.callbacks ==> k in s.table.callbacks
  {
    hide StepLoop, C.Step, C.Enabled;
  }

  lemma CallersKept(s: State, l: nat, m: Move, k: nat)
    requires Enabled(s, l, m) && k < |s.loops| && (k == l ==> !m.Draw? && !m.Register?)
    ensures
      var s' := Step(s, l, m);
      s'.loops[k].callers == s.loops[k].callers && forall fd :: s'.Draws(fd) >= s.Draws(fd)
  {
    hide StepTable, C.Step, C.Enabled, BitOr;
  }

  lemma OthersCounted(s: State, l: nat, m: Move, k: nat)
    requires Ok(s) && Counted(s) && Enabled(s, l, m) && k < |s.loops| && (k == l ==> !m.Draw? && !m.Register?)
    ensures CallersCounted(Step(s, l, m), k)
  {
    hide LoopFor, C.Step, C.Enabled, C.Inv, RequestOk, StepLoop;
    assert CallersCounted(s, k);
    CallersKept(s, l, m, k);
    if m.Register? {
      var cs, c := s.loops[k].callers, s.loops[l].callers[m.i];
      assert c in s.loops[l].callers;
      assert forall i :: 0 <= i < |cs| ==> cs[i] in cs && CallerOk(cs[i], k, |s.loops|);
    } else {
      KeysShrink(s, l, m);
    }
  }

  /** Counting is kept by every step, of every run. */
  lemma CountedStep(s: State, l: nat, m: Move)
    requires Ok(s) && Counted(s) && Enabled(s, l, m)
    ensures Counted(Step(s, l, m))
  {
    hide Step, Enabled, Ok, CallersCounted;
    var s' := Step(s, l, m);
    StepShape(s, l, m);
    TableCounted(s, l, m);
    forall k | 0 <= k < |s'.loops|
      ensures CallersCounted(s', k)
    {
      if k == l && m.Draw? {
        DrawCounted(s, l, m);
      } else if k == l && m.Register? {
        RegisterCounted(s, l, m);
      } else {
        OthersCounted(s, l, m, k);
      }
    }
  }

  lemma {:induction false} RunCounted(ss: seq<State>, acts: seq<Action>, i: nat)
    requires IsRun(ss, acts) && i < |ss|
    ensures Counted(ss[i])
  {
    hide Step, Enabled, Ok, CallersCounted;
    if i == 0 {
      InitCounted(ss[0]);
    } else {
      RunCounted(ss, acts, i - 1);
      RunOk(ss, acts, i - 1);
      CountedStep(ss[i - 1], acts[i - 1].l, acts[i - 1].m);
    }
  }

  lemma InitCounted(s: State)
    requires Init(s)
    ensures Counted(s)
  {
  }

  /** In the first `i` steps, whenever the timeout of this request is queued there is room. */
  ghost predicate TimeoutFits(ss: seq<State>, acts: seq<Action>, i: nat, id: uint64)
    requires IsRun(ss, acts) && i <= |acts|
  {
    forall j :: 0 <= j < i && acts[j].m.QueueSecond? && ss[j].loops[acts[j].l].job.req.userData == id ==>
      ss[j].loops[acts[j].l].sq.Free() > 0
  }

  /**
   Exactly-once dispatch of one request under conditions on its own descriptor and its own timeout: fewer than 2^32
   requests on the descriptor while one is outstanding, and room for the timeout once the operation is queued.
   */
  lemma PacedRunsDispatchOnce(ss: seq<State>, acts: seq<Action>, i: nat, id: uint64)
    requires IsRun(ss, acts) && i < |ss| && !Reserved(id)
    requires (forall j :: 0 <= j < i ==> Paced(ss[j], Fd(id))) && TimeoutFits(ss, acts, i, id)
    ensures Shape(ss[i]) && CorrespondsFor(ss[i], id) && DisciplinedOn(ss[i].log, KeyOf(id))
    ensures i < |acts| && acts[i].m.Dispatch? && NextId(ss[i], acts[i].l) == id ==> FindsCallback(ss[i], acts[i].l)
  {
    hide Init, Step, Counted, Paced, CorrespondsFor, FindsCallback, DisciplinedOn, Ledger, Fd, Nonce;
    forall j | 0 <= j < i
      ensures !BreaksForAt(ss, acts, j, id)
    {
      if acts[j].m.Register? {
        RunCounted(ss, acts, j);
        if ss[j].loops[acts[j].l].callers[acts[j].m.i].key == KeyOf(id) {
          PacedKeyIsFree(ss[j], acts[j].l, acts[j].m.i);
        }
      }
    }
    RunCorresponds(ss, acts, i, id);
    ExactlyOnce(ss, acts, i, id);
  }

  // ----- identifiers that have never been used -----

  predicate CallerWith(s: State, key: Key) {
    exists l, i :: 0 <= l < |s.loops| && 0 <= i < |s.loops[l].callers| && s.loops[l].callers[i].key == key
  }

  /** No callback has been registered under an identifier so far: its nonce is not drawn, or only drawn. */
  predicate Unused(s: State, id: uint64) {
    s.Draws(Fd(id)) < 0x1_0000_0000 && (Nonce(id) > s.Draws(Fd(id)) || CallerWith(s, KeyOf(id)))
  }

  /** What is unused is nowhere under way. */
  ghost predicate UnusedIsQuiet(s: State, id: uint64) {
    Unused(s, id) ==> forall l :: 0 <= l < |s.loops| ==> Live(s.loops[l], id) == 0
  }

  /** Where a caller of a loop comes from. */
  lemma CallersBefore(s: State, l: nat, m: Move, k: nat, j: nat)
    requires Enabled(s, l, m) && k < |Step(s, l, m).loops| && j < |Step(s, l, m).loops[k].callers|
    ensures k < |s.loops|
    ensures
      var c, cs := Step(s, l, m).loops[k].callers[j], s.loops[k].callers;
      if k == l && m.Draw? && j == |cs| then c.key == Key(m.op.fd, s.table.NextNonce(m.op.fd))
      else
        var i := if k == l && m.Register? && j >= m.i then j + 1 else j;
        i < |cs| && c == cs[i]
  {
    hide StepTable, C.Step, C.Enabled, BitOr, IdOf, Logged;
  }

  /** Callers with the same key are the same, as long as nonces do not repeat. */
  lemma SameKeySameCaller(s: State, l: nat, i: nat, k: nat, j: nat)
    requires Ok(s) && Counted(s)
    requires l < |s.loops| && i < |s.loops[l].callers| && k < |s.loops| && j < |s.loops[k].callers|
    requires s.loops[l].callers[i].key == s.loops[k].callers[j].key
    requires s.Draws(s.loops[l].callers[i].key.fd) < 0x1_0000_0000
    ensures l == k && i == j
  {
    hide LoopFor, C.Inv, QueuesOk, JobOk, RequestsOk, InStep, TableOk;
    assert LoopOk(s.loops[l], l, |s.loops|) && LoopOk(s.loops[k], k, |s.loops|);
    assert s.loops[l].callers[i] in s.loops[l].callers && s.loops[k].callers[j] in s.loops[k].callers;
    assert CallersCounted(s, l);
    assert l == k;
    assert s.loops[l].callers[i].serial == s.loops[l].callers[j].serial;
  }

  lemma DrawsAfter(s: State, l: nat, m: Move, fd: nat)
    requires Enabled(s, l, m)
    ensures Step(s, l, m).Draws(fd) == s.Draws(fd) + (if m.Draw? && m.op.fd == fd then 1 else 0)
  {
    hide StepTable, StepLoop, C.Step, C.Enabled;
  }

  /** What is unused after a step was unused before it, and the step did not register it. */
  lemma UnusedBefore(s: State, l: nat, m: Move, id: uint64)
    requires Ok(s) && Counted(s) && Enabled(s, l, m) && Unused(Step(s, l, m), id)
    ensures Unused(s, id) && (m.Register? ==> s.loops[l].callers[m.i].key != KeyOf(id))
  {
    hide Fd, Nonce, Step, Ok, Counted;
    var s', fd := Step(s, l, m), Fd(id);
    StepShape(s, l, m);
    DrawsAfter(s, l, m, fd);
    if Nonce(id) > s'.Draws(fd) {
      if m.Register? {
        DrawnNonce(s, l, m.i);
      }
    } else {
      var k: nat, j: nat :| k < |s'.loops| && j < |s'.loops[k].callers| && s'.loops[k].callers[j].key == KeyOf(id);
      CallersBefore(s, l, m, k, j);
      if k == l && m.Draw? && j == |s.loops[k].callers| {
        NextNonceIs(s, fd);
      } else {
        var i := if k == l && m.Register? && j >= m.i then j + 1 else j;
        assert s.loops[k].callers[i].key == KeyOf(id);
        if m.Register? && s.loops[l].callers[m.i].key == KeyOf(id) {
          SameKeySameCaller(s, l, m.i, k, i);
          assert false;
        }
      }
    }
  }

  lemma DrawnNonce(s: State, l: nat, i: nat)
    requires Counted(s) && l < |s.loops| && i < |s.loops[l].callers|
    ensures s.loops[l].callers[i].key.nonce <= s.Draws(s.loops[l].callers[i].key.fd)
  {
    assert CallersCounted(s, l);
  }

  lemma NextNonceIs(s: State, fd: nat)
    requires Counted(s) && s.Draws(fd) + 1 < 0x1_0000_0000
    ensures s.table.NextNonce(fd) == s.Draws(fd) + 1
  {
    assert s.table.Counter(fd) == s.Draws(fd) % 0x1_0000_0000;
  }

  lemma UnusedStep(s: State, l: nat, m: Move, id: uint64)
    requires Ok(s) && Counted(s) && Enabled(s, l, m) && !Reserved(id) && UnusedIsQuiet(s, id)
    ensures UnusedIsQuiet(Step(s, l, m), id)
  {
    hide Step, Ok, Counted, Live, Gained, Lost, Unused, KeyOf, Enabled, Possible;
    var s' := Step(s, l, m);
    if Unused(s', id) {
      UnusedBefore(s, l, m, id);
      StepShape(s, l, m);
      LiveHere(s, l, m, id);
      NothingGained(s, l, m, id);
    }
  }

  lemma NothingGained(s: State, l: nat, m: Move, id: uint64)
    requires Ok(s) && Enabled(s, l, m) && !Reserved(id) && (m.Register? ==> s.loops[l].callers[m.i].key != KeyOf(id))
    ensures Gained(s.loops[l], m, id) == 0
  {
    hide Fd, Nonce, LoopFor, IdOf, C.Inv, C.Enabled, QueuesOk, JobOk, RequestsOk, InStep, TableOk, Skeleton;
    if m.Register? {
      assert LoopOk(s.loops[l], l, |s.loops|);
      assert s.loops[l].callers[m.i] in s.loops[l].callers;
      IdIsOk(s.loops[l].callers[m.i].key, l, |s.loops|);
    }
  }

  lemma {:induction false} RunUnused(ss: seq<State>, acts: seq<Action>, i: nat, id: uint64)
    requires IsRun(ss, acts) && i < |ss| && !Reserved(id)
    ensures UnusedIsQuiet(ss[i], id)
  {
    hide Step, Enabled, Ok, Counted, UnusedIsQuiet;
    if i == 0 {
      InitQuiet(ss[0], id);
    } else {
      RunUnused(ss, acts, i - 1, id);
      RunOk(ss, acts, i - 1);
      RunCounted(ss, acts, i - 1);
      UnusedStep(ss[i - 1], acts[i - 1].l, acts[i - 1].m, id);
    }
  }

  lemma InitQuiet(s: State, id: uint64)
    requires Init(s)
    ensures UnusedIsQuiet(s, id)
  {
    hide Unused;
  }

  /**
   In every run, as long as fewer than 2^32 requests have been made on a descriptor, nothing is under way under the
   identifier that a caller on it has drawn and not yet registered, whatever requests have lost their timeouts.
   */
  lemma DrawnIsFresh(ss: seq<State>, acts: seq<Action>, i: nat, l: nat, c: nat, k: nat)
    requires IsRun(ss, acts) && i < |ss| && l < |ss[i].loops| && c < |ss[i].loops[l].callers| && k < |ss[i].loops|
    requires ss[i].Draws(ss[i].loops[l].callers[c].key.fd) < 0x1_0000_0000
    ensures Live(ss[i].loops[k], IdOf(ss[i].loops[l].callers[c].key)) == 0
  {
    hide Init, Step, Enabled, Live, IdOf, Fd, Nonce, LoopFor;
    var key := ss[i].loops[l].callers[c].key;
    RunOk(ss, acts, i);
    assert key.fd < MAX_FD by {
      assert LoopOk(ss[i].loops[l], l, |ss[i].loops|);
      assert ss[i].loops[l].callers[c] in ss[i].loops[l].callers;
    }
    IdIsOk(key, LoopFor(key.fd, 1), 1);
    RunUnused(ss, acts, i, IdOf(key));
    assert CallerWith(ss[i], KeyOf(IdOf(key)));
  }
}
