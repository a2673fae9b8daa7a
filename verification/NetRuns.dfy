/** Whole runs of the network reactor: exactly-once dispatch, and when precisely it holds. */
module NetRuns {
  import opened Words
  import opened RequestIds
  import opened RegistrySpec
  import opened CallbackLog
  import opened NetReactor
  import opened NetDispatch
  import C = Control
  import Registry

  // ----- the log -----

  /** What the log says is outstanding is what is registered, and only keys of descriptors are logged. */
  ghost predicate LedgerOk(s: State) {
    Ledger(s.log) == s.table.callbacks && forall e :: e in s.log ==> e.key.fd < MAX_FD
  }

  lemma LedgerStep(s: State, l: nat, m: Move)
    requires Ok(s) && Homed(s) && Enabled(s, l, m) && LedgerOk(s)
    ensures LedgerOk(Step(s, l, m))
  {
    hide Fd, Nonce, LoopFor, C.Step, C.Enabled, StepLoop, Ledger, Live;
    var s', d := Step(s, l, m), s.loops[l];
    var es := Logged(s.table, d, m);
    if es != [] {
      assert LoopOk(d, l, |s.loops|);
      if m.Dispatch? {
        DispatchedIsLive(d);
        assert Home(d.cq.ready[d.batch.i].userData, l, |s.loops|);
      } else if m.Register? {
        assert d.callers[m.i] in d.callers;
      }
      LogAppend(s.log, es[0]);
    } else {
      assert s'.log == s.log;
      assert s'.table.callbacks == s.table.callbacks;
    }
  }

  /** A completion that is not the library's own finds its callback registered. */
  lemma DispatchFinds(s: State, l: nat)
    requires Ok(s) && Enabled(s, l, Dispatch) && !Reserved(s.loops[l].cq.ready[s.loops[l].batch.i].userData)
    requires CorrespondsFor(s, s.loops[l].cq.ready[s.loops[l].batch.i].userData)
    ensures
      var key := KeyOf(s.loops[l].cq.ready[s.loops[l].batch.i].userData);
      key in s.table.callbacks && s.table.callbacks[key] != Nil
  {
    hide Fd, Nonce, LoopFor, Live, C.Enabled;
    DispatchedIsLive(s.loops[l]);
  }

  lemma DisciplineStep(s: State, l: nat, m: Move, id: uint64)
    requires Ok(s) && LedgerOk(s) && Enabled(s, l, m) && !Reserved(id)
    requires CorrespondsFor(s, id) && !BreaksFor(s, l, m, id) && DisciplinedOn(s.log, KeyOf(id))
    ensures DisciplinedOn(Step(s, l, m).log, KeyOf(id))
  {
    hide Fd, Nonce, LoopFor, Live, C.Step, C.Enabled, StepLoop, StepTable, Ledger, DisciplinedOn;
    var d := s.loops[l];
    assert LoopOk(d, l, |s.loops|);
    var es := Logged(s.table, d, m);
    if es == [] {
      assert Step(s, l, m).log == s.log;
    } else {
      if m.Dispatch? && es[0].key == KeyOf(id) {
        KeyOfInjective(id, d.cq.ready[d.batch.i].userData);
        DispatchFinds(s, l);
      } else if m.Register? {
        assert d.callers[m.i] in d.callers;
      }
      LogAppendOn(s.log, es[0], KeyOf(id));
    }
  }

  // ----- runs -----

  datatype Action = Action(l: nat, m: Move)

  /** A run: from a fresh reactor, each state follows from the one before by one move of one loop. */
  ghost predicate IsRun(ss: seq<State>, acts: seq<Action>) {
    && |ss| == |acts| + 1 && Init(ss[0])
    && forall i :: 0 <= i < |acts| ==>
         Enabled(ss[i], acts[i].l, acts[i].m) && ss[i + 1] == Step(ss[i], acts[i].l, acts[i].m)
  }

  lemma {:induction false} RunOk(ss: seq<State>, acts: seq<Action>, i: nat)
    requires IsRun(ss, acts) && i < |ss|
    ensures Ok(ss[i])
  {
    hide Ok, Init, Enabled, Step;
    if i == 0 {
      InitOk(ss[0]);
    } else {
      RunOk(ss, acts, i - 1);
      StepOk(ss[i - 1], acts[i - 1].l, acts[i - 1].m);
    }
  }

  lemma OkShape(s: State)
    requires Ok(s)
    ensures Shape(s)
  {
  }

  lemma InitCorresponds(s: State)
    requires Init(s)
    ensures Shape(s) && Homed(s) && LedgerOk(s) && s.log == [] && forall id: uint64 :: CorrespondsFor(s, id)
  {
    hide Fd, Nonce, LoopFor;
  }

  /**
   In every run, a request is under way only in the loop of its descriptor, and the log accounts for what is
   registered.
   */
  lemma {:induction false} RunHomed(ss: seq<State>, acts: seq<Action>, i: nat)
    requires IsRun(ss, acts) && i < |ss|
    ensures Shape(ss[i]) && Homed(ss[i]) && LedgerOk(ss[i])
  {
    hide Ok, Homed, LedgerOk, Init, Enabled, Step;
    if i == 0 {
      InitCorresponds(ss[0]);
    } else {
      RunHomed(ss, acts, i - 1);
      RunOk(ss, acts, i - 1);
      HomedStep(ss[i - 1], acts[i - 1].l, acts[i - 1].m);
      LedgerStep(ss[i - 1], acts[i - 1].l, acts[i - 1].m);
    }
  }

  ghost predicate BreaksForAt(ss: seq<State>, acts: seq<Action>, i: nat, id: uint64)
    requires IsRun(ss, acts) && i < |acts|
  {
    BreaksFor(ss[i], acts[i].l, acts[i].m, id)
  }

  /** None of the first `i` steps breaks the correspondence for an identifier. */
  ghost predicate UnbrokenUntil(ss: seq<State>, acts: seq<Action>, i: nat, id: uint64)
    requires IsRun(ss, acts) && i <= |acts|
  {
    forall j :: 0 <= j < i ==> !BreaksForAt(ss, acts, j, id)
  }

  lemma {:induction false} RunCorresponds(ss: seq<State>, acts: seq<Action>, i: nat, id: uint64)
    requires IsRun(ss, acts) && i < |ss| && !Reserved(id) && UnbrokenUntil(ss, acts, i, id)
    ensures Shape(ss[i]) && CorrespondsFor(ss[i], id) && DisciplinedOn(ss[i].log, KeyOf(id))
  {
    hide Init, Enabled, Step, Ok, CorrespondsFor, LedgerOk, BreaksFor, Homed, KeyOf, DisciplinedOn;
    if i == 0 {
      InitCorresponds(ss[0]);
      NothingOnKey(ss[0].log, KeyOf(id));
    } else {
      RunCorresponds(ss, acts, i - 1, id);
      RunOk(ss, acts, i - 1);
      RunHomed(ss, acts, i - 1);
      assert !BreaksForAt(ss, acts, i - 1, id);
      CorrespondsStep(ss[i - 1], acts[i - 1].l, acts[i - 1].m, id);
      DisciplineStep(ss[i - 1], acts[i - 1].l, acts[i - 1].m, id);
    }
  }

  ghost predicate AlwaysCorrespondsFor(ss: seq<State>, acts: seq<Action>, id: uint64)
    requires IsRun(ss, acts)
  {
    forall i :: 0 <= i < |ss| ==> Shape(ss[i]) && CorrespondsFor(ss[i], id)
  }

  /**
   Over every run of callers, publishers, consumers and kernel, and for each identifier: its callback and its
   request correspond at all times if and only if its deadline request never loses its second slot and its
   key is never reused while a callback is stored under it. What happens to other identifiers does not matter.
   */
  lemma CorrespondenceForIff(ss: seq<State>, acts: seq<Action>, id: uint64)
    requires IsRun(ss, acts) && !Reserved(id)
    ensures AlwaysCorrespondsFor(ss, acts, id) <==> UnbrokenUntil(ss, acts, |acts|, id)
  {
    hide Init, Enabled, Step, Ok, CorrespondsFor, BreaksFor, DisciplinedOn;
    if UnbrokenUntil(ss, acts, |acts|, id) {
      forall i | 0 <= i < |ss|
        ensures Shape(ss[i]) && CorrespondsFor(ss[i], id)
      {
        RunCorresponds(ss, acts, i, id);
      }
    }
    if AlwaysCorrespondsFor(ss, acts, id) {
      forall i | 0 <= i < |acts|
        ensures !BreaksForAt(ss, acts, i, id)
      {
        RunOk(ss, acts, i);
        if BreaksForAt(ss, acts, i, id) {
          assert CorrespondsFor(ss[i], id) && CorrespondsFor(ss[i + 1], id);
          BreaksIndeed(ss[i], acts[i].l, acts[i].m, id);
          assert false;
        }
      }
    }
  }

  ghost predicate AlwaysCorresponds(ss: seq<State>, acts: seq<Action>)
    requires IsRun(ss, acts)
  {
    forall i :: 0 <= i < |ss| ==> Shape(ss[i]) && Corresponds(ss[i])
  }

  ghost predicate BreaksAt(ss: seq<State>, acts: seq<Action>, i: nat)
    requires IsRun(ss, acts) && i < |acts|
  {
    Breaks(ss[i], acts[i].l, acts[i].m)
  }

  ghost predicate NeverBreaks(ss: seq<State>, acts: seq<Action>)
    requires IsRun(ss, acts)
  {
    forall i :: 0 <= i < |acts| ==> !BreaksAt(ss, acts, i)
  }

  lemma UnbrokenForAll(ss: seq<State>, acts: seq<Action>)
    requires IsRun(ss, acts)
    ensures NeverBreaks(ss, acts) <==> forall id: uint64 :: !Reserved(id) ==> UnbrokenUntil(ss, acts, |acts|, id)
  {
    hide Init, Step, Ok, Fd, Nonce;
    if !NeverBreaks(ss, acts) {
      var i :| 0 <= i < |acts| && BreaksAt(ss, acts, i);
      RunOk(ss, acts, i);
      var id := BrokenId(ss[i], acts[i].l, acts[i].m);
      assert BreaksForAt(ss, acts, i, id);
      assert !UnbrokenUntil(ss, acts, |acts|, id);
    } else {
      forall id: uint64, i | !Reserved(id) && 0 <= i < |acts|
        ensures !BreaksForAt(ss, acts, i, id)
      {
        assert !BreaksAt(ss, acts, i);
      }
    }
  }

  /** All identifiers together: the correspondence is one to one at all times exactly if no step breaks it for any. */
  lemma CorrespondenceIff(ss: seq<State>, acts: seq<Action>)
    requires IsRun(ss, acts)
    ensures AlwaysCorresponds(ss, acts) <==> NeverBreaks(ss, acts)
  {
    hide IsRun, CorrespondsFor, UnbrokenUntil, NeverBreaks;
    UnbrokenForAll(ss, acts);
    forall id: uint64 | !Reserved(id)
      ensures AlwaysCorrespondsFor(ss, acts, id) <==> UnbrokenUntil(ss, acts, |acts|, id)
    {
      CorrespondenceForIff(ss, acts, id);
    }
    if NeverBreaks(ss, acts) {
      forall i, id: uint64 | 0 <= i < |ss| && !Reserved(id)
        ensures Shape(ss[i]) && CorrespondsFor(ss[i], id)
      {
        assert AlwaysCorrespondsFor(ss, acts, id);
      }
      forall i | 0 <= i < |ss|
        ensures Shape(ss[i])
      {
        RunOk(ss, acts, i);
        OkShape(ss[i]);
      }
    }
    if AlwaysCorresponds(ss, acts) {
      forall id: uint64 | !Reserved(id)
        ensures UnbrokenUntil(ss, acts, |acts|, id)
      {
        assert AlwaysCorrespondsFor(ss, acts, id);
      }
    }
  }

  /** The identifier of the next event that loop `l` processes. */
  function NextId(s: State, l: nat): uint64
    requires Enabled(s, l, Dispatch)
  {
    s.loops[l].cq.ready[s.loops[l].batch.i].userData
  }

  /**
   Exactly-once dispatch, for each identifier by itself. As long as no step has broken it, a completion with this
   identifier finds a callback, it is the one last queued under it, and the callback is taken out; and each callback
   has been run or dropped under its key as often as it was queued, but for the one that is still registered.
   */
  lemma ExactlyOnce(ss: seq<State>, acts: seq<Action>, i: nat, id: uint64)
    requires IsRun(ss, acts) && i < |ss| && !Reserved(id) && UnbrokenUntil(ss, acts, i, id)
    ensures DisciplinedOn(ss[i].log, KeyOf(id)) && Ledger(ss[i].log) == ss[i].table.callbacks
    ensures
      var log, key, t := ss[i].log, KeyOf(id), ss[i].table.callbacks;
      forall cb: Callback ::
        Times(log, Queued(key, cb)) ==
        Runs(log, key, cb) + Times(log, Dropped(key, cb)) + (if key in t && t[key] == cb then 1 else 0)
    ensures i < |acts| && acts[i].m.Dispatch? && NextId(ss[i], acts[i].l) == id ==> FindsCallback(ss[i], acts[i].l)
  {
    hide Init, Enabled, Step, Ok, CorrespondsFor, BreaksFor, Homed, DisciplinedOn, Ledger, FindsCallback, Times, Runs;
    RunHomed(ss, acts, i);
    RunCorresponds(ss, acts, i, id);
    forall cb: Callback
      ensures
        var log, key, t := ss[i].log, KeyOf(id), ss[i].table.callbacks;
        Times(log, Queued(key, cb)) ==
        Runs(log, key, cb) + Times(log, Dropped(key, cb)) + (if key in t && t[key] == cb then 1 else 0)
    {
      OncePerQueueing(ss[i].log, KeyOf(id), cb);
    }
    if i < |acts| && acts[i].m.Dispatch? && NextId(ss[i], acts[i].l) == id {
      RunOk(ss, acts, i);
      DispatchStep(ss[i], acts[i].l);
    }
  }

  /** All identifiers together. */
  lemma AllExactlyOnce(ss: seq<State>, acts: seq<Action>, i: nat)
    requires IsRun(ss, acts) && NeverBreaks(ss, acts) && i < |ss|
    ensures Disciplined(ss[i].log)
    ensures i < |acts| && acts[i].m.Dispatch? && !Reserved(NextId(ss[i], acts[i].l)) ==> FindsCallback(ss[i], acts[i].l)
  {
    hide Init, Enabled, Step, Ok, BreaksFor, Disciplined, DisciplinedOn, Ledger, FindsCallback;
    UnbrokenForAll(ss, acts);
    forall id: uint64 | !Reserved(id)
      ensures DisciplinedOn(ss[i].log, KeyOf(id))
      ensures i < |acts| && acts[i].m.Dispatch? && NextId(ss[i], acts[i].l) == id ==> FindsCallback(ss[i], acts[i].l)
    {
      assert UnbrokenUntil(ss, acts, |acts|, id);
      ExactlyOnce(ss, acts, i, id);
    }
    forall key: Key
      ensures DisciplinedOn(ss[i].log, key)
    {
      RunHomed(ss, acts, i);
      if key.fd < MAX_FD {
        IdIsOk(key, LoopFor(key.fd, 1), 1);
        assert DisciplinedOn(ss[i].log, KeyOf(IdOf(key)));
      } else {
        NothingOnKey(ss[i].log, key);
      }
    }
    DisciplinedOnAll(ss[i].log);
  }

  /** Processing the next event of loop `l` runs the callback registered for it, with that event. */
  ghost predicate FindsCallback(s: State, l: nat) {
    && Enabled(s, l, Dispatch)
    && var key, event := KeyOf(NextId(s, l)), s.loops[l].cq.ready[s.loops[l].batch.i];
       && key in s.table.callbacks && s.table.callbacks[key] != Nil
       && Step(s, l, Dispatch).log == s.log + [Ran(key, s.table.callbacks[key], event)]
       && Step(s, l, Dispatch).table.callbacks == s.table.callbacks - {key}
  }

  lemma DispatchStep(s: State, l: nat)
    requires Ok(s) && Enabled(s, l, Dispatch) && !Reserved(NextId(s, l)) && CorrespondsFor(s, NextId(s, l))
    ensures FindsCallback(s, l)
  {
    hide Fd, Nonce, LoopFor, Live, C.Step, C.Enabled;
    DispatchFinds(s, l);
  }

  /** In every run, a request is under way in no loop but that of its descriptor. */
  lemma UnderWayAtHome(ss: seq<State>, acts: seq<Action>, i: nat, l: nat, id: uint64)
    requires IsRun(ss, acts) && i < |ss| && !Reserved(id)
    ensures Shape(ss[i]) && (l < |ss[i].loops| && LoopFor(Fd(id), |ss[i].loops|) != l ==> Live(ss[i].loops[l], id) == 0)
  {
    hide Init, Enabled, Step, Live, LoopFor, Fd, LedgerOk;
    RunHomed(ss, acts, i);
  }

  /** In every run, a consumer dispatches only from the registry shard that has the number of its own loop. */
  lemma OwnShardOnly(ss: seq<State>, acts: seq<Action>, i: nat)
    requires IsRun(ss, acts) && i < |acts| && acts[i].m.Dispatch?
    ensures
      var key := PoppedKey(ss[i].loops[acts[i].l], Dispatch);
      key.Some? ==> Registry.ShardNum(key.value.fd, 75, |ss[i].loops|) == acts[i].l
  {
    hide Init, Step, Ok, Live, Skeleton, Fits, Fd, Nonce, LedgerOk, C.Enabled;
    RunHomed(ss, acts, i);
    var d := ss[i].loops[acts[i].l];
    if PoppedKey(d, Dispatch).Some? {
      DispatchedIsLive(d);
      assert Home(d.cq.ready[d.batch.i].userData, acts[i].l, |ss[i].loops|);
    }
  }

  /** A registered request is under way only in the loop of its descriptor; there once, if nothing has broken it. */
  lemma RegisteredUnderWay(ss: seq<State>, acts: seq<Action>, i: nat, key: Key)
    requires IsRun(ss, acts) && i < |ss| && key in ss[i].table.callbacks
    ensures Shape(ss[i])
    ensures
      var id, n := IdOf(key), |ss[i].loops|;
      forall l: nat :: l < n ==>
        if l != LoopFor(Fd(id), n) then Live(ss[i].loops[l], id) == 0
        else UnbrokenUntil(ss, acts, i, id) ==> Live(ss[i].loops[l], id) == 1
  {
    hide Init, Enabled, Step, BreaksFor, LedgerOk, Live, LoopFor, IdOf, Fd, UnbrokenUntil, DisciplinedOn;
    RunOk(ss, acts, i);
    var s, n := ss[i], |ss[i].loops|;
    assert TableOk(s.table);
    IdIsOk(key, LoopFor(key.fd, n), n);
    forall l: nat | l < n
      ensures if l != LoopFor(Fd(IdOf(key)), n) then Live(s.loops[l], IdOf(key)) == 0
              else UnbrokenUntil(ss, acts, i, IdOf(key)) ==> Live(s.loops[l], IdOf(key)) == 1
    {
      UnderWayAtHome(ss, acts, i, l, IdOf(key));
      if UnbrokenUntil(ss, acts, i, IdOf(key)) {
        RunCorresponds(ss, acts, i, IdOf(key));
      }
    }
  }

  /**
   A Cancel of a registered request goes to the only loop in which that request can be under way, and, unless a
   step has broken the correspondence for this identifier, it is under way there, once.
   */
  lemma CancelReachesRequest(ss: seq<State>, acts: seq<Action>, i: nat, key: Key)
    requires IsRun(ss, acts) && i < |acts| && key in ss[i].table.callbacks && acts[i].m == AskCancel(IdOf(key))
    ensures
      var id := IdOf(key);
      forall l: nat :: l < |ss[i].loops| ==>
        if l != acts[i].l then Live(ss[i].loops[l], id) == 0
        else UnbrokenUntil(ss, acts, i, id) ==> Live(ss[i].loops[l], id) == 1
  {
    hide Init, Step, Live, LoopFor, IdOf, Fd, UnbrokenUntil, Skeleton, Possible, C.Enabled;
    RegisteredUnderWay(ss, acts, i, key);
  }

  /** A cancel that finds no free slot is dropped, and with it no callback. */
  lemma LostCancelIsHarmless(ss: seq<State>, acts: seq<Action>, i: nat)
    requires IsRun(ss, acts) && i < |acts| && acts[i].m.QueueFirst?
    requires
      var d := ss[i].loops[acts[i].l];
      d.job.req.userData == CANCEL_NONCE && d.sq.Free() <= 0
    ensures ss[i + 1].table == ss[i].table && ss[i + 1].log == ss[i].log
  {
    hide Init, Fd, C.Step, C.Enabled, StepLoop;
    RunOk(ss, acts, i);
    CancelKeyFree(ss[i].table);
  }
}
