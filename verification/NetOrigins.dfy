/**
 Where things in the network reactor come from, over whole runs: every request and every callback is that of a call of
 Queue, every cancel that of a call of Cancel, every event one that the kernel posted; and requests are handled in
 the order in which they were sent.
 */
module NetOrigins {
  import opened Words
  import opened Entries
  import opened RequestIds
  import opened RegistrySpec
  import opened SubmissionSpec
  import opened CompletionSpec
  import opened Tallies
  import opened CallbackLog
  import opened NetReactor
  import opened NetDispatch
  import opened NetRuns
  import S = NetSubmission
  import A = NetPacing
  import C = Control

  // ----- calls of Queue and Cancel -----

  /** The arguments of a call of Queue. */
  datatype Order = Order(op: Operation, cb: Callback, timeout: int)

  /** The calls of Queue on a descriptor, in the order in which they drew their nonces. */
  function Orders(acts: seq<Action>, fd: nat): seq<Order> {
    if acts == [] then []
    else
      var m := acts[|acts| - 1].m;
      Orders(acts[..|acts| - 1], fd) + (if m.Draw? && m.op.fd == fd then [Order(m.op, m.cb, m.timeout)] else [])
  }

  /** The `n`-th call on the descriptor of a key drew the key's nonce. */
  predicate Drew(acts: seq<Action>, key: Key, n: nat) {
    1 <= n <= |Orders(acts, key.fd)| && n % 0x1_0000_0000 == key.nonce
  }

  /** Some call of Cancel on loop `l` named this identifier. */
  ghost predicate AskedFor(acts: seq<Action>, l: nat, id: uint64) {
    Action(l, AskCancel(id)) in acts
  }

  lemma OrdersAppend(acts: seq<Action>, a: Action, fd: nat)
    ensures Orders(acts + [a], fd) ==
            Orders(acts, fd) + (if a.m.Draw? && a.m.op.fd == fd then [Order(a.m.op, a.m.cb, a.m.timeout)] else [])
  {
    assert (acts + [a])[..|acts|] == acts;
  }

  // ----- what carries an order -----

  /** The callback is that of a call which drew this key. */
  ghost predicate CallbackFrom(acts: seq<Action>, key: Key, cb: Callback) {
    exists n :: Drew(acts, key, n) && Orders(acts, key.fd)[n - 1].cb == cb
  }

  /** The operation and the timeout are those of a call which drew this key. */
  ghost predicate OrderFrom(acts: seq<Action>, key: Key, op: Operation, timeout: int) {
    exists n ::
      Drew(acts, key, n) && Orders(acts, key.fd)[n - 1].op == op && Orders(acts, key.fd)[n - 1].timeout == timeout
  }

  ghost predicate CallerFrom(acts: seq<Action>, c: Caller) {
    Drew(acts, c.key, c.serial) && Orders(acts, c.key.fd)[c.serial - 1] == Order(c.op, c.cb, c.timeout)
  }

  /** A request in loop `l` is a cancel that was asked for there, or carries the operation and timeout of a call. */
  ghost predicate RequestFrom(acts: seq<Action>, l: nat, req: Request) {
    if req.userData == CANCEL_NONCE
    then req.op.addr >= 0 && req.op.addr < 0x1_0000_0000_0000_0000 &&
         req == Request(Cancel(req.op.addr), 0, CANCEL_NONCE, 0) && AskedFor(acts, l, req.op.addr)
    else req.flags == 0 && OrderFrom(acts, KeyOf(req.userData), req.op, req.timeout)
  }

  ghost predicate LoopFrom(acts: seq<Action>, l: nat, d: Loop) {
    && (forall c :: c in d.callers ==> CallerFrom(acts, c))
    && (forall r :: r in d.sending ==> RequestFrom(acts, l, r))
    && (forall r :: r in d.bus ==> RequestFrom(acts, l, r))
    && (d.job.First? || d.job.Second? ==> RequestFrom(acts, l, d.job.req))
    && (forall a :: a in d.accepted ==> RequestFrom(acts, l, a.req))
  }

  ghost predicate TableFrom(acts: seq<Action>, t: Table) {
    forall k :: k in t.callbacks ==> CallbackFrom(acts, k, t.callbacks[k])
  }

  ghost predicate LogFrom(acts: seq<Action>, log: seq<Event<Key>>) {
    forall e :: e in log && e.cb != Nil ==> CallbackFrom(acts, e.key, e.cb)
  }

  lemma OlderOrders(acts: seq<Action>, a: Action, key: Key)
    ensures Orders(acts, key.fd) <= Orders(acts + [a], key.fd)
    ensures forall n :: Drew(acts, key, n) ==> Drew(acts + [a], key, n)
  {
    OrdersAppend(acts, a, key.fd);
  }

  /** Later actions take nothing back. */
  lemma StillFrom(acts: seq<Action>, a: Action, l: nat, d: Loop)
    requires LoopFrom(acts, l, d)
    ensures LoopFrom(acts + [a], l, d)
  {
    hide Orders, KeyOf;
    forall c | c in d.callers
      ensures CallerFrom(acts + [a], c)
    {
      OlderOrders(acts, a, c.key);
    }
    forall r | RequestFrom(acts, l, r)
      ensures RequestFrom(acts + [a], l, r)
    {
      OlderOrders(acts, a, KeyOf(r.userData));
    }
  }

  lemma StillCallback(acts: seq<Action>, a: Action, key: Key, cb: Callback)
    requires CallbackFrom(acts, key, cb)
    ensures CallbackFrom(acts + [a], key, cb)
  {
    hide Orders;
    OlderOrders(acts, a, key);
  }

  /** The step of a loop keeps it; its move is the newest action. */
  lemma LoopFromStep(acts: seq<Action>, l: nat, n: nat, d: Loop, m: Move, t: Table, serial: nat)
    requires Possible(d, m) && n > 0 && LoopOk(d, l, n) && LoopFrom(acts, l, d)
    requires m.Draw? ==>
               Drew(acts + [Action(l, m)], Key(m.op.fd, t.NextNonce(m.op.fd)), serial) &&
               Orders(acts + [Action(l, m)], m.op.fd)[serial - 1] == Order(m.op, m.cb, m.timeout)
    ensures LoopFrom(acts + [Action(l, m)], l, StepLoop(d, m, t, serial))
  {
    hide Orders, Drew, IdOf, LoopOk, RequestFrom, StepLoop;
    StillFrom(acts, Action(l, m), l, d);
    var acts', d' := acts + [Action(l, m)], StepLoop(d, m, t, serial);
    MovesRequests(d, m, t, serial);
    match m
    case Register(i) =>
      assert d.callers[i] in d.callers;
      RegisteredFrom(acts', l, n, d, i);
    case AskCancel(id) =>
      assert acts'[|acts|] == Action(l, AskCancel(id));
      CancelFrom(acts', l, id);
    case _ =>
  }

  /** A step makes a request only of a caller or of a Cancel; otherwise it passes requests on. */
  lemma MovesRequests(d: Loop, m: Move, t: Table, serial: nat)
    requires Possible(d, m)
    ensures
      var d' := StepLoop(d, m, t, serial);
      && (forall c :: c in d'.callers ==>
            || c in d.callers
            || (m.Draw? && c == Caller(m.op, m.cb, m.timeout, Key(m.op.fd, t.NextNonce(m.op.fd)), serial)))
      && (forall r :: r in d'.sending ==>
            || r in d.sending || (m.AskCancel? && r == Request(Cancel(m.id), 0, CANCEL_NONCE, 0))
            || (m.Register? && var c := d.callers[m.i]; r == Request(c.op, 0, IdOf(c.key), c.timeout)))
      && (forall r :: r in d'.bus ==> r in d.bus || r in d.sending)
      && (d'.job.First? || d'.job.Second? ==>
            d'.job.req in d.bus || ((d.job.First? || d.job.Second?) && d'.job.req == d.job.req))
      && (forall a :: a in d'.accepted ==>
            a in d.accepted || ((d.job.First? || d.job.Second?) && a.req == d.job.req))
  {
    hide FirstEntry, TimeoutEntry, IdOf, SubQueue.Enqueue, CompQueue.Post, Table.NextNonce;
  }

  lemma CancelFrom(acts: seq<Action>, l: nat, id: uint64)
    requires AskedFor(acts, l, id)
    ensures RequestFrom(acts, l, Request(Cancel(id), 0, CANCEL_NONCE, 0))
  {
  }

  lemma RegisteredFrom(acts: seq<Action>, l: nat, n: nat, d: Loop, i: nat)
    requires n > 0 && LoopOk(d, l, n) && i < |d.callers| && CallerFrom(acts, d.callers[i])
    ensures var c := d.callers[i]; RequestFrom(acts, l, Request(c.op, 0, IdOf(c.key), c.timeout))
  {
    hide Orders, KeyOf, IdOf, LoopFor, Fd, Drew, QueuesOk, JobOk, RequestsOk;
    assert d.callers[i] in d.callers;
    IdIsOk(d.callers[i].key, l, n);
  }

  /** Everything in a state comes from the actions so far. */
  ghost predicate AllFrom(acts: seq<Action>, s: State) {
    && (forall l :: 0 <= l < |s.loops| ==> LoopFrom(acts, l, s.loops[l]))
    && TableFrom(acts, s.table) && LogFrom(acts, s.log)
    && (forall fd: nat :: s.Draws(fd) == |Orders(acts, fd)|)
  }

  lemma DrawsStep(acts: seq<Action>, s: State, l: nat, m: Move, fd: nat)
    requires Enabled(s, l, m) && s.Draws(fd) == |Orders(acts, fd)|
    ensures Step(s, l, m).Draws(fd) == |Orders(acts + [Action(l, m)], fd)|
  {
    hide Orders, Step;
    A.DrawsAfter(s, l, m, fd);
    OrdersAppend(acts, Action(l, m), fd);
  }

  lemma TableFromStep(acts: seq<Action>, s: State, l: nat, m: Move)
    requires Enabled(s, l, m) && TableFrom(acts, s.table) && LogFrom(acts, s.log) && LoopFrom(acts, l, s.loops[l])
    ensures TableFrom(acts + [Action(l, m)], Step(s, l, m).table)
    ensures LogFrom(acts + [Action(l, m)], Step(s, l, m).log)
  {
    hide Orders, KeyOf, Drew, StepLoop, C.Step, C.Enabled, Skeleton, RequestFrom, CallbackFrom;
    var acts', s', d := acts + [Action(l, m)], Step(s, l, m), s.loops[l];
    if m.Register? {
      assert d.callers[m.i] in d.callers;
      assert CallbackFrom(acts, d.callers[m.i].key, d.callers[m.i].cb) by { CallersCallback(acts, d.callers[m.i]); }
    }
    forall k | k in s'.table.callbacks
      ensures CallbackFrom(acts', k, s'.table.callbacks[k])
    {
      StillCallback(acts, Action(l, m), k, s'.table.callbacks[k]);
    }
    forall e | e in s'.log && e.cb != Nil
      ensures CallbackFrom(acts', e.key, e.cb)
    {
      StillCallback(acts, Action(l, m), e.key, e.cb);
    }
  }

  lemma CallersCallback(acts: seq<Action>, c: Caller)
    requires CallerFrom(acts, c)
    ensures CallbackFrom(acts, c.key, c.cb)
  {
  }

  lemma AllFromStep(acts: seq<Action>, s: State, l: nat, m: Move)
    requires Ok(s) && A.Counted(s) && Enabled(s, l, m) && AllFrom(acts, s)
    ensures AllFrom(acts + [Action(l, m)], Step(s, l, m))
  {
    hide Ok, Orders, Step, Enabled, LoopFrom, TableFrom, LogFrom, Drew, A.Counted;
    StepShape(s, l, m);
    var acts', s' := acts + [Action(l, m)], Step(s, l, m);
    TableFromStep(acts, s, l, m);
    forall fd: nat
      ensures s'.Draws(fd) == |Orders(acts', fd)|
    {
      DrawsStep(acts, s, l, m, fd);
    }
    forall k | 0 <= k < |s'.loops|
      ensures LoopFrom(acts', k, s'.loops[k])
    {
      StillFrom(acts, Action(l, m), k, s.loops[k]);
      if k == l {
        MovingLoopFrom(acts, s, l, m);
      }
    }
  }

  lemma MovingLoopFrom(acts: seq<Action>, s: State, l: nat, m: Move)
    requires Ok(s) && A.Counted(s) && Enabled(s, l, m) && AllFrom(acts, s)
    ensures l < |Step(s, l, m).loops| && LoopFrom(acts + [Action(l, m)], l, Step(s, l, m).loops[l])
  {
    hide Orders, StepLoop, StepTable, LoopFrom, TableFrom, LogFrom, C.Step, C.Enabled, Skeleton, C.Inv, LoopOk, InStep,
      TableOk, A.CallersCounted;
    assert LoopOk(s.loops[l], l, |s.loops|) && LoopFrom(acts, l, s.loops[l]);
    var serial := if m.Draw? then s.Draws(m.op.fd) + 1 else 0;
    if m.Draw? {
      OrdersAppend(acts, Action(l, m), m.op.fd);
      assert s.table.Counter(m.op.fd) == s.Draws(m.op.fd) % 0x1_0000_0000;
      A.NextSerial(s.Draws(m.op.fd));
    }
    LoopFromStep(acts, l, |s.loops|, s.loops[l], m, s.table, serial);
  }

  lemma {:induction false} RunFrom(ss: seq<State>, acts: seq<Action>, i: nat)
    requires IsRun(ss, acts) && i < |ss|
    ensures AllFrom(acts[..i], ss[i])
  {
    hide Ok, Step, Enabled, AllFrom, A.Counted;
    if i == 0 {
      InitFrom(ss[0]);
      assert acts[..0] == [];
    } else {
      RunFrom(ss, acts, i - 1);
      RunOk(ss, acts, i - 1);
      A.RunCounted(ss, acts, i - 1);
      AllFromStep(acts[..i - 1], ss[i - 1], acts[i - 1].l, acts[i - 1].m);
      assert acts[..i] == acts[..i - 1] + [acts[i - 1]];
    }
  }

  lemma InitFrom(s: State)
    requires Init(s)
    ensures AllFrom([], s)
  {
  }

  /**
   In every run, whatever the interleaving: a callback that is queued, run or dropped under a key is that of a call of
   Queue which drew this key, and a request that is accepted carries the operation and timeout of such a call, and no
   flags. A cancel that is accepted names an identifier for which Cancel was called on this loop.
   */
  lemma EverythingWasOrdered(ss: seq<State>, acts: seq<Action>, i: nat)
    requires IsRun(ss, acts) && i < |ss|
    ensures forall e :: e in ss[i].log && e.cb != Nil ==> CallbackFrom(acts[..i], e.key, e.cb)
    ensures forall l, a :: 0 <= l < |ss[i].loops| && a in ss[i].loops[l].accepted ==> RequestFrom(acts[..i], l, a.req)
  {
    hide Init, Enabled, Step, CallbackFrom, RequestFrom, CallerFrom, TableFrom, Orders;
    RunFrom(ss, acts, i);
  }

  /**
   Within the first 2^32 calls on a descriptor there is only one: the nonce is the number of the call. So the callback
   that runs under an identifier is the one given with the operation that was submitted under it.
   */
  lemma OneOrderEach(acts: seq<Action>, key: Key)
    requires |Orders(acts, key.fd)| < 0x1_0000_0000
    ensures forall n :: Drew(acts, key, n) ==> n == key.nonce
    ensures forall cb :: CallbackFrom(acts, key, cb) ==>
              1 <= key.nonce <= |Orders(acts, key.fd)| && cb == Orders(acts, key.fd)[key.nonce - 1].cb
    ensures forall op, timeout :: OrderFrom(acts, key, op, timeout) ==>
              && 1 <= key.nonce <= |Orders(acts, key.fd)|
              && op == Orders(acts, key.fd)[key.nonce - 1].op && timeout == Orders(acts, key.fd)[key.nonce - 1].timeout
  {
    hide Orders;
  }

  /**
   So whatever is queued, run or dropped for an accepted request is the callback that was given with it, in the call
   whose number is the nonce.
   */
  lemma CallbackOfItsRequest(ss: seq<State>, acts: seq<Action>, i: nat, l: nat, a: Accept, x: Event<Key>)
    requires IsRun(ss, acts) && i < |ss| && l < |ss[i].loops|
    requires a in ss[i].loops[l].accepted && a.req.userData != CANCEL_NONCE
    requires x in ss[i].log && x.cb != Nil && x.key == KeyOf(a.req.userData)
    requires |Orders(acts[..i], x.key.fd)| < 0x1_0000_0000
    ensures 1 <= x.key.nonce <= |Orders(acts[..i], x.key.fd)|
    ensures Orders(acts[..i], x.key.fd)[x.key.nonce - 1] == Order(a.req.op, x.cb, a.req.timeout)
  {
    hide Init, Enabled, Step, CallbackFrom, OrderFrom, Orders, KeyOf;
    EverythingWasOrdered(ss, acts, i);
    OneOrderEach(acts[..i], x.key);
    assert RequestFrom(acts[..i], l, a.req);
  }

  // ----- the entries the kernel gets -----

  /** An entry in loop `l` is, field by field, that of a call of Queue, of a call of Cancel, or of a deadline. */
  ghost predicate EntryFrom(acts: seq<Action>, l: nat, e: SQEntry) {
    if e.userData == TIMEOUT_NONCE then exists duration :: duration != 0 && S.IsLinkTimeout(e, duration)
    else if e.userData == CANCEL_NONCE then
      && 0 <= e.addr < 0x1_0000_0000_0000_0000 && AskedFor(acts, l, e.addr)
      && e.opCode == 14 && e.fd == -1 && e.len == 0 && e.off == 0 && e.opcodeFlags == 0 && e.flags == 0
    else
      exists op, timeout ::
        OrderFrom(acts, KeyOf(e.userData), op, timeout) && Holds(e, op, if timeout == 0 then 0 else 4, e.userData)
  }

  /** Every entry ever queued, published or consumed by the kernel is one of these. */
  lemma EntriesWereOrdered(ss: seq<State>, acts: seq<Action>, i: nat, l: nat, e: SQEntry)
    requires IsRun(ss, acts) && i < |ss| && l < |ss[i].loops| && e in ss[i].loops[l].sq.History()
    ensures EntryFrom(acts[..i], l, e)
  {
    hide Init, Enabled, Step, OrderFrom, CallerFrom, TableFrom, LogFrom, Orders, S.EncodeAll, AskedFor, KeyOf, S.FlagUp,
      InStep, FirstEntry, TimeoutEntry, S.IsLinkTimeout, Holds, EntryFrom;
    SameLoops(ss, acts, i);
    RunFrom(ss, acts, i);
    S.RunSubmits(ss, acts, i, l);
    S.RunPlain(ss, acts, i, l);
    var d := ss[i].loops[l];
    assert LoopFrom(acts[..i], l, d);
    if e in S.EncodeAll(d.accepted) {
      var a := S.EncodedOf(d.accepted, e);
      FieldsFrom(acts[..i], l, a, e);
    } else {
      assert d.job.Second? && e == FirstEntry(d.job.req);
      RunOk(ss, acts, i);
      assert LoopOk(d, l, |ss[i].loops|);
      FieldsFrom(acts[..i], l, Half(d.job.req), e);
    }
  }

  lemma {:induction false} SameLoops(ss: seq<State>, acts: seq<Action>, i: nat)
    requires IsRun(ss, acts) && i < |ss|
    ensures |ss[i].loops| == |ss[0].loops|
  {
    hide Init, Enabled, Step;
    if i > 0 {
      SameLoops(ss, acts, i - 1);
      StepShape(ss[i - 1], acts[i - 1].l, acts[i - 1].m);
    }
  }

  lemma FieldsFrom(acts: seq<Action>, l: nat, a: Accept, e: SQEntry)
    requires RequestFrom(acts, l, a.req) && S.PlainAccept(a) && e in S.Encode(a)
    ensures EntryFrom(acts, l, e)
  {
    hide OrderFrom, AskedFor, KeyOf, FirstEntry, TimeoutEntry;
    S.EntriesOf(a.req);
  }

  /** In which step a cancel was asked for. */
  lemma AskedWhen(acts: seq<Action>, l: nat, id: uint64) returns (j: nat)
    requires AskedFor(acts, l, id)
    ensures j < |acts| && acts[j] == Action(l, AskCancel(id))
  {
    j :| j < |acts| && acts[j] == Action(l, AskCancel(id));
  }

  /**
   In every run, a cancel that loop `l` has queued names a request for which Cancel was called on this loop, and that
   request is under way in no other loop, then or later; and, as long as its callback is registered and no step has
   broken the correspondence for it, it is under way in this loop, once.
   */
  lemma CancelGoesHome(ss: seq<State>, acts: seq<Action>, i: nat, l: nat, e: SQEntry)
    requires IsRun(ss, acts) && i < |ss| && l < |ss[i].loops|
    requires e in ss[i].loops[l].sq.History() && e.userData == CANCEL_NONCE
    ensures e.opCode == 14 && 0 <= e.addr < 0x1_0000_0000_0000_0000 && AskedFor(acts[..i], l, e.addr)
    ensures !Reserved(e.addr) ==> forall k: nat :: k < |ss[i].loops| && k != l ==> Live(ss[i].loops[k], e.addr) == 0
    ensures !Reserved(e.addr) && KeyOf(e.addr) in ss[i].table.callbacks && UnbrokenUntil(ss, acts, i, e.addr) ==>
              Live(ss[i].loops[l], e.addr) == 1
  {
    hide Init, Step, Live, LoopFor, KeyOf, Fd, OrderFrom, S.IsLinkTimeout, Holds, UnbrokenUntil, Homed, LedgerOk,
      Skeleton, DisciplinedOn, AskedFor, Possible, C.Enabled;
    EntriesWereOrdered(ss, acts, i, l, e);
    var id: uint64 := e.addr;
    var j := AskedWhen(acts[..i], l, id);
    SameLoops(ss, acts, i);
    SameLoops(ss, acts, j);
    assert LoopFor(Fd(id), |ss[i].loops|) == l;
    if !Reserved(id) {
      forall k: nat | k < |ss[i].loops| && k != l
        ensures Live(ss[i].loops[k], id) == 0
      {
        UnderWayAtHome(ss, acts, i, k, id);
      }
      if KeyOf(id) in ss[i].table.callbacks && UnbrokenUntil(ss, acts, i, id) {
        RunCorresponds(ss, acts, i, id);
      }
    }
  }

  // ----- events -----

  /** In step `j` the kernel posts this event in loop `l`, for an entry that it had consumed there. */
  ghost predicate PostsAt(ss: seq<State>, acts: seq<Action>, j: nat, l: nat, e: CQEvent) {
    && j < |acts| && j < |ss| && acts[j].l == l && l < |ss[j].loops| && acts[j].m.Complete?
    && acts[j].m.i < |ss[j].loops[l].inflight|
    && e == CQEvent(ss[j].loops[l].inflight[acts[j].m.i], acts[j].m.res, acts[j].m.flags)
  }

  ghost predicate PostedBy(ss: seq<State>, acts: seq<Action>, i: nat, l: nat, e: CQEvent) {
    exists j :: 0 <= j < i && PostsAt(ss, acts, j, l, e)
  }

  /** Everything a completion queue holds or has held. */
  function Received(q: CompQueue): seq<CQEvent> {
    q.seen + q.ready + q.backlog
  }

  /** A step brings no event into a completion queue but the one that the kernel posts. */
  lemma ReceivedStep(d: Loop, m: Move, t: Table, serial: nat, e: CQEvent)
    requires Possible(d, m) && e in Received(StepLoop(d, m, t, serial).cq)
    ensures e in Received(d.cq) || (m.Complete? && e == CQEvent(d.inflight[m.i], m.res, m.flags))
  {
    hide FirstEntry, TimeoutEntry, IdOf;
  }

  /** Every event that a loop has or has had was posted in it by the kernel, with its result and flags. */
  lemma {:induction false} EventsWerePosted(ss: seq<State>, acts: seq<Action>, i: nat, l: nat, e: CQEvent)
    requires IsRun(ss, acts) && i < |ss| && l < |ss[i].loops| && e in Received(ss[i].loops[l].cq)
    ensures PostedBy(ss, acts, i, l, e)
  {
    hide Received, Init, StepTable, StepLoop, Logged, C.Step, C.Enabled, Skeleton;
    if i == 0 {
      NothingReceived(ss[0], l);
      assert false;
    } else {
      var s, a := ss[i - 1], acts[i - 1];
      StepShape(s, a.l, a.m);
      if a.l == l && e !in Received(s.loops[l].cq) {
        ReceivedStep(s.loops[l], a.m, s.table, if a.m.Draw? then s.Draws(a.m.op.fd) + 1 else 0, e);
        assert PostsAt(ss, acts, i - 1, l, e);
      } else {
        EventsWerePosted(ss, acts, i - 1, l, e);
        var j :| 0 <= j < i - 1 && PostsAt(ss, acts, j, l, e);
      }
    }
  }

  lemma NothingReceived(s: State, l: nat)
    requires Init(s) && l < |s.loops|
    ensures Received(s.loops[l].cq) == []
  {
  }

  /**
   Every callback that has been run was run with an event that the kernel posted in the loop of its descriptor, and
   whose identifier is that of its key.
   */
  lemma {:induction false} RanOnItsEvent(ss: seq<State>, acts: seq<Action>, i: nat, x: Event<Key>)
    requires IsRun(ss, acts) && i < |ss| && x in ss[i].log && x.Ran?
    ensures !Reserved(x.event.userData) && KeyOf(x.event.userData) == x.key
    ensures |ss[0].loops| > 0 && PostedBy(ss, acts, i, LoopFor(x.key.fd, |ss[0].loops|), x.event)
  {
    hide Init, Step, KeyOf, LoopFor, PostedBy, Enabled;
    RunOk(ss, acts, 0);
    OkShape(ss[0]);
    if i == 0 {
      assert false by { NothingLogged(ss[0]); }
    } else {
      if x in ss[i - 1].log {
        RanOnItsEvent(ss, acts, i - 1, x);
        PostedEarlier(ss, acts, i, LoopFor(x.key.fd, |ss[0].loops|), x.event);
      } else {
        RanNow(ss, acts, i, x);
      }
    }
  }

  lemma NothingLogged(s: State)
    requires Init(s)
    ensures s.log == []
  {
  }

  lemma PostedEarlier(ss: seq<State>, acts: seq<Action>, i: nat, l: nat, e: CQEvent)
    requires i > 0 && PostedBy(ss, acts, i - 1, l, e)
    ensures PostedBy(ss, acts, i, l, e)
  {
    var j :| 0 <= j < i - 1 && PostsAt(ss, acts, j, l, e);
  }

  lemma RanNow(ss: seq<State>, acts: seq<Action>, i: nat, x: Event<Key>)
    requires IsRun(ss, acts) && 0 < i < |ss| && x in ss[i].log && x !in ss[i - 1].log && x.Ran?
    ensures !Reserved(x.event.userData) && KeyOf(x.event.userData) == x.key
    ensures |ss[0].loops| > 0 && PostedBy(ss, acts, i, LoopFor(x.key.fd, |ss[0].loops|), x.event)
  {
    hide Init, Fd, Nonce, LoopFor, PostedBy, Live, StepTable, StepLoop, C.Step, C.Enabled, Skeleton, LedgerOk;
    var s, a := ss[i - 1], acts[i - 1];
    var d := s.loops[a.l];
    RunHomed(ss, acts, i - 1);
    SameLoops(ss, acts, i - 1);
    assert x in Logged(s.table, d, a.m);
    DispatchedIsLive(d);
    assert Home(d.cq.ready[d.batch.i].userData, a.l, |s.loops|);
    assert x.event == d.cq.ready[d.batch.i];
    EventsWerePosted(ss, acts, i - 1, a.l, x.event);
    PostedEarlier(ss, acts, i, a.l, x.event);
  }

  // ----- bounds -----

  /** In every run, the bus never holds more than 256 requests and no batch has more than 128 events. */
  lemma {:induction false} BuffersBounded(ss: seq<State>, acts: seq<Action>, i: nat, l: nat)
    requires IsRun(ss, acts) && i < |ss| && l < |ss[i].loops|
    ensures |ss[i].loops[l].bus| <= 256 && (ss[i].loops[l].batch.Batch? ==> ss[i].loops[l].batch.n <= 128)
  {
    hide StepLoop, StepTable, Logged, C.Step, C.Enabled, Skeleton;
    if i > 0 {
      var s, a := ss[i - 1], acts[i - 1];
      StepShape(s, a.l, a.m);
      BuffersBounded(ss, acts, i - 1, l);
      BoundsStep(s.loops[a.l], a.m, s.table, if a.m.Draw? then s.Draws(a.m.op.fd) + 1 else 0);
    }
  }

  lemma BoundsStep(d: Loop, m: Move, t: Table, serial: nat)
    requires Possible(d, m)
    ensures var d' := StepLoop(d, m, t, serial);
            && (|d.bus| <= 256 ==> |d'.bus| <= 256)
            && ((d.batch.Batch? ==> d.batch.n <= 128) ==> (d'.batch.Batch? ==> d'.batch.n <= 128))
  {
    hide FirstEntry, TimeoutEntry, IdOf;
  }
}
