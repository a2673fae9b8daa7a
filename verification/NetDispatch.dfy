/**
 Callback dispatch in the network reactor: registered callbacks and requests under way correspond one
 to one, so that every completion finds exactly the callback queued for it and none runs twice.

 The code breaks the correspondence in two situations, and the main theorem says that these are the only ones.
 */
module NetDispatch {
  import opened Words
  import opened Entries
  import opened RequestIds
  import opened RegistrySpec
  import opened Tallies
  import opened Pending
  import opened NetReactor
  import C = Control

  // ----- what every step keeps, whatever the run -----

  ghost predicate RequestOk(req: Request, l: nat, n: nat)
    requires n > 0
  {
    if req.userData == CANCEL_NONCE then req.timeout == 0
    else !Reserved(req.userData) && Fd(req.userData) < MAX_FD && LoopFor(Fd(req.userData), n) == l
  }

  ghost predicate CallerOk(c: Caller, l: nat, n: nat)
    requires n > 0
  {
    c.key.fd == c.op.fd && c.key.fd < MAX_FD && LoopFor(c.key.fd, n) == l && c.cb != Nil
  }

  ghost predicate RequestsOk(reqs: seq<Request>, l: nat, n: nat)
    requires n > 0
  {
    forall x :: x in reqs ==> RequestOk(x, l, n)
  }

  ghost predicate JobOk(d: Loop, l: nat, n: nat)
    requires n > 0
  {
    && (d.job.First? || d.job.Second? ==> RequestOk(d.job.req, l, n))
    && (d.job.Second? ==> d.job.req.timeout != 0 && d.sq.unpublished != [] &&
                          d.sq.unpublished[|d.sq.unpublished| - 1].userData == d.job.req.userData)
  }

  ghost predicate QueuesOk(d: Loop) {
    && d.sq.Valid() && d.cq.Valid()
    && (d.batch.Batch? ==> d.batch.i <= d.batch.n <= |d.cq.ready| && d.batch.n > 0)
  }

  ghost predicate LoopOk(d: Loop, l: nat, n: nat)
    requires n > 0
  {
    && QueuesOk(d) && JobOk(d, l, n)
    && (forall x :: x in d.callers ==> CallerOk(x, l, n))
    && RequestsOk(d.sending, l, n) && RequestsOk(d.bus, l, n)
  }

  /** The data agree with the program counters. */
  ghost predicate InStep(d: Loop, c: C.Loop) {
    && (d.job.NoJob? <==> c.pub != C.Busy)
    && (d.batch.Batch? ==> c.con == C.Drain)
  }

  ghost predicate InStepAt(s: State, l: nat) {
    l < |s.loops| && l < |s.ctl.loops| && InStep(s.loops[l], s.ctl.loops[l])
  }

  ghost predicate TableOk(t: Table) {
    forall k :: k in t.callbacks ==> k.fd < MAX_FD && t.callbacks[k] != Nil
  }

  ghost predicate Ok(s: State) {
    && Shape(s) && C.Inv(s.ctl) && s.ctl.net && TableOk(s.table)
    && (forall l :: 0 <= l < |s.loops| ==> LoopOk(s.loops[l], l, |s.loops|))
    && (forall l :: 0 <= l < |s.loops| ==> InStep(s.loops[l], s.ctl.loops[l]))
  }

  lemma InitOk(s: State)
    requires Init(s)
    ensures Ok(s)
  {
    C.InitInv(s.ctl);
  }

  lemma IdIsOk(key: Key, l: nat, n: nat)
    requires n > 0 && key.fd < MAX_FD && LoopFor(key.fd, n) == l
    ensures !Reserved(IdOf(key)) && KeyOf(IdOf(key)) == key && Fd(IdOf(key)) == key.fd
  {
    hide Fd, Pack, LoopFor;
    ReservedIff(key.fd, key.nonce);
    RoundTrip(key.fd, key.nonce);
    assert IdOf(key) == Pack(key.fd, key.nonce) by { PackIs(key.fd, key.nonce); }
  }

  lemma StepQueuesOk(d: Loop, m: Move, t: Table, serial: nat)
    requires Possible(d, m) && QueuesOk(d)
    ensures QueuesOk(StepLoop(d, m, t, serial))
  {
    hide FirstEntry, TimeoutEntry, IdOf;
  }

  lemma StepJobOk(d: Loop, m: Move, t: Table, serial: nat, l: nat, n: nat)
    requires Possible(d, m) && n > 0 && LoopOk(d, l, n)
    ensures JobOk(StepLoop(d, m, t, serial), l, n)
  {
    hide IdOf, BitOr, RequestOk, CallerOk, QueuesOk;
    if m.Receive? {
      assert d.bus[0] in d.bus;
    }
  }

  lemma StepLoopOk(s: State, l: nat, m: Move)
    requires Ok(s) && Enabled(s, l, m)
    ensures LoopOk(Step(s, l, m).loops[l], l, |s.loops|)
  {
    hide Fd, Pack, LoopFor, IdOf, BitOr, Reserved, C.Enabled, C.Step, RequestOk, C.Inv, Skeleton, StepTable, Logged,
      TableOk, InStep, QueuesOk, JobOk;
    var d, n := s.loops[l], |s.loops|;
    var serial := if m.Draw? then s.Draws(m.op.fd) + 1 else 0;
    StepQueuesOk(d, m, s.table, serial);
    StepJobOk(d, m, s.table, serial, l, n);
    match m
    case Draw(_, _, _) =>
    case Register(i) =>
      assert d.callers[i] in d.callers;
      IdIsOk(d.callers[i].key, l, n);
      RegisteredOk(d.callers[i], l, n);
    case AskCancel(id) => CancelOk(id, l, n);
    case Send(i) => assert d.sending[i] in d.sending;
    case _ =>
  }

  lemma RegisteredOk(c: Caller, l: nat, n: nat)
    requires n > 0 && CallerOk(c, l, n)
    ensures RequestOk(Request(c.op, 0, IdOf(c.key), c.timeout), l, n)
  {
    hide IdOf, Fd, LoopFor;
    IdIsOk(c.key, l, n);
  }

  lemma CancelOk(id: uint64, l: nat, n: nat)
    requires n > 0
    ensures RequestOk(Request(Cancel(id), 0, CANCEL_NONCE, 0), l, n)
  {
  }

  lemma StepInStep(s: State, l: nat, m: Move)
    requires Ok(s) && Enabled(s, l, m)
    ensures InStepAt(Step(s, l, m), l)
  {
    hide Fd, Pack, LoopFor, IdOf, BitOr, Reserved, RequestOk, LoopOk;
    assert C.LoopInv(true, s.ctl.loops[l], C.Progress(s.ctl.runner, l));
    assert InStep(s.loops[l], s.ctl.loops[l]);
  }

  lemma StepTableOk(s: State, l: nat, m: Move)
    requires Ok(s) && Enabled(s, l, m)
    ensures TableOk(Step(s, l, m).table)
  {
    hide Fd, Pack, LoopFor, IdOf, BitOr, Reserved, RequestOk, C.Enabled, C.Step, C.Inv, StepLoop;
    if m.Register? {
      assert s.loops[l].callers[m.i] in s.loops[l].callers;
    }
  }

  /** Every step of every run keeps the data well formed, and the skeleton safe. */
  lemma StepOk(s: State, l: nat, m: Move)
    requires Ok(s) && Enabled(s, l, m)
    ensures Ok(Step(s, l, m))
  {
    hide LoopOk, InStep, TableOk, StepLoop, StepTable, C.Enabled, C.Step, C.Inv;
    var s' := Step(s, l, m);
    var c := Skeleton(s.loops[l], m);
    StepLoopOk(s, l, m);
    StepInStep(s, l, m);
    StepTableOk(s, l, m);
    SkeletonSteps(s, l, m);
  }

  lemma SkeletonSteps(s: State, l: nat, m: Move)
    requires Ok(s) && Enabled(s, l, m)
    ensures var c := Step(s, l, m).ctl;
            && C.Inv(c) && c.net && |c.loops| == |s.loops|
            && forall k :: 0 <= k < |s.loops| && k != l ==> c.loops[k] == s.ctl.loops[k]
  {
    hide LoopOk, InStep, TableOk, StepLoop, StepTable, C.LoopInv;
    var c := Skeleton(s.loops[l], m);
    if c.Some? {
      C.StepInv(s.ctl, l, c.value);
    }
  }

  // ----- requests under way -----

  function RequestId(req: Request): int {
    req.userData
  }

  function SqeId(e: SQEntry): int {
    e.userData
  }

  function Self(id: uint64): int {
    id
  }

  /** How often an identifier is on its way to the submission queue. */
  function Coming(d: Loop, id: int): nat {
    Count(d.sending, RequestId, id) + Count(d.bus, RequestId, id) +
    (if d.job.First? then Is(d.job.req.userData, id) else 0)
  }

  /** How often it is in the submission queue or in the kernel. */
  function Submitted(d: Loop, id: int): nat {
    Count(d.sq.unpublished, SqeId, id) + Count(d.sq.published, SqeId, id) + Count(d.inflight, Self, id)
  }

  /** How often it is completed and not yet processed. */
  function Completed(d: Loop, id: int): nat {
    Unprocessed(d.cq, if d.batch.Batch? then d.batch.i else 0, id)
  }

  /** How often an identifier is under way in a loop. */
  function Live(d: Loop, id: int): nat {
    Coming(d, id) + Submitted(d, id) + Completed(d, id)
  }

  /** What a move adds to the number of times an identifier is under way. */
  function Gained(d: Loop, m: Move, id: int): nat
    requires Possible(d, m)
  {
    match m
    case Register(i) => Is(IdOf(d.callers[i].key), id)
    case AskCancel(_) => Is(CANCEL_NONCE, id)
    case QueueSecond => if d.sq.Free() > 0 then Is(TIMEOUT_NONCE, id) else 0
    case _ => 0
  }

  /** What it takes away. */
  function Lost(d: Loop, m: Move, id: int): nat
    requires Possible(d, m)
  {
    match m
    case QueueFirst => if d.sq.Free() <= 0 then Is(d.job.req.userData, id) else 0
    case Dispatch => Is(d.cq.ready[d.batch.i].userData, id)
    case _ => 0
  }

  /** A move that starts a job. */
  predicate Starts(m: Move) {
    m.Receive? || m.SignalPublisher?
  }

  lemma ComingStep(d: Loop, m: Move, t: Table, serial: nat, id: int)
    requires Possible(d, m) && (Starts(m) ==> d.job.NoJob?)
    ensures
      var before, after := Coming(d, id), Coming(StepLoop(d, m, t, serial), id);
      if m.Register? || m.AskCancel? then after == before + Gained(d, m, id)
      else if m.QueueFirst? then before == after + Is(d.job.req.userData, id)
      else after == before
  {
    hide Entry, BitOr, IdOf, Count, Is;
    match m
    case Register(i) =>
      CountAppend(d.sending, Request(d.callers[i].op, 0, IdOf(d.callers[i].key), d.callers[i].timeout), RequestId, id);
    case AskCancel(target) => CountAppend(d.sending, Request(Cancel(target), 0, CANCEL_NONCE, 0), RequestId, id);
    case Send(i) =>
      CountWithout(d.sending, i, RequestId, id);
      CountAppend(d.bus, d.sending[i], RequestId, id);
    case Receive => CountFirst(d.bus, RequestId, id);
    case _ =>
  }

  lemma SubmittedStep(d: Loop, m: Move, t: Table, serial: nat, id: int)
    requires Possible(d, m)
    ensures
      var before, after := Submitted(d, id), Submitted(StepLoop(d, m, t, serial), id);
      if m.QueueFirst? then after + Lost(d, m, id) == before + Is(d.job.req.userData, id)
      else if m.QueueSecond? then after == before + Gained(d, m, id)
      else if m.Complete? then before == after + Is(d.inflight[m.i], id)
      else after == before
  {
    hide BitOr, IdOf, Count, Is;
    match m
    case QueueFirst => CountAppend(d.sq.unpublished, FirstEntry(d.job.req), SqeId, id);
    case QueueSecond => CountAppend(d.sq.unpublished, TimeoutEntry(d.job.req), SqeId, id);
    case Flush =>
      CountPlus(d.sq.published, d.sq.unpublished, SqeId, id);
      CountNone(SqeId, id);
    case Take =>
      CountFirst(d.sq.published, SqeId, id);
      CountAppend(d.inflight, d.sq.published[0].userData, Self, id);
    case Complete(i, _, _) => CountWithout(d.inflight, i, Self, id);
    case _ =>
  }

  lemma CompletedStep(d: Loop, m: Move, t: Table, serial: nat, id: int)
    requires Possible(d, m) && (d.batch.Batch? ==> d.batch.i <= d.batch.n <= |d.cq.ready|)
    ensures
      var before, after := Completed(d, id), Completed(StepLoop(d, m, t, serial), id);
      if m.Complete? then after == before + Is(d.inflight[m.i], id)
      else if m.Dispatch? then before == after + Lost(d, m, id)
      else after == before
  {
    hide BitOr, IdOf, Count, Is, Unprocessed;
    var i := if d.batch.Batch? then d.batch.i else 0;
    match m
    case Complete(j, res, flags) => PostPending(d.cq, i, CQEvent(d.inflight[j], res, flags), id);
    case FlushBacklog => FlushPending(d.cq, i, id);
    case Dispatch => NextPending(d.cq, i, id);
    case Advance => AdvancePending(d.cq, i, id);
    case _ =>
  }

  /** Each move takes identifiers from one place to the next; only those Gained and Lost come and go. */
  lemma LiveStep(d: Loop, m: Move, t: Table, serial: nat, id: int)
    requires Possible(d, m) && (Starts(m) ==> d.job.NoJob?)
    requires d.batch.Batch? ==> d.batch.i <= d.batch.n <= |d.cq.ready|
    ensures Live(StepLoop(d, m, t, serial), id) + Lost(d, m, id) == Live(d, id) + Gained(d, m, id)
  {
    hide Coming, Submitted, Completed, StepLoop;
    ComingStep(d, m, t, serial, id);
    SubmittedStep(d, m, t, serial, id);
    CompletedStep(d, m, t, serial, id);
  }

  lemma JobFree(s: State, l: nat, m: Move)
    requires Ok(s) && Enabled(s, l, m)
    ensures Starts(m) ==> s.loops[l].job.NoJob?
  {
    assert C.LoopInv(true, s.ctl.loops[l], C.Progress(s.ctl.runner, l));
    assert InStep(s.loops[l], s.ctl.loops[l]);
  }

  /** How often an identifier is under way after a step, in the loop that moves. */
  lemma LiveHere(s: State, l: nat, m: Move, id: int)
    requires Ok(s) && Enabled(s, l, m)
    ensures Live(Step(s, l, m).loops[l], id) + Lost(s.loops[l], m, id) ==
            Live(s.loops[l], id) + Gained(s.loops[l], m, id)
  {
    hide Live, Lost, Gained, StepLoop, C.Step, C.Enabled;
    JobFree(s, l, m);
    assert LoopOk(s.loops[l], l, |s.loops|);
    LiveStep(s.loops[l], m, s.table, if m.Draw? then s.Draws(m.op.fd) + 1 else 0, id);
  }

  lemma StepShape(s: State, l: nat, m: Move)
    requires Enabled(s, l, m)
    ensures Shape(Step(s, l, m)) && |Step(s, l, m).loops| == |s.loops| && l < |s.loops|
    ensures forall k :: 0 <= k < |s.loops| && k != l ==> Step(s, l, m).loops[k] == s.loops[k]
  {
  }

  // ----- every identifier at home -----

  /** Whether loop `l` of `n` is the one for an identifier. */
  predicate Home(id: uint64, l: nat, n: nat)
    requires n > 0
  {
    Fd(id) < MAX_FD && LoopFor(Fd(id), n) == l
  }

  /** A request is under way only in the event loop of its descriptor. */
  ghost predicate Homed(s: State)
    requires Shape(s)
  {
    forall l: nat, id: uint64 :: l < |s.loops| && !Reserved(id) && !Home(id, l, |s.loops|) ==> Live(s.loops[l], id) == 0
  }

  lemma GainedAtHome(d: Loop, m: Move, l: nat, n: nat, id: uint64)
    requires Possible(d, m) && n > 0 && LoopOk(d, l, n) && !Reserved(id) && Gained(d, m, id) > 0
    ensures Home(id, l, n)
  {
    hide Fd, Nonce, LoopFor, IdOf, QueuesOk, JobOk;
    if m.Register? {
      assert d.callers[m.i] in d.callers;
      IdIsOk(d.callers[m.i].key, l, n);
    }
  }

  /** Every step of every run keeps it. */
  lemma HomedStep(s: State, l: nat, m: Move)
    requires Ok(s) && Homed(s) && Enabled(s, l, m)
    ensures Shape(Step(s, l, m)) && Homed(Step(s, l, m))
  {
    hide Live, Lost, Gained, Step, Possible, Home, LoopOk, C.Inv, TableOk, InStep;
    StepShape(s, l, m);
    var s', n := Step(s, l, m), |s.loops|;
    forall k: nat, id: uint64 | k < n && !Reserved(id) && !Home(id, k, n)
      ensures Live(s'.loops[k], id) == 0
    {
      assert Live(s.loops[k], id) == 0;
      if k == l {
        LiveHere(s, l, m, id);
        assert LoopOk(s.loops[l], l, n);
        if Gained(s.loops[l], m, id) > 0 {
          GainedAtHome(s.loops[l], m, l, n, id);
        }
      }
    }
  }

  /** The one key whose entry in the registry a move may change. */
  function Touched(d: Loop, m: Move): Option<Key>
    requires Possible(d, m)
  {
    if m.Register? then Some(d.callers[m.i].key) else PoppedKey(d, m)
  }

  lemma UntouchedKept(t: Table, d: Loop, m: Move, key: Key)
    requires Possible(d, m) && Touched(d, m) != Some(key)
    ensures key in StepTable(t, d, m).callbacks <==> key in t.callbacks
  {
    hide KeyOf;
  }

  /** A completion about to be processed is under way. */
  lemma DispatchedIsLive(d: Loop)
    requires Possible(d, Dispatch)
    ensures Live(d, d.cq.ready[d.batch.i].userData) >= 1
  {
    NextIsPending(d.cq, d.batch.i);
  }

  lemma CancelKeyFree(t: Table)
    requires TableOk(t)
    ensures KeyOf(CANCEL_NONCE) !in t.callbacks
  {
    hide Fd;
    var id: nat := CANCEL_NONCE;
    assert Fd(id) == 0xFFFF_FFFE;
  }

  /** A loop touches only keys of its own shard, apart from the harmless drop of a cancel that could not be queued. */
  lemma TouchesOwnShard(s: State, l: nat, m: Move)
    requires Ok(s) && Homed(s) && Enabled(s, l, m) && Touched(s.loops[l], m).Some?
    ensures var key := Touched(s.loops[l], m).value;
            LoopFor(key.fd, |s.loops|) == l || (key !in s.table.callbacks && key !in Step(s, l, m).table.callbacks)
  {
    hide Fd, LoopFor, Live, C.Step, C.Enabled, StepLoop, BitOr;
    var d := s.loops[l];
    assert LoopOk(d, l, |s.loops|);
    if m.Register? {
      assert d.callers[m.i] in d.callers;
    } else if m.Dispatch? {
      DispatchedIsLive(d);
      assert Home(d.cq.ready[d.batch.i].userData, l, |s.loops|);
    } else {
      CancelKeyFree(s.table);
    }
  }

  // ----- the correspondence -----

  /**
   How often an identifier should be under way in loop `l`: once if a callback is registered for it and the loop
   is its own.
   */
  function Due(t: Table, l: nat, n: nat, id: nat): nat
    requires n > 0
  {
    if KeyOf(id) in t.callbacks && LoopFor(Fd(id), n) == l then 1 else 0
  }

  /** The request with this identifier is under way, once and at home, exactly if a callback is registered for it. */
  ghost predicate CorrespondsFor(s: State, id: uint64)
    requires Shape(s)
  {
    forall l: nat :: l < |s.loops| ==> Live(s.loops[l], id) == Due(s.table, l, |s.loops|, id)
  }

  /** Registered callbacks and requests under way correspond one to one. */
  ghost predicate Corresponds(s: State)
    requires Shape(s)
  {
    forall id: uint64 :: !Reserved(id) ==> CorrespondsFor(s, id)
  }

  /**
   The steps that break it for an identifier: queueing the timeout of its deadline request when its operation has
   taken the last slot (the callback is dropped although the operation stays queued), and storing a
   callback under its key while an earlier one is still stored there.
   */
  predicate BreaksFor(s: State, l: nat, m: Move, id: uint64)
    requires Enabled(s, l, m)
  {
    || (m.QueueSecond? && s.loops[l].sq.Free() <= 0 && s.loops[l].job.req.userData == id)
    || (m.Register? && s.loops[l].callers[m.i].key == KeyOf(id) && KeyOf(id) in s.table.callbacks)
  }

  predicate Breaks(s: State, l: nat, m: Move)
    requires Enabled(s, l, m)
  {
    || (m.QueueSecond? && s.loops[l].sq.Free() <= 0)
    || (m.Register? && s.loops[l].callers[m.i].key in s.table.callbacks)
  }

  /** A step that breaks it breaks it for one identifier. */
  lemma BrokenId(s: State, l: nat, m: Move) returns (id: uint64)
    requires Ok(s) && Enabled(s, l, m) && Breaks(s, l, m)
    ensures !Reserved(id) && BreaksFor(s, l, m, id)
  {
    hide Fd, Nonce, LoopFor, C.Enabled, IdOf, Skeleton, C.Inv;
    var d, n := s.loops[l], |s.loops|;
    assert LoopOk(d, l, n);
    if m.Register? {
      assert d.callers[m.i] in d.callers;
      id := IdOf(d.callers[m.i].key);
      IdIsOk(d.callers[m.i].key, l, n);
    } else {
      id := d.job.req.userData;
    }
  }

  lemma KeyOfInjective(a: uint64, b: uint64)
    requires KeyOf(a) == KeyOf(b)
    ensures a == b
  {
    hide Fd, Nonce, Pack;
    UnpackThenPack(a);
    UnpackThenPack(b);
  }

  /** Loops other than the one that moves. */
  lemma CorrespondsElsewhere(s: State, l: nat, m: Move, k: nat, id: uint64)
    requires Ok(s) && Homed(s) && CorrespondsFor(s, id) && Enabled(s, l, m) && k < |s.loops| && k != l && !Reserved(id)
    ensures var s' := Step(s, l, m); Live(s'.loops[k], id) == Due(s'.table, k, |s'.loops|, id)
  {
    hide Fd, Nonce, LoopFor, Live, C.Step, C.Enabled, StepLoop, StepTable, Touched;
    assert Live(s.loops[k], id) == Due(s.table, k, |s.loops|, id);
    if Touched(s.loops[l], m) == Some(KeyOf(id)) {
      TouchesOwnShard(s, l, m);
    } else {
      UntouchedKept(s.table, s.loops[l], m, KeyOf(id));
    }
  }

  /** The loop that moves. */
  lemma CorrespondsHere(s: State, l: nat, m: Move, id: uint64)
    requires Ok(s) && CorrespondsFor(s, id) && Enabled(s, l, m) && !BreaksFor(s, l, m, id) && !Reserved(id)
    ensures var s' := Step(s, l, m); Live(s'.loops[l], id) == Due(s'.table, l, |s'.loops|, id)
  {
    hide Fd, Nonce, LoopFor, Live, C.Step, C.Enabled, StepLoop;
    var d, n, s' := s.loops[l], |s.loops|, Step(s, l, m);
    assert Live(d, id) == Due(s.table, l, n, id);
    LiveHere(s, l, m, id);
    if Touched(d, m) == Some(KeyOf(id)) {
      TouchedHere(s, l, m, id);
    } else {
      UntouchedKept(s.table, d, m, KeyOf(id));
      NotTouched(d, m, l, n, id);
    }
  }

  /** An identifier whose key is not touched neither comes nor goes. */
  lemma NotTouched(d: Loop, m: Move, l: nat, n: nat, id: uint64)
    requires Possible(d, m) && n > 0 && LoopOk(d, l, n) && !Reserved(id) && Touched(d, m) != Some(KeyOf(id))
    ensures Gained(d, m, id) == 0 && Lost(d, m, id) == 0
  {
    hide Fd, Nonce, LoopFor, IdOf, Pack, StepLoop;
    if m.Register? {
      assert d.callers[m.i] in d.callers;
      IdIsOk(d.callers[m.i].key, l, n);
    }
  }

  lemma TouchedHere(s: State, l: nat, m: Move, id: uint64)
    requires Ok(s) && CorrespondsFor(s, id) && Enabled(s, l, m) && !BreaksFor(s, l, m, id) && !Reserved(id)
    requires Touched(s.loops[l], m) == Some(KeyOf(id))
    ensures Due(Step(s, l, m).table, l, |s.loops|, id) + Lost(s.loops[l], m, id) ==
            Due(s.table, l, |s.loops|, id) + Gained(s.loops[l], m, id)
  {
    hide Fd, Nonce, LoopFor, Live, C.Step, C.Enabled, StepLoop, IdOf;
    var d, n := s.loops[l], |s.loops|;
    assert LoopOk(d, l, n);
    assert Live(d, id) == Due(s.table, l, n, id);
    match m
    case Register(i) =>
      assert d.callers[i] in d.callers;
      IdIsOk(d.callers[i].key, l, n);
      KeyOfInjective(id, IdOf(d.callers[i].key));
    case QueueFirst =>
      KeyOfInjective(id, d.job.req.userData);
      FirstIsLive(d);
    case QueueSecond => KeyOfInjective(id, d.job.req.userData);
    case Dispatch =>
      KeyOfInjective(id, d.cq.ready[d.batch.i].userData);
      DispatchedIsLive(d);
    case _ =>
  }

  lemma FirstIsLive(d: Loop)
    requires d.job.First?
    ensures Live(d, d.job.req.userData) >= 1
  {
  }

  /** Any step that does not break it for an identifier keeps it for that identifier, whatever happens to others. */
  lemma CorrespondsStep(s: State, l: nat, m: Move, id: uint64)
    requires Ok(s) && Homed(s) && CorrespondsFor(s, id) && Enabled(s, l, m) && !BreaksFor(s, l, m, id) && !Reserved(id)
    ensures Shape(Step(s, l, m)) && CorrespondsFor(Step(s, l, m), id)
  {
    hide Live, Due, Step, BreaksFor, Reserved, Ok, Enabled, Homed;
    var s' := Step(s, l, m);
    StepShape(s, l, m);
    forall k: nat | k < |s.loops|
      ensures Live(s'.loops[k], id) == Due(s'.table, k, |s'.loops|, id)
    {
      if k == l {
        CorrespondsHere(s, l, m, id);
      } else {
        CorrespondsElsewhere(s, l, m, k, id);
      }
    }
  }

  /** And those steps do break it. */
  lemma BreaksIndeed(s: State, l: nat, m: Move, id: uint64)
    requires Ok(s) && CorrespondsFor(s, id) && Enabled(s, l, m) && BreaksFor(s, l, m, id) && !Reserved(id)
    ensures Shape(Step(s, l, m)) && !CorrespondsFor(Step(s, l, m), id)
  {
    hide Fd, Nonce, LoopFor, C.Step, C.Enabled, IdOf, Count;
    var d, n, s' := s.loops[l], |s.loops|, Step(s, l, m);
    StepShape(s, l, m);
    assert LoopOk(d, l, n);
    if m.Register? {
      assert d.callers[m.i] in d.callers;
      IdIsOk(d.callers[m.i].key, l, n);
      KeyOfInjective(id, IdOf(d.callers[m.i].key));
    } else {
      CountIn(d.sq.unpublished, |d.sq.unpublished| - 1, SqeId);
    }
    assert Live(d, id) == Due(s.table, l, n, id);
    LiveHere(s, l, m, id);
    assert Live(s'.loops[l], id) != Due(s'.table, l, n, id);
  }
}
