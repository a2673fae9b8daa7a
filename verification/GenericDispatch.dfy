/**
 The generic reactor: callbacks are in the map before the kernel can see their entries, each runs once, no
 submission is lost, and entries become visible only when they are completely filled.
 */
module GenericDispatch {
  import opened Words
  import opened Entries
  import opened RequestIds
  import opened RegistrySpec
  import opened SubmissionSpec
  import opened Tallies
  import opened Pending
  import opened GenericReactor
  import N = NetReactor
  import C = Control

  // ----- the form of the data -----

  ghost predicate CallOk(call: Call) {
    && call.req.flags == 0
    && if call.req.userData == CANCEL_NONCE then call.req.timeout == 0 && call.cb == Nil
       else !Reserved(call.req.userData) && call.cb != Nil
  }

  /** The lock holder has reserved a slot and not filled it. */
  predicate Filling(d: Loop) {
    HolderAt(d, FillingFirst) || HolderAt(d, FillingSecond)
  }

  /** The lock holder's entry is queued and its callback not yet stored. */
  predicate Halfway(d: Loop) {
    HolderAt(d, Second) || HolderAt(d, FillingSecond) || HolderAt(d, Storing)
  }

  /** Only the slot being filled is not filled, and it is the newest and unpublished. */
  ghost predicate SlotsOk(d: Loop) {
    && (forall x :: x in d.sq.published ==> x.filled)
    && var u := d.sq.unpublished;
       if Filling(d) then u != [] && !u[|u| - 1].filled && forall i :: 0 <= i < |u| - 1 ==> u[i].filled
       else forall i :: 0 <= i < |u| ==> u[i].filled
  }

  ghost predicate LockOk(d: Loop) {
    && (d.holder == Publisher <==> d.job.Locked? || d.job.Entering?)
    && (d.holder.Caller? ==> CallOk(d.holder.call))
    && (HolderAt(d, Second) || HolderAt(d, FillingSecond) ==> d.holder.call.req.timeout != 0)
  }

  ghost predicate QueuesOk(d: Loop) {
    && d.sq.Valid() && d.cq.Valid()
    && (d.batch.Batch? ==> d.batch.i <= d.batch.n <= |d.cq.ready| && d.batch.n > 0)
  }

  ghost predicate CallsOk(d: Loop) {
    && (forall x :: x in d.waiting ==> CallOk(x))
    && (forall id :: id in d.callbacks && !Reserved(id) ==> d.callbacks[id] != Nil)
  }

  ghost predicate LoopOk(d: Loop) {
    QueuesOk(d) && LockOk(d) && SlotsOk(d) && CallsOk(d)
  }

  ghost predicate InStep(d: Loop, c: C.Loop) {
    && (d.job.NoJob? <==> c.pub != C.Busy)
    && (d.batch.Batch? ==> c.con == C.Drain)
  }

  /** A move that starts a job. */
  predicate Starts(m: Move) {
    m.SignalPublisher?
  }

  lemma StepSlotsOk(d: Loop, m: Move, nonce: nat)
    requires Possible(d, m) && LockOk(d) && SlotsOk(d) && nonce < CANCEL_NONCE
    ensures SlotsOk(StepLoop(d, m, nonce))
  {
    hide CallOk, N.FirstEntry, N.TimeoutEntry, Reserved, SubQueue.Enqueue, SubQueue.SetLast;
    if m.Reserve? {
      ReserveSlotsOk(d, m.old_, nonce);
    } else if m.Fill? {
      FillSlotsOk(d, nonce);
    }
  }

  lemma ReserveSlotsOk(d: Loop, e: SQEntry, nonce: nat)
    requires Possible(d, Reserve(e)) && SlotsOk(d) && nonce < CANCEL_NONCE
    ensures SlotsOk(StepLoop(d, Reserve(e), nonce))
  {
  }

  lemma FillSlotsOk(d: Loop, nonce: nat)
    requires Possible(d, Fill) && SlotsOk(d) && nonce < CANCEL_NONCE
    ensures SlotsOk(StepLoop(d, Fill, nonce))
  {
    hide N.FirstEntry, N.TimeoutEntry;
  }

  lemma StepQueuesOk(d: Loop, m: Move, nonce: nat)
    requires Possible(d, m) && QueuesOk(d) && nonce < CANCEL_NONCE
    ensures QueuesOk(StepLoop(d, m, nonce))
  {
    hide FilledFirst, FilledSecond, Reserved;
  }

  lemma StepLockOk(d: Loop, m: Move, nonce: nat)
    requires Possible(d, m) && LockOk(d) && CallsOk(d) && nonce < CANCEL_NONCE && (Starts(m) ==> d.job.NoJob?)
    ensures LockOk(StepLoop(d, m, nonce))
  {
    hide CallOk, FilledFirst, FilledSecond;
    if m.Acquire? {
      assert d.waiting[m.i] in d.waiting;
    }
  }

  lemma StepCallsOk(d: Loop, m: Move, nonce: nat)
    requires Possible(d, m) && LockOk(d) && CallsOk(d) && nonce < CANCEL_NONCE
    ensures CallsOk(StepLoop(d, m, nonce))
  {
    hide FilledFirst, FilledSecond;
  }

  lemma StepLoopOk(d: Loop, m: Move, nonce: nat)
    requires Possible(d, m) && LoopOk(d) && nonce < CANCEL_NONCE && (Starts(m) ==> d.job.NoJob?)
    ensures LoopOk(StepLoop(d, m, nonce))
  {
    hide SlotsOk, LockOk, CallsOk, QueuesOk, StepLoop;
    StepSlotsOk(d, m, nonce);
    StepQueuesOk(d, m, nonce);
    StepLockOk(d, m, nonce);
    StepCallsOk(d, m, nonce);
  }

  // ----- requests under way -----

  function CallId(call: Call): int {
    call.req.userData
  }

  function SlotId(s: Slot): int {
    if s.filled then s.entry.userData else -1
  }

  function Self(id: uint64): int {
    id
  }

  /** How often an identifier belongs to a caller whose entry is not yet queued. */
  function Coming(d: Loop, id: int): nat {
    Count(d.waiting, CallId, id) +
    (if HolderAt(d, Flagging) || HolderAt(d, First) || HolderAt(d, FillingFirst)
     then Is(d.holder.call.req.userData, id) else 0)
  }

  /** How often it is in the submission queue or in the kernel. */
  function Submitted(d: Loop, id: int): nat {
    Count(d.sq.unpublished, SlotId, id) + Count(d.sq.published, SlotId, id) + Count(d.inflight, Self, id)
  }

  /** How often it is completed and not yet processed. */
  function Completed(d: Loop, id: int): nat {
    Unprocessed(d.cq, if d.batch.Batch? then d.batch.i else 0, id)
  }

  /** How often a callback must be, or is about to be, in the map. */
  function Due(d: Loop, id: int): nat {
    (if id in d.callbacks then 1 else 0) + (if Halfway(d) then Is(d.holder.call.req.userData, id) else 0)
  }

  /** What a move adds to the callers that have not queued yet, and what it takes away. */
  function Arrived(m: Move, nonce: nat, id: int): nat {
    match m
    case Arrive(_, _, _) => Is(nonce, id)
    case AskCancel(_) => Is(CANCEL_NONCE, id)
    case _ => 0
  }

  predicate LeavesCallers(d: Loop, m: Move) {
    (m.Fill? && HolderAt(d, FillingFirst)) || (m.Reserve? && HolderAt(d, First) && d.sq.Free() <= 0)
  }

  /** What a move adds to the entries under way. */
  function Gained(d: Loop, m: Move, id: int): nat
    requires Possible(d, m)
  {
    if !m.Fill? then 0
    else if HolderAt(d, FillingFirst) then Is(d.holder.call.req.userData, id)
    else Is(TIMEOUT_NONCE, id)
  }

  function Lost(d: Loop, m: Move, id: int): nat
    requires Possible(d, m)
  {
    if m.Dispatch? then Is(d.cq.ready[d.batch.i].userData, id) else 0
  }

  lemma ComingStep(d: Loop, m: Move, nonce: nat, id: nat)
    requires Possible(d, m) && LockOk(d) && nonce < CANCEL_NONCE
    ensures
      var left := if LeavesCallers(d, m) then Is(d.holder.call.req.userData, id) else 0;
      Coming(StepLoop(d, m, nonce), id) + left == Coming(d, id) + Arrived(m, nonce, id)
  {
    hide FilledFirst, FilledSecond, Count, Is, CallOk;
    match m
    case Arrive(op, cb, timeout) => CountAppend(d.waiting, Call(N.Request(op, 0, nonce, timeout), cb), CallId, id);
    case AskCancel(t) => CountAppend(d.waiting, Call(N.Request(Cancel(t), 0, CANCEL_NONCE, 0), Nil), CallId, id);
    case Acquire(i) => CountWithout(d.waiting, i, CallId, id);
    case _ =>
  }

  /** Filling the newest slot makes its identifier count. */
  lemma FillCounts(u: seq<Slot>, x: Slot, id: nat)
    requires u != [] && !u[|u| - 1].filled
    ensures Count(u[..|u| - 1] + [x], SlotId, id) == Count(u, SlotId, id) + Is(SlotId(x), id)
  {
    CountAppend(u[..|u| - 1], x, SlotId, id);
    CountAppend(u[..|u| - 1], u[|u| - 1], SlotId, id);
    assert u == u[..|u| - 1] + [u[|u| - 1]];
  }

  lemma SubmittedStep(d: Loop, m: Move, nonce: nat, id: nat)
    requires Possible(d, m) && SlotsOk(d) && nonce < CANCEL_NONCE
    ensures
      var before, after := Submitted(d, id), Submitted(StepLoop(d, m, nonce), id);
      if m.Complete? then before == after + Is(d.inflight[m.i], id) else after == before + Gained(d, m, id)
  {
    hide Count;
    match m
    case Reserve(e) => CountAppend(d.sq.unpublished, Slot(e, false), SlotId, id);
    case Fill =>
      var x := if HolderAt(d, FillingFirst) then FilledFirst(d.holder.call) else FilledSecond(d.holder.call);
      FillCounts(d.sq.unpublished, x, id);
    case Flush =>
      CountPlus(d.sq.published, d.sq.unpublished, SlotId, id);
      CountNone(SlotId, id);
    case Take =>
      assert d.sq.published[0] in d.sq.published;
      CountFirst(d.sq.published, SlotId, id);
      CountAppend(d.inflight, d.sq.published[0].entry.userData, Self, id);
    case Complete(i, _, _) => CountWithout(d.inflight, i, Self, id);
    case _ =>
  }

  lemma CompletedStep(d: Loop, m: Move, nonce: nat, id: nat)
    requires Possible(d, m) && (d.batch.Batch? ==> d.batch.i <= d.batch.n <= |d.cq.ready|) && nonce < CANCEL_NONCE
    ensures
      var before, after := Completed(d, id), Completed(StepLoop(d, m, nonce), id);
      if m.Complete? then after == before + Is(d.inflight[m.i], id) else before == after + Lost(d, m, id)
  {
    hide Count, Is, FilledFirst, FilledSecond, Unprocessed, StepCaller, Reserved;
    var i := if d.batch.Batch? then d.batch.i else 0;
    match m
    case Complete(j, res, flags) => PostPending(d.cq, i, CQEvent(d.inflight[j], res, flags), id);
    case FlushBacklog => FlushPending(d.cq, i, id);
    case Dispatch => NextPending(d.cq, i, id);
    case Advance => AdvancePending(d.cq, i, id);
    case _ =>
  }

  /** How often an identifier's entry is under way. */
  function Live(d: Loop, id: int): nat {
    Submitted(d, id) + Completed(d, id)
  }

  lemma LiveStep(d: Loop, m: Move, nonce: nat, id: nat)
    requires Possible(d, m) && LoopOk(d) && nonce < CANCEL_NONCE
    ensures Live(StepLoop(d, m, nonce), id) + Lost(d, m, id) == Live(d, id) + Gained(d, m, id)
  {
    hide Submitted, Completed, StepLoop, SlotsOk, LockOk, CallOk;
    SubmittedStep(d, m, nonce, id);
    CompletedStep(d, m, nonce, id);
  }

  // ----- the correspondence -----

  /**
   Callbacks in the map, with the one about to be stored, correspond one to one to entries under way;
   each identifier is used at most once; and the holder's own entry is still private.
   */
  ghost predicate Corresponds(d: Loop, counter: nat) {
    && (forall id: uint64 :: !Reserved(id) ==> Live(d, id) == Due(d, id))
    && (forall id: uint64 :: !Reserved(id) ==> Coming(d, id) + Live(d, id) <= 1)
    && (forall id: uint64 :: !Reserved(id) && id > counter ==> Coming(d, id) + Live(d, id) == 0)
    && (Halfway(d) ==> Count(d.sq.unpublished, SlotId, d.holder.call.req.userData) >= 1)
  }

  lemma DueStep(d: Loop, m: Move, nonce: nat, id: uint64)
    requires Possible(d, m) && LoopOk(d) && nonce < CANCEL_NONCE && !Reserved(id)
    requires Live(d, id) == Due(d, id) && Coming(d, id) + Live(d, id) <= 1
    requires Halfway(d) ==> Count(d.sq.unpublished, SlotId, d.holder.call.req.userData) >= 1
    ensures Due(StepLoop(d, m, nonce), id) + Lost(d, m, id) == Due(d, id) + Gained(d, m, id)
  {
    hide Count, FilledFirst, FilledSecond, SlotsOk, CallOk, Completed, Coming;
    if m.Dispatch? && d.cq.ready[d.batch.i].userData == id {
      DispatchedIsLive(d);
    }
  }

  /** A completion about to be processed is under way. */
  lemma DispatchedIsLive(d: Loop)
    requires Possible(d, Dispatch)
    ensures Completed(d, d.cq.ready[d.batch.i].userData) >= 1
  {
    NextIsPending(d.cq, d.batch.i);
  }

  lemma HalfwayStep(d: Loop, m: Move, nonce: nat, counter: nat)
    requires Possible(d, m) && LoopOk(d) && nonce < CANCEL_NONCE && Corresponds(d, counter)
    ensures var d' := StepLoop(d, m, nonce);
            Halfway(d') ==> Count(d'.sq.unpublished, SlotId, d'.holder.call.req.userData) >= 1
  {
    hide Count, CallOk, Corresponds, BitOr, QueuesOk, CallsOk, Reserved;
    assert Halfway(d) ==> Count(d.sq.unpublished, SlotId, d.holder.call.req.userData) >= 1 by {
      PrivateEntry(d, counter);
    }
    if m.Reserve? {
      CountAppend(d.sq.unpublished, Slot(m.old_, false), SlotId, d.holder.call.req.userData);
    } else if m.Fill? {
      var x := if HolderAt(d, FillingFirst) then FilledFirst(d.holder.call) else FilledSecond(d.holder.call);
      FillCounts(d.sq.unpublished, x, d.holder.call.req.userData);
    }
  }

  lemma PrivateEntry(d: Loop, counter: nat)
    requires Corresponds(d, counter)
    ensures Halfway(d) ==> Count(d.sq.unpublished, SlotId, d.holder.call.req.userData) >= 1
  {
  }

  /** Every step of a loop keeps the correspondence: a new nonce is larger than any used before. */
  lemma CorrespondsStep(d: Loop, m: Move, nonce: nat, counter: nat)
    requires Possible(d, m) && LoopOk(d) && Corresponds(d, counter)
    requires nonce < CANCEL_NONCE && (m.Arrive? ==> nonce == counter + 1)
    ensures Corresponds(StepLoop(d, m, nonce), if m.Arrive? then nonce else counter)
  {
    hide Count, Live, Coming, Due, StepLoop, LoopOk, Halfway;
    HalfwayStep(d, m, nonce, counter);
    var d' := StepLoop(d, m, nonce);
    forall id: uint64 | !Reserved(id)
      ensures Live(d', id) == Due(d', id) && Coming(d', id) + Live(d', id) <= 1
      ensures id > (if m.Arrive? then nonce else counter) ==> Coming(d', id) + Live(d', id) == 0
    {
      assert Live(d, id) == Due(d, id) && Coming(d, id) + Live(d, id) <= 1;
      assert id > counter ==> Coming(d, id) + Live(d, id) == 0;
      LockIsOk(d);
      LiveStep(d, m, nonce, id);
      ComingStep(d, m, nonce, id);
      DueStep(d, m, nonce, id);
    }
  }

  lemma LockIsOk(d: Loop)
    requires LoopOk(d)
    ensures LockOk(d)
  {
  }
}
