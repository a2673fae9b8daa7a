/**
 The generic reactor as a system of interleaved steps: any number of concurrent callers of Queue and Cancel, and
 per event loop a publisher, a consumer and the kernel.

 Callers and publisher share queueSQELock; a caller reserves a slot and fills it later while it holds the lock, and the
 publisher swaps needSubmit before it takes the lock. A slot handed out and not yet filled holds
 whatever it held before (that filling it takes several stores is the business of SubmissionRing). The control
 flow of each loop is that of Control.

 Assumed of the environment: fewer than 2^64 - 2 requests in all, callbacks that are not nil, return, and
 do not call back into the reactor, and one completion per entry the kernel consumes.
 */
module GenericReactor {
  import opened Words
  import opened Entries
  import opened RequestIds
  import opened RegistrySpec
  import opened SubmissionSpec
  import opened CompletionSpec
  import opened Tallies
  import opened CallbackLog
  import N = NetReactor
  import C = Control

  /** A caller with its request. */
  datatype Call = Call(req: N.Request, cb: Callback)

  /** A submission slot: its contents, and whether they are the ones its owner wants. */
  datatype Slot = Slot(entry: SQEntry, filled: bool)

  /** Where the caller that holds the lock is. */
  datatype Point = Flagging | First | FillingFirst | Second | FillingSecond | Storing | Releasing

  /** Who holds queueSQELock. */
  datatype Holder = Nobody | Caller(at: Point, call: Call) | Publisher

  /** What a busy publisher is about to do. */
  datatype Job =
    | NoJob
    | Signalled  // compare-and-swap needSubmit
    | Swapped    // lock
    | Locked     // publish the queued entries
    | Entering   // in io_uring_enter, still holding the lock

  datatype Loop = Loop(
    waiting: seq<Call>, holder: Holder, needSubmit: bool, callbacks: map<uint64, Callback>,
    job: Job, sq: SubQueue<Slot>, accepted: seq<N.Accept>, inflight: seq<uint64>,
    cq: CompQueue, batch: N.Batch, log: seq<Event<uint64>>)

  /** `counter` is currentNonce. */
  datatype State = State(ctl: C.State, counter: nat, loops: seq<Loop>)

  datatype Move =
    // callers
    | Arrive(op: Operation, cb: Callback, timeout: int)
    | AskCancel(id: uint64)
    | Acquire(i: nat) | SetFlag | Reserve(old_: SQEntry) | Fill | Store | Release
    // publisher
    | Swap | Lock | Flush | Return
    // kernel
    | Take | Complete(i: nat, res: int, flags: nat) | FlushBacklog
    // consumer
    | SignalPublisher | WaitEnds(gotEvents: bool) | Peek | Dispatch | Advance
    // stopping, and the consumer's way round its loop
    | Other(m: C.Move)

  function LoopFor(nonce: nat, loops: nat): nat
    requires loops > 0
  {
    nonce % loops
  }

  predicate HolderAt(d: Loop, at: Point) {
    d.holder.Caller? && d.holder.at == at
  }

  /** Whether a loop's data allow a move. */
  predicate Possible(d: Loop, m: Move) {
    match m
    case Arrive(_, cb, _) => cb != Nil
    case AskCancel(_) => true
    case Acquire(i) => i < |d.waiting| && d.holder == Nobody
    case SetFlag => HolderAt(d, Flagging)
    case Reserve(_) => HolderAt(d, First) || HolderAt(d, Second)
    case Fill => (HolderAt(d, FillingFirst) || HolderAt(d, FillingSecond)) && d.sq.unpublished != []
    case Store => HolderAt(d, Storing)
    case Release => HolderAt(d, Releasing)
    case Swap => d.job.Signalled?
    case Lock => d.job.Swapped? && d.holder == Nobody
    case Flush => d.job.Locked?
    case Return => d.job.Entering?
    case Take => d.sq.published != []
    case Complete(i, _, _) => i < |d.inflight|
    case FlushBacklog => d.cq.Valid()
    case SignalPublisher => true
    case WaitEnds(_) => true
    case Peek => d.batch.NoBatch?
    case Dispatch => d.batch.Batch? && d.batch.i < d.batch.n <= |d.cq.ready|
    case Advance => d.batch.Batch? && d.batch.i == d.batch.n <= |d.cq.ready|
    case Other(c) => N.Passes(c)
  }

  /** What a move is for the control skeleton. */
  function Skeleton(d: Loop, m: Move): Option<C.Move>
    requires Possible(d, m)
  {
    match m
    case Swap => if d.needSubmit then None else Some(C.JobEnds)
    case Return => Some(C.JobEnds)
    case SignalPublisher => Some(C.SignalPublisher)
    case WaitEnds(ok) => Some(C.WaitEnds(ok))
    case Peek => if d.cq.ready == [] then Some(C.DrainEnds) else None
    case Other(c) => Some(c)
    case _ => None
  }

  predicate Shape(s: State) {
    |s.loops| == |s.ctl.loops| > 0
  }

  predicate Enabled(s: State, l: nat, m: Move) {
    && Shape(s) && l < |s.loops| && Possible(s.loops[l], m)
    && (m.Arrive? ==> s.counter + 1 < CANCEL_NONCE && LoopFor(s.counter + 1, |s.loops|) == l)
    && (m.AskCancel? ==> LoopFor(m.id, |s.loops|) == l)
    && (m.Peek? ==> s.ctl.loops[l].con == C.Drain)
    && var c := Skeleton(s.loops[l], m);
       c.Some? ==> C.Enabled(s.ctl, l, c.value)
  }

  /** What a caller's slots hold once they are filled. */
  function FilledFirst(call: Call): Slot {
    Slot(N.FirstEntry(call.req), true)
  }

  function FilledSecond(call: Call): Slot {
    Slot(N.TimeoutEntry(call.req), true)
  }

  /** What the lock holder does; it leaves the completion side alone. */
  function StepCaller(d: Loop, m: Move): (d': Loop)
    requires Possible(d, m) && d.holder.Caller? && (m.SetFlag? || m.Reserve? || m.Fill? || m.Store? || m.Release?)
    ensures d'.cq == d.cq && d'.batch == d.batch
  {
    var call := d.holder.call;
    var h := d.holder;
    match m
    case SetFlag => d.(needSubmit := true, holder := h.(at := First))
    case Reserve(old_) =>
      var sq := d.sq.Enqueue(Slot(old_, false));
      if h.at == First then
        if d.sq.Free() > 0 then d.(sq := sq, holder := h.(at := FillingFirst)) else d.(holder := h.(at := Releasing))
      else
        if d.sq.Free() > 0 then d.(sq := sq, holder := h.(at := FillingSecond))
        else d.(holder := h.(at := Storing), accepted := d.accepted + [N.Half(call.req)])
    case Fill =>
      if h.at == FillingFirst && call.req.timeout != 0 then
        d.(sq := d.sq.SetLast(FilledFirst(call)), holder := h.(at := Second))
      else
        d.(sq := d.sq.SetLast(if h.at == FillingFirst then FilledFirst(call) else FilledSecond(call)),
           holder := h.(at := Storing), accepted := d.accepted + [N.Whole(call.req)])
    case Store =>
      d.(callbacks := d.callbacks[call.req.userData := call.cb], holder := h.(at := Releasing),
         log := if Reserved(call.req.userData) then d.log else d.log + [Queued(call.req.userData, call.cb)])
    case _ => d.(holder := Nobody)
  }

  function StepLoop(d: Loop, m: Move, nonce: nat): Loop
    requires Possible(d, m) && nonce < CANCEL_NONCE
  {
    match m
    case Arrive(op, cb, timeout) => d.(waiting := d.waiting + [Call(N.Request(op, 0, nonce, timeout), cb)])
    case AskCancel(id) => d.(waiting := d.waiting + [Call(N.Request(Cancel(id), 0, CANCEL_NONCE, 0), Nil)])
    case Acquire(i) => d.(waiting := Without(d.waiting, i), holder := Caller(Flagging, d.waiting[i]))
    case Swap => if d.needSubmit then d.(job := Swapped, needSubmit := false) else d.(job := NoJob)
    case Lock => d.(job := Locked, holder := Publisher)
    case Flush => d.(job := Entering, sq := d.sq.Publish())
    case Return => d.(job := NoJob, holder := Nobody)
    case Take => d.(sq := d.sq.Drain(1), inflight := d.inflight + [d.sq.published[0].entry.userData])
    case Complete(i, res, flags) =>
      d.(inflight := Without(d.inflight, i), cq := d.cq.Post(CQEvent(d.inflight[i], res, flags)))
    case FlushBacklog => d.(cq := d.cq.FlushBacklog())
    case SignalPublisher => d.(job := Signalled)
    case WaitEnds(_) => d
    case Peek => if d.cq.ready == [] then d else d.(batch := N.Batch(Min(N.CQE_BUFF_SIZE, |d.cq.ready|), 0))
    case Dispatch =>
      var id := d.cq.ready[d.batch.i].userData;
      var d' := d.(batch := d.batch.(i := d.batch.i + 1));
      if Reserved(id) then d'
      else
        var cb := if id in d.callbacks then d.callbacks[id] else Nil;
        var e := d.cq.ready[d.batch.i];
        d'.(callbacks := d.callbacks - {id}, log := d.log + [Ran(id, cb, CQEvent(e.userData, e.res, e.flags))])
    case Advance => d.(cq := d.cq.Advance(d.batch.n), batch := N.NoBatch)
    case Other(_) => d
    case _ => StepCaller(d, m)
  }

  function Step(s: State, l: nat, m: Move): State
    requires Enabled(s, l, m)
  {
    var d := s.loops[l];
    var c := Skeleton(d, m);
    var counter := if m.Arrive? then s.counter + 1 else s.counter;
    State(
      if c.Some? then C.Step(s.ctl, l, c.value) else s.ctl,
      counter,
      s.loops[l := StepLoop(d, m, if m.Arrive? then counter else 0)])
  }

  ghost predicate Init(s: State) {
    && Shape(s) && C.Init(s.ctl) && !s.ctl.net && s.counter == 0
    && forall l :: 0 <= l < |s.loops| ==>
         var d := s.loops[l];
         && d.waiting == [] && d.holder == Nobody && !d.needSubmit && d.callbacks == map[] && d.job == NoJob
         && d.sq.unpublished == [] && d.sq.published == [] && d.sq.consumed == []
         && d.accepted == [] && d.inflight == []
         && d.cq.ready == [] && d.cq.backlog == [] && d.cq.seen == [] && d.batch == N.NoBatch && d.log == []
  }

  datatype Action = Action(l: nat, m: Move)

  /** A run: from a fresh reactor, each state follows from the one before by one move of one loop. */
  ghost predicate IsRun(ss: seq<State>, acts: seq<Action>) {
    && |ss| == |acts| + 1 && Init(ss[0])
    && forall i :: 0 <= i < |acts| ==>
         Enabled(ss[i], acts[i].l, acts[i].m) && ss[i + 1] == Step(ss[i], acts[i].l, acts[i].m)
  }
}
