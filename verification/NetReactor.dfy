/**
 The network reactor as a system of interleaved steps: any number of callers of Queue and Cancel, and
 per event loop a publisher, a consumer and the kernel.

 Rings are the abstract queues that SubmissionRing and CompletionRing implement. One step is one
 access to shared state, except that a publisher drops the callback of a request it could not
 queue in the same step in which queueing failed (nobody else uses that key). The control
 flow of each loop, its channels and its shutdown are those of Control.

 A send on reqBuss after the publisher has closed it, and the call of a nil callback, panic and end the program
 (see NetShutdown).

 Assumed of the environment: descriptors are in 0..2^31-1, callbacks are not nil, and the kernel posts one
 completion per entry it consumes.
 */
module NetReactor {
  import opened Words
  import opened Entries
  import opened RequestIds
  import opened RegistrySpec
  import opened SubmissionSpec
  import opened CompletionSpec
  import opened Tallies
  import opened CallbackLog
  import C = Control

  const FD_PER_GRANULE: nat := 75
  const CQE_BUFF_SIZE: nat := 128
  const BUS_SIZE: nat := 256
  const MAX_FD: nat := 0x8000_0000

  function LoopFor(fd: nat, loops: nat): (l: nat)
    requires loops > 0
    ensures l < loops
  {
    fd / FD_PER_GRANULE % loops
  }

  function KeyOf(id: nat): Key {
    Key(Fd(id), Nonce(id))
  }

  /** A subSqeRequest. */
  datatype Request = Request(op: Operation, flags: nat, userData: uint64, timeout: int)

  /**
   A caller of Queue that has drawn its nonce and not yet stored its callback; `serial` counts the draws on its
   descriptor.
   */
  datatype Caller = Caller(op: Operation, cb: Callback, timeout: int, key: Key, serial: nat)

  /** What a busy publisher is about to do. */
  datatype Job =
    | NoJob
    | First(req: Request)   // queue the request's own entry
    | Second(req: Request)  // queue the linked timeout
    | Signalled             // compare-and-swap submitAllowed
    | Flushing              // publish the queued entries
    | Entering              // in io_uring_enter

  /** The fate of a request that got at least one slot. */
  datatype Accept = Whole(req: Request) | Half(req: Request)

  /** A peeked batch of `n` events of which `i` have been processed. */
  datatype Batch = NoBatch | Batch(n: nat, i: nat)

  /**
   The data of one event loop. `accepted` and `owed` are history: the requests queued, and whether the last
   submit was refused.
   */
  datatype Loop = Loop(
    callers: seq<Caller>, sending: seq<Request>, bus: seq<Request>,
    job: Job, allowed: bool, owed: bool,
    sq: SubQueue<SQEntry>, accepted: seq<Accept>, inflight: seq<uint64>,
    cq: CompQueue, batch: Batch)

  /**
   `log`, `draws` and `born` are history: events, draws per descriptor, and the serial under which a stored
   callback was drawn.
   */
  datatype State = State(
    ctl: C.State, table: Table, loops: seq<Loop>,
    log: seq<Event<Key>>, draws: map<nat, nat>, born: map<Key, nat>, panicked: bool)
  {
    function Draws(fd: nat): nat {
      if fd in draws then draws[fd] else 0
    }
  }

  datatype Move =
    // callers
    | Draw(op: Operation, cb: Callback, timeout: int)
    | Register(i: nat)
    | AskCancel(id: uint64)
    | Send(i: nat)
    | SendClosed(i: nat)  // the same send, once the bus is closed
    // publisher
    | Receive | QueueFirst | QueueSecond | Swap | Flush | Return(refused: bool)
    // kernel
    | Take | Complete(i: nat, res: int, flags: nat) | FlushBacklog
    // consumer
    | SignalPublisher | WaitEnds(gotEvents: bool) | Peek | Dispatch | Advance
    // stopping, and the consumer's way round its loop
    | Other(m: C.Move)

  predicate Passes(m: C.Move) {
    match m
    case SignalPublisher => false
    case WaitEnds(_) => false
    case DrainEnds => false
    case TakeRequest => false
    case JobEnds => false
    case _ => true
  }

  /** Whether a loop's data allow a move. */
  predicate Possible(d: Loop, m: Move) {
    match m
    case Draw(op, cb, _) => 0 <= op.fd < MAX_FD && cb != Nil
    case Register(i) => i < |d.callers|
    case AskCancel(_) => true
    case Send(i) => i < |d.sending| && |d.bus| < BUS_SIZE
    case SendClosed(i) => i < |d.sending|
    case Receive => d.bus != []
    case QueueFirst => d.job.First?
    case QueueSecond => d.job.Second?
    case Swap => d.job.Signalled?
    case Flush => d.job.Flushing?
    case Return(_) => d.job.Entering?
    case Take => d.sq.published != []
    case Complete(i, _, _) => i < |d.inflight|
    case FlushBacklog => d.cq.Valid()
    case SignalPublisher => true
    case WaitEnds(_) => true
    case Peek => d.batch.NoBatch?
    case Dispatch => d.batch.Batch? && d.batch.i < d.batch.n <= |d.cq.ready|
    case Advance => d.batch.Batch? && d.batch.i == d.batch.n <= |d.cq.ready|
    case Other(c) => Passes(c)
  }

  /** What a move is for the control skeleton; None if it moves nobody's program counter there. */
  function Skeleton(d: Loop, m: Move): Option<C.Move>
    requires Possible(d, m)
  {
    match m
    case Receive => Some(C.TakeRequest)
    case QueueFirst => if d.job.req.timeout != 0 && d.sq.Free() > 0 then None else Some(C.JobEnds)
    case QueueSecond => Some(C.JobEnds)
    case Swap => if d.allowed then None else Some(C.JobEnds)
    case Return(_) => Some(C.JobEnds)
    case SignalPublisher => Some(C.SignalPublisher)
    case WaitEnds(ok) => Some(C.WaitEnds(ok))
    case Peek => if d.cq.ready == [] then Some(C.DrainEnds) else None
    case Other(c) => Some(c)
    case _ => None
  }

  /** Whether a move may happen in loop `l` of `n`, where the skeleton is at `c`. */
  predicate Fits(c: C.Loop, l: nat, n: nat, m: Move)
    requires n > 0
  {
    match m
    case Draw(op, _, _) => op.fd >= 0 && LoopFor(op.fd, n) == l
    case AskCancel(id) => LoopFor(Fd(id), n) == l
    case Send(_) => !c.busClosed
    case SendClosed(_) => c.busClosed
    case Peek => c.con == C.Drain
    case _ => true
  }

  predicate Shape(s: State) {
    |s.loops| == |s.ctl.loops| > 0
  }

  predicate Enabled(s: State, l: nat, m: Move) {
    && Shape(s) && l < |s.loops| && !s.panicked
    && Possible(s.loops[l], m) && Fits(s.ctl.loops[l], l, |s.loops|, m)
    && var c := Skeleton(s.loops[l], m);
       c.Some? ==> C.Enabled(s.ctl, l, c.value)
  }

  function FirstEntry(req: Request): SQEntry {
    Entry(req.op, if req.timeout == 0 then req.flags else BitOr(req.flags, SQE_IO_LINK), req.userData)
  }

  function TimeoutEntry(req: Request): SQEntry {
    Entry(LinkTimeout(req.timeout), 0, TIMEOUT_NONCE)
  }

  function StepLoop(d: Loop, m: Move, t: Table, serial: nat): Loop
    requires Possible(d, m)
  {
    match m
    case Draw(op, cb, timeout) =>
      d.(callers := d.callers + [Caller(op, cb, timeout, Key(op.fd, t.NextNonce(op.fd)), serial)])
    case Register(i) =>
      var c := d.callers[i];
      d.(callers := Without(d.callers, i), sending := d.sending + [Request(c.op, 0, IdOf(c.key), c.timeout)])
    case AskCancel(id) => d.(sending := d.sending + [Request(Cancel(id), 0, CANCEL_NONCE, 0)])
    case Send(i) => d.(sending := Without(d.sending, i), bus := d.bus + [d.sending[i]])
    case SendClosed(_) => d
    case Receive => d.(bus := d.bus[1..], job := First(d.bus[0]), allowed := true)
    case QueueFirst =>
      var req := d.job.req;
      if d.sq.Free() <= 0 then d.(job := NoJob)
      else if req.timeout == 0 then
        d.(job := NoJob, sq := d.sq.Enqueue(FirstEntry(req)), accepted := d.accepted + [Whole(req)])
      else d.(job := Second(req), sq := d.sq.Enqueue(FirstEntry(req)))
    case QueueSecond =>
      var req := d.job.req;
      if d.sq.Free() <= 0 then d.(job := NoJob, accepted := d.accepted + [Half(req)])
      else d.(job := NoJob, sq := d.sq.Enqueue(TimeoutEntry(req)), accepted := d.accepted + [Whole(req)])
    case Swap => if d.allowed then d.(job := Flushing, allowed := false) else d.(job := NoJob)
    case Flush => d.(job := Entering, sq := d.sq.Publish(), owed := false)
    case Return(refused) => d.(job := NoJob, allowed := d.allowed || refused, owed := refused)
    case Take => d.(sq := d.sq.Drain(1), inflight := d.inflight + [d.sq.published[0].userData])
    case Complete(i, res, flags) =>
      d.(inflight := Without(d.inflight, i), cq := d.cq.Post(CQEvent(d.inflight[i], res, flags)))
    case FlushBacklog => d.(cq := d.cq.FlushBacklog())
    case SignalPublisher => d.(job := Signalled)
    case WaitEnds(_) => d
    case Peek => if d.cq.ready == [] then d else d.(batch := Batch(Min(CQE_BUFF_SIZE, |d.cq.ready|), 0))
    case Dispatch => d.(batch := d.batch.(i := d.batch.i + 1))
    case Advance => d.(cq := d.cq.Advance(d.batch.n), batch := NoBatch)
    case Other(_) => d
  }

  function IdOf(key: Key): uint64 {
    if key.fd < 0x1_0000_0000 then PackIs(key.fd, key.nonce); Pack(key.fd, key.nonce) else 0
  }

  /** The key whose callback a move takes out of the registry, if any. */
  function PoppedKey(d: Loop, m: Move): Option<Key>
    requires Possible(d, m)
  {
    match m
    case QueueFirst => if d.sq.Free() <= 0 then Some(KeyOf(d.job.req.userData)) else None
    case QueueSecond => if d.sq.Free() <= 0 then Some(KeyOf(d.job.req.userData)) else None
    case Dispatch =>
      if Reserved(d.cq.ready[d.batch.i].userData) then None else Some(KeyOf(d.cq.ready[d.batch.i].userData))
    case _ => None
  }

  function StepTable(t: Table, d: Loop, m: Move): Table
    requires Possible(d, m)
  {
    match m
    case Draw(op, _, _) => t.Reserve(op.fd)
    case Register(i) => t.Insert(d.callers[i].key, d.callers[i].cb)
    case _ => if PoppedKey(d, m).Some? then t.Pop(PoppedKey(d, m).value) else t
  }

  function Logged(t: Table, d: Loop, m: Move): seq<Event<Key>>
    requires Possible(d, m)
  {
    match m
    case Register(i) => [Queued(d.callers[i].key, d.callers[i].cb)]
    case Dispatch =>
      var e := d.cq.ready[d.batch.i];
      if PoppedKey(d, m).Some?
      then [Ran(PoppedKey(d, m).value, t.Get(PoppedKey(d, m).value), CQEvent(e.userData, e.res, e.flags))] else []
    case _ =>
      if PoppedKey(d, m).Some? && PoppedKey(d, m).value in t.callbacks
      then [Dropped(PoppedKey(d, m).value, t.callbacks[PoppedKey(d, m).value])] else []
  }

  /** A consumer calls a nil callback: it has found none for the event it dispatches. */
  predicate CallsNil(t: Table, d: Loop, m: Move)
    requires Possible(d, m)
  {
    m.Dispatch? && PoppedKey(d, m).Some? && t.Get(PoppedKey(d, m).value) == Nil
  }

  function Step(s: State, l: nat, m: Move): State
    requires Enabled(s, l, m)
  {
    var d := s.loops[l];
    var c := Skeleton(d, m);
    State(
      if c.Some? then C.Step(s.ctl, l, c.value) else s.ctl,
      StepTable(s.table, d, m),
      s.loops[l := StepLoop(d, m, s.table, if m.Draw? then s.Draws(m.op.fd) + 1 else 0)],
      s.log + Logged(s.table, d, m),
      if m.Draw? then s.draws[m.op.fd := s.Draws(m.op.fd) + 1] else s.draws,
      if m.Register? then s.born[d.callers[m.i].key := d.callers[m.i].serial] else s.born,
      m.SendClosed? || CallsNil(s.table, d, m))
  }

  /** A freshly created reactor. */
  ghost predicate Init(s: State) {
    && Shape(s) && C.Init(s.ctl) && s.ctl.net
    && s.table == Table(map[], map[]) && s.log == [] && s.draws == map[] && s.born == map[] && !s.panicked
    && forall l :: 0 <= l < |s.loops| ==>
         var d := s.loops[l];
         && d.callers == [] && d.sending == [] && d.bus == [] && d.job == NoJob && !d.allowed && !d.owed
         && d.sq.unpublished == [] && d.sq.published == [] && d.sq.consumed == []
         && d.accepted == [] && d.inflight == []
         && d.cq.ready == [] && d.cq.backlog == [] && d.cq.seen == [] && d.batch == NoBatch
  }
}
