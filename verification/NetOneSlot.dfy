/**
 A run in which exactly-once dispatch fails: a deadline request meets a submission queue with one free slot.
 Its operation is queued, its timeout is not, its callback is dropped, and the operation's
 completion later finds no callback to call, so that the program panics.
 */
module NetOneSlot {
  import opened Words
  import opened Entries
  import opened RequestIds
  import opened RegistrySpec
  import opened SubmissionSpec
  import opened CompletionSpec
  import opened CallbackLog
  import opened NetReactor
  import opened NetRuns
  import C = Control
  import S = NetSubmission

  const RECV := Operation(27, 7, 0x1000, 16, 0, Some(0), None)
  const KEY := Key(7, 1)
  const ID: uint64 := 0x1_0000_0007
  const REQUEST := Request(RECV, 0, ID, 5)

  const IDLE := Loop(
    [], [], [], NoJob, false, false, SubQueue(1, [], [], []), [], [], CompQueue(2, [], [], []), NoBatch)

  function At(con: C.Consumer, pub: C.Publisher, t: Table, d: Loop, log: seq<Event<Key>>): State {
    var ctl := C.State(true, [C.FRESH.(con := con, pub := pub)], C.Running, false);
    State(ctl, t, [d], log, map[7 := 1], map[KEY := 1], false)
  }

  /** Equality of states of one loop, field by field. */
  predicate Same(a: State, b: State) {
    && |a.loops| == |b.loops| == 1
    && a.ctl.net == b.ctl.net && a.ctl.runner == b.ctl.runner && a.ctl.panicked == b.ctl.panicked
    && a.ctl.loops == b.ctl.loops
    && a.table.counters == b.table.counters && a.table.callbacks == b.table.callbacks
    && a.log == b.log && a.draws == b.draws && a.born == b.born && a.panicked == b.panicked
    && var d, e := a.loops[0], b.loops[0];
       && d.callers == e.callers && d.sending == e.sending && d.bus == e.bus
       && d.job == e.job && d.allowed == e.allowed && d.owed == e.owed
       && d.sq.capacity == e.sq.capacity && d.sq.unpublished == e.sq.unpublished
       && d.sq.published == e.sq.published && d.sq.consumed == e.sq.consumed
       && d.accepted == e.accepted && d.inflight == e.inflight && d.batch == e.batch
       && d.cq.capacity == e.cq.capacity && d.cq.ready == e.cq.ready
       && d.cq.backlog == e.cq.backlog && d.cq.seen == e.cq.seen
  }

  lemma SameIsEqual(a: State, b: State)
    requires Same(a, b)
    ensures a == b
  {
    assert a.loops[0] == b.loops[0];
    assert a.loops == b.loops;
  }

  lemma Extend(ss: seq<State>, acts: seq<Action>, m: Move, s: State) returns (ss': seq<State>, acts': seq<Action>)
    requires IsRun(ss, acts) && Enabled(ss[|acts|], 0, m) && Same(Step(ss[|acts|], 0, m), s)
    ensures IsRun(ss', acts') && ss'[|acts'|] == s && ss' == ss + [s] && acts' == acts + [Action(0, m)]
  {
    SameIsEqual(Step(ss[|acts|], 0, m), s);
    hide Init, Enabled, Step;
    ss', acts' := ss + [s], acts + [Action(0, m)];
    forall i | 0 <= i < |acts'|
      ensures Enabled(ss'[i], acts'[i].l, acts'[i].m) && ss'[i + 1] == Step(ss'[i], acts'[i].l, acts'[i].m)
    {
      if i < |acts| {
        assert acts'[i] == acts[i] && ss'[i] == ss[i] && ss'[i + 1] == ss[i + 1];
      }
    }
  }

  lemma Names()
    ensures IdOf(KEY) == ID && KeyOf(ID) == KEY && LoopFor(7, 1) == 0 && !Reserved(ID)
  {
    hide Fd, Pack;
    PackIs(7, 1);
    RoundTrip(7, 1);
  }

  const TABLE := Table(map[7 := 1], map[KEY := Fn(1)])
  const DROPPED := Table(map[7 := 1], map[])
  const LOG := [Queued(KEY, Fn(1)), Dropped(KEY, Fn(1))]
  const HALF := IDLE.(allowed := true, sq := SubQueue(1, [FirstEntry(REQUEST)], [], []), accepted := [Half(REQUEST)])

  const SENT := IDLE.(bus := [REQUEST])
  const COMPLETED := CQEvent(ID, 16, 0)
  const TAKEN := IDLE.(sq := SubQueue(1, [], [], [FirstEntry(REQUEST)]), accepted := [Half(REQUEST)])
  const ARRIVED := TAKEN.(cq := CompQueue(2, [COMPLETED], [], []))

  /** The caller registers its callback. */
  lemma Queue() returns (ss: seq<State>, acts: seq<Action>)
    ensures IsRun(ss, acts) && ss[|acts|] == At(C.Signal, C.Select, TABLE, IDLE.(sending := [REQUEST]), LOG[..1])
    ensures forall i :: 0 <= i < |ss| ==> ss[i].ctl.runner == C.Running
  {
    hide Fd, Pack, Nonce, IdOf, FirstEntry, TimeoutEntry, LoopFor, IsRun;
    Names();
    var s0 := State(C.State(true, [C.FRESH], C.Running, false), Table(map[], map[]), [IDLE], [], map[], map[], false);
    ss, acts := [s0], [];
    assert IsRun(ss, acts) by { StartsRun(s0); }
    var d := IDLE.(callers := [Caller(RECV, Fn(1), 5, KEY, 1)]);
    var s1 := s0.(table := DROPPED, loops := [d], draws := map[7 := 1]);
    ss, acts := Extend(ss, acts, Draw(RECV, Fn(1), 5), s1);
    ss, acts := Extend(ss, acts, Register(0), At(C.Signal, C.Select, TABLE, IDLE.(sending := [REQUEST]), LOG[..1]));
  }

  /** It sends its request. */
  lemma Call() returns (ss: seq<State>, acts: seq<Action>)
    ensures IsRun(ss, acts) && ss[|acts|] == At(C.Signal, C.Select, TABLE, SENT, LOG[..1])
  {
    hide Fd, Pack, Nonce, IdOf, FirstEntry, TimeoutEntry, LoopFor, IsRun;
    ss, acts := Queue();
    ss, acts := Extend(ss, acts, Send(0), At(C.Signal, C.Select, TABLE, SENT, LOG[..1]));
  }

  const HALFWAY := IDLE.(job := Second(REQUEST), allowed := true, sq := SubQueue(1, [FirstEntry(REQUEST)], [], []))

  /** The publisher finds one free slot, and queues the operation. */
  lemma First() returns (ss: seq<State>, acts: seq<Action>)
    ensures IsRun(ss, acts) && ss[|acts|] == At(C.Signal, C.Busy, TABLE, HALFWAY, LOG[..1])
  {
    hide Fd, Pack, Nonce, IdOf, FirstEntry, TimeoutEntry, LoopFor, IsRun;
    ss, acts := Call();
    var s := At(C.Signal, C.Busy, TABLE, IDLE.(job := NetReactor.First(REQUEST), allowed := true), LOG[..1]);
    ss, acts := Extend(ss, acts, Receive, s);
    ss, acts := Extend(ss, acts, QueueFirst, At(C.Signal, C.Busy, TABLE, HALFWAY, LOG[..1]));
  }

  /** It finds none for the timeout, and drops the callback. */
  lemma Drop() returns (ss: seq<State>, acts: seq<Action>)
    ensures IsRun(ss, acts) && ss[|acts|] == At(C.Signal, C.Select, DROPPED, HALF, LOG)
  {
    hide Fd, Pack, Nonce, IdOf, FirstEntry, TimeoutEntry, LoopFor, IsRun;
    Names();
    ss, acts := First();
    ss, acts := Extend(ss, acts, QueueSecond, At(C.Signal, C.Select, DROPPED, HALF, LOG));
  }

  /** The operation's link is left open: no timeout follows it. */
  lemma LeavesLinkOpen() returns (ss: seq<State>, acts: seq<Action>)
    ensures IsRun(ss, acts) && |ss[|acts|].loops| == 1
    ensures
      var d := ss[|acts|].loops[0];
      var h := d.sq.History();
      !d.job.Second? && |h| == 1 && S.Linked(h[0]) && !S.Paired(h, 0)
  {
    hide Fd, Pack, Nonce, IdOf, LoopFor, IsRun, FirstEntry;
    ss, acts := Drop();
    assert S.Linked(FirstEntry(REQUEST)) by { S.EntriesOf(REQUEST); }
  }

  const FLUSHED := HALF.(job := Entering, allowed := false, sq := SubQueue(1, [], [FirstEntry(REQUEST)], []))

  /** The operation is published. */
  lemma Publish() returns (ss: seq<State>, acts: seq<Action>)
    ensures IsRun(ss, acts) && ss[|acts|] == At(C.Wait, C.Busy, DROPPED, FLUSHED, LOG)
  {
    hide Fd, Pack, Nonce, IdOf, FirstEntry, LoopFor, IsRun, BitOr;
    Names();
    ss, acts := Drop();
    ss, acts := Extend(ss, acts, SignalPublisher, At(C.Wait, C.Busy, DROPPED, HALF.(job := Signalled), LOG));
    ss, acts := Extend(ss, acts, Swap, At(C.Wait, C.Busy, DROPPED, HALF.(job := Flushing, allowed := false), LOG));
    ss, acts := Extend(ss, acts, Flush, At(C.Wait, C.Busy, DROPPED, FLUSHED, LOG));
  }

  /** The kernel takes the operation and the publisher returns from submitting it. */
  lemma Submit() returns (ss: seq<State>, acts: seq<Action>)
    ensures IsRun(ss, acts) && ss[|acts|] == At(C.Wait, C.Select, DROPPED, TAKEN.(inflight := [ID]), LOG)
  {
    hide Fd, Pack, Nonce, IdOf, LoopFor, IsRun, BitOr;
    Names();
    ss, acts := Publish();
    ss, acts := Extend(ss, acts, Take, At(C.Wait, C.Busy, DROPPED, TAKEN.(job := Entering, inflight := [ID]), LOG));
    ss, acts := Extend(ss, acts, Return(false), At(C.Wait, C.Select, DROPPED, TAKEN.(inflight := [ID]), LOG));
  }

  /** It completes. */
  lemma Finish() returns (ss: seq<State>, acts: seq<Action>)
    ensures IsRun(ss, acts) && ss[|acts|] == At(C.Wait, C.Select, DROPPED, ARRIVED, LOG)
  {
    hide Fd, Pack, Nonce, IdOf, LoopFor, IsRun, FirstEntry;
    ss, acts := Submit();
    ss, acts := Extend(ss, acts, Complete(0, 16, 0), At(C.Wait, C.Select, DROPPED, ARRIVED, LOG));
  }

  /** The consumer's wait ends. */
  lemma Arrive() returns (ss: seq<State>, acts: seq<Action>)
    ensures IsRun(ss, acts) && ss[|acts|] == At(C.Signal2, C.Select, DROPPED, ARRIVED, LOG)
  {
    hide Fd, Pack, Nonce, IdOf, LoopFor, IsRun, FirstEntry;
    ss, acts := Finish();
    ss, acts := Extend(ss, acts, WaitEnds(true), At(C.Signal2, C.Select, DROPPED, ARRIVED, LOG));
  }

  /** The consumer signals the publisher, who has nothing to submit. */
  lemma Signal() returns (ss: seq<State>, acts: seq<Action>)
    ensures IsRun(ss, acts) && ss[|acts|] == At(C.Drain, C.Select, DROPPED, ARRIVED, LOG)
  {
    hide Fd, Pack, Nonce, IdOf, LoopFor, IsRun, FirstEntry;
    Names();
    ss, acts := Arrive();
    ss, acts := Extend(ss, acts, SignalPublisher, At(C.Drain, C.Busy, DROPPED, ARRIVED.(job := Signalled), LOG));
    ss, acts := Extend(ss, acts, Swap, At(C.Drain, C.Select, DROPPED, ARRIVED, LOG));
  }

  /** The consumer looks for the callback in vain: it calls nil, and the program panics. */
  lemma CallsNil() returns (ss: seq<State>, acts: seq<Action>)
    ensures IsRun(ss, acts)
    ensures ss[|acts|].log == [Queued(KEY, Fn(1)), Dropped(KEY, Fn(1)), Ran(KEY, Nil, COMPLETED)] && ss[|acts|].panicked
  {
    hide Fd, Pack, Nonce, IdOf, LoopFor, IsRun, FirstEntry;
    Names();
    ss, acts := Signal();
    ss, acts := Extend(ss, acts, Peek, At(C.Drain, C.Select, DROPPED, ARRIVED.(batch := Batch(1, 0)), LOG));
    var s := At(C.Drain, C.Select, DROPPED, ARRIVED.(batch := Batch(1, 1)), LOG + [Ran(KEY, Nil, COMPLETED)]);
    ss, acts := Extend(ss, acts, Dispatch, s.(panicked := true));
  }

  lemma StartsRun(s: State)
    requires Init(s)
    ensures IsRun([s], [])
  {
  }
}
