/**
 A run of the generic reactor that leaves a link open: a deadline request meets a submission queue with one free
 slot. Its operation is queued with the link flag, its timeout is not, and the next caller's entry comes to lie
 right behind it, so that the kernel takes the two for linked.
 */
module GenericOneSlot {
  import opened Entries
  import opened RequestIds
  import opened RegistrySpec
  import opened SubmissionSpec
  import opened CompletionSpec
  import opened CallbackLog
  import opened GenericReactor
  import N = NetReactor
  import C = Control
  import R = GenericRuns
  import S = NetSubmission

  const RECV := Operation(27, 7, 0x1000, 16, 0, Some(0), None)

  /** A queue of two slots. */
  const EMPTY := Loop(
    [], Nobody, false, map[], NoJob, SubQueue(2, [], [], []), [], [], CompQueue(4, [], [], []), N.NoBatch, [])

  const START := State(C.State(false, [C.FRESH], C.Running, false), 0, [EMPTY])

  /** The only loop. */
  function Only(s: State): Loop
    requires |s.loops| == 1
  {
    s.loops[0]
  }

  /** Equality of loops, field by field. */
  predicate Same(d: Loop, e: Loop) {
    && d.waiting == e.waiting && d.holder == e.holder && d.needSubmit == e.needSubmit && d.callbacks == e.callbacks
    && d.job == e.job && d.accepted == e.accepted && d.inflight == e.inflight && d.batch == e.batch && d.log == e.log
    && d.sq.capacity == e.sq.capacity && d.sq.unpublished == e.sq.unpublished
    && d.sq.published == e.sq.published && d.sq.consumed == e.sq.consumed && d.cq == e.cq
  }

  ghost predicate Reaches(ss: seq<State>, acts: seq<Action>, s: State) {
    IsRun(ss, acts) && ss[|acts|] == s && |s.loops| == |s.ctl.loops| == 1
  }

  lemma Extend(ss: seq<State>, acts: seq<Action>, s: State, m: Move, s': State)
    returns (ss': seq<State>, acts': seq<Action>)
    requires Reaches(ss, acts, s) && Enabled(s, 0, m) && |s'.loops| == |s'.ctl.loops| == 1
    requires var t := Step(s, 0, m); t.ctl == s'.ctl && t.counter == s'.counter && Same(t.loops[0], s'.loops[0])
    ensures Reaches(ss', acts', s')
  {
    assert Step(s, 0, m).loops == s'.loops by {
      assert Step(s, 0, m).loops[0] == s'.loops[0];
    }
    hide Init, Enabled, Step;
    ss', acts' := ss + [s'], acts + [Action(0, m)];
    forall i | 0 <= i < |acts'|
      ensures Enabled(ss'[i], acts'[i].l, acts'[i].m) && ss'[i + 1] == Step(ss'[i], acts'[i].l, acts'[i].m)
    {
      if i < |acts| {
        assert acts'[i] == acts[i] && ss'[i] == ss[i] && ss'[i + 1] == ss[i + 1];
      }
    }
  }

  /** A caller arrives, takes the lock and raises the flag. */
  lemma Begin(ss: seq<State>, acts: seq<Action>, s: State, cb: nat, timeout: int)
    returns (ss': seq<State>, acts': seq<Action>, s': State)
    requires Reaches(ss, acts, s) && Only(s).waiting == [] && Only(s).holder == Nobody && s.counter < 100
    ensures Reaches(ss', acts', s')
    ensures
      var call := Call(N.Request(RECV, 0, s.counter + 1, timeout), Fn(cb));
      s' == State(s.ctl, s.counter + 1, [Only(s).(needSubmit := true, holder := Caller(First, call))])
  {
    hide Reaches, FilledFirst, FilledSecond;
    assert |s.loops| == |s.ctl.loops| == 1 by { OneLoop(ss, acts, s); }
    var d, call := Only(s), Call(N.Request(RECV, 0, s.counter + 1, timeout), Fn(cb));
    var s1 := State(s.ctl, s.counter + 1, [d.(waiting := [call])]);
    ss', acts' := Extend(ss, acts, s, Arrive(RECV, Fn(cb), timeout), s1);
    var s2 := State(s.ctl, s.counter + 1, [d.(holder := Caller(Flagging, call))]);
    ss', acts' := Extend(ss', acts', s1, Acquire(0), s2);
    s' := State(s.ctl, s.counter + 1, [d.(needSubmit := true, holder := Caller(First, call))]);
    ss', acts' := Extend(ss', acts', s2, SetFlag, s');
  }

  lemma OneLoop(ss: seq<State>, acts: seq<Action>, s: State)
    requires Reaches(ss, acts, s)
    ensures |s.loops| == |s.ctl.loops| == 1
  {
  }

  /** It gets a slot for its operation and fills it. */
  lemma QueueFirst(ss: seq<State>, acts: seq<Action>, s: State) returns (ss': seq<State>, acts': seq<Action>, s': State)
    requires Reaches(ss, acts, s) && HolderAt(Only(s), First) && Only(s).sq.Free() > 0
    ensures Reaches(ss', acts', s')
    ensures
      var d, call := Only(s), Only(s).holder.call;
      s' == s.(loops := [d.(
                   sq := d.sq.Enqueue(FilledFirst(call)),
                   holder := Caller(if call.req.timeout == 0 then Storing else Second, call),
                   accepted := if call.req.timeout == 0 then d.accepted + [N.Whole(call.req)] else d.accepted)])
  {
    hide Reaches, FilledFirst, FilledSecond;
    assert |s.loops| == |s.ctl.loops| == 1 by { OneLoop(ss, acts, s); }
    var d, call, old_ := Only(s), Only(s).holder.call, Entry(RECV, 0, 0);
    var d1 := d.(sq := d.sq.Enqueue(Slot(old_, false)), holder := Caller(FillingFirst, call));
    ss', acts' := Extend(ss, acts, s, Reserve(old_), s.(loops := [d1]));
    s' := s.(loops := [d.(
                 sq := d.sq.Enqueue(FilledFirst(call)),
                 holder := Caller(if call.req.timeout == 0 then Storing else Second, call),
                 accepted := if call.req.timeout == 0 then d.accepted + [N.Whole(call.req)] else d.accepted)]);
    ss', acts' := Extend(ss', acts', s.(loops := [d1]), Fill, s');
  }

  /** It stores its callback and releases the lock. */
  lemma Finish(ss: seq<State>, acts: seq<Action>, s: State) returns (ss': seq<State>, acts': seq<Action>, s': State)
    requires Reaches(ss, acts, s) && HolderAt(Only(s), Storing) && !Reserved(Only(s).holder.call.req.userData)
    ensures Reaches(ss', acts', s')
    ensures
      var d, call := Only(s), Only(s).holder.call;
      s' == s.(loops := [d.(
                   holder := Nobody, callbacks := d.callbacks[call.req.userData := call.cb],
                   log := d.log + [Queued(call.req.userData, call.cb)])])
  {
    hide Reaches, FilledFirst, FilledSecond;
    assert |s.loops| == |s.ctl.loops| == 1 by { OneLoop(ss, acts, s); }
    var d, call := Only(s), Only(s).holder.call;
    var d1 := d.(
      holder := Caller(Releasing, call), callbacks := d.callbacks[call.req.userData := call.cb],
      log := d.log + [Queued(call.req.userData, call.cb)]);
    ss', acts' := Extend(ss, acts, s, Store, s.(loops := [d1]));
    s' := s.(loops := [d1.(holder := Nobody)]);
    ss', acts' := Extend(ss', acts', s.(loops := [d1]), Release, s');
  }

  /** A request without a deadline is queued. */
  lemma Plain(ss: seq<State>, acts: seq<Action>, s: State, cb: nat)
    returns (ss': seq<State>, acts': seq<Action>, s': State)
    requires Reaches(ss, acts, s) && s.counter < 100
    requires Only(s).waiting == [] && Only(s).holder == Nobody && Only(s).sq.Free() > 0
    ensures Reaches(ss', acts', s') && s'.ctl == s.ctl && s'.counter == s.counter + 1
    ensures
      var d, d' := Only(s), Only(s');
      var req := N.Request(RECV, 0, s.counter + 1, 0);
      && d'.waiting == [] && d'.holder == Nobody && d'.job == d.job && d'.needSubmit
      && d'.cq == d.cq && d'.batch == d.batch
      && d'.sq == d.sq.Enqueue(Slot(N.FirstEntry(req), true)) && d'.accepted == d.accepted + [N.Whole(req)]
  {
    hide Reaches, N.FirstEntry;
    assert |s.loops| == |s.ctl.loops| == 1 by { OneLoop(ss, acts, s); }
    ss', acts', s' := Begin(ss, acts, s, cb, 0);
    ss', acts', s' := QueueFirst(ss', acts', s');
    ss', acts', s' := Finish(ss', acts', s');
    OneLoop(ss', acts', s');
  }

  /** A deadline request that finds one slot is queued without its timeout. */
  lemma LosesTimeout(ss: seq<State>, acts: seq<Action>, s: State, cb: nat)
    returns (ss': seq<State>, acts': seq<Action>, s': State)
    requires Reaches(ss, acts, s) && s.counter < 100
    requires Only(s).waiting == [] && Only(s).holder == Nobody && Only(s).sq.Free() == 1
    ensures Reaches(ss', acts', s') && s'.ctl == s.ctl && s'.counter == s.counter + 1
    ensures
      var d, d' := Only(s), Only(s');
      var req := N.Request(RECV, 0, s.counter + 1, 5);
      && d'.waiting == [] && d'.holder == Nobody && d'.job == d.job && d'.needSubmit
      && d'.cq == d.cq && d'.batch == d.batch
      && d'.sq == d.sq.Enqueue(Slot(N.FirstEntry(req), true)) && d'.accepted == d.accepted + [N.Half(req)]
  {
    hide Reaches, N.FirstEntry;
    assert |s.loops| == |s.ctl.loops| == 1 by { OneLoop(ss, acts, s); }
    ss', acts', s' := Begin(ss, acts, s, cb, 5);
    ss', acts', s' := QueueFirst(ss', acts', s');
    var d := Only(s');
    var call := d.holder.call;
    var s1 := s'.(loops := [d.(holder := Caller(Storing, call), accepted := d.accepted + [N.Half(call.req)])]);
    ss', acts' := Extend(ss', acts', s', Reserve(Entry(RECV, 0, 0)), s1);
    ss', acts', s' := Finish(ss', acts', s1);
    OneLoop(ss', acts', s');
  }

  /** The publisher is signalled and publishes; the kernel takes nothing yet. */
  lemma Publish(ss: seq<State>, acts: seq<Action>, s: State) returns (ss': seq<State>, acts': seq<Action>, s': State)
    requires Reaches(ss, acts, s) && s.ctl == START.ctl
    requires Only(s).holder == Nobody && Only(s).needSubmit && Only(s).job == NoJob
    ensures Reaches(ss', acts', s') && s'.counter == s.counter
    ensures Only(s') == Only(s).(needSubmit := false, sq := Only(s).sq.Publish())
  {
    hide Reaches;
    assert |s.loops| == |s.ctl.loops| == 1 by { OneLoop(ss, acts, s); }
    var d := Only(s);
    var busy := s.ctl.(loops := [C.FRESH.(con := C.Wait, pub := C.Busy)]);
    var s1 := State(busy, s.counter, [d.(job := Signalled)]);
    ss', acts' := Extend(ss, acts, s, SignalPublisher, s1);
    var s2 := State(busy, s.counter, [d.(job := Swapped, needSubmit := false)]);
    ss', acts' := Extend(ss', acts', s1, Swap, s2);
    var s3 := State(busy, s.counter, [d.(job := Locked, needSubmit := false, holder := Publisher)]);
    ss', acts' := Extend(ss', acts', s2, Lock, s3);
    ss', acts', s' := Flushed(ss', acts', s3);
  }

  lemma Flushed(ss: seq<State>, acts: seq<Action>, s: State) returns (ss': seq<State>, acts': seq<Action>, s': State)
    requires Reaches(ss, acts, s) && s.ctl == START.ctl.(loops := [C.FRESH.(con := C.Wait, pub := C.Busy)])
    requires Only(s).job == Locked && Only(s).holder == Publisher
    ensures Reaches(ss', acts', s') && s'.counter == s.counter
    ensures Only(s') == Only(s).(job := NoJob, holder := Nobody, sq := Only(s).sq.Publish())
  {
    hide Reaches;
    assert |s.loops| == |s.ctl.loops| == 1 by { OneLoop(ss, acts, s); }
    var d := Only(s);
    var s1 := s.(loops := [d.(job := Entering, sq := d.sq.Publish())]);
    ss', acts' := Extend(ss, acts, s, Flush, s1);
    var free := s.ctl.(loops := [C.FRESH.(con := C.Wait)]);
    s' := State(free, s.counter, [d.(job := NoJob, holder := Nobody, sq := d.sq.Publish())]);
    ss', acts' := Extend(ss', acts', s1, Return, s');
    OneLoop(ss', acts', s');
  }

  /** The kernel takes one published entry. */
  lemma TakeOne(ss: seq<State>, acts: seq<Action>, s: State) returns (ss': seq<State>, acts': seq<Action>, s': State)
    requires Reaches(ss, acts, s) && Only(s).sq.published != []
    ensures Reaches(ss', acts', s') && s'.ctl == s.ctl && s'.counter == s.counter
    ensures
      var d := Only(s);
      Only(s') == d.(sq := d.sq.Drain(1), inflight := d.inflight + [d.sq.published[0].entry.userData])
  {
    hide Reaches;
    assert |s.loops| == |s.ctl.loops| == 1 by { OneLoop(ss, acts, s); }
    var d := Only(s);
    s' := s.(loops := [d.(sq := d.sq.Drain(1), inflight := d.inflight + [d.sq.published[0].entry.userData])]);
    ss', acts' := Extend(ss, acts, s, Take, s');
    OneLoop(ss', acts', s');
  }

  lemma Starts() returns (ss: seq<State>, acts: seq<Action>)
    ensures Reaches(ss, acts, START)
  {
    ss, acts := [START], [];
  }

  /**
   At the end the queue holds a link-flagged operation and right behind it, about to be published with it, another
   caller's operation instead of the timeout.
   */
  lemma LeavesLinkOpen() returns (ss: seq<State>, acts: seq<Action>)
    ensures IsRun(ss, acts) && |ss[|acts|].loops| == 1
    ensures
      var d := ss[|acts|].loops[0];
      var u := d.sq.unpublished;
      && R.Partial(d) == [] && |u| == 2
      && S.Linked(u[0].entry) && u[0].entry.userData == 2
      && !S.Linked(u[1].entry) && u[1].entry.userData == 3
  {
    hide Reaches, N.FirstEntry;
    ss, acts := Starts();
    var s;
    ss, acts, s := Plain(ss, acts, START, 1);
    ss, acts, s := Publish(ss, acts, s);
    ss, acts, s := LosesTimeout(ss, acts, s, 2);
    ss, acts, s := TakeOne(ss, acts, s);
    ss, acts, s := Plain(ss, acts, s, 3);
    Ends(ss, acts, s);
    S.EntriesOf(N.Request(RECV, 0, 2, 5));
    S.EntriesOf(N.Request(RECV, 0, 3, 0));
    Ids();
  }

  lemma Ids()
    ensures N.FirstEntry(N.Request(RECV, 0, 2, 5)).userData == 2 && N.FirstEntry(N.Request(RECV, 0, 3, 0)).userData == 3
  {
  }

  lemma Ends(ss: seq<State>, acts: seq<Action>, s: State)
    requires Reaches(ss, acts, s)
    ensures IsRun(ss, acts) && ss[|acts|] == s && |s.loops| == 1
  {
  }
}
