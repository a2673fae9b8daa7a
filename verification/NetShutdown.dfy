/**
 Shutdown of the network reactor: the data steps never get in the way of the control skeleton. Two things can go
 wrong, and each ends the program: a caller that is still about to send when the publisher closes reqBuss, and a
 completion whose callback is gone.
 */
module NetShutdown {
  import opened Words
  import opened RequestIds
  import opened RegistrySpec
  import opened NetReactor
  import opened NetDispatch
  import opened NetRuns
  import C = Control

  /** A move that some participant of loop `l` can make. */
  function NextMove(s: State, l: nat): Move
    requires Shape(s) && l < |s.loops|
  {
    var d, c := s.loops[l], s.ctl.loops[l];
    match d.job
    case First(_) => QueueFirst
    case Second(_) => QueueSecond
    case Signalled => Swap
    case Flushing => Flush
    case Entering => Return(false)
    case NoJob =>
      if c.pub.Closing? then Other(C.ClosePublisher)
      else match c.con
        case Signal => SignalPublisher
        case Signal2 => SignalPublisher
        case Wait => WaitEnds(false)
        case Drain => if d.batch.NoBatch? then Peek else if d.batch.i < d.batch.n then Dispatch else Advance
        case Check => Other(if s.ctl.runner == C.Stopping(l, C.SendStopConsumer) then C.TakeStop else C.KeepRunning)
        case Closing => Other(C.CloseConsumer)
        case Gone =>
          Other(if s.ctl.runner == C.Stopping(l, C.AwaitConsumer) then C.SeeConsumerClosed else C.TakeStopPublisher)
  }

  /** A move of a publisher, a consumer or the runner: not of the kernel, and not of callers. */
  predicate OfTheReactor(m: Move) {
    match m
    case Draw(_, _, _) => false
    case Register(_) => false
    case AskCancel(_) => false
    case Send(_) => false
    case SendClosed(_) => false
    case Take => false
    case Complete(_, _, _) => false
    case FlushBacklog => false
    case Other(c) => c != C.ContextEnds
    case _ => true
  }

  lemma LoopCanMove(s: State, l: nat)
    requires Ok(s) && !s.panicked && l < |s.loops| && !C.LoopDone(s.ctl.loops[l])
    ensures OfTheReactor(NextMove(s, l)) && Enabled(s, l, NextMove(s, l))
  {
    hide Fd, LoopFor, RequestOk, TableOk;
    assert C.LoopInv(true, s.ctl.loops[l], C.Progress(s.ctl.runner, l));
    assert InStep(s.loops[l], s.ctl.loops[l]);
    assert LoopOk(s.loops[l], l, |s.loops|);
  }

  /** Once the loop it is stopping is done, the runner can go on. */
  lemma RunnerCanMove(s: State)
    requires Ok(s) && !s.panicked && s.ctl.runner.Stopping?
    ensures s.ctl.runner.l < |s.loops|
    ensures C.LoopDone(s.ctl.loops[s.ctl.runner.l]) ==> Enabled(s, s.ctl.runner.l, Other(C.SeePublisherClosed))
  {
    hide LoopOk, TableOk, InStep;
    C.NeverStuck(s.ctl, s.ctl.runner.l);
  }

  /**
   In every run of the reactor, whatever requests are under way: nobody sends on a closed submitSignal, no channel
   is closed twice, and the submit channel is closed only after the consumer is gone. And unless there was a panic
   nobody is stuck: in every loop whose consumer and publisher are not both gone one of them or the runner can take
   a step, and once the loop it is stopping is done the runner can go on.
   */
  lemma SafeShutdown(ss: seq<State>, acts: seq<Action>, i: nat)
    requires IsRun(ss, acts) && i < |ss|
    ensures Shape(ss[i]) && !ss[i].ctl.panicked
    ensures forall l ::
              0 <= l < |ss[i].loops| && ss[i].ctl.loops[l].signalClosed ==> ss[i].ctl.loops[l].con == C.Consumer.Gone
    ensures forall l: nat :: l < |ss[i].loops| && !ss[i].panicked && !C.LoopDone(ss[i].ctl.loops[l]) ==>
              OfTheReactor(NextMove(ss[i], l)) && Enabled(ss[i], l, NextMove(ss[i], l))
    ensures
      var r := ss[i].ctl.runner;
      !ss[i].panicked && r.Stopping? ==>
        r.l < |ss[i].loops| && (C.LoopDone(ss[i].ctl.loops[r.l]) ==> Enabled(ss[i], r.l, Other(C.SeePublisherClosed)))
  {
    hide Init, Step, Enabled, LoopOk, TableOk, NextMove, OfTheReactor;
    RunOk(ss, acts, i);
    var s := ss[i];
    forall l: nat | l < |s.loops|
      ensures s.ctl.loops[l].signalClosed ==> s.ctl.loops[l].con == C.Consumer.Gone
      ensures !s.panicked && !C.LoopDone(s.ctl.loops[l]) ==>
                OfTheReactor(NextMove(s, l)) && Enabled(s, l, NextMove(s, l))
    {
      assert C.LoopInv(true, s.ctl.loops[l], C.Progress(s.ctl.runner, l));
      if !s.panicked && !C.LoopDone(s.ctl.loops[l]) {
        LoopCanMove(s, l);
      }
    }
    if !s.panicked && s.ctl.runner.Stopping? {
      RunnerCanMove(s);
    }
  }

  // ----- panics -----

  /** Step `j` is a send by a caller whose bus the publisher has already closed. */
  ghost predicate SendsLate(ss: seq<State>, acts: seq<Action>, j: nat)
    requires IsRun(ss, acts) && j < |acts|
  {
    acts[j].m.SendClosed? && ss[j].ctl.loops[acts[j].l].busClosed
  }

  /** Step `j` dispatches a completion, not the library's own, for which no callback is registered. */
  ghost predicate FindsNone(ss: seq<State>, acts: seq<Action>, j: nat)
    requires IsRun(ss, acts) && j < |acts|
  {
    && acts[j].m.Dispatch? && !Reserved(NextId(ss[j], acts[j].l))
    && KeyOf(NextId(ss[j], acts[j].l)) !in ss[j].table.callbacks
  }

  /**
   A run ends in a panic if and only if some caller sends on reqBuss after its publisher has closed it, or some
   completion is dispatched for which no callback is registered.
   */
  lemma PanicIff(ss: seq<State>, acts: seq<Action>, i: nat)
    requires IsRun(ss, acts) && i < |ss|
    ensures Shape(ss[i])
    ensures ss[i].panicked || ss[i].ctl.panicked <==>
            exists j :: 0 <= j < i && (SendsLate(ss, acts, j) || FindsNone(ss, acts, j))
  {
    hide Enabled, Step, C.Init, KeyOf;
    SafeShutdown(ss, acts, i);
    forall j | 0 <= j < i
      ensures SendsLate(ss, acts, j) || FindsNone(ss, acts, j) <==> j == i - 1 && ss[i].panicked
    {
      RunOk(ss, acts, j);
      PanickedBy(ss[j], acts[j].l, acts[j].m);
      if j + 1 < i {
        RunOk(ss, acts, j + 1);
        PanickedBy(ss[j + 1], acts[j + 1].l, acts[j + 1].m);
      }
    }
    assert i > 0 && ss[i].panicked ==> SendsLate(ss, acts, i - 1) || FindsNone(ss, acts, i - 1);
  }

  /** After a panic there are no more steps. */
  lemma PanickedBy(s: State, l: nat, m: Move)
    requires Ok(s) && Enabled(s, l, m)
    ensures !s.panicked && l < |s.loops|
    ensures Step(s, l, m).panicked <==>
            || (m.SendClosed? && s.ctl.loops[l].busClosed)
            || (m.Dispatch? && !Reserved(NextId(s, l)) && KeyOf(NextId(s, l)) !in s.table.callbacks)
  {
    hide KeyOf, LoopOk, InStep, C.Inv, StepLoop, StepTable, Skeleton;
  }

  /** A completion finds no callback only if an earlier step has broken the correspondence for its identifier. */
  lemma FindsNoneOnlyIfBroken(ss: seq<State>, acts: seq<Action>, j: nat)
    requires IsRun(ss, acts) && j < |acts| && FindsNone(ss, acts, j)
    ensures !UnbrokenUntil(ss, acts, j, NextId(ss[j], acts[j].l))
  {
    hide Init, Enabled, Step, KeyOf;
    if UnbrokenUntil(ss, acts, j, NextId(ss[j], acts[j].l)) {
      ExactlyOnce(ss, acts, j, NextId(ss[j], acts[j].l));
      assert false;
    }
  }

  // ----- callers that come too late -----

  lemma StaysSending(d: Loop, m: Move, t: Table, serial: nat, req: Request)
    requires Possible(d, m) && !m.Send? && req in d.sending
    ensures req in StepLoop(d, m, t, serial).sending
  {
    hide FirstEntry, TimeoutEntry, IdOf;
  }

  lemma StaysClosed(c: C.State, l: nat, m: C.Move, k: nat)
    requires C.Enabled(c, l, m) && k < |c.loops| && c.loops[k].busClosed
    ensures k < |C.Step(c, l, m).loops| && C.Step(c, l, m).loops[k].busClosed
  {
  }

  lemma StaysLate(s: State, l: nat, m: Move, k: nat, req: Request)
    requires Enabled(s, l, m) && k < |s.loops| && s.ctl.loops[k].busClosed && req in s.loops[k].sending
    ensures k < |Step(s, l, m).loops| && Shape(Step(s, l, m))
    ensures Step(s, l, m).ctl.loops[k].busClosed && req in Step(s, l, m).loops[k].sending
  {
    hide StepTable, StepLoop, Logged, C.Step, C.Enabled;
    StepShape(s, l, m);
    var c := Skeleton(s.loops[l], m);
    if c.Some? {
      StaysClosed(s.ctl, l, c.value, k);
    }
    if k == l {
      StaysSending(s.loops[l], m, s.table, if m.Draw? then s.Draws(m.op.fd) + 1 else 0, req);
    }
  }

  /**
   A caller that has not sent its request when its bus is closed never gets it on the bus: it is about to send at
   every later moment of the run, and all its step can do is panic.
   */
  lemma {:induction false} TooLateForGood(ss: seq<State>, acts: seq<Action>, i: nat, j: nat, l: nat, req: Request)
    requires IsRun(ss, acts) && i <= j < |ss| && Shape(ss[i])
    requires l < |ss[i].loops| && ss[i].ctl.loops[l].busClosed && req in ss[i].loops[l].sending
    ensures Shape(ss[j]) && l < |ss[j].loops| && ss[j].ctl.loops[l].busClosed && req in ss[j].loops[l].sending
  {
    hide Init, Enabled, Step;
    if i < j {
      TooLateForGood(ss, acts, i, j - 1, l, req);
      StaysLate(ss[j - 1], acts[j - 1].l, acts[j - 1].m, l, req);
    }
  }

  /** Callers that are done before their publisher closes the bus, and do not start later, are safe. */
  ghost predicate StopsQuietly(ss: seq<State>, acts: seq<Action>)
    requires IsRun(ss, acts)
  {
    forall j :: 0 <= j < |acts| ==> QuietStep(ss[j], acts[j].l, acts[j].m)
  }

  predicate QuietStep(s: State, l: nat, m: Move)
    requires Enabled(s, l, m)
  {
    var d, c := s.loops[l], s.ctl.loops[l];
    && (m == Other(C.ClosePublisher) && c.pub == C.Publisher.Closing(2) ==> d.callers == [] && d.sending == [])
    && ((m.Draw? || m.AskCancel?) ==> !c.busClosed)
  }

  predicate NoLateCaller(d: Loop, c: C.Loop) {
    c.busClosed ==> d.callers == [] && d.sending == []
  }

  lemma QuietStepSafe(s: State, l: nat, m: Move, k: nat)
    requires Ok(s) && Enabled(s, l, m) && QuietStep(s, l, m)
    requires k < |s.loops| && NoLateCaller(s.loops[k], s.ctl.loops[k])
    ensures k < |Step(s, l, m).loops| && Shape(Step(s, l, m))
    ensures NoLateCaller(Step(s, l, m).loops[k], Step(s, l, m).ctl.loops[k])
  {
    hide LoopOk, TableOk, InStep, StepTable, FirstEntry, TimeoutEntry, IdOf;
    SkeletonSteps(s, l, m);
    if k == l {
      assert C.LoopInv(true, s.ctl.loops[l], C.Progress(s.ctl.runner, l));
    }
  }

  /** Whenever a completion is dispatched, no step has broken the correspondence for its identifier. */
  ghost predicate DispatchesUnbroken(ss: seq<State>, acts: seq<Action>)
    requires IsRun(ss, acts)
  {
    forall j ::
      0 <= j < |acts| && acts[j].m.Dispatch? && !Reserved(NextId(ss[j], acts[j].l)) ==>
        UnbrokenUntil(ss, acts, j, NextId(ss[j], acts[j].l))
  }

  /** So a run with quiet callers, and without broken completions, does not panic. */
  lemma QuietStopIsSafe(ss: seq<State>, acts: seq<Action>, i: nat)
    requires IsRun(ss, acts) && i < |ss| && StopsQuietly(ss, acts) && DispatchesUnbroken(ss, acts)
    ensures Shape(ss[i]) && !ss[i].panicked && !ss[i].ctl.panicked
  {
    hide Enabled, Step, Ok, QuietStep, KeyOf, UnbrokenUntil;
    PanicIff(ss, acts, i);
    forall j | 0 <= j < i
      ensures !SendsLate(ss, acts, j) && !FindsNone(ss, acts, j)
    {
      NoneTooLate(ss, acts, j);
      StepShape(ss[j], acts[j].l, acts[j].m);
      NoLateSend(ss[j], acts[j].l, acts[j].m);
      if FindsNone(ss, acts, j) {
        FindsNoneOnlyIfBroken(ss, acts, j);
        assert false;
      }
    }
  }

  lemma NoLateSend(s: State, l: nat, m: Move)
    requires Enabled(s, l, m) && NoLateCaller(s.loops[l], s.ctl.loops[l])
    ensures !m.SendClosed?
  {
  }

  lemma {:induction false} NoneTooLate(ss: seq<State>, acts: seq<Action>, i: nat)
    requires IsRun(ss, acts) && i < |ss| && StopsQuietly(ss, acts)
    ensures Shape(ss[i])
    ensures forall l :: 0 <= l < |ss[i].loops| ==> NoLateCaller(ss[i].loops[l], ss[i].ctl.loops[l])
  {
    hide Enabled, Step, Ok, QuietStep, C.Inv;
    RunOk(ss, acts, i);
    OkShape(ss[i]);
    if i > 0 {
      var s, a := ss[i - 1], acts[i - 1];
      NoneTooLate(ss, acts, i - 1);
      RunOk(ss, acts, i - 1);
      StepShape(s, a.l, a.m);
      forall l: nat | l < |ss[i].loops|
        ensures NoLateCaller(ss[i].loops[l], ss[i].ctl.loops[l])
      {
        QuietStepSafe(s, a.l, a.m, l);
      }
    }
  }

  // ----- the consumer takes the request to stop -----

  /** How much a consumer that is draining has still to do with the events in the ring. */
  function Work(d: Loop): int {
    if d.batch.NoBatch? then 3 * |d.cq.ready| else 3 * |d.cq.ready| - 1 - d.batch.i
  }

  /** A step of the consumer itself. */
  predicate ConsumerStep(m: Move) {
    || m.SignalPublisher? || m.WaitEnds? || m.Peek? || m.Dispatch? || m.Advance?
    || m == Other(C.TakeStop) || m == Other(C.KeepRunning)
  }

  /**
   Once the runner asks a consumer to stop, each step of the consumer takes the request, or brings it closer to
   the point where it polls for it, or, while it drains, leaves it less to drain. Only the kernel can
   add to what it has to drain.
   */
  lemma StopIsTaken(s: State, l: nat, m: Move)
    requires Ok(s) && Enabled(s, l, m) && s.ctl.runner == C.Stopping(l, C.SendStopConsumer) && ConsumerStep(m)
    ensures
      var s' := Step(s, l, m);
      var con, con' := s.ctl.loops[l].con, s'.ctl.loops[l].con;
      || (m == Other(C.TakeStop) && s'.ctl.runner == C.Stopping(l, C.AwaitConsumer))
      || C.StepsToCheck(con') < C.StepsToCheck(con)
      || (con' == con == C.Drain && 0 <= Work(s'.loops[l]) < Work(s.loops[l]))
  {
    hide TableOk, StepTable, IdOf;
    assert C.LoopInv(true, s.ctl.loops[l], C.Progress(s.ctl.runner, l));
    assert InStep(s.loops[l], s.ctl.loops[l]);
    assert LoopOk(s.loops[l], l, |s.loops|);
  }
}
