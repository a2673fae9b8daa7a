/**
 The control skeleton shared by both reactors: per event loop a consumer and a publisher, and one
 runner that starts them and, when its context ends, stops them loop by loop.

 They meet on unbuffered channels. A send on a closed channel and a second close of a channel
 panic. What the consumer and the publisher do with their data is left open here; the
 reactor modules run their data steps on top of this skeleton.
 */
module Control {

  /** Where a consumer is in its loop. */
  datatype Consumer =
    | Signal     // sending on submitSignal
    | Wait       // waiting for completions
    | Signal2    // sending on submitSignal again (network reactor only)
    | Drain      // delivering completions
    | Check      // polling stopConsumerCh
    | Closing    // stop received, about to close stopConsumerCh
    | Gone

  /** Where a publisher is; `Closing(k)` is about to make its k-th close. */
  datatype Publisher = Select | Busy | Closing(k: nat) | Gone

  /** What the runner is doing to the loop it has reached. */
  datatype Phase = SendStopConsumer | AwaitConsumer | SendStopPublisher | AwaitPublisher

  datatype Runner = Running | Stopping(l: nat, phase: Phase) | Finished

  datatype Loop = Loop(
    con: Consumer, pub: Publisher,
    stopConsumerClosed: bool, stopPublisherClosed: bool, signalClosed: bool, busClosed: bool)

  datatype State = State(net: bool, loops: seq<Loop>, runner: Runner, panicked: bool)

  /** A step of loop `l`, or of the runner as far as loop `l` is concerned. */
  datatype Move =
    | SignalPublisher
    | WaitEnds(gotEvents: bool)
    | DrainEnds
    | KeepRunning
    | TakeStop
    | CloseConsumer
    | SeeConsumerClosed
    | TakeRequest
    | JobEnds
    | TakeStopPublisher
    | ClosePublisher
    | SeePublisherClosed
    | ContextEnds

  const FRESH := Loop(Signal, Select, false, false, false, false)

  ghost predicate Init(s: State) {
    && |s.loops| > 0 && s.runner == Running && !s.panicked
    && forall l :: 0 <= l < |s.loops| ==> s.loops[l] == FRESH
  }

  predicate Enabled(s: State, l: nat, m: Move) {
    && l < |s.loops| && !s.panicked
    && var loop := s.loops[l];
       match m
       // a send on a closed channel does not block: it panics
       case SignalPublisher => (loop.con == Signal || loop.con == Signal2) && (loop.signalClosed || loop.pub == Select)
       case WaitEnds(_) => loop.con == Wait
       case DrainEnds => loop.con == Drain
       // select takes a waiting sender in preference to its default branch
       case KeepRunning => loop.con == Check && s.runner != Stopping(l, SendStopConsumer)
       case TakeStop => loop.con == Check && s.runner == Stopping(l, SendStopConsumer)
       case CloseConsumer => loop.con == Consumer.Closing
       case SeeConsumerClosed => s.runner == Stopping(l, AwaitConsumer) && loop.stopConsumerClosed
       case TakeRequest => s.net && loop.pub == Select
       case JobEnds => loop.pub == Busy
       case TakeStopPublisher => loop.pub == Select && s.runner == Stopping(l, SendStopPublisher)
       case ClosePublisher => loop.pub.Closing?
       case SeePublisherClosed => s.runner == Stopping(l, AwaitPublisher) && loop.stopPublisherClosed
       case ContextEnds => l == 0 && s.runner == Running
  }

  function Set(s: State, l: nat, loop: Loop): State
    requires l < |s.loops|
  {
    s.(loops := s.loops[l := loop])
  }

  /** Closing a channel. */
  function Close(s: State, closed: bool): State {
    if closed then s.(panicked := true) else s
  }

  function Step(s: State, l: nat, m: Move): State
    requires Enabled(s, l, m)
  {
    var loop := s.loops[l];
    match m
    case SignalPublisher =>
      if loop.signalClosed then s.(panicked := true)
      else Set(s, l, loop.(con := if loop.con == Signal then Wait else Drain, pub := Busy))
    case WaitEnds(gotEvents) =>
      Set(s, l, loop.(con := if !gotEvents then Check else if s.net then Signal2 else Drain))
    case DrainEnds => Set(s, l, loop.(con := Check))
    case KeepRunning => Set(s, l, loop.(con := Signal))
    case TakeStop => Set(s, l, loop.(con := Consumer.Closing)).(runner := Stopping(l, AwaitConsumer))
    case CloseConsumer =>
      Close(Set(s, l, loop.(con := Consumer.Gone, stopConsumerClosed := true)), loop.stopConsumerClosed)
    case SeeConsumerClosed => s.(runner := Stopping(l, SendStopPublisher))
    case TakeRequest => Set(s, l, loop.(pub := Busy))
    case JobEnds => Set(s, l, loop.(pub := Select))
    case TakeStopPublisher => Set(s, l, loop.(pub := Publisher.Closing(0))).(runner := Stopping(l, AwaitPublisher))
    case ClosePublisher =>
      // close(stopPublisherCh), then the deferred close(submitSignal) and, in the network reactor, close(reqBuss)
      if loop.pub.k == 0 then
        Close(Set(s, l, loop.(pub := Publisher.Closing(1), stopPublisherClosed := true)), loop.stopPublisherClosed)
      else if loop.pub.k == 1 then
        var next := if s.net then Publisher.Closing(2) else Publisher.Gone;
        Close(Set(s, l, loop.(pub := next, signalClosed := true)), loop.signalClosed)
      else
        Close(Set(s, l, loop.(pub := Publisher.Gone, busClosed := true)), loop.busClosed)
    case SeePublisherClosed =>
      s.(runner := if l + 1 < |s.loops| then Stopping(l + 1, SendStopConsumer) else Finished)
    case ContextEnds => s.(runner := Stopping(0, SendStopConsumer))
  }

  /** How far the runner is with loop `l`: 0 before it, 1 to 4 the phases at it, 5 past it. */
  function Progress(r: Runner, l: nat): nat {
    match r
    case Running => 0
    case Finished => 5
    case Stopping(k, phase) =>
      if k < l then 0
      else if k > l then 5
      else match phase
        case SendStopConsumer => 1
        case AwaitConsumer => 2
        case SendStopPublisher => 3
        case AwaitPublisher => 4
  }

  /**
   A loop's own program points are in step with the runner, and its channels are closed by the point it has
   reached.
   */
  predicate LoopInv(net: bool, loop: Loop, progress: nat) {
    && (progress <= 1 ==> loop.con != Consumer.Closing && loop.con != Consumer.Gone)
    && (progress == 2 ==> loop.con == Consumer.Closing || loop.con == Consumer.Gone)
    && (progress >= 3 ==> loop.con == Consumer.Gone)
    && (progress <= 3 ==> loop.pub == Select || loop.pub == Busy)
    && (progress >= 4 ==> loop.pub.Closing? || loop.pub == Publisher.Gone)
    && (progress == 5 ==> loop.pub != Publisher.Closing(0))
    && (loop.pub.Closing? ==> loop.pub.k <= if net then 2 else 1)
    && (loop.con == Signal2 ==> net)
    && (loop.stopConsumerClosed <==> loop.con == Consumer.Gone)
    && (loop.stopPublisherClosed <==> loop.pub == Publisher.Gone || (loop.pub.Closing? && loop.pub.k >= 1))
    && (loop.signalClosed <==> loop.pub == Publisher.Gone || (loop.pub.Closing? && loop.pub.k >= 2))
    && (loop.busClosed <==> net && loop.pub == Publisher.Gone)
  }

  ghost predicate Inv(s: State) {
    && |s.loops| > 0 && !s.panicked
    && (s.runner.Stopping? ==> s.runner.l < |s.loops|)
    && forall l :: 0 <= l < |s.loops| ==> LoopInv(s.net, s.loops[l], Progress(s.runner, l))
  }

  lemma InitInv(s: State)
    requires Init(s)
    ensures Inv(s)
  {
  }

  /** The loop that moves. */
  lemma StepHere(s: State, l: nat, m: Move)
    requires Inv(s) && Enabled(s, l, m)
    ensures var s' := Step(s, l, m); !s'.panicked && LoopInv(s'.net, s'.loops[l], Progress(s'.runner, l))
  {
    assert LoopInv(s.net, s.loops[l], Progress(s.runner, l));
  }

  /** The other loops: only the runner's passing from one loop to the next can concern them. */
  lemma StepElsewhere(s: State, l: nat, m: Move, k: nat)
    requires Inv(s) && Enabled(s, l, m) && k < |s.loops| && k != l
    ensures var s' := Step(s, l, m); s'.loops[k] == s.loops[k] && LoopInv(s'.net, s'.loops[k], Progress(s'.runner, k))
  {
    assert LoopInv(s.net, s.loops[k], Progress(s.runner, k));
    hide LoopInv;
    var s' := Step(s, l, m);
    if Progress(s'.runner, k) != Progress(s.runner, k) {
      assert Progress(s.runner, k) == 0 && Progress(s'.runner, k) == 1;
      ReachLoop(s.net, s.loops[k]);
    }
  }

  lemma ReachLoop(net: bool, loop: Loop)
    requires LoopInv(net, loop, 0)
    ensures LoopInv(net, loop, 1)
  {
  }

  /** No step panics: nobody sends on a closed channel and no channel is closed twice. */
  lemma StepInv(s: State, l: nat, m: Move)
    requires Inv(s) && Enabled(s, l, m)
    ensures Inv(Step(s, l, m))
  {
    hide LoopInv;
    var s' := Step(s, l, m);
    StepHere(s, l, m);
    forall k | 0 <= k < |s.loops|
      ensures LoopInv(s'.net, s'.loops[k], Progress(s'.runner, k))
    {
      if k != l {
        StepElsewhere(s, l, m, k);
      }
    }
  }

  /** Some step that moves loop `l` towards its end. */
  function NextMove(s: State, l: nat): Move
    requires l < |s.loops|
  {
    var loop := s.loops[l];
    if loop.pub == Busy then JobEnds
    else if loop.pub.Closing? then ClosePublisher
    else match loop.con
      case Signal => SignalPublisher
      case Signal2 => SignalPublisher
      case Wait => WaitEnds(false)
      case Drain => DrainEnds
      case Check => if s.runner == Stopping(l, SendStopConsumer) then TakeStop else KeepRunning
      case Closing => CloseConsumer
      case Gone => if s.runner == Stopping(l, AwaitConsumer) then SeeConsumerClosed else TakeStopPublisher
  }

  predicate LoopDone(loop: Loop) {
    loop.con == Consumer.Gone && loop.pub == Publisher.Gone
  }

  /**
   No loop ever gets stuck: until its consumer and publisher are both gone, some participant can take a
   step in it. And once every loop is done, the runner can finish.
   */
  lemma NeverStuck(s: State, l: nat)
    requires Inv(s) && l < |s.loops|
    ensures !LoopDone(s.loops[l]) ==> Enabled(s, l, NextMove(s, l))
    ensures s.runner.Stopping? && LoopDone(s.loops[s.runner.l]) ==> Enabled(s, s.runner.l, SeePublisherClosed)
  {
    assert LoopInv(s.net, s.loops[l], Progress(s.runner, l));
    if s.runner.Stopping? {
      assert LoopInv(s.net, s.loops[s.runner.l], Progress(s.runner, s.runner.l));
    }
  }

  /** Runs of the skeleton. */
  ghost predicate Run(s: State, moves: seq<(nat, Move)>, s': State)
    decreases |moves|
  {
    if moves == [] then s == s'
    else Enabled(s, moves[0].0, moves[0].1) && Run(Step(s, moves[0].0, moves[0].1), moves[1..], s')
  }

  lemma {:induction false} RunInv(s: State, moves: seq<(nat, Move)>, s': State)
    requires Inv(s) && Run(s, moves, s')
    ensures Inv(s')
    decreases |moves|
  {
    if moves != [] {
      StepInv(s, moves[0].0, moves[0].1);
      RunInv(Step(s, moves[0].0, moves[0].1), moves[1..], s');
    }
  }

  /**
   In every run the loops shut down safely: no panic, the publisher outlives its consumer, and no loop is ever
   stuck.
   */
  lemma SafeShutdown(s: State, moves: seq<(nat, Move)>, s': State)
    requires Init(s) && Run(s, moves, s')
    ensures !s'.panicked
    ensures forall l :: 0 <= l < |s'.loops| && s'.loops[l].signalClosed ==> s'.loops[l].con == Consumer.Gone
    ensures forall l :: 0 <= l < |s'.loops| && !LoopDone(s'.loops[l]) ==> Enabled(s', l, NextMove(s', l))
    ensures
      var r := s'.runner;
      r.Stopping? ==> r.l < |s'.loops| && (LoopDone(s'.loops[r.l]) ==> Enabled(s', r.l, SeePublisherClosed))
  {
    RunInv(s, moves, s');
    forall l | 0 <= l < |s'.loops|
      ensures s'.loops[l].signalClosed ==> s'.loops[l].con == Consumer.Gone
      ensures !LoopDone(s'.loops[l]) ==> Enabled(s', l, NextMove(s', l))
    {
      NeverStuck(s', l);
      assert LoopInv(s'.net, s'.loops[l], Progress(s'.runner, l));
    }
    if s'.runner.Stopping? {
      NeverStuck(s', s'.runner.l);
    }
  }

  /** How many of its own steps a consumer can take at most before it polls the stop channel. */
  function StepsToCheck(con: Consumer): nat {
    match con
    case Signal => 4
    case Wait => 3
    case Signal2 => 2
    case Drain => 1
    case _ => 0
  }

  // ----- the consumer's way round its loop -----

  /** A step of the consumer. */
  predicate OfConsumer(m: Move) {
    match m
    case SignalPublisher => true
    case WaitEnds(_) => true
    case DrainEnds => true
    case TakeStop => true
    case CloseConsumer => true
    case _ => false
  }

  /** The consumer steps of loop `l` since it last went round. */
  function Round(moves: seq<(nat, Move)>, l: nat): seq<Move> {
    if moves == [] then []
    else
      var front, k, m := Round(moves[..|moves| - 1], l), moves[|moves| - 1].0, moves[|moves| - 1].1;
      if k != l then front else if m == KeepRunning then [] else if OfConsumer(m) then front + [m] else front
  }

  /**
   What a consumer has done in a round. It signals the publisher before each wait; a wait that brings events leads
   to draining, in the network reactor after a second signal; and draining ends before it polls for a stop.
   */
  predicate Itinerary(net: bool, done: seq<Move>, con: Consumer) {
    var drained := [SignalPublisher, WaitEnds(true)] + if net then [SignalPublisher] else [];
    match con
    case Signal => done == []
    case Wait => done == [SignalPublisher]
    case Signal2 => net && done == [SignalPublisher, WaitEnds(true)]
    case Drain => done == drained
    case Check => done == [SignalPublisher, WaitEnds(false)] || done == drained + [DrainEnds]
    case Closing =>
      done == [SignalPublisher, WaitEnds(false), TakeStop] || done == drained + [DrainEnds, TakeStop]
    case Gone =>
      || done == [SignalPublisher, WaitEnds(false), TakeStop, CloseConsumer]
      || done == drained + [DrainEnds, TakeStop, CloseConsumer]
  }

  lemma ItineraryStep(s: State, l: nat, m: Move, done: seq<Move>)
    requires Inv(s) && Enabled(s, l, m) && Itinerary(s.net, done, s.loops[l].con)
    ensures Itinerary(s.net, if m == KeepRunning then [] else if OfConsumer(m) then done + [m] else done,
                      Step(s, l, m).loops[l].con)
  {
    assert LoopInv(s.net, s.loops[l], Progress(s.runner, l));
  }

  /** Any step, seen from loop `l`. */
  lemma RoundStep(s: State, k: nat, m: Move, l: nat, front: seq<(nat, Move)>)
    requires Inv(s) && Enabled(s, k, m) && l < |s.loops| && Itinerary(s.net, Round(front, l), s.loops[l].con)
    ensures var s' := Step(s, k, m);
            && |s'.loops| == |s.loops| && s'.net == s.net
            && Itinerary(s.net, Round(front + [(k, m)], l), s'.loops[l].con)
  {
    hide Itinerary, LoopInv, Progress;
    assert (front + [(k, m)])[..|front|] == front;
    if k == l {
      ItineraryStep(s, l, m, Round(front, l));
    }
  }

  lemma {:induction false} LastStep(s: State, moves: seq<(nat, Move)>, s': State) returns (t: State)
    requires moves != [] && Run(s, moves, s')
    ensures Run(s, moves[..|moves| - 1], t) && Enabled(t, moves[|moves| - 1].0, moves[|moves| - 1].1)
    ensures s' == Step(t, moves[|moves| - 1].0, moves[|moves| - 1].1)
    decreases |moves|
  {
    var last := |moves| - 1;
    if last == 0 {
      t := s;
    } else {
      t := LastStep(Step(s, moves[0].0, moves[0].1), moves[1..], s');
      assert moves[..last][1..] == moves[1..][..last - 1];
    }
  }

  /** In every run each consumer is on its way through a round as described. */
  lemma {:induction false} OnItsWay(s: State, moves: seq<(nat, Move)>, s': State, l: nat)
    requires Init(s) && Run(s, moves, s') && l < |s.loops|
    ensures |s'.loops| == |s.loops| && s'.net == s.net && Itinerary(s.net, Round(moves, l), s'.loops[l].con)
    decreases |moves|
  {
    hide Itinerary, Run, Inv, Round, Step, Enabled;
    if moves == [] {
      assert s == s' by { RunNothing(s, moves, s'); }
      StartsRound(s, l);
    } else {
      var front, k, m := moves[..|moves| - 1], moves[|moves| - 1].0, moves[|moves| - 1].1;
      var t := LastStep(s, moves, s');
      OnItsWay(s, front, t, l);
      InitInv(s);
      RunInv(s, front, t);
      RoundStep(t, k, m, l, front);
      assert front + [(k, m)] == moves;
    }
  }

  lemma RunNothing(s: State, moves: seq<(nat, Move)>, s': State)
    requires Run(s, moves, s') && moves == []
    ensures s == s'
  {
  }

  lemma StartsRound(s: State, l: nat)
    requires Init(s) && l < |s.loops|
    ensures Itinerary(s.net, Round([], l), s.loops[l].con)
  {
  }
}
