/**
 A run in which shutdown panics: a caller of Queue has registered its callback and not yet sent its request when
 the reactor is stopped; the publisher closes reqBuss, and then the caller sends.
 */
module NetLateSend {
  import opened NetReactor
  import opened NetRuns
  import C = Control
  import O = NetOneSlot

  const CALLER := O.IDLE.(sending := [O.REQUEST])

  /** The one loop is being stopped, with its caller still about to send. */
  function Stopping(c: C.Loop, phase: C.Phase, d: Loop): State {
    var s := O.At(C.Signal, C.Select, O.TABLE, d, O.LOG[..1]);
    s.(ctl := C.State(true, [c], C.Stopping(0, phase), false))
  }

  /** No caller begins after the context has ended. */
  ghost predicate BegunInTime(ss: seq<State>, acts: seq<Action>) {
    |ss| == |acts| + 1 &&
    forall i :: 0 <= i < |acts| && (acts[i].m.Draw? || acts[i].m.AskCancel?) ==> ss[i].ctl.runner == C.Running
  }

  lemma Extend(ss: seq<State>, acts: seq<Action>, m: Move, s: State) returns (ss': seq<State>, acts': seq<Action>)
    requires IsRun(ss, acts) && BegunInTime(ss, acts) && !m.Draw? && !m.AskCancel?
    requires Enabled(ss[|acts|], 0, m) && O.Same(Step(ss[|acts|], 0, m), s)
    ensures IsRun(ss', acts') && BegunInTime(ss', acts') && ss'[|acts'|] == s
  {
    hide IsRun, Enabled, Step, O.Same;
    ss', acts' := O.Extend(ss, acts, m, s);
  }

  lemma QueuedInTime() returns (ss: seq<State>, acts: seq<Action>)
    ensures IsRun(ss, acts) && BegunInTime(ss, acts)
    ensures ss[|acts|] == O.At(C.Signal, C.Select, O.TABLE, CALLER, O.LOG[..1])
  {
    hide Enabled, Step;
    ss, acts := O.Queue();
  }

  /** The context ends; the consumer signals its publisher. */
  lemma Signal() returns (ss: seq<State>, acts: seq<Action>)
    ensures IsRun(ss, acts) && BegunInTime(ss, acts)
    ensures ss[|acts|] ==
            Stopping(C.FRESH.(con := C.Wait, pub := C.Busy), C.SendStopConsumer, CALLER.(job := Signalled))
  {
    hide IsRun, BegunInTime, IdOf, FirstEntry, TimeoutEntry;
    ss, acts := QueuedInTime();
    var c := C.FRESH.(con := C.Wait, pub := C.Busy);
    ss, acts := Extend(ss, acts, Other(C.ContextEnds), Stopping(C.FRESH, C.SendStopConsumer, CALLER));
    ss, acts := Extend(ss, acts, SignalPublisher, Stopping(c, C.SendStopConsumer, CALLER.(job := Signalled)));
  }

  /** The consumer goes on to poll its stop channel. */
  lemma Ask() returns (ss: seq<State>, acts: seq<Action>)
    ensures IsRun(ss, acts) && BegunInTime(ss, acts)
    ensures ss[|acts|] == Stopping(C.FRESH.(con := C.Check), C.SendStopConsumer, CALLER)
  {
    hide IsRun, BegunInTime, IdOf, FirstEntry, TimeoutEntry;
    ss, acts := Signal();
    ss, acts := Extend(ss, acts, Swap, Stopping(C.FRESH.(con := C.Wait), C.SendStopConsumer, CALLER));
    ss, acts := Extend(ss, acts, WaitEnds(false), Stopping(C.FRESH.(con := C.Check), C.SendStopConsumer, CALLER));
  }

  const NO_CONSUMER := C.FRESH.(con := C.Consumer.Gone, stopConsumerClosed := true)

  /** The consumer stops. */
  lemma StopConsumer() returns (ss: seq<State>, acts: seq<Action>)
    ensures IsRun(ss, acts) && BegunInTime(ss, acts) && ss[|acts|] == Stopping(NO_CONSUMER, C.SendStopPublisher, CALLER)
  {
    hide IsRun, BegunInTime, IdOf, FirstEntry, TimeoutEntry;
    ss, acts := Ask();
    var c := C.FRESH.(con := C.Consumer.Closing);
    ss, acts := Extend(ss, acts, Other(C.TakeStop), Stopping(c, C.AwaitConsumer, CALLER));
    ss, acts := Extend(ss, acts, Other(C.CloseConsumer), Stopping(NO_CONSUMER, C.AwaitConsumer, CALLER));
    ss, acts := Extend(ss, acts, Other(C.SeeConsumerClosed), Stopping(NO_CONSUMER, C.SendStopPublisher, CALLER));
  }

  const CLOSED := NO_CONSUMER.(
    pub := C.Publisher.Gone, stopPublisherClosed := true, signalClosed := true, busClosed := true)

  /** The publisher stops, and closes its channels. */
  lemma StopPublisher() returns (ss: seq<State>, acts: seq<Action>)
    ensures IsRun(ss, acts) && BegunInTime(ss, acts) && ss[|acts|] == Stopping(CLOSED, C.AwaitPublisher, CALLER)
  {
    hide IsRun, BegunInTime, IdOf, FirstEntry, TimeoutEntry;
    ss, acts := StopConsumer();
    var c := NO_CONSUMER.(pub := C.Publisher.Closing(0));
    ss, acts := Extend(ss, acts, Other(C.TakeStopPublisher), Stopping(c, C.AwaitPublisher, CALLER));
    c := c.(pub := C.Publisher.Closing(1), stopPublisherClosed := true);
    ss, acts := Extend(ss, acts, Other(C.ClosePublisher), Stopping(c, C.AwaitPublisher, CALLER));
    c := c.(pub := C.Publisher.Closing(2), signalClosed := true);
    ss, acts := Extend(ss, acts, Other(C.ClosePublisher), Stopping(c, C.AwaitPublisher, CALLER));
    ss, acts := Extend(ss, acts, Other(C.ClosePublisher), Stopping(CLOSED, C.AwaitPublisher, CALLER));
  }

  /** The caller sends, and the program panics, although nothing was queued after the stop. */
  lemma Panics() returns (ss: seq<State>, acts: seq<Action>)
    ensures IsRun(ss, acts) && BegunInTime(ss, acts) && ss[|acts|].panicked
  {
    hide IsRun, BegunInTime, IdOf, FirstEntry, TimeoutEntry;
    ss, acts := StopPublisher();
    ss, acts := Extend(ss, acts, SendClosed(0), Stopping(CLOSED, C.AwaitPublisher, CALLER).(panicked := true));
  }
}
