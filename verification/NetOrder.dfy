/** The order of things in a loop of the network reactor: requests are handled as they were sent. */
module NetOrder {
  import opened SubmissionSpec
  import opened CompletionSpec
  import opened RegistrySpec
  import opened NetReactor
  import opened NetDispatch
  import opened NetRuns
  import C = Control

  // ----- requests -----

  /** The requests that callers have sent to loop `l` in the first `i` steps, in the order of the sends. */
  function SentTo(ss: seq<State>, acts: seq<Action>, i: nat, l: nat): seq<Request>
    requires i <= |acts| && i <= |ss|
  {
    if i == 0 then []
    else
      var a, s := acts[i - 1], ss[i - 1];
      SentTo(ss, acts, i - 1, l) +
      if a.l == l && a.m.Send? && l < |s.loops| && a.m.i < |s.loops[l].sending| then [s.loops[l].sending[a.m.i]] else []
  }

  /** One sequence is what is left of another when some of its elements are struck out. */
  predicate Among<T(==)>(a: seq<T>, b: seq<T>) {
    if a == [] then true
    else
      && b != []
      && (Among(a, b[..|b| - 1]) || (a[|a| - 1] == b[|b| - 1] && Among(a[..|a| - 1], b[..|b| - 1])))
  }

  lemma AmongAppend<T>(a: seq<T>, b: seq<T>, x: T)
    requires Among(a, b)
    ensures Among(a, b + [x]) && Among(a + [x], b + [x])
  {
    assert (a + [x])[..|a|] == a && (b + [x])[..|b|] == b;
  }

  lemma {:induction false} AmongDrop<T>(a: seq<T>, b: seq<T>)
    requires a != [] && Among(a, b)
    ensures Among(a[..|a| - 1], b)
    decreases |b|
  {
    if Among(a, b[..|b| - 1]) {
      AmongDrop(a, b[..|b| - 1]);
    }
  }

  lemma {:induction false} AmongPlus<T>(a: seq<T>, b: seq<T>, c: seq<T>)
    requires Among(a, b)
    ensures Among(a, b + c)
    decreases |c|
  {
    if c == [] {
      assert b + c == b;
    } else {
      AmongPlus(a, b, c[..|c| - 1]);
      AmongAppend(a, b + c[..|c| - 1], c[|c| - 1]);
      assert b + c == b + c[..|c| - 1] + [c[|c| - 1]];
    }
  }

  function Requests(as_: seq<Accept>): (r: seq<Request>)
    ensures |r| == |as_| && forall k :: 0 <= k < |as_| ==> r[k] == as_[k].req
  {
    if as_ == [] then [] else Requests(as_[..|as_| - 1]) + [as_[|as_| - 1].req]
  }

  lemma RequestsAppend(as_: seq<Accept>, a: Accept)
    ensures Requests(as_ + [a]) == Requests(as_) + [a.req]
  {
    assert (as_ + [a])[..|as_|] == as_;
  }

  /** The requests accepted, and the one at hand. */
  function Handled(d: Loop): seq<Request> {
    Requests(d.accepted) + if d.job.First? || d.job.Second? then [d.job.req] else []
  }

  /** The requests taken off the bus are the first ones sent, and those handled are among them, in the same order. */
  ghost predicate InOrder(bus: seq<Request>, handled: seq<Request>, sent: seq<Request>) {
    && |bus| <= |sent| && bus == sent[|sent| - |bus|..]
    && Among(handled, sent[..|sent| - |bus|])
  }

  lemma OneSent(bus: seq<Request>, handled: seq<Request>, sent: seq<Request>, req: Request)
    requires InOrder(bus, handled, sent)
    ensures InOrder(bus + [req], handled, sent + [req])
  {
    hide Among;
    assert (sent + [req])[..|sent| - |bus|] == sent[..|sent| - |bus|];
  }

  lemma OneTaken(bus: seq<Request>, handled: seq<Request>, sent: seq<Request>)
    requires InOrder(bus, handled, sent) && bus != []
    ensures InOrder(bus[1..], handled + [bus[0]], sent)
  {
    hide Among;
    var taken := sent[..|sent| - |bus|];
    AmongAppend(handled, taken, bus[0]);
    assert sent[..|sent| - |bus[1..]|] == taken + [bus[0]];
  }

  lemma OneDropped(bus: seq<Request>, handled: seq<Request>, sent: seq<Request>)
    requires InOrder(bus, handled, sent) && handled != []
    ensures InOrder(bus, handled[..|handled| - 1], sent)
  {
    AmongDrop(handled, sent[..|sent| - |bus|]);
  }

  /** A request is handled when it is received, and struck out if it finds no slot. */
  lemma HandledAfter(d: Loop, m: Move, t: Table, serial: nat)
    requires Possible(d, m) && (Starts(m) ==> d.job.NoJob?)
    ensures
      var h, h' := Handled(d), Handled(StepLoop(d, m, t, serial));
      if m.Receive? then h' == h + [d.bus[0]] else h' == h || (h != [] && h' == h[..|h| - 1])
  {
    hide FirstEntry, TimeoutEntry, IdOf, Requests, SubQueue.Enqueue, CompQueue.Post;
    if m.QueueFirst? || m.QueueSecond? {
      RequestsAppend(d.accepted, Whole(d.job.req));
      RequestsAppend(d.accepted, Half(d.job.req));
    }
  }

  lemma BusAfter(d: Loop, m: Move, t: Table, serial: nat)
    requires Possible(d, m)
    ensures StepLoop(d, m, t, serial).bus ==
            if m.Send? then d.bus + [d.sending[m.i]] else if m.Receive? then d.bus[1..] else d.bus
  {
    hide FirstEntry, TimeoutEntry, IdOf, SubQueue.Enqueue, CompQueue.Post;
  }

  ghost predicate Ordered(d: Loop, sent: seq<Request>) {
    InOrder(d.bus, Handled(d), sent)
  }

  lemma OrderedStep(d: Loop, m: Move, t: Table, serial: nat, sent: seq<Request>)
    requires Possible(d, m) && Ordered(d, sent) && (Starts(m) ==> d.job.NoJob?)
    ensures Ordered(StepLoop(d, m, t, serial), if m.Send? then sent + [d.sending[m.i]] else sent)
  {
    hide StepLoop, Handled, InOrder;
    var d' := StepLoop(d, m, t, serial);
    BusAfter(d, m, t, serial);
    HandledAfter(d, m, t, serial);
    if m.Send? {
      OneSent(d.bus, Handled(d), sent, d.sending[m.i]);
      if Handled(d') != Handled(d) {
        OneDropped(d'.bus, Handled(d), sent + [d.sending[m.i]]);
      }
    } else if m.Receive? {
      OneTaken(d.bus, Handled(d), sent);
    } else if Handled(d') != Handled(d) {
      OneDropped(d.bus, Handled(d), sent);
    }
  }

  lemma {:induction false} RunOrdered(ss: seq<State>, acts: seq<Action>, i: nat, l: nat)
    requires IsRun(ss, acts) && i < |ss| && l < |ss[i].loops|
    ensures Ordered(ss[i].loops[l], SentTo(ss, acts, i, l))
  {
    hide InOrder, Ordered, Init, StepTable, StepLoop, Logged, C.Step, C.Enabled, Skeleton, Ok;
    if i == 0 {
      InitOrdered(ss[0], l);
    } else {
      var s, a := ss[i - 1], acts[i - 1];
      StepShape(s, a.l, a.m);
      RunOrdered(ss, acts, i - 1, l);
      var sent := SentTo(ss, acts, i - 1, l);
      if a.l == l {
        RunOk(ss, acts, i - 1);
        JobFree(s, l, a.m);
        OrderedStep(s.loops[l], a.m, s.table, if a.m.Draw? then s.Draws(a.m.op.fd) + 1 else 0, sent);
      }
      assert sent + [] == sent;
    }
  }

  lemma InitOrdered(s: State, l: nat)
    requires Init(s) && l < |s.loops|
    ensures Ordered(s.loops[l], [])
  {
  }

  /**
   First come, first served: in every run, the requests that a loop has accepted are those sent to it, in the order
   of the sends, except that some may be missing (waiting on the bus, at hand, or dropped for want of a slot).
   */
  lemma InSendOrder(ss: seq<State>, acts: seq<Action>, i: nat, l: nat)
    requires IsRun(ss, acts) && i < |ss| && l < |ss[i].loops|
    ensures Among(Requests(ss[i].loops[l].accepted), SentTo(ss, acts, i, l))
  {
    hide Among, Requests, SentTo, Init, Step, Enabled;
    RunOrdered(ss, acts, i, l);
    var d, sent := ss[i].loops[l], SentTo(ss, acts, i, l);
    var taken := sent[..|sent| - |d.bus|];
    if d.job.First? || d.job.Second? {
      AmongDrop(Handled(d), taken);
      assert Handled(d)[..|Handled(d)| - 1] == Requests(d.accepted);
    } else {
      assert Handled(d) == Requests(d.accepted);
    }
    AmongPlus(Requests(d.accepted), taken, d.bus);
    assert taken + d.bus == sent;
  }

  // ----- submits -----

  /** Since its publisher last looked at the flag, loop `l` has received a request or been refused a submit. */
  function Wanted(acts: seq<Action>, l: nat): bool {
    if acts == [] then false
    else
      var a := acts[|acts| - 1];
      if a.l == l && (a.m.Receive? || a.m == Return(true)) then true
      else if a == Action(l, Swap) then false
      else Wanted(acts[..|acts| - 1], l)
  }

  lemma {:induction false} FlagIsWanted(ss: seq<State>, acts: seq<Action>, i: nat, l: nat)
    requires IsRun(ss, acts) && i < |ss| && l < |ss[i].loops|
    ensures ss[i].loops[l].allowed == Wanted(acts[..i], l)
  {
    hide StepTable, StepLoop, Logged, C.Step, C.Enabled, Skeleton;
    if i > 0 {
      var s, a := ss[i - 1], acts[i - 1];
      StepShape(s, a.l, a.m);
      FlagIsWanted(ss, acts, i - 1, l);
      assert acts[..i][..i - 1] == acts[..i - 1];
      FlagAfter(s.loops[a.l], a.m, s.table, if a.m.Draw? then s.Draws(a.m.op.fd) + 1 else 0);
    }
  }

  lemma FlagAfter(d: Loop, m: Move, t: Table, serial: nat)
    requires Possible(d, m)
    ensures StepLoop(d, m, t, serial).allowed ==
            if m.Receive? || m == Return(true) then true else if m.Swap? then false else d.allowed
  {
    hide FirstEntry, TimeoutEntry, IdOf;
  }

  /** A signalled publisher submits exactly if something asked for it since it was last signalled. */
  lemma SubmitsOnDemand(ss: seq<State>, acts: seq<Action>, i: nat, l: nat)
    requires IsRun(ss, acts) && i < |acts| && acts[i] == Action(l, Swap)
    ensures l < |ss[i + 1].loops|
    ensures ss[i + 1].loops[l].job == (if Wanted(acts[..i], l) then Flushing else NoJob)
  {
    hide Init, StepTable, Logged, C.Step, C.Enabled, Skeleton, Wanted, FirstEntry, TimeoutEntry, IdOf;
    FlagIsWanted(ss, acts, i, l);
  }
}
