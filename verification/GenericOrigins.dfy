/**
 Where things in the generic reactor come from, over whole runs: the n-th call of Queue draws identifier n, and
 everything that carries this identifier is of that call.
 */
module GenericOrigins {
  import opened Words
  import opened Entries
  import opened RequestIds
  import opened RegistrySpec
  import opened SubmissionSpec
  import opened CompletionSpec
  import opened Tallies
  import opened CallbackLog
  import opened GenericReactor
  import opened GenericDispatch
  import opened GenericRuns
  import N = NetReactor
  import O = NetOrigins
  import S = NetSubmission
  import C = Control

  /** The calls of Queue, in the order in which they drew their identifiers. */
  function Orders(acts: seq<Action>): seq<O.Order> {
    if acts == [] then []
    else
      var m := acts[|acts| - 1].m;
      Orders(acts[..|acts| - 1]) + (if m.Arrive? then [O.Order(m.op, m.cb, m.timeout)] else [])
  }

  lemma OrdersAppend(acts: seq<Action>, a: Action)
    ensures Orders(acts + [a]) ==
            Orders(acts) + (if a.m.Arrive? then [O.Order(a.m.op, a.m.cb, a.m.timeout)] else [])
  {
    assert (acts + [a])[..|acts|] == acts;
  }

  /** Some call of Cancel on loop `l` named this identifier. */
  ghost predicate AskedFor(acts: seq<Action>, l: nat, id: uint64) {
    Action(l, AskCancel(id)) in acts
  }

  /** The identifier was drawn, and this loop is the one for it. */
  predicate DrawnFor(orders: seq<O.Order>, l: nat, n: nat, id: int)
    requires n > 0
  {
    1 <= id <= |orders| && LoopFor(id, n) == l
  }

  /**
   A request in loop `l` is a cancel that was asked for there, or carries the operation and timeout of the call that
   drew its identifier.
   */
  ghost predicate RequestFrom(acts: seq<Action>, l: nat, n: nat, req: N.Request)
    requires n > 0
  {
    if req.userData == CANCEL_NONCE
    then 0 <= req.op.addr < 0x1_0000_0000_0000_0000 &&
         req == N.Request(Cancel(req.op.addr), 0, CANCEL_NONCE, 0) && AskedFor(acts, l, req.op.addr)
    else
      var os := Orders(acts);
      DrawnFor(os, l, n, req.userData) &&
      req == N.Request(os[req.userData - 1].op, 0, req.userData, os[req.userData - 1].timeout)
  }

  /** The callback is that of the call that drew the identifier. */
  ghost predicate CallbackFrom(acts: seq<Action>, l: nat, n: nat, id: int, cb: Callback)
    requires n > 0
  {
    var os := Orders(acts);
    DrawnFor(os, l, n, id) && cb == os[id - 1].cb
  }

  ghost predicate CallFrom(acts: seq<Action>, l: nat, n: nat, call: Call)
    requires n > 0
  {
    && RequestFrom(acts, l, n, call.req)
    && (call.req.userData != CANCEL_NONCE ==> CallbackFrom(acts, l, n, call.req.userData, call.cb))
  }

  ghost predicate LoopFrom(acts: seq<Action>, l: nat, n: nat, d: Loop)
    requires n > 0
  {
    && (forall c :: c in d.waiting ==> CallFrom(acts, l, n, c))
    && (d.holder.Caller? ==> CallFrom(acts, l, n, d.holder.call))
    && (forall a :: a in d.accepted ==> RequestFrom(acts, l, n, a.req))
    && (forall id :: id in d.callbacks && !Reserved(id) ==> CallbackFrom(acts, l, n, id, d.callbacks[id]))
    && (forall e :: e in d.log ==> CallbackFrom(acts, l, n, e.key, e.cb))
  }

  lemma StillFrom(acts: seq<Action>, a: Action, l: nat, n: nat, d: Loop)
    requires n > 0 && LoopFrom(acts, l, n, d)
    ensures LoopFrom(acts + [a], l, n, d)
  {
    hide Orders;
    OrdersAppend(acts, a);
  }

  lemma LoopFromStep(acts: seq<Action>, l: nat, n: nat, d: Loop, m: Move, counter: nat, nonce: nat)
    requires n > 0 && Possible(d, m) && LoopOk(d) && Corresponds(d, counter) && LoopFrom(acts, l, n, d)
    requires nonce < CANCEL_NONCE
    requires m.Arrive? ==> nonce == |Orders(acts)| + 1 && LoopFor(nonce, n) == l
    ensures LoopFrom(acts + [Action(l, m)], l, n, StepLoop(d, m, nonce))
  {
    hide Orders, FilledFirst, FilledSecond, Corresponds, LoopOk, CallFrom, RequestFrom, CallbackFrom, StepCaller;
    var acts' := acts + [Action(l, m)];
    StillFrom(acts, Action(l, m), l, n, d);
    match m
    case Arrive(op, cb, timeout) => ArrivedFrom(acts, l, n, m, nonce);
    case AskCancel(id) =>
      assert acts'[|acts|] == Action(l, AskCancel(id));
      CancelFrom(acts', l, n, id);
    case Acquire(i) => assert d.waiting[i] in d.waiting;
    case Dispatch =>
      if !Reserved(d.cq.ready[d.batch.i].userData) {
        DispatchFinds(d, counter);
      }
    case SetFlag => CallerFromStep(acts', l, n, d, m);
    case Reserve(_) => CallerFromStep(acts', l, n, d, m);
    case Fill => CallerFromStep(acts', l, n, d, m);
    case Store => CallerFromStep(acts', l, n, d, m);
    case Release => CallerFromStep(acts', l, n, d, m);
    case _ =>
  }

  lemma ArrivedFrom(acts: seq<Action>, l: nat, n: nat, m: Move, nonce: nat)
    requires n > 0 && m.Arrive? && nonce < CANCEL_NONCE && nonce == |Orders(acts)| + 1 && LoopFor(nonce, n) == l
    ensures CallFrom(acts + [Action(l, m)], l, n, Call(N.Request(m.op, 0, nonce, m.timeout), m.cb))
  {
    hide Orders;
    OrdersAppend(acts, Action(l, m));
  }

  lemma CancelFrom(acts: seq<Action>, l: nat, n: nat, id: uint64)
    requires n > 0 && AskedFor(acts, l, id)
    ensures CallFrom(acts, l, n, Call(N.Request(Cancel(id), 0, CANCEL_NONCE, 0), Nil))
  {
  }

  lemma CallerFromStep(acts: seq<Action>, l: nat, n: nat, d: Loop, m: Move)
    requires n > 0 && Possible(d, m) && d.holder.Caller? && LoopFrom(acts, l, n, d)
    requires m.SetFlag? || m.Reserve? || m.Fill? || m.Store? || m.Release?
    ensures LoopFrom(acts, l, n, StepCaller(d, m))
  {
    hide FilledFirst, FilledSecond, RequestFrom, CallbackFrom;
  }

  /** Everything in a state comes from the actions so far, and the counter is the number of calls. */
  ghost predicate AllFrom(acts: seq<Action>, s: State) {
    && s.counter == |Orders(acts)|
    && forall l :: 0 <= l < |s.loops| ==> LoopFrom(acts, l, |s.loops|, s.loops[l])
  }

  lemma AllFromStep(acts: seq<Action>, s: State, l: nat, m: Move)
    requires Ok(s) && Enabled(s, l, m) && AllFrom(acts, s)
    ensures AllFrom(acts + [Action(l, m)], Step(s, l, m))
  {
    hide Orders, StepLoop, LoopFrom, C.Step, C.Enabled, C.Inv, Skeleton, InStep, NothingLost, LogOk, Sent, AcceptsOk,
      LoopOk, Corresponds;
    var acts', s', n := acts + [Action(l, m)], Step(s, l, m), |s.loops|;
    OrdersAppend(acts, Action(l, m));
    assert LoopInv(s.loops[l], s.counter);
    forall k | 0 <= k < n
      ensures LoopFrom(acts', k, n, s'.loops[k])
    {
      if k == l {
        LoopFromStep(acts, l, n, s.loops[l], m, s.counter, if m.Arrive? then s.counter + 1 else 0);
      } else {
        StillFrom(acts, Action(l, m), k, n, s.loops[k]);
      }
    }
  }

  lemma {:induction false} RunFrom(ss: seq<State>, acts: seq<Action>, i: nat)
    requires IsRun(ss, acts) && i < |ss|
    ensures AllFrom(acts[..i], ss[i])
  {
    hide Ok, Step, Enabled, AllFrom;
    if i == 0 {
      InitFrom(ss[0]);
      assert acts[..0] == [];
    } else {
      RunFrom(ss, acts, i - 1);
      RunOk(ss, acts, i - 1);
      AllFromStep(acts[..i - 1], ss[i - 1], acts[i - 1].l, acts[i - 1].m);
      assert acts[..i] == acts[..i - 1] + [acts[i - 1]];
    }
  }

  lemma InitFrom(s: State)
    requires Init(s)
    ensures AllFrom([], s)
  {
  }

  /** An identifier belongs to the call that drew it, for good. */
  lemma {:induction false} OrderOf(ss: seq<State>, acts: seq<Action>, j: nat, i: nat)
    requires IsRun(ss, acts) && j < i < |ss| && acts[j].m.Arrive?
    ensures ss[j].counter < |Orders(acts[..i])|
    ensures Orders(acts[..i])[ss[j].counter] == O.Order(acts[j].m.op, acts[j].m.cb, acts[j].m.timeout)
  {
    hide Orders, Init, Step, Enabled, LoopFrom;
    OrdersAppend(acts[..i - 1], acts[i - 1]);
    assert acts[..i] == acts[..i - 1] + [acts[i - 1]];
    if i == j + 1 {
      RunFrom(ss, acts, j);
    } else {
      OrderOf(ss, acts, j, i - 1);
    }
  }

  /**
   In every run, whatever the interleaving: the call of Queue in step `j` draws the identifier after the last one, and
   from then on every callback that is stored, queued or run under this identifier is the one given in that call, and
   every request accepted under it carries that call's operation and timeout, in every loop.
   */
  lemma WhatWasOrdered(ss: seq<State>, acts: seq<Action>, j: nat, i: nat, l: nat)
    requires IsRun(ss, acts) && j < i < |ss| && acts[j].m.Arrive? && l < |ss[i].loops|
    ensures
      var d, m, id := ss[i].loops[l], acts[j].m, ss[j].counter + 1;
      && (id in d.callbacks ==> d.callbacks[id] == m.cb)
      && (forall e :: e in d.log && e.key == id ==> e.cb == m.cb)
      && (forall a :: a in d.accepted && a.req.userData == id ==> a.req == N.Request(m.op, 0, id, m.timeout))
  {
    hide Orders, Init, Step, Enabled, AskedFor;
    RunFrom(ss, acts, i);
    OrderOf(ss, acts, j, i);
    CounterIsDrawn(ss, acts, i);
    assert LoopFrom(acts[..i], l, |ss[i].loops|, ss[i].loops[l]);
  }

  // ----- the entries the kernel gets -----

  /** An entry in loop `l` is, field by field, that of a call of Queue, of a call of Cancel, or of a deadline. */
  ghost predicate EntryFrom(acts: seq<Action>, l: nat, n: nat, e: SQEntry)
    requires n > 0
  {
    if e.userData == TIMEOUT_NONCE then exists duration :: duration != 0 && S.IsLinkTimeout(e, duration)
    else if e.userData == CANCEL_NONCE then
      && 0 <= e.addr < 0x1_0000_0000_0000_0000 && AskedFor(acts, l, e.addr)
      && e.opCode == 14 && e.fd == -1 && e.len == 0 && e.off == 0 && e.opcodeFlags == 0 && e.flags == 0
    else
      var os := Orders(acts);
      DrawnFor(os, l, n, e.userData) &&
      Holds(e, os[e.userData - 1].op, if os[e.userData - 1].timeout == 0 then 0 else 4, e.userData)
  }

  lemma FieldsFrom(acts: seq<Action>, l: nat, n: nat, a: N.Accept, e: SQEntry)
    requires n > 0 && RequestFrom(acts, l, n, a.req) && S.PlainAccept(a) && e in S.Encode(a)
    ensures EntryFrom(acts, l, n, e)
  {
    hide Orders, AskedFor, N.FirstEntry, N.TimeoutEntry;
    S.EntriesOf(a.req);
  }

  /** The holder's own entry, while its request is unfinished, is that of half a request. */
  lemma PartialFields(acts: seq<Action>, l: nat, n: nat, d: Loop, x: Slot)
    requires n > 0 && LoopFrom(acts, l, n, d) && LockOk(d) && SlotsOk(d) && x in Partial(d) && x.filled
    ensures EntryFrom(acts, l, n, x.entry)
  {
    hide Orders, AskedFor, EntryFrom, N.FirstEntry, RequestFrom, CallbackFrom;
    FieldsFrom(acts, l, n, N.Half(d.holder.call.req), x.entry);
  }

  /** Every slot ever queued that its owner has filled holds one of these. */
  lemma EntriesWereOrdered(ss: seq<State>, acts: seq<Action>, i: nat, l: nat, x: Slot)
    requires IsRun(ss, acts) && i < |ss| && l < |ss[i].loops| && x in ss[i].loops[l].sq.History() && x.filled
    ensures EntryFrom(acts[..i], l, |ss[i].loops|, x.entry)
  {
    hide Orders, Init, Step, Enabled, S.EncodeAll, QueuesOk, LockOk, SlotsOk, CallsOk, Corresponds, NothingLost, LogOk,
      EntryFrom, RequestFrom, S.PlainAccept, S.Encode, SubQueue.History, Partial;
    RunOk(ss, acts, i);
    RunFrom(ss, acts, i);
    var d, n := ss[i].loops[l], |ss[i].loops|;
    assert LoopInv(d, ss[i].counter) && LoopFrom(acts[..i], l, n, d);
    var es := S.EncodeAll(d.accepted);
    if x in Filled(es) {
      var a := S.EncodedOf(d.accepted, x.entry);
      FieldsFrom(acts[..i], l, n, a, x.entry);
    } else {
      PartialFields(acts[..i], l, n, d, x);
    }
  }

  // ----- every identifier at home -----

  lemma NotComing(acts: seq<Action>, l: nat, n: nat, d: Loop, id: uint64)
    requires n > 0 && LoopFrom(acts, l, n, d) && !Reserved(id) && LoopFor(id, n) != l
    ensures Coming(d, id) == 0 && Due(d, id) == 0
  {
    hide Orders, AskedFor, Count, LoopFor;
    forall x | x in d.waiting
      ensures CallId(x) != id
    {
      assert CallFrom(acts, l, n, x);
    }
    CountAbsent(d.waiting, CallId, id);
  }

  /** In every run, a request is on its way or under way in no loop but the one for its identifier. */
  lemma UnderWayAtHome(ss: seq<State>, acts: seq<Action>, i: nat, l: nat, id: uint64)
    requires IsRun(ss, acts) && i < |ss| && l < |ss[i].loops| && !Reserved(id) && id % |ss[i].loops| != l
    ensures Coming(ss[i].loops[l], id) + Live(ss[i].loops[l], id) == 0
  {
    hide Orders, Init, Step, Enabled, LoopFrom, Coming, Live, Due, LoopOk, NothingLost, LogOk, Sent, AcceptsOk;
    RunOk(ss, acts, i);
    RunFrom(ss, acts, i);
    var d := ss[i].loops[l];
    assert LoopInv(d, ss[i].counter) && Live(d, id) == Due(d, id);
    NotComing(acts[..i], l, |ss[i].loops|, d, id);
  }

  /** A Cancel of a request whose callback is in a map goes to the loop of that map: it is under way there alone. */
  lemma CancelReachesRequest(ss: seq<State>, acts: seq<Action>, i: nat, k: nat, id: uint64)
    requires IsRun(ss, acts) && i < |acts| && acts[i].m == AskCancel(id) && !Reserved(id)
    requires k < |ss[i].loops| && id in ss[i].loops[k].callbacks
    ensures k == acts[i].l && Live(ss[i].loops[k], id) == 1
    ensures forall l: nat :: l < |ss[i].loops| && l != k ==> Coming(ss[i].loops[l], id) + Live(ss[i].loops[l], id) == 0
  {
    hide Orders, Init, Step, Possible, Skeleton, C.Enabled, C.Inv, InStep, LoopInv, Coming, Live;
    RunOk(ss, acts, i);
    StoredIsLive(ss[i].loops[k], ss[i].counter, id);
    forall l: nat | l < |ss[i].loops| && l != acts[i].l
      ensures Coming(ss[i].loops[l], id) + Live(ss[i].loops[l], id) == 0
    {
      UnderWayAtHome(ss, acts, i, l, id);
    }
  }

  lemma {:induction false} SameLoops(ss: seq<State>, acts: seq<Action>, i: nat)
    requires IsRun(ss, acts) && i < |ss|
    ensures |ss[i].loops| == |ss[0].loops|
  {
    hide Init, Possible, StepLoop, Skeleton, C.Step, C.Enabled;
    if i > 0 {
      SameLoops(ss, acts, i - 1);
    }
  }

  /**
   In every run, a cancel that loop `l` has queued names a request for which Cancel was called on this loop, and that
   request is under way in no other loop, then or later; and as long as its callback is in a map, that is the map of
   this loop, and its entry is under way here, once.
   */
  lemma CancelGoesHome(ss: seq<State>, acts: seq<Action>, i: nat, l: nat, x: Slot)
    requires IsRun(ss, acts) && i < |ss| && l < |ss[i].loops|
    requires x in ss[i].loops[l].sq.History() && x.filled && x.entry.userData == CANCEL_NONCE
    ensures x.entry.opCode == 14 && 0 <= x.entry.addr < 0x1_0000_0000_0000_0000 && AskedFor(acts[..i], l, x.entry.addr)
    ensures
      var id := x.entry.addr;
      !Reserved(id) ==> forall k: nat :: k < |ss[i].loops| ==>
        var d := ss[i].loops[k];
        && (k != l ==> Coming(d, id) + Live(d, id) == 0 && id !in d.callbacks)
        && (k == l && id in d.callbacks ==> Live(d, id) == 1)
  {
    hide Orders, Init, Step, S.IsLinkTimeout, Holds, AskedFor, Possible, Skeleton, C.Enabled, C.Inv, InStep,
      LoopInv, SubQueue.History, Coming, Live;
    EntriesWereOrdered(ss, acts, i, l, x);
    var id: uint64 := x.entry.addr;
    var j := AskedWhen(acts[..i], l, id);
    SameLoops(ss, acts, i);
    SameLoops(ss, acts, j);
    assert LoopFor(id, |ss[i].loops|) == l;
    RunOk(ss, acts, i);
    if !Reserved(id) {
      forall k: nat | k < |ss[i].loops|
        ensures var d := ss[i].loops[k];
          && (k != l ==> Coming(d, id) + Live(d, id) == 0 && id !in d.callbacks)
          && (k == l && id in d.callbacks ==> Live(d, id) == 1)
      {
        StoredIsLive(ss[i].loops[k], ss[i].counter, id);
        if k != l {
          UnderWayAtHome(ss, acts, i, k, id);
        }
      }
    }
  }

  lemma StoredIsLive(d: Loop, counter: nat, id: uint64)
    requires LoopInv(d, counter) && !Reserved(id)
    ensures id in d.callbacks ==> Live(d, id) == 1
  {
    hide Coming, Live, LoopOk, NothingLost, LogOk, Sent, AcceptsOk, Halfway;
    assert Live(d, id) == Due(d, id) && Coming(d, id) + Live(d, id) <= 1;
  }

  lemma AskedWhen(acts: seq<Action>, l: nat, id: uint64) returns (j: nat)
    requires AskedFor(acts, l, id)
    ensures j < |acts| && acts[j] == Action(l, AskCancel(id))
  {
    j :| j < |acts| && acts[j] == Action(l, AskCancel(id));
  }

  // ----- events -----

  /** In step `j` the kernel posts this event in loop `l`, for an entry that it had consumed there. */
  ghost predicate PostsAt(ss: seq<State>, acts: seq<Action>, j: nat, l: nat, e: CQEvent) {
    && j < |acts| && j < |ss| && acts[j].l == l && l < |ss[j].loops| && acts[j].m.Complete?
    && acts[j].m.i < |ss[j].loops[l].inflight|
    && e == CQEvent(ss[j].loops[l].inflight[acts[j].m.i], acts[j].m.res, acts[j].m.flags)
  }

  ghost predicate PostedBy(ss: seq<State>, acts: seq<Action>, i: nat, l: nat, e: CQEvent) {
    exists j :: 0 <= j < i && PostsAt(ss, acts, j, l, e)
  }

  /** What a loop's completion queue has ever held, and what its callbacks have been run with. */
  ghost predicate Got(d: Loop, e: CQEvent) {
    e in O.Received(d.cq) || exists x :: x in d.log && x.Ran? && x.event == e
  }

  lemma GotStep(d: Loop, m: Move, nonce: nat, e: CQEvent)
    requires Possible(d, m) && nonce < CANCEL_NONCE && Got(StepLoop(d, m, nonce), e)
    ensures Got(d, e) || (m.Complete? && e == CQEvent(d.inflight[m.i], m.res, m.flags))
  {
    hide FilledFirst, FilledSecond;
    var d' := StepLoop(d, m, nonce);
    if e !in O.Received(d'.cq) {
      var x :| x in d'.log && x.Ran? && x.event == e;
      assert x in d.log || m.Dispatch?;
    }
  }

  /**
   Every event that a loop has or has had, and every event with which it has run a callback, was posted in this loop
   by the kernel, with its result and flags.
   */
  lemma {:induction false} EventsWerePosted(ss: seq<State>, acts: seq<Action>, i: nat, l: nat, e: CQEvent)
    requires IsRun(ss, acts) && i < |ss| && l < |ss[i].loops| && Got(ss[i].loops[l], e)
    ensures PostedBy(ss, acts, i, l, e)
  {
    hide Got, Init, StepLoop, C.Step, C.Enabled, Skeleton;
    if i == 0 {
      NothingGot(ss[0], l, e);
      assert false;
    } else {
      var s, a := ss[i - 1], acts[i - 1];
      if a.l == l && !Got(s.loops[l], e) {
        GotStep(s.loops[l], a.m, if a.m.Arrive? then s.counter + 1 else 0, e);
        assert PostsAt(ss, acts, i - 1, l, e);
      } else {
        EventsWerePosted(ss, acts, i - 1, l, e);
        var j :| 0 <= j < i - 1 && PostsAt(ss, acts, j, l, e);
      }
    }
  }

  lemma NothingGot(s: State, l: nat, e: CQEvent)
    requires Init(s) && l < |s.loops|
    ensures !Got(s.loops[l], e)
  {
  }

  /** In every run, a callback runs with an event of its own identifier. */
  lemma {:induction false} RanOnItsEvent(ss: seq<State>, acts: seq<Action>, i: nat, l: nat, x: Event<uint64>)
    requires IsRun(ss, acts) && i < |ss| && l < |ss[i].loops| && x in ss[i].loops[l].log && x.Ran?
    ensures x.event.userData == x.key && PostedBy(ss, acts, i, l, x.event)
  {
    hide Init, StepLoop, C.Step, C.Enabled, Skeleton, PostedBy;
    EventsWerePosted(ss, acts, i, l, x.event);
    if i == 0 {
      NothingGot(ss[0], l, x.event);
    } else {
      var s, a := ss[i - 1], acts[i - 1];
      if x in s.loops[l].log {
        RanOnItsEvent(ss, acts, i - 1, l, x);
      } else {
        RanNow(s.loops[l], a.m, if a.m.Arrive? then s.counter + 1 else 0, x);
      }
    }
  }

  lemma RanNow(d: Loop, m: Move, nonce: nat, x: Event<uint64>)
    requires Possible(d, m) && nonce < CANCEL_NONCE && x in StepLoop(d, m, nonce).log && x !in d.log && x.Ran?
    ensures x.event.userData == x.key
  {
    hide FilledFirst, FilledSecond;
  }

  // ----- submits -----

  /** Since the publisher of loop `l` last looked at the flag, some caller has set it. */
  function Wanted(acts: seq<Action>, l: nat): bool {
    if acts == [] then false
    else
      var a := acts[|acts| - 1];
      if a == Action(l, SetFlag) then true
      else if a == Action(l, Swap) then false
      else Wanted(acts[..|acts| - 1], l)
  }

  lemma {:induction false} FlagIsWanted(ss: seq<State>, acts: seq<Action>, i: nat, l: nat)
    requires IsRun(ss, acts) && i < |ss| && l < |ss[i].loops|
    ensures ss[i].loops[l].needSubmit == Wanted(acts[..i], l)
  {
    hide StepLoop, C.Step, C.Enabled, Skeleton;
    if i > 0 {
      var s, a := ss[i - 1], acts[i - 1];
      FlagIsWanted(ss, acts, i - 1, l);
      assert acts[..i][..i - 1] == acts[..i - 1];
      FlagAfter(s.loops[a.l], a.m, if a.m.Arrive? then s.counter + 1 else 0);
    }
  }

  lemma FlagAfter(d: Loop, m: Move, nonce: nat)
    requires Possible(d, m) && nonce < CANCEL_NONCE
    ensures StepLoop(d, m, nonce).needSubmit ==
            if m.SetFlag? then true else if m.Swap? then false else d.needSubmit
  {
    hide FilledFirst, FilledSecond;
  }

  /** A signalled publisher submits exactly if some caller has queued since it was last signalled. */
  lemma SubmitsOnDemand(ss: seq<State>, acts: seq<Action>, i: nat, l: nat)
    requires IsRun(ss, acts) && i < |acts| && acts[i] == Action(l, Swap)
    ensures l < |ss[i + 1].loops|
    ensures ss[i + 1].loops[l].job == (if Wanted(acts[..i], l) then Swapped else NoJob)
  {
    hide Init, C.Step, C.Enabled, Skeleton, Wanted, FilledFirst, FilledSecond, StepCaller;
    FlagIsWanted(ss, acts, i, l);
  }
}
