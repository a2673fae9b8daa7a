/** Whole runs of the generic reactor. */
module GenericRuns {
  import opened Words
  import opened Entries
  import opened RequestIds
  import opened RegistrySpec
  import opened SubmissionSpec
  import opened Tallies
  import opened CallbackLog
  import opened GenericReactor
  import opened GenericDispatch
  import N = NetReactor
  import C = Control
  import S = NetSubmission
  import Q = Nonces

  // ----- the submit flag -----

  /** The publisher has swapped the flag and not yet published. */
  predicate AboutToFlush(d: Loop) {
    d.job.Swapped? || d.job.Locked?
  }

  /** Entries queued, or about to be queued, are never left without somebody who will publish them. */
  predicate NothingLost(d: Loop) {
    d.sq.unpublished != [] || (d.holder.Caller? && d.holder.at != Flagging) ==> d.needSubmit || AboutToFlush(d)
  }

  lemma NothingLostStep(d: Loop, m: Move, nonce: nat)
    requires Possible(d, m) && LockOk(d) && NothingLost(d) && nonce < CANCEL_NONCE && (Starts(m) ==> d.job.NoJob?)
    ensures NothingLost(StepLoop(d, m, nonce))
  {
    hide FilledFirst, FilledSecond, CallOk;
  }

  // ----- the log -----

  ghost predicate LogOk(d: Loop) {
    && Disciplined(d.log) && Ledger(d.log) == d.callbacks - {TIMEOUT_NONCE, CANCEL_NONCE}
    && forall e :: e in d.log ==> !e.Dropped?
  }

  /** A completion that is not the library's own finds its callback in the map. */
  lemma DispatchFinds(d: Loop, counter: nat)
    requires Possible(d, Dispatch) && LoopOk(d) && Corresponds(d, counter) && !Reserved(d.cq.ready[d.batch.i].userData)
    ensures var id := d.cq.ready[d.batch.i].userData; id in d.callbacks && d.callbacks[id] != Nil
  {
    var id := d.cq.ready[d.batch.i].userData;
    DispatchedIsLive(d);
    NotPrivate(d, counter, id);
  }

  /** An identifier whose entry is past the caller's private part has its callback in the map. */
  lemma NotPrivate(d: Loop, counter: nat, id: uint64)
    requires Corresponds(d, counter) && !Reserved(id)
    requires Count(d.sq.published, SlotId, id) + Count(d.inflight, Self, id) + Completed(d, id) >= 1
    ensures id in d.callbacks
  {
    hide Count;
    assert Live(d, id) == Due(d, id) && Coming(d, id) + Live(d, id) <= 1;
  }

  lemma StoreIsNew(d: Loop, counter: nat)
    requires HolderAt(d, Storing) && Corresponds(d, counter) && !Reserved(d.holder.call.req.userData)
    ensures d.holder.call.req.userData !in d.callbacks
  {
    hide Count;
    var id := d.holder.call.req.userData;
    assert Live(d, id) == Due(d, id) && Coming(d, id) + Live(d, id) <= 1;
  }

  lemma LogStep(d: Loop, m: Move, nonce: nat, counter: nat)
    requires Possible(d, m) && LoopOk(d) && Corresponds(d, counter) && LogOk(d) && nonce < CANCEL_NONCE
    ensures LogOk(StepLoop(d, m, nonce))
  {
    hide FilledFirst, FilledSecond, LoopOk, Corresponds, Ledger, Disciplined;
    if m.Store? && !Reserved(d.holder.call.req.userData) {
      LogStore(d, nonce, counter);
    } else if m.Dispatch? && !Reserved(d.cq.ready[d.batch.i].userData) {
      LogDispatch(d, nonce, counter);
    } else {
      var d' := StepLoop(d, m, nonce);
      assert d'.callbacks - {TIMEOUT_NONCE, CANCEL_NONCE} == d.callbacks - {TIMEOUT_NONCE, CANCEL_NONCE};
    }
  }

  lemma LogStore(d: Loop, nonce: nat, counter: nat)
    requires Possible(d, Store) && LoopOk(d) && Corresponds(d, counter) && LogOk(d) && nonce < CANCEL_NONCE
    requires !Reserved(d.holder.call.req.userData)
    ensures LogOk(StepLoop(d, Store, nonce))
  {
    hide FilledFirst, FilledSecond, QueuesOk, SlotsOk, Corresponds, Ledger, Disciplined;
    var d' := StepLoop(d, Store, nonce);
    StoreIsNew(d, counter);
    LogAppend(d.log, Queued(d.holder.call.req.userData, d.holder.call.cb));
    assert Ledger(d'.log) == d'.callbacks - {TIMEOUT_NONCE, CANCEL_NONCE};
  }

  lemma LogDispatch(d: Loop, nonce: nat, counter: nat)
    requires Possible(d, Dispatch) && LoopOk(d) && Corresponds(d, counter) && LogOk(d) && nonce < CANCEL_NONCE
    requires !Reserved(d.cq.ready[d.batch.i].userData)
    ensures LogOk(StepLoop(d, Dispatch, nonce))
  {
    hide LoopOk, Corresponds, Ledger, Disciplined;
    var id, d' := d.cq.ready[d.batch.i].userData, StepLoop(d, Dispatch, nonce);
    DispatchFinds(d, counter);
    LogAppend(d.log, Ran(id, d.callbacks[id], d.cq.ready[d.batch.i]));
    assert Ledger(d'.log) == d'.callbacks - {TIMEOUT_NONCE, CANCEL_NONCE};
  }

  // ----- what is queued -----

  function Filled(es: seq<SQEntry>): (ss: seq<Slot>)
    ensures |ss| == |es| && forall i :: 0 <= i < |es| ==> ss[i] == Slot(es[i], true)
  {
    seq(|es|, i requires 0 <= i < |es| => Slot(es[i], true))
  }

  /** The slots of the lock holder's request, as far as it has come. */
  function Partial(d: Loop): seq<Slot> {
    if !d.holder.Caller? || d.sq.unpublished == [] then []
    else
      var last := d.sq.unpublished[|d.sq.unpublished| - 1];
      match d.holder.at
      case FillingFirst => [last]
      case Second => [FilledFirst(d.holder.call)]
      case FillingSecond => [FilledFirst(d.holder.call), last]
      case _ => []
  }

  /** Everything ever queued is the accepted requests, encoded one after the other, and the holder's unfinished one. */
  ghost predicate Sent(d: Loop) {
    && d.sq.History() == Filled(S.EncodeAll(d.accepted)) + Partial(d)
    && (HolderAt(d, Second) ==>
          d.sq.unpublished != [] && d.sq.unpublished[|d.sq.unpublished| - 1] == FilledFirst(d.holder.call))
  }

  lemma FilledAppend(as_: seq<N.Accept>, a: N.Accept)
    ensures Filled(S.EncodeAll(as_ + [a])) == Filled(S.EncodeAll(as_)) + Filled(S.Encode(a))
  {
    S.EncodeAppend(as_, a);
  }

  lemma LastOfHistory(q: SubQueue<Slot>, e: Slot)
    requires q.unpublished != []
    ensures q.SetLast(e).History() == q.History()[..|q.History()| - 1] + [e]
  {
  }

  lemma SentStep(d: Loop, m: Move, nonce: nat)
    requires Possible(d, m) && LoopOk(d) && Sent(d) && nonce < CANCEL_NONCE
    ensures Sent(StepLoop(d, m, nonce))
  {
    hide Sent, LoopOk, StepLoop, Possible;
    LockIsOk(d);
    if m.Reserve? {
      SentReserve(d, m.old_, nonce);
    } else if m.Fill? {
      SentFill(d, nonce);
    } else if m.SetFlag? || m.Store? || m.Release? {
      SentCaller(d, m, nonce);
    } else {
      SentElse(d, m, nonce);
    }
  }

  lemma SentCaller(d: Loop, m: Move, nonce: nat)
    requires Possible(d, m) && Sent(d) && nonce < CANCEL_NONCE && (m.SetFlag? || m.Store? || m.Release?)
    ensures Sent(StepLoop(d, m, nonce))
  {
    hide FilledFirst, FilledSecond, S.EncodeAll, SubQueue.History, SubQueue.Enqueue, SubQueue.SetLast, Filled, Reserved;
  }

  lemma SentElse(d: Loop, m: Move, nonce: nat)
    requires Possible(d, m) && LockOk(d) && Sent(d) && nonce < CANCEL_NONCE
    requires !m.Reserve? && !m.Fill? && !m.SetFlag? && !m.Store? && !m.Release?
    ensures Sent(StepLoop(d, m, nonce))
  {
    hide FilledFirst, FilledSecond, S.EncodeAll, SubQueue.History, CallOk, Filled, Reserved, StepCaller;
    HistoryKept(d.sq, if m.Take? then 1 else 0);
  }

  lemma SentReserve(d: Loop, e: SQEntry, nonce: nat)
    requires Possible(d, Reserve(e)) && LoopOk(d) && Sent(d) && nonce < CANCEL_NONCE
    ensures Sent(StepLoop(d, Reserve(e), nonce))
  {
    hide FilledFirst, FilledSecond, S.EncodeAll, S.Encode, SubQueue.History, CallOk, SlotsOk, SubQueue.Valid;
    HistoryGrows(d.sq, Slot(e, false));
    FilledAppend(d.accepted, N.Half(d.holder.call.req));
    EncodedHalf(d.holder.call);
    assert [FilledFirst(d.holder.call)] + [Slot(e, false)] == [FilledFirst(d.holder.call), Slot(e, false)];
  }

  lemma EncodedHalf(call: Call)
    ensures Filled(S.Encode(N.Half(call.req))) == [FilledFirst(call)]
    ensures Filled(S.Encode(N.Whole(call.req))) ==
            if call.req.timeout == 0 then [FilledFirst(call)] else [FilledFirst(call), FilledSecond(call)]
  {
  }

  lemma SentFill(d: Loop, nonce: nat)
    requires Possible(d, Fill) && LoopOk(d) && Sent(d) && nonce < CANCEL_NONCE
    ensures Sent(StepLoop(d, Fill, nonce))
  {
    hide FilledFirst, FilledSecond, S.EncodeAll, S.Encode, SubQueue.History, SubQueue.Enqueue, SlotsOk, QueuesOk,
      CallsOk;
    var call := d.holder.call;
    LastOfHistory(d.sq, FilledFirst(call));
    LastOfHistory(d.sq, FilledSecond(call));
    FilledAppend(d.accepted, N.Whole(call.req));
    EncodedHalf(call);
  }

  /** Accepted requests carry no flags of their own, and only deadline requests can lose a slot. */
  ghost predicate AcceptsOk(d: Loop) {
    forall a :: a in d.accepted ==> S.PlainAccept(a)
  }

  lemma AcceptsStep(d: Loop, m: Move, nonce: nat)
    requires Possible(d, m) && LockOk(d) && AcceptsOk(d) && nonce < CANCEL_NONCE
    ensures AcceptsOk(StepLoop(d, m, nonce))
  {
    hide FilledFirst, FilledSecond;
  }

  // ----- runs -----

  ghost predicate LoopInv(d: Loop, counter: nat) {
    LoopOk(d) && Corresponds(d, counter) && NothingLost(d) && LogOk(d) && Sent(d) && AcceptsOk(d)
  }

  lemma LoopInvStep(d: Loop, m: Move, nonce: nat, counter: nat)
    requires Possible(d, m) && LoopInv(d, counter) && (Starts(m) ==> d.job.NoJob?)
    requires nonce < CANCEL_NONCE && (m.Arrive? ==> nonce == counter + 1)
    ensures LoopInv(StepLoop(d, m, nonce), if m.Arrive? then nonce else counter)
  {
    hide LoopOk, Corresponds, NothingLost, LogOk, Sent, AcceptsOk, StepLoop, Possible;
    LockIsOk(d);
    AcceptsStep(d, m, nonce);
    StepLoopOk(d, m, nonce);
    CorrespondsStep(d, m, nonce, counter);
    NothingLostStep(d, m, nonce);
    LogStep(d, m, nonce, counter);
    SentStep(d, m, nonce);
  }

  lemma CounterGrows(d: Loop, counter: nat)
    requires LoopInv(d, counter)
    ensures LoopInv(d, counter + 1)
  {
    hide LoopOk, NothingLost, LogOk, Sent, Live, Coming, Due, Count, Halfway;
  }

  ghost predicate Ok(s: State) {
    && Shape(s) && C.Inv(s.ctl) && !s.ctl.net
    && (forall l :: 0 <= l < |s.loops| ==> LoopInv(s.loops[l], s.counter))
    && (forall l :: 0 <= l < |s.loops| ==> InStep(s.loops[l], s.ctl.loops[l]))
  }

  lemma InitOk(s: State)
    requires Init(s)
    ensures Ok(s)
  {
    C.InitInv(s.ctl);
    forall l | 0 <= l < |s.loops|
      ensures LoopInv(s.loops[l], s.counter)
    {
      assert S.EncodeAll([]) == [];
    }
  }

  lemma JobFree(s: State, l: nat, m: Move)
    requires Ok(s) && Enabled(s, l, m)
    ensures Starts(m) ==> s.loops[l].job.NoJob?
  {
    hide LoopInv;
    assert C.LoopInv(false, s.ctl.loops[l], C.Progress(s.ctl.runner, l));
    assert InStep(s.loops[l], s.ctl.loops[l]);
  }

  lemma SkeletonSteps(s: State, l: nat, m: Move)
    requires Ok(s) && Enabled(s, l, m)
    ensures var c := Step(s, l, m).ctl;
            && C.Inv(c) && !c.net && |c.loops| == |s.loops|
            && forall k :: 0 <= k < |s.loops| && k != l ==> c.loops[k] == s.ctl.loops[k]
  {
    hide LoopInv, InStep, StepLoop, C.LoopInv;
    var c := Skeleton(s.loops[l], m);
    if c.Some? {
      C.StepInv(s.ctl, l, c.value);
    }
  }

  lemma StepInStep(s: State, l: nat, m: Move)
    requires Ok(s) && Enabled(s, l, m)
    ensures InStep(Step(s, l, m).loops[l], Step(s, l, m).ctl.loops[l])
  {
    hide LoopInv, FilledFirst, FilledSecond;
    assert C.LoopInv(false, s.ctl.loops[l], C.Progress(s.ctl.runner, l));
    assert InStep(s.loops[l], s.ctl.loops[l]);
  }

  lemma StepOk(s: State, l: nat, m: Move)
    requires Ok(s) && Enabled(s, l, m)
    ensures Ok(Step(s, l, m))
  {
    hide LoopInv, InStep, StepLoop, C.Enabled, C.Step, C.Inv;
    var s' := Step(s, l, m);
    JobFree(s, l, m);
    SkeletonSteps(s, l, m);
    StepInStep(s, l, m);
    LoopInvStep(s.loops[l], m, if m.Arrive? then s'.counter else 0, s.counter);
    forall k | 0 <= k < |s.loops|
      ensures LoopInv(s'.loops[k], s'.counter)
    {
      if k != l && m.Arrive? {
        CounterGrows(s.loops[k], s.counter);
      }
    }
  }

  lemma {:induction false} RunOk(ss: seq<State>, acts: seq<Action>, i: nat)
    requires IsRun(ss, acts) && i < |ss|
    ensures Ok(ss[i])
  {
    hide Ok, Step, Enabled, Init;
    if i == 0 {
      InitOk(ss[0]);
    } else {
      RunOk(ss, acts, i - 1);
      StepOk(ss[i - 1], acts[i - 1].l, acts[i - 1].m);
    }
  }

  /** The slot holds, completely, an entry of a request that is accepted or being queued. */
  ghost predicate HoldsRequest(d: Loop, x: Slot) {
    || (exists a :: a in d.accepted && S.EntryOf(x.entry, a.req))
    || (d.holder.Caller? && x.entry == N.FirstEntry(d.holder.call.req))
  }

  /** Its owner has filled it, and its callback, unless the entry is the library's own, is in the map. */
  ghost predicate Presentable(d: Loop, x: Slot) {
    && x.filled && HoldsRequest(d, x)
    && (Reserved(x.entry.userData) || (x.entry.userData in d.callbacks && d.callbacks[x.entry.userData] != Nil))
  }

  /** A filled slot among all those ever queued holds an entry of a request. */
  lemma FilledHolds(d: Loop, x: Slot)
    requires Sent(d) && SlotsOk(d) && x in d.sq.History() && x.filled
    ensures HoldsRequest(d, x)
  {
    hide N.FirstEntry, N.TimeoutEntry, S.EncodeAll, S.EntryOf;
    var es := S.EncodeAll(d.accepted);
    if x in Filled(es) {
      assert x.entry in es;
      var a := S.EncodedOf(d.accepted, x.entry);
    } else {
      assert x in Partial(d);
    }
  }

  /**
   Whatever the number of callers and the interleaving, the kernel only ever sees entries that hold a request's
   operation or timeout completely and whose callback is already in the map.
   */
  lemma VisibleWhenReady(ss: seq<State>, acts: seq<Action>, i: nat, l: nat, x: Slot)
    requires IsRun(ss, acts) && i < |ss| && l < |ss[i].loops| && x in ss[i].loops[l].sq.published
    ensures Presentable(ss[i].loops[l], x)
  {
    hide Init, Step, Enabled, NothingLost, LogOk, Sent, Count, HoldsRequest;
    RunOk(ss, acts, i);
    var d := ss[i].loops[l];
    assert LoopInv(d, ss[i].counter);
    FilledHolds(d, x);
    if !Reserved(x.entry.userData) {
      var j :| 0 <= j < |d.sq.published| && d.sq.published[j] == x;
      CountIn(d.sq.published, j, SlotId);
      NotPrivate(d, ss[i].counter, x.entry.userData);
    }
  }

  /**
   No submission is lost: at all times, if some entry is queued and not published, then needSubmit is 1 or the
   publisher has swapped it and not yet published, although it swaps outside the lock.
   */
  lemma NoLostSubmission(ss: seq<State>, acts: seq<Action>, i: nat, l: nat)
    requires IsRun(ss, acts) && i < |ss| && l < |ss[i].loops| && ss[i].loops[l].sq.unpublished != []
    ensures ss[i].loops[l].needSubmit || AboutToFlush(ss[i].loops[l])
  {
    hide Init, Step, Enabled, LoopOk, Corresponds, LogOk, Sent;
    RunOk(ss, acts, i);
    assert LoopInv(ss[i].loops[l], ss[i].counter);
  }

  /**
   Exactly-once dispatch, in every run: every completion of a request finds its callback, and each callback has been
   run under its identifier as often as it was queued under it, but for the one that is still in the map.
   */
  lemma ExactlyOnce(ss: seq<State>, acts: seq<Action>, i: nat, l: nat)
    requires IsRun(ss, acts) && i < |ss| && l < |ss[i].loops|
    ensures var d := ss[i].loops[l];
            Disciplined(d.log) && Ledger(d.log) == d.callbacks - {TIMEOUT_NONCE, CANCEL_NONCE}
    ensures
      var d := ss[i].loops[l];
      forall id: uint64, cb: Callback :: !Reserved(id) ==>
        Times(d.log, Queued(id, cb)) ==
        Runs(d.log, id, cb) + (if id in d.callbacks && d.callbacks[id] == cb then 1 else 0)
    ensures var d := ss[i].loops[l];
            Possible(d, Dispatch) && !Reserved(d.cq.ready[d.batch.i].userData) ==>
              var id := d.cq.ready[d.batch.i].userData;
              id in d.callbacks && d.callbacks[id] != Nil
  {
    hide Init, Step, Enabled, LoopOk, Corresponds, NothingLost, Sent, Disciplined, Ledger, Times, Runs, DisciplinedOn;
    RunOk(ss, acts, i);
    var d := ss[i].loops[l];
    assert LoopInv(d, ss[i].counter);
    forall id: uint64, cb: Callback | !Reserved(id)
      ensures Times(d.log, Queued(id, cb)) ==
              Runs(d.log, id, cb) + (if id in d.callbacks && d.callbacks[id] == cb then 1 else 0)
    {
      DisciplinedOnEach(d.log, id);
      OncePerQueueing(d.log, id, cb);
      NeverLogged(d.log, Dropped(id, cb));
      assert id in Ledger(d.log) <==> id in d.callbacks;
    }
    if Possible(d, Dispatch) && !Reserved(d.cq.ready[d.batch.i].userData) {
      DispatchFinds(d, ss[i].counter);
    }
  }

  /**
   Whatever the interleaving, the k-th accepted request lies unbroken in what the kernel consumes: a deadline
   request that got both its slots is its link-flagged entry followed at once by its own timeout.
   */
  lemma RequestsStayTogether(ss: seq<State>, acts: seq<Action>, i: nat, l: nat, k: nat)
    requires IsRun(ss, acts) && i < |ss| && l < |ss[i].loops| && k < |ss[i].loops[l].accepted|
    ensures
      var d := ss[i].loops[l];
      var p, e := |S.EncodeAll(d.accepted[..k])|, Filled(S.Encode(d.accepted[k]));
      p + |e| <= |d.sq.History()| && d.sq.History()[p..p + |e|] == e && d.sq.consumed <= d.sq.History()
    ensures
      var d := ss[i].loops[l];
      var p, a, h := |S.EncodeAll(d.accepted[..k])|, d.accepted[k], d.sq.History();
      && p < |h| && Holds(h[p].entry, a.req.op, if a.req.timeout == 0 then 0 else 4, a.req.userData)
      && (a.Whole? && a.req.timeout != 0 ==> p + 1 < |h| && S.IsLinkTimeout(h[p + 1].entry, a.req.timeout))
  {
    hide Init, Step, Enabled, LoopOk, Corresponds, NothingLost, LogOk, S.EncodeAll, S.Encode, Partial;
    RunOk(ss, acts, i);
    var d := ss[i].loops[l];
    assert LoopInv(d, ss[i].counter);
    S.EncodedAt(d.accepted, k);
    var p, e := |S.EncodeAll(d.accepted[..k])|, S.Encode(d.accepted[k]);
    var all := S.EncodeAll(d.accepted);
    assert Filled(all) <= d.sq.History();
    assert d.sq.History()[p..p + |e|] == Filled(all)[p..p + |e|];
    assert Filled(all)[p..p + |e|] == Filled(all[p..p + |e|]);
    assert d.accepted[k] in d.accepted && S.PlainAccept(d.accepted[k]);
    S.EncodedFields(d.accepted[k]);
    assert forall j :: 0 <= j < |e| ==> d.sq.History()[p + j] == Filled(e)[j];
  }

  lemma ClosedIffWhole(ss: seq<State>, acts: seq<Action>, i: nat, l: nat)
    requires IsRun(ss, acts) && i < |ss| && l < |ss[i].loops| && Partial(ss[i].loops[l]) == []
    ensures
      var d := ss[i].loops[l]; var es := S.EncodeAll(d.accepted);
      && d.sq.History() == Filled(es)
      && ((forall p :: 0 <= p < |es| && S.Linked(es[p]) ==> S.Paired(es, p)) <==> S.AllWhole(d.accepted))
  {
    hide Init, Step, Enabled, LoopOk, Corresponds, NothingLost, LogOk, S.EncodeAll, S.Encode, S.Linked, S.Paired,
      S.PlainAccept;
    RunOk(ss, acts, i);
    var d := ss[i].loops[l];
    assert LoopInv(d, ss[i].counter);
    var es := S.EncodeAll(d.accepted);
    assert Filled(es) + [] == Filled(es);
    if S.AllWhole(d.accepted) {
      forall p | 0 <= p < |es| && S.Linked(es[p]) ensures S.Paired(es, p) {
        S.WholePaired(d.accepted, p);
      }
    } else {
      var k :| 0 <= k < |d.accepted| && d.accepted[k].Half?;
      S.HalfUnpaired(d.accepted, k);
      assert !S.Paired(es, |S.EncodeAll(d.accepted[..k])|);
    }
  }

  /** A move that asks for the slot of a timeout. */
  predicate AsksForTimeout(d: Loop, m: Move) {
    m.Reserve? && HolderAt(d, Second)
  }

  /** A request is left with one slot exactly when it asks for the timeout's slot and the queue is full. */
  lemma WholeStep(d: Loop, m: Move, nonce: nat)
    requires Possible(d, m) && nonce < CANCEL_NONCE
    ensures S.AllWhole(StepLoop(d, m, nonce).accepted) <==>
            S.AllWhole(d.accepted) && (AsksForTimeout(d, m) ==> d.sq.Free() > 0)
  {
    hide FilledFirst, FilledSecond;
    var as_, as' := d.accepted, StepLoop(d, m, nonce).accepted;
    assert |as'| >= |as_| && as'[..|as_|] == as_;
    assert S.AllWhole(as') ==> S.AllWhole(as_) by {
      assert forall k :: 0 <= k < |as_| ==> as'[k] == as_[k];
    }
    if AsksForTimeout(d, m) && d.sq.Free() <= 0 {
      assert as'[|as_|].Half?;
    }
  }

  /** In the first `i` steps, whenever a caller of loop `l` asks for the slot of its timeout there is one. */
  ghost predicate TimeoutsFit(ss: seq<State>, acts: seq<Action>, i: nat, l: nat)
    requires IsRun(ss, acts) && i <= |acts|
  {
    forall j ::
      0 <= j < i && acts[j].l == l && AsksForTimeout(ss[j].loops[l], acts[j].m) ==> ss[j].loops[l].sq.Free() > 0
  }

  lemma {:induction false} WholeIff(ss: seq<State>, acts: seq<Action>, i: nat, l: nat)
    requires IsRun(ss, acts) && i < |ss| && l < |ss[0].loops|
    ensures l < |ss[i].loops| && (S.AllWhole(ss[i].loops[l].accepted) <==> TimeoutsFit(ss, acts, i, l))
  {
    hide S.AllWhole, StepLoop, C.Step, C.Enabled, AsksForTimeout;
    if i == 0 {
      S.NoneHalf(ss[0].loops[l].accepted);
    } else {
      WholeIff(ss, acts, i - 1, l);
      var s, m := ss[i - 1], acts[i - 1].m;
      assert TimeoutsFit(ss, acts, i, l) <==>
             TimeoutsFit(ss, acts, i - 1, l) &&
             (acts[i - 1].l == l && AsksForTimeout(s.loops[l], m) ==> s.loops[l].sq.Free() > 0);
      if acts[i - 1].l == l {
        WholeStep(s.loops[l], m, if m.Arrive? then s.counter + 1 else 0);
      }
    }
  }

  /**
   While no caller is in the middle of a request, every link in the queue is closed by a timeout if and only if
   every timeout so far found a free slot.
   */
  lemma LinksClosedIff(ss: seq<State>, acts: seq<Action>, i: nat, l: nat)
    requires IsRun(ss, acts) && i < |ss| && l < |ss[0].loops|
    ensures l < |ss[i].loops|
    ensures
      var d := ss[i].loops[l]; var es := S.EncodeAll(d.accepted);
      Partial(d) == [] ==>
        && d.sq.History() == Filled(es)
        && ((forall p :: 0 <= p < |es| && S.Linked(es[p]) ==> S.Paired(es, p)) <==> TimeoutsFit(ss, acts, i, l))
  {
    hide IsRun, S.AllWhole, S.EncodeAll, S.Linked, S.Paired, TimeoutsFit, Partial, SubQueue.History;
    WholeIff(ss, acts, i, l);
    if Partial(ss[i].loops[l]) == [] {
      ClosedIffWhole(ss, acts, i, l);
    }
  }

  // ----- identifiers -----

  function Arrivals(acts: seq<Action>): nat {
    if acts == [] then 0 else Arrivals(acts[..|acts| - 1]) + (if acts[|acts| - 1].m.Arrive? then 1 else 0)
  }

  /** In every run the reactor's counter is the identifier that its source has handed out last: one per request. */
  lemma {:induction false} CounterIsDrawn(ss: seq<State>, acts: seq<Action>, i: nat)
    requires IsRun(ss, acts) && i < |ss|
    ensures ss[i].counter < CANCEL_NONCE && ss[i].counter == Arrivals(acts[..i]) == Q.Nth(0, Arrivals(acts[..i]))
  {
    hide StepLoop, Skeleton, Possible, C.Step, C.Enabled, C.Init;
    if i > 0 {
      CounterIsDrawn(ss, acts, i - 1);
      assert acts[..i][..i - 1] == acts[..i - 1];
    }
    Q.NthFromZero(ss[i].counter);
  }

  // ----- shutdown -----

  /** A move that some participant of loop `l` can make. */
  function NextMove(s: State, l: nat): Move
    requires Shape(s) && l < |s.loops|
  {
    var d, c := s.loops[l], s.ctl.loops[l];
    match d.job
    case Signalled => Swap
    case Swapped =>
      if d.holder == Nobody then Lock
      else if d.holder.Caller? then
        match d.holder.at
        case Flagging => SetFlag
        case First => Reserve(N.FirstEntry(d.holder.call.req))
        case FillingFirst => Fill
        case Second => Reserve(N.FirstEntry(d.holder.call.req))
        case FillingSecond => Fill
        case Storing => Store
        case Releasing => Release
      else Lock
    case Locked => Flush
    case Entering => Return
    case NoJob =>
      if c.pub.Closing? then Other(C.ClosePublisher)
      else match c.con
        case Signal => SignalPublisher
        case Signal2 => SignalPublisher
        case Wait => WaitEnds(false)
        case Drain => if d.batch.NoBatch? then Peek else if d.batch.i < d.batch.n then Dispatch else Advance
        case Check => Other(if s.ctl.runner == C.Stopping(l, C.SendStopConsumer) then C.TakeStop else C.KeepRunning)
        case Closing => Other(C.CloseConsumer)
        case Gone =>
          Other(if s.ctl.runner == C.Stopping(l, C.AwaitConsumer) then C.SeeConsumerClosed else C.TakeStopPublisher)
  }

  /** A move of a publisher, a consumer, the runner or the lock holder: not of the kernel, and not of other callers. */
  predicate OfTheReactor(m: Move) {
    match m
    case Arrive(_, _, _) => false
    case AskCancel(_) => false
    case Acquire(_) => false
    case Take => false
    case Complete(_, _, _) => false
    case FlushBacklog => false
    case Other(c) => c != C.ContextEnds
    case _ => true
  }

  /** Once the loop it is stopping is done, the runner can go on. */
  lemma RunnerCanMove(s: State)
    requires Ok(s) && s.ctl.runner.Stopping?
    ensures s.ctl.runner.l < |s.loops|
    ensures C.LoopDone(s.ctl.loops[s.ctl.runner.l]) ==> Enabled(s, s.ctl.runner.l, Other(C.SeePublisherClosed))
  {
    hide LoopInv, InStep;
    C.NeverStuck(s.ctl, s.ctl.runner.l);
  }

  lemma LoopCanMove(s: State, l: nat)
    requires Ok(s) && l < |s.loops| && !C.LoopDone(s.ctl.loops[l])
    ensures OfTheReactor(NextMove(s, l)) && Enabled(s, l, NextMove(s, l))
  {
    hide Corresponds, NothingLost, LogOk, Sent, AcceptsOk, CallsOk, CallOk;
    assert C.LoopInv(false, s.ctl.loops[l], C.Progress(s.ctl.runner, l));
    assert InStep(s.loops[l], s.ctl.loops[l]);
    assert LoopInv(s.loops[l], s.counter);
  }

  /**
   In every run: no panic, submitSignal is closed only after the consumer is gone, and nobody is stuck: in every loop
   whose consumer and publisher are not both gone one of them, the runner or the caller that holds the lock can take
   a step, and once the loop it is stopping is done the runner can go on.
   */
  lemma SafeShutdown(ss: seq<State>, acts: seq<Action>, i: nat)
    requires IsRun(ss, acts) && i < |ss|
    ensures Shape(ss[i]) && !ss[i].ctl.panicked
    ensures forall l ::
              0 <= l < |ss[i].loops| && ss[i].ctl.loops[l].signalClosed ==> ss[i].ctl.loops[l].con == C.Consumer.Gone
    ensures forall l: nat :: l < |ss[i].loops| && !C.LoopDone(ss[i].ctl.loops[l]) ==>
              OfTheReactor(NextMove(ss[i], l)) && Enabled(ss[i], l, NextMove(ss[i], l))
    ensures
      var r := ss[i].ctl.runner;
      r.Stopping? ==>
        r.l < |ss[i].loops| && (C.LoopDone(ss[i].ctl.loops[r.l]) ==> Enabled(ss[i], r.l, Other(C.SeePublisherClosed)))
  {
    hide Init, Step, Enabled, LoopInv, NextMove, OfTheReactor;
    RunOk(ss, acts, i);
    var s := ss[i];
    forall l: nat | l < |s.loops|
      ensures s.ctl.loops[l].signalClosed ==> s.ctl.loops[l].con == C.Consumer.Gone
      ensures !C.LoopDone(s.ctl.loops[l]) ==> OfTheReactor(NextMove(s, l)) && Enabled(s, l, NextMove(s, l))
    {
      assert C.LoopInv(false, s.ctl.loops[l], C.Progress(s.ctl.runner, l));
      if !C.LoopDone(s.ctl.loops[l]) {
        LoopCanMove(s, l);
      }
    }
    if s.ctl.runner.Stopping? {
      RunnerCanMove(s);
    }
  }

  /** How much a consumer that is draining has still to do with the events in the ring. */
  function Work(d: Loop): int {
    if d.batch.NoBatch? then 3 * |d.cq.ready| else 3 * |d.cq.ready| - 1 - d.batch.i
  }

  /** A step of the consumer itself. */
  predicate ConsumerStep(m: Move) {
    || m.SignalPublisher? || m.WaitEnds? || m.Peek? || m.Dispatch? || m.Advance?
    || m == Other(C.TakeStop) || m == Other(C.KeepRunning)
  }

  /**
   Once the runner asks a consumer to stop, each step of the consumer takes the request, or brings it closer to
   the point where it polls for it, or, while it drains, leaves it less to drain.
   */
  lemma StopIsTaken(s: State, l: nat, m: Move)
    requires Ok(s) && Enabled(s, l, m) && s.ctl.runner == C.Stopping(l, C.SendStopConsumer) && ConsumerStep(m)
    ensures
      var s' := Step(s, l, m);
      var con, con' := s.ctl.loops[l].con, s'.ctl.loops[l].con;
      || (m == Other(C.TakeStop) && s'.ctl.runner == C.Stopping(l, C.AwaitConsumer))
      || C.StepsToCheck(con') < C.StepsToCheck(con)
      || (con' == con == C.Drain && 0 <= Work(s'.loops[l]) < Work(s.loops[l]))
  {
    hide Corresponds, NothingLost, LogOk, Sent, AcceptsOk, CallsOk, SlotsOk;
    assert C.LoopInv(false, s.ctl.loops[l], C.Progress(s.ctl.runner, l));
    assert InStep(s.loops[l], s.ctl.loops[l]);
    assert LoopInv(s.loops[l], s.counter);
  }
}
