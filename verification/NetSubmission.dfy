/**
 What the network reactor's publishers put into the submission queue: the entries of the accepted requests,
 in order and unbroken; and the submit flag that keeps queued entries from being forgotten.
 */
module NetSubmission {
  import opened Entries
  import opened RequestIds
  import opened RegistrySpec
  import opened SubmissionSpec
  import opened NetReactor
  import opened NetDispatch
  import opened NetRuns
  import C = Control

  /** The entries a request occupies in the queue. */
  function Encode(a: Accept): seq<SQEntry> {
    if a.Whole? && a.req.timeout != 0 then [FirstEntry(a.req), TimeoutEntry(a.req)] else [FirstEntry(a.req)]
  }

  function EncodeAll(as_: seq<Accept>): seq<SQEntry> {
    if as_ == [] then [] else EncodeAll(as_[..|as_| - 1]) + Encode(as_[|as_| - 1])
  }

  /**
   Everything ever queued is the accepted requests, encoded one after the other, and the first half of the one at
   hand.
   */
  ghost predicate Sent(d: Loop) {
    && d.sq.History() == EncodeAll(d.accepted) + (if d.job.Second? then [FirstEntry(d.job.req)] else [])
    && (d.job.Second? ==> d.job.req.timeout != 0 && d.sq.unpublished != [])
  }

  lemma EncodeAppend(as_: seq<Accept>, a: Accept)
    ensures EncodeAll(as_ + [a]) == EncodeAll(as_) + Encode(a)
  {
    assert (as_ + [a])[..|as_|] == as_;
  }

  lemma SentStep(d: Loop, m: Move, t: Table, serial: nat)
    requires Possible(d, m) && Sent(d) && (Starts(m) ==> d.job.NoJob?)
    ensures Sent(StepLoop(d, m, t, serial))
  {
    hide FirstEntry, TimeoutEntry, IdOf, EncodeAll, SubQueue.History;
    match m
    case QueueFirst =>
      HistoryGrows(d.sq, FirstEntry(d.job.req));
      EncodeAppend(d.accepted, Whole(d.job.req));
    case QueueSecond =>
      HistoryGrows(d.sq, TimeoutEntry(d.job.req));
      EncodeAppend(d.accepted, Whole(d.job.req));
      EncodeAppend(d.accepted, Half(d.job.req));
      assert [FirstEntry(d.job.req)] + [TimeoutEntry(d.job.req)] == Encode(Whole(d.job.req));
    case Flush => HistoryKept(d.sq, 0);
    case Take => HistoryKept(d.sq, 1);
    case _ =>
  }

  /**
   Entries queued and not published, and a submit that the kernel refused, leave the submit flag up until the
   next attempt.
   */
  predicate FlagUp(d: Loop) {
    && (d.sq.unpublished != [] && !d.job.Flushing? ==> d.allowed)
    && (d.owed && !d.job.Flushing? ==> d.allowed)
    && (d.job.First? || d.job.Second? ==> d.allowed)
    && (d.job.Entering? ==> d.sq.unpublished == [] && !d.owed)
  }

  lemma FlagStep(d: Loop, m: Move, t: Table, serial: nat)
    requires Possible(d, m) && FlagUp(d) && (Starts(m) ==> d.job.NoJob?)
    ensures FlagUp(StepLoop(d, m, t, serial))
  {
    hide FirstEntry, TimeoutEntry, IdOf;
  }

  /** Requests carry no flags of their own and none uses the timeout's identifier. */
  predicate Plain(req: Request) {
    req.flags == 0 && req.userData != TIMEOUT_NONCE
  }

  predicate PlainAccept(a: Accept) {
    Plain(a.req) && (a.Half? ==> a.req.timeout != 0)
  }

  ghost predicate PlainLoop(d: Loop) {
    && (forall x :: x in d.sending ==> Plain(x))
    && (forall x :: x in d.bus ==> Plain(x))
    && (d.job.First? || d.job.Second? ==> Plain(d.job.req))
    && (d.job.Second? ==> d.job.req.timeout != 0)
    && (forall a :: a in d.accepted ==> PlainAccept(a))
  }

  lemma PlainStep(d: Loop, m: Move, t: Table, serial: nat, l: nat, n: nat)
    requires Possible(d, m) && n > 0 && LoopOk(d, l, n) && PlainLoop(d)
    ensures PlainLoop(StepLoop(d, m, t, serial))
  {
    hide FirstEntry, TimeoutEntry, IdOf, LoopFor, Fd, RequestOk;
    match m
    case Register(i) =>
      assert d.callers[i] in d.callers;
      IdIsOk(d.callers[i].key, l, n);
    case Send(i) => assert d.sending[i] in d.sending;
    case Receive => assert d.bus[0] in d.bus;
    case _ =>
  }

  lemma {:induction false} RunPlain(ss: seq<State>, acts: seq<Action>, i: nat, l: nat)
    requires IsRun(ss, acts) && i < |ss|
    ensures |ss[i].loops| == |ss[0].loops| && (l < |ss[0].loops| ==> PlainLoop(ss[i].loops[l]))
  {
    hide StepLoop, Possible, C.Step, C.Enabled, C.Inv, LoopOk, TableOk, PlainLoop;
    if i == 0 {
      InitPlain(ss[0], l);
    } else {
      var s, m := ss[i - 1], acts[i - 1].m;
      RunPlain(ss, acts, i - 1, l);
      RunOk(ss, acts, i - 1);
      if acts[i - 1].l == l {
        PlainStep(s.loops[l], m, s.table, if m.Draw? then s.Draws(m.op.fd) + 1 else 0, l, |s.loops|);
      }
    }
  }

  lemma InitPlain(s: State, l: nat)
    requires Init(s)
    ensures l < |s.loops| ==> PlainLoop(s.loops[l])
  {
  }

  lemma {:induction false} RunSubmits(ss: seq<State>, acts: seq<Action>, i: nat, l: nat)
    requires IsRun(ss, acts) && i < |ss|
    ensures Shape(ss[i]) && |ss[i].loops| == |ss[0].loops|
    ensures l < |ss[0].loops| ==>
              Sent(ss[i].loops[l]) && FlagUp(ss[i].loops[l]) && InStep(ss[i].loops[l], ss[i].ctl.loops[l])
  {
    hide Sent, FlagUp, StepLoop, Possible, C.Step, C.Enabled, C.Inv, LoopOk, TableOk;
    RunOk(ss, acts, i);
    if i == 0 {
      InitSubmits(ss[0], l);
    } else {
      var s, k, m := ss[i - 1], acts[i - 1].l, acts[i - 1].m;
      RunSubmits(ss, acts, i - 1, l);
      RunOk(ss, acts, i - 1);
      if k == l {
        JobFree(s, l, m);
        var serial := if m.Draw? then s.Draws(m.op.fd) + 1 else 0;
        SentStep(s.loops[l], m, s.table, serial);
        FlagStep(s.loops[l], m, s.table, serial);
      }
    }
  }

  lemma InitSubmits(s: State, l: nat)
    requires Init(s)
    ensures l < |s.loops| ==> Sent(s.loops[l]) && FlagUp(s.loops[l])
  {
  }

  /**
   No submission is forgotten: in every state of every run in which a publisher is back at its select, entries
   it has queued and not published imply that submitAllowed is 1, and so does a submit that the
   kernel refused with EBUSY or EAGAIN and that has not been retried since.
   */
  lemma NoForgottenSubmission(ss: seq<State>, acts: seq<Action>, i: nat, l: nat)
    requires IsRun(ss, acts) && i < |ss| && l < |ss[0].loops|
    ensures l < |ss[i].loops| && Shape(ss[i])
    ensures ss[i].ctl.loops[l].pub == C.Select ==>
              (ss[i].loops[l].sq.unpublished != [] || ss[i].loops[l].owed ==> ss[i].loops[l].allowed)
  {
    hide Init, Step, Enabled, Sent;
    RunSubmits(ss, acts, i, l);
  }

  // ----- link adjacency -----

  predicate Linked(e: SQEntry) {
    e.flags == SQE_IO_LINK
  }

  /** The entry is a linked timeout of the given duration. */
  predicate IsLinkTimeout(e: SQEntry, duration: int) {
    && e.opCode == 15 && e.fd == -1 && e.addr == duration && e.len == 1 && e.off == 0 && e.opcodeFlags == 0
    && e.flags == 0 && e.userData == 0xFFFF_FFFF_FFFF_FFFF
  }

  lemma EntriesOf(req: Request)
    requires Plain(req)
    ensures Holds(FirstEntry(req), req.op, if req.timeout == 0 then 0 else 4, req.userData)
    ensures IsLinkTimeout(TimeoutEntry(req), req.timeout)
    ensures Linked(FirstEntry(req)) <==> req.timeout != 0
    ensures FirstEntry(req).userData != TIMEOUT_NONCE
    ensures !Linked(TimeoutEntry(req)) && TimeoutEntry(req).userData == TIMEOUT_NONCE
  {
  }

  /** The entries of an accepted request, field by field. */
  lemma EncodedFields(a: Accept)
    requires PlainAccept(a)
    ensures
      var es := Encode(a);
      && |es| == (if a.Whole? && a.req.timeout != 0 then 2 else 1)
      && Holds(es[0], a.req.op, if a.req.timeout == 0 then 0 else 4, a.req.userData)
      && (|es| == 2 ==> IsLinkTimeout(es[1], a.req.timeout))
  {
    hide FirstEntry, TimeoutEntry, Holds, IsLinkTimeout;
    EntriesOf(a.req);
  }

  /** An entry of a request: the operation itself or its timeout. */
  predicate EntryOf(e: SQEntry, req: Request) {
    e == FirstEntry(req) || e == TimeoutEntry(req)
  }

  lemma {:induction false} EncodedOf(as_: seq<Accept>, e: SQEntry) returns (a: Accept)
    requires e in EncodeAll(as_)
    ensures a in as_ && e in Encode(a) && EntryOf(e, a.req)
  {
    hide FirstEntry, TimeoutEntry;
    if e in EncodeAll(as_[..|as_| - 1]) {
      a := EncodedOf(as_[..|as_| - 1], e);
    } else {
      a := as_[|as_| - 1];
    }
  }

  lemma {:induction false} EncodePrefix(as_: seq<Accept>, k: nat)
    requires k <= |as_|
    ensures EncodeAll(as_[..k]) <= EncodeAll(as_)
  {
    hide Encode;
    if k < |as_| {
      var front := as_[..|as_| - 1];
      EncodePrefix(front, k);
      assert front[..k] == as_[..k];
    } else {
      assert as_[..k] == as_;
    }
  }

  /** Where the k-th accepted request lies in the encoding, and what comes after it. */
  lemma EncodedAt(as_: seq<Accept>, k: nat)
    requires k < |as_|
    ensures
      var p, e := |EncodeAll(as_[..k])|, Encode(as_[k]);
      p + |e| <= |EncodeAll(as_)| && EncodeAll(as_)[p..p + |e|] == e
    ensures
      var p, e := |EncodeAll(as_[..k])|, Encode(as_[k]);
      k + 1 < |as_| ==> p + |e| < |EncodeAll(as_)| && EncodeAll(as_)[p + |e|] == FirstEntry(as_[k + 1].req)
  {
    hide FirstEntry, TimeoutEntry, EncodeAll;
    EncodePrefix(as_, k + 1);
    EncodeAppend(as_[..k], as_[k]);
    assert as_[..k + 1] == as_[..k] + [as_[k]];
    if k + 1 < |as_| {
      EncodePrefix(as_, k + 2);
      EncodeAppend(as_[..k + 1], as_[k + 1]);
      assert as_[..k + 2] == as_[..k + 1] + [as_[k + 1]];
    }
  }

  /** A link-flagged entry that is followed at once by a linked timeout. */
  predicate Paired(es: seq<SQEntry>, p: nat)
    requires p < |es|
  {
    p + 1 < |es| && es[p + 1].userData == TIMEOUT_NONCE && es[p + 1].opCode == 15
  }

  lemma {:induction false} WholePaired(as_: seq<Accept>, p: nat)
    requires forall a :: a in as_ ==> PlainAccept(a) && a.Whole?
    requires p < |EncodeAll(as_)| && Linked(EncodeAll(as_)[p])
    ensures Paired(EncodeAll(as_), p)
  {
    hide FirstEntry, TimeoutEntry, Linked;
    var front, last := as_[..|as_| - 1], as_[|as_| - 1];
    var n := |EncodeAll(front)|;
    assert last in as_;
    EntriesOf(last.req);
    if p < n {
      WholePaired(front, p);
    } else {
      assert EncodeAll(as_)[p] == Encode(last)[p - n];
    }
  }

  lemma HalfUnpaired(as_: seq<Accept>, k: nat)
    requires k < |as_| && as_[k].Half? && forall a :: a in as_ ==> PlainAccept(a)
    ensures
      var p, es := |EncodeAll(as_[..k])|, EncodeAll(as_);
      p < |es| && Linked(es[p]) && !Paired(es, p)
  {
    hide FirstEntry, TimeoutEntry, Linked, EncodeAll;
    var p := |EncodeAll(as_[..k])|;
    assert as_[k] in as_;
    EncodedAt(as_, k);
    EntriesOf(as_[k].req);
    assert EncodeAll(as_)[p..p + 1][0] == EncodeAll(as_)[p];
    if k + 1 < |as_| {
      assert as_[k + 1] in as_;
      EntriesOf(as_[k + 1].req);
    } else {
      EncodedLast(as_);
    }
  }

  lemma EncodedLast(as_: seq<Accept>)
    requires as_ != []
    ensures |EncodeAll(as_)| == |EncodeAll(as_[..|as_| - 1])| + |Encode(as_[|as_| - 1])|
  {
  }

  /**
   Whatever the interleaving, the k-th accepted request lies unbroken in what the kernel consumes: a deadline
   request that got both its slots is its link-flagged entry followed at once by its own timeout.
   */
  lemma RequestsStayTogether(ss: seq<State>, acts: seq<Action>, i: nat, l: nat, k: nat)
    requires IsRun(ss, acts) && i < |ss| && l < |ss[0].loops|
    ensures l < |ss[i].loops|
    ensures
      var d := ss[i].loops[l];
      k < |d.accepted| ==>
        var p, e := |EncodeAll(d.accepted[..k])|, Encode(d.accepted[k]);
        && p + |e| <= |d.sq.History()| && d.sq.History()[p..p + |e|] == e && d.sq.consumed <= d.sq.History()
    ensures
      var d := ss[i].loops[l];
      k < |d.accepted| ==>
        var p, a, h := |EncodeAll(d.accepted[..k])|, d.accepted[k], d.sq.History();
        && p < |h| && Holds(h[p], a.req.op, if a.req.timeout == 0 then 0 else 4, a.req.userData)
        && (a.Whole? && a.req.timeout != 0 ==> p + 1 < |h| && IsLinkTimeout(h[p + 1], a.req.timeout))
  {
    hide Init, Step, Enabled, FlagUp, FirstEntry, TimeoutEntry, EncodeAll, Encode;
    RunSubmits(ss, acts, i, l);
    var d := ss[i].loops[l];
    if k < |d.accepted| {
      EncodedAt(d.accepted, k);
      var p, e := |EncodeAll(d.accepted[..k])|, Encode(d.accepted[k]);
      assert EncodeAll(d.accepted) <= d.sq.History();
      assert d.sq.History()[p..p + |e|] == EncodeAll(d.accepted)[p..p + |e|];
      RunPlain(ss, acts, i, l);
      assert d.accepted[k] in d.accepted;
      EncodedFields(d.accepted[k]);
      assert forall j :: 0 <= j < |e| ==> d.sq.History()[p + j] == e[j];
    }
  }

  lemma ClosedIffWhole(ss: seq<State>, acts: seq<Action>, i: nat, l: nat)
    requires IsRun(ss, acts) && i < |ss| && l < |ss[0].loops|
    ensures l < |ss[i].loops|
    ensures
      var d := ss[i].loops[l]; var h := d.sq.History();
      !d.job.Second? ==>
        ((forall p :: 0 <= p < |h| && Linked(h[p]) ==> Paired(h, p)) <==> AllWhole(d.accepted))
  {
    hide Init, Step, Enabled, FlagUp, FirstEntry, TimeoutEntry, EncodeAll, Encode, Linked, Paired, PlainAccept;
    RunSubmits(ss, acts, i, l);
    RunPlain(ss, acts, i, l);
    var d := ss[i].loops[l];
    var h := d.sq.History();
    if !d.job.Second? {
      assert h == EncodeAll(d.accepted);
      if AllWhole(d.accepted) {
        forall p | 0 <= p < |h| && Linked(h[p]) ensures Paired(h, p) {
          WholePaired(d.accepted, p);
        }
      } else {
        var k :| 0 <= k < |d.accepted| && d.accepted[k].Half?;
        HalfUnpaired(d.accepted, k);
        assert !Paired(h, |EncodeAll(d.accepted[..k])|);
      }
    }
  }

  predicate AllWhole(as_: seq<Accept>) {
    forall k :: 0 <= k < |as_| ==> as_[k].Whole?
  }

  /** A request is left with one slot exactly when its timeout is queued and the queue is full. */
  lemma WholeStep(d: Loop, m: Move, t: Table, serial: nat)
    requires Possible(d, m)
    ensures AllWhole(StepLoop(d, m, t, serial).accepted) <==>
            AllWhole(d.accepted) && (m.QueueSecond? ==> d.sq.Free() > 0)
  {
    hide FirstEntry, TimeoutEntry, IdOf;
    var as_, as' := d.accepted, StepLoop(d, m, t, serial).accepted;
    assert |as'| >= |as_| && as'[..|as_|] == as_;
    assert AllWhole(as') ==> AllWhole(as_) by {
      assert forall k :: 0 <= k < |as_| ==> as'[k] == as_[k];
    }
    if m.QueueSecond? && d.sq.Free() <= 0 {
      assert as'[|as_|].Half?;
    }
  }

  /** In the first `i` steps, whenever loop `l` queues a timeout there is a free slot. */
  ghost predicate TimeoutsFit(ss: seq<State>, acts: seq<Action>, i: nat, l: nat)
    requires IsRun(ss, acts) && i <= |acts|
  {
    forall j :: 0 <= j < i && acts[j].l == l && acts[j].m.QueueSecond? ==> ss[j].loops[l].sq.Free() > 0
  }

  lemma {:induction false} WholeIff(ss: seq<State>, acts: seq<Action>, i: nat, l: nat)
    requires IsRun(ss, acts) && i < |ss| && l < |ss[0].loops|
    ensures l < |ss[i].loops| && (AllWhole(ss[i].loops[l].accepted) <==> TimeoutsFit(ss, acts, i, l))
  {
    hide AllWhole, StepLoop, StepTable, Logged, Fits, Skeleton, C.Step, C.Enabled;
    if i == 0 {
      assert AllWhole(ss[0].loops[l].accepted) by { NoneHalf(ss[0].loops[l].accepted); }
    } else {
      WholeIff(ss, acts, i - 1, l);
      var s, m := ss[i - 1], acts[i - 1].m;
      assert TimeoutsFit(ss, acts, i, l) <==>
             TimeoutsFit(ss, acts, i - 1, l) && (acts[i - 1].l == l && m.QueueSecond? ==> s.loops[l].sq.Free() > 0);
      if acts[i - 1].l == l {
        WholeStep(s.loops[l], m, s.table, if m.Draw? then s.Draws(m.op.fd) + 1 else 0);
      }
    }
  }

  lemma NoneHalf(as_: seq<Accept>)
    requires as_ == []
    ensures AllWhole(as_)
  {
  }

  /**
   Between two requests of a publisher, every link in its queue is closed by a timeout if and only if every timeout
   it has queued so far found a free slot.
   */
  lemma LinksClosedIff(ss: seq<State>, acts: seq<Action>, i: nat, l: nat)
    requires IsRun(ss, acts) && i < |ss| && l < |ss[0].loops|
    ensures l < |ss[i].loops|
    ensures
      var d := ss[i].loops[l]; var h := d.sq.History();
      !d.job.Second? ==>
        ((forall p :: 0 <= p < |h| && Linked(h[p]) ==> Paired(h, p)) <==> TimeoutsFit(ss, acts, i, l))
  {
    hide IsRun, AllWhole, TimeoutsFit, Linked, Paired, SubQueue.History;
    ClosedIffWhole(ss, acts, i, l);
    WholeIff(ss, acts, i, l);
  }
}
