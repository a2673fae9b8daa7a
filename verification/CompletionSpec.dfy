/**
 The completion side as its users see it: a bounded FIFO queue with an overflow backlog.

 The kernel posts to the ring while there is room and to its backlog otherwise; whenever some thread enters
 the kernel, backlogged events may move to the ring. `seen` is the log of everything dequeued.
 */
module CompletionSpec {
  import opened Words
  import opened Entries

  /** A step of the kernel: it posts an event, or moves its backlog to the ring as far as there is room. */
  datatype KernelStep = Posts(e: CQEvent) | Flushes

  datatype CompQueue = CompQueue(capacity: nat, ready: seq<CQEvent>, backlog: seq<CQEvent>, seen: seq<CQEvent>) {

    predicate Valid() {
      |ready| <= capacity
    }

    /** Every event that ever entered the ring, in order. */
    function Entered(): seq<CQEvent> {
      seen + ready
    }

    /** Every event ever posted. */
    ghost function Events(): (es: multiset<CQEvent>)
      ensures |es| == |seen| + |ready| + |backlog|
    {
      multiset(seen) + multiset(ready) + multiset(backlog)
    }

    function Post(e: CQEvent): CompQueue {
      if |ready| < capacity then this.(ready := ready + [e]) else this.(backlog := backlog + [e])
    }

    /** The `n` oldest backlogged events move to the ring. */
    function Move(n: nat): CompQueue
      requires n <= |backlog|
    {
      this.(ready := ready + backlog[..n], backlog := backlog[n..])
    }

    /** Backlogged events move to the ring, oldest first, as far as there is room. */
    function FlushBacklog(): CompQueue
      requires Valid()
    {
      Move(Min(|backlog|, capacity - |ready|))
    }

    function Do(k: KernelStep): (q: CompQueue)
      requires Valid()
      ensures q.Valid()
    {
      match k
      case Posts(e) => Post(e)
      case Flushes => FlushBacklog()
    }

    /** Any kernel activity. */
    function Run(ks: seq<KernelStep>): (q: CompQueue)
      requires Valid()
      ensures q.Valid()
      decreases |ks|
    {
      if ks == [] then this else Run(ks[..|ks| - 1]).Do(ks[|ks| - 1])
    }

    function Advance(n: nat): CompQueue
      requires n <= |ready|
    {
      this.(ready := ready[n..], seen := seen + ready[..n])
    }
  }

  /** What is posted in the course of some kernel steps. */
  ghost function Posted(ks: seq<KernelStep>): multiset<CQEvent>
    decreases |ks|
  {
    if ks == [] then multiset{}
    else
      var k := ks[|ks| - 1];
      Posted(ks[..|ks| - 1]) + (if k.Posts? then multiset{k.e} else multiset{})
  }

  /** `q'` is `q` after some kernel steps that posted exactly `posted`: the ring has only grown. */
  ghost predicate Grown(q: CompQueue, q': CompQueue, posted: multiset<CQEvent>) {
    && q.Valid() && q'.Valid() && q'.capacity == q.capacity
    && q'.seen == q.seen && q.ready <= q'.ready
    && q'.Events() == q.Events() + posted
  }

  lemma PrefixCancels<T>(a: seq<T>, b: seq<T>, c: seq<T>)
    requires a + b <= a + c
    ensures b <= c
  {
    assert (a + b)[|a|..] == b;
    assert (a + c)[|a|..][..|b|] == (a + c)[|a|..|a| + |b|];
  }

  lemma GrownTwice(q: CompQueue, q': CompQueue, q'': CompQueue, a: multiset<CQEvent>, b: multiset<CQEvent>)
    requires Grown(q, q', a) && Grown(q', q'', b)
    ensures Grown(q, q'', a + b)
  {
  }

  lemma PostGrows(q: CompQueue, e: CQEvent)
    requires q.Valid()
    ensures Grown(q, q.Post(e), multiset{e})
  {
  }

  /**
   From `q` to `q'` exactly `es` was dequeued, in ring order, while `posted` was posted and nothing lost; if
   `n`, the size of the next batch, is 0 then everything that had entered the ring is dequeued.
   */
  ghost predicate Delivered(q: CompQueue, q': CompQueue, es: seq<CQEvent>, posted: multiset<CQEvent>, n: nat) {
    && q'.seen == q.seen + es && q.Entered() <= q'.Entered()
    && q'.Events() == q.Events() + posted
    && (n == 0 ==> q.Entered() <= q'.seen)
  }

  lemma DeliveredTwice(q: CompQueue, q': CompQueue, q'': CompQueue, es: seq<CQEvent>, fs: seq<CQEvent>,
                       a: multiset<CQEvent>, b: multiset<CQEvent>, m: nat, n: nat)
    requires Delivered(q, q', es, a, m) && Delivered(q', q'', fs, b, n)
    ensures Delivered(q, q'', es + fs, a + b, n)
  {
    hide CompQueue.Events;
  }

  /** A batch is dequeued while the kernel posts `a`, and then the kernel posts `b`. */
  lemma DeliveredBatch(q: CompQueue, v: CompQueue, q': CompQueue, es: seq<CQEvent>,
                       a: multiset<CQEvent>, b: multiset<CQEvent>, n: nat)
    requires v.seen == q.seen + es && q.Entered() <= v.Entered() && v.Events() == q.Events() + a
    requires Grown(v, q', b) && (n == 0 ==> v.ready == [])
    ensures Delivered(q, q', es, a + b, n)
    ensures a + b == multiset{} ==> |q'.ready| + |q'.backlog| + |es| == |q.ready| + |q.backlog|
  {
    hide CompQueue.Events;
    assert |q'.Events()| == |q.Events()| + |a + b|;
  }

  /** The kernel goes on after a batch is dequeued. */
  lemma GrownAfter(q: CompQueue, u: CompQueue, v: CompQueue, es: seq<CQEvent>,
                   a: multiset<CQEvent>, b: multiset<CQEvent>)
    requires u.seen == q.seen + es && q.Entered() <= u.Entered() && u.Events() == q.Events() + a && Grown(u, v, b)
    ensures v.seen == q.seen + es && q.Entered() <= v.Entered() && v.Events() == q.Events() + (a + b)
  {
    hide CompQueue.Events;
  }

  lemma AllDelivered(q: CompQueue, q': CompQueue, es: seq<CQEvent>, posted: multiset<CQEvent>)
    requires Delivered(q, q', es, posted, 0)
    ensures q'.seen == q.seen + es && q.ready <= es && q'.Events() == q.Events() + posted
  {
    hide CompQueue.Events;
    PrefixCancels(q.seen, q.ready, es);
  }

  /** Kernel steps only append to the ring, and conserve events. */
  lemma {:induction false} RunGrows(q: CompQueue, ks: seq<KernelStep>)
    requires q.Valid()
    ensures Grown(q, q.Run(ks), Posted(ks))
    decreases |ks|
  {
    hide CompQueue.Post, CompQueue.FlushBacklog, CompQueue.Events;
    if ks != [] {
      var front, k := ks[..|ks| - 1], ks[|ks| - 1];
      var q' := q.Run(front);
      RunGrows(q, front);
      if k.Posts? {
        PostGrows(q', k.e);
        GrownTwice(q, q', q'.Post(k.e), Posted(front), multiset{k.e});
      } else {
        FlushGrows(q');
        GrownTwice(q, q', q'.FlushBacklog(), Posted(front), multiset{});
      }
    }
  }

  lemma RunNothing(q: CompQueue)
    requires q.Valid()
    ensures q.Run([]) == q && Posted([]) == multiset{}
  {
  }

  /** `q'` is a later state of `q`, with nothing dequeued in between. */
  ghost predicate Later(q: CompQueue, q': CompQueue) {
    && q.Valid() && q'.Valid() && q'.capacity == q.capacity
    && q'.seen == q.seen && q.ready <= q'.ready && q.Events() <= q'.Events()
  }

  lemma GrownIsLater(q: CompQueue, q': CompQueue, posted: multiset<CQEvent>)
    requires Grown(q, q', posted)
    ensures Later(q, q')
  {
  }

  lemma LaterSame(q: CompQueue)
    requires q.Valid()
    ensures Later(q, q)
  {
  }

  lemma LaterHasMore(q: CompQueue, q': CompQueue)
    requires Later(q, q')
    ensures |q.ready| <= |q'.ready|
  {
  }

  lemma GrownNot(q: CompQueue)
    requires q.Valid()
    ensures Grown(q, q, multiset{})
  {
  }

  /** If nothing is posted and nothing is ready or backlogged at some moment, nothing is at the end. */
  lemma QuietGrows(q: CompQueue, q': CompQueue, posted: multiset<CQEvent>)
    requires Grown(q, q', posted) && posted == multiset{} && q.ready == [] && q.backlog == []
    ensures q'.ready == [] && q'.backlog == []
  {
    assert |q'.Events()| == |q.Events()|;
  }

  lemma LaterTwice(q: CompQueue, q': CompQueue, q'': CompQueue)
    requires Later(q, q') && Later(q', q'')
    ensures Later(q, q'')
  {
  }

  lemma FlushLeaves(q: CompQueue)
    requires q.Valid()
    ensures q.FlushBacklog().backlog == [] || |q.FlushBacklog().ready| == q.capacity
  {
  }

  /** A flush that goes as far as there is room makes an event available if there was any backlog. */
  lemma FlushFinds(q: CompQueue, q': CompQueue, posted: multiset<CQEvent>)
    requires Grown(q, q', posted) && q.backlog != [] && q.capacity > 0
    requires q'.backlog == [] || |q'.ready| == q'.capacity
    ensures q'.ready != []
  {
    assert |q'.Events()| == |q.Events()| + |posted|;
  }

  lemma MoveOneMore(q: CompQueue, n: nat)
    requires n < |q.backlog|
    ensures q.Move(0) == q && q.Move(n).backlog != [] && q.Move(n).Move(1) == q.Move(n + 1)
  {
    assert q.backlog[..n + 1] == q.backlog[..n] + [q.backlog[n]];
    assert q.ready + q.backlog[..n + 1] == q.ready + q.backlog[..n] + [q.backlog[n]];
  }

  lemma FlushGrows(q: CompQueue)
    requires q.Valid()
    ensures Grown(q, q.FlushBacklog(), multiset{})
  {
    var n := Min(|q.backlog|, q.capacity - |q.ready|);
    assert q.backlog == q.backlog[..n] + q.backlog[n..];
  }

  lemma AdvanceKeeps(q: CompQueue, n: nat)
    requires q.Valid() && n <= |q.ready|
    ensures q.Advance(n).Valid()
    ensures q.Advance(n).Entered() == q.Entered()
    ensures q.Advance(n).Events() == q.Events()
  {
    assert q.ready == q.ready[..n] + q.ready[n..];
    assert q.Advance(n).Entered() == q.Entered();
  }

  /** The completion of a timeout that the library itself queued, on kernels without extended wait arguments. */
  predicate Internal(e: CQEvent) {
    e.userData == LIB_USER_DATA_TIMEOUT
  }

  /** How many leading events are internal timeouts that did not fail. */
  function Skipped(es: seq<CQEvent>): nat
    decreases |es|
  {
    if es != [] && Internal(es[0]) && es[0].res >= 0 then 1 + Skipped(es[1..]) else 0
  }

  lemma {:induction false} SkippedIs(es: seq<CQEvent>, n: nat)
    requires n <= |es| && forall i :: 0 <= i < n ==> Internal(es[i]) && es[i].res >= 0
    requires n == |es| || !Internal(es[n]) || es[n].res < 0
    ensures Skipped(es) == n
    decreases n
  {
    if n > 0 {
      SkippedIs(es[1..], n - 1);
    }
  }

  /**
   How peeking must end when the ring holds `es`: the leading internal timeouts are removed, and with
   them the next one if it failed, whose error is then the result; otherwise the first other
   event, if any, is the result.
   */
  function PeekOutcome(es: seq<CQEvent>, extArg: bool): (r: (nat, Option<CQEvent>, int))
    ensures r.0 <= |es| && (r.2 != 0 ==> r.1.None?)
  {
    var n := if extArg then 0 else Skipped(es);
    if n >= |es| then (Min(n, |es|), None, 0)
    else if !extArg && Internal(es[n]) then (n + 1, None, -es[n].res)
    else (n, Some(es[n]), 0)
  }

  /** The same, for the events that have entered the ring since those of `base` were dequeued. */
  function OutcomeSince(base: seq<CQEvent>, q: CompQueue, extArg: bool): (r: (nat, Option<CQEvent>, int))
    ensures r.2 != 0 ==> r.1.None?
  {
    PeekOutcome(if |base| <= |q.Entered()| then q.Entered()[|base|..] else [], extArg)
  }

  /** The events dequeued since `base` are `n` internal timeouts that did not fail. */
  ghost predicate SkippedSince(base: seq<CQEvent>, q: CompQueue, n: nat) {
    && base <= q.seen && |q.seen| == |base| + n
    && forall i :: |base| <= i < |q.seen| ==> Internal(q.seen[i]) && q.seen[i].res >= 0
  }

  lemma SkippedNone(q: CompQueue)
    ensures SkippedSince(q.seen, q, 0)
  {
  }

  /** Between `q` and `q'` nothing was dequeued but internal timeouts, and those only without extended arguments. */
  ghost predicate Trimmed(q: CompQueue, q': CompQueue, extArg: bool) {
    && q.seen <= q'.seen && q.Entered() <= q'.Entered()
    && (extArg ==> q'.seen == q.seen)
    && forall i :: |q.seen| <= i < |q'.seen| ==> Internal(q'.seen[i])
  }

  lemma TrimmedTwice(q: CompQueue, q': CompQueue, q'': CompQueue, extArg: bool)
    requires Trimmed(q, q', extArg) && Trimmed(q', q'', extArg)
    ensures Trimmed(q, q'', extArg)
  {
    assert forall i :: |q.seen| <= i < |q'.seen| ==> q''.seen[i] == q'.seen[i];
  }

  lemma TrimmedNot(q: CompQueue, extArg: bool)
    ensures Trimmed(q, q, extArg)
  {
  }

  lemma GrownIsTrimmed(q: CompQueue, q': CompQueue, posted: multiset<CQEvent>, extArg: bool)
    requires Grown(q, q', posted)
    ensures Trimmed(q, q', extArg) && q.ready <= q'.ready
  {
  }

  /** Where peeking stops, it ends as it must. */
  lemma PeekEnds(base: seq<CQEvent>, q: CompQueue, n: nat, extArg: bool)
    requires SkippedSince(base, q, n) && (extArg ==> n == 0)
    requires q.ready == [] || extArg || !Internal(q.ready[0]) || q.ready[0].res < 0
    ensures PeekOutcome(q.Entered()[|base|..], extArg) ==
      if q.ready == [] then (n, None, 0)
      else if !extArg && Internal(q.ready[0]) then (n + 1, None, -q.ready[0].res)
      else (n, Some(q.ready[0]), 0)
  {
    var es := q.Entered()[|base|..];
    assert q.ready != [] ==> es[n] == q.ready[0];
    if !extArg {
      assert forall i :: 0 <= i < n ==> es[i] == q.seen[|base| + i];
      SkippedIs(es, n);
    }
  }

  /** A look that removes an internal timeout: peeking goes on. */
  lemma PeekGoesOn(q: CompQueue, v: CompQueue, now: CompQueue, n: nat, posted: multiset<CQEvent>)
    requires q.Entered() <= v.Entered() && SkippedSince(q.seen, v, n) && Grown(v, now, posted)
    requires now.ready != [] && Internal(now.ready[0]) && now.ready[0].res >= 0
    ensures q.Entered() <= now.Advance(1).Entered() && SkippedSince(q.seen, now.Advance(1), n + 1)
  {
    hide CompQueue.Events;
    AdvanceKeeps(now, 1);
  }

  /**
   The last look, which loads the tail when the queue is `at` and may remove one internal timeout more; when it is
   over, the kernel has come to `now`.
   */
  lemma PeekStops(q: CompQueue, v: CompQueue, at: CompQueue, now: CompQueue, n: nat,
                  a: multiset<CQEvent>, b: multiset<CQEvent>, extArg: bool)
    requires q.Entered() <= v.Entered() && SkippedSince(q.seen, v, n) && (extArg ==> n == 0)
    requires Grown(v, at, a) && Grown(at, now, b)
    requires at.ready == [] || extArg || !Internal(at.ready[0]) || at.ready[0].res < 0
    ensures Trimmed(q, at, extArg) && (at.ready != [] ==> now.ready != [] && now.ready[0] == at.ready[0])
    ensures
      var removes := at.ready != [] && !extArg && Internal(at.ready[0]);
      var last := if removes then now.Advance(1) else now;
      && Trimmed(q, last, extArg) && at.Entered() <= last.Entered()
      && OutcomeSince(q.seen, at, extArg) ==
           if at.ready == [] then (|last.seen| - |q.seen|, None, 0)
           else if removes then (|last.seen| - |q.seen|, None, -at.ready[0].res)
           else (|last.seen| - |q.seen|, Some(at.ready[0]), 0)
  {
    hide CompQueue.Events, PeekOutcome;
    PeekEnds(q.seen, at, n, extArg);
    if at.ready != [] {
      AdvanceKeeps(now, 1);
    }
  }

  lemma {:induction false} SkippedStays(es: seq<CQEvent>, more: seq<CQEvent>)
    requires Skipped(es) < |es|
    ensures Skipped(es + more) == Skipped(es)
    decreases |es|
  {
    if Internal(es[0]) && es[0].res >= 0 {
      SkippedStays(es[1..], more);
      assert (es + more)[1..] == es[1..] + more;
    }
  }

  /** An event that was there to be found is found, whatever arrives behind it. */
  lemma FoundStays(q: CompQueue, q': CompQueue, extArg: bool)
    requires Trimmed(q, q', extArg) && PeekOutcome(q.ready, extArg).1.Some?
    ensures PeekOutcome(q'.Entered()[|q.seen|..], extArg) == PeekOutcome(q.ready, extArg)
  {
    var es := q'.Entered()[|q.seen|..];
    assert es[..|q.ready|] == q.ready by {
      assert q.Entered() == q'.Entered()[..|q.Entered()|];
    }
    var more := es[|q.ready|..];
    assert es == q.ready + more;
    if !extArg {
      SkippedStays(q.ready, more);
    }
  }

  /** The event last dequeued is an internal timeout that failed with `err`. */
  ghost predicate FailedTimeout(q: CompQueue, err: int) {
    q.seen != [] && var e := q.seen[|q.seen| - 1]; Internal(e) && e.res < 0 && err == -e.res
  }

  lemma ErrorIsTimeouts(base: seq<CQEvent>, at: CompQueue, q: CompQueue, extArg: bool)
    requires base <= q.seen && |base| <= |at.Entered()| && at.Entered() <= q.Entered()
    requires PeekOutcome(at.Entered()[|base|..], extArg).0 == |q.seen| - |base|
    requires PeekOutcome(at.Entered()[|base|..], extArg).2 != 0
    ensures !extArg && FailedTimeout(q, PeekOutcome(at.Entered()[|base|..], extArg).2)
  {
    var es := at.Entered()[|base|..];
    var n := PeekOutcome(es, extArg).0;
    assert es[n - 1] == at.Entered()[|q.seen| - 1] == q.Entered()[|q.seen| - 1] == q.seen[|q.seen| - 1];
    SkippedStops(es);
  }

  lemma {:induction false} SkippedStops(es: seq<CQEvent>)
    ensures Skipped(es) <= |es|
    ensures Skipped(es) < |es| ==> !Internal(es[Skipped(es)]) || es[Skipped(es)].res < 0
    decreases |es|
  {
    if es != [] {
      SkippedStops(es[1..]);
    }
  }

  /** What one peek, with its last look at `at`, tells the wait loop about events that were there before it. */
  lemma PeekedEnough(q: CompQueue, at: CompQueue, q': CompQueue, extArg: bool)
    requires Trimmed(q, at, extArg) && Trimmed(q, q', extArg) && at.Entered() <= q'.Entered()
    requires |q'.seen| == |q.seen| + OutcomeSince(q.seen, at, extArg).0
    ensures PeekOutcome(q.ready, extArg).1.Some? ==>
              && OutcomeSince(q.seen, at, extArg) == PeekOutcome(q.ready, extArg)
              && |at.Entered()| - |q'.seen| >= |q.ready| - PeekOutcome(q.ready, extArg).0
    ensures var err := OutcomeSince(q.seen, at, extArg).2; err != 0 ==> !extArg && FailedTimeout(q', err)
  {
    hide PeekOutcome, FailedTimeout;
    if PeekOutcome(q.ready, extArg).1.Some? {
      FoundStays(q, at, extArg);
    }
    if OutcomeSince(q.seen, at, extArg).2 != 0 {
      ErrorIsTimeouts(q.seen, at, q', extArg);
    }
  }
}
