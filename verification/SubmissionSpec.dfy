/**
 The submission side as its users see it: one bounded FIFO queue in three parts.

 An entry is first queued (visible to the application only), then published (visible to the
 kernel), then consumed by the kernel. `consumed` is the log of everything the kernel took.
 */
module SubmissionSpec {
  import opened Words

  datatype SubQueue<E> = SubQueue(capacity: nat, unpublished: seq<E>, published: seq<E>, consumed: seq<E>) {

    predicate Valid() {
      |unpublished| + |published| <= capacity
    }

    function Free(): int {
      capacity - |unpublished| - |published|
    }

    /** Every entry ever queued, in queueing order. */
    function History(): seq<E> {
      consumed + published + unpublished
    }

    function Enqueue(e: E): SubQueue<E> {
      this.(unpublished := unpublished + [e])
    }

    /** The newest entry, not yet published, is overwritten. */
    function SetLast(e: E): SubQueue<E>
      requires unpublished != []
    {
      this.(unpublished := unpublished[..|unpublished| - 1] + [e])
    }

    function Publish(): SubQueue<E> {
      this.(published := published + unpublished, unpublished := [])
    }

    /** The kernel takes up to `n` published entries. */
    function Drain(n: nat): (q: SubQueue<E>)
      ensures q.capacity == capacity && q.unpublished == unpublished && |q.published| <= |published|
    {
      var m := Min(n, |published|);
      this.(published := published[m..], consumed := consumed + published[..m])
    }
  }

  lemma DrainTwice<E>(q: SubQueue<E>, m: nat, n: nat)
    ensures q.Drain(m).Drain(n) == q.Drain(m + n)
  {
    var a, b := Min(m, |q.published|), Min(m + n, |q.published|);
    var rest := q.published[a..];
    assert q.published[..b] == q.published[..a] + rest[..b - a];
    assert rest[b - a..] == q.published[b..];
    assert q.consumed + q.published[..a] + rest[..b - a] == q.consumed + q.published[..b];
  }

  /** Once the published part is empty, asking for more takes nothing. */
  lemma DrainDry<E>(q: SubQueue<E>, m: nat, n: nat)
    requires m == n || (m <= n && q.Drain(m).published == [])
    ensures q.Drain(m) == q.Drain(n)
  {
  }

  lemma DrainNothing<E>(q: SubQueue<E>)
    ensures q.Drain(0) == q
  {
  }

  lemma EnqueueDuringDrain<E>(q: SubQueue<E>, n: nat, e: E)
    ensures q.Drain(n).Enqueue(e) == q.Enqueue(e).Drain(n)
  {
  }

  lemma SetLastOfEnqueued<E>(q: SubQueue<E>, x: E, n: nat, e: E)
    ensures q.Enqueue(x).Drain(n).unpublished != []
    ensures q.Enqueue(x).Drain(n).SetLast(e) == q.Enqueue(e).Drain(n)
  {
    assert q.unpublished + [e] == (q.unpublished + [x])[..|q.unpublished|] + [e];
  }

  lemma SetLastAfterDrain<E>(q: SubQueue<E>, d: E, n: nat, e: E)
    requires q.unpublished != []
    ensures q.SetLast(d).Drain(n).unpublished != []
    ensures q.SetLast(d).Drain(n).SetLast(e) == q.SetLast(e).Drain(n)
  {
    var keep := q.unpublished[..|q.unpublished| - 1];
    assert (keep + [d])[..|keep|] == keep;
  }

  /** Consumption and publication move entries along; they neither lose, add nor reorder any. */
  lemma HistoryKept<E>(q: SubQueue<E>, n: nat)
    ensures q.Drain(n).History() == q.History()
    ensures q.Publish().History() == q.History()
  {
    var m := Min(n, |q.published|);
    assert q.published == q.published[..m] + q.published[m..];
    assert q.Drain(n).History() == q.History();
    assert q.Publish().History() == q.History();
  }

  lemma HistoryGrows<E>(q: SubQueue<E>, e: E)
    ensures q.Enqueue(e).History() == q.History() + [e]
  {
    assert q.Enqueue(e).History() == q.History() + [e];
  }
}
