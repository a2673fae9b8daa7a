/** Counting the completions of an identifier that a consumer has not processed yet. */
module Pending {
  import opened Words
  import opened Entries
  import opened CompletionSpec
  import opened Tallies

  function CqeId(e: CQEvent): int {
    e.userData
  }

  /** How many events with identifier `id` there are beyond the first `i` of the ring. */
  function Unprocessed(q: CompQueue, i: nat, id: int): nat {
    Count(if i <= |q.ready| then q.ready[i..] else [], CqeId, id) + Count(q.backlog, CqeId, id)
  }

  lemma PostPending(q: CompQueue, i: nat, e: CQEvent, id: int)
    requires i <= |q.ready|
    ensures Unprocessed(q.Post(e), i, id) == Unprocessed(q, i, id) + Is(e.userData, id)
  {
    hide Count, Is;
    CountAppend(q.ready[i..], e, CqeId, id);
    CountAppend(q.backlog, e, CqeId, id);
    assert (q.ready + [e])[i..] == q.ready[i..] + [e];
  }

  lemma FlushPending(q: CompQueue, i: nat, id: int)
    requires q.Valid() && i <= |q.ready|
    ensures Unprocessed(q.FlushBacklog(), i, id) == Unprocessed(q, i, id)
  {
    hide Count, Is;
    var n := Min(|q.backlog|, q.capacity - |q.ready|);
    CountSplit(q.backlog, n, CqeId, id);
    CountPlus(q.ready[i..], q.backlog[..n], CqeId, id);
    assert (q.ready + q.backlog[..n])[i..] == q.ready[i..] + q.backlog[..n];
  }

  lemma NextPending(q: CompQueue, i: nat, id: int)
    requires i < |q.ready|
    ensures Unprocessed(q, i, id) == Is(q.ready[i].userData, id) + Unprocessed(q, i + 1, id)
  {
    hide Count, Is;
    CountFirst(q.ready[i..], CqeId, id);
    assert q.ready[i..][1..] == q.ready[i + 1..];
  }

  lemma AdvancePending(q: CompQueue, i: nat, id: int)
    requires i <= |q.ready|
    ensures Unprocessed(q.Advance(i), 0, id) == Unprocessed(q, i, id)
  {
    hide Count;
    assert q.ready[i..][0..] == q.ready[i..];
  }

  /** An unprocessed event counts. */
  lemma NextIsPending(q: CompQueue, i: nat)
    requires i < |q.ready|
    ensures Unprocessed(q, i, q.ready[i].userData) >= 1
  {
    CountIn(q.ready[i..], 0, CqeId);
  }
}
