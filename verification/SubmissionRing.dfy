/**
 The submission ring: wrapping 32-bit counters, a power-of-two mask, the shared index array and
 the shared array of SQE slots.

 The kernel runs concurrently. Where it can take entries in the middle of an application
 operation, the operation calls `Kernel` with a count chosen by its caller, so a contract
 that holds for all counts holds for every interleaving with the kernel. Atomics are
 sequentially consistent.
 */
module SubmissionRing {
  import opened Words
  import opened Entries
  import opened SubmissionSpec
  import opened RingSlots

  /** A snapshot of the ring's memory; there are `2^log` slots. */
  datatype Memory = Memory(
    log: nat, array_: seq<nat>, sqes: seq<SQEntry>,
    kHead: uint32, kTail: uint32, sqeTail: uint32,
    consumed: seq<SQEntry>)
  {
    function Published(): nat {
      Sub32(kTail, kHead)
    }

    function Used(): nat {
      Sub32(sqeTail, kHead)
    }

    /** The indices the kernel reads from the index array, oldest first. */
    function Indices(): seq<nat>
      requires |array_| > 0
    {
      Slots(array_, kHead, Published())
    }

    /** The counters are in order and at most a ring apart, and each published index names its own slot. */
    ghost predicate Inv()
      ensures Inv() ==> 0 < |array_| == |sqes| <= 0x8000
    {
      && log <= 15
      && |array_| == |sqes| == Pow2(log) <= 0x8000
      && Published() <= Used() <= |sqes|
      && forall i :: 0 <= i < Published() ==> Indices()[i] == At(kHead, i, |sqes|)
    }

    /** The queue the memory stands for. The kernel finds published entries through the index array. */
    ghost function View(): (q: SubQueue<SQEntry>)
      requires Inv()
      ensures q.Valid() && q.capacity == |sqes|
      ensures |q.published| == Published() && |q.unpublished| == Used() - Published()
    {
      SubQueue(|sqes|, Slots(sqes, kHead, Used())[Published()..], Deref(sqes, Indices()), consumed)
    }

    /** A slot that holds no entry the kernel has still to read. */
    ghost predicate Spare(slot: int)
      requires |sqes| > 0
    {
      0 <= slot < |sqes| && forall p :: 0 <= p < Used() ==> slot != At(kHead, p, |sqes|)
    }

    /** The slot of the newest entry. */
    function LastSlot(): int
      requires |sqes| > 0
    {
      At(Sub32(sqeTail, 1), 0, |sqes|)
    }
  }

  function Deref<T>(buf: seq<T>, at: seq<nat>): (s: seq<T>)
    requires forall i :: 0 <= i < |at| ==> at[i] < |buf|
    ensures |s| == |at| && forall i :: 0 <= i < |at| ==> s[i] == buf[at[i]]
  {
    seq(|at|, i requires 0 <= i < |at| => buf[at[i]])
  }

  /** The kernel takes the oldest published entry. */
  lemma TakeOne(m: Memory, m': Memory)
    requires m.Inv() && m.Published() > 0
    requires m' == m.(kHead := Add32(m.kHead, 1), consumed := m.consumed + [m.sqes[m.array_[At(m.kHead, 0, |m.sqes|)]]])
    ensures m'.Inv() && m'.View() == m.View().Drain(1)
  {
    hide At;
    var n, u := m.Published(), m.Used();
    SlotsAdvance(m.array_, m.log, m.kHead, 1, n - 1);
    SlotsAdvance(m.sqes, m.log, m.kHead, 1, u - 1);
    forall j | 0 <= j < n - 1
      ensures At(m'.kHead, j, |m.sqes|) == At(m.kHead, j + 1, |m.sqes|)
    {
      AtWraps(m.kHead, 1, j, m.log);
    }
    assert m'.Indices() == m.Indices()[1..];
    assert m'.Inv();
    assert m'.View().unpublished == m.View().unpublished;
    assert m'.View().published == m.View().published[1..];
  }

  /** Advancing the private tail adds the next slot, which is none of those still in use. */
  lemma ReserveOne(m: Memory, m': Memory)
    requires m.Inv() && m.Used() < |m.sqes|
    requires m' == m.(sqeTail := Add32(m.sqeTail, 1))
    ensures m'.Inv()
    ensures m'.LastSlot() == At(m.sqeTail, 0, |m.sqes|) == At(m.kHead, m.Used(), |m.sqes|)
    ensures m'.View() == m.View().Enqueue(m.sqes[m'.LastSlot()])
    ensures m.Spare(m'.LastSlot())
  {
    hide At;
    var u := m.Used();
    AtWraps(m.kHead, u, 0, m.log);
    assert Slots(m.sqes, m.kHead, u + 1) == Slots(m.sqes, m.kHead, u) + [m.sqes[m'.LastSlot()]];
    assert m'.View().unpublished == m.View().unpublished + [m.sqes[m'.LastSlot()]];
    forall p | 0 <= p < u
      ensures m'.LastSlot() != At(m.kHead, p, |m.sqes|)
    {
      AtDiffers(m.kHead, p, u, |m.sqes|);
    }
  }

  /** Overwriting the slot of the newest, unpublished entry changes that entry and nothing else. */
  lemma RewriteLast(m: Memory, m': Memory, e: SQEntry)
    requires m.Inv() && m.Published() < m.Used()
    requires m' == m.(sqes := m.sqes[m.LastSlot() := e])
    ensures m'.Inv() && m.View().unpublished != []
    ensures m'.View() == m.View().SetLast(e)
  {
    hide At;
    var u := m.Used();
    AtWraps(m.kHead, u - 1, 0, m.log);
    SlotsAppend(m.sqes, m.kHead, u - 1, e);
    assert Slots(m.sqes, m.kHead, u - 1) == Slots(m.sqes, m.kHead, u)[..u - 1];
    assert m'.View().unpublished == m.View().SetLast(e).unpublished;
    forall i | 0 <= i < m.Published()
      ensures Deref(m'.sqes, m.Indices())[i] == Deref(m.sqes, m.Indices())[i]
    {
      AtDiffers(m.kHead, i, u - 1, |m.sqes|);
    }
    assert m'.View().published == m.View().published;
  }

  /** `n` entries of the index array, from the shared tail on, name their own slots. */
  ghost predicate Indexed(m: Memory, n: nat) {
    && m.Inv() && m.Published() + n <= m.Used()
    && forall i :: 0 <= i < n ==> Slots(m.array_, m.kTail, n)[i] == At(m.kTail, i, |m.sqes|)
  }

  /** Writing one more index leaves the published ones alone. */
  lemma IndexOne(m: Memory, m': Memory, n: nat)
    requires Indexed(m, n) && m.Published() + n < m.Used()
    requires var at := At(Add32(m.kTail, n), 0, |m.sqes|); m' == m.(array_ := m.array_[at := at])
    ensures Indexed(m', n + 1) && m'.View() == m.View()
  {
    hide At;
    var at := At(Add32(m.kTail, n), 0, |m.sqes|);
    var p := m.Published();
    AtWraps(m.kTail, n, 0, m.log);
    AtWraps(m.kHead, p, n, m.log);
    assert at == At(m.kTail, n, |m.sqes|) == At(m.kHead, p + n, |m.sqes|);
    SlotsAppend(m.array_, m.kTail, n, at);
    SlotsAppend(m.array_, m.kHead, p + n, at);
    assert Slots(m'.array_, m.kHead, p + n + 1)[..p] == m.Indices();
    assert m'.Indices() == m.Indices();
  }

  /** Storing the shared tail publishes everything queued. */
  lemma PublishAll(m: Memory, m': Memory, n: nat)
    requires Indexed(m, n) && m.Published() + n == m.Used()
    requires m' == m.(kTail := m.sqeTail)
    ensures m'.Inv() && m'.View() == m.View().Publish()
  {
    hide At;
    var p := m.Published();
    SlotsAdvance(m.array_, m.log, m.kHead, p, n);
    assert Add32(m.kHead, p) == m.kTail;
    forall i | 0 <= i < p + n
      ensures m'.Indices()[i] == At(m.kHead, i, |m.sqes|)
    {
      if i < p {
        assert m'.Indices()[i] == m.Indices()[i];
      } else {
        AtWraps(m.kHead, p, i - p, m.log);
        assert m'.Indices()[i] == Slots(m.array_, m.kTail, n)[i - p];
      }
    }
    assert m'.View().published == m.View().published + m.View().unpublished;
  }

  class Ring {
    const logEntries: nat
    const entries: nat
    const mask: nat
    const kArray: array<nat>
    const sqes: array<SQEntry>
    var kHead: uint32
    var kTail: uint32
    var sqeHead: uint32
    var sqeTail: uint32
    ghost var consumed: seq<SQEntry>

    ghost function Mem(): Memory
      reads this, kArray, sqes
    {
      Memory(logEntries, kArray[..], sqes[..], kHead, kTail, sqeTail, consumed)
    }

    /** What holds at every moment, also in the middle of an operation. */
    ghost predicate Inv()
      reads this, kArray, sqes
    {
      Mem().Inv() && entries == sqes.Length && mask == entries - 1
    }

    /** What holds between operations. */
    ghost predicate Valid()
      reads this, kArray, sqes
    {
      Inv() && kTail == sqeHead
    }

    ghost function View(): SubQueue<SQEntry>
      requires Inv()
      reads this, kArray, sqes
    {
      Mem().View()
    }

    /** A fresh ring of `2^k` entries, with the counters at any value the kernel may start them from. */
    constructor (k: nat, start: uint32, zero: SQEntry)
      requires k <= 15
      ensures Valid() && fresh(kArray) && fresh(sqes)
      ensures View() == SubQueue(Pow2(k), [], [], [])
    {
      Pow2Add(k, 15 - k);
      logEntries := k;
      entries := Pow2(k);
      mask := Pow2(k) - 1;
      kArray := new nat[Pow2(k)];
      sqes := new SQEntry[Pow2(k)](_ => zero);
      kHead, kTail, sqeHead, sqeTail := start, start, start, start;
      consumed := [];
      new;
      assert Pow2(15) == 0x8000;
      assert Pow2(k) * 1 <= Pow2(k) * Pow2(15 - k);
    }

    /** `c & mask`: the slot named by counter `c`. */
    method Index(c: uint32) returns (i: nat)
      requires Inv()
      ensures i == At(c, 0, entries)
    {
      MaskIsMod(c, logEntries);
      i := BitAnd(c, mask);
    }

    /** The kernel takes up to `n` published entries, in ring order. */
    method Kernel(n: nat)
      requires Inv()
      modifies this`kHead, this`consumed
      ensures Inv()
      ensures View() == old(View()).Drain(n)
    {
      hide At, Memory.View;
      var i := 0;
      while i < n && kHead != kTail
        invariant 0 <= i <= n
        invariant Inv() && View() == old(View()).Drain(i)
      {
        ghost var m := Mem();
        var at := Index(kHead);
        consumed := consumed + [sqes[kArray[at]]];
        kHead := Add32(kHead, 1);
        TakeOne(m, Mem());
        DrainTwice(old(View()), i, 1);
        i := i + 1;
      }
      DrainDry(old(View()), i, n);
    }

    /**
     Hands out the slot for one more entry, unless the ring is full. The head is read first, so
     the entries the kernel takes meanwhile (`k` at most) do not count as free.
     */
    method NextSqe(k: nat) returns (slot: Option<nat>)
      requires Valid()
      modifies this`kHead, this`consumed, this`sqeTail
      ensures Valid()
      ensures slot.Some? <==> old(View()).Free() > 0
      ensures slot.None? ==> View() == old(View()).Drain(k)
      ensures slot.Some? ==>
                && old(Mem()).Spare(slot.value)
                && slot.value == Mem().LastSlot()
                && View() == old(View()).Enqueue(sqes[slot.value]).Drain(k)
    {
      hide At, Memory.View, Memory.Inv, SubQueue.Drain, SubQueue.Enqueue;
      ghost var m := Mem();
      var head := kHead;
      Kernel(k);
      var next := Add32(sqeTail, 1);
      if Sub32(next, head) <= entries {
        var idx := Index(sqeTail);
        ghost var m' := Mem();
        ReserveOne(m, m.(sqeTail := next));
        ReserveOne(m', m'.(sqeTail := next));
        sqeTail := next;
        EnqueueDuringDrain(m.View(), k, sqes[idx]);
        slot := Some(idx);
      } else {
        slot := None;
      }
    }

    /** `op.PrepSQE(sqe)` on the slot of the newest entry. */
    method PrepLast(slot: nat, op: Operation)
      requires Inv() && View().unpublished != [] && slot == Mem().LastSlot()
      modifies sqes
      ensures Inv() && sqes[slot] == Entry(op, 0, 0)
      ensures View() == old(View()).SetLast(Entry(op, 0, 0))
    {
      hide At, Memory.View, Memory.Inv;
      ghost var m := Mem();
      PrepSqe(sqes, slot, op);
      RewriteLast(m, Mem(), Entry(op, 0, 0));
    }

    /** One field assignment through the pointer to the newest entry, whose new value is `e`. */
    method StoreLast(slot: nat, e: SQEntry)
      requires Inv() && View().unpublished != [] && slot == Mem().LastSlot()
      modifies sqes
      ensures Inv() && sqes[slot] == e
      ensures View() == old(View()).SetLast(e)
    {
      hide At, Memory.View, Memory.Inv;
      ghost var m := Mem();
      sqes[slot] := e;
      assert sqes[..] == old(sqes[..])[slot := e];
      RewriteLast(m, Mem(), e);
    }

    /** Fills the slot just handed out while the kernel goes on taking older entries. */
    method FillLast(slot: nat, op: Operation, flags: nat, userData: uint64, k: seq<nat>)
      requires Inv() && View().unpublished != [] && slot == Mem().LastSlot() && |k| == 3
      modifies this`kHead, this`consumed, sqes
      ensures Inv()
      ensures View() == old(View()).SetLast(Entry(op, flags, userData)).Drain(k[0] + k[1] + k[2])
    {
      hide At, Memory.View, Memory.Inv, SubQueue.Drain, SubQueue.SetLast;
      ghost var q := View();
      PrepLast(slot, op);
      Kernel(k[0]);
      SetLastAfterDrain(q, Entry(op, 0, 0), k[0], Entry(op, flags, 0));
      StoreLast(slot, sqes[slot].(flags := flags));
      Kernel(k[1]);
      DrainTwice(q.SetLast(Entry(op, flags, 0)), k[0], k[1]);
      SetLastAfterDrain(q, Entry(op, flags, 0), k[0] + k[1], Entry(op, flags, userData));
      StoreLast(slot, sqes[slot].(userData := userData));
      Kernel(k[2]);
      DrainTwice(q.SetLast(Entry(op, flags, userData)), k[0] + k[1], k[2]);
    }

    /**
     Queues one operation. With `k` the most entries the kernel takes at each point where it can
     step in, the effect is that of one atomic enqueue: what the kernel will read is fixed by the
     operation, flags and user data alone.
     */
    method QueueSqe(op: Operation, flags: nat, userData: uint64, k: seq<nat>) returns (ok: bool)
      requires Valid() && |k| == 4
      modifies this`kHead, this`consumed, this`sqeTail, sqes
      ensures Valid()
      ensures ok <==> old(View()).Free() > 0
      ensures ok ==> View() == old(View()).Enqueue(Entry(op, flags, userData)).Drain(k[0] + k[1] + k[2] + k[3])
      ensures !ok ==> View() == old(View()).Drain(k[0])
      // among all entries ever queued the new one is the last, and it holds the operation completely
      ensures ok ==>
                var h := View().History();
                h != [] && Holds(h[|h| - 1], op, flags, userData) && h[..|h| - 1] == old(View()).History()
    {
      hide At, Memory.View, Memory.Inv, SubQueue.Drain, SubQueue.SetLast, SubQueue.Enqueue;
      ghost var q := View();
      var slot := NextSqe(k[0]);
      if slot.None? {
        return false;
      }
      SetLastOfEnqueued(q, sqes[slot.value], k[0], Entry(op, flags, userData));
      FillLast(slot.value, op, flags, userData, k[1..]);
      DrainTwice(q.Enqueue(Entry(op, flags, userData)), k[0], k[1] + k[2] + k[3]);
      HistoryGrows(q, Entry(op, flags, userData));
      HistoryKept(q.Enqueue(Entry(op, flags, userData)), k[0] + k[1] + k[2] + k[3]);
      EntryHolds(op, flags, userData);
      ok := true;
    }

    /** One turn of the flush loop, after `done` turns: writes the index of the next entry to publish. */
    method WriteIndex(tail: uint32, done: uint32, k: nat)
      requires Inv() && Indexed(Mem(), done) && Mem().Published() + done < Mem().Used()
      requires tail == sqeHead == Add32(kTail, done)
      modifies this`kHead, this`consumed, this`sqeHead, kArray
      ensures Inv() && Indexed(Mem(), done + 1)
      ensures sqeHead == Add32(old(sqeHead), 1)
      ensures View() == old(View()).Drain(k)
    {
      hide At, Memory.View, Memory.Inv, SubQueue.Drain;
      ghost var m := Mem();
      var at := Index(tail);
      var value := Index(sqeHead);
      kArray[at] := value;
      sqeHead := Add32(sqeHead, 1);
      IndexOne(m, Mem(), done);
      Kernel(k);
    }

    /**
     Publishes what is queued and returns how many published entries the kernel has still to take.
     The kernel may take entries between any two steps: `before[i]` at most after the i-th index is
     written (it took `early` in all), and `after` at most once the new tail is stored.
     */
    method FlushSq(before: seq<nat>, after: nat) returns (toSubmit: uint32, ghost early: nat)
      requires Valid()
      modifies this`kHead, this`consumed, this`kTail, this`sqeHead, kArray
      ensures Valid()
      ensures View() == old(View()).Drain(early).Publish().Drain(after)
      ensures toSubmit == |View().published|
      // with nothing new to publish the index array is not written
      ensures old(View()).unpublished == [] ==> kArray[..] == old(kArray[..])
    {
      hide At, Memory.View, Memory.Inv, SubQueue.Drain;
      var tail := kTail;
      var subCnt := Sub32(sqeTail, sqeHead);
      early := 0;
      DrainNothing(View());
      if subCnt == 0 {
        assert View().Publish() == View();
        Kernel(after);
        return Sub32(tail, kHead), 0;
      }
      var i := subCnt;
      while i > 0
        invariant Inv() && kTail == old(kTail)
        invariant i <= subCnt && Indexed(Mem(), subCnt - i)
        invariant tail == sqeHead == Add32(kTail, subCnt - i)
        invariant View() == old(View()).Drain(early)
      {
        var k := if subCnt - i < |before| then before[subCnt - i] else 0;
        WriteIndex(tail, subCnt - i, k);
        tail := Add32(tail, 1);
        i := i - 1;
        DrainTwice(old(View()), early, k);
        early := early + k;
      }
      ghost var m := Mem();
      kTail := tail;
      PublishAll(m, Mem(), subCnt);
      Kernel(after);
      toSubmit := Sub32(tail, kHead);
    }

    /**
     Publishes what is queued and, unless a polling kernel thread is awake, enters the kernel, which
     takes at most the number of entries asked for (`taken`) and may then report an error.
     */
    method Submit(sqPoll: bool, needWakeup: bool, before: seq<nat>, after: nat, taken: nat, reply: EnterReply)
      returns (result: EnterReply, asked: Option<nat>, ghost early: nat)
      requires Valid()
      modifies this`kHead, this`consumed, this`kTail, this`sqeHead, kArray
      ensures Valid()
      ensures View().unpublished == [] && View().History() == old(View()).History()
      ensures old(View()).unpublished == [] ==> kArray[..] == old(kArray[..])
      ensures asked.Some? <==> !sqPoll || needWakeup
      ensures
        var flushed := old(View()).Drain(early).Publish().Drain(after);
        if asked.Some? then
          asked.value == |flushed.published| && result == reply && View() == flushed.Drain(Min(taken, asked.value))
        else
          result == Entered(|flushed.published|) && View() == flushed
    {
      hide At, Memory.View, Memory.Inv, SubQueue.Drain;
      var flushed;
      flushed, early := FlushSq(before, after);
      ghost var q := old(View()).Drain(early);
      HistoryKept(old(View()), early);
      HistoryKept(q, 0);
      HistoryKept(q.Publish(), after);
      if sqPoll && !needWakeup {
        return Entered(flushed), None, early;
      }
      HistoryKept(View(), Min(taken, flushed));
      Kernel(Min(taken, flushed));
      return reply, Some(flushed), early;
    }
  }

  /** What io_uring_enter returns: a count, or an errno. */
  datatype EnterReply = Entered(count: nat) | Failed(errno: nat)

  /** One step of an application or of the kernel. */
  datatype Act =
    | Queue(op: Operation, flags: nat, userData: uint64, k: seq<nat>)
    | Submit(sqPoll: bool, needWakeup: bool, before: seq<nat>, after: nat, taken: nat, reply: EnterReply)
    | Take(n: nat)

  /** The entries of the queue operations that succeeded, in order. */
  function Accepted(script: seq<Act>, ok: seq<bool>): seq<SQEntry>
    requires |script| == |ok|
  {
    if script == [] then []
    else
      var last := |script| - 1;
      Accepted(script[..last], ok[..last]) +
      (if script[last].Queue? && ok[last]
       then [Entry(script[last].op, script[last].flags, script[last].userData)] else [])
  }

  /** Each accepted entry holds, completely, an operation that was queued. */
  lemma {:induction false} AcceptedHolds(script: seq<Act>, ok: seq<bool>, p: nat) returns (i: nat)
    requires |script| == |ok| && p < |Accepted(script, ok)|
    ensures i < |script| && script[i].Queue? && ok[i]
    ensures Holds(Accepted(script, ok)[p], script[i].op, script[i].flags, script[i].userData)
    ensures p == |Accepted(script[..i], ok[..i])|
  {
    var last := |script| - 1;
    if p < |Accepted(script[..last], ok[..last])| {
      i := AcceptedHolds(script[..last], ok[..last], p);
      assert script[..last][..i] == script[..i] && ok[..last][..i] == ok[..i];
    } else {
      i := last;
      EntryHolds(script[i].op, script[i].flags, script[i].userData);
    }
  }

  /**
   Any run of the ring, from any counter values: what the kernel has consumed, followed by what it
   can still see and what is still private, is exactly the list of entries accepted, in order.
   */
  method RunScript(ring: Ring, script: seq<Act>) returns (ok: seq<bool>)
    requires ring.Valid()
    requires forall i :: 0 <= i < |script| && script[i].Queue? ==> |script[i].k| == 4
    modifies ring, ring.kArray, ring.sqes
    ensures ring.Valid() && |ok| == |script|
    ensures ring.View().History() == old(ring.View()).History() + Accepted(script, ok)
    ensures ring.View().consumed <= ring.View().History()
  {
    hide At, Memory.View, Memory.Inv, SubQueue.Drain, SubQueue.Enqueue;
    ok := [];
    for i := 0 to |script|
      invariant ring.Valid() && |ok| == i
      invariant ring.View().History() == old(ring.View()).History() + Accepted(script[..i], ok)
    {
      assert script[..i + 1][..i] == script[..i];
      ghost var q := ring.View();
      var accepted := true;
      match script[i] {
        case Queue(op, flags, userData, k) =>
          HistoryGrows(q, Entry(op, flags, userData));
          HistoryKept(q.Enqueue(Entry(op, flags, userData)), k[0] + k[1] + k[2] + k[3]);
          HistoryKept(q, k[0]);
          accepted := ring.QueueSqe(op, flags, userData, k);
        case Submit(sqPoll, needWakeup, before, after, taken, reply) =>
          var _, _, _ := ring.Submit(sqPoll, needWakeup, before, after, taken, reply);
        case Take(n) =>
          HistoryKept(q, n);
          ring.Kernel(n);
      }
      ok := ok + [accepted];
      assert ok[..i] == ok[..|ok| - 1];
    }
    assert script[..|script|] == script;
  }
}
