/**
 The completion ring and the operations that read it.

 The kernel runs concurrently: it posts events, and it moves its backlog to the ring whenever some thread enters
 it. Wherever it can do so in the middle of an operation, what it does there is a parameter, a
 sequence of kernel steps, so a contract that holds for all of them holds for every interleaving.
 What an operation says about the queue it says about the moment at which it loads the tail or the overflow flag;
 a ghost result names that moment where it is not the call or the return. A pointer to a completion entry is its
 slot number.
 */
module CompletionRing {
  import opened Words
  import opened Entries
  import opened RingSlots
  import opened CompletionSpec

  /** A snapshot of the ring's memory; there are `2^log` slots. */
  datatype Memory = Memory(
    log: nat, cqes: seq<CQEvent>, kHead: uint32, kTail: uint32, backlog: seq<CQEvent>, seen: seq<CQEvent>)
  {
    function Ready(): nat {
      Sub32(kTail, kHead)
    }

    ghost predicate Inv()
      ensures Inv() ==> 0 < |cqes| <= 0x10000 && Ready() <= |cqes|
    {
      && log <= 16
      && |cqes| == Pow2(log)
      && 0 < |cqes| <= 0x10000
      && Ready() <= |cqes|
    }

    ghost function View(): (q: CompQueue)
      requires Inv()
      ensures q.Valid() && q.capacity == |cqes| && |q.ready| == Ready() && q.backlog == backlog
    {
      CompQueue(|cqes|, Slots(cqes, kHead, Ready()), backlog, seen)
    }
  }

  /** Writing the slot at the tail and advancing the tail appends one event. */
  lemma AppendOne(m: Memory, m': Memory, e: CQEvent)
    requires m.Inv() && m.Ready() < |m.cqes|
    requires m' == m.(cqes := m.cqes[At(m.kTail, 0, |m.cqes|) := e], kTail := Add32(m.kTail, 1))
    ensures m'.Inv()
    ensures m'.View() == m.View().(ready := m.View().ready + [e])
  {
    hide At;
    var n := m.Ready();
    AtWraps(m.kHead, n, 0, m.log);
    SlotsAppend(m.cqes, m.kHead, n, e);
  }

  lemma AdvanceBy(m: Memory, m': Memory, n: uint32)
    requires m.Inv() && n <= m.Ready()
    requires m' == m.(kHead := Add32(m.kHead, n), seen := m.seen + m.View().ready[..n])
    ensures m'.Inv()
    ensures m'.View() == m.View().Advance(n)
  {
    hide At;
    SlotsAdvance(m.cqes, m.log, m.kHead, n, m.Ready() - n);
  }

  /** Advancing leaves no more events than there were if and only if it does not go past the tail. */
  lemma AdvanceIff(m: Memory, n: uint32)
    requires m.Inv()
    ensures m.(kHead := Add32(m.kHead, n)).Ready() <= m.Ready() <==> n <= m.Ready()
  {
  }

  /** While the head stays put and the ring only grows, the oldest events stay where they are. */
  lemma OldestStay(m: Memory, m': Memory, n: nat)
    requires m.Inv() && m'.Inv() && m.kHead == m'.kHead && |m.cqes| == |m'.cqes|
    requires n <= |m.View().ready| && m.View().ready <= m'.View().ready
    ensures forall j :: 0 <= j < n ==>
      var at := At(m.kHead, j, |m.cqes|); m'.cqes[at] == m.cqes[at] == m.View().ready[j] == m'.View().ready[j]
  {
    hide At;
  }

  lemma OldestAtHead(m: Memory)
    requires m.Inv() && m.View().ready != []
    ensures m.cqes[At(m.kHead, 0, |m.cqes|)] == m.View().ready[0]
  {
    hide At;
  }

  class Ring {
    const logEntries: nat
    const entries: nat
    const mask: nat
    const extArg: bool
    const cqes: array<CQEvent>
    var kHead: uint32
    var kTail: uint32
    var backlog: seq<CQEvent>
    ghost var seen: seq<CQEvent>
    /** Every io_uring_enter so far. */
    ghost var asked: seq<Asked>

    ghost function Mem(): Memory
      reads this, cqes
    {
      Memory(logEntries, cqes[..], kHead, kTail, backlog, seen)
    }

    ghost predicate Valid()
      reads this, cqes
    {
      Mem().Inv() && entries == cqes.Length && mask == entries - 1
    }

    ghost function View(): CompQueue
      requires Valid()
      reads this, cqes
    {
      Mem().View()
    }

    constructor (k: nat, extArg: bool, start: uint32, zero: CQEvent)
      requires k <= 16
      ensures Valid() && fresh(cqes) && this.extArg == extArg
      ensures View() == CompQueue(Pow2(k), [], [], [])
    {
      Pow2Add(k, 16 - k);
      logEntries := k;
      entries := Pow2(k);
      mask := Pow2(k) - 1;
      this.extArg := extArg;
      cqes := new CQEvent[Pow2(k)](_ => zero);
      kHead, kTail := start, start;
      backlog, seen, asked := [], [], [];
      new;
      assert Pow2(8) == 256;
      Pow2Add(8, 8);
      assert Pow2(k) * 1 <= Pow2(k) * Pow2(16 - k);
    }

    /** `c & mask`: the slot named by counter `c`. */
    method Index(c: uint32) returns (i: nat)
      requires Valid()
      ensures i == At(c, 0, entries)
    {
      MaskIsMod(c, logEntries);
      i := BitAnd(c, mask);
    }

    /** The overflow flag: set while the kernel holds events for which the ring had no room. */
    function CqNeedFlush(): bool
      reads this
    {
      backlog != []
    }

    /** The kernel posts one event. Events already in the ring stay in place, unchanged. */
    method Post(e: CQEvent)
      requires Valid()
      modifies this`kTail, this`backlog, cqes
      ensures Valid()
      ensures View() == old(View()).Post(e)
    {
      hide At;
      if Sub32(kTail, kHead) < entries {
        ghost var m := Mem();
        var at := Index(kTail);
        cqes[at] := e;
        kTail := Add32(kTail, 1);
        AppendOne(m, Mem(), e);
      } else {
        backlog := backlog + [e];
      }
    }

    /** The kernel moves its oldest backlogged event to the ring. */
    method FlushOne()
      requires Valid() && backlog != [] && Sub32(kTail, kHead) < entries
      modifies this`kTail, this`backlog, cqes
      ensures Valid()
      ensures View() == old(View()).Move(1)
    {
      hide At;
      ghost var m := Mem();
      var at := Index(kTail);
      cqes[at] := backlog[0];
      kTail := Add32(kTail, 1);
      AppendOne(m, Mem(), backlog[0]);
      backlog := backlog[1..];
      assert m.backlog[..1] == [m.backlog[0]];
    }

    /** Inside io_uring_enter the kernel moves its backlog to the ring, as far as there is room. */
    method FlushBacklog()
      requires Valid()
      modifies this`kTail, this`backlog, cqes
      ensures Valid()
      ensures View() == old(View()).FlushBacklog()
    {
      hide At, Memory.Inv, Memory.View;
      ghost var q, n := View(), 0;
      assert q.Move(0) == q;
      while backlog != [] && Sub32(kTail, kHead) < entries
        invariant Valid() && n <= |q.backlog| && View() == q.Move(n)
        decreases |backlog|
      {
        MoveOneMore(q, n);
        FlushOne();
        n := n + 1;
      }
    }

    /** Any kernel activity. */
    method Kernel(ks: seq<KernelStep>)
      requires Valid()
      modifies this`kTail, this`backlog, cqes
      ensures Valid()
      ensures View() == old(View()).Run(ks)
      ensures Grown(old(View()), View(), Posted(ks))
    {
      hide At, Memory.View, Memory.Inv, CompQueue.Post, CompQueue.FlushBacklog, CompQueue.Events, Grown;
      for i := 0 to |ks|
        invariant Valid() && View() == old(View()).Run(ks[..i])
      {
        assert ks[..i + 1][..i] == ks[..i];
        match ks[i] {
          case Posts(e) => Post(e);
          case Flushes => FlushBacklog();
        }
      }
      assert ks[..|ks|] == ks;
      RunGrows(old(View()), ks);
    }

    /** Moves the head by `n`, which dequeues `n` events if there are as many (see AdvanceIff). */
    method AdvanceCq(n: uint32)
      requires Valid()
      modifies this`kHead, this`seen
      ensures kHead == Add32(old(kHead), n)
      ensures n <= |old(View()).ready| ==> Valid() && View() == old(View()).Advance(n)
    {
      hide At;
      ghost var m := Mem();
      kHead := Add32(kHead, n);
      if n <= |m.View().ready| {
        seen := seen + m.View().ready[..n];
        AdvanceBy(m, Mem(), n);
      }
    }

    /** The loop of peekCQEventBatch: pointers to the `n` slots from the head on. */
    method FillPointers(buff: array<nat>, n: uint32)
      requires Valid() && n <= buff.Length && n <= entries
      modifies buff
      ensures forall j :: 0 <= j < n ==> buff[j] == At(kHead, j, entries)
      ensures forall i, j :: 0 <= i < j < n ==> buff[i] != buff[j]
      ensures forall j :: n <= j < buff.Length ==> buff[j] == old(buff[j])
    {
      hide At, Memory.View;
      var head, i := kHead, 0;
      var last := Add32(head, n);
      while head != last
        invariant 0 <= i <= n && head == Add32(kHead, i)
        invariant forall j :: 0 <= j < i ==> buff[j] == At(kHead, j, entries)
        invariant forall j :: i <= j < buff.Length ==> buff[j] == old(buff[j])
        decreases n - i
      {
        AtWraps(kHead, i, 0, logEntries);
        buff[i] := Index(head);
        head, i := Add32(head, 1), i + 1;
      }
      forall i, j | 0 <= i < j < n
        ensures At(kHead, i, entries) != At(kHead, j, entries)
      {
        AtDiffers(kHead, i, j, entries);
      }
    }

    /** `buff[..n]` points to the `n` oldest ready events, in order and without repetition. */
    ghost predicate PointsToOldest(buff: array<nat>, n: nat)
      requires Valid()
      reads this, cqes, buff
    {
      && n <= buff.Length && n <= |View().ready|
      && (forall j :: 0 <= j < n ==> buff[j] == At(kHead, j, entries) && cqes[buff[j]] == View().ready[j])
      && (forall i, j :: 0 <= i < j < n ==> buff[i] != buff[j])
    }

    /**
     Fills `buff` with pointers to the oldest ready events and returns how many. The kernel goes on after the tail
     has been read. The pointers name different slots, and through them the application reads
     exactly the oldest events, in order, until it advances past them (see PeekedStays).
     */
    method PeekBatch(buff: array<nat>, ks: seq<KernelStep>) returns (n: nat)
      requires Valid()
      modifies buff, this`kTail, this`backlog, cqes
      ensures Valid()
      ensures View() == old(View()).Run(ks) && Grown(old(View()), View(), Posted(ks))
      ensures n == Min(buff.Length % WORD32, |old(View()).ready|)
      ensures PointsToOldest(buff, n)
      ensures forall j :: n <= j < buff.Length ==> buff[j] == old(buff[j])
    {
      hide At, CompQueue.Events;
      var ready := Sub32(kTail, kHead);
      Kernel(ks);
      n := Min(buff.Length % WORD32, ready);
      if ready != 0 {
        FillPointers(buff, n);
      }
    }

    /** A peeked event cannot be changed by the kernel: whatever it does, the pointers stay good. */
    method PeekedStays(buff: array<nat>, n: nat, ks: seq<KernelStep>)
      requires Valid() && PointsToOldest(buff, n)
      modifies this`kTail, this`backlog, cqes
      ensures Valid() && PointsToOldest(buff, n)
      ensures Grown(old(View()), View(), Posted(ks))
      ensures View().ready[..n] == old(View()).ready[..n]
      ensures forall j :: 0 <= j < n ==> cqes[buff[j]] == old(cqes[buff[j]])
    {
      hide At, Memory.View, Memory.Inv, CompQueue.Events, CompQueue.Run;
      ghost var m := Mem();
      Kernel(ks);
      OldestStay(m, Mem(), n);
    }

    /** The kernel is entered: it goes on, flushes its backlog if it is asked to and can, and goes on. */
    method EnterKernel(ghost ask: Asked, before: seq<KernelStep>, flush: bool, after: seq<KernelStep>)
      returns (ghost posted: multiset<CQEvent>)
      requires Valid()
      modifies this`kTail, this`backlog, this`asked, cqes
      ensures asked == old(asked) + [ask]
      ensures Valid() && Grown(old(View()), View(), posted)
      ensures flush && old(View()).backlog != [] ==> View().ready != []
      ensures before == [] && after == [] ==> posted == multiset{}
    {
      hide At, Memory.View, Memory.Inv, CompQueue.Events, CompQueue.Run, CompQueue.FlushBacklog;
      ghost var q := View();
      asked := asked + [ask];
      Kernel(before);
      posted := Posted(before);
      if flush {
        ghost var v := View();
        FlushGrows(v);
        FlushBacklog();
        GrownTwice(q, v, View(), posted, multiset{});
        assert posted + multiset{} == posted;
        FlushLeaves(v);
        if q.backlog != [] {
          FlushFinds(q, View(), posted);
        }
      }
      ghost var v := View();
      Kernel(after);
      GrownTwice(q, v, View(), posted, Posted(after));
      posted := posted + Posted(after);
      RunNothing(q);
    }

    /**
     PeekBatch, and if it finds nothing a look at the overflow flag, a flush of the kernel's backlog if it is up (the
     error of that enter is ignored), and another PeekBatch. `tested` is the queue when the flag is read.
     */
    method PeekCqEventBatch(buff: array<nat>, turn: PeekTurn)
      returns (n: nat, ghost posted: multiset<CQEvent>, ghost tested: CompQueue)
      requires Valid()
      modifies buff, this`kTail, this`backlog, this`asked, cqes
      ensures Valid() && PointsToOldest(buff, n)
      ensures Grown(old(View()), View(), posted)
      // the kernel is entered, for events only, exactly if the first look finds nothing and the flag is up
      ensures
        var flushes := Min(buff.Length % WORD32, |old(View()).ready|) == 0 && tested.backlog != [];
        asked == old(asked) + (if flushes then [Asked(0, 0, true)] else [])
      ensures Min(buff.Length % WORD32, |old(View()).ready|) > 0 ==> n == Min(buff.Length % WORD32, |old(View()).ready|)
      // an empty batch: nothing was ready, and there was no backlog when the flag was read, or the flush failed
      ensures n == 0 && buff.Length % WORD32 > 0 ==>
                && old(View()).ready == [] && Later(old(View()), tested) && Later(tested, View())
                && (tested.backlog == [] || !turn.flushes)
      ensures turn == QUIET ==>
                && posted == multiset{}
                && (n == 0 && buff.Length % WORD32 > 0 ==> View().ready == [] && View().backlog == [])
    {
      hide At, Memory.View, Memory.Inv, CompQueue.Events, CompQueue.Run, CompQueue.FlushBacklog, Grown, Later,
        PointsToOldest;
      ghost var q := View();
      RunNothing(q);
      n := PeekBatch(buff, turn.first);
      posted := Posted(turn.first);
      tested := View();
      GrownIsLater(q, tested, posted);
      LaterSame(tested);
      if n == 0 {
        ghost var v := View();
        Kernel(turn.testing);
        GrownTwice(q, v, View(), posted, Posted(turn.testing));
        posted := posted + Posted(turn.testing);
        tested := View();
        GrownIsLater(q, tested, posted);
        LaterSame(tested);
        PointsToNone(buff);
        if CqNeedFlush() {
          ghost var more := EnterKernel(Asked(0, 0, true), turn.entering, turn.flushes, turn.leaving);
          v := View();
          n := PeekBatch(buff, turn.second);
          GrownTwice(tested, v, View(), more, Posted(turn.second));
          GrownIsLater(tested, View(), more + Posted(turn.second));
          GrownTwice(q, tested, View(), posted, more + Posted(turn.second));
          posted := posted + (more + Posted(turn.second));
        }
      }
      if turn == QUIET && n == 0 && buff.Length % WORD32 > 0 {
        QuietGrows(tested, View(), multiset{});
      }
    }

    lemma PointsToNone(buff: array<nat>)
      requires Valid()
      ensures PointsToOldest(buff, 0)
    {
    }

    /** Reads the peeked events one after the other, in order; the kernel takes `during[j]` before the j-th read. */
    method ReadBatch(buff: array<nat>, n: nat, during: seq<seq<KernelStep>>)
      returns (es: seq<CQEvent>, ghost posted: multiset<CQEvent>)
      requires Valid() && PointsToOldest(buff, n)
      modifies this`kTail, this`backlog, cqes
      ensures Valid() && PointsToOldest(buff, n)
      ensures es == old(View()).ready[..n] && Grown(old(View()), View(), posted)
      ensures during == [] ==> posted == multiset{}
    {
      hide At, Memory.View, Memory.Inv, CompQueue.Events, CompQueue.Run, Grown;
      ghost var q := View();
      es, posted := [], multiset{};
      GrownNot(q);
      for j := 0 to n
        invariant Valid() && PointsToOldest(buff, n) && Grown(q, View(), posted)
        invariant View().ready[..n] == q.ready[..n] && es == q.ready[..j]
        invariant during == [] ==> posted == multiset{}
      {
        ghost var v := View();
        var ks := if j < |during| then during[j] else [];
        PeekedStays(buff, n, ks);
        GrownTwice(q, v, View(), posted, Posted(ks));
        posted := posted + Posted(ks);
        RunNothing(q);
        assert cqes[buff[j]] == View().ready[..n][j];
        es := es + [cqes[buff[j]]];
      }
    }

    /** One delivery: the peeked batch is read and then dequeued, while the kernel goes on. */
    method TakeBatch(buff: array<nat>, n: nat, during: seq<seq<KernelStep>>, advancing: seq<KernelStep>)
      returns (es: seq<CQEvent>, ghost posted: multiset<CQEvent>)
      requires Valid() && PointsToOldest(buff, n)
      modifies this`kHead, this`seen, this`kTail, this`backlog, cqes
      ensures Valid() && |es| == n && es == old(View()).ready[..n]
      ensures View().seen == old(View()).seen + es && old(View()).Entered() <= View().Entered()
      ensures View().Events() == old(View()).Events() + posted
      ensures during == [] && advancing == [] ==> posted == multiset{}
    {
      hide At, Memory.View, CompQueue.Events, CompQueue.Run;
      ghost var q := View();
      es, posted := ReadBatch(buff, n, during);
      ghost var v := View();
      PeekedStays(buff, n, advancing);
      GrownTwice(q, v, View(), posted, Posted(advancing));
      posted := posted + Posted(advancing);
      RunNothing(q);
      AdvanceKeeps(View(), n);
      AdvanceCq(n);
    }

    /** One turn of the delivery loop: take the batch of `n` events and peek the next, of `next` events. */
    method NextBatch(buff: array<nat>, n: nat, turn: BatchTurn)
      returns (es: seq<CQEvent>, next: nat, ghost posted: multiset<CQEvent>)
      requires Valid() && buff.Length % WORD32 > 0 && PointsToOldest(buff, n)
      modifies this`kHead, this`seen, this`kTail, this`backlog, this`asked, cqes, buff
      ensures Valid() && |es| == n && PointsToOldest(buff, next)
      ensures Delivered(old(View()), View(), es, posted, next)
      ensures turn == QUIET_BATCH ==>
                && posted == multiset{}
                && |View().ready| + |View().backlog| + n == old(|View().ready| + |View().backlog|)
                && (next == 0 ==> View().ready == [] && View().backlog == [])
    {
      hide At, Memory.View, Memory.Inv, CompQueue.Events, CompQueue.Entered, Grown, Delivered, Later;
      ghost var q := View();
      es, posted := TakeBatch(buff, n, turn.during, turn.advancing);
      ghost var u := View();
      Kernel(turn.advanced);
      GrownAfter(q, u, View(), es, posted, Posted(turn.advanced));
      posted := posted + Posted(turn.advanced);
      RunNothing(u);
      ghost var v := View();
      ghost var more, tested;
      next, more, tested := PeekCqEventBatch(buff, turn.peek);
      DeliveredBatch(q, v, View(), es, posted, more, next);
      posted := posted + more;
    }

    /**
     The event loop's way of emptying the ring: peek a batch, process it, advance past it, until a peek
     finds nothing. `first` and `turns[i]` are what the kernel does meanwhile, also while a batch is being
     processed. Every event that was ready is delivered, in ring order; whatever is delivered is delivered once;
     and no event is lost. If the kernel does nothing but flush, everything is delivered, its backlog included.
     */
    method DeliverAll(buff: array<nat>, first: PeekTurn, turns: seq<BatchTurn>)
      returns (delivered: seq<CQEvent>, ghost posted: multiset<CQEvent>)
      requires Valid() && buff.Length % WORD32 > 0
      modifies this`kHead, this`seen, this`kTail, this`backlog, this`asked, cqes, buff
      ensures Valid()
      ensures View().seen == old(View()).seen + delivered
      ensures old(View()).ready <= delivered
      ensures View().Events() == old(View()).Events() + posted
      ensures first == QUIET && turns == [] ==> posted == multiset{} && View().ready == [] && View().backlog == []
    {
      hide At, Memory.View, Memory.Inv, CompQueue.Events, CompQueue.Entered, PointsToOldest, Grown, Delivered, Later;
      ghost var q := View();
      delivered := [];
      var i := 0;
      var n;
      ghost var tested;
      n, posted, tested := PeekCqEventBatch(buff, first);
      DeliveredBatch(q, q, View(), [], multiset{}, posted, n);
      assert multiset{} + posted == posted;
      while n > 0
        invariant Valid() && PointsToOldest(buff, n) && Delivered(q, View(), delivered, posted, n)
        invariant first == QUIET && turns == [] ==>
          posted == multiset{} && (n == 0 ==> View().ready == [] && View().backlog == [])
        decreases if i < |turns| then |turns| - i else 0, |View().ready| + |View().backlog|
      {
        ghost var v := View();
        var m := n;
        var es;
        ghost var more;
        es, n, more := NextBatch(buff, n, if i < |turns| then turns[i] else QUIET_BATCH);
        i := i + 1;
        DeliveredTwice(q, v, View(), delivered, es, posted, more, m, n);
        delivered := delivered + es;
        posted := posted + more;
      }
      AllDelivered(q, View(), delivered, posted);
    }

    /**
     One look at the ring: the tail is loaded when the queue is `at`, and the kernel goes on while the event is
     looked at. A completed internal timeout is dequeued.
     */
    method LookOnce(turn: LookTurn) returns (available: nat, look: Look, ghost at: CompQueue)
      requires Valid()
      modifies this`kHead, this`seen, this`kTail, this`backlog, cqes
      ensures Valid()
      ensures at == old(View()).Run(turn.before) && available == |at.ready| && (look.Empty? <==> at.ready == [])
      ensures
        var now := at.Run(turn.after);
        match look
        case Empty => View() == now
        case Event(slot) =>
          && View() == now && (extArg || !Internal(at.ready[0]))
          && slot == At(kHead, 0, entries) && cqes[slot] == at.ready[0]
        case Timeout(res) =>
          && now.ready != [] && View() == now.Advance(1)
          && !extArg && Internal(at.ready[0]) && res == at.ready[0].res
    {
      hide At, Memory.Inv, CompQueue.Events, CompQueue.Run;
      Kernel(turn.before);
      at := View();
      available := Sub32(kTail, kHead);
      Kernel(turn.after);
      if available == 0 {
        return available, Empty, at;
      }
      var slot := Index(kHead);
      if !extArg && cqes[slot].userData == LIB_USER_DATA_TIMEOUT {
        var res := cqes[slot].res;
        AdvanceCq(1);
        return available, Timeout(res), at;
      }
      return available, Event(slot), at;
    }

    /** `cqe` points to the oldest event in the ring, which is not an internal timeout. */
    ghost predicate Oldest(cqe: Option<nat>)
      requires Valid()
      reads this, cqes
    {
      && cqe.Some? && View().ready != []
      && cqe.value == At(kHead, 0, entries) && cqes[cqe.value] == View().ready[0]
      && (extArg || !Internal(View().ready[0]))
    }

    /**
     Returns the oldest event, after removing the completions of internal timeouts (see PeekOutcome), as of the last
     look, when the queue was `at`. The kernel does `turns[i]` around the i-th look at the ring.
     */
    method PeekCqe(turns: seq<LookTurn>) returns (available: nat, cqe: Option<nat>, err: int, ghost at: CompQueue)
      requires Valid()
      modifies this`kHead, this`seen, this`kTail, this`backlog, cqes
      ensures Valid()
      ensures Trimmed(old(View()), at, extArg) && Trimmed(old(View()), View(), extArg)
      ensures at.Entered() <= View().Entered()
      ensures
        var (removed, event, error) := OutcomeSince(old(View()).seen, at, extArg);
        && |View().seen| == |old(View()).seen| + removed
        && err == error && (cqe.Some? <==> event.Some?)
        && (cqe.Some? ==> Oldest(cqe) && cqes[cqe.value] == event.value)
      ensures err == 0 ==> Later(at, View()) && available == |at.ready| && (cqe.None? ==> available == 0)
    {
      hide At, Memory.Inv, Memory.View, CompQueue.Events, CompQueue.Run, CompQueue.Entered, SkippedSince, Trimmed,
        OutcomeSince, Later;
      ghost var q := View();
      var i := 0;
      assert SkippedSince(q.seen, q, 0) by { SkippedNone(q); }
      while true
        invariant Valid() && (extArg ==> i == 0)
        invariant q.Entered() <= View().Entered() && SkippedSince(q.seen, View(), i)
        decreases if i < |turns| then |turns| - i else 0, |View().ready|
      {
        var turn := if i < |turns| then turns[i] else LookTurn([], []);
        ghost var v := View();
        RunGrows(v, turn.before);
        RunNothing(v);
        var look;
        available, look, at := LookOnce(turn);
        ghost var now := at.Run(turn.after);
        RunGrows(at, turn.after);
        if look.Timeout? && look.res >= 0 {
          GrownTwice(v, at, now, Posted(turn.before), Posted(turn.after));
          PeekGoesOn(q, v, now, i, Posted(turn.before) + Posted(turn.after));
          i := i + 1;
        } else {
          PeekStops(q, v, at, now, i, Posted(turn.before), Posted(turn.after), extArg);
          GrownIsLater(at, now, Posted(turn.after));
          if look.Timeout? {
            return available, None, -look.res, at;
          }
          return available, if look.Event? then Some(look.at) else None, 0, at;
        }
      }
    }

    /** PeekCqe, as far as the wait loop needs to know: an event that is there is found. */
    method PeekFirst(turns: seq<LookTurn>) returns (available: nat, cqe: Option<nat>, err: int, ghost at: CompQueue)
      requires Valid()
      modifies this`kHead, this`seen, this`kTail, this`backlog, cqes
      ensures Valid() && Trimmed(old(View()), View(), extArg) && Trimmed(old(View()), at, extArg)
      ensures cqe.Some? ==> Oldest(cqe)
      ensures
        var (_, event, error) := OutcomeSince(old(View()).seen, at, extArg);
        err == error && (cqe.Some? <==> event.Some?) && (cqe.Some? ==> cqes[cqe.value] == event.value)
      ensures err != 0 ==> cqe.None? && !extArg && FailedTimeout(View(), err)
      ensures err == 0 ==> Later(at, View()) && available == |at.ready| && (cqe.None? ==> available == 0)
      ensures
        var (removed, event, _) := PeekOutcome(old(View()).ready, extArg);
        event.Some? ==> cqe.Some? && cqes[cqe.value] == event.value && available >= |old(View()).ready| - removed
    {
      hide At, Memory.View, Memory.Inv, CompQueue.Events, Trimmed, PeekOutcome, FailedTimeout, OutcomeSince;
      ghost var q := View();
      available, cqe, err, at := PeekCqe(turns);
      PeekedEnough(q, at, View(), extArg);
    }

    /**
     io_uring_enter. The kernel flushes its backlog if asked for events, and returns an error or how many submissions
     it consumed, at most those offered. If asked for events and offered nothing to submit, it returns without
     an error only once at least `minComplete` of them (or a full ring) are ready; a wait cut short is then an EINTR.
     If submissions were offered, a short submission or a wait cut short returns the count all the same.
     */
    method Enter(toSubmit: uint32, minComplete: uint32, getEvents: bool, turn: EnterTurn)
      returns (consumed: nat, err: int, ghost posted: multiset<CQEvent>)
      requires Valid()
      modifies this`kTail, this`backlog, this`asked, cqes
      ensures Valid() && Grown(old(View()), View(), posted)
      ensures asked == old(asked) + [Asked(toSubmit, minComplete, getEvents)]
      ensures err == 0 ==> consumed == Min(turn.consumed, toSubmit)
      ensures err == 0 && getEvents && toSubmit == 0 ==> |View().ready| >= Min(minComplete, entries)
      ensures err == 0 || err == EINTR || err == turn.errno
    {
      hide At, Memory.View, Memory.Inv, CompQueue.Events, CompQueue.Run;
      ghost var q := View();
      posted := EnterKernel(Asked(toSubmit, minComplete, getEvents), turn.entering, getEvents, turn.waiting);
      var enough := Sub32(kTail, kHead) >= Min(minComplete, entries);
      ghost var v := View();
      Kernel(turn.leaving);
      GrownTwice(q, v, View(), posted, Posted(turn.leaving));
      posted := posted + Posted(turn.leaving);
      if turn.errno != 0 {
        return 0, turn.errno, posted;
      }
      if getEvents && toSubmit == 0 && !enough {
        return 0, EINTR, posted;
      }
      return Min(turn.consumed, toSubmit), 0, posted;
    }

    /** What an error of the wait loop means; `left` and `waitNr` are still to be submitted and waited for. */
    ghost predicate Explained(
      cqe: Option<nat>, err: int, left: uint32, waitNr: uint32, turn: EnterTurn, looked: CompQueue, tested: CompQueue)
      requires Valid()
      reads this, cqes
    {
      // an internal timeout has failed
      || (cqe.None? && !extArg && FailedTimeout(View(), err))
      // there is nothing to do, was nothing to get when it looked, and no backlog when it read the flag
      || (&& cqe.None? && err == EAGAIN && waitNr == left == 0
          && looked.ready == [] && tested.backlog == [] && Later(looked, tested) && Later(tested, View()))
      // the kernel has failed
      || ((err == EINTR || err == turn.errno) && (left > 0 || waitNr > 0 || cqe.None?))
    }

    /** The kernel goes on while the application holds a pointer to the oldest event. */
    method Settle(cqe: Option<nat>, ks: seq<KernelStep>)
      requires Valid() && (cqe.Some? ==> Oldest(cqe))
      modifies this`kTail, this`backlog, cqes
      ensures Valid() && Grown(old(View()), View(), Posted(ks)) && Later(old(View()), View())
      ensures cqe.Some? ==> Oldest(cqe) && cqes[cqe.value] == old(cqes[cqe.value])
    {
      hide At, Memory.View, Memory.Inv, CompQueue.Events, CompQueue.Run;
      Kernel(ks);
      GrownIsLater(old(View()), View(), Posted(ks));
      if cqe.Some? {
        OldestAtHead(Mem());
      }
    }

    /**
     One round of the wait loop: a peek, which looks last when the queue is `looked`; a look at the overflow flag,
     when it is `tested`; and, unless the round ends before or with an error, an enter that leaves `rest` to submit.
     */
    method Round(left: uint32, waitNr: uint32, turn: EnterTurn)
      returns (r: WaitResult, entered: bool, rest: uint32, ghost looked: CompQueue, ghost tested: CompQueue)
      requires Valid()
      modifies this`kHead, this`seen, this`kTail, this`backlog, this`asked, cqes
      ensures Valid() && Trimmed(old(View()), View(), extArg) && Trimmed(old(View()), looked, extArg)
      // when the kernel is entered, and what for
      ensures
        var (_, event, error) := OutcomeSince(old(View()).seen, looked, extArg);
        var idle := event.None? && waitNr == 0 && left == 0;
        var getEvents := waitNr > |looked.ready| || idle;
        if error != 0 then asked == old(asked) && r == Returned(None, error)
        else if idle && tested.backlog == [] then asked == old(asked) && r == Returned(None, EAGAIN)
        else if left == 0 && !getEvents then asked == old(asked) && r.Returned? && r.err == 0
        else
          && asked == old(asked) + [Asked(left, waitNr, getEvents)]
          && (!entered ==> r.Returned? && r.err != 0)
          && (entered ==> if event.Some? then r.Returned? && r.err == 0 else r.StillWaiting?)
      ensures entered ==> asked != old(asked)
      ensures r.Returned? && r.err == 0 && left > 0 ==> entered
      ensures rest == if entered then left - Min(turn.consumed, left) else left
      ensures r.Returned? && r.cqe.Some? ==> Oldest(r.cqe)
      ensures r.Returned? && r.err == 0 ==>
                && r.cqe.Some?
                && (|View().ready| >= Min(waitNr, entries) || (entered && left > 0 && |looked.ready| < waitNr))
      ensures r.Returned? && r.err != 0 ==> !entered && Explained(r.cqe, r.err, left, waitNr, turn, looked, tested)
      ensures r.StillWaiting? ==> entered
      ensures
        var (removed, event, _) := PeekOutcome(old(View()).ready, extArg);
        event.Some? ==>
          && r.Returned? && r.cqe.Some? && cqes[r.cqe.value] == event.value
          && (left == 0 && waitNr <= |old(View()).ready| - removed ==> r.err == 0)
    {
      hide At, Memory.View, Memory.Inv, CompQueue.Events, CompQueue.Entered, CompQueue.Run, Trimmed, Grown,
        PeekOutcome, FailedTimeout, Later, OutcomeSince;
      ghost var q := View();
      rest := left;
      var available, cqe, err;
      available, cqe, err, looked := PeekFirst(turn.looks);
      tested := View();
      assert OutcomeSince(q.seen, looked, extArg).1.None? <==> cqe.None?;
      if err != 0 {
        return Returned(cqe, err), false, left, looked, tested;
      }
      ghost var v := View();
      Settle(cqe, turn.testing);
      tested := View();
      LaterTwice(looked, v, tested);
      LaterSame(tested);
      GrownIsTrimmed(v, tested, Posted(turn.testing), extArg);
      TrimmedTwice(q, v, tested, extArg);
      var flush := cqe.None? && waitNr == 0 && left == 0;
      if flush && !CqNeedFlush() {
        assert looked.ready == [];
        return Returned(cqe, EAGAIN), false, left, looked, tested;
      }
      LaterHasMore(looked, tested);
      var getEvents := waitNr > available || flush;
      if !getEvents && left == 0 {
        return Returned(cqe, 0), false, left, looked, tested;
      }
      var n;
      n, err := EnterFor(cqe, left, waitNr, getEvents, turn);
      LaterHasMore(tested, View());
      TrimmedTwice(q, tested, View(), extArg);
      if err != 0 {
        return Returned(cqe, err), false, left, looked, tested;
      }
      rest := Sub32(left, n);
      return if cqe.Some? then Returned(cqe, 0) else StillWaiting, true, rest, looked, tested;
    }

    /** Enter, while the application holds a pointer to the oldest event. */
    method EnterFor(cqe: Option<nat>, toSubmit: uint32, minComplete: uint32, getEvents: bool, turn: EnterTurn)
      returns (consumed: nat, err: int)
      requires Valid() && (cqe.Some? ==> Oldest(cqe))
      modifies this`kTail, this`backlog, this`asked, cqes
      ensures Valid() && Later(old(View()), View()) && Trimmed(old(View()), View(), extArg)
      ensures asked == old(asked) + [Asked(toSubmit, minComplete, getEvents)]
      ensures cqe.Some? ==> Oldest(cqe) && cqes[cqe.value] == old(cqes[cqe.value])
      ensures err == 0 ==> consumed == Min(turn.consumed, toSubmit)
      ensures err == 0 && getEvents && toSubmit == 0 ==> |View().ready| >= Min(minComplete, entries)
      ensures err == 0 || err == EINTR || err == turn.errno
    {
      hide At, Memory.View, Memory.Inv, CompQueue.Events, Trimmed, Later;
      ghost var posted;
      consumed, err, posted := Enter(toSubmit, minComplete, getEvents, turn);
      GrownIsLater(old(View()), View(), posted);
      GrownIsTrimmed(old(View()), View(), posted, extArg);
      if cqe.Some? {
        OldestAtHead(Mem());
      }
    }

    /**
     The wait loop: peek, and enter the kernel while there is something to submit or too little to return.
     `turns[i]` is the kernel's behaviour in the i-th round; if the call needs more rounds than
     that, it is still waiting. `left` is the remaining-submit counter, and `entered` the number of
     times the kernel was entered successfully; `looked` and `tested` are as in the last round.
     */
    method GetCqEvents(submit: uint32, waitNr: uint32, turns: seq<EnterTurn>)
      returns (r: WaitResult, left: uint32, ghost entered: nat, ghost looked: CompQueue, ghost tested: CompQueue)
      requires Valid()
      modifies this`kHead, this`seen, this`kTail, this`backlog, this`asked, cqes
      ensures Valid() && Trimmed(old(View()), View(), extArg)
      // each enter, the last of which may have failed, is offered exactly what is left, and asked for what is wanted
      ensures OffersRest(asked, old(asked), submit, waitNr, turns)
      ensures |asked| - |old(asked)| == entered || (|asked| - |old(asked)| == entered + 1 && r.Returned? && r.err != 0)
      // what is to be submitted is offered before anything is returned
      ensures r.Returned? && r.err == 0 && submit > 0 ==> entered > 0
      // the counter is what the kernel left to submit, and never underflows
      ensures entered <= |turns| && left == Remaining(submit, turns[..entered]) <= submit
      ensures r.StillWaiting? ==> entered == |turns|
      // a nil error comes only with the oldest event in the ring
      ensures r.Returned? && r.cqe.Some? ==> Oldest(r.cqe)
      ensures r.Returned? && r.err == 0 ==> r.cqe.Some?
      // and with as many events as asked for, unless the last enter was also offered submissions
      ensures r.Returned? && r.err == 0 ==>
                || |View().ready| >= Min(waitNr, entries)
                || (entered > 0 && Remaining(submit, turns[..entered - 1]) > 0 && |looked.ready| < waitNr)
      ensures r.Returned? && r.err == 0 && submit == 0 ==> |View().ready| >= Min(waitNr, entries)
      ensures r.Returned? && r.err != 0 ==>
                entered < |turns| && Explained(r.cqe, r.err, left, waitNr, turns[entered], looked, tested)
      // an event that is there is returned at once, without waiting for more
      ensures
        var (removed, event, _) := PeekOutcome(old(View()).ready, extArg);
        turns != [] && event.Some? ==>
          && r.Returned? && r.cqe.Some? && cqes[r.cqe.value] == event.value && entered <= 1
          && (submit == 0 && waitNr <= |old(View()).ready| - removed ==> r.err == 0)
    {
      hide At, Memory.View, Memory.Inv, CompQueue.Events, CompQueue.Entered, Trimmed, PeekOutcome, Later, Oldest,
        Explained, OutcomeSince;
      ghost var q := View();
      TrimmedNot(q, extArg);
      r, left, entered, looked, tested := StillWaiting, submit, 0, q, q;
      for i := 0 to |turns|
        invariant Valid() && r.StillWaiting? && entered == i && left == Remaining(submit, turns[..i])
        invariant |asked| == |old(asked)| + i && OffersRest(asked, old(asked), submit, waitNr, turns)
        invariant Trimmed(q, View(), extArg)
        invariant if i == 0 then View() == q else PeekOutcome(q.ready, extArg).1.None?
      {
        ghost var v := View();
        assert turns[..i + 1][..i] == turns[..i];
        var done;
        r, done, left, looked, tested := Round(left, waitNr, turns[i]);
        TrimmedTwice(q, v, View(), extArg);
        entered := if done then i + 1 else i;
        if r.Returned? {
          return;
        }
      }
      assert turns[..|turns|] == turns;
    }
  }

  /** One io_uring_enter: the submissions it offers, the events it waits for, and whether it asks for events. */
  datatype Asked = Asked(toSubmit: uint32, minComplete: uint32, getEvents: bool)

  /** The enters since `before` offered what the ones before them had left. */
  ghost predicate OffersRest(
    asked: seq<Asked>, before: seq<Asked>, submit: uint32, waitNr: uint32, turns: seq<EnterTurn>)
  {
    && before <= asked && |asked| - |before| <= |turns|
    && forall i :: |before| <= i < |asked| ==>
         asked[i].toSubmit == Remaining(submit, turns[..i - |before|]) && asked[i].minComplete == waitNr
  }

  /** What is left to submit after the kernel was entered in the given turns. */
  function Remaining(submit: uint32, turns: seq<EnterTurn>): (left: uint32)
    ensures left <= submit
  {
    if turns == [] then submit
    else
      var before := Remaining(submit, turns[..|turns| - 1]);
      before - Min(turns[|turns| - 1].consumed, before)
  }

  /**
   What the kernel does during one PeekCQEventBatch: after the first load of the tail, before the flag is read, on
   entering and leaving it, and after the second load; and whether the enter flushes.
   */
  datatype PeekTurn = PeekTurn(
    first: seq<KernelStep>, testing: seq<KernelStep>, entering: seq<KernelStep>, flushes: bool,
    leaving: seq<KernelStep>, second: seq<KernelStep>)

  /**
   What it does while a batch is processed, before each read, before the advance and after it, and during the next
   peek.
   */
  datatype BatchTurn = BatchTurn(
    during: seq<seq<KernelStep>>, advancing: seq<KernelStep>, advanced: seq<KernelStep>, peek: PeekTurn)

  /** What it does around one look at the ring. */
  datatype LookTurn = LookTurn(before: seq<KernelStep>, after: seq<KernelStep>)

  /** What one look at the ring finds. */
  datatype Look = Empty | Event(at: nat) | Timeout(res: int)

  /**
   What the kernel does during one round of a wait: around the looks, before the flag is read, on entering it, while
   the call waits, and on leaving; and its reply.
   */
  datatype EnterTurn = EnterTurn(
    looks: seq<LookTurn>, testing: seq<KernelStep>, entering: seq<KernelStep>, waiting: seq<KernelStep>,
    leaving: seq<KernelStep>, consumed: nat, errno: nat)

  datatype WaitResult = StillWaiting | Returned(cqe: Option<nat>, err: int)

  const EINTR := 4
  const EAGAIN := 11

  const QUIET := PeekTurn([], [], [], true, [], [])
  const QUIET_BATCH := BatchTurn([], [], [], QUIET)
}
