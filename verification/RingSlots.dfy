/**
 Reading a ring buffer: the `count` elements found from counter `head` on, in a buffer whose
 length is a power of two.
 */
module RingSlots {
  import opened Words

  /** The slot of a ring of `n` entries that lies `i` places after counter `head`. */
  function At(head: int, i: int, n: int): (slot: int)
    requires n > 0
    ensures 0 <= slot < n
  {
    (head + i) % n
  }

  lemma AtWraps(head: uint32, n: uint32, i: int, k: nat)
    requires k <= 32
    ensures At(Add32(head, n), i, Pow2(k)) == At(head, n + i, Pow2(k))
  {
    WrapSlot(head, n, i, k);
  }

  function Slots<T>(buf: seq<T>, head: int, count: nat): (s: seq<T>)
    requires |buf| > 0
    ensures |s| == count
    ensures forall i :: 0 <= i < count ==> s[i] == buf[At(head, i, |buf|)]
  {
    seq(count, i requires 0 <= i < count => buf[At(head, i, |buf|)])
  }

  /** Advancing a wrapping 32-bit head by `n` drops the first `n` elements. */
  lemma SlotsAdvance<T>(buf: seq<T>, k: nat, head: uint32, n: uint32, count: nat)
    requires k <= 32 && |buf| == Pow2(k)
    ensures Slots(buf, Add32(head, n), count) == Slots(buf, head, n + count)[n..]
  {
    hide At;
    var after, rest := Slots(buf, Add32(head, n), count), Slots(buf, head, n + count)[n..];
    forall i | 0 <= i < count
      ensures after[i] == rest[i]
    {
      AtWraps(head, n, i, k);
    }
  }

  /** Writing one place past the first `count` elements leaves them alone and appends the written value. */
  lemma SlotsAppend<T>(buf: seq<T>, head: int, count: nat, x: T)
    requires count < |buf|
    ensures Slots(buf[At(head, count, |buf|) := x], head, count + 1) == Slots(buf, head, count) + [x]
  {
    hide At;
    var buf' := buf[At(head, count, |buf|) := x];
    forall i | 0 <= i < count
      ensures Slots(buf', head, count + 1)[i] == Slots(buf, head, count)[i]
    {
      AtDiffers(head, i, count, |buf|);
    }
  }

  lemma AtDiffers(head: int, i: int, j: int, n: int)
    requires n > 0 && i < j < i + n
    ensures At(head, i, n) != At(head, j, n)
  {
    SlotsDiffer(head, i, j, n);
  }
}
