/**
 Machine words and the bit operations that go-uring applies to them.

 Go's `uint32` and `uint64` wrap around; here they are bounded subsets of `int` and the
 wrap-around is written out. The operators `&`, `|` and `<<` are defined bit by bit on
 naturals, and the lemmas say which arithmetic they amount to where the program uses them.
 */
module Words {

  const WORD32: nat := 0x1_0000_0000
  const WORD64: nat := 0x1_0000_0000_0000_0000

  type uint32 = x: int | 0 <= x < 0x1_0000_0000
  type uint64 = x: int | 0 <= x < 0x1_0000_0000_0000_0000

  function Add32(a: uint32, b: uint32): uint32 {
    if a + b < 0x1_0000_0000 then a + b else a + b - 0x1_0000_0000
  }

  function Sub32(a: uint32, b: uint32): uint32 {
    if a >= b then a - b else a - b + 0x1_0000_0000
  }

  function Min(a: int, b: int): int {
    if a < b then a else b
  }

  /** Bitwise `a & b`. */
  function BitAnd(a: nat, b: nat): nat {
    if a == 0 || b == 0 then 0
    else (a % 2) * (b % 2) + 2 * BitAnd(a / 2, b / 2)
  }

  /** Bitwise `a | b`. */
  function BitOr(a: nat, b: nat): nat {
    if a == 0 then b
    else if b == 0 then a
    else (if a % 2 == 1 || b % 2 == 1 then 1 else 0) + 2 * BitOr(a / 2, b / 2)
  }

  function Pow2(k: nat): nat
    ensures Pow2(k) > 0
  {
    if k == 0 then 1 else 2 * Pow2(k - 1)
  }

  lemma Pow2Add(i: nat, j: nat)
    ensures Pow2(i + j) == Pow2(i) * Pow2(j)
  {
    if i > 0 {
      Pow2Add(i - 1, j);
    }
  }

  lemma Pow2Is32()
    ensures Pow2(32) == WORD32
  {
    assert Pow2(8) == 256;
    Pow2Add(8, 8);
    Pow2Add(16, 16);
  }

  /** A multiple of `n` is at least `n` away from zero, unless it is zero. */
  lemma MultipleBounds(n: int, d: int)
    requires n > 0
    ensures d >= 1 ==> n * d >= n
    ensures d <= -1 ==> n * d <= -n
  {
  }

  /** Division with remainder is unique. */
  lemma DivModUnique(x: int, d: int, q: int, r: int)
    requires d > 0 && x == d * q + r && 0 <= r < d
    ensures x / d == q && x % d == r
  {
    MultipleBounds(d, q - x / d);
    assert d * (q - x / d) == d * q - d * (x / d);
  }

  /** Adding a multiple of the modulus changes nothing. */
  lemma ModPlusMultiple(x: int, d: int, m: int)
    requires d > 0
    ensures (x + d * m) % d == x % d
  {
    assert x + d * m == d * (x / d + m) + x % d;
    DivModUnique(x + d * m, d, x / d + m, x % d);
  }

  lemma HalfMod(c: nat, m: nat)
    requires m > 0
    ensures c % (2 * m) == c % 2 + 2 * (c / 2 % m)
  {
    var h := c / 2;
    var q, r := h / m, h % m;
    assert h == m * q + r;
    assert (2 * m) * q == 2 * (m * q);
    DivModUnique(c, 2 * m, q, 2 * r + c % 2);
  }

  /** Masking with `2^k - 1` is the remainder modulo `2^k`. */
  lemma {:induction false} MaskIsMod(c: nat, k: nat)
    ensures BitAnd(c, Pow2(k) - 1) == c % Pow2(k)
  {
    if k > 0 {
      MaskIsMod(c / 2, k - 1);
      HalfMod(c, Pow2(k - 1));
      assert (Pow2(k) - 1) / 2 == Pow2(k - 1) - 1;
    }
  }

  /** A wrapped counter still names the right slot of a ring of `2^k` entries. */
  lemma WrapSlot(a: uint32, b: uint32, p: int, k: nat)
    requires k <= 32
    ensures (Add32(a, b) + p) % Pow2(k) == (a + b + p) % Pow2(k)
  {
    if a + b >= 0x1_0000_0000 {
      Pow2Is32();
      Pow2Add(k, 32 - k);
      ModPlusMultiple(Add32(a, b) + p, Pow2(k), Pow2(32 - k));
    }
  }

  /** Positions less than `n` apart occupy different slots of a ring of `n` entries. */
  lemma SlotsDiffer(c: int, p: int, q: int, n: int)
    requires n > 0 && p < q < p + n
    ensures (c + p) % n != (c + q) % n
  {
    var d := (c + q) / n - (c + p) / n;
    MultipleBounds(n, d);
    assert q - p == n * d + (c + q) % n - (c + p) % n;
  }

  /** Or-ing a value into the low 32 bits below a shifted value is addition. */
  lemma {:induction false} OrIsSum(lo: nat, hi: nat, k: nat)
    requires lo < Pow2(k)
    ensures BitOr(lo, hi * Pow2(k)) == lo + hi * Pow2(k)
  {
    if k > 0 && lo > 0 && hi > 0 {
      var m := Pow2(k - 1);
      assert hi * Pow2(k) == 2 * (hi * m);
      assert hi * m > 0;
      OrIsSum(lo / 2, hi, k - 1);
    }
  }
}
