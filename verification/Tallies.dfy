/** Counting identifiers in sequences of things that carry one. */
module Tallies {

  /** How many elements carry identifier `id`. */
  function Count<T>(xs: seq<T>, f: T -> int, id: int): nat {
    if xs == [] then 0 else Is(f(xs[0]), id) + Count(xs[1..], f, id)
  }

  function Is(x: int, id: int): nat {
    if x == id then 1 else 0
  }

  lemma {:induction false} CountPlus<T>(xs: seq<T>, ys: seq<T>, f: T -> int, id: int)
    ensures Count(xs + ys, f, id) == Count(xs, f, id) + Count(ys, f, id)
  {
    if xs == [] {
      assert xs + ys == ys;
    } else {
      CountPlus(xs[1..], ys, f, id);
      assert (xs + ys)[1..] == xs[1..] + ys;
    }
  }

  lemma CountAppend<T>(xs: seq<T>, x: T, f: T -> int, id: int)
    ensures Count(xs + [x], f, id) == Count(xs, f, id) + Is(f(x), id)
  {
    CountPlus(xs, [x], f, id);
  }

  lemma CountSplit<T>(xs: seq<T>, i: nat, f: T -> int, id: int)
    requires i <= |xs|
    ensures Count(xs, f, id) == Count(xs[..i], f, id) + Count(xs[i..], f, id)
  {
    CountPlus(xs[..i], xs[i..], f, id);
    assert xs == xs[..i] + xs[i..];
  }

  lemma CountFirst<T>(xs: seq<T>, f: T -> int, id: int)
    requires xs != []
    ensures Count(xs, f, id) == Is(f(xs[0]), id) + Count(xs[1..], f, id)
  {
  }

  lemma CountNone<T>(f: T -> int, id: int)
    ensures Count<T>([], f, id) == 0
  {
  }

  function Without<T>(xs: seq<T>, i: nat): (ys: seq<T>)
    requires i < |xs|
    ensures forall y :: y in ys ==> y in xs
  {
    xs[..i] + xs[i + 1..]
  }

  lemma CountWithout<T>(xs: seq<T>, i: nat, f: T -> int, id: int)
    requires i < |xs|
    ensures Count(xs, f, id) == Count(Without(xs, i), f, id) + Is(f(xs[i]), id)
  {
    CountSplit(xs, i, f, id);
    CountFirst(xs[i..], f, id);
    CountPlus(xs[..i], xs[i + 1..], f, id);
    assert xs[i..][1..] == xs[i + 1..];
  }

  /** An element makes its identifier count. */
  lemma {:induction false} CountIn<T>(xs: seq<T>, i: nat, f: T -> int)
    requires i < |xs|
    ensures Count(xs, f, f(xs[i])) >= 1
  {
    CountWithout(xs, i, f, f(xs[i]));
  }

  lemma {:induction false} CountAbsent<T>(xs: seq<T>, f: T -> int, id: int)
    requires forall x :: x in xs ==> f(x) != id
    ensures Count(xs, f, id) == 0
  {
    if xs != [] {
      CountAbsent(xs[..|xs| - 1], f, id);
      CountAppend(xs[..|xs| - 1], xs[|xs| - 1], f, id);
      assert xs == xs[..|xs| - 1] + [xs[|xs| - 1]];
    }
  }
}
