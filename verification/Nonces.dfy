/** The generic reactor's source of request identifiers. */
module Nonces {
  import opened Words
  import opened RequestIds

  /** How many identifiers there are besides the two reserved ones. */
  const CYCLE: nat := 0xFFFF_FFFF_FFFF_FFFE

  /** The identifier after `c`: the reserved values are skipped, and after them counting starts again at 0. */
  function Successor(c: uint64): (r: uint64)
    ensures !Reserved(r) && r < CYCLE
  {
    if c + 1 < CANCEL_NONCE then c + 1 else 0
  }

  class Source {
    var currentNonce: uint64

    constructor ()
      ensures currentNonce == 0
    {
      currentNonce := 0;
    }

    /**
     Draws an identifier, while other callers draw theirs: `others[i]` atomic additions by others come before the
     i-th of this caller. `drawn` counts the additions by all of them, the last being this caller's.
     */
    method NextNonce(others: seq<nat>) returns (local: uint64, ghost drawn: nat)
      modifies this
      ensures local == currentNonce == Added(old(currentNonce), drawn) && drawn > 0 && !Reserved(local)
      // undisturbed, it is the next identifier that is not reserved
      ensures others == [] ==> local == Successor(old(currentNonce))
    {
      hide Added;
      var i := 0;
      local, drawn := Add(if i < |others| then others[i] else 0);
      while local >= CANCEL_NONCE
        invariant local == currentNonce == Added(old(currentNonce), drawn) && drawn > 0
        invariant others == [] ==>
          local == Successor(old(currentNonce)) || (local >= CANCEL_NONCE && Successor(old(currentNonce)) == 0)
        decreases |others| - i, if local >= CANCEL_NONCE then 0x1_0000_0000_0000_0000 - local else 0
      {
        i := if i < |others| then i + 1 else i;
        ghost var more;
        local, more := Add(if i < |others| then others[i] else 0);
        AddedTwice(old(currentNonce), drawn, more);
        drawn := drawn + more;
      }
    }

    /** One atomic addition, after `others` by other callers. */
    method Add(others: nat) returns (local: uint64, ghost drawn: nat)
      modifies this
      ensures drawn == others + 1
      ensures local == currentNonce == Added(old(currentNonce), drawn)
      ensures others == 0 ==> local == if old(currentNonce) == TIMEOUT_NONCE then 0 else old(currentNonce) + 1
    {
      drawn := others + 1;
      currentNonce := (currentNonce + others + 1) % 0x1_0000_0000_0000_0000;
      local := currentNonce;
    }
  }

  /** The counter after `n` additions. */
  function Added(c: uint64, n: nat): uint64 {
    (c + n) % 0x1_0000_0000_0000_0000
  }

  lemma AddedTwice(c: uint64, m: nat, n: nat)
    ensures Added(Added(c, m), n) == Added(c, m + n)
  {
  }

  /** Whoever makes them, two additions fewer than 2^64 apart return different values. */
  lemma AdditionsDiffer(c: uint64, i: nat, j: nat)
    requires i < j < i + 0x1_0000_0000_0000_0000
    ensures Added(c, i) != Added(c, j)
  {
    SlotsDiffer(c, i, j, 0x1_0000_0000_0000_0000);
  }

  /** The k-th identifier drawn after `c`. */
  function Nth(c: uint64, k: nat): uint64 {
    if k == 0 then c else Successor(Nth(c, k - 1))
  }

  lemma {:induction false} NthIs(c: uint64, k: nat)
    requires c < CYCLE
    ensures Nth(c, k) == (c + k) % 0xFFFF_FFFF_FFFF_FFFE
  {
    if k > 0 {
      NthIs(c, k - 1);
    }
  }

  /** Identifiers drawn fewer than 2^64 - 2 draws apart are different. */
  lemma NoncesDiffer(c: uint64, i: nat, j: nat)
    requires c < CYCLE && i < j < i + CYCLE
    ensures Nth(c, i) != Nth(c, j)
  {
    NthIs(c, i);
    NthIs(c, j);
    SlotsDiffer(c, i, j, 0xFFFF_FFFF_FFFF_FFFE);
  }

  /** As long as fewer identifiers are drawn than there are, a fresh source hands out 1, 2, 3, and so on. */
  lemma NthFromZero(k: nat)
    requires k < CYCLE
    ensures Nth(0, k) == k
  {
    NthIs(0, k);
  }
}
