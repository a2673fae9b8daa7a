/** Creating several rings that share worker pools. */
module CreateMany {
  import opened Words
  import opened Entries

  /** A ring that was set up: its descriptor, and the ring whose worker pool it is attached to, if any. */
  datatype RingInfo = RingInfo(fd: nat, attachedTo: Option<nat>)

  /** What the i-th call of New comes to. */
  datatype NewReply = Made(fd: nat) | SetupFailed

  datatype Outcome = BadArguments | Failed(closed: set<nat>) | Created(rings: seq<RingInfo>)

  /** How many consecutive rings share a pool. */
  function GroupSize(count: int, wpCount: int): (g: int)
    requires wpCount != 0
    ensures g >= 1
  {
    var instancePerPool := count / wpCount;
    if instancePerPool > 1 then instancePerPool else 1
  }

  /** Ring `i` owns a pool if it is the first of its group, and otherwise is attached to the first of its group. */
  function Expected(news: seq<NewReply>, i: nat, g: nat): RingInfo
    requires i < |news| && g > 0 && forall j :: 0 <= j <= i ==> news[j].Made?
  {
    RingInfo(news[i].fd, if i % g == 0 then None else Some(news[i - i % g].fd))
  }

  ghost predicate AsExpected(news: seq<NewReply>, rings: seq<RingInfo>, g: nat) {
    && g > 0 && |rings| <= |news|
    && (forall i :: 0 <= i < |rings| ==> news[i].Made?)
    && (forall i :: 0 <= i < |rings| ==> rings[i] == Expected(news, i, g))
  }

  ghost predicate FirstFailure(news: seq<NewReply>, k: nat) {
    k < |news| && news[k].SetupFailed? && forall i :: 0 <= i < k ==> news[i].Made?
  }

  ghost function MadeBefore(news: seq<NewReply>, k: nat): set<nat>
    requires k <= |news| && forall i :: 0 <= i < k ==> news[i].Made?
  {
    set i | 0 <= i < k :: news[i].fd
  }

  method CloseAll(rings: seq<RingInfo>) returns (closed: set<nat>)
    ensures closed == set r | r in rings :: r.fd
  {
    closed := {};
    for i := 0 to |rings|
      invariant closed == set r | r in rings[..i] :: r.fd
    {
      closed := closed + {rings[i].fd};
    }
    assert rings[..|rings|] == rings;
  }

  /**
   Creates exactly `count` rings in groups as described by Expected, or, as soon as one cannot be set up,
   closes every ring made before it. `news` says how each call of New ends.
   */
  method CreateMany(count: int, wpCount: int, news: seq<NewReply>) returns (r: Outcome)
    requires (wpCount > count || wpCount != 0) && |news| >= count
    ensures r.BadArguments? <==> wpCount > count || count % wpCount != 0
    ensures r.Created? ==>
              && wpCount != 0 && |r.rings| == (if count > 0 then count else 0)
              && AsExpected(news, r.rings, GroupSize(count, wpCount))
    ensures r.Created? && wpCount > 0 ==> Owners(r.rings) == wpCount
    ensures r.Failed? ==> exists k :: 0 <= k < count && FirstFailure(news, k) && r.closed == MadeBefore(news, k)
  {
    hide Owners, Expected;
    if wpCount > count || count % wpCount != 0 {
      return BadArguments;
    }
    var instancePerPool := count / wpCount;
    ghost var g, m := GroupSize(count, wpCount), 0;
    var rings := [];
    var i := 0;
    while i < count
      invariant 0 <= m && i == g * m && |rings| == i
      invariant i <= count || i == 0
      invariant AsExpected(news, rings, g)
      decreases count - i
    {
      if news[|rings|].SetupFailed? {
        r := Abandon(news, rings, g);
        return;
      }
      OneMore(news, rings, g, m, 0);
      var main := news[|rings|].fd;
      rings := rings + [RingInfo(main, None)];
      if instancePerPool > 1 {
        GroupFits(count, g, wpCount, m);
        var j := 1;
        while j < instancePerPool
          invariant 1 <= j <= g && i == g * m + j - 1 && |rings| == g * m + j
          invariant AsExpected(news, rings, g)
          invariant main == news[g * m].fd
        {
          if news[|rings|].SetupFailed? {
            r := Abandon(news, rings, g);
            return;
          }
          OneMore(news, rings, g, m, j);
          rings := rings + [RingInfo(news[|rings|].fd, Some(main))];
          i := i + 1;
          j := j + 1;
        }
      }
      i := i + 1;
      m := m + 1;
    }
    if wpCount > 0 {
      PoolCount(count, wpCount, news, rings);
    }
    return Created(rings);
  }

  /** The j-th ring of the m-th group. */
  lemma OneMore(news: seq<NewReply>, rings: seq<RingInfo>, g: nat, m: nat, j: nat)
    requires AsExpected(news, rings, g) && |rings| == g * m + j < |news| && j < g && news[|rings|].Made?
    ensures var n := |rings|;
            AsExpected(news, rings + [RingInfo(news[n].fd, if j == 0 then None else Some(news[n - j].fd))], g)
  {
    DivModUnique(g * m + j, g, m, j);
  }

  /** How many of the rings own a pool. */
  function Owners(rings: seq<RingInfo>): nat {
    if rings == [] then 0
    else Owners(rings[..|rings| - 1]) + (if rings[|rings| - 1].attachedTo.None? then 1 else 0)
  }

  /** One more ring is one more group, rounded up, exactly if it starts one. */
  lemma NextGroup(n: nat, g: nat)
    requires g > 0
    ensures (n + 1 + g - 1) / g == (n + g - 1) / g + (if n % g == 0 then 1 else 0)
  {
    var q, r := n / g, n % g;
    assert n == g * q + r;
    if r == 0 {
      DivModUnique(n + g - 1, g, q, g - 1);
      DivModUnique(n + g, g, q + 1, 0);
    } else {
      DivModUnique(n + g - 1, g, q + 1, r - 1);
      DivModUnique(n + g, g, q + 1, r);
    }
  }

  /** Each group has one owner. */
  lemma {:induction false} OwnersOf(news: seq<NewReply>, rings: seq<RingInfo>, g: nat)
    requires AsExpected(news, rings, g)
    ensures Owners(rings) == (|rings| + g - 1) / g
  {
    if rings == [] {
      DivModUnique(g - 1, g, 0, g - 1);
    } else {
      var last := |rings| - 1;
      OwnersOf(news, rings[..last], g);
      NextGroup(last, g);
      assert rings[last] == Expected(news, last, g);
    }
  }

  /** A created group of rings has exactly `wpCount` worker pools. */
  lemma PoolCount(count: int, wpCount: int, news: seq<NewReply>, rings: seq<RingInfo>)
    requires 0 < wpCount <= count && count % wpCount == 0
    requires |rings| == count && AsExpected(news, rings, GroupSize(count, wpCount))
    ensures Owners(rings) == wpCount
  {
    var g := GroupSize(count, wpCount);
    assert count == wpCount * (count / wpCount);
    MultipleBounds(wpCount, count / wpCount);
    assert g == count / wpCount;
    OwnersOf(news, rings, g);
    DivModUnique(count + g - 1, g, wpCount, g - 1);
  }

  /** A group that starts below `count` fits. */
  lemma GroupFits(count: int, g: int, w: int, m: int)
    requires g > 0 && count == g * w && g * m < count
    ensures g * m + g <= count
  {
    MultipleBounds(g, m - w);
    assert g * (m - w) == g * m - g * w;
  }

  method Abandon(news: seq<NewReply>, rings: seq<RingInfo>, ghost g: nat) returns (r: Outcome)
    requires AsExpected(news, rings, g)
    ensures r == Failed(MadeBefore(news, |rings|))
  {
    var closed := CloseAll(rings);
    assert forall i :: 0 <= i < |rings| ==> rings[i].fd == news[i].fd && rings[i] in rings;
    assert closed == MadeBefore(news, |rings|);
    r := Failed(closed);
  }
}
