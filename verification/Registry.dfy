/**
 The callback registry: shards of arrays for small descriptors and maps for large ones.

 Descriptors are dealt out to shards in granules, and flattened to indices inside a shard.
 Each operation runs under its shard's lock (see NetReactor for the point between the nonce
 increment and the lock where other goroutines can step in).
 */
module Registry {
  import opened Words
  import opened RegistrySpec

  // ----- index flattening -----

  function ShardNum(fd: nat, granularity: nat, shardCnt: nat): (s: nat)
    requires granularity > 0 && shardCnt > 0
    ensures s < shardCnt
  {
    fd / granularity % shardCnt
  }

  function FlattenIdx(fd: nat, granularity: nat, shardCnt: nat): nat
    requires granularity > 0 && shardCnt > 0
  {
    var row: nat := fd / granularity / shardCnt;
    row * granularity + fd % granularity
  }

  /** The descriptor found at an index of a shard. */
  function Unflatten(shard: nat, idx: nat, granularity: nat, shardCnt: nat): nat
    requires granularity > 0 && shardCnt > 0
  {
    (idx / granularity * shardCnt + shard) * granularity + idx % granularity
  }

  /** Flattening loses nothing: the descriptor can be computed from its shard and index. */
  lemma FlattenInverts(fd: nat, g: nat, n: nat)
    requires g > 0 && n > 0
    ensures Unflatten(ShardNum(fd, g, n), FlattenIdx(fd, g, n), g, n) == fd
  {
    var granule := fd / g;
    DivModUnique(FlattenIdx(fd, g, n), g, granule / n, fd % g);
    assert granule / n * n + granule % n == granule;
  }

  lemma FlattenInjective(fd: nat, other: nat, g: nat, n: nat)
    requires g > 0 && n > 0
    requires ShardNum(fd, g, n) == ShardNum(other, g, n) && FlattenIdx(fd, g, n) == FlattenIdx(other, g, n)
    ensures fd == other
  {
    hide *;
    FlattenInverts(fd, g, n);
    FlattenInverts(other, g, n);
  }

  /** Every index of every shard belongs to a descriptor. */
  lemma FlattenOnto(shard: nat, idx: nat, g: nat, n: nat)
    requires g > 0 && n > 0 && shard < n
    ensures var fd := Unflatten(shard, idx, g, n); ShardNum(fd, g, n) == shard && FlattenIdx(fd, g, n) == idx
  {
    var row := idx / g;
    DivModUnique(Unflatten(shard, idx, g, n), g, row * n + shard, idx % g);
    DivModUnique(row * n + shard, n, row, shard);
  }

  // ----- one shard -----

  class Shard {
    const boundary: nat
    const nonces: array<uint32>
    const callbacks: array<map<uint32, Callback>>
    var slowCallbacks: map<nat, map<uint32, Callback>>
    var slowNonces: map<nat, uint32>

    ghost predicate Valid() {
      nonces.Length == callbacks.Length == boundary
    }

    /** The last nonce drawn at an index. */
    ghost function Counter(idx: nat): uint32
      requires Valid()
      reads this, nonces
    {
      if idx < boundary then nonces[idx] else if idx in slowNonces then slowNonces[idx] else 0
    }

    /** The callbacks stored at an index. */
    ghost function Stored(idx: nat): map<uint32, Callback>
      requires Valid()
      reads this, callbacks
    {
      if idx < boundary then callbacks[idx] else if idx in slowCallbacks then slowCallbacks[idx] else map[]
    }

    constructor (fCap: nat)
      ensures Valid() && fresh(nonces) && fresh(callbacks)
      ensures forall idx: nat :: Counter(idx) == 0 && Stored(idx) == map[]
    {
      boundary := fCap;
      nonces := new uint32[fCap](_ => 0);
      callbacks := new map<uint32, Callback>[fCap](_ => map[]);
      slowCallbacks, slowNonces := map[], map[];
    }

    method Add(idx: nat, cb: Callback) returns (n: uint32)
      requires Valid()
      modifies this, nonces, callbacks
      ensures n == Add32(old(Counter(idx)), 1)
      ensures forall i: nat :: Counter(i) == if i == idx then n else old(Counter(i))
      ensures forall i: nat :: Stored(i) == if i == idx then old(Stored(i))[n := cb] else old(Stored(i))
    {
      if idx < boundary {
        nonces[idx] := Add32(nonces[idx], 1);
        n := nonces[idx];
        callbacks[idx] := callbacks[idx][n := cb];
        return;
      }
      slowNonces := slowNonces[idx := Add32(if idx in slowNonces then slowNonces[idx] else 0, 1)];
      n := slowNonces[idx];
      if idx !in slowCallbacks {
        slowCallbacks := slowCallbacks[idx := map[]];
      }
      var cbs: map<uint32, Callback> := slowCallbacks[idx][n := cb];
      slowCallbacks := slowCallbacks[idx := cbs];
    }

    method Pop(idx: nat, nonce: uint32) returns (cb: Callback)
      requires Valid()
      modifies this`slowCallbacks, callbacks
      ensures cb == if nonce in old(Stored(idx)) then old(Stored(idx))[nonce] else Nil
      ensures forall i: nat :: Stored(i) == if i == idx then old(Stored(i)) - {nonce} else old(Stored(i))
    {
      if idx < boundary {
        cb := if nonce in callbacks[idx] then callbacks[idx][nonce] else Nil;
        callbacks[idx] := callbacks[idx] - {nonce};
        return;
      }
      if idx in slowCallbacks {
        cb := if nonce in slowCallbacks[idx] then slowCallbacks[idx][nonce] else Nil;
        slowCallbacks := slowCallbacks[idx := slowCallbacks[idx] - {nonce}];
      } else {
        cb := Nil;
      }
    }
  }

  // ----- the registry -----

  class CbRegistry {
    const granularity: nat
    const shardCnt: nat
    const shards: seq<Shard>
    ghost var table: Table

    ghost function Repr(): set<object> {
      (set s | s in shards :: s as object) +
      (set s | s in shards :: s.nonces as object) +
      (set s | s in shards :: s.callbacks as object)
    }

    ghost predicate Shape() {
      && granularity > 0 && |shards| == shardCnt > 0
      && (forall i :: 0 <= i < shardCnt ==> shards[i].Valid())
      && (forall i, j :: 0 <= i < j < shardCnt ==>
            && shards[i] != shards[j]
            && shards[i].nonces != shards[j].nonces
            && shards[i].callbacks != shards[j].callbacks)
    }

    /** The shards hold for every descriptor exactly what the one table holds for it. */
    ghost predicate Agrees(fd: nat)
      requires Shape()
      reads this, Repr()
    {
      var s := shards[ShardNum(fd, granularity, shardCnt)];
      assert s in shards;
      var idx := FlattenIdx(fd, granularity, shardCnt);
      && s.Counter(idx) == table.Counter(fd)
      && forall n: uint32 ::
           && (n in s.Stored(idx) <==> Key(fd, n) in table.callbacks)
           && (n in s.Stored(idx) ==> s.Stored(idx)[n] == table.callbacks[Key(fd, n)])
    }

    ghost predicate Valid()
      reads this, Repr()
    {
      && this !in Repr() && Shape()
      && forall fd: nat :: Agrees(fd)
    }

    constructor (shardCount: nat, granularity: nat)
      requires shardCount > 0 && granularity > 0
      ensures Valid() && fresh(Repr())
      ensures this.shardCnt == shardCount && this.granularity == granularity
      ensures table == Table(map[], map[])
    {
      var made: seq<Shard> := [];
      for i := 0 to shardCount
        invariant |made| == i
        invariant forall j :: 0 <= j < i ==>
          && made[j].Valid() && fresh(made[j]) && fresh(made[j].nonces) && fresh(made[j].callbacks)
          && (forall idx: nat :: made[j].Counter(idx) == 0 && made[j].Stored(idx) == map[])
        invariant forall j, k :: 0 <= j < k < i ==>
          made[j] != made[k] && made[j].nonces != made[k].nonces && made[j].callbacks != made[k].callbacks
      {
        var shard := new Shard(0x1_0000 / shardCount);
        made := made + [shard];
      }
      this.granularity := granularity;
      shardCnt := shardCount;
      shards := made;
      table := Table(map[], map[]);
    }

    method Add(fd: nat, cb: Callback) returns (nonce: uint32)
      requires Valid()
      modifies this`table, Repr()
      ensures Valid()
      ensures nonce == old(table).NextNonce(fd) && table == old(table).Add(fd, cb)
    {
      hide ShardNum, FlattenIdx;
      var num, idx := ShardNum(fd, granularity, shardCnt), FlattenIdx(fd, granularity, shardCnt);
      assert Agrees(fd) && shards[num] in shards;
      nonce := shards[num].Add(idx, cb);
      table := table.Add(fd, cb);
      forall other: nat
        ensures Agrees(other)
      {
        assert old(Agrees(other));
        if ShardNum(other, granularity, shardCnt) == num && FlattenIdx(other, granularity, shardCnt) == idx {
          FlattenInjective(fd, other, granularity, shardCnt);
        }
      }
    }

    method Pop(fd: nat, nonce: uint32) returns (cb: Callback)
      requires Valid()
      modifies this`table, Repr()
      ensures Valid()
      ensures cb == old(table).Get(Key(fd, nonce)) && table == old(table).Pop(Key(fd, nonce))
    {
      hide ShardNum, FlattenIdx;
      var num, idx := ShardNum(fd, granularity, shardCnt), FlattenIdx(fd, granularity, shardCnt);
      assert Agrees(fd) && shards[num] in shards;
      cb := shards[num].Pop(idx, nonce);
      table := table.Pop(Key(fd, nonce));
      forall other: nat
        ensures Agrees(other)
      {
        assert old(Agrees(other));
        if ShardNum(other, granularity, shardCnt) == num && FlattenIdx(other, granularity, shardCnt) == idx {
          FlattenInjective(fd, other, granularity, shardCnt);
        }
      }
    }
  }

  /**
   Any sequence of adds and pops gives the results that the one table gives: they depend neither on the
   number of shards, nor on the granularity, nor on which path a descriptor takes.
   */
  method RunOps(registry: CbRegistry, ops: seq<Op>) returns (results: seq<Result>)
    requires registry.Valid()
    modifies registry`table, registry.Repr()
    ensures registry.Valid()
    ensures results == Results(old(registry.table), ops)
    ensures registry.table == Run(old(registry.table), ops)
  {
    results := [];
    for i := 0 to |ops|
      invariant registry.Valid()
      invariant results == Results(old(registry.table), ops[..i])
      invariant registry.table == Run(old(registry.table), ops[..i])
    {
      assert ops[..i + 1][..i] == ops[..i];
      match ops[i] {
        case AddOp(fd, cb) =>
          var n := registry.Add(fd, cb);
          results := results + [Added(n)];
        case PopOp(key) =>
          var cb := registry.Pop(key.fd, key.nonce);
          results := results + [Popped(cb)];
      }
    }
    assert ops[..|ops|] == ops;
  }
}
