/**
 The callback registry as its users see it: one map from (descriptor, nonce) to callback, and
 per descriptor a 32-bit counter from which nonces are drawn.
 */
module RegistrySpec {
  import opened Words

  /** A Go func value. */
  datatype Callback = Nil | Fn(id: nat)

  datatype Key = Key(fd: nat, nonce: uint32)

  datatype Table = Table(counters: map<nat, uint32>, callbacks: map<Key, Callback>) {

    function Counter(fd: nat): uint32 {
      if fd in counters then counters[fd] else 0
    }

    /** What a Go map read gives: nil for a missing key. */
    function Get(key: Key): Callback {
      if key in callbacks then callbacks[key] else Nil
    }

    function NextNonce(fd: nat): uint32 {
      Add32(Counter(fd), 1)
    }

    /** The first half of an add: drawing a nonce. */
    function Reserve(fd: nat): Table {
      this.(counters := counters[fd := NextNonce(fd)])
    }

    /** The second half: storing the callback. */
    function Insert(key: Key, cb: Callback): Table {
      this.(callbacks := callbacks[key := cb])
    }

    function Add(fd: nat, cb: Callback): Table {
      Reserve(fd).Insert(Key(fd, NextNonce(fd)), cb)
    }

    function Pop(key: Key): Table {
      this.(callbacks := callbacks - {key})
    }
  }

  datatype Op = AddOp(fd: nat, cb: Callback) | PopOp(key: Key)
  datatype Result = Added(nonce: uint32) | Popped(cb: Callback)

  function Apply(t: Table, op: Op): Table {
    match op
    case AddOp(fd, cb) => t.Add(fd, cb)
    case PopOp(key) => t.Pop(key)
  }

  function ResultOf(t: Table, op: Op): Result {
    match op
    case AddOp(fd, _) => Added(t.NextNonce(fd))
    case PopOp(key) => Popped(t.Get(key))
  }

  function Run(t: Table, ops: seq<Op>): Table {
    if ops == [] then t else Apply(Run(t, ops[..|ops| - 1]), ops[|ops| - 1])
  }

  /** The results of a sequence of operations: a function of the operations alone. */
  function Results(t: Table, ops: seq<Op>): seq<Result> {
    if ops == [] then []
    else
      var last := |ops| - 1;
      Results(t, ops[..last]) + [ResultOf(Run(t, ops[..last]), ops[last])]
  }

  function AddsOn(fd: nat, ops: seq<Op>): nat {
    if ops == [] then 0
    else
      var last := |ops| - 1;
      AddsOn(fd, ops[..last]) + (if ops[last].AddOp? && ops[last].fd == fd then 1 else 0)
  }

  lemma {:induction false} CounterAfter(t: Table, fd: nat, ops: seq<Op>)
    ensures Run(t, ops).Counter(fd) == (t.Counter(fd) + AddsOn(fd, ops)) % 0x1_0000_0000
  {
    if ops != [] {
      CounterAfter(t, fd, ops[..|ops| - 1]);
    }
  }

  /** Counting on from a nonce comes back to it after a multiple of 2^32 draws. */
  lemma NonceRecurs(n: uint32, a: nat)
    ensures Add32((n + a) % 0x1_0000_0000, 1) == n <==> (a + 1) % 0x1_0000_0000 == 0
    ensures (a + 1) % 0x1_0000_0000 == 0 ==> a + 1 >= 0x1_0000_0000
  {
  }

  /**
   A callback that nobody pops stays reachable under its nonce exactly as long as fewer than 2^32
   further callbacks are added on its descriptor: the 2^32-nd is stored over it.
   */
  lemma {:induction false} SurvivesIff(t: Table, fd: nat, cb: Callback, ops: seq<Op>)
    requires cb != Nil
    requires forall i :: 0 <= i < |ops| ==> ops[i] != PopOp(Key(fd, t.NextNonce(fd)))
    requires forall i :: 0 <= i < |ops| && ops[i].AddOp? ==> ops[i].cb != cb
    ensures Run(t.Add(fd, cb), ops).Get(Key(fd, t.NextNonce(fd))) == cb <==> AddsOn(fd, ops) < 0x1_0000_0000
  {
    hide Add32;
    if ops != [] {
      var front := ops[..|ops| - 1];
      SurvivesIff(t, fd, cb, front);
      CounterAfter(t.Add(fd, cb), fd, front);
      NonceRecurs(t.NextNonce(fd), AddsOn(fd, front));
    }
  }
}
