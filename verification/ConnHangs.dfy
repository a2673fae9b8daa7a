/**
 A run in which a Read never returns: the submission queue is full when the publisher comes to its request, so the
 request is dropped, and its callback with it, and nobody ever sends on the reply channel.
 */
module ConnHangs {
  import opened Words
  import opened Entries
  import opened RequestIds
  import opened RegistrySpec
  import opened SubmissionSpec
  import opened CallbackLog
  import opened ConnReads
  import N = NetReactor
  import O = NetOneSlot
  import C = Control

  /** Somebody else's request, which takes the only slot. */
  const OTHER := Operation(26, 8, 0x2000, 16, 0, Some(0), None)
  const OTHER_KEY := Key(8, 1)
  const OTHER_ID: uint64 := 0x1_0000_0008
  const OTHER_REQUEST := N.Request(OTHER, 0, OTHER_ID, 0)

  /** The reader's. */
  const READ := Operation(27, 7, 0x1000, 16, 0, Some(0), None)
  const READ_KEY := Key(7, 1)
  const READ_ID: uint64 := 0x1_0000_0007
  const READ_REQUEST := N.Request(READ, 0, READ_ID, 0)

  const EMPTY := N.Loop(
    [], [], [], N.NoJob, false, false, SubQueue(1, [], [], []), [], [], O.IDLE.cq, N.NoBatch)

  /** The loop once the other request has taken the slot. */
  const FULL := EMPTY.(
    allowed := true, sq := SubQueue(1, [N.FirstEntry(OTHER_REQUEST)], [], []), accepted := [N.Whole(OTHER_REQUEST)])

  const NOTHING := Buffer(0, 0)
  const BUFFER := Buffer(0x1000, 16)

  const UNUSED := Conn(27, 7, map[], None, NOTHING, map[], None)

  /** The reactor's state; `pub` is where the only publisher is. */
  function Net(
    pub: C.Publisher, t: Table, d: N.Loop, log: seq<Event<Key>>, draws: map<nat, nat>, born: map<Key, nat>): N.State
  {
    N.State(C.State(true, [C.FRESH.(pub := pub)], C.Running, false), t, [d], log, draws, born, false)
  }

  /** Equality of connections, field by field. */
  predicate SameConnection(a: Conn, b: Conn) {
    && a.code == b.code && a.fd == b.fd && a.calls == b.calls && a.holder == b.holder && a.opBuffer == b.opBuffer
    && a.prepared == b.prepared && a.arriving == b.arriving
  }

  ghost predicate Reaches(ss: seq<State>, acts: seq<Action>, s: State) {
    IsRun(ss, acts) && ss[|acts|] == s
  }

  lemma Extend(ss: seq<State>, acts: seq<Action>, s: State, a: Action, s': State)
    returns (ss': seq<State>, acts': seq<Action>)
    requires Reaches(ss, acts, s) && Enabled(s, a)
    requires O.Same(Step(s, a).net, s'.net) && SameConnection(Step(s, a).conn, s'.conn)
    ensures Reaches(ss', acts', s')
  {
    O.SameIsEqual(Step(s, a).net, s'.net);
    assert Step(s, a) == s';
    hide Init, Enabled, Step;
    ss', acts' := ss + [s'], acts + [a];
    forall i | 0 <= i < |acts'|
      ensures Enabled(ss'[i], acts'[i]) && ss'[i + 1] == Step(ss'[i], acts'[i])
    {
      if i < |acts| {
        assert acts'[i] == acts[i] && ss'[i] == ss[i] && ss'[i + 1] == ss[i + 1];
      }
    }
  }

  lemma Names()
    ensures N.IdOf(OTHER_KEY) == OTHER_ID && N.KeyOf(OTHER_ID) == OTHER_KEY && N.LoopFor(8, 1) == 0
    ensures N.IdOf(READ_KEY) == READ_ID && N.KeyOf(READ_ID) == READ_KEY && N.LoopFor(7, 1) == 0
    ensures !Reserved(OTHER_ID) && !Reserved(READ_ID)
  {
    hide Fd, Pack;
    PackIs(8, 1);
    RoundTrip(8, 1);
    PackIs(7, 1);
    RoundTrip(7, 1);
  }

  const OTHER_TABLE := Table(map[8 := 1], map[OTHER_KEY := Fn(2)])
  const OTHER_LOG := [Queued(OTHER_KEY, Fn(2))]

  /** Whether the other caller's request has been registered and nothing else. */
  function OtherOnly(pub: C.Publisher, d: N.Loop): N.State {
    Net(pub, OTHER_TABLE, d, OTHER_LOG, map[8 := 1], map[OTHER_KEY := 1])
  }

  const DRAWN := State(
    Net(
      C.Select, Table(map[8 := 1], map[]), EMPTY.(callers := [N.Caller(OTHER, Fn(2), 0, OTHER_KEY, 1)]),
      [], map[8 := 1], map[]),
    UNUSED)

  /** The other caller draws its nonce. */
  lemma OtherDraws() returns (ss: seq<State>, acts: seq<Action>)
    ensures Reaches(ss, acts, DRAWN)
  {
    hide Fd, Pack, Nonce, N.IdOf, N.FirstEntry, N.TimeoutEntry, N.LoopFor, Newest, Reaches;
    Names();
    var s0 := State(Net(C.Select, Table(map[], map[]), EMPTY, [], map[], map[]), UNUSED);
    ss, acts := [s0], [];
    assert Reaches(ss, acts, s0) by { StartsRun(s0); }
    ss, acts := Extend(ss, acts, s0, Action.Net(0, N.Draw(OTHER, Fn(2), 0)), DRAWN);
  }

  /** It registers its callback. */
  lemma OtherRegisters() returns (ss: seq<State>, acts: seq<Action>)
    ensures Reaches(ss, acts, State(OtherOnly(C.Select, EMPTY.(sending := [OTHER_REQUEST])), UNUSED))
  {
    hide Fd, Pack, Nonce, N.IdOf, N.FirstEntry, N.TimeoutEntry, N.LoopFor, Newest, Reaches;
    Names();
    ss, acts := OtherDraws();
    var s := State(OtherOnly(C.Select, EMPTY.(sending := [OTHER_REQUEST])), UNUSED);
    ss, acts := Extend(ss, acts, DRAWN, Action.Net(0, N.Register(0)), s);
  }

  lemma StartsRun(s: State)
    requires Init(s)
    ensures Reaches([s], [], s)
  {
  }

  /** What Affected records when the other request's entry is prepared. */
  const TAKEN := UNUSED.(prepared := map[OTHER_ID := NOTHING])

  /** It sends its request. */
  lemma OtherSends() returns (ss: seq<State>, acts: seq<Action>)
    ensures Reaches(ss, acts, State(OtherOnly(C.Select, EMPTY.(bus := [OTHER_REQUEST])), UNUSED))
  {
    hide Fd, Pack, Nonce, N.IdOf, N.FirstEntry, N.TimeoutEntry, N.LoopFor, Newest, Reaches;
    ss, acts := OtherRegisters();
    var s0 := State(OtherOnly(C.Select, EMPTY.(sending := [OTHER_REQUEST])), UNUSED);
    var s1 := State(OtherOnly(C.Select, EMPTY.(bus := [OTHER_REQUEST])), UNUSED);
    ss, acts := Extend(ss, acts, s0, Action.Net(0, N.Send(0)), s1);
  }

  /** The request takes the only slot. */
  lemma OtherTakesSlot() returns (ss: seq<State>, acts: seq<Action>)
    ensures Reaches(ss, acts, State(OtherOnly(C.Select, FULL), TAKEN))
  {
    hide Fd, Pack, Nonce, N.IdOf, N.FirstEntry, N.TimeoutEntry, N.LoopFor, Newest, Reaches;
    ss, acts := OtherSends();
    var s1 := State(OtherOnly(C.Select, EMPTY.(bus := [OTHER_REQUEST])), UNUSED);
    var s2 := State(OtherOnly(C.Busy, EMPTY.(job := N.First(OTHER_REQUEST), allowed := true)), UNUSED);
    ss, acts := Extend(ss, acts, s1, Action.Net(0, N.Receive), s2);
    ss, acts := Extend(ss, acts, s2, Action.Net(0, N.QueueFirst), State(OtherOnly(C.Select, FULL), TAKEN));
  }

  /** The connection with its one call somewhere. */
  function Reading(at: At, opBuffer: Buffer): Conn {
    TAKEN.(calls := map[0 := Call(BUFFER, at)], holder := Some(0), opBuffer := opBuffer)
  }

  /** A reader takes the lock and sets the operation's buffer. */
  lemma ReaderLocks() returns (ss: seq<State>, acts: seq<Action>)
    ensures Reaches(ss, acts, State(OtherOnly(C.Select, FULL), Reading(Queueing, BUFFER)))
  {
    hide N.FirstEntry, Newest, Reaches;
    ss, acts := OtherTakesSlot();
    var net := OtherOnly(C.Select, FULL);
    var s0 := State(net, TAKEN);
    var s1 := State(net, TAKEN.(calls := map[0 := Call(BUFFER, Locking)]));
    ss, acts := Extend(ss, acts, s0, Begin(0, BUFFER), s1);
    ss, acts := Extend(ss, acts, s1, Acquire(0), State(net, Reading(Buffering, NOTHING)));
    var s2 := State(net, Reading(Buffering, NOTHING));
    ss, acts := Extend(ss, acts, s2, SetBuffer(0), State(net, Reading(Queueing, BUFFER)));
  }

  const BOTH_TABLE := Table(map[8 := 1, 7 := 1], map[OTHER_KEY := Fn(2), READ_KEY := Fn(1)])
  const BOTH_LOG := [Queued(OTHER_KEY, Fn(2)), Queued(READ_KEY, Fn(1))]

  /** Both requests have been registered. */
  function Both(pub: C.Publisher, d: N.Loop): N.State {
    Net(pub, BOTH_TABLE, d, BOTH_LOG, map[8 := 1, 7 := 1], map[OTHER_KEY := 1, READ_KEY := 1])
  }

  const WAITING := Reading(Waiting(READ_ID), BUFFER)

  const READ_DRAWN := State(
    Net(
      C.Select, Table(map[8 := 1, 7 := 1], map[OTHER_KEY := Fn(2)]),
      FULL.(callers := [N.Caller(READ, Fn(1), 0, READ_KEY, 1)]), OTHER_LOG, map[8 := 1, 7 := 1], map[OTHER_KEY := 1]),
    Reading(Drawing, BUFFER))

  /** It draws its nonce. */
  lemma ReaderDraws() returns (ss: seq<State>, acts: seq<Action>)
    ensures Reaches(ss, acts, READ_DRAWN)
  {
    hide Fd, Pack, Nonce, N.IdOf, N.FirstEntry, N.TimeoutEntry, N.LoopFor, Newest, Reaches;
    Names();
    ss, acts := ReaderLocks();
    var s := State(OtherOnly(C.Select, FULL), Reading(Queueing, BUFFER));
    ss, acts := Extend(ss, acts, s, Draw(0, 0), READ_DRAWN);
  }

  /** It registers its callback and waits. */
  lemma ReaderRegisters() returns (ss: seq<State>, acts: seq<Action>)
    ensures Reaches(ss, acts, State(Both(C.Select, FULL.(sending := [READ_REQUEST])), WAITING))
  {
    hide Fd, Pack, Nonce, N.IdOf, N.FirstEntry, N.TimeoutEntry, N.LoopFor, Newest, Reaches;
    Names();
    ss, acts := ReaderDraws();
    var s := State(Both(C.Select, FULL.(sending := [READ_REQUEST])), WAITING);
    ss, acts := Extend(ss, acts, READ_DRAWN, Register(0, 0), s);
  }

  const AT_REQUEST := State(Both(C.Busy, FULL.(job := N.First(READ_REQUEST))), WAITING)

  /** It sends its request. */
  lemma ReaderSends() returns (ss: seq<State>, acts: seq<Action>)
    ensures Reaches(ss, acts, State(Both(C.Select, FULL.(bus := [READ_REQUEST])), WAITING))
  {
    hide Fd, Pack, Nonce, N.IdOf, N.FirstEntry, N.TimeoutEntry, N.LoopFor, Newest, Reaches;
    ss, acts := ReaderRegisters();
    var s0 := State(Both(C.Select, FULL.(sending := [READ_REQUEST])), WAITING);
    var s1 := State(Both(C.Select, FULL.(bus := [READ_REQUEST])), WAITING);
    ss, acts := Extend(ss, acts, s0, Action.Net(0, N.Send(0)), s1);
  }

  /** The publisher comes to it. */
  lemma PublisherReceives() returns (ss: seq<State>, acts: seq<Action>)
    ensures Reaches(ss, acts, AT_REQUEST)
  {
    hide Fd, Pack, Nonce, N.IdOf, N.FirstEntry, N.TimeoutEntry, N.LoopFor, Newest, Reaches;
    ss, acts := ReaderSends();
    var s := State(Both(C.Select, FULL.(bus := [READ_REQUEST])), WAITING);
    ss, acts := Extend(ss, acts, s, Action.Net(0, N.Receive), AT_REQUEST);
  }

  /** There is no slot for it. The request is dropped, and the reader waits for ever, with the lock. */
  lemma Hangs() returns (ss: seq<State>, acts: seq<Action>)
    ensures IsRun(ss, acts) && !ss[|acts|].net.panicked
    ensures
      var s := ss[|acts|];
      s.conn.holder == Some(0) && CallAt(s.conn, 0, Waiting(READ_ID)) && !Answerable(s, 0)
  {
    hide Fd, Pack, Nonce, N.IdOf, N.FirstEntry, N.TimeoutEntry, N.LoopFor, Newest;
    Names();
    ss, acts := PublisherReceives();
    var t := Table(map[8 := 1, 7 := 1], map[OTHER_KEY := Fn(2)]);
    var log := BOTH_LOG + [Dropped(READ_KEY, Fn(1))];
    var net := Net(C.Select, t, FULL, log, map[8 := 1, 7 := 1], map[OTHER_KEY := 1, READ_KEY := 1]);
    ss, acts := Extend(ss, acts, AT_REQUEST, Action.Net(0, N.QueueFirst), State(net, WAITING));
    assert N.KeyOf(READ_ID) !in t.callbacks;
  }
}
