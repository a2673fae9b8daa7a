/**
 Conn.Read on top of the network reactor, with any number of concurrent readers of one connection and
 everything else the reactor does going on meanwhile.

 All reads of a connection share one operation object, whose buffer is overwritten under readLock and which the
 publisher reads only later, when it prepares the submission entry; and they share one
 unbuffered reply channel, on which the callback blocks until a reader receives.
 Conn.Write is the same program with writeLock, sendOp and writeChan: the operation code is a parameter,
 and a connection's writes are part of everything else for its reads, and the other way round.

 Go func values are numbered: the closures of this connection's Read are the odd numbers, one for
 each call.
 */
module ConnReads {
  import opened Words
  import opened Entries
  import opened RequestIds
  import opened RegistrySpec
  import opened SubmissionSpec
  import opened Tallies
  import N = NetReactor
  import D = NetDispatch
  import R = NetRuns
  import O = NetOrigins
  import A = NetPacing
  import C = Control
  import P = Pending

  /** Where a call of Read is. */
  datatype At =
    | Locking
    | Buffering                             // holds readLock, about to set the operation's buffer
    | Queueing                              // about to call QueueWithDeadline
    | Drawing                               // in it, with a nonce drawn
    | Waiting(id: uint64)                   // callback registered; receiving from readChan
    | Done(id: uint64, event: CQEvent)      // received
    | Returned(event: CQEvent)

  /** A slice of bytes: where it begins, and how long it is. */
  datatype Buffer = Buffer(addr: nat, len: nat)

  datatype Call = Call(buffer: Buffer, at: At)

  /**
   A callback blocked in its send on readChan. `entry` is history: the entry that the kernel had consumed last under
   the event's identifier.
   */
  datatype Arrival = Arrival(k: nat, id: uint64, event: CQEvent, entry: Option<SQEntry>)

  /** The newest entry with a given identifier. */
  function Newest(es: seq<SQEntry>, id: uint64): Option<SQEntry> {
    if es == [] then None
    else if es[|es| - 1].userData == id then Some(es[|es| - 1])
    else Newest(es[..|es| - 1], id)
  }

  /** `prepared` is history: the buffer found in the shared operation when the entry of a request was prepared. */
  datatype Conn = Conn(
    code: nat, fd: nat, calls: map<nat, Call>, holder: Option<nat>, opBuffer: Buffer,
    prepared: map<uint64, Buffer>, arriving: Option<Arrival>)

  datatype State = State(net: N.State, conn: Conn)

  function Closure(k: nat): Callback {
    Fn(2 * k + 1)
  }

  predicate Mine(cb: Callback) {
    cb.Fn? && cb.id % 2 == 1
  }

  function Owner(cb: Callback): nat
    requires Mine(cb)
  {
    cb.id / 2
  }

  /** The shared operation, as it is now. */
  function ReadOp(c: Conn): Operation {
    Operation(c.code, c.fd, c.opBuffer.addr, c.opBuffer.len, 0, Some(0), None)
  }

  datatype Action =
    | Begin(k: nat, buffer: Buffer)
    | Acquire(k: nat)
    | SetBuffer(k: nat)
    | Draw(k: nat, timeout: int)
    | Register(k: nat, i: nat)
    | Receive(k: nat)
    | Unlock(k: nat)
    | Net(l: nat, m: N.Move)

  /** The event loop of the connection's descriptor. */
  function Home(s: State): nat
    requires N.Shape(s.net)
  {
    N.LoopFor(s.conn.fd, |s.net.loops|)
  }

  predicate CallAt(c: Conn, k: nat, at: At) {
    k in c.calls && c.calls[k].at == at
  }

  predicate Enabled(s: State, a: Action) {
    var c := s.conn;
    && N.Shape(s.net)
    && match a
       case Begin(k, _) => k !in c.calls
       case Acquire(k) => CallAt(c, k, Locking) && c.holder == None
       case SetBuffer(k) => CallAt(c, k, Buffering)
       case Draw(k, timeout) =>
         CallAt(c, k, Queueing) && N.Enabled(s.net, Home(s), N.Draw(ReadOp(c), Closure(k), timeout))
       case Register(k, i) =>
         && CallAt(c, k, Drawing) && N.Enabled(s.net, Home(s), N.Register(i))
         && s.net.loops[Home(s)].callers[i].cb == Closure(k)
       case Receive(k) => k in c.calls && c.calls[k].at.Waiting? && c.arriving.Some?
       case Unlock(k) => k in c.calls && c.calls[k].at.Done?
       case Net(l, m) =>
         && N.Enabled(s.net, l, m)
         && (m.Draw? ==> !Mine(m.cb))
         && (m.Register? ==> !Mine(s.net.loops[l].callers[m.i].cb))
         // a consumer whose callback is blocked does nothing else
         && (l == Home(s) && (m.Dispatch? || m.Advance? || m.Peek?) ==> c.arriving == None)
  }

  function Goto(c: Conn, k: nat, at: At): Conn
    requires k in c.calls
  {
    c.(calls := c.calls[k := c.calls[k].(at := at)])
  }

  /** What a step of the reactor does to the connection: it may prepare an entry, or run a callback. */
  function Affected(s: State, l: nat, m: N.Move): Conn
    requires N.Enabled(s.net, l, m)
  {
    var c, d := s.conn, s.net.loops[l];
    if m.QueueFirst? && d.sq.Free() > 0 then c.(prepared := c.prepared[d.job.req.userData := c.opBuffer])
    else if m.Dispatch? then
      var e := d.cq.ready[d.batch.i];
      var cb := s.net.table.Get(N.KeyOf(e.userData));
      if !Reserved(e.userData) && Mine(cb) then 
        c.(arriving := Some(Arrival(Owner(cb), e.userData, e, Newest(d.sq.consumed, e.userData))))
      else c
    else c
  }

  function Step(s: State, a: Action): State
    requires Enabled(s, a)
  {
    var c := s.conn;
    match a
    case Begin(k, buffer) => s.(conn := c.(calls := c.calls[k := Call(buffer, Locking)]))
    case Acquire(k) => s.(conn := Goto(c, k, Buffering).(holder := Some(k)))
    case SetBuffer(k) => s.(conn := Goto(c, k, Queueing).(opBuffer := c.calls[k].buffer))
    case Draw(k, timeout) =>
      State(N.Step(s.net, Home(s), N.Draw(ReadOp(c), Closure(k), timeout)), Goto(c, k, Drawing))
    case Register(k, i) =>
      State(N.Step(s.net, Home(s), N.Register(i)), Goto(c, k, Waiting(N.IdOf(s.net.loops[Home(s)].callers[i].key))))
    case Receive(k) => s.(conn := Goto(c, k, Done(c.arriving.value.id, c.arriving.value.event)).(arriving := None))
    case Unlock(k) => s.(conn := Goto(c, k, Returned(c.calls[k].at.event)).(holder := None))
    case Net(l, m) => State(N.Step(s.net, l, m), Affected(s, l, m))
  }

  ghost predicate Init(s: State) {
    && N.Init(s.net) && s.conn.fd < N.MAX_FD
    && s.conn.calls == map[] && s.conn.holder == None && s.conn.prepared == map[] && s.conn.arriving == None
  }

  // ----- what every step keeps -----

  predicate Active(at: At) {
    at != Locking && !at.Returned?
  }

  /** Exactly the lock holder is active, and from SetBuffer on the shared operation holds its buffer. */
  ghost predicate LockOk(c: Conn) {
    && (forall k :: k in c.calls ==> (Active(c.calls[k].at) <==> c.holder == Some(k)))
    && (c.holder.Some? ==> c.holder.value in c.calls)
    && (c.holder.Some? && c.calls[c.holder.value].at != Buffering ==> c.opBuffer == c.calls[c.holder.value].buffer)
  }

  /** The holder is at `at`. */
  predicate HolderAt(c: Conn, k: nat, at: At) {
    c.holder == Some(k) && CallAt(c, k, at)
  }

  ghost predicate AtMostOne(cs: seq<N.Caller>) {
    forall i, j :: 0 <= i < j < |cs| ==> !Mine(cs[i].cb) || !Mine(cs[j].cb)
  }

  /**
   A closure of this connection waiting to be registered is the holder's, with the shared operation as it is, and
   there is at most one.
   */
  ghost predicate CallersOk(s: State) {
    && N.Shape(s.net)
    && (forall l, i ::
          0 <= l < |s.net.loops| && 0 <= i < |s.net.loops[l].callers| && Mine(s.net.loops[l].callers[i].cb) ==>
          && l == Home(s) && HolderAt(s.conn, Owner(s.net.loops[l].callers[i].cb), Drawing)
          && s.net.loops[l].callers[i].op == ReadOp(s.conn))
    && AtMostOne(s.net.loops[Home(s)].callers)
  }

  /** A registered closure of this connection is the holder's, under the identifier it waits for. */
  ghost predicate TableOk(s: State) {
    forall key :: key in s.net.table.callbacks && Mine(s.net.table.callbacks[key]) ==>
      HolderAt(s.conn, Owner(s.net.table.callbacks[key]), Waiting(N.IdOf(key))) && s.conn.arriving == None
  }

  /** A blocked callback is the holder's, with a completion under the identifier it waits for. */
  ghost predicate ArrivalOk(c: Conn) {
    c.arriving.Some? ==>
      var a := c.arriving.value;
      HolderAt(c, a.k, Waiting(a.id)) && a.event.userData == a.id
  }

  /** What every step of every run keeps. */
  ghost predicate Inv(s: State) {
    && D.Ok(s.net) && D.Homed(s.net) && s.conn.fd < N.MAX_FD
    && LockOk(s.conn) && CallersOk(s) && TableOk(s) && ArrivalOk(s.conn)
  }

  lemma InitInv(s: State)
    requires Init(s)
    ensures Inv(s)
  {
    D.InitOk(s.net);
    R.InitCorresponds(s.net);
  }

  lemma IdOfKeyOf(id: uint64)
    ensures N.IdOf(N.KeyOf(id)) == id
  {
    hide Fd, Nonce, Pack;
    UnpackThenPack(id);
  }

  lemma KeyOfIdOf(key: Key)
    requires key.fd < N.MAX_FD
    ensures N.KeyOf(N.IdOf(key)) == key && !Reserved(N.IdOf(key)) && Fd(N.IdOf(key)) == key.fd
  {
    hide N.IdOf, Fd, Nonce;
    D.IdIsOk(key, N.LoopFor(key.fd, 1), 1);
  }

  /** A step of the reactor taken by the connection or by anybody else. */
  function Moves(s: State, a: Action): Option<(nat, N.Move)>
    requires Enabled(s, a)
  {
    match a
    case Draw(k, timeout) => Some((Home(s), N.Draw(ReadOp(s.conn), Closure(k), timeout)))
    case Register(_, i) => Some((Home(s), N.Register(i)))
    case Net(l, m) => Some((l, m))
    case _ => None
  }

  /** Steps that do not concern the reactor. */
  lemma LocalInv(s: State, a: Action)
    requires Inv(s) && Enabled(s, a) && Moves(s, a).None?
    ensures Inv(Step(s, a))
  {
    hide D.Ok, D.Homed, N.LoopFor, Fd, N.IdOf, N.KeyOf, N.Enabled, AtMostOne;
  }

  /** What a reactor step leaves of the callers of a loop: it may append one or remove one. */
  lemma CallersAfter(s: N.State, l: nat, m: N.Move, k: nat)
    requires N.Enabled(s, l, m) && k < |s.loops|
    ensures
      var s' := N.Step(s, l, m);
      s'.loops[k].callers ==
        if k != l then s.loops[k].callers
        else if m.Draw? then
          var key := Key(m.op.fd, s.table.NextNonce(m.op.fd));
          s.loops[k].callers + [N.Caller(m.op, m.cb, m.timeout, key, s.Draws(m.op.fd) + 1)]
        else if m.Register? then Without(s.loops[k].callers, m.i)
        else s.loops[k].callers
  {
    hide N.Skeleton, N.StepTable, C.Step, C.Enabled, N.FirstEntry, N.TimeoutEntry, N.IdOf;
  }

  /** What it leaves of the registry: it may add the callback of a caller, or take one out. */
  lemma TableAfter(s: N.State, l: nat, m: N.Move)
    requires N.Enabled(s, l, m)
    ensures
      var s', cs := N.Step(s, l, m), s.loops[l].callers;
      if m.Register? then s'.table.callbacks == s.table.callbacks[cs[m.i].key := cs[m.i].cb]
      else forall key :: key in s'.table.callbacks ==>
             && key in s.table.callbacks && s'.table.callbacks[key] == s.table.callbacks[key]
             && D.Touched(s.loops[l], m) != Some(key)
  {
    hide N.Skeleton, N.StepLoop, C.Step, C.Enabled, N.KeyOf;
  }

  lemma NetCallers(s: State, l: nat, m: N.Move)
    requires Inv(s) && Enabled(s, Net(l, m))
    ensures CallersOk(Step(s, Net(l, m)))
  {
    hide D.Ok, D.Homed, N.LoopFor, N.Enabled, N.Step, TableOk, N.KeyOf, LockOk, ArrivalOk;
    EnabledShape(s.net, l, m);
    var s' := Step(s, Net(l, m));
    forall k, i | 0 <= k < |s.net.loops| && 0 <= i < |s'.net.loops[k].callers| && Mine(s'.net.loops[k].callers[i].cb)
      ensures s'.net.loops[k].callers[i] in s.net.loops[k].callers
    {
      CallersAfter(s.net, l, m, k);
    }
    OneCaller(s.net, l, m, Home(s));
  }

  lemma OneCaller(s: N.State, l: nat, m: N.Move, h: nat)
    requires N.Enabled(s, l, m) && h < |s.loops| && AtMostOne(s.loops[h].callers)
    requires l == h && m.Draw? ==> !Mine(m.cb)
    ensures |N.Step(s, l, m).loops| == |s.loops| && AtMostOne(N.Step(s, l, m).loops[h].callers)
  {
    hide N.LoopFor, N.Enabled, N.Step, AtMostOne;
    EnabledShape(s, l, m);
    CallersAfter(s, l, m, h);
    if l == h && m.Register? {
      FewerAtMostOne(s.loops[h].callers, m.i);
    } else if l == h && m.Draw? {
      MoreAtMostOne(s.loops[h].callers, N.Step(s, l, m).loops[h].callers[|s.loops[h].callers|]);
    }
  }

  lemma FewerAtMostOne(cs: seq<N.Caller>, k: nat)
    requires AtMostOne(cs) && k < |cs|
    ensures AtMostOne(Without(cs, k))
  {
    var cs' := Without(cs, k);
    assert forall i :: 0 <= i < |cs'| ==> cs'[i] == cs[if i < k then i else i + 1];
  }

  lemma MoreAtMostOne(cs: seq<N.Caller>, c: N.Caller)
    requires AtMostOne(cs) && !Mine(c.cb)
    ensures AtMostOne(cs + [c])
  {
  }

  lemma EnabledShape(s: N.State, l: nat, m: N.Move)
    requires N.Enabled(s, l, m)
    ensures N.Shape(s) && l < |s.loops| && N.Possible(s.loops[l], m)
    ensures N.Shape(N.Step(s, l, m)) && |N.Step(s, l, m).loops| == |s.loops|
  {
    D.StepShape(s, l, m);
  }

  /** There is at most one registered closure of this connection. */
  lemma OneClosure(s: State, key: Key, other: Key)
    requires D.TableOk(s.net.table) && TableOk(s)
    requires key in s.net.table.callbacks && Mine(s.net.table.callbacks[key])
    requires other in s.net.table.callbacks && Mine(s.net.table.callbacks[other])
    ensures key == other
  {
    hide N.IdOf, N.KeyOf;
    KeyOfIdOf(key);
    KeyOfIdOf(other);
  }

  lemma NetTable(s: State, l: nat, m: N.Move)
    requires Inv(s) && Enabled(s, Net(l, m))
    ensures TableOk(Step(s, Net(l, m)))
  {
    hide D.Homed, D.LoopOk, N.LoopFor, N.Step, N.Enabled, N.IdOf, N.KeyOf, CallersOk, Newest, C.Inv;
    EnabledShape(s.net, l, m);
    TableAfter(s.net, l, m);
    var s' := Step(s, Net(l, m));
    forall key | key in s'.net.table.callbacks && Mine(s'.net.table.callbacks[key])
      ensures HolderAt(s'.conn, Owner(s'.net.table.callbacks[key]), Waiting(N.IdOf(key))) && s'.conn.arriving == None
    {
      if m.Dispatch? && s'.conn.arriving.Some? {
        var run := N.KeyOf(s.net.loops[l].cq.ready[s.net.loops[l].batch.i].userData);
        OneClosure(s, key, run);
      }
    }
  }

  lemma NetArrival(s: State, l: nat, m: N.Move)
    requires Inv(s) && Enabled(s, Net(l, m))
    ensures ArrivalOk(Step(s, Net(l, m)).conn)
  {
    hide D.Homed, D.Ok, N.Step, N.Enabled, N.LoopFor, N.IdOf, CallersOk, Fd, Nonce, Newest;
    EnabledShape(s.net, l, m);
    if m.Dispatch? {
      IdOfKeyOf(s.net.loops[l].cq.ready[s.net.loops[l].batch.i].userData);
    }
  }

  /** The holder draws its nonce. */
  lemma DrawInv(s: State, k: nat, timeout: int)
    requires Inv(s) && Enabled(s, Draw(k, timeout))
    ensures
      var s' := Step(s, Draw(k, timeout));
      LockOk(s'.conn) && CallersOk(s') && TableOk(s') && ArrivalOk(s'.conn)
  {
    hide D.Homed, D.Ok, N.Step, N.Enabled, N.LoopFor, N.IdOf, N.KeyOf, Fd;
    var h, m := Home(s), N.Draw(ReadOp(s.conn), Closure(k), timeout);
    var s' := Step(s, Draw(k, timeout));
    EnabledShape(s.net, h, m);
    TableAfter(s.net, h, m);
    forall l | 0 <= l < |s.net.loops|
      ensures forall i :: 0 <= i < |s'.net.loops[l].callers| && Mine(s'.net.loops[l].callers[i].cb) ==>
        && l == h && i == |s'.net.loops[l].callers| - 1 && s'.net.loops[l].callers[i].cb == Closure(k)
        && s'.net.loops[l].callers[i].op == ReadOp(s.conn)
    {
      CallersAfter(s.net, h, m, l);
    }
  }

  /** The holder's callback is registered. */
  lemma RegisterInv(s: State, k: nat, i: nat)
    requires Inv(s) && Enabled(s, Register(k, i))
    ensures var s' := Step(s, Register(k, i)); LockOk(s'.conn) && CallersOk(s') && TableOk(s') && ArrivalOk(s'.conn)
  {
    hide D.Homed, D.Ok, N.Step, N.Enabled, N.LoopFor, N.IdOf, N.KeyOf, AtMostOne;
    EnabledShape(s.net, Home(s), N.Register(i));
    TableAfter(s.net, Home(s), N.Register(i));
    RegisterCallers(s, k, i);
  }

  lemma RegisterCallers(s: State, k: nat, i: nat)
    requires Inv(s) && Enabled(s, Register(k, i))
    ensures var net := N.Step(s.net, Home(s), N.Register(i));
            forall l, j :: 0 <= l < |net.loops| && 0 <= j < |net.loops[l].callers| ==> !Mine(net.loops[l].callers[j].cb)
    ensures AtMostOne(N.Step(s.net, Home(s), N.Register(i)).loops[Home(s)].callers)
  {
    hide D.Homed, D.Ok, N.Step, N.Enabled, N.LoopFor, N.IdOf, N.KeyOf, LockOk, TableOk, ArrivalOk;
    var h, m := Home(s), N.Register(i);
    EnabledShape(s.net, h, m);
    forall l, j | 0 <= l < |s.net.loops| && 0 <= j < |N.Step(s.net, h, m).loops[l].callers|
      ensures !Mine(N.Step(s.net, h, m).loops[l].callers[j].cb)
    {
      CallersAfter(s.net, h, m, l);
      var cs, cs' := s.net.loops[l].callers, N.Step(s.net, h, m).loops[l].callers;
      assert l == h ==> cs'[j] == cs[if j < i then j else j + 1];
    }
  }

  /** Every step keeps the invariant. */
  lemma StepInv(s: State, a: Action)
    requires Inv(s) && Enabled(s, a)
    ensures Inv(Step(s, a))
  {
    hide D.Ok, D.Homed, N.Step, N.Enabled, CallersOk, TableOk, ArrivalOk, LockOk, Newest;
    var moves := Moves(s, a);
    if moves.None? {
      LocalInv(s, a);
    } else {
      D.StepOk(s.net, moves.value.0, moves.value.1);
      D.HomedStep(s.net, moves.value.0, moves.value.1);
      match a
      case Draw(k, timeout) => DrawInv(s, k, timeout);
      case Register(k, i) => RegisterInv(s, k, i);
      case Net(l, m) =>
        NetCallers(s, l, m);
        NetTable(s, l, m);
        NetArrival(s, l, m);
        NetLock(s, l, m);
      case _ =>
    }
  }

  lemma NetLock(s: State, l: nat, m: N.Move)
    requires Inv(s) && Enabled(s, Net(l, m))
    ensures LockOk(Step(s, Net(l, m)).conn)
  {
    hide D.Ok, D.Homed, N.Step, N.Enabled, CallersOk, TableOk, Newest;
  }

  // ----- the entry of a call's request -----

  lemma NewestAppend(es: seq<SQEntry>, e: SQEntry, id: uint64)
    ensures Newest(es + [e], id) == if e.userData == id then Some(e) else Newest(es, id)
  {
    assert (es + [e])[..|es|] == es;
  }

  /** Entries with other identifiers do not matter. */
  lemma {:induction false} NewestBefore(es: seq<SQEntry>, more: seq<SQEntry>, id: uint64)
    requires Count(more, D.SqeId, id) == 0
    ensures Newest(es + more, id) == Newest(es, id)
  {
    hide Count, Newest;
    if more == [] {
      assert es + more == es;
    } else {
      var front, e := more[..|more| - 1], more[|more| - 1];
      CountAppend(front, e, D.SqeId, id);
      assert front + [e] == more;
      NewestBefore(es, front, id);
      NewestAppend(es + front, e, id);
      assert es + more == es + front + [e];
    }
  }

  /** The requests on their way to the queue under an identifier carry this operation. */
  ghost predicate ComingWith(d: N.Loop, id: uint64, op: Operation) {
    && (forall x :: x in d.sending && x.userData == id ==> x.op == op)
    && (forall x :: x in d.bus && x.userData == id ==> x.op == op)
    && (d.job.First? && d.job.req.userData == id ==> d.job.req.op == op)
  }

  /** The entry is that of the operation, whatever its flags. */
  predicate Carries(e: Option<SQEntry>, op: Operation) {
    e.Some? && Holds(e.value, op, e.value.flags, e.value.userData)
  }

  /**
   The request under an identifier is under way once in its loop and carries the shared operation; once its entry is
   queued, that is the newest entry under the identifier, and the shared operation was found to hold its buffer.
   */
  ghost predicate RequestOk(s: State, id: uint64)
    requires N.Shape(s.net)
  {
    var d := s.net.loops[N.LoopFor(Fd(id), |s.net.loops|)];
    && D.Live(d, id) == 1 && ComingWith(d, id, ReadOp(s.conn))
    && (D.Submitted(d, id) + D.Completed(d, id) >= 1 ==>
          && Carries(Newest(d.sq.History(), id), ReadOp(s.conn))
          && id in s.conn.prepared && s.conn.prepared[id] == s.conn.opBuffer)
  }

  /** The closure of call `k` is registered under this identifier. */
  predicate Registered(s: State, k: nat, id: uint64) {
    !Reserved(id) && N.KeyOf(id) in s.net.table.callbacks && s.net.table.callbacks[N.KeyOf(id)] == Closure(k)
  }

  /** The request of call `k`, and the completion that has arrived for it, are its own. */
  ghost predicate OwnOk(s: State, k: nat)
    requires N.Shape(s.net)
  {
    && (forall id: uint64 :: Registered(s, k, id) ==> RequestOk(s, id))
    && (s.conn.arriving.Some? && s.conn.arriving.value.k == k ==> ArrivedOwn(s.conn, s.conn.arriving.value))
  }

  ghost predicate ArrivedOwn(c: Conn, a: Arrival) {
    && a.k in c.calls && Carries(a.entry, ReadOp(c)) && c.opBuffer == c.calls[a.k].buffer
    && a.id in c.prepared && c.prepared[a.id] == c.calls[a.k].buffer
  }

  /** A call whose closure is registered or blocked is the holder, waiting. */
  lemma NotWaiting(s: State, k: nat)
    requires Inv(s) && !(k in s.conn.calls && s.conn.calls[k].at.Waiting? && s.conn.holder == Some(k))
    ensures s.conn.arriving.Some? ==> s.conn.arriving.value.k != k
    ensures forall key :: key in s.net.table.callbacks ==> s.net.table.callbacks[key] != Closure(k)
  {
    hide D.Ok, D.Homed, CallersOk, N.IdOf;
  }

  lemma LocalOwn(s: State, a: Action, k: nat)
    requires Inv(s) && Enabled(s, a) && Moves(s, a).None? && OwnOk(s, k)
    ensures OwnOk(Step(s, a), k)
  {
    hide D.Ok, D.Homed, N.LoopFor, Fd, N.IdOf, N.KeyOf, N.Enabled, CallersOk, Newest, D.Live, D.Submitted,
      D.Completed, ComingWith, Carries;
    var s' := Step(s, a);
    StepInv(s, a);
    if k in s'.conn.calls && s'.conn.calls[k].at.Waiting? && s'.conn.holder == Some(k) {
      assert s'.conn.opBuffer == s.conn.opBuffer && s'.conn.prepared == s.conn.prepared;
      assert ReadOp(s'.conn) == ReadOp(s.conn);
      forall id: uint64 | Registered(s', k, id)
        ensures RequestOk(s', id)
      {
        assert Registered(s, k, id) && RequestOk(s, id);
      }
    } else {
      NotWaiting(s', k);
    }
  }

  lemma DrawOwn(s: State, j: nat, timeout: int, k: nat)
    requires Inv(s) && Enabled(s, Draw(j, timeout))
    ensures N.Shape(Step(s, Draw(j, timeout)).net) && OwnOk(Step(s, Draw(j, timeout)), k)
  {
    hide D.Ok, D.Homed, N.Step, N.Enabled, CallersOk, N.LoopFor, RequestOk;
    EnabledShape(s.net, Home(s), N.Draw(ReadOp(s.conn), Closure(j), timeout));
    StepInv(s, Draw(j, timeout));
    NotWaiting(Step(s, Draw(j, timeout)), k);
  }

  /** What the submission queue of a loop holds in all after a step. */
  lemma HistoryAfter(d: N.Loop, m: N.Move, t: Table, serial: nat)
    requires N.Possible(d, m)
    ensures N.StepLoop(d, m, t, serial).sq.History() ==
            if m.QueueFirst? && d.sq.Free() > 0 then d.sq.History() + [N.FirstEntry(d.job.req)]
            else if m.QueueSecond? && d.sq.Free() > 0 then d.sq.History() + [N.TimeoutEntry(d.job.req)]
            else d.sq.History()
  {
    hide N.FirstEntry, N.TimeoutEntry, N.IdOf, SubQueue.History;
    match m
    case QueueFirst => HistoryGrows(d.sq, N.FirstEntry(d.job.req));
    case QueueSecond => HistoryGrows(d.sq, N.TimeoutEntry(d.job.req));
    case Flush => HistoryKept(d.sq, 0);
    case Take => HistoryKept(d.sq, 1);
    case _ =>
  }

  /** Requests on their way go on carrying their operation. */
  lemma ComingAfter(d: N.Loop, m: N.Move, t: Table, serial: nat, l: nat, n: nat, id: uint64, op: Operation)
    requires N.Possible(d, m) && n > 0 && D.LoopOk(d, l, n) && !Reserved(id) && ComingWith(d, id, op)
    requires D.Touched(d, m) != Some(N.KeyOf(id))
    ensures ComingWith(N.StepLoop(d, m, t, serial), id, op)
  {
    hide N.FirstEntry, N.TimeoutEntry, N.IdOf, N.KeyOf, N.LoopFor, Fd, D.QueuesOk, D.JobOk, D.RequestsOk;
    match m
    case Register(i) =>
      assert d.callers[i] in d.callers;
      D.IdIsOk(d.callers[i].key, l, n);
    case Send(i) => assert d.sending[i] in d.sending;
    case Receive => assert d.bus[0] in d.bus;
    case _ =>
  }

  /** The step that queues an identifier's own entry. */
  predicate Queues(d: N.Loop, m: N.Move, id: uint64) {
    m.QueueFirst? && d.job.First? && d.sq.Free() > 0 && d.job.req.userData == id
  }

  /** The newest entry under an identifier changes only when its own entry is queued. */
  lemma NewestAfter(d: N.Loop, m: N.Move, t: Table, serial: nat, id: uint64)
    requires N.Possible(d, m) && !Reserved(id)
    ensures Newest(N.StepLoop(d, m, t, serial).sq.History(), id) ==
            if Queues(d, m, id) then Some(N.FirstEntry(d.job.req)) else Newest(d.sq.History(), id)
  {
    hide N.StepLoop, SubQueue.History, BitOr, Newest;
    HistoryAfter(d, m, t, serial);
    if m.QueueFirst? {
      NewestAppend(d.sq.History(), N.FirstEntry(d.job.req), id);
    } else if m.QueueSecond? {
      NewestAppend(d.sq.History(), N.TimeoutEntry(d.job.req), id);
    }
  }

  lemma FirstCarries(req: N.Request)
    ensures Carries(Some(N.FirstEntry(req)), req.op)
  {
    hide BitOr;
  }

  /** Only the successful queueing of its own entry brings an identifier into the submission queue. */
  lemma QueuedOnlyThere(d: N.Loop, m: N.Move, t: Table, serial: nat, id: uint64)
    requires N.Possible(d, m) && !Reserved(id) && D.QueuesOk(d) && !Queues(d, m, id)
    ensures var d' := N.StepLoop(d, m, t, serial);
            D.Submitted(d', id) + D.Completed(d', id) <= D.Submitted(d, id) + D.Completed(d, id)
  {
    hide D.Submitted, D.Completed, N.StepLoop;
    D.SubmittedStep(d, m, t, serial, id);
    D.CompletedStep(d, m, t, serial, id);
  }

  /** A step of its loop that leaves a request's callback registered leaves the request as it should be. */
  lemma LoopOwn(d: N.Loop, m: N.Move, t: Table, serial: nat, l: nat, n: nat, id: uint64, op: Operation)
    requires N.Possible(d, m) && n > 0 && D.LoopOk(d, l, n) && !Reserved(id) && (D.Starts(m) ==> d.job.NoJob?)
    requires D.Touched(d, m) != Some(N.KeyOf(id))
    requires D.Live(d, id) == 1 && ComingWith(d, id, op)
    requires D.Submitted(d, id) + D.Completed(d, id) >= 1 ==> Carries(Newest(d.sq.History(), id), op)
    ensures
      var d' := N.StepLoop(d, m, t, serial);
      && D.Live(d', id) == 1 && ComingWith(d', id, op)
      && (D.Submitted(d', id) + D.Completed(d', id) >= 1 ==>
            && Carries(Newest(d'.sq.History(), id), op)
            && (Queues(d, m, id) || D.Submitted(d, id) + D.Completed(d, id) >= 1))
  {
    hide D.Live, D.Submitted, D.Completed, N.StepLoop, ComingWith, Carries, Newest, SubQueue.History, N.KeyOf,
      N.LoopFor, D.Touched, N.FirstEntry;
    assert D.QueuesOk(d);
    D.LiveStep(d, m, t, serial, id);
    D.NotTouched(d, m, l, n, id);
    ComingAfter(d, m, t, serial, l, n, id, op);
    NewestAfter(d, m, t, serial, id);
    if Queues(d, m, id) {
      assert d.job.req.op == op by { JobCarries(d, id, op); }
      FirstCarries(d.job.req);
    } else {
      QueuedOnlyThere(d, m, t, serial, id);
    }
  }

  lemma JobCarries(d: N.Loop, id: uint64, op: Operation)
    requires ComingWith(d, id, op) && d.job.First? && d.job.req.userData == id
    ensures d.job.req.op == op
  {
  }

  /** A request whose closure stays registered over a step of anybody else. */
  lemma NetRequest(s: State, l: nat, m: N.Move, k: nat, id: uint64)
    requires Inv(s) && Enabled(s, Net(l, m)) && OwnOk(s, k) && Registered(Step(s, Net(l, m)), k, id)
    ensures N.Shape(Step(s, Net(l, m)).net) && RequestOk(Step(s, Net(l, m)), id)
  {
    hide D.Live, D.Submitted, D.Completed, N.StepLoop, N.StepTable, ComingWith, Carries, Newest, N.KeyOf, N.LoopFor,
      Fd, SubQueue.History, CallersOk, TableOk, C.Step, C.Enabled, D.Homed, C.Inv, N.IdOf, D.Touched, LockOk,
      ArrivalOk;
    EnabledShape(s.net, l, m);
    TableAfter(s.net, l, m);
    StillRegistered(s, l, m, k, id);
    var n := |s.net.loops|;
    var h := N.LoopFor(Fd(id), n);
    assert RequestOk(s, id);
    if l == h {
      D.JobFree(s.net, l, m);
      assert D.LoopOk(s.net.loops[l], l, n);
      var serial := if m.Draw? then s.net.Draws(m.op.fd) + 1 else 0;
      LoopOwn(s.net.loops[l], m, s.net.table, serial, l, n, id, ReadOp(s.conn));
    }
  }

  lemma StillRegistered(s: State, l: nat, m: N.Move, k: nat, id: uint64)
    requires Enabled(s, Net(l, m)) && Registered(Step(s, Net(l, m)), k, id)
    ensures Registered(s, k, id) && D.Touched(s.net.loops[l], m) != Some(N.KeyOf(id))
  {
    hide N.KeyOf, N.Step, N.Enabled, Newest;
    EnabledShape(s.net, l, m);
    TableAfter(s.net, l, m);
  }

  /** A completion under way leaves nothing else under way. */
  lemma OnlyCompleted(d: N.Loop, id: uint64)
    requires D.Live(d, id) == 1 && D.Completed(d, id) >= 1
    ensures Newest(d.sq.consumed, id) == Newest(d.sq.History(), id)
  {
    hide Count, Newest;
    NewestBefore(d.sq.consumed, d.sq.published, id);
    NewestBefore(d.sq.consumed + d.sq.published, d.sq.unpublished, id);
  }

  lemma CompletedIsLive(d: N.Loop)
    requires N.Possible(d, N.Dispatch)
    ensures D.Completed(d, d.cq.ready[d.batch.i].userData) >= 1
  {
    P.NextIsPending(d.cq, d.batch.i);
  }

  /** The closure of call `k` is run and blocks: what has arrived is its own. */
  lemma DispatchOwn(s: State, l: nat, k: nat)
    requires Inv(s) && Enabled(s, Net(l, N.Dispatch)) && OwnOk(s, k)
    requires Registered(s, k, s.net.loops[l].cq.ready[s.net.loops[l].batch.i].userData)
    ensures
      var c := Step(s, Net(l, N.Dispatch)).conn;
      c.arriving.Some? && c.arriving.value.k == k && ArrivedOwn(c, c.arriving.value)
  {
    hide D.Live, D.Submitted, N.Step, N.KeyOf, N.LoopFor, Fd, SubQueue.History, CallersOk, D.Ok, N.Enabled, N.IdOf,
      ComingWith, Carries, Newest, D.Completed;
    EnabledShape(s.net, l, N.Dispatch);
    var d := s.net.loops[l];
    var id := d.cq.ready[d.batch.i].userData;
    CompletedIsLive(d);
    D.DispatchedIsLive(d);
    assert D.Home(id, l, |s.net.loops|);
    assert RequestOk(s, id);
    OnlyCompleted(d, id);
    IdOfKeyOf(id);
  }

  lemma NetOwn(s: State, l: nat, m: N.Move, k: nat)
    requires Inv(s) && Enabled(s, Net(l, m)) && OwnOk(s, k)
    ensures N.Shape(Step(s, Net(l, m)).net) && OwnOk(Step(s, Net(l, m)), k)
  {
    hide N.Step, N.Enabled, N.KeyOf, RequestOk, CallersOk, D.Ok, D.Homed, N.LoopFor, Newest, ArrivedOwn, Registered,
      LockOk, TableOk;
    EnabledShape(s.net, l, m);
    var s' := Step(s, Net(l, m));
    forall id: uint64 | Registered(s', k, id)
      ensures RequestOk(s', id)
    {
      NetRequest(s, l, m, k, id);
    }
    if s'.conn.arriving.Some? && s'.conn.arriving.value.k == k {
      if s'.conn.arriving == s.conn.arriving && s.conn.arriving.Some? {
        ArrivedKept(s, l, m);
      } else {
        assert Registered(s, k, s.net.loops[l].cq.ready[s.net.loops[l].batch.i].userData) by { WhoArrives(s, l, m); }
        DispatchOwn(s, l, k);
      }
    }
  }

  lemma WhoArrives(s: State, l: nat, m: N.Move)
    requires Enabled(s, Net(l, m)) && N.Shape(s.net) && Step(s, Net(l, m)).conn.arriving.Some?
    requires Step(s, Net(l, m)).conn.arriving != s.conn.arriving
    ensures m.Dispatch? && l < |s.net.loops| && N.Possible(s.net.loops[l], m)
    ensures
      var d := s.net.loops[l];
      Registered(s, Step(s, Net(l, m)).conn.arriving.value.k, d.cq.ready[d.batch.i].userData)
  {
    hide N.Step, N.KeyOf, Newest, N.Skeleton, N.Fits;
  }

  /** What has arrived stays as it is while the callback is blocked. */
  lemma ArrivedKept(s: State, l: nat, m: N.Move)
    requires Inv(s) && Enabled(s, Net(l, m)) && s.conn.arriving.Some? && ArrivedOwn(s.conn, s.conn.arriving.value)
    requires Step(s, Net(l, m)).conn.arriving == s.conn.arriving
    ensures ArrivedOwn(Step(s, Net(l, m)).conn, s.conn.arriving.value)
  {
    hide N.Step, N.Enabled, N.KeyOf, CallersOk, D.Ok, D.Homed, N.LoopFor, Newest, Carries;
  }

  /** Whether, when call `k` registers, nothing is under way yet under the identifier it has drawn. */
  ghost predicate RegistersFresh(s: State, a: Action)
    requires Enabled(s, a)
  {
    a.Register? ==> D.Live(s.net.loops[Home(s)], N.IdOf(s.net.loops[Home(s)].callers[a.i].key)) == 0
  }

  /** The call's own registration. */
  lemma RegisterOwn(s: State, k: nat, i: nat)
    requires Inv(s) && Enabled(s, Register(k, i)) && RegistersFresh(s, Register(k, i))
    ensures N.Shape(Step(s, Register(k, i)).net) && OwnOk(Step(s, Register(k, i)), k)
  {
    hide D.Live, N.Step, N.Enabled, N.KeyOf, CallersOk, D.Homed, D.LoopOk, N.LoopFor, Fd, N.IdOf, C.Inv, D.InStep,
      ComingWith, D.Submitted, D.Completed, Newest, Carries, N.StepLoop;
    var h, m, s' := Home(s), N.Register(i), Step(s, Register(k, i));
    EnabledShape(s.net, h, m);
    TableAfter(s.net, h, m);
    forall id: uint64 | Registered(s', k, id)
      ensures RequestOk(s', id)
    {
      assert N.KeyOf(id) == s.net.loops[h].callers[i].key by {
        NotWaiting(s, k);
      }
      IdOfKeyOf(id);
      assert s.net.loops[h].callers[i].op == ReadOp(s.conn) && s.net.loops[h].callers[i].key.fd == s.conn.fd by {
        OwnCaller(s, k, i);
      }
      assert Fd(id) == s.conn.fd by { KeyOfIdOf(s.net.loops[h].callers[i].key); }
      FreshRequest(s.net.loops[h], i, s.net.table, h, |s.net.loops|, id);
      RegisterStep(s, k, i);
    }
  }

  lemma OwnCaller(s: State, k: nat, i: nat)
    requires Inv(s) && Enabled(s, Register(k, i))
    ensures var c := s.net.loops[Home(s)].callers[i]; c.op == ReadOp(s.conn) && c.key.fd == s.conn.fd
  {
    hide N.LoopFor, N.IdOf, N.KeyOf, D.Homed;
    var h := Home(s);
    assert D.LoopOk(s.net.loops[h], h, |s.net.loops|);
    assert s.net.loops[h].callers[i] in s.net.loops[h].callers;
  }

  lemma RegisterStep(s: State, k: nat, i: nat)
    requires Enabled(s, Register(k, i))
    ensures var s' := Step(s, Register(k, i));
            && s'.net.loops[Home(s)] == N.StepLoop(s.net.loops[Home(s)], N.Register(i), s.net.table, 0)
            && ReadOp(s'.conn) == ReadOp(s.conn)
  {
    hide N.Skeleton, N.StepTable, C.Step, C.Enabled;
  }

  /** A request registered under an identifier that was not under way is the only one under it, and not yet queued. */
  lemma FreshRequest(d: N.Loop, i: nat, t: Table, l: nat, n: nat, id: uint64)
    requires N.Possible(d, N.Register(i)) && n > 0 && D.LoopOk(d, l, n) && !Reserved(id)
    requires N.IdOf(d.callers[i].key) == id && D.Live(d, id) == 0
    ensures
      var d' := N.StepLoop(d, N.Register(i), t, 0);
      && D.Live(d', id) == 1 && ComingWith(d', id, d.callers[i].op)
      && D.Submitted(d', id) + D.Completed(d', id) == 0
  {
    hide N.IdOf, N.LoopFor, Fd, Count;
    D.LiveStep(d, N.Register(i), t, 0, id);
    D.ComingStep(d, N.Register(i), t, 0, id);
    NoneComing(d.sending, id);
    NoneComing(d.bus, id);
  }

  lemma NoneComing(reqs: seq<N.Request>, id: uint64)
    requires Count(reqs, D.RequestId, id) == 0
    ensures forall x :: x in reqs ==> x.userData != id
  {
    forall i | 0 <= i < |reqs|
      ensures reqs[i].userData != id
    {
      CountIn(reqs, i, D.RequestId);
    }
  }

  /** The registration of another call of the connection. */
  lemma OtherRegisters(s: State, j: nat, i: nat, k: nat)
    requires Inv(s) && Enabled(s, Register(j, i)) && j != k
    ensures N.Shape(Step(s, Register(j, i)).net) && OwnOk(Step(s, Register(j, i)), k)
  {
    hide D.Ok, D.Homed, N.Step, N.Enabled, CallersOk, N.LoopFor, RequestOk, N.IdOf, N.KeyOf;
    EnabledShape(s.net, Home(s), N.Register(i));
    TableAfter(s.net, Home(s), N.Register(i));
    NotWaiting(s, k);
  }

  lemma StepOwn(s: State, a: Action, k: nat)
    requires Inv(s) && Enabled(s, a) && OwnOk(s, k)
    requires a.Register? && a.k == k ==> RegistersFresh(s, a)
    ensures N.Shape(Step(s, a).net) && OwnOk(Step(s, a), k)
  {
    hide Inv, OwnOk, N.Enabled, N.Step, N.LoopFor;
    match a
    case Draw(j, timeout) => DrawOwn(s, j, timeout, k);
    case Register(j, i) =>
      if j == k {
        RegisterOwn(s, k, i);
      } else {
        OtherRegisters(s, j, i, k);
      }
    case Net(l, m) => NetOwn(s, l, m, k);
    case _ => LocalOwn(s, a, k);
  }

  // ----- runs -----

  /** A run of readers and reactor. */
  ghost predicate IsRun(ss: seq<State>, acts: seq<Action>) {
    && |ss| == |acts| + 1 && Init(ss[0])
    && forall i :: 0 <= i < |acts| ==> Enabled(ss[i], acts[i]) && ss[i + 1] == Step(ss[i], acts[i])
  }

  lemma {:induction false} RunInv(ss: seq<State>, acts: seq<Action>, i: nat)
    requires IsRun(ss, acts) && i < |ss|
    ensures Inv(ss[i])
  {
    hide Inv, Step, Enabled, Init;
    if i == 0 {
      InitInv(ss[0]);
    } else {
      RunInv(ss, acts, i - 1);
      StepInv(ss[i - 1], acts[i - 1]);
    }
  }

  /**
   In the first `i` steps, when call `k` registers its callback no request is still under way under the identifier
   it has drawn. (Identifiers repeat after 2^32 requests on the descriptor.)
   */
  ghost predicate DrawsFresh(ss: seq<State>, acts: seq<Action>, i: nat, k: nat)
    requires IsRun(ss, acts) && i <= |acts|
  {
    forall j :: 0 <= j < i && acts[j].Register? && acts[j].k == k ==> RegistersFresh(ss[j], acts[j])
  }

  lemma {:induction false} RunOwn(ss: seq<State>, acts: seq<Action>, i: nat, k: nat)
    requires IsRun(ss, acts) && i < |ss| && DrawsFresh(ss, acts, i, k)
    ensures N.Shape(ss[i].net) && OwnOk(ss[i], k)
  {
    hide Inv, Step, Enabled, OwnOk, RegistersFresh;
    if i == 0 {
      InitOwn(ss[0], k);
    } else {
      RunOwn(ss, acts, i - 1, k);
      RunInv(ss, acts, i - 1);
      StepOwn(ss[i - 1], acts[i - 1], k);
    }
  }

  lemma InitOwn(s: State, k: nat)
    requires Init(s)
    ensures N.Shape(s.net) && OwnOk(s, k)
  {
    hide RequestOk, N.KeyOf;
  }

  // ----- the event that a call gets -----

  /** In step `j` a consumer processes this event and runs the callback of call `k` for it. */
  ghost predicate DispatchesAt(ss: seq<State>, acts: seq<Action>, j: nat, k: nat, e: CQEvent) {
    && j < |acts| && j < |ss| && acts[j].Net? && acts[j].m.Dispatch? && Enabled(ss[j], acts[j])
    && var d := ss[j].net.loops[acts[j].l];
       e == d.cq.ready[d.batch.i] && Registered(ss[j], k, e.userData)
  }

  ghost predicate Dispatched(ss: seq<State>, acts: seq<Action>, i: nat, k: nat, e: CQEvent) {
    exists j :: 0 <= j < i && DispatchesAt(ss, acts, j, k, e)
  }

  /** What has arrived for a call, what it has received and what it has returned with was dispatched for it. */
  ghost predicate HandedOver(ss: seq<State>, acts: seq<Action>, i: nat)
    requires i < |ss|
  {
    var c := ss[i].conn;
    && (c.arriving.Some? ==> Dispatched(ss, acts, i, c.arriving.value.k, c.arriving.value.event))
    && (forall k :: k in c.calls && c.calls[k].at.Done? ==> Dispatched(ss, acts, i, k, c.calls[k].at.event))
    && (forall k :: k in c.calls && c.calls[k].at.Returned? ==> Dispatched(ss, acts, i, k, c.calls[k].at.event))
  }

  lemma DispatchedEarlier(ss: seq<State>, acts: seq<Action>, i: nat, k: nat, e: CQEvent)
    requires i > 0 && Dispatched(ss, acts, i - 1, k, e)
    ensures Dispatched(ss, acts, i, k, e)
  {
    hide DispatchesAt;
    var j :| 0 <= j < i - 1 && DispatchesAt(ss, acts, j, k, e);
  }

  lemma {:induction false} RunHanded(ss: seq<State>, acts: seq<Action>, i: nat)
    requires IsRun(ss, acts) && i < |ss|
    ensures HandedOver(ss, acts, i)
  {
    hide Inv, Step, Enabled, Dispatched, N.Init;
    if i > 0 {
      RunHanded(ss, acts, i - 1);
      RunInv(ss, acts, i - 1);
      var s, a := ss[i - 1], acts[i - 1];
      forall k, e: CQEvent | Dispatched(ss, acts, i - 1, k, e)
        ensures Dispatched(ss, acts, i, k, e)
      {
        DispatchedEarlier(ss, acts, i, k, e);
      }
      if a.Net? {
        ArrivesNow(ss, acts, i - 1);
      } else {
        StaysOrMovesOn(s, a);
      }
    }
  }

  /** A reactor step changes no call, and what newly arrives is the event it dispatches. */
  lemma ArrivesNow(ss: seq<State>, acts: seq<Action>, i: nat)
    requires IsRun(ss, acts) && i < |acts| && acts[i].Net?
    ensures
      var c, c' := ss[i].conn, ss[i + 1].conn;
      && c'.calls == c.calls
      && (c'.arriving == c.arriving ||
          (c'.arriving.Some? && Dispatched(ss, acts, i + 1, c'.arriving.value.k, c'.arriving.value.event)))
  {
    hide N.Step, N.Enabled, N.KeyOf, Newest, N.LoopFor, Init;
    EnabledShape(ss[i].net, acts[i].l, acts[i].m);
    var c' := ss[i + 1].conn;
    if c'.arriving != ss[i].conn.arriving {
      assert DispatchesAt(ss, acts, i, c'.arriving.value.k, c'.arriving.value.event);
    }
  }

  /** Any other step leaves the events where they are, or passes one on. */
  lemma StaysOrMovesOn(s: State, a: Action)
    requires Inv(s) && Enabled(s, a) && !a.Net?
    ensures
      var c, c' := s.conn, Step(s, a).conn;
      && (c'.arriving.Some? ==> c'.arriving == c.arriving)
      && forall k :: k in c'.calls ==>
           var at' := c'.calls[k].at;
           && (at'.Done? ==>
                 || (k in c.calls && c.calls[k].at == at')
                 || (c.arriving.Some? && c.arriving.value.k == k && at'.event == c.arriving.value.event))
           && (at'.Returned? ==>
                 && k in c.calls
                 && (c.calls[k].at == at' || (c.calls[k].at.Done? && c.calls[k].at.event == at'.event)))
  {
    hide D.Ok, D.Homed, CallersOk, TableOk, N.Step, N.Enabled, N.LoopFor, N.IdOf;
  }

  /**
   However many readers there are, and whatever else the reactor does, in every run: a reader that receives gets a
   completion under the identifier of the request it queued itself, and it is, unchanged, an event that a consumer
   dispatched while the reader's callback was registered under that identifier. And if nothing was under way under that
   identifier when it registered, it is its own request's completion: the entry that the kernel consumed under
   the identifier carries the reader's own buffer, which is what the shared operation held when it was prepared.
   */
  lemma ReadGetsItsOwn(ss: seq<State>, acts: seq<Action>, i: nat, k: nat)
    requires IsRun(ss, acts) && i < |acts| && acts[i] == Receive(k)
    ensures
      var c, c' := ss[i].conn, ss[i + 1].conn;
      var a := c.arriving.value;
      && a.k == k && CallAt(c, k, Waiting(a.id)) && a.event.userData == a.id && c'.calls[k].at == Done(a.id, a.event)
      && Dispatched(ss, acts, i, k, a.event)
      && (DrawsFresh(ss, acts, i, k) ==>
            && ReadsInto(a.entry, c, c.calls[k].buffer)
            && a.id in c.prepared && c.prepared[a.id] == c.calls[k].buffer)
  {
    hide D.Ok, D.Homed, CallersOk, TableOk, DrawsFresh, RequestOk, Dispatched;
    RunInv(ss, acts, i);
    RunHanded(ss, acts, i);
    if DrawsFresh(ss, acts, i, k) {
      RunOwn(ss, acts, i, k);
    }
  }

  /** The entry asks for this connection's operation on this buffer, and nothing more. */
  predicate ReadsInto(e: Option<SQEntry>, c: Conn, b: Buffer) {
    && e.Some? && e.value.opCode == c.code && e.value.fd == c.fd && e.value.addr == b.addr && e.value.len == b.len
    && e.value.off == 0 && e.value.opcodeFlags == 0
  }

  /** In every run: while a reader waits, the shared operation holds its buffer and no other reader is past its lock. */
  lemma BufferIsHeld(ss: seq<State>, acts: seq<Action>, i: nat, k: nat)
    requires IsRun(ss, acts) && i < |ss| && k in ss[i].conn.calls && ss[i].conn.calls[k].at.Waiting?
    ensures ss[i].conn.opBuffer == ss[i].conn.calls[k].buffer
    ensures forall j :: j in ss[i].conn.calls && j != k ==> !Active(ss[i].conn.calls[j].at)
  {
    hide D.Ok, D.Homed, CallersOk, TableOk;
    RunInv(ss, acts, i);
  }

  /** In step `p` the kernel posts this event in loop `l`, for an entry that it had consumed there. */
  ghost predicate PostsAt(ss: seq<State>, acts: seq<Action>, p: nat, l: nat, e: CQEvent) {
    && p < |acts| && p < |ss| && acts[p].Net? && acts[p].l == l && acts[p].m.Complete? && l < |ss[p].net.loops|
    && acts[p].m.i < |ss[p].net.loops[l].inflight|
    && e == CQEvent(ss[p].net.loops[l].inflight[acts[p].m.i], acts[p].m.res, acts[p].m.flags)
  }

  /** Every event that a loop has or has had was posted in it by the kernel, with its result and flags. */
  lemma {:induction false} PostedWhen(ss: seq<State>, acts: seq<Action>, i: nat, l: nat, e: CQEvent) returns (p: nat)
    requires IsRun(ss, acts) && i < |ss| && l < |ss[i].net.loops| && e in O.Received(ss[i].net.loops[l].cq)
    ensures p < i && PostsAt(ss, acts, p, l, e)
  {
    hide O.Received, N.Init, Step, Enabled, N.Step, N.Enabled;
    if i == 0 {
      O.NothingReceived(ss[0].net, l);
      assert false;
    } else {
      var s, a := ss[i - 1], acts[i - 1];
      NetOf(s, a);
      var m := Moves(s, a);
      if m.Some? {
        EnabledShape(s.net, m.value.0, m.value.1);
      }
      if e in O.Received(s.net.loops[l].cq) {
        p := PostedWhen(ss, acts, i - 1, l, e);
      } else {
        ReceivedNow(s.net, m.value.0, m.value.1, l, e);
        p := i - 1;
      }
    }
  }

  /** An event is new in a completion queue only if the step posts it there. */
  lemma ReceivedNow(s: N.State, l: nat, m: N.Move, h: nat, e: CQEvent)
    requires N.Enabled(s, l, m) && h < |s.loops| && e !in O.Received(s.loops[h].cq)
    requires e in O.Received(N.Step(s, l, m).loops[h].cq)
    ensures h == l && m.Complete? && m.i < |s.loops[l].inflight|
    ensures e == CQEvent(s.loops[l].inflight[m.i], m.res, m.flags)
  {
    hide O.Received, N.StepLoop, N.StepTable, N.Logged, N.Skeleton, C.Step, C.Enabled;
    if h == l {
      O.ReceivedStep(s.loops[l], m, s.table, if m.Draw? then s.Draws(m.op.fd) + 1 else 0, e);
    }
  }

  /**
   In every run, the event with which a call returns is one that the kernel posted (in step `p`, with its result and
   flags) and for which a consumer of the same loop ran the call's own callback (in the later step `j`).
   */
  lemma ReadReturnsCompletion(ss: seq<State>, acts: seq<Action>, i: nat, k: nat) returns (p: nat, j: nat)
    requires IsRun(ss, acts) && i < |ss| && k in ss[i].conn.calls && ss[i].conn.calls[k].at.Returned?
    ensures p < j < i && DispatchesAt(ss, acts, j, k, ss[i].conn.calls[k].at.event)
    ensures PostsAt(ss, acts, p, acts[j].l, ss[i].conn.calls[k].at.event)
  {
    hide N.Init, Step, N.Step, N.Fits, N.Skeleton, Registered;
    RunHanded(ss, acts, i);
    var e := ss[i].conn.calls[k].at.event;
    j :| 0 <= j < i && DispatchesAt(ss, acts, j, k, e);
    p := PostedWhen(ss, acts, j, acts[j].l, e);
  }

  /** And it is the very event that the call has received. */
  lemma {:induction false} ReturnsWhatItReceived(ss: seq<State>, acts: seq<Action>, i: nat, j: nat, k: nat)
    requires IsRun(ss, acts) && i < j < |ss| && acts[i] == Receive(k)
    ensures
      var a := ss[i].conn.arriving.value;
      CallAt(ss[j].conn, k, Done(a.id, a.event)) || CallAt(ss[j].conn, k, Returned(a.event))
  {
    hide Init, N.Step, N.Enabled, Newest, Affected;
    if i + 1 < j {
      ReturnsWhatItReceived(ss, acts, i, j - 1, k);
      KeepsEvent(ss[j - 1], acts[j - 1], k);
    }
  }

  lemma KeepsEvent(s: State, a: Action, k: nat)
    requires Enabled(s, a) && k in s.conn.calls
    ensures
      var c, at := Step(s, a).conn, s.conn.calls[k].at;
      && (at.Done? ==> CallAt(c, k, at) || CallAt(c, k, Returned(at.event)))
      && (at.Returned? ==> CallAt(c, k, at))
  {
    hide N.Step, N.Enabled, Newest;
  }

  // ----- when identifiers are fresh -----

  ghost predicate BreaksFor(s: State, a: Action, id: uint64)
    requires Enabled(s, a)
  {
    var m := Moves(s, a);
    m.Some? && D.BreaksFor(s.net, m.value.0, m.value.1, id)
  }

  ghost predicate UnbrokenUntil(ss: seq<State>, acts: seq<Action>, i: nat, id: uint64)
    requires IsRun(ss, acts) && i <= |acts|
  {
    forall j :: 0 <= j < i ==> !BreaksFor(ss[j], acts[j], id)
  }

  lemma {:induction false} RunCorresponds(ss: seq<State>, acts: seq<Action>, i: nat, id: uint64)
    requires IsRun(ss, acts) && i < |ss| && !Reserved(id) && UnbrokenUntil(ss, acts, i, id)
    ensures N.Shape(ss[i].net) && D.CorrespondsFor(ss[i].net, id)
  {
    hide Enabled, N.Step, N.Enabled, D.CorrespondsFor, D.BreaksFor, CallersOk, TableOk, LockOk, ArrivalOk, D.Ok,
      D.Homed, Newest, N.Init;
    if i == 0 {
      R.InitCorresponds(ss[0].net);
    } else {
      var s, a := ss[i - 1], acts[i - 1];
      RunCorresponds(ss, acts, i - 1, id);
      RunInv(ss, acts, i - 1);
      NetOf(s, a);
      var moves := Moves(s, a);
      assert !BreaksFor(s, a, id);
      if moves.Some? {
        D.CorrespondsStep(s.net, moves.value.0, moves.value.1, id);
      }
    }
  }

  lemma NetOf(s: State, a: Action)
    requires Enabled(s, a)
    ensures var m := Moves(s, a);
            if m.None? then Step(s, a).net == s.net
            else N.Enabled(s.net, m.value.0, m.value.1) && Step(s, a).net == N.Step(s.net, m.value.0, m.value.1)
  {
    hide N.Step, N.Enabled, Newest;
  }

  /** A reader draws a fresh identifier if no step up to its registration breaks the reactor's correspondence for it. */
  lemma FreshIfUnbroken(ss: seq<State>, acts: seq<Action>, i: nat)
    requires IsRun(ss, acts) && i < |acts| && acts[i].Register?
    requires UnbrokenUntil(ss, acts, i + 1, N.IdOf(ss[i].net.loops[Home(ss[i])].callers[acts[i].i].key))
    ensures RegistersFresh(ss[i], acts[i])
  {
    hide N.Step, D.Live, LockOk, CallersOk, TableOk, ArrivalOk, N.IdOf, N.KeyOf, D.Homed, N.LoopFor, N.Skeleton, N.Fits;
    var s, a := ss[i], acts[i];
    var c := s.net.loops[Home(s)].callers[a.i];
    RunInv(ss, acts, i);
    OwnCaller(s, a.k, a.i);
    KeyOfIdOf(c.key);
    RunCorresponds(ss, acts, i, N.IdOf(c.key));
    assert !BreaksFor(s, a, N.IdOf(c.key));
  }

  /** The reactor's part of a run is a run of the reactor. */
  lemma {:induction false} NetRun(ss: seq<State>, acts: seq<Action>, i: nat)
    returns (ns: seq<N.State>, moves: seq<R.Action>)
    requires IsRun(ss, acts) && i < |ss|
    ensures R.IsRun(ns, moves) && ns[|moves|] == ss[i].net
  {
    hide Step, Enabled, N.Step, N.Enabled, N.Init;
    if i == 0 {
      ns, moves := [ss[0].net], [];
    } else {
      var s, a := ss[i - 1], acts[i - 1];
      ns, moves := NetRun(ss, acts, i - 1);
      NetOf(s, a);
      var m := Moves(s, a);
      if m.Some? {
        ns, moves := Longer(ns, moves, m.value.0, m.value.1);
      }
    }
  }

  lemma Longer(ns: seq<N.State>, moves: seq<R.Action>, l: nat, m: N.Move)
    returns (ns': seq<N.State>, moves': seq<R.Action>)
    requires R.IsRun(ns, moves) && N.Enabled(ns[|moves|], l, m)
    ensures R.IsRun(ns', moves') && ns'[|moves'|] == N.Step(ns[|moves|], l, m)
  {
    hide N.Step, N.Enabled, N.Init;
    ns', moves' := ns + [N.Step(ns[|moves|], l, m)], moves + [R.Action(l, m)];
    forall i | 0 <= i < |moves'|
      ensures N.Enabled(ns'[i], moves'[i].l, moves'[i].m) && ns'[i + 1] == N.Step(ns'[i], moves'[i].l, moves'[i].m)
    {
      if i < |moves| {
        assert moves'[i] == moves[i] && ns'[i] == ns[i] && ns'[i + 1] == ns[i + 1];
      }
    }
  }

  /** And if fewer than 2^32 requests have been made on the connection's descriptor, whatever else has happened. */
  lemma FreshIfFew(ss: seq<State>, acts: seq<Action>, i: nat)
    requires IsRun(ss, acts) && i < |acts| && acts[i].Register? && ss[i].net.Draws(ss[i].conn.fd) < 0x1_0000_0000
    ensures RegistersFresh(ss[i], acts[i])
  {
    hide N.Step, D.Live, LockOk, CallersOk, TableOk, ArrivalOk, N.IdOf, D.Ok, D.Homed, N.LoopFor, N.Skeleton,
      N.Fits, N.Init;
    var s, a := ss[i], acts[i];
    RunInv(ss, acts, i);
    OwnCaller(s, a.k, a.i);
    var ns, moves := NetRun(ss, acts, i);
    A.DrawnIsFresh(ns, moves, |moves|, Home(s), a.i, Home(s));
  }

  lemma {:induction false} DrawsGrow(ss: seq<State>, acts: seq<Action>, i: nat, j: nat)
    requires IsRun(ss, acts) && i <= j < |ss|
    ensures ss[i].net.Draws(ss[i].conn.fd) <= ss[j].net.Draws(ss[j].conn.fd) && ss[i].conn.fd == ss[j].conn.fd
  {
    hide Enabled, N.Step, N.Enabled;
    if i < j {
      var s, a := ss[j - 1], acts[j - 1];
      DrawsGrow(ss, acts, i, j - 1);
      NetOf(s, a);
      var m := Moves(s, a);
      SameConn(s, a);
      if m.Some? {
        A.DrawsAfter(s.net, m.value.0, m.value.1, s.conn.fd);
      }
    }
  }

  lemma SameConn(s: State, a: Action)
    requires Enabled(s, a)
    ensures Step(s, a).conn.fd == s.conn.fd
  {
    hide N.Step, N.Enabled, Newest;
  }

  /**
   So in every run, as long as fewer than 2^32 requests have been made on the descriptor, a reader that receives gets
   the completion of its own request, whose entry carries its own buffer.
   */
  lemma ReadGetsItsOwnEarly(ss: seq<State>, acts: seq<Action>, i: nat, k: nat)
    requires IsRun(ss, acts) && i < |acts| && acts[i] == Receive(k) && ss[i].net.Draws(ss[i].conn.fd) < 0x1_0000_0000
    ensures
      var c := ss[i].conn;
      var a := c.arriving.value;
      && a.k == k && CallAt(c, k, Waiting(a.id)) && a.event.userData == a.id
      && Dispatched(ss, acts, i, k, a.event) && ReadsInto(a.entry, c, c.calls[k].buffer)
  {
    hide Step, N.Enabled, N.Step, RegistersFresh, Dispatched, ReadsInto;
    forall j | 0 <= j < i && acts[j].Register? && acts[j].k == k
      ensures RegistersFresh(ss[j], acts[j])
    {
      DrawsGrow(ss, acts, j, i);
      FreshIfFew(ss, acts, j);
    }
    ReadGetsItsOwn(ss, acts, i, k);
  }

  // ----- calls that wait for ever -----

  /** A call that waits has its closure registered under its identifier, or blocked with a completion. */
  predicate Answerable(s: State, k: nat) {
    k in s.conn.calls && s.conn.calls[k].at.Waiting? ==>
      || Registered(s, k, s.conn.calls[k].at.id)
      || (s.conn.arriving.Some? && s.conn.arriving.value.k == k)
  }

  /**
   The steps that take the closure of a waiting call away without running it: its request finds no slot, or no
   second slot for its timeout, and is dropped; or another callback is stored over it.
   */
  predicate Loses(s: State, a: Action, k: nat)
    requires Enabled(s, a)
  {
    && k in s.conn.calls && s.conn.calls[k].at.Waiting? && a.Net?
    && var id, d, m := s.conn.calls[k].at.id, s.net.loops[a.l], a.m;
       && Registered(s, k, id)
       && (|| ((m.QueueFirst? || m.QueueSecond?) && d.sq.Free() <= 0 && d.job.req.userData == id)
           || (m.Register? && d.callers[m.i].key == N.KeyOf(id)))
  }

  /** What a reactor step does to the entry of one key. */
  lemma KeyAfter(s: N.State, l: nat, m: N.Move, key: Key)
    requires N.Enabled(s, l, m)
    ensures
      var t, t' := s.table.callbacks, N.Step(s, l, m).table.callbacks;
      if m.Register? && s.loops[l].callers[m.i].key == key then key in t' && t'[key] == s.loops[l].callers[m.i].cb
      else if D.Touched(s.loops[l], m) == Some(key) then key !in t'
      else (key in t' <==> key in t) && (key in t ==> t'[key] == t[key])
  {
    hide N.Skeleton, N.StepLoop, C.Step, C.Enabled, N.KeyOf;
  }

  /** A step that takes a key out of the registry: a drop or a dispatch. */
  lemma WhoPops(d: N.Loop, m: N.Move, id: uint64)
    requires N.Possible(d, m) && !m.Register? && D.Touched(d, m) == Some(N.KeyOf(id)) && !Reserved(id)
    ensures
      || ((m.QueueFirst? || m.QueueSecond?) && d.sq.Free() <= 0 && N.KeyOf(d.job.req.userData) == N.KeyOf(id))
      || (&& m.Dispatch? && !Reserved(d.cq.ready[d.batch.i].userData)
          && N.KeyOf(d.cq.ready[d.batch.i].userData) == N.KeyOf(id))
  {
    hide N.KeyOf;
  }

  /** A reactor step of anybody else. */
  lemma NetAnswerable(s: State, l: nat, m: N.Move, k: nat)
    requires Inv(s) && Enabled(s, Net(l, m)) && Answerable(s, k)
    ensures Answerable(Step(s, Net(l, m)), k) <==> !Loses(s, Net(l, m), k)
  {
    hide N.Step, N.Enabled, N.KeyOf, N.IdOf, D.Ok, D.Homed, N.LoopFor, CallersOk, Newest, LockOk;
    EnabledShape(s.net, l, m);
    if k in s.conn.calls && s.conn.calls[k].at.Waiting? {
      var id := s.conn.calls[k].at.id;
      KeyAfter(s.net, l, m, N.KeyOf(id));
      if Registered(s, k, id) {
        RegisteredStep(s, l, m, k, id);
      } else {
        NotWaitingTwice(s, k);
      }
    }
  }

  /** A call whose closure is blocked is not also registered, and the consumer it blocks does nothing. */
  lemma NotWaitingTwice(s: State, k: nat)
    requires Inv(s) && s.conn.arriving.Some?
    ensures forall key :: key in s.net.table.callbacks ==> s.net.table.callbacks[key] != Closure(k)
  {
    hide D.Ok, D.Homed, CallersOk, N.IdOf;
  }

  lemma RegisteredStep(s: State, l: nat, m: N.Move, k: nat, id: uint64)
    requires Inv(s) && Enabled(s, Net(l, m)) && CallAt(s.conn, k, Waiting(id)) && Registered(s, k, id)
    ensures Answerable(Step(s, Net(l, m)), k) <==> !Loses(s, Net(l, m), k)
  {
    hide N.Step, N.Enabled, N.KeyOf, N.IdOf, D.Ok, D.Homed, N.LoopFor, CallersOk, Newest, LockOk;
    EnabledShape(s.net, l, m);
    KeyAfter(s.net, l, m, N.KeyOf(id));
    assert s.conn.arriving.None?;
    if m.Register? {
    } else if D.Touched(s.net.loops[l], m) == Some(N.KeyOf(id)) {
      WhoPops(s.net.loops[l], m, id);
      if m.Dispatch? {
        D.KeyOfInjective(id, s.net.loops[l].cq.ready[s.net.loops[l].batch.i].userData);
      } else {
        D.KeyOfInjective(id, s.net.loops[l].job.req.userData);
      }
    } else {
      NotPopped(s.net.loops[l], m, id);
    }
  }

  lemma NotPopped(d: N.Loop, m: N.Move, id: uint64)
    requires N.Possible(d, m) && D.Touched(d, m) != Some(N.KeyOf(id)) && !m.Register?
    ensures !((m.QueueFirst? || m.QueueSecond?) && d.sq.Free() <= 0 && d.job.req.userData == id)
  {
    hide N.KeyOf;
  }

  /** A call that can be answered still can after a step, unless the step takes its closure away. */
  lemma StepAnswerable(s: State, a: Action, k: nat)
    requires Inv(s) && Enabled(s, a) && Answerable(s, k)
    ensures Answerable(Step(s, a), k) <==> !Loses(s, a, k)
  {
    hide N.Step, N.Enabled, N.KeyOf, N.IdOf, D.Homed, N.LoopFor, CallersOk, Newest, D.LoopOk, D.InStep, C.Inv;
    match a
    case Register(j, i) =>
      EnabledShape(s.net, Home(s), N.Register(i));
      TableAfter(s.net, Home(s), N.Register(i));
      OwnCaller(s, j, i);
      KeyOfIdOf(s.net.loops[Home(s)].callers[i].key);
    case Net(l, m) => NetAnswerable(s, l, m, k);
    case _ =>
  }

  /** A call that cannot be answered never can again: it waits on, and holds the lock. */
  lemma StepLost(s: State, a: Action, k: nat)
    requires Inv(s) && Enabled(s, a) && !Answerable(s, k)
    ensures !Answerable(Step(s, a), k)
  {
    hide N.Step, N.Enabled, N.KeyOf, N.IdOf, D.Ok, D.Homed, N.LoopFor, CallersOk, Newest;
    var id := s.conn.calls[k].at.id;
    NowhereRegistered(s, k);
    if a.Net? {
      EnabledShape(s.net, a.l, a.m);
      KeyAfter(s.net, a.l, a.m, N.KeyOf(id));
    }
  }

  lemma NowhereRegistered(s: State, k: nat)
    requires Inv(s) && !Answerable(s, k)
    ensures forall key :: key in s.net.table.callbacks ==> s.net.table.callbacks[key] != Closure(k)
  {
    hide D.Homed, CallersOk, N.IdOf, N.KeyOf, D.LoopOk, D.InStep, C.Inv;
    forall key | key in s.net.table.callbacks
      ensures s.net.table.callbacks[key] != Closure(k)
    {
      assert D.TableOk(s.net.table);
      KeyOfIdOf(key);
    }
  }

  /** None of the first `i` steps takes the closure of call `k` away. */
  ghost predicate NeverLost(ss: seq<State>, acts: seq<Action>, i: nat, k: nat)
    requires IsRun(ss, acts) && i <= |acts|
  {
    forall j :: 0 <= j < i ==> !Loses(ss[j], acts[j], k)
  }

  /**
   In every run a call that waits can still be answered if and only if its closure was never taken away: its request
   found a slot, and a second one for its timeout, and its key was not reused. Otherwise it waits for ever,
   and every later call of the connection with it, since it holds the lock.
   */
  lemma {:induction false} AnswerableIff(ss: seq<State>, acts: seq<Action>, i: nat, k: nat)
    requires IsRun(ss, acts) && i < |ss|
    ensures Answerable(ss[i], k) <==> NeverLost(ss, acts, i, k)
    ensures !Answerable(ss[i], k) ==> ss[i].conn.holder == Some(k) && ss[i].conn.calls[k].at.Waiting?
  {
    hide Step, Enabled, Loses, D.Ok, D.Homed, CallersOk, TableOk, Registered;
    RunInv(ss, acts, i);
    if i > 0 {
      AnswerableIff(ss, acts, i - 1, k);
      RunInv(ss, acts, i - 1);
      assert NeverLost(ss, acts, i, k) <==> NeverLost(ss, acts, i - 1, k) && !Loses(ss[i - 1], acts[i - 1], k);
      if Answerable(ss[i - 1], k) {
        StepAnswerable(ss[i - 1], acts[i - 1], k);
      } else {
        StepLost(ss[i - 1], acts[i - 1], k);
      }
    }
  }
}
