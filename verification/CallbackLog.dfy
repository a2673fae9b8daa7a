/** The lives of callbacks: what it means for a reactor to run each callback once. */
module CallbackLog {
  import opened Entries
  import opened RegistrySpec

  /** What happens to callbacks, under the keys by which a reactor finds them; `event` is what a callback is given. */
  datatype Event<K> =
    | Queued(key: K, cb: Callback)
    | Ran(key: K, cb: Callback, event: CQEvent)
    | Dropped(key: K, cb: Callback)

  /** The callbacks queued and neither run nor dropped, by key. */
  function Ledger<K>(log: seq<Event<K>>): map<K, Callback> {
    if log == [] then map[]
    else
      var before, e := Ledger(log[..|log| - 1]), log[|log| - 1];
      if e.Queued? then before[e.key := e.cb] else before - {e.key}
  }

  /** An event that may follow when `ledger` is outstanding. */
  predicate Follows<K>(ledger: map<K, Callback>, e: Event<K>) {
    if e.Queued? then e.key !in ledger && e.cb != Nil else e.key in ledger && ledger[e.key] == e.cb
  }

  /** A callback is queued under a free key, and what is run or dropped under a key is what was last queued under it. */
  predicate Disciplined<K(==)>(log: seq<Event<K>>) {
    log == [] || (Disciplined(log[..|log| - 1]) && Follows(Ledger(log[..|log| - 1]), log[|log| - 1]))
  }

  /** The same, for one key only. */
  predicate DisciplinedOn<K(==)>(log: seq<Event<K>>, key: K) {
    || log == []
    || (DisciplinedOn(log[..|log| - 1], key) &&
        (log[|log| - 1].key == key ==> Follows(Ledger(log[..|log| - 1]), log[|log| - 1])))
  }

  lemma {:induction false} DisciplinedOnEach<K>(log: seq<Event<K>>, key: K)
    requires Disciplined(log)
    ensures DisciplinedOn(log, key)
  {
    if log != [] {
      DisciplinedOnEach(log[..|log| - 1], key);
    }
  }

  lemma {:induction false} DisciplinedOnAll<K(!new)>(log: seq<Event<K>>)
    requires forall key :: DisciplinedOn(log, key)
    ensures Disciplined(log)
  {
    if log != [] {
      var front, e := log[..|log| - 1], log[|log| - 1];
      forall key
        ensures DisciplinedOn(front, key)
      {
        assert DisciplinedOn(log, key);
      }
      DisciplinedOnAll(front);
      assert DisciplinedOn(log, e.key);
    }
  }

  lemma {:induction false} NothingOnKey<K>(log: seq<Event<K>>, key: K)
    requires forall e :: e in log ==> e.key != key
    ensures DisciplinedOn(log, key)
  {
    if log != [] {
      NothingOnKey(log[..|log| - 1], key);
    }
  }

  function Times<K(==)>(log: seq<Event<K>>, e: Event<K>): nat {
    if log == [] then 0 else Times(log[..|log| - 1], e) + (if log[|log| - 1] == e then 1 else 0)
  }

  /** How often a callback was run under a key, with whatever event. */
  function Runs<K(==)>(log: seq<Event<K>>, key: K, cb: Callback): nat {
    if log == [] then 0
    else
      var e := log[|log| - 1];
      Runs(log[..|log| - 1], key, cb) + (if e.Ran? && e.key == key && e.cb == cb then 1 else 0)
  }

  lemma {:induction false} NeverLogged<K>(log: seq<Event<K>>, e: Event<K>)
    requires e !in log
    ensures Times(log, e) == 0
  {
    if log != [] {
      NeverLogged(log[..|log| - 1], e);
    }
  }

  /**
   In a log that is disciplined on a key, a callback is run or dropped under that key once for every time it is
   queued there, unless it is still outstanding.
   */
  lemma {:induction false} OncePerQueueing<K>(log: seq<Event<K>>, key: K, cb: Callback)
    requires DisciplinedOn(log, key)
    ensures Times(log, Queued(key, cb)) ==
            Runs(log, key, cb) + Times(log, Dropped(key, cb)) +
            (if key in Ledger(log) && Ledger(log)[key] == cb then 1 else 0)
  {
    if log != [] {
      OncePerQueueing(log[..|log| - 1], key, cb);
    }
  }

  lemma LogAppend<K>(log: seq<Event<K>>, e: Event<K>)
    ensures Ledger(log + [e]) == if e.Queued? then Ledger(log)[e.key := e.cb] else Ledger(log) - {e.key}
    ensures Disciplined(log) && Follows(Ledger(log), e) ==> Disciplined(log + [e])
  {
    assert (log + [e])[..|log|] == log;
  }

  lemma LogAppendOn<K>(log: seq<Event<K>>, e: Event<K>, key: K)
    ensures DisciplinedOn(log, key) && (e.key == key ==> Follows(Ledger(log), e)) ==> DisciplinedOn(log + [e], key)
  {
    assert (log + [e])[..|log|] == log;
  }
}
