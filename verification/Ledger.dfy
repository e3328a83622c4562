/** The journal and the other insert-once tables under concurrent sessions: `record` and
    `net_total` in app/db/repositories/orders.py, `store` and `enqueue` in
    app/db/repositories/resellers.py. All of them rely on a unique key. They differ in
    what a lost race costs: `record` (and `redeem`) roll back the whole session, `store`
    and `enqueue` only a savepoint. */
module Ledger {
  import opened Totals

  type Key = string
  type SessionId = nat

  /** What is undone when the constraint refuses a row. */
  datatype Guard = WholeSession | Savepoint

  /** The committed amounts by key, and the rows each open session has written. */
  datatype Store = Store(committed: map<Key, int>, open: map<SessionId, map<Key, int>>)

  datatype Step =
    | Begin(s: SessionId)
    | Insert(s: SessionId, key: Key, amount: int, guard: Guard)
    | Commit(s: SessionId)
    | Rollback(s: SessionId)

  /** An insert waits while another open session holds the key. */
  predicate Waits(store: Store, s: SessionId, key: Key) {
    exists other :: other in store.open && other != s && key in store.open[other]
  }

  predicate Enabled(store: Store, step: Step) {
    match step
    case Begin(s) => s !in store.open
    case Insert(s, key, _, _) => s in store.open && !Waits(store, s, key)
    case Commit(s) => s in store.open
    case Rollback(s) => s in store.open
  }

  /** The key is in the table already, for this session to run into. */
  predicate Refused(store: Store, s: SessionId, key: Key)
    requires s in store.open
  {
    key in store.committed || key in store.open[s]
  }

  function Apply(store: Store, step: Step): Store
    requires Enabled(store, step)
  {
    match step
    case Begin(s) => store.(open := store.open[s := map[]])
    case Insert(s, key, amount, guard) =>
      if !Refused(store, s, key) then store.(open := store.open[s := store.open[s][key := amount]])
      else if guard == Savepoint then store
      else store.(open := store.open[s := map[]])
    case Commit(s) => Store(store.committed + store.open[s], store.open - {s})
    case Rollback(s) => store.(open := store.open - {s})
  }

  predicate Legal(store: Store, steps: seq<Step>)
    decreases |steps|
  {
    steps == [] || (Enabled(store, steps[0]) && Legal(Apply(store, steps[0]), steps[1..]))
  }

  function After(store: Store, steps: seq<Step>): Store
    requires Legal(store, steps)
    decreases |steps|
  {
    if steps == [] then store else After(Apply(store, steps[0]), steps[1..])
  }

  // ------------------------------------------------------ first one wins

  /** No row written by an open session has its key committed, or written by another. */
  ghost predicate Exclusive(store: Store) {
    && (forall s, key :: s in store.open && key in store.open[s] ==> key !in store.committed)
    && (forall s, r, key :: s in store.open && r in store.open && key in store.open[s] && key in store.open[r] ==>
            s == r)
  }

  ghost predicate Extends(now: map<Key, int>, before: map<Key, int>) {
    forall key :: key in before ==> key in now && now[key] == before[key]
  }

  lemma StepExtends(store: Store, step: Step)
    requires Exclusive(store) && Enabled(store, step)
    ensures Exclusive(Apply(store, step)) && Extends(Apply(store, step).committed, store.committed)
  {
    var now := Apply(store, step);
    if step.Insert? {
      forall s, r, key | s in now.open && r in now.open && key in now.open[s] && key in now.open[r]
        ensures s == r
      {
        assert !Waits(store, step.s, step.key);
      }
    }
  }

  /** Over any interleaving, duplicates and retries included: a committed entry is never
      altered, the first commit of a key is the one that stays. */
  lemma {:induction false} FirstEntryStays(store: Store, steps: seq<Step>)
    requires Exclusive(store) && Legal(store, steps)
    ensures Exclusive(After(store, steps)) && Extends(After(store, steps).committed, store.committed)
    decreases |steps|
  {
    if steps != [] {
      StepExtends(store, steps[0]);
      FirstEntryStays(Apply(store, steps[0]), steps[1..]);
    }
  }

  /** A key committed at the end was committed from exactly the row that first reached
      the table: some session held that row and committed it. */
  ghost predicate CameFrom(store: Store, steps: seq<Step>, key: Key, amount: int)
    requires Legal(store, steps)
    decreases |steps|
  {
    steps != []
    && ((steps[0].Commit? && steps[0].s in store.open && key in store.open[steps[0].s]
            && store.open[steps[0].s][key] == amount)
        || CameFrom(Apply(store, steps[0]), steps[1..], key, amount))
  }

  lemma {:induction false} EveryEntryWasCommitted(store: Store, steps: seq<Step>, key: Key)
    requires Exclusive(store) && Legal(store, steps)
    requires key in After(store, steps).committed && key !in store.committed
    ensures CameFrom(store, steps, key, After(store, steps).committed[key])
    decreases |steps|
  {
    var next := Apply(store, steps[0]);
    StepExtends(store, steps[0]);
    FirstEntryStays(next, steps[1..]);
    if key !in next.committed {
      EveryEntryWasCommitted(next, steps[1..], key);
    }
  }

  const EMPTY: Store := Store(map[], map[])

  /** The tables after `n` steps. */
  function At(store: Store, steps: seq<Step>, n: nat): Store
    requires Legal(store, steps) && n <= |steps|
    decreases |steps|
  {
    if n == 0 then store else At(Apply(store, steps[0]), steps[1..], n - 1)
  }

  /** Step `n` records the amount under a key that neither the table nor its session has. */
  ghost predicate Records(store: Store, steps: seq<Step>, n: nat, key: Key, amount: int)
    requires Legal(store, steps)
  {
    && n < |steps| && steps[n].Insert? && steps[n].key == key && steps[n].amount == amount
    && key !in At(store, steps, n).committed
    && steps[n].s in At(store, steps, n).open && key !in At(store, steps, n).open[steps[n].s]
  }

  /** Step `m` is the commit that brings the key into the table. */
  ghost predicate Lands(store: Store, steps: seq<Step>, m: nat, s: SessionId, key: Key)
    requires Legal(store, steps)
  {
    && m < |steps| && steps[m] == Commit(s)
    && key !in At(store, steps, m).committed && key in At(store, steps, m + 1).committed
  }

  /** The amount was recorded by step `n`, and the session of that step was the first to commit the key. */
  ghost predicate Recorded(store: Store, steps: seq<Step>, n: nat, key: Key, amount: int)
    requires Legal(store, steps)
  {
    Records(store, steps, n, key, amount) && exists m: nat :: n < m && Lands(store, steps, m, steps[n].s, key)
  }

  lemma Later(store: Store, steps: seq<Step>, m: nat, s: SessionId, key: Key)
    requires Legal(store, steps) && steps != [] && Lands(Apply(store, steps[0]), steps[1..], m, s, key)
    ensures Lands(store, steps, m + 1, s, key)
  {
    assert steps[1..][m] == steps[m + 1];
  }

  lemma RecordsLater(store: Store, steps: seq<Step>, n: nat, key: Key, amount: int)
    requires Legal(store, steps) && steps != [] && Records(Apply(store, steps[0]), steps[1..], n, key, amount)
    ensures Records(store, steps, n + 1, key, amount)
  {
    assert steps[1..][n] == steps[n + 1];
  }

  lemma {:induction false} AtTheEnd(store: Store, steps: seq<Step>)
    requires Legal(store, steps)
    ensures At(store, steps, |steps|) == After(store, steps)
    decreases |steps|
  {
    if steps != [] {
      AtTheEnd(Apply(store, steps[0]), steps[1..]);
    }
  }

  /** The amount session `s` brings at step `m` was open from the start or recorded by the
      session on the way. */
  ghost predicate HasSource(store: Store, steps: seq<Step>, m: nat, s: SessionId, key: Key, amount: int)
    requires Legal(store, steps)
  {
    || (s in store.open && key in store.open[s] && store.open[s][key] == amount)
    || exists n: nat :: n < m && Records(store, steps, n, key, amount) && steps[n].s == s
  }

  lemma SourceLater(store: Store, steps: seq<Step>, m: nat, s: SessionId, key: Key, amount: int)
    requires Legal(store, steps) && steps != []
    requires HasSource(Apply(store, steps[0]), steps[1..], m, s, key, amount)
    ensures HasSource(store, steps, m + 1, s, key, amount)
  {
    var next := Apply(store, steps[0]);
    if s in next.open && key in next.open[s] && next.open[s][key] == amount {
      assert At(store, steps, 0) == store;
      assert Records(store, steps, 0, key, amount) || (s in store.open && key in store.open[s]);
    } else {
      var n: nat :| n < m && Records(next, steps[1..], n, key, amount) && steps[1..][n].s == s;
      RecordsLater(store, steps, n, key, amount);
    }
  }

  lemma {:induction false} EntryHasASource(store: Store, steps: seq<Step>, key: Key) returns (m: nat, s: SessionId)
    requires Exclusive(store) && Legal(store, steps)
    requires key in After(store, steps).committed && key !in store.committed
    ensures Lands(store, steps, m, s, key) && HasSource(store, steps, m, s, key, After(store, steps).committed[key])
    decreases |steps|
  {
    var next := Apply(store, steps[0]);
    StepExtends(store, steps[0]);
    FirstEntryStays(next, steps[1..]);
    if key in next.committed {
      m, s := 0, steps[0].s;
      assert At(store, steps, 0) == store && At(store, steps, 1) == next;
    } else {
      m, s := EntryHasASource(next, steps[1..], key);
      Later(store, steps, m, s, key);
      SourceLater(store, steps, m, s, key, After(store, steps).committed[key]);
      m := m + 1;
    }
  }

  /** In every run from an empty table: an entry carries the amount that was handed to the
      step that recorded it, and the session of that step was the first to commit the key. */
  lemma EveryEntryWasRecorded(steps: seq<Step>, key: Key)
    requires Legal(EMPTY, steps) && key in After(EMPTY, steps).committed
    ensures exists n: nat :: Recorded(EMPTY, steps, n, key, After(EMPTY, steps).committed[key])
  {
    var amount := After(EMPTY, steps).committed[key];
    var m, s := EntryHasASource(EMPTY, steps, key);
    var n: nat :| n < m && Records(EMPTY, steps, n, key, amount) && steps[n].s == s;
    assert Recorded(EMPTY, steps, n, key, amount);
  }

  /** An entry does get into the table: a session that begins, records under a free key and
      commits leaves the table as it was with this one entry more. Rolled back instead, it
      leaves the table alone, and so does its second try to record the key. */
  lemma OneSession(store: Store, s: SessionId, key: Key, amount: int, guard: Guard)
    requires s !in store.open && key !in store.committed
    requires forall other :: other in store.open ==> key !in store.open[other]
    ensures var recorded := [Begin(s), Insert(s, key, amount, guard)];
            && Legal(store, recorded + [Commit(s)])
            && After(store, recorded + [Commit(s)]) == Store(store.committed[key := amount], store.open)
            && Legal(store, recorded + [Rollback(s)]) && After(store, recorded + [Rollback(s)]) == store
            && Legal(store, recorded + [Insert(s, key, 0 - amount, Savepoint), Commit(s)])
            && After(store, recorded + [Insert(s, key, 0 - amount, Savepoint), Commit(s)])
               == Store(store.committed[key := amount], store.open)
  {
    var began := Apply(store, Begin(s));
    assert !Waits(began, s, key);
    var row := Apply(began, Insert(s, key, amount, guard));
    assert row.open == store.open[s := map[key := amount]];
    assert !Waits(row, s, key);
    assert row.open - {s} == store.open;
    assert row.committed + row.open[s] == store.committed[key := amount];
    OneSessionRuns(store, s, key, amount, guard, [Commit(s)]);
    OneSessionRuns(store, s, key, amount, guard, [Rollback(s)]);
    OneSessionRuns(store, s, key, amount, guard, [Insert(s, key, 0 - amount, Savepoint), Commit(s)]);
  }

  lemma OneSessionRuns(store: Store, s: SessionId, key: Key, amount: int, guard: Guard, rest: seq<Step>)
    requires Enabled(store, Begin(s)) && Enabled(Apply(store, Begin(s)), Insert(s, key, amount, guard))
    requires Legal(Apply(Apply(store, Begin(s)), Insert(s, key, amount, guard)), rest)
    ensures Legal(store, [Begin(s), Insert(s, key, amount, guard)] + rest)
    ensures After(store, [Begin(s), Insert(s, key, amount, guard)] + rest)
         == After(Apply(Apply(store, Begin(s)), Insert(s, key, amount, guard)), rest)
  {
    var run := [Begin(s), Insert(s, key, amount, guard)] + rest;
    assert run[0] == Begin(s) && run[1..][0] == Insert(s, key, amount, guard) && run[1..][1..] == rest;
  }

  // ------------------------------------------------------------ the total

  /** `net_total`: the sum over all entries. */
  ghost function NetTotal(entries: map<Key, int>): int {
    Total(entries)
  }

  /** The total moves only with commits, and then by exactly the session's own rows, each
      under a key of its own: nothing is counted twice. */
  lemma TotalMovesWithCommits(store: Store, step: Step)
    requires Exclusive(store) && Enabled(store, step)
    ensures NetTotal(Apply(store, step).committed)
         == NetTotal(store.committed) + if step.Commit? then NetTotal(store.open[step.s]) else 0
  {
    if step.Commit? {
      TotalOfUnion(store.committed, store.open[step.s]);
    }
  }

  /** The sum of what the sessions of a run committed. */
  ghost function CommittedBy(store: Store, steps: seq<Step>): int
    requires Legal(store, steps)
    decreases |steps|
  {
    if steps == [] then 0
    else (if steps[0].Commit? then NetTotal(store.open[steps[0].s]) else 0)
         + CommittedBy(Apply(store, steps[0]), steps[1..])
  }

  lemma {:induction false} TotalIsConserved(store: Store, steps: seq<Step>)
    requires Exclusive(store) && Legal(store, steps)
    ensures NetTotal(After(store, steps).committed) == NetTotal(store.committed) + CommittedBy(store, steps)
    decreases |steps|
  {
    if steps != [] {
      TotalMovesWithCommits(store, steps[0]);
      StepExtends(store, steps[0]);
      TotalIsConserved(Apply(store, steps[0]), steps[1..]);
    }
  }

  /** The step an entry comes from. */
  ghost function Source(steps: seq<Step>, key: Key): (n: nat)
    requires Legal(EMPTY, steps) && key in After(EMPTY, steps).committed
    ensures Recorded(EMPTY, steps, n, key, After(EMPTY, steps).committed[key])
  {
    EveryEntryWasRecorded(steps, key);
    var n :| Recorded(EMPTY, steps, n, key, After(EMPTY, steps).committed[key]);
    n
  }

  /** In every run from an empty table the net total is the sum of the amounts handed over,
      one for each key in the table. */
  lemma TotalOfWhatWasRecorded(steps: seq<Step>)
    requires Legal(EMPTY, steps)
    ensures var entries := After(EMPTY, steps).committed;
            NetTotal(entries) == Total(map key | key in entries :: steps[Source(steps, key)].amount)
  {
    var entries := After(EMPTY, steps).committed;
    assert (map key | key in entries :: steps[Source(steps, key)].amount) == entries;
  }

  // ------------------------------------------------------ the lost race

  /** What a lost race leaves to be committed: everything written before it under a
      savepoint, nothing of it when the session was rolled back. Either way the key ends
      up in the table, with the amount that won. */
  lemma LostRace(store: Store, s: SessionId, key: Key, amount: int, guard: Guard)
    requires Exclusive(store) && s in store.open && key in store.committed
    ensures Enabled(store, Insert(s, key, amount, guard))
    ensures var refused := Apply(store, Insert(s, key, amount, guard));
            && Enabled(refused, Commit(s))
            && Apply(refused, Commit(s)).committed
               == (if guard == Savepoint then store.committed + store.open[s] else store.committed)
            && Apply(refused, Commit(s)).committed[key] == store.committed[key]
  {
    assert !Waits(store, s, key);
    assert store.committed + map[] == store.committed;
  }

  /** A whole-session rollback loses earlier work exactly when there was any. */
  lemma LostRaceLosesWork(store: Store, s: SessionId, key: Key, amount: int)
    requires Exclusive(store) && s in store.open && key in store.committed
    ensures Apply(Apply(store, Insert(s, key, amount, WholeSession)), Commit(s)).committed
         == Apply(Apply(store, Insert(s, key, amount, Savepoint)), Commit(s)).committed
       <==> store.open[s] == map[]
  {
    LostRace(store, s, key, amount, WholeSession);
    LostRace(store, s, key, amount, Savepoint);
    if store.open[s] != map[] {
      var lost :| lost in store.open[s];
      assert lost in store.committed + store.open[s];
    } else {
      assert store.committed + store.open[s] == store.committed;
    }
  }

  // ------------------------------------------------------- the repository

  /** One session of the ledger repository. */
  class LedgerSession {
    var committed: map<Key, int>
    var open: map<SessionId, map<Key, int>>
    const id: SessionId

    ghost function Now(): Store
      reads this
    {
      Store(committed, open)
    }

    constructor (store: Store, id: SessionId)
      requires Enabled(store, Begin(id))
      ensures this.id == id && Now() == Apply(store, Begin(id))
    {
      committed, open, this.id := store.committed, store.open[id := map[]], id;
    }

    /** `record`: a key that is seen is left alone; one that turns out to be taken rolls
        the session back. `visible` is what the lookup before the insert saw. */
    method Record(key: Key, amount: int, visible: bool) returns (added: bool)
      requires id in open && !Waits(Now(), id, key)
      requires visible ==> Refused(Now(), id, key)
      modifies this
      ensures Now() == if visible then old(Now()) else Apply(old(Now()), Insert(id, key, amount, WholeSession))
      ensures added <==> !old(Refused(Now(), id, key))
      ensures added ==> id in open && open[id] == old(open[id])[key := amount]
    {
      if visible {
        return false;
      }
      if key in committed || key in open[id] {
        open := open[id := map[]];
        return false;
      }
      open := open[id := open[id][key := amount]];
      return true;
    }

    /** `store` and `enqueue`: the insert under a savepoint. */
    method StoreOnce(key: Key, amount: int) returns (added: bool)
      requires id in open && !Waits(Now(), id, key)
      modifies this
      ensures Now() == Apply(old(Now()), Insert(id, key, amount, Savepoint))
      ensures added <==> !old(Refused(Now(), id, key))
      ensures added ==> id in open && open[id] == old(open[id])[key := amount]
    {
      if key in committed || key in open[id] {
        return false;
      }
      open := open[id := open[id][key := amount]];
      return true;
    }
  }
}
