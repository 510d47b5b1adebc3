/** Ingesting a batch of operational events against the idempotency ledger. */
module Ingestion {
  import opened Prelude
  import opened IdempotencyLedger

  type Key = string

  // One event of a batch: its ledger key, the clock at its reservation and at its commit, and whether
  // the persisting transaction goes through.
  datatype Attempt = Attempt(key: Key, now: int, doneAt: int, persists: bool)

  datatype Store = Store(rows: map<Key, Row>, events: seq<Key>)

  datatype Counts = Counts(ingested: nat, duplicates: nat, skipped: nat, failed: nat)

  datatype Result = NoEvents | Accepted(accepted: nat, counts: Counts)

  function Lookup(rows: map<Key, Row>, key: Key): Option<Row> {
    if key in rows then Some(rows[key]) else None
  }

  /** Somebody may still be at work on the row's event. */
  predicate LockedAt(r: Row, now: int) {
    r.status.Processing? && r.lockExpiresAt.Some? && now < r.lockExpiresAt.value
  }

  /** What one event does to the store and the counters. */
  function IngestOne(st: Store, c: Counts, a: Attempt): (Store, Counts) {
    var (row, outcome) := ReserveAlone(Lookup(st.rows, a.key), a.now);
    if outcome.DuplicateCompleted? then (st.(rows := st.rows[a.key := row]), c.(duplicates := c.duplicates + 1))
    else if outcome.DuplicateInflight? then (st.(rows := st.rows[a.key := row]), c.(skipped := c.skipped + 1))
    else if a.persists then
      (Store(st.rows[a.key := MarkedCompleted(row, |st.events|, a.doneAt)], st.events + [a.key]), c.(ingested := c.ingested + 1))
    else
      (st.(rows := st.rows[a.key := MarkedFailed(row, "PERSIST_FAILED", a.doneAt)]), c.(failed := c.failed + 1))
  }

  function IngestAll(st: Store, batch: seq<Attempt>): (Store, Counts) {
    if batch == [] then (st, Counts(0, 0, 0, 0))
    else
      var (st', c) := IngestAll(st, batch[..|batch| - 1]);
      IngestOne(st', c, batch[|batch| - 1])
  }

  class Ledger {
    var rows: map<Key, Row>
    var events: seq<Key>

    constructor ()
      ensures rows == map[] && events == []
    {
      rows, events := map[], [];
    }

    function View(): Store
      reads this
    {
      Store(rows, events)
    }

    /** One reservation with nobody else at work on the key. */
    method Reserve(key: Key, now: int) returns (outcome: Outcome)
      modifies this`rows
      ensures rows == old(rows)[key := ReserveAlone(Lookup(old(rows), key), now).0]
      ensures outcome == ReserveAlone(Lookup(old(rows), key), now).1
      ensures key !in old(rows) ==>
        outcome.Reserved? && rows[key] == Row(Processing, now, now, Some(now + 300_000), None, None, None, 1, 1)
      ensures key in old(rows) ==>
        var r := old(rows)[key];
        && rows[key].lastSeenAt == now && rows[key].seenCount == r.seenCount + 1
        && rows[key].firstSeenAt == r.firstSeenAt && rows[key].eventId == r.eventId
        && (r.status.Completed? ==> outcome == DuplicateCompleted(r.eventId))
        && (r.status.Failed? ==> outcome.RecoveredFailed?)
        && (r.status.Processing? ==> outcome == if LockedAt(r, now) then DuplicateInflight else RecoveredStale)
        && (outcome.Granted() ==>
              rows[key].status.Processing? && rows[key].lockExpiresAt == Some(now + 300_000) && rows[key].error.None?
              && rows[key].attemptCount == r.attemptCount + 1)
        && (!outcome.Granted() ==> rows[key] == r.(lastSeenAt := now, seenCount := r.seenCount + 1))
    {
      if key !in rows {
        rows := rows[key := Row(Processing, now, now, Some(now + PROCESSING_TTL_MS), None, None, None, 1, 1)];
        return Reserved;
      }
      var entry := rows[key];
      var seen := entry.(lastSeenAt := now, seenCount := entry.seenCount + 1);
      var reclaimed := seen.(status := Processing, lockExpiresAt := Some(now + PROCESSING_TTL_MS), error := None,
                             attemptCount := entry.attemptCount + 1);
      if entry.status.Completed? {
        rows := rows[key := seen];
        return DuplicateCompleted(entry.eventId);
      }
      if entry.status.Failed? {
        rows := rows[key := reclaimed.(completedAt := None)];
        return RecoveredFailed;
      }
      if !Stale(entry, now) {
        rows := rows[key := seen];
        return DuplicateInflight;
      }
      rows := rows[key := reclaimed];
      return RecoveredStale;
    }

    /** The batch loop: reserve, then persist and complete, or mark failed. */
    method IngestOperationalEvents(batch: seq<Attempt>) returns (r: Result)
      modifies this
      ensures batch == [] ==> r == NoEvents && View() == old(View())
      ensures batch != [] ==> r == Accepted(|batch|, IngestAll(old(View()), batch).1)
      ensures batch != [] ==> View() == IngestAll(old(View()), batch).0
    {
      if batch == [] {
        return NoEvents;
      }
      var ingested: nat, duplicates: nat, skipped: nat, failed: nat := 0, 0, 0, 0;
      for i := 0 to |batch|
        invariant (View(), Counts(ingested, duplicates, skipped, failed)) == IngestAll(old(View()), batch[..i])
      {
        assert batch[..i + 1][..i] == batch[..i];
        var a := batch[i];
        ghost var before := rows;
        var outcome := Reserve(a.key, a.now);
        if outcome.DuplicateCompleted? {
          duplicates := duplicates + 1;
          continue;
        }
        if outcome.DuplicateInflight? {
          skipped := skipped + 1;
          continue;
        }
        var row := rows[a.key];
        if a.persists {
          var completed := row.(status := Completed, completedAt := Some(a.doneAt), lastSeenAt := a.doneAt, lockExpiresAt := None,
                                error := None, eventId := Some(|events|));
          OverwriteKey(before, a.key, row, completed);
          rows := rows[a.key := completed];
          events := events + [a.key];
          ingested := ingested + 1;
        } else {
          var marked := row.(status := Failed, completedAt := None, lastSeenAt := a.doneAt, lockExpiresAt := None,
                             error := Some("PERSIST_FAILED"));
          OverwriteKey(before, a.key, row, marked);
          rows := rows[a.key := marked];
          failed := failed + 1;
        }
      }
      assert batch[..|batch|] == batch;
      r := Accepted(|batch|, Counts(ingested, duplicates, skipped, failed));
    }
  }

  /** What becomes of one event: a duplicate if its row is completed, skipped if somebody may still be at work on
      it, and otherwise ingested or failed as its transaction goes, which its row then says. */
  lemma EventFate(st: Store, c: Counts, a: Attempt)
    ensures var (st', c') := IngestOne(st, c, a);
      var row := Lookup(st.rows, a.key);
      && a.key in st'.rows && st'.rows == st.rows[a.key := st'.rows[a.key]]
      && (if row.Some? && row.value.status.Completed? then
            c' == c.(duplicates := c.duplicates + 1) && st'.events == st.events
            && st'.rows[a.key] == row.value.(lastSeenAt := a.now, seenCount := row.value.seenCount + 1)
          else if row.Some? && LockedAt(row.value, a.now) then
            c' == c.(skipped := c.skipped + 1) && st'.events == st.events
            && st'.rows[a.key] == row.value.(lastSeenAt := a.now, seenCount := row.value.seenCount + 1)
          else if a.persists then
            c' == c.(ingested := c.ingested + 1) && st'.events == st.events + [a.key]
            && st'.rows[a.key].status.Completed? && st'.rows[a.key].eventId == Some(|st.events|)
            && st'.rows[a.key].completedAt == Some(a.doneAt) && st'.rows[a.key].lastSeenAt == a.doneAt
            && st'.rows[a.key].lockExpiresAt.None? && st'.rows[a.key].error.None?
          else
            c' == c.(failed := c.failed + 1) && st'.events == st.events
            && st'.rows[a.key].status.Failed? && st'.rows[a.key].error == Some("PERSIST_FAILED")
            && st'.rows[a.key].completedAt.None? && st'.rows[a.key].lastSeenAt == a.doneAt && st'.rows[a.key].lockExpiresAt.None?)
  {
  }

  /** Every accepted event is counted once: ingested, duplicate, skipped or failed. */
  lemma {:induction false} CountsConserve(st: Store, batch: seq<Attempt>)
    ensures var c := IngestAll(st, batch).1;
      |batch| == c.ingested + c.duplicates + c.skipped + c.failed
    ensures |IngestAll(st, batch).0.events| == |st.events| + IngestAll(st, batch).1.ingested
  {
    if batch != [] {
      CountsConserve(st, batch[..|batch| - 1]);
    }
  }

  // ----- on a quiet ledger a batch is set insertion

  ghost predicate Quiet(st: Store) {
    forall k :: k in st.rows ==> st.rows[k].status.Completed?
  }

  ghost predicate FaultFree(batch: seq<Attempt>) {
    forall i :: 0 <= i < |batch| ==> batch[i].persists
  }

  ghost function KeysOf(batch: seq<Attempt>): set<Key> {
    set i | 0 <= i < |batch| :: batch[i].key
  }

  /** The batch's keys not yet in `known`, in order of first appearance. */
  function NewKeys(known: set<Key>, batch: seq<Attempt>): (r: seq<Key>)
    ensures |r| <= |batch|
  {
    if batch == [] then []
    else
      var rest := NewKeys(known, batch[..|batch| - 1]);
      var k := batch[|batch| - 1].key;
      if k in known || k in rest then rest else rest + [k]
  }

  lemma {:induction false} NewKeysDistinct(known: set<Key>, batch: seq<Attempt>)
    ensures forall i, j :: 0 <= i < j < |NewKeys(known, batch)| ==> NewKeys(known, batch)[i] != NewKeys(known, batch)[j]
    ensures forall k :: k in NewKeys(known, batch) <==> k in KeysOf(batch) && k !in known
  {
    if batch != [] {
      var n := |batch| - 1;
      NewKeysDistinct(known, batch[..n]);
      assert KeysOf(batch) == KeysOf(batch[..n]) + {batch[n].key};
    } else {
      assert KeysOf(batch) == {};
    }
  }

  lemma QuietStep(st: Store, c: Counts, a: Attempt)
    requires Quiet(st) && a.persists
    ensures var (st', c') := IngestOne(st, c, a);
      && Quiet(st')
      && st'.rows.Keys == st.rows.Keys + {a.key}
      && st'.events == st.events + (if a.key in st.rows then [] else [a.key])
      && c' == if a.key in st.rows then c.(duplicates := c.duplicates + 1) else c.(ingested := c.ingested + 1)
  {
  }

  ghost predicate Inserted(st: Store, batch: seq<Attempt>, st': Store, c: Counts) {
    && Quiet(st')
    && st'.rows.Keys == st.rows.Keys + KeysOf(batch)
    && st'.events == st.events + NewKeys(st.rows.Keys, batch)
    && c == Counts(|NewKeys(st.rows.Keys, batch)|, |batch| - |NewKeys(st.rows.Keys, batch)|, 0, 0)
  }

  // One more event of a fault-free batch.
  lemma InsertedNext(st: Store, batch: seq<Attempt>, mid: Store, c: Counts)
    requires batch != [] && FaultFree(batch) && Inserted(st, batch[..|batch| - 1], mid, c)
    ensures var (st', c') := IngestOne(mid, c, batch[|batch| - 1]); Inserted(st, batch, st', c')
  {
    var n := |batch| - 1;
    var k := batch[n].key;
    NewKeysDistinct(st.rows.Keys, batch[..n]);
    QuietStep(mid, c, batch[n]);
    KeysOfLast(batch);
    var rest := NewKeys(st.rows.Keys, batch[..n]);
    assert k in mid.rows <==> k in st.rows.Keys || k in rest;
    assert NewKeys(st.rows.Keys, batch) == if k in mid.rows then rest else rest + [k];
  }

  /** On a fault-free ledger holding only completed entries a batch inserts its keys as into a set: one
      event per new key in order of appearance, everything else a duplicate, nothing skipped or failed. */
  lemma {:induction false} QuietBatchInsertsKeys(st: Store, batch: seq<Attempt>)
    requires Quiet(st) && FaultFree(batch)
    ensures var (st', c) := IngestAll(st, batch);
      && Quiet(st')
      && st'.rows.Keys == st.rows.Keys + KeysOf(batch)
      && st'.events == st.events + NewKeys(st.rows.Keys, batch)
      && c == Counts(|NewKeys(st.rows.Keys, batch)|, |batch| - |NewKeys(st.rows.Keys, batch)|, 0, 0)
  {
    if batch == [] {
      assert KeysOf(batch) == {};
    } else {
      QuietBatchInsertsKeys(st, batch[..|batch| - 1]);
      var (mid, c) := IngestAll(st, batch[..|batch| - 1]);
      InsertedNext(st, batch, mid, c);
    }
  }

  lemma KeysOfLast(batch: seq<Attempt>)
    requires batch != []
    ensures KeysOf(batch) == KeysOf(batch[..|batch| - 1]) + {batch[|batch| - 1].key}
  {
  }

  lemma {:induction false} NothingNew(known: set<Key>, batch: seq<Attempt>)
    requires KeysOf(batch) <= known
    ensures NewKeys(known, batch) == []
  {
    if batch != [] {
      KeysOfLast(batch);
      NothingNew(known, batch[..|batch| - 1]);
    }
  }

  /** Sending the same keys again ingests nothing and stores nothing. */
  lemma {:induction false} ReplayIngestsNothing(st: Store, batch: seq<Attempt>, replay: seq<Attempt>)
    requires Quiet(st) && FaultFree(batch) && FaultFree(replay) && KeysOf(replay) <= KeysOf(batch)
    ensures var (st', _) := IngestAll(st, batch);
      var (st'', c) := IngestAll(st', replay);
      st''.events == st'.events && st''.rows.Keys == st'.rows.Keys && c == Counts(0, |replay|, 0, 0)
  {
    QuietBatchInsertsKeys(st, batch);
    var st' := IngestAll(st, batch).0;
    QuietBatchInsertsKeys(st', replay);
    NothingNew(st'.rows.Keys, replay);
  }

  // Completed rows and stored events name each other, one to one.
  ghost predicate OneEventPerKey(st: Store) {
    && (forall i, j :: 0 <= i < j < |st.events| ==> st.events[i] != st.events[j])
    && (forall k :: k in st.events ==> k in st.rows && st.rows[k].status.Completed?)
    && (forall k :: k in st.rows && st.rows[k].status.Completed? ==>
          st.rows[k].eventId.Some? && st.rows[k].eventId.value < |st.events| && st.events[st.rows[k].eventId.value] == k)
  }

  /** Run alone, faults, stale locks and repeats included, a batch keeps stored events and completed rows
      in one-to-one correspondence. */
  lemma {:induction false} AloneNoKeyStoredTwice(st: Store, batch: seq<Attempt>)
    requires OneEventPerKey(st)
    ensures OneEventPerKey(IngestAll(st, batch).0)
  {
    if batch != [] {
      var n := |batch| - 1;
      AloneNoKeyStoredTwice(st, batch[..n]);
      var (mid, c) := IngestAll(st, batch[..n]);
    }
  }
}
