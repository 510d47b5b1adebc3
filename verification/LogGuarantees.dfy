/** What the batches read of the event log. */
module LogGuarantees {
  import opened Prelude
  import opened EventLog

  // ----- no gap, no repeat

  /** Over any run of batches and appends that lie above the cursor, the batches read concatenate to the
      key-sorted log up to the cursor: no event is missed, repeated or taken out of order. */
  lemma BatchesReadTheSortedLog(acts: seq<Action>, t: State)
    requires Executes(START, acts, t) && AppendsAhead(START, acts)
    ensures |t.read| <= |t.table| && t.read == SortByKey(t.table)[..|t.read|]
    ensures Ordered(t.read)
    ensures forall e :: e in t.table ==> (e in t.read <==> !Beyond(e, t.cursor))
  {
    assert SortByKey(START.table) == [];
    InStepAlways(START, acts, t);
    var sorted := SortByKey(t.table);
    SortOrdered(t.table);
    forall e | e in t.table ensures e in t.read <==> !Beyond(e, t.cursor) {
      var i :| 0 <= i < |sorted| && sorted[i] == e;
      CursorCuts(sorted, |t.read|, i);
    }
  }

  // The cursor at the k-th event of the sorted log has exactly the first k behind it.
  lemma CursorCuts(sorted: seq<Event>, k: nat, i: nat)
    requires Ordered(sorted) && k <= |sorted| && i < |sorted|
    ensures sorted[i] in sorted[..k] <==> i < k
    ensures !Beyond(sorted[i], if k == 0 then None else Some(KeyOf(sorted[..k][k - 1]))) <==> i < k
  {
  }

  /** `k` is n / size rounded up. */
  predicate IsCeil(k: nat, n: nat, size: nat) {
    n <= size * k && (k == 0 || size * (k - 1) < n)
  }

  lemma CeilStep(k: nat, n: nat, size: nat)
    requires size > 0 && n > 0 && IsCeil(k, if n <= size then 0 else n - size, size)
    ensures IsCeil(k + 1, n, size)
  {
  }

  lemma RunOfBatches(s: State, size: nat, k: nat, t: State)
    requires size > 0 && Executes(Apply(s, Batch(size)), seq(k, _ => Batch(size)), t)
    ensures Executes(s, seq(k + 1, _ => Batch(size)), t)
  {
    var run := seq(k + 1, _ => Batch(size));
    assert run[1..] == seq(k, _ => Batch(size));
  }

  lemma BatchDrains(s: State, size: nat)
    requires InStep(s) && size > 0 && |s.read| < |s.table|
    ensures var m := Apply(s, Batch(size));
      var n, n' := |Unread(s.table, s.cursor)|, |Unread(m.table, m.cursor)|;
      InStep(m) && m.table == s.table && |s.read| < |m.read| && n > 0 && n' == if n <= size then 0 else n - size
  {
    UnreadInStep(s);
    InStepBatch(s, size);
    UnreadInStep(Apply(s, Batch(size)));
  }

  lemma AllRead(s: State)
    requires InStep(s) && |s.read| >= |s.table|
    ensures s.read == SortByKey(s.table) && |Unread(s.table, s.cursor)| == 0
  {
    UnreadInStep(s);
    assert SortByKey(s.table)[..|s.read|] == SortByKey(s.table);
  }

  lemma OneMoreBatch(s: State, size: nat, rest: nat, t: State)
    requires InStep(s) && size > 0 && |s.read| < |s.table|
    requires var m := Apply(s, Batch(size));
      IsCeil(rest, |Unread(m.table, m.cursor)|, size) && Executes(m, seq(rest, _ => Batch(size)), t)
    ensures IsCeil(rest + 1, |Unread(s.table, s.cursor)|, size) && Executes(s, seq(rest + 1, _ => Batch(size)), t)
  {
    BatchDrains(s, size);
    CeilStep(rest, |Unread(s.table, s.cursor)|, size);
    RunOfBatches(s, size, rest, t);
  }

  /** With nothing appended meanwhile, n unread events drain in ceil(n / size) batches, after which the
      whole log has been read. */
  lemma {:induction false} DrainsInCeilBatches(s: State, size: nat) returns (k: nat, t: State)
    requires InStep(s) && size > 0
    ensures IsCeil(k, |Unread(s.table, s.cursor)|, size)
    ensures Executes(s, seq(k, _ => Batch(size)), t)
    ensures t.table == s.table && t.read == SortByKey(s.table)
    decreases |s.table| - |s.read|
  {
    if |s.read| >= |s.table| {
      AllRead(s);
      k, t := 0, s;
    } else {
      BatchDrains(s, size);
      var rest;
      rest, t := DrainsInCeilBatches(Apply(s, Batch(size)), size);
      OneMoreBatch(s, size, rest, t);
      k := rest + 1;
    }
  }

  // ----- an append at or below the cursor is never read

  lemma {:induction false} SelectOnlyBeyond(table: seq<Event>, cursor: Option<Key>, x: Event)
    requires x in Select(table, cursor)
    ensures x in table && Beyond(x, cursor)
  {
    var n := |table| - 1;
    if x in Select(table[..n], cursor) {
      SelectOnlyBeyond(table[..n], cursor, x);
    }
  }

  /** An event that lands at or below the cursor is skipped for good: no later run reads it. */
  lemma {:induction false} LateAppendNeverRead(s: State, e: Event, acts: seq<Action>, t: State)
    requires e !in s.read && !Beyond(e, s.cursor) && Executes(s, acts, t)
    ensures e !in t.read && !Beyond(e, t.cursor)
    decreases |acts|
  {
    if acts != [] {
      var m := Apply(s, acts[0]);
      if acts[0].Batch? {
        var batch := Take(Unread(s.table, s.cursor), acts[0].size);
        if e in batch {
          SelectOnlyBeyond(s.table, s.cursor, e);
        }
        if batch != [] {
          var last := batch[|batch| - 1];
          assert last in SortByKey(Select(s.table, s.cursor));
          SelectOnlyBeyond(s.table, s.cursor, last);
        }
      }
      LateAppendNeverRead(m, e, acts[1..], t);
    }
  }

  // An append that lands at or below the cursor is there at the end, unread and not beyond the cursor.
  lemma {:induction false} LateAppendShows(s: State, acts: seq<Action>, t: State) returns (e: Event)
    requires Executes(s, acts, t) && !AppendsAhead(s, acts) && forall x :: x in s.read ==> x in s.table
    ensures e in t.table && e !in t.read && !Beyond(e, t.cursor)
    decreases |acts|
  {
    var m := Apply(s, acts[0]);
    if acts[0].Append? && !Beyond(acts[0].e, s.cursor) {
      e := acts[0].e;
      LateAppendNeverRead(m, e, acts[1..], t);
      TableGrows(m, acts[1..], t);
    } else {
      forall x | x in m.read ensures x in m.table {
        if x !in s.read {
          SelectOnlyBeyond(s.table, s.cursor, x);
        }
      }
      e := LateAppendShows(m, acts[1..], t);
    }
  }

  lemma {:induction false} TableGrows(s: State, acts: seq<Action>, t: State)
    requires Executes(s, acts, t)
    ensures s.table <= t.table
    decreases |acts|
  {
    if acts != [] {
      TableGrows(Apply(s, acts[0]), acts[1..], t);
    }
  }

  /** So the log is read without a gap in a run exactly if every append in it lands above the cursor. */
  lemma ReadWithoutGapsExactly(acts: seq<Action>, t: State)
    requires Executes(START, acts, t)
    ensures AppendsAhead(START, acts) <==> forall e :: e in t.table ==> (e in t.read <==> !Beyond(e, t.cursor))
  {
    if AppendsAhead(START, acts) {
      BatchesReadTheSortedLog(acts, t);
    } else {
      var e := LateAppendShows(START, acts, t);
    }
  }
}
