/** Reading the operational event log in batches behind a (created_at, id) cursor: the rows, the batches, and
    the sorted log that they read from. */
module EventLog {
  import opened Prelude

  datatype Event = Event(
    id: int,
    tenant: string,
    source: string,
    eventType: string,
    system: string,
    correlation: Option<string>,
    eventTs: int,
    createdAt: int,
    runAttempt: Option<real>)

  // The position of an event in the log; ids stand for the unique row identifiers in their order.
  datatype Key = Key(createdAt: int, id: int)

  function KeyOf(e: Event): Key {
    Key(e.createdAt, e.id)
  }

  predicate Before(a: Key, b: Key) {
    a.createdAt < b.createdAt || (a.createdAt == b.createdAt && a.id < b.id)
  }

  /** The event lies beyond the cursor; without a cursor every event does. */
  predicate Beyond(e: Event, cursor: Option<Key>) {
    cursor.None? || Before(cursor.value, KeyOf(e))
  }

  function Insert(e: Event, s: seq<Event>): (r: seq<Event>)
    ensures |r| == |s| + 1 && forall x :: x in r <==> x == e || x in s
  {
    if s == [] || Before(KeyOf(e), KeyOf(s[0])) then [e] + s else [s[0]] + Insert(e, s[1..])
  }

  /** The rows in key order. */
  function SortByKey(table: seq<Event>): (r: seq<Event>)
    ensures |r| == |table| && forall x :: x in r <==> x in table
  {
    if table == [] then [] else Insert(table[|table| - 1], SortByKey(table[..|table| - 1]))
  }

  function Select(table: seq<Event>, cursor: Option<Key>): seq<Event> {
    if table == [] then []
    else
      var rest := Select(table[..|table| - 1], cursor);
      if Beyond(table[|table| - 1], cursor) then rest + [table[|table| - 1]] else rest
  }

  /** The unread events in the order they will be read. */
  function Unread(table: seq<Event>, cursor: Option<Key>): seq<Event> {
    SortByKey(Select(table, cursor))
  }

  function Take(s: seq<Event>, n: nat): (r: seq<Event>)
    ensures r == s[..Min(n, |s|)]
  {
    if |s| <= n then s else s[..n]
  }

  // `read` is the concatenation of the batches completed so far.
  datatype State = State(table: seq<Event>, cursor: Option<Key>, read: seq<Event>)

  datatype Action = Append(e: Event) | Batch(size: nat)

  predicate Enabled(s: State, a: Action) {
    match a
    case Append(e) => forall x :: x in s.table ==> KeyOf(x) != KeyOf(e)
    case Batch(size) => size > 0
  }

  function Apply(s: State, a: Action): State
    requires Enabled(s, a)
  {
    match a
    case Append(e) => s.(table := s.table + [e])
    case Batch(size) =>
      var batch := Take(Unread(s.table, s.cursor), size);
      if batch == [] then s else State(s.table, Some(KeyOf(batch[|batch| - 1])), s.read + batch)
  }

  ghost predicate Executes(s: State, acts: seq<Action>, t: State)
    decreases |acts|
  {
    if acts == [] then s == t
    else Enabled(s, acts[0]) && Executes(Apply(s, acts[0]), acts[1..], t)
  }

  /** Every append gets a key above the cursor of its moment. */
  ghost predicate AppendsAhead(s: State, acts: seq<Action>)
    decreases |acts|
  {
    acts == [] ||
    (Enabled(s, acts[0]) && (acts[0].Append? ==> Beyond(acts[0].e, s.cursor)) && AppendsAhead(Apply(s, acts[0]), acts[1..]))
  }

  const START: State := State([], None, [])

  // ----- sorting

  ghost predicate Ordered(s: seq<Event>) {
    forall i, j :: 0 <= i < j < |s| ==> Before(KeyOf(s[i]), KeyOf(s[j]))
  }

  ghost predicate DistinctKeys(table: seq<Event>) {
    forall i, j :: 0 <= i < j < |table| ==> KeyOf(table[i]) != KeyOf(table[j])
  }

  lemma {:induction false} InsertOrdered(e: Event, s: seq<Event>)
    requires Ordered(s) && forall x :: x in s ==> KeyOf(x) != KeyOf(e)
    ensures Ordered(Insert(e, s))
  {
    if !(s == [] || Before(KeyOf(e), KeyOf(s[0]))) {
      assert s[0] in s;
      InsertOrdered(e, s[1..]);
      var rest := Insert(e, s[1..]);
      forall j | 0 <= j < |rest| ensures Before(KeyOf(s[0]), KeyOf(rest[j])) {
        assert rest[j] in rest;
      }
    }
  }

  lemma {:induction false} SortOrdered(table: seq<Event>)
    requires DistinctKeys(table)
    ensures Ordered(SortByKey(table))
  {
    if table != [] {
      SortOrdered(table[..|table| - 1]);
      InsertOrdered(table[|table| - 1], SortByKey(table[..|table| - 1]));
    }
  }

  // Selecting in a sorted list, front to back.
  function After(s: seq<Event>, cursor: Option<Key>): seq<Event> {
    if s == [] then []
    else if Beyond(s[0], cursor) then [s[0]] + After(s[1..], cursor)
    else After(s[1..], cursor)
  }

  lemma {:induction false} AfterAll(s: seq<Event>, cursor: Option<Key>)
    requires forall x :: x in s ==> Beyond(x, cursor)
    ensures After(s, cursor) == s
  {
    if s != [] {
      AfterAll(s[1..], cursor);
    }
  }

  lemma {:induction false} AfterInsert(e: Event, s: seq<Event>, cursor: Option<Key>)
    requires Ordered(s) && forall x :: x in s ==> KeyOf(x) != KeyOf(e)
    ensures After(Insert(e, s), cursor) == if Beyond(e, cursor) then Insert(e, After(s, cursor)) else After(s, cursor)
  {
    if s == [] || Before(KeyOf(e), KeyOf(s[0])) {
      assert ([e] + s)[1..] == s;
      if Beyond(e, cursor) && s != [] {
        AfterAll(s, cursor);
      }
    } else {
      assert ([s[0]] + Insert(e, s[1..]))[1..] == Insert(e, s[1..]);
      AfterInsert(e, s[1..], cursor);
      if Beyond(s[0], cursor) {
        assert s[0] in s;
        assert ([s[0]] + After(s[1..], cursor))[1..] == After(s[1..], cursor);
      }
    }
  }

  /** Selecting the unread rows and sorting them is cutting the sorted log at the cursor. */
  lemma {:induction false} UnreadIsAfter(table: seq<Event>, cursor: Option<Key>)
    requires DistinctKeys(table)
    ensures Unread(table, cursor) == After(SortByKey(table), cursor)
  {
    if table != [] {
      var n := |table| - 1;
      UnreadIsAfter(table[..n], cursor);
      SortOrdered(table[..n]);
      forall x | x in SortByKey(table[..n]) ensures KeyOf(x) != KeyOf(table[n]) {
        var i :| 0 <= i < n && table[i] == x;
      }
      AfterInsert(table[n], SortByKey(table[..n]), cursor);
      var rest := Select(table[..n], cursor);
      assert (rest + [table[n]])[..|rest|] == rest;
    }
  }

  lemma {:induction false} AfterCut(s: seq<Event>, k: nat, cursor: Option<Key>)
    requires Ordered(s) && k <= |s|
    requires if k == 0 then cursor == None else cursor == Some(KeyOf(s[k - 1]))
    ensures After(s, cursor) == s[k..]
  {
    if k == 0 {
      AfterAll(s, cursor);
    } else {
      AfterDrop(s, k, cursor.value);
    }
  }

  lemma {:induction false} AfterDrop(s: seq<Event>, k: nat, c: Key)
    requires Ordered(s) && 0 < k <= |s| && c == KeyOf(s[k - 1])
    ensures After(s, Some(c)) == s[k..]
  {
    assert !Beyond(s[0], Some(c));
    if k == 1 {
      forall x | x in s[1..] ensures Beyond(x, Some(c)) {
        var i :| 0 <= i < |s| - 1 && s[1..][i] == x;
        assert s[i + 1] == x;
      }
      AfterAll(s[1..], Some(c));
    } else {
      assert s[1..][k - 2] == s[k - 1];
      AfterDrop(s[1..], k - 1, c);
      assert s[1..][k - 1..] == s[k..];
    }
  }

  // ----- in step with the sorted log

  /** What has been read is the front of the sorted log, up to and including the cursor. */
  ghost predicate InStep(s: State) {
    && DistinctKeys(s.table)
    && var sorted := SortByKey(s.table);
    && |s.read| <= |sorted| && s.read == sorted[..|s.read|]
    && s.cursor == if s.read == [] then None else Some(KeyOf(s.read[|s.read| - 1]))
  }

  lemma {:induction false} InsertKeepsFront(e: Event, s: seq<Event>, k: nat)
    requires Ordered(s) && k <= |s| && (k > 0 ==> Before(KeyOf(s[k - 1]), KeyOf(e)))
    ensures Insert(e, s)[..k] == s[..k]
  {
    if k > 0 {
      assert k == 1 || Before(KeyOf(s[0]), KeyOf(s[k - 1]));
      InsertKeepsFront(e, s[1..], k - 1);
      assert Insert(e, s)[..k] == [s[0]] + Insert(e, s[1..])[..k - 1];
      assert s[..k] == [s[0]] + s[1..][..k - 1];
    }
  }

  lemma InStepAppend(s: State, e: Event)
    requires InStep(s) && Enabled(s, Append(e)) && Beyond(e, s.cursor)
    ensures InStep(Apply(s, Append(e)))
  {
    var t := s.table + [e];
    assert t[..|s.table|] == s.table;
    var sorted := SortByKey(s.table);
    SortOrdered(s.table);
    assert SortByKey(t) == Insert(e, sorted);
    var k := |s.read|;
    assert k > 0 ==> s.read[k - 1] == sorted[k - 1];
    InsertKeepsFront(e, sorted, k);
    forall i | 0 <= i < |s.table| ensures KeyOf(t[i]) != KeyOf(e) {
      assert s.table[i] in s.table;
    }
  }

  lemma UnreadInStep(s: State)
    requires InStep(s)
    ensures Unread(s.table, s.cursor) == SortByKey(s.table)[|s.read|..]
  {
    var sorted := SortByKey(s.table);
    SortOrdered(s.table);
    UnreadIsAfter(s.table, s.cursor);
    assert s.read != [] ==> s.read[|s.read| - 1] == sorted[|s.read| - 1];
    AfterCut(sorted, |s.read|, s.cursor);
  }

  lemma InStepBatch(s: State, size: nat)
    requires InStep(s) && size > 0
    ensures InStep(Apply(s, Batch(size)))
    ensures Apply(s, Batch(size)).read == SortByKey(s.table)[..Min(|s.read| + size, |s.table|)]
  {
    UnreadInStep(s);
    ReadOn(SortByKey(s.table), |s.read|, size);
  }

  lemma ReadOn(sorted: seq<Event>, k: nat, size: nat)
    requires k <= |sorted|
    ensures sorted[..k] + Take(sorted[k..], size) == sorted[..Min(k + size, |sorted|)]
  {
  }

  lemma {:induction false} InStepAlways(s: State, acts: seq<Action>, t: State)
    requires InStep(s) && Executes(s, acts, t) && AppendsAhead(s, acts)
    ensures InStep(t)
    decreases |acts|
  {
    if acts != [] {
      match acts[0] {
        case Append(e) => InStepAppend(s, e);
        case Batch(size) => InStepBatch(s, size);
      }
      InStepAlways(Apply(s, acts[0]), acts[1..], t);
    }
  }
}
