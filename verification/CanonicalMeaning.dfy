/** What a JSON-like value means up to the order of object keys, what sorting keys keeps of it, and when two
    values that mean the same come out alike. */
module CanonicalMeaning {
  import opened Prelude
  import opened CanonicalJson

  // What a value says: an object is a finite map, and a missing field says null.
  datatype Data =
    | DNull
    | DBool(b: bool)
    | DNum(n: int)
    | DStr(s: Text)
    | DArr(items: seq<Data>)
    | DObj(fields: map<Text, Data>)

  function Meaning(v: Value): Data {
    match v
    case Undefined => DNull
    case Null => DNull
    case Bool(b) => DBool(b)
    case Num(n) => DNum(n)
    case Str(s) => DStr(s)
    case Arr(items) => DArr(MeaningItems(items))
    case Obj(entries) => DObj(MeaningEntries(entries))
  }

  function MeaningItems(items: seq<Value>): (r: seq<Data>)
    ensures |r| == |items|
  {
    if items == [] then [] else [Meaning(items[0])] + MeaningItems(items[1..])
  }

  function MeaningEntries(es: seq<Entry>): map<Text, Data> {
    if es == [] then map[] else MeaningEntries(es[1..])[es[0].key := Meaning(es[0].value)]
  }

  ghost predicate DistinctKeys(es: seq<Entry>) {
    forall i, j :: 0 <= i < j < |es| ==> es[i].key != es[j].key
  }

  /** Objects carry each key once, at every depth. */
  ghost predicate WellFormed(v: Value) {
    match v
    case Arr(items) => forall x :: x in items ==> WellFormed(x)
    case Obj(entries) => DistinctKeys(entries) && forall e :: e in entries ==> WellFormed(e.value)
    case _ => true
  }

  ghost predicate Consistent(notAfter: Order) {
    && (forall k, l :: notAfter(k, l) || notAfter(l, k))
    && (forall k, l, m :: notAfter(k, l) && notAfter(l, m) ==> notAfter(k, m))
  }

  predicate Tied(notAfter: Order, k: Text, l: Text) {
    k != l && notAfter(k, l) && notAfter(l, k)
  }

  ghost predicate NoTiedKeys(notAfter: Order, es: seq<Entry>) {
    forall d, e :: d in es && e in es ==> !Tied(notAfter, d.key, e.key)
  }

  /** No object in the value, at any depth, has two different keys the comparison cannot tell apart. */
  ghost predicate NoTies(notAfter: Order, v: Value) {
    match v
    case Arr(items) => forall x :: x in items ==> NoTies(notAfter, x)
    case Obj(entries) => NoTiedKeys(notAfter, entries) && forall e :: e in entries ==> NoTies(notAfter, e.value)
    case _ => true
  }

  // ----- normalising keeps the meaning

  lemma {:induction false} FieldMeaning(es: seq<Entry>, e: Entry)
    requires DistinctKeys(es) && e in es
    ensures e.key in MeaningEntries(es) && MeaningEntries(es)[e.key] == Meaning(e.value)
  {
    if e != es[0] {
      assert e in es[1..];
      assert e.key != es[0].key;
      FieldMeaning(es[1..], e);
    }
  }

  lemma {:induction false} FieldOrigin(es: seq<Entry>, k: Text)
    requires k in MeaningEntries(es)
    ensures exists e :: e in es && e.key == k
  {
    if k == es[0].key {
      assert es[0] in es;
    } else {
      FieldOrigin(es[1..], k);
    }
  }

  lemma {:induction false} InsertMeaning(notAfter: Order, e: Entry, es: seq<Entry>)
    requires forall x :: x in es ==> x.key != e.key
    ensures MeaningEntries(InsertEntry(notAfter, e, es)) == MeaningEntries(es)[e.key := Meaning(e.value)]
  {
    if es == [] || notAfter(e.key, es[0].key) {
    } else {
      assert es[0] in es;
      InsertMeaning(notAfter, e, es[1..]);
    }
  }

  lemma {:induction false} SortMeaning(notAfter: Order, es: seq<Entry>)
    requires DistinctKeys(es)
    ensures MeaningEntries(SortEntries(notAfter, es)) == MeaningEntries(es)
  {
    if es != [] {
      SortMeaning(notAfter, es[1..]);
      InsertMeaning(notAfter, es[0], SortEntries(notAfter, es[1..]));
    }
  }

  lemma {:induction false} NormalKeepsMeaning(notAfter: Order, v: Value)
    requires WellFormed(v)
    ensures Meaning(Normalize(notAfter, v)) == Meaning(v)
    decreases v, 1, 0
  {
    match v
    case Arr(items) => NormalItemsMeaning(notAfter, v, items);
    case Obj(entries) =>
      NormalKeys(notAfter, entries);
      SortMeaning(notAfter, NormalEntries(notAfter, entries));
      NormalEntriesMeaning(notAfter, v, entries);
    case _ =>
  }

  lemma {:induction false} NormalItemsMeaning(notAfter: Order, v: Value, items: seq<Value>)
    requires v.Arr? && WellFormed(v) && forall x :: x in items ==> x in v.items
    ensures MeaningItems(NormalItems(notAfter, items)) == MeaningItems(items)
    decreases v, 0, |items|
  {
    if items != [] {
      assert items[0] in v.items;
      NormalKeepsMeaning(notAfter, items[0]);
      NormalItemsMeaning(notAfter, v, items[1..]);
    }
  }

  lemma {:induction false} NormalEntriesMeaning(notAfter: Order, v: Value, es: seq<Entry>)
    requires v.Obj? && WellFormed(v) && forall e :: e in es ==> e in v.entries
    ensures MeaningEntries(NormalEntries(notAfter, es)) == MeaningEntries(es)
    decreases v, 0, |es|
  {
    if es != [] {
      assert es[0] in v.entries;
      NormalKeepsMeaning(notAfter, es[0].value);
      NormalEntriesMeaning(notAfter, v, es[1..]);
    }
  }

  lemma {:induction false} NormalKeys(notAfter: Order, es: seq<Entry>)
    ensures forall i :: 0 <= i < |es| ==>
      NormalEntries(notAfter, es)[i] == Entry(es[i].key, Normalize(notAfter, es[i].value))
  {
    if es != [] {
      NormalKeys(notAfter, es[1..]);
    }
  }

  // ----- values that mean the same print the same, unless keys tie

  ghost predicate SortedEntries(notAfter: Order, es: seq<Entry>) {
    forall i, j :: 0 <= i < j < |es| ==> notAfter(es[i].key, es[j].key)
  }

  lemma {:induction false} InsertSorted(notAfter: Order, e: Entry, es: seq<Entry>)
    requires Consistent(notAfter) && SortedEntries(notAfter, es)
    ensures SortedEntries(notAfter, InsertEntry(notAfter, e, es))
  {
    if !(es == [] || notAfter(e.key, es[0].key)) {
      InsertSorted(notAfter, e, es[1..]);
      var rest := InsertEntry(notAfter, e, es[1..]);
      forall j | 0 <= j < |rest| ensures notAfter(es[0].key, rest[j].key) {
        assert rest[j] in rest;
      }
    }
  }

  lemma {:induction false} SortSorted(notAfter: Order, es: seq<Entry>)
    requires Consistent(notAfter)
    ensures SortedEntries(notAfter, SortEntries(notAfter, es))
  {
    if es != [] {
      SortSorted(notAfter, es[1..]);
      InsertSorted(notAfter, es[0], SortEntries(notAfter, es[1..]));
    }
  }

  lemma {:induction false} InsertDistinct(notAfter: Order, e: Entry, es: seq<Entry>)
    requires DistinctKeys(es) && forall x :: x in es ==> x.key != e.key
    ensures DistinctKeys(InsertEntry(notAfter, e, es))
  {
    if !(es == [] || notAfter(e.key, es[0].key)) {
      InsertDistinct(notAfter, e, es[1..]);
      var rest := InsertEntry(notAfter, e, es[1..]);
      forall j | 0 <= j < |rest| ensures es[0].key != rest[j].key {
        assert rest[j] in rest && es[0] in es;
      }
    }
  }

  lemma {:induction false} SortDistinct(notAfter: Order, es: seq<Entry>)
    requires DistinctKeys(es)
    ensures DistinctKeys(SortEntries(notAfter, es))
  {
    if es != [] {
      SortDistinct(notAfter, es[1..]);
      InsertDistinct(notAfter, es[0], SortEntries(notAfter, es[1..]));
    }
  }

  // Without ties there is only one way to lay a set of entries out in order.
  lemma TailMember(s: seq<Entry>, e: Entry)
    requires s != [] && DistinctKeys(s)
    ensures e in s[1..] <==> e in s && e != s[0]
  {
    if e in s[1..] {
      var i :| 0 <= i < |s[1..]| && s[1..][i] == e;
      assert s[i + 1] == e;
    }
    assert s == [s[0]] + s[1..];
  }

  lemma TailsAgree(s: seq<Entry>, t: seq<Entry>)
    requires s != [] && t != [] && s[0] == t[0] && DistinctKeys(s) && DistinctKeys(t)
    requires forall e :: e in s <==> e in t
    ensures forall e :: e in s[1..] <==> e in t[1..]
  {
    forall e ensures e in s[1..] <==> e in t[1..] {
      TailMember(s, e);
      TailMember(t, e);
    }
  }

  lemma {:induction false} OneSortedLayout(notAfter: Order, s: seq<Entry>, t: seq<Entry>)
    requires SortedEntries(notAfter, s) && SortedEntries(notAfter, t)
    requires DistinctKeys(s) && DistinctKeys(t) && NoTiedKeys(notAfter, s)
    requires forall e :: e in s <==> e in t
    ensures s == t
  {
    if s != [] {
      assert s[0] in t;
    }
    if t != [] {
      assert t[0] in s;
    }
    if s != [] {
      HeadsAgree(notAfter, s, t);
      TailsAgree(s, t);
      OneSortedLayout(notAfter, s[1..], t[1..]);
    }
  }

  lemma HeadsAgree(notAfter: Order, s: seq<Entry>, t: seq<Entry>)
    requires s != [] && t != [] && SortedEntries(notAfter, s) && SortedEntries(notAfter, t)
    requires DistinctKeys(s) && NoTiedKeys(notAfter, s) && t[0] in s && s[0] in t
    ensures s[0] == t[0]
  {
  }

  lemma {:induction false} SameEntriesSameLayout(notAfter: Order, s: seq<Entry>, t: seq<Entry>)
    requires Consistent(notAfter) && DistinctKeys(s) && DistinctKeys(t) && NoTiedKeys(notAfter, s)
    requires forall e :: e in s <==> e in t
    ensures SortEntries(notAfter, s) == SortEntries(notAfter, t)
  {
    SortSorted(notAfter, s);
    SortSorted(notAfter, t);
    SortDistinct(notAfter, s);
    SortDistinct(notAfter, t);
    OneSortedLayout(notAfter, SortEntries(notAfter, s), SortEntries(notAfter, t));
  }

  lemma {:induction false} EqualMeaningEqualNormal(notAfter: Order, a: Value, b: Value)
    requires Consistent(notAfter) && WellFormed(a) && WellFormed(b) && NoTies(notAfter, a)
    requires Meaning(a) == Meaning(b)
    ensures Normalize(notAfter, a) == Normalize(notAfter, b)
    decreases a, 1, 0
  {
    match a
    case Arr(items) => EqualItems(notAfter, a, b, items, b.items);
    case Obj(entries) =>
      forall d, d' | d in entries && d' in b.entries && d.key == d'.key
        ensures Normalize(notAfter, d.value) == Normalize(notAfter, d'.value)
      {
        EqualFields(notAfter, a, b, d, d');
      }
      EqualObjects(notAfter, entries, b.entries);
    case _ =>
  }

  lemma {:induction false} EqualFields(notAfter: Order, a: Value, b: Value, d: Entry, d': Entry)
    requires a.Obj? && b.Obj? && Consistent(notAfter) && WellFormed(a) && WellFormed(b) && NoTies(notAfter, a)
    requires Meaning(a) == Meaning(b) && d in a.entries && d' in b.entries && d.key == d'.key
    ensures Normalize(notAfter, d.value) == Normalize(notAfter, d'.value)
    decreases a, 0, 0
  {
    FieldMeaning(a.entries, d);
    FieldMeaning(b.entries, d');
    EqualMeaningEqualNormal(notAfter, d.value, d'.value);
  }

  ghost predicate FieldsMatch(notAfter: Order, es: seq<Entry>, es': seq<Entry>) {
    forall d, d' :: d in es && d' in es' && d.key == d'.key ==> Normalize(notAfter, d.value) == Normalize(notAfter, d'.value)
  }

  lemma NormalEntriesCarry(notAfter: Order, es: seq<Entry>, es': seq<Entry>, e: Entry)
    requires DistinctKeys(es) && FieldsMatch(notAfter, es, es')
    requires MeaningEntries(es) == MeaningEntries(es') && e in NormalEntries(notAfter, es)
    ensures e in NormalEntries(notAfter, es')
  {
    NormalEntryOrigin(notAfter, es, e);
    var d :| d in es && e == Entry(d.key, Normalize(notAfter, d.value));
    FieldMeaning(es, d);
    FieldOrigin(es', d.key);
    var d' :| d' in es' && d'.key == d.key;
    var i :| 0 <= i < |es'| && es'[i] == d';
    NormalKeys(notAfter, es');
    assert NormalEntries(notAfter, es')[i] == e;
  }

  lemma {:induction false} NormalEntriesAgree(notAfter: Order, es: seq<Entry>, es': seq<Entry>)
    requires DistinctKeys(es) && DistinctKeys(es')
    requires FieldsMatch(notAfter, es, es') && MeaningEntries(es) == MeaningEntries(es')
    ensures forall e :: e in NormalEntries(notAfter, es) <==> e in NormalEntries(notAfter, es')
  {
    forall e ensures e in NormalEntries(notAfter, es) <==> e in NormalEntries(notAfter, es') {
      if e in NormalEntries(notAfter, es) {
        NormalEntriesCarry(notAfter, es, es', e);
      }
      if e in NormalEntries(notAfter, es') {
        NormalEntriesCarry(notAfter, es', es, e);
      }
    }
  }

  lemma {:induction false} EqualObjects(notAfter: Order, es: seq<Entry>, es': seq<Entry>)
    requires Consistent(notAfter) && DistinctKeys(es) && DistinctKeys(es') && NoTiedKeys(notAfter, es)
    requires FieldsMatch(notAfter, es, es') && MeaningEntries(es) == MeaningEntries(es')
    ensures Normalize(notAfter, Obj(es)) == Normalize(notAfter, Obj(es'))
  {
    NormalEntriesAgree(notAfter, es, es');
    NormalDistinct(notAfter, es);
    NormalDistinct(notAfter, es');
    NormalNoTies(notAfter, es);
    SameEntriesSameLayout(notAfter, NormalEntries(notAfter, es), NormalEntries(notAfter, es'));
  }

  lemma NormalDistinct(notAfter: Order, es: seq<Entry>)
    requires DistinctKeys(es)
    ensures DistinctKeys(NormalEntries(notAfter, es))
  {
    NormalKeys(notAfter, es);
  }

  lemma NormalNoTies(notAfter: Order, es: seq<Entry>)
    requires NoTiedKeys(notAfter, es)
    ensures NoTiedKeys(notAfter, NormalEntries(notAfter, es))
  {
    var s := NormalEntries(notAfter, es);
    forall d, e | d in s && e in s ensures !Tied(notAfter, d.key, e.key) {
      NormalEntryOrigin(notAfter, es, d);
      NormalEntryOrigin(notAfter, es, e);
    }
  }

  lemma {:induction false} EqualItems(notAfter: Order, a: Value, b: Value, items: seq<Value>, items': seq<Value>)
    requires a.Arr? && b.Arr? && Consistent(notAfter) && WellFormed(a) && WellFormed(b) && NoTies(notAfter, a)
    requires (forall x :: x in items ==> x in a.items) && (forall x :: x in items' ==> x in b.items)
    requires MeaningItems(items) == MeaningItems(items')
    ensures NormalItems(notAfter, items) == NormalItems(notAfter, items')
    decreases a, 0, |items|
  {
    if items != [] {
      assert items[0] in a.items && items'[0] in b.items;
      assert MeaningItems(items)[0] == MeaningItems(items')[0];
      EqualMeaningEqualNormal(notAfter, items[0], items'[0]);
      assert MeaningItems(items)[1..] == MeaningItems(items')[1..];
      EqualItems(notAfter, a, b, items[1..], items'[1..]);
    }
  }
}
