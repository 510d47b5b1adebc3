/** When two values share a canonical text. */
module CanonicalEquality {
  import opened Prelude
  import opened CanonicalJson
  import opened CanonicalMeaning

  /** Equal canonical texts always mean equal values, whatever comparison sorted the keys: no two
      different events are ever taken for one another. */
  lemma EqualTextsMeanEqualValues(notAfter: Order, a: Value, b: Value)
    requires WellFormed(a) && WellFormed(b)
    requires Canonicalize(notAfter, a) == Canonicalize(notAfter, b)
    ensures Meaning(a) == Meaning(b)
  {
    DecodeUndoesCanonicalize(notAfter, a);
    DecodeUndoesCanonicalize(notAfter, b);
    NormalKeepsMeaning(notAfter, a);
    NormalKeepsMeaning(notAfter, b);
  }

  /** The canonical text is a faithful name for what a value says: under a comparison that ties no two
      keys of the value, texts agree exactly when the values agree up to the order of object keys. */
  lemma CanonicalTextNamesTheValue(notAfter: Order, a: Value, b: Value)
    requires Consistent(notAfter) && WellFormed(a) && WellFormed(b) && NoTies(notAfter, a)
    ensures Canonicalize(notAfter, a) == Canonicalize(notAfter, b) <==> Meaning(a) == Meaning(b)
  {
    if Meaning(a) == Meaning(b) {
      EqualMeaningEqualNormal(notAfter, a, b);
      CanonicalIsPrintedNormalForm(notAfter, a);
      CanonicalIsPrintedNormalForm(notAfter, b);
    } else if Canonicalize(notAfter, a) == Canonicalize(notAfter, b) {
      EqualTextsMeanEqualValues(notAfter, a, b);
    }
  }

  // ----- ties are the only way key order can show

  ghost predicate Reordering(p: seq<Entry>, es: seq<Entry>) {
    multiset(p) == multiset(es)
  }

  lemma ReorderingKeepsEntries(p: seq<Entry>, es: seq<Entry>)
    requires Reordering(p, es) && DistinctKeys(es)
    ensures DistinctKeys(p) && forall e :: e in p <==> e in es
  {
    forall e ensures e in p <==> e in es {
      assert e in multiset(p) <==> e in multiset(es);
    }
    forall i, j | 0 <= i < j < |p| ensures p[i].key != p[j].key {
      assert p[i] in es && p[j] in es;
      OccursOnce(es, p[i]);
      OccursTwice(p, i, j);
    }
  }

  lemma OccursTwice(p: seq<Entry>, i: nat, j: nat)
    requires i < j < |p|
    ensures p[i] == p[j] ==> multiset(p)[p[i]] >= 2
  {
    assert p == p[..i] + [p[i]] + p[i + 1..j] + [p[j]] + p[j + 1..];
  }

  lemma {:induction false} OccursOnce(es: seq<Entry>, e: Entry)
    requires DistinctKeys(es)
    ensures multiset(es)[e] <= 1
  {
    if es != [] {
      OccursOnce(es[1..], e);
      assert es == [es[0]] + es[1..];
      assert es[0] == e ==> e !in es[1..];
    }
  }

  lemma NormalEntriesSame(notAfter: Order, p: seq<Entry>, q: seq<Entry>)
    requires forall e :: e in p ==> e in q
    ensures forall e :: e in NormalEntries(notAfter, p) ==> e in NormalEntries(notAfter, q)
  {
    NormalKeys(notAfter, q);
    forall e | e in NormalEntries(notAfter, p) ensures e in NormalEntries(notAfter, q) {
      NormalEntryOrigin(notAfter, p, e);
      var d :| d in p && e == Entry(d.key, Normalize(notAfter, d.value));
      var i :| 0 <= i < |q| && q[i] == d;
      assert NormalEntries(notAfter, q)[i] == e;
    }
  }

  lemma ReorderedTextsAgree(notAfter: Order, es: seq<Entry>, p: seq<Entry>)
    requires Consistent(notAfter) && DistinctKeys(es) && NoTiedKeys(notAfter, es) && Reordering(p, es)
    ensures Canonicalize(notAfter, Obj(p)) == Canonicalize(notAfter, Obj(es))
  {
    ReorderingKeepsEntries(p, es);
    NormalEntriesSame(notAfter, es, p);
    NormalEntriesSame(notAfter, p, es);
    NormalKeys(notAfter, es);
    NormalKeys(notAfter, p);
    NormalNoTies(notAfter, es);
    SameEntriesSameLayout(notAfter, NormalEntries(notAfter, es), NormalEntries(notAfter, p));
    CanonicalIsPrintedNormalForm(notAfter, Obj(p));
    CanonicalIsPrintedNormalForm(notAfter, Obj(es));
  }

  lemma {:induction false} TiedInsertionsDiffer(notAfter: Order, d: Entry, e: Entry, s: seq<Entry>)
    requires Consistent(notAfter) && Tied(notAfter, d.key, e.key)
    ensures InsertEntry(notAfter, d, InsertEntry(notAfter, e, s)) != InsertEntry(notAfter, e, InsertEntry(notAfter, d, s))
  {
    if s == [] || notAfter(e.key, s[0].key) {
      assert s != [] ==> notAfter(d.key, s[0].key);
      assert InsertEntry(notAfter, d, [e] + s)[0] == d;
      assert InsertEntry(notAfter, e, [d] + s)[0] == e;
    } else {
      assert !notAfter(d.key, s[0].key);
      TiedInsertionsDiffer(notAfter, d, e, s[1..]);
      assert InsertEntry(notAfter, d, InsertEntry(notAfter, e, s))[1..]
          == InsertEntry(notAfter, d, InsertEntry(notAfter, e, s[1..]));
      assert InsertEntry(notAfter, e, InsertEntry(notAfter, d, s))[1..]
          == InsertEntry(notAfter, e, InsertEntry(notAfter, d, s[1..]));
    }
  }

  // Two orders of insertion that put the tied entries first, one way round and the other.
  lemma TieShows(notAfter: Order, d: Entry, e: Entry, others: seq<Entry>)
    requires Consistent(notAfter) && Tied(notAfter, d.key, e.key)
    ensures Canonicalize(notAfter, Obj([d, e] + others)) != Canonicalize(notAfter, Obj([e, d] + others))
  {
    var nd, ne := Entry(d.key, Normalize(notAfter, d.value)), Entry(e.key, Normalize(notAfter, e.value));
    LeadingPairSorted(notAfter, d, e, others);
    LeadingPairSorted(notAfter, e, d, others);
    TiedInsertionsDiffer(notAfter, nd, ne, SortEntries(notAfter, NormalEntries(notAfter, others)));
    DecodeUndoesCanonicalize(notAfter, Obj([d, e] + others));
    DecodeUndoesCanonicalize(notAfter, Obj([e, d] + others));
  }

  lemma PullForward(es: seq<Entry>, i: nat, j: nat) returns (others: seq<Entry>)
    requires i < j < |es|
    ensures multiset(es) == multiset{es[i], es[j]} + multiset(others)
  {
    var x, y, z := es[..i], es[i + 1..j], es[j + 1..];
    others := x + y + z;
    assert es == x + [es[i]] + y + [es[j]] + z;
    assert multiset(others) == multiset(x) + multiset(y) + multiset(z);
  }

  lemma LeadingPairSorted(notAfter: Order, d: Entry, e: Entry, others: seq<Entry>)
    ensures SortEntries(notAfter, NormalEntries(notAfter, [d, e] + others))
         == InsertEntry(notAfter, Entry(d.key, Normalize(notAfter, d.value)),
              InsertEntry(notAfter, Entry(e.key, Normalize(notAfter, e.value)),
                SortEntries(notAfter, NormalEntries(notAfter, others))))
  {
  }

  // Two keys that tie show the order they were written in.
  lemma {:induction false} TiedOrdersDiffer(notAfter: Order, es: seq<Entry>) returns (p: seq<Entry>, q: seq<Entry>)
    requires Consistent(notAfter) && DistinctKeys(es) && !NoTiedKeys(notAfter, es)
    ensures Reordering(p, es) && Reordering(q, es) && Canonicalize(notAfter, Obj(p)) != Canonicalize(notAfter, Obj(q))
  {
    var d, e :| d in es && e in es && Tied(notAfter, d.key, e.key);
    var others := BothInFront(es, d, e);
    p, q := [d, e] + others, [e, d] + others;
    TieShows(notAfter, d, e, others);
  }

  lemma BothInFront(es: seq<Entry>, d: Entry, e: Entry) returns (others: seq<Entry>)
    requires d in es && e in es && d != e
    ensures Reordering([d, e] + others, es) && Reordering([e, d] + others, es)
  {
    var i :| 0 <= i < |es| && es[i] == d;
    var j :| 0 <= j < |es| && es[j] == e;
    others := PullForward(es, if i < j then i else j, if i < j then j else i);
    assert multiset([d, e] + others) == multiset{d, e} + multiset(others) == multiset([e, d] + others);
  }

  /** Reordering the keys of an object leaves its text alone exactly when the comparison ties no two of
      them; a locale comparison that treats two different keys as equal makes insertion order show. */
  lemma KeyOrderShowsExactlyOnTies(notAfter: Order, es: seq<Entry>)
    requires Consistent(notAfter) && DistinctKeys(es)
    ensures (forall p, q :: Reordering(p, es) && Reordering(q, es) ==>
              Canonicalize(notAfter, Obj(p)) == Canonicalize(notAfter, Obj(q)))
      <==> NoTiedKeys(notAfter, es)
  {
    if NoTiedKeys(notAfter, es) {
      forall p, q | Reordering(p, es) && Reordering(q, es)
        ensures Canonicalize(notAfter, Obj(p)) == Canonicalize(notAfter, Obj(q))
      {
        ReorderedTextsAgree(notAfter, es, p);
        ReorderedTextsAgree(notAfter, es, q);
      }
    } else {
      var p, q := TiedOrdersDiffer(notAfter, es);
      assert Reordering(p, es) && Reordering(q, es);
    }
  }

  // ----- and in whole values

  lemma {:induction false} ItemReplaced(notAfter: Order, items: seq<Value>, i: nat, y: Value)
    requires i < |items| && Meaning(y) == Meaning(items[i])
    ensures MeaningItems(items[i := y]) == MeaningItems(items)
    ensures NormalItems(notAfter, items)[i] == Normalize(notAfter, items[i])
    ensures NormalItems(notAfter, items[i := y])[i] == Normalize(notAfter, y)
  {
    if i > 0 {
      assert items[i := y][1..] == items[1..][i - 1 := y];
      ItemReplaced(notAfter, items[1..], i - 1, y);
    } else {
      assert items[0 := y][1..] == items[1..];
    }
  }

  lemma {:induction false} ValueReplaced(es: seq<Entry>, i: nat, y: Value)
    requires i < |es| && Meaning(y) == Meaning(es[i].value)
    ensures MeaningEntries(es[i := Entry(es[i].key, y)]) == MeaningEntries(es)
  {
    var e := Entry(es[i].key, y);
    if i > 0 {
      assert es[i := e][1..] == es[1..][i - 1 := e];
      ValueReplaced(es[1..], i - 1, y);
    } else {
      assert es[0 := e][1..] == es[1..];
    }
  }

  lemma FieldsCarry(p: seq<Entry>, q: seq<Entry>, k: Text)
    requires DistinctKeys(p) && DistinctKeys(q) && (forall e :: e in p ==> e in q) && k in MeaningEntries(p)
    ensures k in MeaningEntries(q) && MeaningEntries(q)[k] == MeaningEntries(p)[k]
  {
    FieldOrigin(p, k);
    var e :| e in p && e.key == k;
    FieldMeaning(p, e);
    FieldMeaning(q, e);
  }

  lemma ReorderingKeepsMeaning(p: seq<Entry>, es: seq<Entry>)
    requires Reordering(p, es) && DistinctKeys(es)
    ensures MeaningEntries(p) == MeaningEntries(es)
  {
    ReorderingKeepsEntries(p, es);
    forall k ensures k in MeaningEntries(p) <==> k in MeaningEntries(es) {
      if k in MeaningEntries(p) {
        FieldsCarry(p, es, k);
      }
      if k in MeaningEntries(es) {
        FieldsCarry(es, p, k);
      }
    }
    forall k | k in MeaningEntries(p) ensures MeaningEntries(p)[k] == MeaningEntries(es)[k] {
      FieldsCarry(p, es, k);
    }
  }

  /** Another value that means the same and prints differently. */
  ghost predicate Variant(notAfter: Order, a: Value, b: Value) {
    WellFormed(b) && Meaning(b) == Meaning(a) && Canonicalize(notAfter, b) != Canonicalize(notAfter, a)
  }

  lemma TextsDiffer(notAfter: Order, a: Value, b: Value)
    ensures Canonicalize(notAfter, a) == Canonicalize(notAfter, b) <==> Normalize(notAfter, a) == Normalize(notAfter, b)
  {
    CanonicalIsPrintedNormalForm(notAfter, a);
    CanonicalIsPrintedNormalForm(notAfter, b);
    DecodeUndoesCanonicalize(notAfter, a);
    DecodeUndoesCanonicalize(notAfter, b);
  }

  lemma VariantItem(notAfter: Order, items: seq<Value>, i: nat, y: Value)
    requires WellFormed(Arr(items)) && i < |items| && Variant(notAfter, items[i], y)
    ensures Variant(notAfter, Arr(items), Arr(items[i := y]))
  {
    ItemReplaced(notAfter, items, i, y);
    TextsDiffer(notAfter, items[i], y);
    TextsDiffer(notAfter, Arr(items), Arr(items[i := y]));
  }

  lemma ReplacedWellFormed(es: seq<Entry>, i: nat, y: Value)
    requires WellFormed(Obj(es)) && i < |es| && WellFormed(y)
    ensures WellFormed(Obj(es[i := Entry(es[i].key, y)]))
  {
    var es' := es[i := Entry(es[i].key, y)];
    forall j, k | 0 <= j < k < |es'| ensures es'[j].key != es'[k].key {
      assert es'[j].key == es[j].key && es'[k].key == es[k].key;
    }
    forall e | e in es' ensures WellFormed(e.value) {
      assert e.value == y || e in es;
    }
  }

  lemma NormalFieldOf(notAfter: Order, es: seq<Entry>, i: nat, n: Value)
    requires DistinctKeys(es) && i < |es| && Entry(es[i].key, n) in NormalEntries(notAfter, es)
    ensures n == Normalize(notAfter, es[i].value)
  {
    NormalEntryOrigin(notAfter, es, Entry(es[i].key, n));
    var d :| d in es && Entry(es[i].key, n) == Entry(d.key, Normalize(notAfter, d.value));
    var j :| 0 <= j < |es| && es[j] == d;
    assert j == i;
  }

  lemma NormalFieldAt(notAfter: Order, es: seq<Entry>, i: nat)
    requires i < |es|
    ensures Entry(es[i].key, Normalize(notAfter, es[i].value)) in NormalEntries(notAfter, es)
  {
    NormalKeys(notAfter, es);
    assert NormalEntries(notAfter, es)[i] == Entry(es[i].key, Normalize(notAfter, es[i].value));
  }

  lemma FieldShows(notAfter: Order, es: seq<Entry>, es': seq<Entry>, i: nat)
    requires DistinctKeys(es) && i < |es| == |es'| && es'[i].key == es[i].key
    requires Normalize(notAfter, es'[i].value) != Normalize(notAfter, es[i].value)
    ensures Normalize(notAfter, Obj(es)) != Normalize(notAfter, Obj(es'))
  {
    var n := Normalize(notAfter, es'[i].value);
    NormalFieldAt(notAfter, es', i);
    assert Entry(es[i].key, n) in SortEntries(notAfter, NormalEntries(notAfter, es'));
    if Entry(es[i].key, n) in NormalEntries(notAfter, es) {
      NormalFieldOf(notAfter, es, i, n);
    }
    assert Entry(es[i].key, n) !in SortEntries(notAfter, NormalEntries(notAfter, es));
  }

  lemma VariantField(notAfter: Order, es: seq<Entry>, i: nat, y: Value)
    requires WellFormed(Obj(es)) && i < |es| && Variant(notAfter, es[i].value, y)
    ensures Variant(notAfter, Obj(es), Obj(es[i := Entry(es[i].key, y)]))
  {
    ReplacedWellFormed(es, i, y);
    ValueReplaced(es, i, y);
    TextsDiffer(notAfter, es[i].value, y);
    FieldShows(notAfter, es, es[i := Entry(es[i].key, y)], i);
    TextsDiffer(notAfter, Obj(es), Obj(es[i := Entry(es[i].key, y)]));
  }

  lemma VariantOrder(notAfter: Order, es: seq<Entry>) returns (b: Value)
    requires Consistent(notAfter) && WellFormed(Obj(es)) && !NoTiedKeys(notAfter, es)
    ensures Variant(notAfter, Obj(es), b)
  {
    var p, q := TiedOrdersDiffer(notAfter, es);
    ReorderingKeepsMeaning(p, es);
    ReorderingKeepsMeaning(q, es);
    ReorderingKeepsEntries(p, es);
    ReorderingKeepsEntries(q, es);
    b := if Canonicalize(notAfter, Obj(p)) != Canonicalize(notAfter, Obj(es)) then Obj(p) else Obj(q);
  }

  // A tie at any depth shows.
  lemma {:induction false} TieHasVariant(notAfter: Order, a: Value) returns (b: Value)
    requires Consistent(notAfter) && WellFormed(a) && !NoTies(notAfter, a)
    ensures Variant(notAfter, a, b)
    decreases a
  {
    match a
    case Arr(items) =>
      var i :| 0 <= i < |items| && !NoTies(notAfter, items[i]);
      var y := TieHasVariant(notAfter, items[i]);
      VariantItem(notAfter, items, i, y);
      b := Arr(items[i := y]);
    case Obj(es) =>
      if NoTiedKeys(notAfter, es) {
        var i :| 0 <= i < |es| && !NoTies(notAfter, es[i].value);
        var y := TieHasVariant(notAfter, es[i].value);
        VariantField(notAfter, es, i, y);
        b := Obj(es[i := Entry(es[i].key, y)]);
      } else {
        b := VariantOrder(notAfter, es);
      }
  }

  /** All values that mean what this one means share its text exactly if the comparison ties no two keys of an
      object anywhere in it. */
  lemma OneTextPerMeaningExactly(notAfter: Order, a: Value)
    requires Consistent(notAfter) && WellFormed(a)
    ensures (forall b :: WellFormed(b) && Meaning(b) == Meaning(a) ==> Canonicalize(notAfter, b) == Canonicalize(notAfter, a))
      <==> NoTies(notAfter, a)
  {
    if NoTies(notAfter, a) {
      forall b | WellFormed(b) && Meaning(b) == Meaning(a) ensures Canonicalize(notAfter, b) == Canonicalize(notAfter, a) {
        CanonicalTextNamesTheValue(notAfter, a, b);
      }
    } else {
      var b := TieHasVariant(notAfter, a);
      assert WellFormed(b) && Meaning(b) == Meaning(a) && Canonicalize(notAfter, b) != Canonicalize(notAfter, a);
    }
  }
}
