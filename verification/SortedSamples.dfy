/** Sorted samples behind the anomaly detector, over exact reals: insertion sort, how many samples lie in a
    range, and how sorting goes with mirroring the scale and with monotone maps. */
module SortedSamples {

  function Abs(x: real): (r: real)
    ensures r >= 0.0 && (r == x || r == -x)
  {
    if x < 0.0 then -x else x
  }

  ghost predicate Sorted(s: seq<real>) {
    forall i, j :: 0 <= i < j < |s| ==> s[i] <= s[j]
  }

  function Insert(x: real, s: seq<real>): (r: seq<real>)
    ensures |r| == |s| + 1
  {
    if s == [] || x <= s[0] then [x] + s else [s[0]] + Insert(x, s[1..])
  }

  /** The values in ascending order. */
  function Sort(values: seq<real>): (r: seq<real>)
    ensures |r| == |values|
  {
    if values == [] then [] else Insert(values[0], Sort(values[1..]))
  }

  lemma {:induction false} InsertKeepsOrder(x: real, s: seq<real>)
    requires Sorted(s)
    ensures Sorted(Insert(x, s))
    ensures forall i :: 0 <= i <= |s| ==> Insert(x, s)[i] == x || (|s| > 0 && Insert(x, s)[i] >= s[0])
  {
    if !(s == [] || x <= s[0]) {
      InsertKeepsOrder(x, s[1..]);
      var rest := Insert(x, s[1..]);
      assert forall i :: 0 <= i < |rest| ==> s[0] <= rest[i];
    }
  }

  lemma {:induction false} InsertPermutes(x: real, s: seq<real>)
    ensures multiset(Insert(x, s)) == multiset(s) + multiset{x}
  {
    if !(s == [] || x <= s[0]) {
      InsertPermutes(x, s[1..]);
      assert s == [s[0]] + s[1..];
    }
  }

  lemma {:induction false} SortSorts(values: seq<real>)
    ensures Sorted(Sort(values)) && multiset(Sort(values)) == multiset(values)
  {
    if values != [] {
      SortSorts(values[1..]);
      InsertKeepsOrder(values[0], Sort(values[1..]));
      InsertPermutes(values[0], Sort(values[1..]));
      assert values == [values[0]] + values[1..];
    }
  }

  // ----- how many samples lie in a range

  function CountIn(values: seq<real>, lo: real, hi: real): (n: nat)
    ensures n <= |values|
  {
    if values == [] then 0
    else (if lo <= values[0] <= hi then 1 else 0) + CountIn(values[1..], lo, hi)
  }

  lemma {:induction false} CountInConcat(a: seq<real>, b: seq<real>, lo: real, hi: real)
    ensures CountIn(a + b, lo, hi) == CountIn(a, lo, hi) + CountIn(b, lo, hi)
  {
    if a == [] {
      assert a + b == b;
    } else {
      assert (a + b)[1..] == a[1..] + b;
      CountInConcat(a[1..], b, lo, hi);
    }
  }

  lemma {:induction false} CountInNone(s: seq<real>, lo: real, hi: real)
    requires forall i :: 0 <= i < |s| ==> !(lo <= s[i] <= hi)
    ensures CountIn(s, lo, hi) == 0
  {
    if s != [] {
      CountInNone(s[1..], lo, hi);
    }
  }

  lemma {:induction false} CountInInsert(x: real, s: seq<real>, lo: real, hi: real)
    ensures CountIn(Insert(x, s), lo, hi) == (if lo <= x <= hi then 1 else 0) + CountIn(s, lo, hi)
  {
    if s == [] || x <= s[0] {
      assert Insert(x, s)[1..] == s;
    } else {
      assert Insert(x, s)[1..] == Insert(x, s[1..]);
      CountInInsert(x, s[1..], lo, hi);
    }
  }

  lemma {:induction false} CountInSort(values: seq<real>, lo: real, hi: real)
    ensures CountIn(Sort(values), lo, hi) == CountIn(values, lo, hi)
  {
    if values != [] {
      CountInInsert(values[0], Sort(values[1..]), lo, hi);
      CountInSort(values[1..], lo, hi);
    }
  }

  /** A block of out-of-range values bounds the number that lie in range. */
  lemma OutsideBlock(s: seq<real>, from: nat, to: nat, lo: real, hi: real)
    requires from <= to <= |s|
    requires forall i :: from <= i < to ==> !(lo <= s[i] <= hi)
    ensures CountIn(s, lo, hi) <= |s| - (to - from)
  {
    assert s == s[..from] + (s[from..to] + s[to..]);
    CountInConcat(s[..from], s[from..to] + s[to..], lo, hi);
    CountInConcat(s[from..to], s[to..], lo, hi);
    CountInNone(s[from..to], lo, hi);
  }

  /** And a block of values in range bounds it from below. */
  lemma InsideBlock(s: seq<real>, from: nat, to: nat, lo: real, hi: real)
    requires from <= to <= |s|
    requires forall i :: from <= i < to ==> lo <= s[i] <= hi
    ensures CountIn(s, lo, hi) >= to - from
  {
    assert s == s[..from] + (s[from..to] + s[to..]);
    CountInConcat(s[..from], s[from..to] + s[to..], lo, hi);
    CountInConcat(s[from..to], s[to..], lo, hi);
    CountInAll(s[from..to], lo, hi);
  }

  lemma {:induction false} CountInAll(s: seq<real>, lo: real, hi: real)
    requires forall i :: 0 <= i < |s| ==> lo <= s[i] <= hi
    ensures CountIn(s, lo, hi) == |s|
  {
    if s != [] {
      CountInAll(s[1..], lo, hi);
    }
  }

  // ----- sorting and mirroring

  function Mirrored(s: seq<real>): (r: seq<real>)
    ensures |r| == |s| && forall i :: 0 <= i < |r| ==> r[i] == -s[i]
  {
    seq(|s|, i requires 0 <= i < |s| => -s[i])
  }

  function MirroredBackwards(s: seq<real>): (r: seq<real>)
    ensures |r| == |s| && forall i :: 0 <= i < |r| ==> r[i] == -s[|s| - 1 - i]
  {
    if s == [] then [] else [-s[|s| - 1]] + MirroredBackwards(s[..|s| - 1])
  }

  lemma {:induction false} MirroredOccurrences(s: seq<real>, x: real)
    ensures multiset(Mirrored(s))[x] == multiset(s)[-x]
  {
    if s != [] {
      var n := |s| - 1;
      MirroredOccurrences(s[..n], x);
      assert s == s[..n] + [s[n]];
      assert Mirrored(s) == Mirrored(s[..n]) + [-s[n]];
    }
  }

  lemma {:induction false} BackwardsOccurrences(s: seq<real>, x: real)
    ensures multiset(MirroredBackwards(s))[x] == multiset(s)[-x]
  {
    if s != [] {
      var n := |s| - 1;
      BackwardsOccurrences(s[..n], x);
      LastOccurrence(s, -x);
    }
  }

  lemma LastOccurrence(s: seq<real>, x: real)
    requires s != []
    ensures multiset(s)[x] == multiset(s[..|s| - 1])[x] + (if s[|s| - 1] == x then 1 else 0)
  {
    assert s == s[..|s| - 1] + [s[|s| - 1]];
  }

  lemma TailMultiset(s: seq<real>)
    requires s != []
    ensures multiset(s[1..]) == multiset(s) - multiset{s[0]}
  {
    assert s == [s[0]] + s[1..];
  }

  lemma LeastFirst(a: seq<real>, b: seq<real>)
    requires Sorted(a) && a != [] && b != [] && multiset(a) == multiset(b)
    ensures a[0] <= b[0]
  {
    assert b[0] in multiset(b);
    assert b[0] in a;
  }

  lemma {:induction false} SortedUnique(a: seq<real>, b: seq<real>)
    requires Sorted(a) && Sorted(b) && multiset(a) == multiset(b)
    ensures a == b
  {
    if a == [] || b == [] {
      assert |multiset(a)| == |multiset(b)|;
    } else {
      LeastFirst(a, b);
      LeastFirst(b, a);
      TailMultiset(a);
      TailMultiset(b);
      SortedUnique(a[1..], b[1..]);
      assert a == [a[0]] + a[1..] && b == [b[0]] + b[1..];
    }
  }

  lemma SortMirrors(values: seq<real>)
    ensures Sort(Mirrored(values)) == MirroredBackwards(Sort(values))
  {
    SortSorts(values);
    SortSorts(Mirrored(values));
    var backwards := MirroredBackwards(Sort(values));
    forall x: real ensures multiset(backwards)[x] == multiset(Mirrored(values))[x] {
      BackwardsOccurrences(Sort(values), x);
      MirroredOccurrences(values, x);
    }
    assert multiset(backwards) == multiset(Sort(Mirrored(values)));
    SortedUnique(Sort(Mirrored(values)), backwards);
  }

  // ----- sorting and monotone maps

  function Mapped(s: seq<real>, f: real -> real): (r: seq<real>)
    ensures |r| == |s| && forall i :: 0 <= i < |r| ==> r[i] == f(s[i])
  {
    seq(|s|, i requires 0 <= i < |s| => f(s[i]))
  }

  ghost predicate OrderAt(f: real -> real, x: real, y: real) {
    x <= y <==> f(x) <= f(y)
  }

  ghost predicate Increasing(f: real -> real) {
    forall x, y :: OrderAt(f, x, y)
  }

  lemma MappedCons(x: real, s: seq<real>, f: real -> real)
    ensures Mapped([x] + s, f) == [f(x)] + Mapped(s, f)
  {
  }

  lemma {:induction false} InsertMaps(x: real, s: seq<real>, f: real -> real)
    requires Increasing(f)
    ensures Insert(f(x), Mapped(s, f)) == Mapped(Insert(x, s), f)
  {
    assert s != [] ==> OrderAt(f, x, s[0]);
    if s == [] || x <= s[0] {
      MappedCons(x, s, f);
    } else {
      assert s == [s[0]] + s[1..];
      MappedCons(s[0], s[1..], f);
      InsertMaps(x, s[1..], f);
      MappedCons(s[0], Insert(x, s[1..]), f);
    }
  }

  lemma {:induction false} SortMaps(values: seq<real>, f: real -> real)
    requires Increasing(f)
    ensures Sort(Mapped(values, f)) == Mapped(Sort(values), f)
  {
    if values != [] {
      assert values == [values[0]] + values[1..];
      MappedCons(values[0], values[1..], f);
      SortMaps(values[1..], f);
      InsertMaps(values[0], Sort(values[1..]), f);
    }
  }
}
