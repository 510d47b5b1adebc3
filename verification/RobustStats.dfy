/** Median, MAD, robust score and smoothing, over exact reals. */
module RobustStats {
  import opened SortedSamples

  function MedianOfSorted(s: seq<real>): real
    requires |s| > 0
  {
    var mid := |s| / 2;
    if |s| % 2 == 0 then (s[mid - 1] + s[mid]) / 2.0 else s[mid]
  }

  function Median(values: seq<real>): real {
    if values == [] then 0.0 else MedianOfSorted(Sort(values))
  }

  function Deviations(values: seq<real>, centre: real): (r: seq<real>)
    ensures |r| == |values| && forall i :: 0 <= i < |r| ==> r[i] == Abs(values[i] - centre)
  {
    seq(|values|, i requires 0 <= i < |values| => Abs(values[i] - centre))
  }

  function Mad(values: seq<real>): real {
    if values == [] then 0.0 else Median(Deviations(values, Median(values)))
  }

  /** Distance of `current` from the history's median in robust standard deviations. */
  function RobustZScore(current: real, history: seq<real>): real {
    if history == [] then 0.0
    else
      var sigma := 1.4826 * Mad(history);
      if sigma < 0.000000001 then 0.0 else (current - Median(history)) / sigma
  }

  // ----- the median minimises total absolute deviation

  function SumDev(values: seq<real>, centre: real): real {
    if values == [] then 0.0 else Abs(values[0] - centre) + SumDev(values[1..], centre)
  }

  lemma {:induction false} SumDevConcat(a: seq<real>, b: seq<real>, c: real)
    ensures SumDev(a + b, c) == SumDev(a, c) + SumDev(b, c)
  {
    if a == [] {
      assert a + b == b;
    } else {
      assert (a + b)[1..] == a[1..] + b;
      SumDevConcat(a[1..], b, c);
    }
  }

  lemma {:induction false} SumDevInsert(x: real, s: seq<real>, c: real)
    ensures SumDev(Insert(x, s), c) == Abs(x - c) + SumDev(s, c)
  {
    if s == [] || x <= s[0] {
      assert Insert(x, s)[1..] == s;
    } else {
      assert Insert(x, s)[1..] == Insert(x, s[1..]);
      SumDevInsert(x, s[1..], c);
    }
  }

  lemma {:induction false} SumDevSort(values: seq<real>, c: real)
    ensures SumDev(Sort(values), c) == SumDev(values, c)
  {
    if values != [] {
      SumDevInsert(values[0], Sort(values[1..]), c);
      SumDevSort(values[1..], c);
    }
  }

  lemma PeelEnds(s: seq<real>, c: real)
    requires |s| >= 2
    ensures SumDev(s, c) == Abs(s[0] - c) + SumDev(s[1..|s| - 1], c) + Abs(s[|s| - 1] - c)
  {
    var inner := s[1..|s| - 1];
    assert s[1..] == inner + [s[|s| - 1]];
    SumDevConcat(inner, [s[|s| - 1]], c);
  }

  // Peeling the two extremes keeps the median, and no centre makes their two deviations sum to less
  // than their distance.
  lemma {:induction false} SortedMedianMinimises(s: seq<real>, c: real)
    requires Sorted(s) && |s| > 0
    ensures SumDev(s, MedianOfSorted(s)) <= SumDev(s, c)
  {
    if |s| == 1 {
      assert s[1..] == [];
    } else {
      if |s| > 2 {
        SortedMedianMinimises(s[1..|s| - 1], c);
      }
      PeelEnds(s, c);
      PeelEnds(s, MedianOfSorted(s));
    }
  }

  lemma MedianMinimises(values: seq<real>, c: real)
    ensures SumDev(values, Median(values)) <= SumDev(values, c)
  {
    if values != [] {
      SortSorts(values);
      SortedMedianMinimises(Sort(values), c);
      SumDevSort(values, c);
      SumDevSort(values, Median(values));
    }
  }

  // ----- breakdown point: a majority confines median and MAD

  lemma MedianInMajorityRange(values: seq<real>, lo: real, hi: real)
    requires 2 * CountIn(values, lo, hi) > |values|
    ensures lo <= Median(values) <= hi
  {
    var s := Sort(values);
    SortSorts(values);
    CountInSort(values, lo, hi);
    var mid := |s| / 2;
    if MedianOfSorted(s) < lo {
      var to := if |s| % 2 == 0 then mid else mid + 1;
      assert s[to - 1] < lo;
      OutsideBlock(s, 0, to, lo, hi);
    }
    if MedianOfSorted(s) > hi {
      assert s[mid] > hi;
      OutsideBlock(s, mid, |s|, lo, hi);
    }
  }

  lemma {:induction false} DeviationsOfMajority(values: seq<real>, lo: real, hi: real, m: real)
    requires lo <= m <= hi
    ensures CountIn(Deviations(values, m), 0.0, hi - lo) >= CountIn(values, lo, hi)
  {
    if values != [] {
      assert Deviations(values, m)[1..] == Deviations(values[1..], m);
      DeviationsOfMajority(values[1..], lo, hi, m);
    }
  }

  /** When more than half the samples lie in [lo, hi], the others can move neither the median out
      of it nor the MAD past its width. */
  lemma MajorityConfinesMedianAndMad(values: seq<real>, lo: real, hi: real)
    requires 2 * CountIn(values, lo, hi) > |values|
    ensures lo <= Median(values) <= hi
    ensures 0.0 <= Mad(values) <= hi - lo
  {
    MedianInMajorityRange(values, lo, hi);
    DeviationsOfMajority(values, lo, hi, Median(values));
    MedianInMajorityRange(Deviations(values, Median(values)), 0.0, hi - lo);
  }

  /** A history that is constant on a majority of its samples silences the score: however far
      `current` lies from it, the score is zero. */
  lemma FlatMajoritySilencesScore(current: real, history: seq<real>, level: real)
    requires 2 * CountIn(history, level, level) > |history|
    ensures Median(history) == level && RobustZScore(current, history) == 0.0
  {
    MajorityConfinesMedianAndMad(history, level, level);
  }

  // ----- the MAD is the half-width of the middle half

  lemma LowerHalf(s: seq<real>)
    requires Sorted(s) && s != [] && 0.0 <= s[0]
    ensures 2 * CountIn(s, 0.0, MedianOfSorted(s)) >= |s|
  {
    var mid := |s| / 2;
    var to := if |s| % 2 == 0 then mid else mid + 1;
    InsideBlock(s, 0, to, 0.0, MedianOfSorted(s));
  }

  lemma UpperHalf(s: seq<real>, r: real)
    requires Sorted(s) && s != [] && r < MedianOfSorted(s)
    ensures 2 * CountIn(s, 0.0, r) <= |s|
  {
    var mid := |s| / 2;
    OutsideBlock(s, mid, |s|, 0.0, r);
  }

  lemma SortedFromZero(values: seq<real>)
    requires values != [] && forall x :: x in values ==> 0.0 <= x
    ensures 0.0 <= Sort(values)[0]
  {
    SortSorts(values);
    var s := Sort(values);
    assert s[0] in multiset(s);
    assert s[0] in multiset(values);
    assert s[0] in values;
  }

  // At least half of some non-negative values are no larger than their median, and at most half stay below it.
  lemma HalfWithinMedian(values: seq<real>, r: real)
    requires values != [] && forall x :: x in values ==> 0.0 <= x
    ensures 2 * CountIn(values, 0.0, Median(values)) >= |values|
    ensures r < Median(values) ==> 2 * CountIn(values, 0.0, r) <= |values|
  {
    SortSorts(values);
    SortedFromZero(values);
    CountInSort(values, 0.0, Median(values));
    CountInSort(values, 0.0, r);
    LowerHalf(Sort(values));
    if r < Median(values) {
      UpperHalf(Sort(values), r);
    }
  }

  lemma {:induction false} CountsOfDeviations(values: seq<real>, m: real, r: real)
    ensures CountIn(Deviations(values, m), 0.0, r) == CountIn(values, m - r, m + r)
  {
    if values != [] {
      assert Deviations(values, m)[1..] == Deviations(values[1..], m);
      CountsOfDeviations(values[1..], m, r);
    }
  }

  /** At least half of the samples lie within the MAD of the median, and at most half within any less of it. */
  lemma MadSpansHalf(values: seq<real>, r: real)
    requires values != []
    ensures 2 * CountIn(values, Median(values) - Mad(values), Median(values) + Mad(values)) >= |values|
    ensures r < Mad(values) ==> 2 * CountIn(values, Median(values) - r, Median(values) + r) <= |values|
  {
    HalfWithinMedian(Deviations(values, Median(values)), r);
    CountsOfDeviations(values, Median(values), Mad(values));
    CountsOfDeviations(values, Median(values), r);
  }

  // ----- the score does not depend on the unit or the direction of the scale

  /** Turning the scale around turns the median around, middle pairs included. */
  lemma MedianMirrors(values: seq<real>)
    ensures Median(Mirrored(values)) == -Median(values)
  {
    SortMirrors(values);
  }

  /** And it leaves the spread alone, so the score changes its sign and nothing else. */
  lemma ScoreMirrors(current: real, history: seq<real>)
    ensures Mad(Mirrored(history)) == Mad(history)
    ensures RobustZScore(-current, Mirrored(history)) == -RobustZScore(current, history)
  {
    MedianMirrors(history);
    assert Deviations(Mirrored(history), -Median(history)) == Deviations(history, Median(history));
    if history != [] {
      QuotientMirrors(current - Median(history), 1.4826 * Mad(history));
    }
  }

  lemma QuotientMirrors(x: real, sigma: real)
    ensures sigma != 0.0 ==> (-x) / sigma == -(x / sigma)
  {
  }

  function Rescale(k: real, b: real): real -> real {
    (x: real) => k * x + b
  }

  lemma ScaleKeepsOrder(k: real, x: real, y: real)
    requires k > 0.0
    ensures x <= y <==> k * x <= k * y
  {
    assert k * (y - x) == k * y - k * x;
  }

  lemma RescaleIncreases(k: real, b: real)
    requires k > 0.0
    ensures Increasing(Rescale(k, b))
  {
    forall x: real, y: real ensures OrderAt(Rescale(k, b), x, y) {
      RescaleKeepsOrder(k, b, x, y);
    }
  }

  lemma RescaleKeepsOrder(k: real, b: real, x: real, y: real)
    requires k > 0.0
    ensures OrderAt(Rescale(k, b), x, y)
  {
    ScaleKeepsOrder(k, x, y);
    assert k * x <= k * y <==> k * x + b <= k * y + b;
    assert Rescale(k, b)(x) == k * x + b && Rescale(k, b)(y) == k * y + b;
  }

  lemma MidpointRescales(k: real, b: real, x: real, y: real)
    ensures ((k * x + b) + (k * y + b)) / 2.0 == k * ((x + y) / 2.0) + b
  {
  }

  ghost predicate HalvesAt(f: real -> real, x: real, y: real) {
    (f(x) + f(y)) / 2.0 == f((x + y) / 2.0)
  }

  // Order and midpoints carry over.
  ghost predicate Linear(f: real -> real) {
    Increasing(f) && forall x, y :: HalvesAt(f, x, y)
  }

  lemma RescaleIsLinear(k: real, b: real)
    requires k > 0.0
    ensures Linear(Rescale(k, b))
  {
    RescaleIncreases(k, b);
    forall x: real, y: real ensures HalvesAt(Rescale(k, b), x, y) {
      MidpointRescales(k, b, x, y);
    }
  }

  lemma MedianMaps(values: seq<real>, f: real -> real)
    requires Linear(f) && values != []
    ensures Median(Mapped(values, f)) == f(Median(values))
  {
    SortMaps(values, f);
    var s := Sort(values);
    assert |s| % 2 == 0 ==> HalvesAt(f, s[|s| / 2 - 1], s[|s| / 2]);
  }

  ghost predicate SpreadsAt(f: real -> real, g: real -> real, x: real, m: real) {
    Abs(f(x) - f(m)) == g(Abs(x - m))
  }

  lemma DeviationsMap(values: seq<real>, f: real -> real, g: real -> real, m: real)
    requires forall x :: SpreadsAt(f, g, x, m)
    ensures Deviations(Mapped(values, f), f(m)) == Mapped(Deviations(values, m), g)
  {
    forall i | 0 <= i < |values| ensures Deviations(Mapped(values, f), f(m))[i] == Mapped(Deviations(values, m), g)[i] {
      assert SpreadsAt(f, g, values[i], m);
    }
  }

  lemma MadMaps(values: seq<real>, f: real -> real, g: real -> real)
    requires Linear(f) && Linear(g) && values != []
    requires forall x :: SpreadsAt(f, g, x, Median(values))
    ensures Mad(Mapped(values, f)) == g(Mad(values))
  {
    MedianMaps(values, f);
    DeviationsMap(values, f, g, Median(values));
    MedianMaps(Deviations(values, Median(values)), g);
  }

  lemma AbsScales(k: real, x: real)
    requires k > 0.0
    ensures Abs(k * x) == k * Abs(x)
  {
    ScaleKeepsOrder(k, x, 0.0);
    ScaleKeepsOrder(k, 0.0, x);
  }

  lemma DeviationRescales(k: real, b: real, x: real, m: real)
    requires k > 0.0
    ensures Abs(k * x + b - (k * m + b)) == k * Abs(x - m)
  {
    assert k * x + b - (k * m + b) == k * (x - m);
    AbsScales(k, x - m);
  }

  lemma SpreadRescales(k: real, b: real, x: real, m: real)
    requires k > 0.0
    ensures SpreadsAt(Rescale(k, b), Rescale(k, 0.0), x, m)
  {
    DeviationRescales(k, b, x, m);
  }

  lemma MedianAndMadMap(values: seq<real>, f: real -> real, g: real -> real)
    requires Linear(f) && Linear(g) && values != []
    requires forall x :: SpreadsAt(f, g, x, Median(values))
    ensures Median(Mapped(values, f)) == f(Median(values)) && Mad(Mapped(values, f)) == g(Mad(values))
  {
    MedianMaps(values, f);
    MadMaps(values, f, g);
  }

  lemma RescaleSpreads(k: real, b: real, m: real)
    requires k > 0.0
    ensures forall x :: SpreadsAt(Rescale(k, b), Rescale(k, 0.0), x, m)
  {
    forall x: real ensures SpreadsAt(Rescale(k, b), Rescale(k, 0.0), x, m) {
      SpreadRescales(k, b, x, m);
    }
  }

  /** In another unit, k times as fine, from another zero, the median moves along and the spread is rescaled. */
  lemma MedianAndMadRescale(values: seq<real>, k: real, b: real)
    requires k > 0.0 && values != []
    ensures Median(Mapped(values, Rescale(k, b))) == Rescale(k, b)(Median(values))
    ensures Mad(Mapped(values, Rescale(k, b))) == Rescale(k, 0.0)(Mad(values))
  {
    RescaleIsLinear(k, b);
    RescaleIsLinear(k, 0.0);
    RescaleSpreads(k, b, Median(values));
    MedianAndMadMap(values, Rescale(k, b), Rescale(k, 0.0));
  }

  lemma QuotientRescales(k: real, x: real, sigma: real)
    requires k > 0.0 && sigma > 0.0
    ensures k * sigma > 0.0 && (k * x) / (k * sigma) == x / sigma
  {
    ScaleKeepsOrder(k, sigma, 0.0);
    var q := x / sigma;
    assert k * x == q * (k * sigma);
  }

  lemma ScoreIsQuotient(current: real, history: seq<real>)
    requires 1.4826 * Mad(history) >= 0.000000001
    ensures history != [] && RobustZScore(current, history) == (current - Median(history)) / (1.4826 * Mad(history))
  {
  }

  ghost predicate SameRatio(x: real, sigma: real, x': real, sigma': real) {
    sigma > 0.0 && sigma' > 0.0 && x / sigma == x' / sigma'
  }

  ghost predicate RatioAt(g: real -> real, x: real, sigma: real) {
    sigma > 0.0 ==> SameRatio(x, sigma, g(x), g(sigma))
  }

  ghost predicate OffsetAt(f: real -> real, g: real -> real, x: real, m: real) {
    f(x) - f(m) == g(x - m)
  }

  ghost predicate FactorAt(g: real -> real, x: real) {
    1.4826 * g(x) == g(1.4826 * x)
  }

  lemma RescaleKeepsRatio(k: real, x: real, sigma: real)
    requires k > 0.0
    ensures RatioAt(Rescale(k, 0.0), x, sigma)
  {
    if sigma > 0.0 {
      QuotientRescales(k, x, sigma);
    }
  }

  lemma RescaleKeepsOffset(k: real, b: real, x: real, m: real)
    ensures OffsetAt(Rescale(k, b), Rescale(k, 0.0), x, m)
  {
    assert k * x + b - (k * m + b) == k * (x - m);
  }

  lemma RescaleKeepsFactor(k: real, x: real)
    ensures FactorAt(Rescale(k, 0.0), x)
  {
    assert 1.4826 * (k * x) == k * (1.4826 * x);
  }

  lemma SameRatioSameScore(current: real, history: seq<real>, current': real, history': seq<real>)
    requires 1.4826 * Mad(history) >= 0.000000001 && 1.4826 * Mad(history') >= 0.000000001
    requires SameRatio(current - Median(history), 1.4826 * Mad(history), current' - Median(history'), 1.4826 * Mad(history'))
    ensures RobustZScore(current', history') == RobustZScore(current, history)
  {
    ScoreIsQuotient(current, history);
    ScoreIsQuotient(current', history');
  }

  lemma ScoreMaps(current: real, history: seq<real>, f: real -> real, g: real -> real)
    requires 1.4826 * Mad(history) >= 0.000000001 && 1.4826 * Mad(Mapped(history, f)) >= 0.000000001
    requires Median(Mapped(history, f)) == f(Median(history)) && Mad(Mapped(history, f)) == g(Mad(history))
    requires OffsetAt(f, g, current, Median(history)) && FactorAt(g, Mad(history))
    requires RatioAt(g, current - Median(history), 1.4826 * Mad(history))
    ensures RobustZScore(f(current), Mapped(history, f)) == RobustZScore(current, history)
  {
    SameRatioSameScore(current, history, f(current), Mapped(history, f));
  }

  /** Measuring in another unit, from another zero, leaves the score as it is, as long as the spread is not
      cut off as nothing in either unit. */
  lemma ScoreHasNoUnit(current: real, history: seq<real>, k: real, b: real)
    requires k > 0.0 && 1.4826 * Mad(history) >= 0.000000001
    requires 1.4826 * Mad(Mapped(history, Rescale(k, b))) >= 0.000000001
    ensures RobustZScore(Rescale(k, b)(current), Mapped(history, Rescale(k, b))) == RobustZScore(current, history)
  {
    ScoreIsQuotient(current, history);
    MedianAndMadRescale(history, k, b);
    RescaleKeepsOffset(k, b, current, Median(history));
    RescaleKeepsFactor(k, Mad(history));
    RescaleKeepsRatio(k, current - Median(history), 1.4826 * Mad(history));
    ScoreMaps(current, history, Rescale(k, b), Rescale(k, 0.0));
  }

  lemma QuotientAtLeast(x: real, sigma: real, bound: real, k: real)
    requires 0.0 < sigma <= bound && 0.0 <= k && k * bound <= x
    ensures k <= x / sigma
  {
    var q := x / sigma;
    assert sigma * q == x;
    MulNonNegative(k, bound - sigma);
    assert k * bound - k * sigma == k * (bound - sigma);
    assert sigma * k <= sigma * q;
    ScaleKeepsOrder(sigma, k, q);
  }

  /** A value `k` widths above or below the range scores at least k, or at most -k. */
  predicate StandsOut(current: real, score: real, lo: real, hi: real, width: real, k: real) {
    && (current >= hi + k * width ==> score >= k)
    && (current <= lo - k * width ==> score <= -k)
  }

  lemma OutlierQuotient(current: real, m: real, lo: real, hi: real, sigma: real, bound: real, k: real)
    requires lo <= m <= hi && 0.0 < sigma <= bound && 0.0 <= k
    ensures StandsOut(current, (current - m) / sigma, lo, hi, bound, k)
  {
    if current >= hi + k * bound {
      QuotientAtLeast(current - m, sigma, bound, k);
    }
    if current <= lo - k * bound {
      QuotientAtLeast(m - current, sigma, bound, k);
      QuotientMirrors(current - m, sigma);
    }
  }

  /** A minority of wild samples cannot hide an outlier: however far off they are, a value k robust widths
      above or below the range that most of the history lies in scores at least k, unless the spread is cut
      off as nothing. */
  lemma MinorityCannotMask(current: real, history: seq<real>, lo: real, hi: real, k: real)
    requires 2 * CountIn(history, lo, hi) > |history| && 0.0 <= k && 1.4826 * Mad(history) >= 0.000000001
    ensures StandsOut(current, RobustZScore(current, history), lo, hi, 1.4826 * (hi - lo), k)
  {
    MajorityConfinesMedianAndMad(history, lo, hi);
    ScoreIsQuotient(current, history);
    OutlierQuotient(current, Median(history), lo, hi, 1.4826 * Mad(history), 1.4826 * (hi - lo), k);
  }

  // ----- exponential smoothing

  /** The smoothed value after the whole series: each sample enters with weight alpha. */
  function EwmaOf(values: seq<real>, alpha: real): real {
    if values == [] then 0.0
    else if |values| == 1 then values[0]
    else alpha * values[|values| - 1] + (1.0 - alpha) * EwmaOf(values[..|values| - 1], alpha)
  }

  method Ewma(values: seq<real>, alpha: real) returns (smoothed: real)
    ensures smoothed == EwmaOf(values, alpha)
  {
    if |values| == 0 {
      return 0.0;
    }
    smoothed := values[0];
    assert values[..1] == [values[0]];
    var index := 1;
    while index < |values|
      invariant 1 <= index <= |values|
      invariant smoothed == EwmaOf(values[..index], alpha)
    {
      assert values[..index + 1][..index] == values[..index];
      smoothed := alpha * values[index] + (1.0 - alpha) * smoothed;
      index := index + 1;
    }
    assert values[..index] == values;
  }

  lemma MulNonNegative(a: real, b: real)
    requires a >= 0.0 && b >= 0.0
    ensures a * b >= 0.0
  {
  }

  lemma ConvexBetween(alpha: real, x: real, y: real, lo: real, hi: real)
    requires 0.0 <= alpha <= 1.0 && lo <= x <= hi && lo <= y <= hi
    ensures lo <= alpha * x + (1.0 - alpha) * y <= hi
  {
    MulNonNegative(alpha, x - lo);
    MulNonNegative(1.0 - alpha, y - lo);
    MulNonNegative(alpha, hi - x);
    MulNonNegative(1.0 - alpha, hi - y);
  }

  /** Smoothing never leaves the range of its samples. */
  lemma {:induction false} EwmaWithinRange(values: seq<real>, alpha: real, lo: real, hi: real)
    requires values != [] && 0.0 <= alpha <= 1.0
    requires forall i :: 0 <= i < |values| ==> lo <= values[i] <= hi
    ensures lo <= EwmaOf(values, alpha) <= hi
  {
    if |values| > 1 {
      EwmaWithinRange(values[..|values| - 1], alpha, lo, hi);
      ConvexBetween(alpha, values[|values| - 1], EwmaOf(values[..|values| - 1], alpha), lo, hi);
    }
  }

  /** A level shift of the history shifts the smoothed value by the same amount. */
  lemma {:induction false} EwmaShift(values: seq<real>, shifted: seq<real>, alpha: real, delta: real)
    requires values != [] && |shifted| == |values|
    requires forall i :: 0 <= i < |values| ==> shifted[i] == values[i] + delta
    ensures EwmaOf(shifted, alpha) == EwmaOf(values, alpha) + delta
  {
    if |values| > 1 {
      var n := |values| - 1;
      EwmaShift(values[..n], shifted[..n], alpha, delta);
      MixShifts(alpha, values[n], EwmaOf(values[..n], alpha), delta);
    }
  }

  /** Each further sample moves the smoothed value by alpha of its distance from it, so with alpha 1 all the way to
      the sample and with alpha 0 not at all. */
  lemma EwmaMoves(history: seq<real>, x: real, alpha: real)
    requires history != []
    ensures EwmaOf(history + [x], alpha) - EwmaOf(history, alpha) == alpha * (x - EwmaOf(history, alpha))
    ensures EwmaOf([x], alpha) == x
  {
    assert (history + [x])[..|history|] == history;
  }

  lemma MixShifts(alpha: real, x: real, y: real, delta: real)
    ensures alpha * (x + delta) + (1.0 - alpha) * (y + delta) == alpha * x + (1.0 - alpha) * y + delta
  {
    assert (1.0 - alpha) * (y + delta) == (1.0 - alpha) * y + (1.0 - alpha) * delta;
  }
}
