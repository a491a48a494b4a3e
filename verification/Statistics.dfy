/** Order statistics of a sample vector: `percentile` and `summarize_samples` of src/util.cpp,
    over exact reals. `std::sqrt` is not modelled: the summary carries the variance. */
module Statistics {
  import opened Sorting
  import opened Sums

  datatype Distribution =
    | NoSamples
    | Distribution(count: nat, min: real, max: real, mean: real, variance: real, p50: real, p95: real)

  predicate AtMost(a: real, b: real) { a <= b }

  lemma AtMostIsTotal()
    ensures TotalOrder(AtMost)
  {
  }

  function Abs(x: real): real {
    if x < 0.0 then -x else x
  }

  function Sorted(s: seq<real>): (r: seq<real>)
    ensures |r| == |s|
    ensures multiset(r) == multiset(s)
  {
    Sort(s, AtMost)
  }

  /** The interpolation position of a fraction among `n` sorted samples. */
  function Position(n: nat, fraction: real): real {
    fraction * (n - 1) as real
  }

  function LowerIndex(position: real): int {
    position.Floor
  }

  function UpperIndex(position: real): int {
    if position.Floor as real == position then position.Floor else position.Floor + 1
  }

  lemma PositionInRange(n: nat, f: real, g: real)
    requires n > 0 && 0.0 <= f <= g <= 1.0
    ensures 0.0 <= Position(n, f) <= Position(n, g) <= (n - 1) as real
  {
    var top := (n - 1) as real;
    ScaledUp(0.0, f, top);
    ScaledUp(f, g, top);
    ScaledUp(g, 1.0, top);
  }

  /** Both interpolation indices stay inside the vector. */
  lemma IndicesInRange(n: nat, fraction: real)
    requires n > 0 && 0.0 <= fraction <= 1.0
    ensures 0 <= LowerIndex(Position(n, fraction)) <= UpperIndex(Position(n, fraction)) < n
  {
    PositionInRange(n, fraction, fraction);
  }

  function Mix(a: real, b: real, w: real): real {
    a * (1.0 - w) + b * w
  }

  function Interpolate(sorted: seq<real>, position: real): real
    requires 0 <= LowerIndex(position) <= UpperIndex(position) < |sorted|
  {
    var weight := position - LowerIndex(position) as real;
    Mix(sorted[LowerIndex(position)], sorted[UpperIndex(position)], weight)
  }

  function Percentile(sorted: seq<real>, fraction: real): real
    requires 0.0 <= fraction <= 1.0
  {
    if |sorted| == 0 then 0.0
    else if |sorted| == 1 then sorted[0]
    else
      IndicesInRange(|sorted|, fraction);
      Interpolate(sorted, Position(|sorted|, fraction))
  }

  /** The special case for one sample is what interpolation would give. */
  lemma PercentileInterpolates(sorted: seq<real>, fraction: real)
    requires |sorted| > 0 && 0.0 <= fraction <= 1.0
    ensures 0 <= LowerIndex(Position(|sorted|, fraction)) <= UpperIndex(Position(|sorted|, fraction)) < |sorted|
    ensures Percentile(sorted, fraction) == Interpolate(sorted, Position(|sorted|, fraction))
  {
    IndicesInRange(|sorted|, fraction);
  }

  lemma Between(a: real, b: real, w: real)
    requires a <= b && 0.0 <= w <= 1.0
    ensures a <= Mix(a, b, w) <= b
  {
    ScaledUp(0.0, w, b - a);
    ScaledUp(w, 1.0, b - a);
  }

  lemma ScaledUp(v: real, w: real, d: real)
    requires v <= w && 0.0 <= d
    ensures v * d <= w * d
  {
    assert (w - v) * d == w * d - v * d;
  }

  lemma StepsUp(s: seq<real>, i: int, j: int)
    requires SortedBy(s, AtMost) && 0 <= i <= j < |s|
    ensures s[i] <= s[j]
  {
    assert i == j || AtMost(s[i], s[j]);
  }

  /** The interpolated value lies between the two neighbouring order statistics. */
  lemma InterpolateBetween(sorted: seq<real>, position: real)
    requires SortedBy(sorted, AtMost)
    requires 0 <= LowerIndex(position) <= UpperIndex(position) < |sorted|
    ensures sorted[LowerIndex(position)] <= Interpolate(sorted, position) <= sorted[UpperIndex(position)]
  {
    var l, u := LowerIndex(position), UpperIndex(position);
    StepsUp(sorted, l, u);
    hide Mix;
    Between(sorted[l], sorted[u], position - l as real);
  }

  lemma InterpolateMonotone(sorted: seq<real>, p: real, q: real)
    requires SortedBy(sorted, AtMost) && p <= q
    requires 0 <= LowerIndex(p) <= UpperIndex(p) < |sorted|
    requires 0 <= LowerIndex(q) <= UpperIndex(q) < |sorted|
    ensures Interpolate(sorted, p) <= Interpolate(sorted, q)
  {
    hide Mix;
    InterpolateBetween(sorted, p);
    InterpolateBetween(sorted, q);
    if LowerIndex(p) < LowerIndex(q) {
      StepsUp(sorted, UpperIndex(p), LowerIndex(q));
    } else if UpperIndex(p) == LowerIndex(p) {
      StepsUp(sorted, LowerIndex(p), LowerIndex(q));
    } else {
      var l, u := LowerIndex(p), UpperIndex(p);
      StepsUp(sorted, l, u);
      SameCell(sorted[l], sorted[u], p - l as real, q - l as real);
    }
  }

  lemma SameCell(a: real, b: real, v: real, w: real)
    requires a <= b && v <= w
    ensures Mix(a, b, v) <= Mix(a, b, w)
  {
    ScaledUp(v, w, b - a);
  }

  /** A larger fraction never gives a smaller percentile. */
  lemma PercentileMonotone(sorted: seq<real>, f: real, g: real)
    requires |sorted| > 0 && SortedBy(sorted, AtMost) && 0.0 <= f <= g <= 1.0
    ensures Percentile(sorted, f) <= Percentile(sorted, g)
  {
    PositionInRange(|sorted|, f, g);
    PercentileInterpolates(sorted, f);
    PercentileInterpolates(sorted, g);
    InterpolateMonotone(sorted, Position(|sorted|, f), Position(|sorted|, g));
  }

  /** Between two ranks the percentile moves in proportion from one order statistic to the next. */
  lemma PercentileBetweenRanks(sorted: seq<real>, fraction: real, k: nat)
    requires 0.0 <= fraction <= 1.0 && k + 1 < |sorted|
    requires k as real <= fraction * (|sorted| - 1) as real <= (k + 1) as real
    ensures Percentile(sorted, fraction)
         == sorted[k] + (fraction * (|sorted| - 1) as real - k as real) * (sorted[k + 1] - sorted[k])
  {
    var position := Position(|sorted|, fraction);
    PercentileInterpolates(sorted, fraction);
    hide Percentile, Position;
    InterpolatedAt(sorted, position, k);
  }

  lemma InterpolatedAt(sorted: seq<real>, position: real, k: nat)
    requires k + 1 < |sorted| && k as real <= position <= (k + 1) as real
    requires 0 <= LowerIndex(position) <= UpperIndex(position) < |sorted|
    ensures Interpolate(sorted, position) == sorted[k] + (position - k as real) * (sorted[k + 1] - sorted[k])
  {
    hide Mix;
    var a, b, w := sorted[k], sorted[k + 1], position - k as real;
    if position == (k + 1) as real {
      assert LowerIndex(position) == UpperIndex(position) == k + 1;
      assert Interpolate(sorted, position) == Mix(b, b, 0.0);
      MixedSame(a, b, w);
    } else if position == k as real {
      assert LowerIndex(position) == UpperIndex(position) == k;
      assert Interpolate(sorted, position) == Mix(a, a, 0.0);
      MixedSame(a, b, w);
    } else {
      assert LowerIndex(position) == k && UpperIndex(position) == k + 1;
      Mixed(a, b, w);
    }
  }

  lemma Mixed(a: real, b: real, w: real)
    ensures Mix(a, b, w) == a + w * (b - a)
  {
  }

  lemma MixedSame(a: real, b: real, w: real)
    ensures w == 0.0 ==> Mix(a, a, 0.0) == a + w * (b - a)
    ensures w == 1.0 ==> Mix(b, b, 0.0) == a + w * (b - a)
  {
  }

  lemma PercentileWithinEnds(sorted: seq<real>, fraction: real)
    requires |sorted| > 0 && SortedBy(sorted, AtMost) && 0.0 <= fraction <= 1.0
    ensures sorted[0] <= Percentile(sorted, fraction) <= sorted[|sorted| - 1]
  {
    PercentileInterpolates(sorted, fraction);
    var position := Position(|sorted|, fraction);
    InterpolateBetween(sorted, position);
    StepsUp(sorted, 0, LowerIndex(position));
    StepsUp(sorted, UpperIndex(position), |sorted| - 1);
  }

  // ----- The summary -----

  function Square(x: real): real { x * x }

  function Squared(c: real): real -> real { x => Square(x - c) }

  function Distance(c: real): (f: real -> real)
    ensures forall x :: f(x) == Abs(x - c)
  {
    x => Abs(x - c)
  }

  function Mean(s: seq<real>): real
    requires |s| > 0
  {
    Total(s) / |s| as real
  }

  function Variance(s: seq<real>): real
    requires |s| > 0
  {
    SumOf(s, Squared(Mean(s))) / |s| as real
  }

  /** What a summary of `samples` is, stated on the vector in capture order. */
  ghost function Summary(samples: seq<real>): Distribution {
    if |samples| == 0 then NoSamples
    else
      var sorted := Sorted(samples);
      Distribution(|samples|, sorted[0], sorted[|sorted| - 1], Mean(samples), Variance(samples),
                   Percentile(sorted, 0.5), Percentile(sorted, 0.95))
  }

  method SummarizeSamples(samples: seq<real>) returns (summary: Distribution)
    ensures summary == Summary(samples)
  {
    hide Percentile, Sorted;
    if |samples| == 0 {
      return NoSamples;
    }
    var sorted := Sorted(samples);
    var sum := 0.0;
    for i := 0 to |sorted|
      invariant sum == Total(sorted[..i])
    {
      assert sorted[..i + 1][..i] == sorted[..i];
      sum := sum + sorted[i];
    }
    assert sorted[..|sorted|] == sorted;
    var mean := sum / |sorted| as real;
    var variance := 0.0;
    for i := 0 to |sorted|
      invariant variance == SumOf(sorted[..i], Squared(mean))
    {
      assert sorted[..i + 1][..i] == sorted[..i];
      var delta := sorted[i] - mean;
      assert Squared(mean)(sorted[i]) == Square(delta) == delta * delta;
      variance := variance + delta * delta;
    }
    variance := variance / |sorted| as real;
    assert mean == Mean(samples) by { SumOfPermutation(samples, sorted, Identity); }
    assert variance == Variance(samples) by { SumOfPermutation(samples, sorted, Squared(mean)); }
    return Distribution(|samples|, sorted[0], sorted[|sorted| - 1], mean, variance,
                        Percentile(sorted, 0.5), Percentile(sorted, 0.95));
  }

  /** Any permutation of the samples has the same summary. */
  lemma SummaryIgnoresOrder(a: seq<real>, b: seq<real>)
    requires multiset(a) == multiset(b)
    ensures Summary(a) == Summary(b)
  {
    assert |a| == |multiset(a)| == |multiset(b)| == |b|;
    if |a| > 0 {
      AtMostIsTotal();
      SortSorts(a, AtMost);
      SortSorts(b, AtMost);
      SortedIsUnique(Sorted(a), Sorted(b), AtMost);
      SumOfPermutation(a, b, Identity);
      SumOfPermutation(a, b, Squared(Mean(a)));
    }
  }

  /** min <= p50 <= p95 <= max and min <= mean <= max, and min and max bound every sample. */
  lemma SummaryIsOrdered(s: seq<real>)
    requires |s| > 0
    ensures var d := Summary(s);
            && d.min <= d.p50 <= d.p95 <= d.max
            && d.min <= d.mean <= d.max
            && d.min in s && d.max in s
            && forall x :: x in s ==> d.min <= x <= d.max
  {
    SamplesWithinEnds(s);
    PercentileWithinEnds(Sorted(s), 0.5);
    PercentileMonotone(Sorted(s), 0.5, 0.95);
    PercentileWithinEnds(Sorted(s), 0.95);
    MeanWithinEnds(s, Sorted(s)[0], Sorted(s)[|s| - 1]);
  }

  /** `t` lists the samples of `s` in ascending order. */
  ghost predicate Ascends(t: seq<real>, s: seq<real>) {
    multiset(t) == multiset(s) && forall i, j :: 0 <= i < j < |t| ==> t[i] <= t[j]
  }

  lemma AscendingIsSorted(t: seq<real>, s: seq<real>)
    requires Ascends(t, s)
    ensures Sorted(s) == t
  {
    AtMostIsTotal();
    SortSorts(s, AtMost);
    SortedIsUnique(Sorted(s), t, AtMost);
  }

  /** The p50 of a summary is the middle sample, or half way between the two in the middle. */
  lemma MedianIsMiddle(s: seq<real>, t: seq<real>)
    requires |s| > 0 && Ascends(t, s)
    ensures |t| == |s| && Summary(s).Distribution?
    ensures |s| % 2 == 1 ==> Summary(s).p50 == t[|s| / 2]
    ensures |s| % 2 == 0 ==> Summary(s).p50 == (t[|s| / 2 - 1] + t[|s| / 2]) / 2.0
  {
    hide *;
    AscendingIsSorted(t, s);
    PercentileParts(s);
    MiddlePercentile(t);
  }

  lemma PercentileParts(s: seq<real>)
    requires |s| > 0
    ensures Summary(s).Distribution?
    ensures Summary(s).p50 == Percentile(Sorted(s), 0.5) && Summary(s).p95 == Percentile(Sorted(s), 0.95)
  {
    hide Percentile, Sorted, Mean, Variance;
  }

  lemma MiddlePercentile(t: seq<real>)
    requires |t| > 0
    ensures |t| % 2 == 1 ==> Percentile(t, 0.5) == t[|t| / 2]
    ensures |t| % 2 == 0 ==> Percentile(t, 0.5) == (t[|t| / 2 - 1] + t[|t| / 2]) / 2.0
  {
    if |t| > 1 {
      var k := (|t| - 1) / 2;
      PercentileAlong(t, 0.5, k, if |t| % 2 == 1 then 0.0 else 0.5);
      hide Percentile;
    }
  }

  lemma PercentileAlong(t: seq<real>, fraction: real, k: nat, w: real)
    requires 0.0 <= fraction <= 1.0 && k + 1 < |t| && 0.0 <= w <= 1.0
    requires fraction * (|t| - 1) as real == k as real + w
    ensures Percentile(t, fraction) == t[k] + w * (t[k + 1] - t[k])
  {
    PercentileBetweenRanks(t, fraction, k);
    hide Percentile;
  }

  /** The p95 of a summary lies 95 hundredths of the way along the sorted samples. */
  lemma NinetyFifthIsInterpolated(s: seq<real>, t: seq<real>)
    requires |s| > 0 && Ascends(t, s)
    ensures |t| == |s| && Summary(s).Distribution?
    ensures |t| == 1 ==> Summary(s).p95 == t[0]
    ensures |t| > 1 ==>
      var k, hundredths := 95 * (|t| - 1) / 100, 95 * (|t| - 1) % 100;
      k + 1 < |t| && Summary(s).p95 == t[k] + hundredths as real / 100.0 * (t[k + 1] - t[k])
  {
    hide *;
    AscendingIsSorted(t, s);
    PercentileParts(s);
    NinetyFifthPercentile(t);
  }

  lemma NinetyFifthPercentile(t: seq<real>)
    requires |t| > 0
    ensures |t| == 1 ==> Percentile(t, 0.95) == t[0]
    ensures |t| > 1 ==>
      var k, hundredths := 95 * (|t| - 1) / 100, 95 * (|t| - 1) % 100;
      k + 1 < |t| && Percentile(t, 0.95) == t[k] + hundredths as real / 100.0 * (t[k + 1] - t[k])
  {
    if |t| > 1 {
      var m := |t| - 1;
      var k, hundredths := 95 * m / 100, 95 * m % 100;
      assert 95 * m == 100 * k + hundredths;
      PercentileAlong(t, 0.95, k, hundredths as real / 100.0);
      hide Percentile;
    }
  }

  /** The mean is the total shared equally, and the variance the total of the squared deviations from it. */
  lemma SummaryMoments(s: seq<real>)
    requires |s| > 0
    ensures var d := Summary(s);
            && d.Distribution? && d.count == |s|
            && d.mean * |s| as real == Total(s)
            && d.variance * |s| as real == SumOf(s, Squared(d.mean))
    ensures Summary([]) == NoSamples
  {
    hide Mean, Variance, Percentile, Sorted, SumOf, Squared, Total;
    SummaryParts(s);
    MeanTimesCount(s);
    VarianceTimesCount(s);
  }

  lemma MeanWithinEnds(s: seq<real>, lo: real, hi: real)
    requires |s| > 0 && forall x :: x in s ==> lo <= x <= hi
    ensures lo <= Mean(s) <= hi
  {
    hide Line;
    forall i | 0 <= i < |s| ensures Line(0.0, lo, Identity(s[i]), 1.0) <= Identity(s[i]) <= Line(0.0, hi, Identity(s[i]), 1.0) {
      assert s[i] in s;
      FlatLine(lo, s[i], 1.0);
      FlatLine(hi, s[i], 1.0);
    }
    SumAtLeast(s, Identity, Identity, 0.0, lo);
    SumAtMost(s, Identity, Identity, 0.0, hi);
    FlatLine(lo, Total(s), |s| as real);
    FlatLine(hi, Total(s), |s| as real);
    DivideBounds(lo, hi, Total(s), |s| as real);
  }

  lemma FlatLine(c: real, t: real, n: real)
    ensures Line(0.0, c, t, n) == c * n
  {
  }

  lemma Quotient(t: real, n: real) returns (a: real)
    requires n > 0.0
    ensures a == t / n && a * n == t
  {
    a := t / n;
  }

  lemma DivideBounds(lo: real, hi: real, total: real, n: real)
    requires n > 0.0 && lo * n <= total <= hi * n
    ensures lo <= total / n <= hi
  {
    var q := Quotient(total, n);
    CancelFactor(n, lo, q);
    CancelFactor(n, q, hi);
  }

  lemma CancelFactor(n: real, a: real, b: real)
    requires n > 0.0 && a * n <= b * n
    ensures a <= b
  {
    assert a > b ==> (a - b) * n > 0.0;
    assert (a - b) * n == a * n - b * n;
  }

  lemma SamplesWithinEnds(s: seq<real>)
    requires |s| > 0
    ensures SortedBy(Sorted(s), AtMost)
    ensures Sorted(s)[0] in s && Sorted(s)[|s| - 1] in s
    ensures forall x :: x in s ==> Sorted(s)[0] <= x <= Sorted(s)[|s| - 1]
  {
    AtMostIsTotal();
    SortSorts(s, AtMost);
    var sorted := Sorted(s);
    assert sorted[0] in multiset(s) && sorted[|s| - 1] in multiset(s);
    forall x | x in s ensures sorted[0] <= x <= sorted[|s| - 1] {
      assert x in multiset(sorted);
      var i :| 0 <= i < |sorted| && sorted[i] == x;
      assert i == 0 || AtMost(sorted[0], sorted[i]);
      assert i == |s| - 1 || AtMost(sorted[i], sorted[|s| - 1]);
    }
  }

  // ----- Ranks -----

  function Indicator(p: real -> bool): real -> real { x => if p(x) then 1.0 else 0.0 }

  function CountWhere(s: seq<real>, p: real -> bool): (c: nat)
    ensures c as real == SumOf(s, Indicator(p))
  {
    if |s| == 0 then 0 else CountWhere(s[..|s| - 1], p) + if p(s[|s| - 1]) then 1 else 0
  }

  lemma {:induction false} CountAtLeast(s: seq<real>, p: real -> bool, lo: nat, hi: nat)
    requires lo <= hi <= |s| && forall i :: lo <= i < hi ==> p(s[i])
    ensures CountWhere(s, p) >= hi - lo
  {
    if |s| > 0 {
      var n := |s|;
      if hi == n {
        if lo < n { CountAtLeast(s[..n - 1], p, lo, n - 1); }
      } else {
        CountAtLeast(s[..n - 1], p, lo, hi);
      }
    }
  }

  function NoMoreThan(c: real): real -> bool { x => x <= c }

  function NoLessThan(c: real): real -> bool { x => x >= c }

  /** At least floor(f(n-1)) + 1 samples are at most the f-percentile, and at least
      n - ceil(f(n-1)) samples are at least it. */
  lemma PercentileRank(s: seq<real>, fraction: real)
    requires |s| > 0 && 0.0 <= fraction <= 1.0
    ensures CountWhere(s, NoMoreThan(Percentile(Sorted(s), fraction))) >= LowerIndex(Position(|s|, fraction)) + 1
    ensures CountWhere(s, NoLessThan(Percentile(Sorted(s), fraction))) >= |s| - UpperIndex(Position(|s|, fraction))
  {
    AtMostIsTotal();
    SortSorts(s, AtMost);
    var sorted, position := Sorted(s), Position(|s|, fraction);
    PercentileInterpolates(sorted, fraction);
    RankInSorted(sorted, position);
    CountPermutation(s, sorted, NoMoreThan(Percentile(sorted, fraction)));
    CountPermutation(s, sorted, NoLessThan(Percentile(sorted, fraction)));
  }

  lemma RankInSorted(sorted: seq<real>, position: real)
    requires SortedBy(sorted, AtMost)
    requires 0 <= LowerIndex(position) <= UpperIndex(position) < |sorted|
    ensures CountWhere(sorted, NoMoreThan(Interpolate(sorted, position))) >= LowerIndex(position) + 1
    ensures CountWhere(sorted, NoLessThan(Interpolate(sorted, position))) >= |sorted| - UpperIndex(position)
  {
    InterpolateBetween(sorted, position);
    var p := Interpolate(sorted, position);
    var lower, upper := LowerIndex(position), UpperIndex(position);
    forall i | 0 <= i <= lower ensures NoMoreThan(p)(sorted[i]) {
      StepsUp(sorted, i, lower);
    }
    forall i | upper <= i < |sorted| ensures NoLessThan(p)(sorted[i]) {
      StepsUp(sorted, upper, i);
    }
    CountAtLeast(sorted, NoMoreThan(p), 0, lower + 1);
    CountAtLeast(sorted, NoLessThan(p), upper, |sorted|);
  }

  lemma CountPermutation(a: seq<real>, b: seq<real>, p: real -> bool)
    requires multiset(a) == multiset(b)
    ensures CountWhere(a, p) == CountWhere(b, p)
  {
    SumOfPermutation(a, b, Indicator(p));
    assert CountWhere(a, p) as real == CountWhere(b, p) as real;
  }

  // ----- The median and the mean -----

  /** `m` lies between the k-th smallest and the k-th largest element, for every k. */
  ghost predicate Central(sorted: seq<real>, m: real) {
    forall i :: 0 <= i && 2 * i < |sorted| ==> CentralAt(sorted, m, i)
  }

  predicate CentralAt(sorted: seq<real>, m: real, i: int)
    requires 0 <= i && 2 * i < |sorted|
  {
    sorted[i] <= m <= sorted[|sorted| - 1 - i]
  }

  lemma MedianIsCentral(sorted: seq<real>)
    requires |sorted| > 0 && SortedBy(sorted, AtMost)
    ensures Central(sorted, Percentile(sorted, 0.5))
  {
    var n := |sorted|;
    var position := Position(n, 0.5);
    PercentileInterpolates(sorted, 0.5);
    InterpolateBetween(sorted, position);
    assert position == (n - 1) as real / 2.0;
    assert LowerIndex(position) == (n - 1) / 2 && UpperIndex(position) == n - 1 - (n - 1) / 2;
    forall i | 0 <= i && 2 * i < n ensures CentralAt(sorted, Percentile(sorted, 0.5), i) {
      StepsUp(sorted, i, LowerIndex(position));
      StepsUp(sorted, UpperIndex(position), n - 1 - i);
    }
  }

  lemma {:induction false} CentralMinimisesDistance(sorted: seq<real>, m: real, c: real)
    requires Central(sorted, m)
    ensures SumOf(sorted, Distance(m)) <= SumOf(sorted, Distance(c))
    decreases |sorted|
  {
    var n := |sorted|;
    if n == 1 {
      assert CentralAt(sorted, m, 0);
      assert sorted[..0] == [];
    } else if n > 1 {
      var a, middle, b := sorted[0], sorted[1..n - 1], sorted[n - 1];
      assert sorted == [a] + middle + [b];
      assert CentralAt(sorted, m, 0);
      CentralInside(sorted, m);
      CentralMinimisesDistance(middle, m, c);
      SplitEnds(a, middle, b, Distance(m));
      SplitEnds(a, middle, b, Distance(c));
      assert Abs(a - m) + Abs(b - m) <= Abs(a - c) + Abs(b - c);
    }
  }

  lemma CentralInside(sorted: seq<real>, m: real)
    requires |sorted| > 1 && Central(sorted, m)
    ensures Central(sorted[1..|sorted| - 1], m)
  {
    var middle := sorted[1..|sorted| - 1];
    forall i | 0 <= i && 2 * i < |middle| ensures CentralAt(middle, m, i) {
      assert CentralAt(sorted, m, i + 1);
    }
  }

  lemma SplitEnds(a: real, middle: seq<real>, b: real, f: real -> real)
    ensures SumOf([a] + middle + [b], f) == f(a) + SumOf(middle, f) + f(b)
  {
    SumOfConcat([a] + middle, [b], f);
    SumOfConcat([a], middle, f);
    assert [a][..0] == [] && [b][..0] == [];
  }

  /** The p50 of a summary minimises the total absolute deviation over all centres. */
  lemma MedianMinimisesDistance(s: seq<real>, c: real)
    requires |s| > 0
    ensures SumOf(s, Distance(Summary(s).p50)) <= SumOf(s, Distance(c))
  {
    AtMostIsTotal();
    SortSorts(s, AtMost);
    var sorted, m := Sorted(s), Summary(s).p50;
    MedianIsCentral(sorted);
    CentralMinimisesDistance(sorted, m, c);
    SumOfPermutation(s, sorted, Distance(m));
    SumOfPermutation(s, sorted, Distance(c));
  }

  /** Cauchy-Schwarz for deviations: (sum |x - c|)^2 <= n * sum (x - c)^2. */
  lemma SquareOfTotalDistance(s: seq<real>, c: real)
    requires |s| > 0
    ensures SumOf(s, Distance(c)) * SumOf(s, Distance(c)) <= SumOf(s, Squared(c)) * |s| as real
  {
    hide *;
    var a := Quotient(SumOf(s, Distance(c)), |s| as real);
    SquaresAboveTangent(s, c, a, 2.0 * a, -(a * a));
    CompletedSquare(|s| as real, SumOf(s, Distance(c)), SumOf(s, Squared(c)), a, 2.0 * a, -(a * a));
  }

  /** y^2 lies above its tangent 2ay - a^2; summed over the distances y from `c`. */
  lemma SquaresAboveTangent(s: seq<real>, c: real, a: real, slope: real, offset: real)
    requires slope == 2.0 * a && offset == -(a * a)
    ensures Line(slope, offset, SumOf(s, Distance(c)), |s| as real) <= SumOf(s, Squared(c))
  {
    hide Line, Square, SumOf, Abs;
    forall i | 0 <= i < |s| ensures Line(slope, offset, Distance(c)(s[i]), 1.0) <= Squared(c)(s[i]) {
      Tangent(s[i] - c, a, slope, offset);
    }
    SumAtLeast(s, Squared(c), Distance(c), slope, offset);
  }

  lemma Tangent(y: real, a: real, slope: real, offset: real)
    requires slope == 2.0 * a && offset == -(a * a)
    ensures Line(slope, offset, Abs(y), 1.0) <= Square(y)
  {
    SquareOfAbs(y);
    TangentBelow(Abs(y), a, slope, offset);
  }

  lemma TangentBelow(y: real, a: real, slope: real, offset: real)
    requires slope == 2.0 * a && offset == -(a * a)
    ensures slope * y + offset <= y * y
  {
    assert (y - a) * (y - a) == y * y - 2.0 * a * y + a * a;
  }

  lemma CompletedSquare(n: real, t: real, q: real, a: real, slope: real, offset: real)
    requires n > 0.0 && a * n == t && slope == 2.0 * a && offset == -(a * a)
    requires Line(slope, offset, t, n) <= q
    ensures t * t <= q * n
  {
    assert offset * n == -(a * (a * n)) == -(a * t);
    assert slope * t == 2.0 * (a * t);
    ScaledUp(0.0, n, q - a * t);
    assert n * (q - a * t) == q * n - (a * n) * t;
  }

  /** The distance of the mean from any centre is at most the average distance from it. */
  lemma MeanWithinAverageDistance(s: seq<real>, mean: real, m: real)
    requires mean * |s| as real == Total(s)
    ensures Abs(mean - m) * |s| as real <= SumOf(s, Distance(m))
  {
    WithinDistance(s, m);
    hide SumOf, Total;
    CentreGap(|s| as real, mean, Total(s), m, SumOf(s, Distance(m)));
  }

  lemma WithinDistance(s: seq<real>, m: real)
    ensures Line(-1.0, m, SumOf(s, Distance(m)), |s| as real) <= Total(s) <= Line(1.0, m, SumOf(s, Distance(m)), |s| as real)
  {
    hide Line, SumOf, Abs;
    forall i | 0 <= i < |s|
      ensures Line(-1.0, m, Distance(m)(s[i]), 1.0) <= Identity(s[i]) <= Line(1.0, m, Distance(m)(s[i]), 1.0)
    {
      AtDistance(s[i], m);
    }
    SumAtMost(s, Identity, Distance(m), 1.0, m);
    SumAtLeast(s, Identity, Distance(m), -1.0, m);
  }

  lemma AtDistance(x: real, m: real)
    ensures Line(-1.0, m, Abs(x - m), 1.0) <= x <= Line(1.0, m, Abs(x - m), 1.0)
  {
  }

  lemma MeanTimesCount(s: seq<real>)
    requires |s| > 0
    ensures Mean(s) * |s| as real == Total(s)
  {
    hide SumOf, Total;
    var mean := Quotient(Total(s), |s| as real);
  }

  lemma VarianceTimesCount(s: seq<real>)
    requires |s| > 0
    ensures Variance(s) * |s| as real == SumOf(s, Squared(Mean(s)))
  {
    hide SumOf, Mean, Squared;
    var variance := Quotient(SumOf(s, Squared(Mean(s))), |s| as real);
  }

  lemma CentreGap(n: real, mean: real, t: real, m: real, d: real)
    requires n >= 0.0 && mean * n == t && Line(-1.0, m, d, n) <= t <= Line(1.0, m, d, n)
    ensures Abs(mean - m) * n <= d
  {
    assert (mean - m) * n == t - m * n;
  }

  /** The median lies within one standard deviation of the mean: (mean - p50)^2 <= variance. */
  lemma MedianWithinOneDeviation(s: seq<real>)
    requires |s| > 0
    ensures (Summary(s).mean - Summary(s).p50) * (Summary(s).mean - Summary(s).p50) <= Summary(s).variance
  {
    hide *;
    SummaryParts(s);
    VarianceTimesCount(s);
    MeanTimesCount(s);
    MedianGapSquared(s, Mean(s), Summary(s).p50);
    CancelFactor(|s| as real, (Mean(s) - Summary(s).p50) * (Mean(s) - Summary(s).p50), Variance(s));
  }

  lemma SummaryParts(s: seq<real>)
    requires |s| > 0
    ensures Summary(s).Distribution? && Summary(s).count == |s|
    ensures Summary(s).mean == Mean(s) && Summary(s).variance == Variance(s)
    ensures Summary(s).min == Sorted(s)[0] && Summary(s).max == Sorted(s)[|s| - 1]
  {
    hide SumOf, Squared, Percentile, Mean, Sorted, Variance;
  }

  lemma MedianGapSquared(s: seq<real>, mean: real, m: real)
    requires |s| > 0 && mean * |s| as real == Total(s) && m == Summary(s).p50
    ensures (mean - m) * (mean - m) * |s| as real <= SumOf(s, Squared(mean))
  {
    hide *;
    MeanWithinAverageDistance(s, mean, m);
    MedianMinimisesDistance(s, mean);
    SquareOfTotalDistance(s, mean);
    SquareOfAbs(mean - m);
    AverageOfSquares(Abs(mean - m), SumOf(s, Distance(mean)), SumOf(s, Squared(mean)), |s| as real);
  }

  lemma SquareOfAbs(x: real)
    ensures 0.0 <= Abs(x) && Abs(x) * Abs(x) == x * x == Square(x)
  {
  }

  lemma AverageOfSquares(gap: real, spread: real, q: real, n: real)
    requires n > 0.0 && 0.0 <= gap && gap * n <= spread && spread * spread <= q * n
    ensures gap * gap * n <= q
  {
    assert (gap * gap * n) * n == (gap * n) * (gap * n);
    var g := gap * n;
    ScaledUp(0.0, gap, n);
    ScaledUp(g, spread, g);
    ScaledUp(g, spread, spread);
    CancelFactor(n, gap * gap * n, q);
  }

  /** The variance is at most (max - mean)(mean - min). */
  lemma VarianceBound(s: seq<real>)
    requires |s| > 0
    ensures 0.0 <= Summary(s).variance
    ensures Summary(s).variance <= (Summary(s).max - Summary(s).mean) * (Summary(s).mean - Summary(s).min)
  {
    hide *;
    var mean, lo, hi := Mean(s), Sorted(s)[0], Sorted(s)[|s| - 1];
    var bound := (hi - mean) * (mean - lo);
    SummaryParts(s);
    VarianceTimesCount(s);
    MeanTimesCount(s);
    SamplesWithinEnds(s);
    DeviationsBound(s, mean, lo, hi, bound);
    CancelFactor(|s| as real, 0.0, Variance(s));
    CancelFactor(|s| as real, Variance(s), bound);
  }

  function Deviation(c: real): real -> real { x => x - c }

  lemma DeviationsBound(s: seq<real>, mean: real, lo: real, hi: real, bound: real)
    requires mean * |s| as real == Total(s) && bound == (hi - mean) * (mean - lo)
    requires forall x :: x in s ==> lo <= x <= hi
    ensures 0.0 <= SumOf(s, Squared(mean)) <= bound * |s| as real
  {
    var slope := hi + lo - 2.0 * mean;
    SquaresBelowChord(s, mean, lo, hi, slope, bound);
    DeviationsCancel(s, mean);
    hide SumOf;
  }

  lemma SquaresBelowChord(s: seq<real>, mean: real, lo: real, hi: real, slope: real, bound: real)
    requires slope == hi + lo - 2.0 * mean && bound == (hi - mean) * (mean - lo)
    requires forall x :: x in s ==> lo <= x <= hi
    ensures Line(0.0, 0.0, SumOf(s, Deviation(mean)), |s| as real) <= SumOf(s, Squared(mean))
         <= Line(slope, bound, SumOf(s, Deviation(mean)), |s| as real)
  {
    hide Line, SumOf, Square;
    forall i | 0 <= i < |s|
      ensures Line(0.0, 0.0, Deviation(mean)(s[i]), 1.0) <= Squared(mean)(s[i]) <= Line(slope, bound, Deviation(mean)(s[i]), 1.0)
    {
      assert s[i] in s;
      Chord(s[i], mean, lo, hi, slope, bound);
    }
    SumAtMost(s, Squared(mean), Deviation(mean), slope, bound);
    SumAtLeast(s, Squared(mean), Deviation(mean), 0.0, 0.0);
  }

  lemma DeviationsCancel(s: seq<real>, mean: real)
    requires mean * |s| as real == Total(s)
    ensures SumOf(s, Deviation(mean)) == 0.0
  {
    hide Line, SumOf;
    forall i | 0 <= i < |s| ensures Deviation(mean)(s[i]) == Line(1.0, -mean, Identity(s[i]), 1.0) {
      Shifted(mean, s[i], 1.0);
    }
    SumAtMost(s, Deviation(mean), Identity, 1.0, -mean);
    SumAtLeast(s, Deviation(mean), Identity, 1.0, -mean);
    Shifted(mean, Total(s), |s| as real);
  }

  lemma Shifted(mean: real, t: real, n: real)
    ensures Line(1.0, -mean, t, n) == t - mean * n
  {
  }

  /** Between `lo` and `hi` the parabola (x - mean)^2 lies below its chord. */
  lemma Chord(x: real, mean: real, lo: real, hi: real, slope: real, bound: real)
    requires lo <= x <= hi && slope == hi + lo - 2.0 * mean && bound == (hi - mean) * (mean - lo)
    ensures Line(0.0, 0.0, x - mean, 1.0) <= Square(x - mean) <= Line(slope, bound, x - mean, 1.0)
  {
    ChordAbove(x - mean, hi - mean, mean - lo);
    SquareOfAbs(x - mean);
  }

  lemma ChordAbove(y: real, h: real, l: real)
    requires -l <= y <= h
    ensures y * y <= (h - l) * y + h * l
  {
    ScaledUp(0.0, h - y, y + l);
    assert (h - y) * (y + l) == h * l + (h - l) * y - y * y;
  }
}
