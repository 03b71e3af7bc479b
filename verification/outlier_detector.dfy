/**
 * OutlierDetector: quartiles by the median-of-halves method, IQR outlier
 * bounds and basic statistics over a sequence of numbers.
 */
module OutlierDetector {
  import opened QuickSort
  import opened Numeric

  /** The standard median of a non-empty sorted sequence (mean of the two middle values when even). */
  function Median(s: seq<real>): real
    requires |s| > 0
  {
    var n := |s|;
    if n % 2 == 0 then (s[n / 2 - 1] + s[n / 2]) / 2.0 else s[n / 2]
  }

  /** The median of an ascending sequence lies between its two middle elements. */
  lemma MedianBetweenMiddle(s: seq<real>)
    requires |s| > 0 && Ascending(s)
    ensures s[(|s| - 1) / 2] <= Median(s) <= s[|s| / 2]
    ensures s[0] <= Median(s) <= s[|s| - 1]
  {
  }

  function LowerHalf(s: seq<real>): seq<real> {
    s[..|s| / 2]
  }

  /** The elements after the midpoint, skipping the middle element when the length is odd. */
  function UpperHalf(s: seq<real>): seq<real> {
    if |s| % 2 == 0 then s[|s| / 2..] else s[|s| / 2 + 1..]
  }

  datatype Quartiles = Quartiles(q1: real, q2: real, q3: real)

  /**
   * What calculate_quartiles produces: (None, None, None) for no data, an
   * IndexError when the lower half is empty (a single value), else Q1, Q2, Q3.
   */
  datatype QuartileOutcome = NoData | LowerHalfEmpty | Computed(quartiles: Quartiles)

  /** calculate_quartiles on data already sorted ascending. */
  function QuartilesOfSorted(s: seq<real>): QuartileOutcome {
    if |s| == 0 then NoData
    else if |LowerHalf(s)| == 0 then LowerHalfEmpty
    else Computed(Quartiles(Median(LowerHalf(s)), Median(s), Median(UpperHalf(s))))
  }

  /** OutlierDetector.calculate_quartiles: the quartiles of the sorted view of `data`. */
  function CalculateQuartiles(data: seq<real>): QuartileOutcome {
    if |data| == 0 then NoData else QuartilesOfSorted(SortedValues(data))
  }

  /** Median-of-halves quartiles are ordered and lie within the data's range. */
  lemma QuartilesOrdered(s: seq<real>)
    requires |s| >= 2 && Ascending(s)
    ensures QuartilesOfSorted(s).Computed?
    ensures var q := QuartilesOfSorted(s).quartiles;
            s[0] <= q.q1 <= q.q2 <= q.q3 <= s[|s| - 1]
  {
    var n := |s|;
    var lower, upper := LowerHalf(s), UpperHalf(s);
    MedianBetweenMiddle(s);
    MedianBetweenMiddle(lower);
    MedianBetweenMiddle(upper);
    assert lower[|lower| - 1] == s[n / 2 - 1];
    assert lower[0] == s[0];
    assert upper[|upper| - 1] == s[n - 1];
    if n % 2 == 0 {
      assert upper[0] == s[n / 2];
    } else {
      assert upper[0] == s[n / 2 + 1];
    }
  }

  /** Only a single value makes calculate_quartiles fail; two or more always give quartiles. */
  lemma QuartilesDefined(data: seq<real>)
    ensures CalculateQuartiles(data).LowerHalfEmpty? <==> |data| == 1
    ensures CalculateQuartiles(data).NoData? <==> |data| == 0
  {
    SortedValuesSorts(data);
    assert |SortedValues(data)| == |multiset(SortedValues(data))| == |data|;
  }

  /** Data that is already ascending is its own sorted view. */
  lemma SortedValuesOfAscending(s: seq<real>)
    requires Ascending(s)
    ensures SortedValues(s) == s
  {
    SortedValuesSorts(s);
    AscendingPermutationUnique(s, SortedValues(s));
  }

  /** The worked example: 1..8 has quartiles 2.5, 4.5 and 6.5 (so an IQR of 4). */
  lemma QuartilesOfOneToEight(data: seq<real>)
    requires data == [1.0, 2.0, 3.0, 4.0, 5.0, 6.0, 7.0, 8.0]
    ensures CalculateQuartiles(data) == Computed(Quartiles(2.5, 4.5, 6.5))
  {
    assert Ascending(data) by {
      forall i, j | 0 <= i < j < |data| ensures data[i] <= data[j] {
        assert data[i] == (i + 1) as real && data[j] == (j + 1) as real;
      }
    }
    SortedValuesOfAscending(data);
    var lower, upper := LowerHalf(data), UpperHalf(data);
    assert lower == [1.0, 2.0, 3.0, 4.0] && Median(lower) == 2.5;
    assert upper == [5.0, 6.0, 7.0, 8.0] && Median(upper) == 6.5;
    assert Median(data) == 4.5;
  }

  /** The values of `data` strictly outside [lower, upper], in input order. */
  function OutsideBounds(data: seq<real>, lower: real, upper: real): seq<real> {
    if |data| == 0 then []
    else
      var x := data[|data| - 1];
      OutsideBounds(data[..|data| - 1], lower, upper) + (if x < lower || x > upper then [x] else [])
  }

  /** The outlier filter distributes over concatenation: it keeps the input order. */
  lemma {:induction false} OutsideBoundsAppend(a: seq<real>, b: seq<real>, lower: real, upper: real)
    ensures OutsideBounds(a + b, lower, upper) == OutsideBounds(a, lower, upper) + OutsideBounds(b, lower, upper)
    decreases |b|
  {
    if |b| == 0 {
      assert a + b == a;
    } else {
      var b' := b[..|b| - 1];
      var x := b[|b| - 1];
      var tail := if x < lower || x > upper then [x] else [];
      assert (a + b)[..|a + b| - 1] == a + b';
      assert (a + b)[|a + b| - 1] == x;
      assert OutsideBounds(a + b, lower, upper) == OutsideBounds(a + b', lower, upper) + tail;
      assert OutsideBounds(b, lower, upper) == OutsideBounds(b', lower, upper) + tail;
      OutsideBoundsAppend(a, b', lower, upper);
    }
  }

  lemma OutsideBoundsPrefix(data: seq<real>, lower: real, upper: real, k: nat)
    requires k < |data|
    ensures OutsideBounds(data[..k + 1], lower, upper)
         == OutsideBounds(data[..k], lower, upper) + (if data[k] < lower || data[k] > upper then [data[k]] else [])
  {
    assert data[..k + 1][..k] == data[..k];
  }

  /** Exactly the values strictly outside the bounds are kept, each as often as it occurs. */
  lemma {:induction false} OutsideBoundsCounts(data: seq<real>, lower: real, upper: real, x: real)
    ensures multiset(OutsideBounds(data, lower, upper))[x]
         == if x < lower || x > upper then multiset(data)[x] else 0
    ensures |OutsideBounds(data, lower, upper)| <= |data|
  {
    if |data| > 0 {
      var init := data[..|data| - 1];
      assert data == init + [data[|data| - 1]];
      OutsideBoundsCounts(init, lower, upper, x);
    }
  }

  datatype OutlierReport =
    | InsufficientData  // the guard result: empty `outliers`, every bound and quartile None
    | OutlierAnalysis(outliers: seq<real>, outlierCount: nat, outlierPercentage: real,
                      lowerBound: real, upperBound: real,
                      q1: real, q2: real, q3: real, iqr: real, totalValues: nat)
  {
    /** The `outliers` list of either shape of result. */
    function OutlierValues(): seq<real> {
      if InsufficientData? then [] else outliers
    }
  }

  /** OutlierDetector.detect_outliers(data, multiplier). */
  method DetectOutliers(data: seq<real>, multiplier: real) returns (r: OutlierReport)
    ensures r.InsufficientData? <==> |data| < 4
    ensures r.OutlierAnalysis? ==>
      && CalculateQuartiles(data) == Computed(Quartiles(r.q1, r.q2, r.q3))
      && r.iqr == r.q3 - r.q1
      && r.lowerBound == r.q1 - multiplier * r.iqr
      && r.upperBound == r.q3 + multiplier * r.iqr
      && r.outliers == OutsideBounds(data, r.lowerBound, r.upperBound)
      && r.outlierCount == |r.outliers|
      && r.outlierPercentage == (|r.outliers| as real / |data| as real) * 100.0
      && r.totalValues == |data|
  {
    if |data| == 0 || |data| < 4 {
      return InsufficientData;
    }
    QuartilesDefined(data);
    var q := CalculateQuartiles(data).quartiles;
    var iqr := q.q3 - q.q1;
    var lowerBound := q.q1 - (multiplier * iqr);
    var upperBound := q.q3 + (multiplier * iqr);
    var outliers := CollectOutliers(data, lowerBound, upperBound);
    r := OutlierAnalysis(outliers, |outliers|, (|outliers| as real / |data| as real) * 100.0,
                         lowerBound, upperBound, q.q1, q.q2, q.q3, iqr, |data|);
  }

  /** The `for value in data` loop of detect_outliers: the values outside the bounds, in order. */
  method CollectOutliers(data: seq<real>, lowerBound: real, upperBound: real) returns (outliers: seq<real>)
    ensures outliers == OutsideBounds(data, lowerBound, upperBound)
  {
    outliers := [];
    for k := 0 to |data|
      invariant outliers == OutsideBounds(data[..k], lowerBound, upperBound)
    {
      OutsideBoundsPrefix(data, lowerBound, upperBound, k);
      var value := data[k];
      if value < lowerBound || value > upperBound {
        outliers := outliers + [value];
      }
    }
    assert data[..|data|] == data;
  }

  /**
   * With a non-negative multiplier the IQR is non-negative and the outlier
   * bounds enclose the three quartiles.
   */
  lemma BoundsEncloseQuartileRange(data: seq<real>, multiplier: real, r: OutlierReport)
    requires multiplier >= 0.0
    requires r.OutlierAnalysis? && |data| >= 4
    requires CalculateQuartiles(data) == Computed(Quartiles(r.q1, r.q2, r.q3))
    requires r.iqr == r.q3 - r.q1
    requires r.lowerBound == r.q1 - multiplier * r.iqr
    requires r.upperBound == r.q3 + multiplier * r.iqr
    ensures 0.0 <= r.iqr
    ensures r.lowerBound <= r.q1 <= r.q2 <= r.q3 <= r.upperBound
  {
    CalculatedQuartilesOrdered(data);
    BoundsEncloseQuartiles(r.q1, r.q3, multiplier);
  }

  /**
   * The reported outliers are only values outside the bounds, so never a value
   * between them; there are at most as many as there are values, and the
   * percentage lies in [0, 100].
   */
  lemma OutliersWithinTotal(data: seq<real>, r: OutlierReport)
    requires r.OutlierAnalysis? && |data| >= 4
    requires r.outliers == OutsideBounds(data, r.lowerBound, r.upperBound)
    requires r.outlierCount == |r.outliers|
    requires r.outlierPercentage == (|r.outliers| as real / |data| as real) * 100.0
    ensures forall x :: r.lowerBound <= x <= r.upperBound ==> multiset(r.outliers)[x] == 0
    ensures r.outlierCount <= |data|
    ensures 0.0 <= r.outlierPercentage <= 100.0
  {
    forall x | r.lowerBound <= x <= r.upperBound ensures multiset(r.outliers)[x] == 0 {
      OutsideBoundsCounts(data, r.lowerBound, r.upperBound, x);
    }
    OutsideBoundsCounts(data, r.lowerBound, r.upperBound, 0.0);
    PercentageBounds(|r.outliers|, |data|);
  }

  /** calculate_quartiles on two or more values gives ordered quartiles. */
  lemma CalculatedQuartilesOrdered(data: seq<real>)
    requires |data| >= 2
    ensures CalculateQuartiles(data).Computed?
    ensures var q := CalculateQuartiles(data).quartiles; q.q1 <= q.q2 <= q.q3
  {
    SortedValuesSorts(data);
    assert |SortedValues(data)| == |multiset(SortedValues(data))| == |data|;
    QuartilesOrdered(SortedValues(data));
  }

  lemma BoundsEncloseQuartiles(q1: real, q3: real, multiplier: real)
    requires q1 <= q3 && 0.0 <= multiplier
    ensures q1 - multiplier * (q3 - q1) <= q1 && q3 <= q3 + multiplier * (q3 - q1)
  {
  }

  lemma PercentageBounds(part: nat, whole: nat)
    requires 0 < whole && part <= whole
    ensures 0.0 <= (part as real / whole as real) * 100.0 <= 100.0
  {
    var m, n := part as real, whole as real;
    assert m / n * n == m;
  }

  datatype Statistics =
    | NoStatistics  // the result for no data: every field None
    | Statistics(mean: real, median: real, min: real, max: real, range: real, variance: real, count: nat)

  /**
   * OutlierDetector.calculate_statistics(data). `variance` is the population
   * variance whose square root the source reports as `std_dev`.
   */
  method CalculateStatistics(data: seq<real>) returns (r: Statistics)
    ensures r.NoStatistics? <==> |data| == 0
    ensures r.Statistics? ==>
      && r.count == |data|
      && r.mean == Sum(data) / |data| as real
      && r.median == Median(SortedValues(data))
      && IsLeast(r.min, data) && IsGreatest(r.max, data)
      && r.range == r.max - r.min
      && r.variance == SquaredDeviations(data, r.mean) / |data| as real
      && r.min <= r.median <= r.max
      && r.min <= r.mean <= r.max
      && 0.0 <= r.range && 0.0 <= r.variance
  {
    if |data| == 0 {
      return NoStatistics;
    }
    var n := |data|;
    var total := Total(data);
    var mean := total / n as real;

    var sortedData := SortValues(data);
    SortedExtremes(data, sortedData);
    var median := if n % 2 == 0 then (sortedData[n / 2 - 1] + sortedData[n / 2]) / 2.0 else sortedData[n / 2];
    var minVal := sortedData[0];
    var maxVal := sortedData[n - 1];

    var varianceSum := VarianceSum(data, mean);
    var variance := varianceSum / n as real;

    MedianBetweenMiddle(sortedData);
    assert median == Median(sortedData);
    MeanBounds(data, minVal, maxVal);
    r := Statistics(mean, median, minVal, maxVal, maxVal - minVal, variance, n);
  }

  /** The `total += value` loop of calculate_statistics. */
  method Total(data: seq<real>) returns (total: real)
    ensures total == Sum(data)
  {
    total := 0.0;
    for k := 0 to |data|
      invariant total == Sum(data[..k])
    {
      SumPrefix(data, k);
      total := total + data[k];
    }
    assert data[..|data|] == data;
  }

  /** The `variance_sum += (value - mean) ** 2` loop of calculate_statistics. */
  method VarianceSum(data: seq<real>, mean: real) returns (varianceSum: real)
    ensures varianceSum == SquaredDeviations(data, mean)
  {
    varianceSum := 0.0;
    for k := 0 to |data|
      invariant varianceSum == SquaredDeviations(data[..k], mean)
    {
      SquaredDeviationsPrefix(data, mean, k);
      varianceSum := varianceSum + (data[k] - mean) * (data[k] - mean);
    }
    assert data[..|data|] == data;
  }

  /** The first and last elements of the sorted view are the least and greatest values. */
  lemma SortedExtremes(data: seq<real>, sorted: seq<real>)
    requires |data| > 0
    requires sorted == SortedValues(data)
    ensures |sorted| == |data|
    ensures IsLeast(sorted[0], data) && IsGreatest(sorted[|sorted| - 1], data)
    ensures Ascending(sorted)
  {
    SortedValuesSorts(data);
    assert |sorted| == |multiset(sorted)| == |data|;
    assert sorted[0] in multiset(sorted);
    assert sorted[|sorted| - 1] in multiset(sorted);
    forall k | 0 <= k < |data| ensures sorted[0] <= data[k] <= sorted[|sorted| - 1] {
      assert data[k] in multiset(data);
      assert data[k] in multiset(sorted);
      var i :| 0 <= i < |sorted| && sorted[i] == data[k];
    }
  }
}
