/**
 * Accumulations over sequences of numbers, shared by the statistics of
 * OutlierDetector and the aggregates of TimeSeriesGrouper. Each is defined
 * from the front, element by element, as the source's accumulator loops run.
 */
module Numeric {

  /** `total = 0; for value in data: total += value` */
  function Sum(s: seq<real>): real {
    if |s| == 0 then 0.0 else Sum(s[..|s| - 1]) + s[|s| - 1]
  }

  /** `variance_sum = 0; for value in data: variance_sum += (value - mean) ** 2` */
  function SquaredDeviations(s: seq<real>, mean: real): (r: real)
    ensures r >= 0.0
  {
    if |s| == 0 then 0.0
    else
      var d := s[|s| - 1] - mean;
      SquaredDeviations(s[..|s| - 1], mean) + d * d
  }

  ghost predicate IsLeast(x: real, s: seq<real>) {
    x in s && forall k :: 0 <= k < |s| ==> x <= s[k]
  }

  ghost predicate IsGreatest(x: real, s: seq<real>) {
    x in s && forall k :: 0 <= k < |s| ==> s[k] <= x
  }

  /** A sum of values that all lie in [lo, hi] lies in [n * lo, n * hi]. */
  lemma {:induction false} SumBounds(s: seq<real>, lo: real, hi: real)
    requires forall k :: 0 <= k < |s| ==> lo <= s[k] <= hi
    ensures |s| as real * lo <= Sum(s) <= |s| as real * hi
  {
    if |s| > 0 {
      var init := s[..|s| - 1];
      assert forall k :: 0 <= k < |init| ==> init[k] == s[k];
      SumBounds(init, lo, hi);
      assert |s| as real * lo == |init| as real * lo + lo;
      assert |s| as real * hi == |init| as real * hi + hi;
    }
  }

  /** The mean of values that all lie in [lo, hi] lies in [lo, hi]. */
  lemma MeanBounds(s: seq<real>, lo: real, hi: real)
    requires |s| > 0
    requires forall k :: 0 <= k < |s| ==> lo <= s[k] <= hi
    ensures lo <= Sum(s) / |s| as real <= hi
  {
    SumBounds(s, lo, hi);
    var n := |s| as real;
    assert Sum(s) / n * n == Sum(s);
  }

  /** Summing element by element: the sum of a one-longer prefix adds the next element. */
  lemma SumPrefix(s: seq<real>, k: nat)
    requires k < |s|
    ensures Sum(s[..k + 1]) == Sum(s[..k]) + s[k]
  {
    assert s[..k + 1][..k] == s[..k];
  }

  lemma SquaredDeviationsPrefix(s: seq<real>, mean: real, k: nat)
    requires k < |s|
    ensures SquaredDeviations(s[..k + 1], mean) == SquaredDeviations(s[..k], mean) + (s[k] - mean) * (s[k] - mean)
  {
    assert s[..k + 1][..k] == s[..k];
  }
}
