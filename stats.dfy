/**
  Whole-series summary statistics of one ticker's prices: `prices.mean()` and the square of
  `prices.std()` (pandas' sample standard deviation, ddof = 1).
 */
module Stats {
  import opened Wrappers
  import opened Series

  /** Arithmetic mean of a non-empty series. */
  function Mean(p: seq<real>): (m: real)
    requires |p| > 0
    ensures m * (|p| as real) == Sum(p)
  {
    Sum(p) / (|p| as real)
  }

  /** Sum of squared deviations of the prices from `m`. */
  function SquaredDeviations(p: seq<real>, m: real): (r: real)
    ensures r >= 0.0
  {
    if p == [] then 0.0
    else
      var d := p[0] - m;
      assert d * d >= 0.0 by { if d < 0.0 { assert d * d == (-d) * (-d); } }
      d * d + SquaredDeviations(p[1..], m)
  }

  /**
    Sample variance (N - 1 denominator): the square of pandas' `std()`. With fewer than two
    prices pandas gives NaN, modelled as `None`.
   */
  function SampleVariance(p: seq<real>): (v: Option<real>)
    ensures v.Some? <==> |p| >= 2
    ensures v.Some? ==> v.value >= 0.0
  {
    if |p| < 2 then None else Some(SquaredDeviations(p, Mean(p)) / ((|p| - 1) as real))
  }

  /** `s` is a standard deviation for variance `v`: its non-negative square root. */
  ghost predicate IsSquareRoot(s: real, v: real)
  {
    s >= 0.0 && s * s == v
  }

  /** Deviations from the common value of a constant series vanish. */
  lemma {:induction false} SquaredDeviationsConstant(p: seq<real>, c: real)
    requires forall k :: 0 <= k < |p| ==> p[k] == c
    ensures SquaredDeviations(p, c) == 0.0
  {
    if p != [] {
      var tail := p[1..];
      assert forall k :: 0 <= k < |tail| ==> tail[k] == p[k + 1];
      SquaredDeviationsConstant(tail, c);
    }
  }

  /** A constant series has its value as mean and, with two or more prices, variance (so std) 0. */
  lemma StatsOfConstant(p: seq<real>, c: real)
    requires |p| > 0
    requires forall k :: 0 <= k < |p| ==> p[k] == c
    ensures Mean(p) == c
    ensures |p| >= 2 ==> SampleVariance(p) == Some(0.0)
  {
    SumConstant(p, c);
    assert Sum(p) == (|p| as real) * c;
    assert Mean(p) == c;
    SquaredDeviationsConstant(p, c);
  }
}
