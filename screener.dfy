/**
  The buy-screening pass (`get_buy_recommendations` in main.py). The ticker universe and the
  price fetch are inputs: one `Fetched` entry per ticker, in the order the ticker list gives
  them, holding the closing prices or `None` when the fetch failed or returned nothing.
 */
module Screener {
  import opened Wrappers
  import opened Series
  import opened RelativeStrength
  import opened Stats

  type Ticker = string

  /** One ticker with the closing prices its fetch returned (`None`: error or no frame). */
  datatype Fetched = Fetched(ticker: Ticker, prices: Option<seq<real>>)

  /** A buy recommendation: the ticker and its current (last) price. */
  datatype Recommendation = Recommendation(ticker: Ticker, price: real)

  /**
    `prices.iloc[-1]` on an empty series raises IndexError, which nothing in the screening
    pass catches: the whole pass ends with that error.
   */
  datatype ScreenError = EmptySeries(ticker: Ticker)

  const RsiWindow: nat := 5
  const StdDevMultiplier: real := 0.4
  const RsiThreshold: real := 30.0

  function Last(p: seq<real>): real
    requires |p| > 0
  {
    p[|p| - 1]
  }

  /**
    `price < mean - std * 0.4` without a square root: the gap below the mean is positive and
    its square exceeds 0.4^2 times the variance (see BandEquivalence). A NaN std (fewer
    than two prices) makes the comparison false.
   */
  predicate BelowBand(price: real, mean: real, variance: Option<real>)
    ensures BelowBand(price, mean, variance) ==> variance.Some? && price < mean
  {
    match variance
    case None => false
    case Some(v) =>
      mean - price > 0.0 && (mean - price) * (mean - price) > StdDevMultiplier * StdDevMultiplier * v
  }

  /** `current_rsi < 30`; a NaN RSI compares false. */
  predicate BelowRsiThreshold(rsi: Option<real>)
  {
    rsi.Some? && rsi.value < RsiThreshold
  }

  /** The joint condition on one non-empty price series. */
  predicate Qualifies(p: seq<real>)
    requires |p| > 0
  {
    BelowBand(Last(p), Mean(p), SampleVariance(p)) && BelowRsiThreshold(Rsi(p, RsiWindow)[|p| - 1])
  }

  /** The fetched entry is present, non-empty and qualifies. */
  predicate Recommended(f: Fetched)
  {
    f.prices.Some? && |f.prices.value| > 0 && Qualifies(f.prices.value)
  }

  /** What one ticker contributes to the pass: nothing, one recommendation, or the IndexError. */
  function Step(f: Fetched): (r: Result<seq<Recommendation>, ScreenError>)
    ensures r.Failure? <==> f.prices == Some([])
    ensures r.Success? ==>
      r.value == [] || (f.prices.Some? && |f.prices.value| > 0 &&
                        r.value == [Recommendation(f.ticker, Last(f.prices.value))])
  {
    match f.prices
    case None => Success([])
    case Some(p) =>
      if |p| == 0 then Failure(EmptySeries(f.ticker))
      else if Qualifies(p) then Success([Recommendation(f.ticker, Last(p))])
      else Success([])
  }

  /** Sequential composition of two parts of the pass: the first error ends it. */
  function Join(x: Result<seq<Recommendation>, ScreenError>, y: Result<seq<Recommendation>, ScreenError>)
    : Result<seq<Recommendation>, ScreenError>
  {
    match x
    case Failure(e) => Failure(e)
    case Success(xs) =>
      match y
      case Failure(e) => Failure(e)
      case Success(ys) => Success(xs + ys)
  }

  /** The outcome of screening `fs` in order: the specification of GetBuyRecommendations. */
  function Screen(fs: seq<Fetched>): (r: Result<seq<Recommendation>, ScreenError>)
  {
    if fs == [] then Success([]) else Join(Screen(fs[..|fs| - 1]), Step(fs[|fs| - 1]))
  }

  /**
    get_buy_recommendations: walk the tickers in order, skip failed fetches, and append
    (ticker, last price) for each series below the band whose last RSI is below 30.
   */
  method GetBuyRecommendations(fs: seq<Fetched>) returns (r: Result<seq<Recommendation>, ScreenError>)
    ensures r == Screen(fs)
  {
    var recommendations: seq<Recommendation> := [];
    var i := 0;
    while i < |fs|
      invariant 0 <= i <= |fs|
      invariant Screen(fs[..i]) == Success(recommendations)
    {
      var f := fs[i];
      assert fs[..i + 1][..i] == fs[..i] && fs[..i + 1][i] == f;
      assert Screen(fs[..i + 1]) == Join(Success(recommendations), Step(f));
      match f.prices {
        case None =>
          assert recommendations + [] == recommendations;
        case Some(prices) =>
          if |prices| == 0 {
            EmptySeriesEndsPass(fs, i);
            return Failure(EmptySeries(f.ticker));
          }
          var currentPrice := prices[|prices| - 1];
          var movingAverage := Mean(prices);
          var variance := SampleVariance(prices);
          var rsiValues := Rsi(prices, RsiWindow);
          var currentRsi := rsiValues[|prices| - 1];
          if BelowBand(currentPrice, movingAverage, variance) && BelowRsiThreshold(currentRsi) {
            assert Qualifies(prices);
            recommendations := recommendations + [Recommendation(f.ticker, currentPrice)];
          } else {
            assert !Qualifies(prices);
            assert recommendations + [] == recommendations;
          }
      }
      i := i + 1;
    }
    assert fs[..|fs|] == fs;
    r := Success(recommendations);
  }

  // ---------------------------------------------------------------------------------------
  // The screening rule on one ticker

  /**
    The squared comparison is the source's comparison: for the standard deviation s of
    variance v, price < mean - s * 0.4 holds exactly when BelowBand does.
   */
  lemma BandEquivalence(price: real, mean: real, v: real, s: real)
    requires IsSquareRoot(s, v)
    ensures price < mean - s * StdDevMultiplier <==> BelowBand(price, mean, Some(v))
  {
    var d := mean - price;
    var t := s * StdDevMultiplier;
    assert t >= 0.0;
    assert t * t == StdDevMultiplier * StdDevMultiplier * v;
    if d > t {
      SquareStrictlyMonotonic(t, d);
    }
    if d > 0.0 && d <= t {
      SquareMonotonic(d, t);
    }
  }

  lemma SquareStrictlyMonotonic(a: real, b: real)
    requires 0.0 <= a < b
    ensures a * a < b * b
  {
    assert b * (b - a) > 0.0;
    assert a * (b - a) >= 0.0;
    assert b * b - a * a == b * (b - a) + a * (b - a);
  }

  lemma SquareMonotonic(a: real, b: real)
    requires 0.0 <= a <= b
    ensures a * a <= b * b
  {
    assert b * (b - a) >= 0.0;
    assert a * (b - a) >= 0.0;
    assert b * b - a * a == b * (b - a) + a * (b - a);
  }

  /**
    The joint condition as the source writes it: with s the standard deviation of a series of
    two or more prices, it qualifies exactly when its last price is below mean - s * 0.4 and
    its last RSI (window 5) is defined and below 30.
   */
  lemma QualifiesIff(p: seq<real>, s: real)
    requires |p| >= 2 && IsSquareRoot(s, SampleVariance(p).value)
    ensures Qualifies(p) <==>
      && Last(p) < Mean(p) - s * StdDevMultiplier
      && Rsi(p, RsiWindow)[|p| - 1].Some?
      && Rsi(p, RsiWindow)[|p| - 1].value < RsiThreshold
  {
    BandEquivalence(Last(p), Mean(p), SampleVariance(p).value, s);
  }

  /** A single price has a NaN std and a 0/0 RSI, so it never qualifies. */
  lemma SinglePriceNeverQualifies(p: seq<real>)
    requires |p| == 1
    ensures !Qualifies(p)
  {
    RsiUndefinedAtStart(p, RsiWindow);
  }

  /**
    A qualifying series has at least two prices, its last price is below its mean, and its
    trailing RSI window holds at least one price drop (a window with no drop has RSI 100 or none).
   */
  lemma QualifiesNeedsRecentDrop(p: seq<real>)
    requires |p| > 0 && Qualifies(p)
    ensures |p| >= 2
    ensures Last(p) < Mean(p)
    ensures !NoDrop(p, WindowStart(|p| - 1, RsiWindow), |p| - 1)
  {
    RsiCases(p, RsiWindow, |p| - 1);
  }

  /**
    A constant series is never recommended: its std is 0, so the threshold equals the mean,
    which equals the last price.
   */
  lemma ConstantNeverQualifies(p: seq<real>, c: real)
    requires |p| > 0
    requires forall k :: 0 <= k < |p| ==> p[k] == c
    ensures !Qualifies(p)
  {
    StatsOfConstant(p, c);
    assert Last(p) == Mean(p);
  }

  // ---------------------------------------------------------------------------------------
  // The screening pass over many tickers

  /** Screening a concatenation screens the parts one after the other. */
  lemma {:induction false} ScreenAppend(a: seq<Fetched>, b: seq<Fetched>)
    ensures Screen(a + b) == Join(Screen(a), Screen(b))
    decreases |b|
  {
    if b == [] {
      assert a + b == a;
      match Screen(a) {
        case Failure(e) =>
        case Success(xs) => assert xs + [] == xs;
      }
    } else {
      var init := b[..|b| - 1];
      var x := b[|b| - 1];
      assert (a + b)[..|a + b| - 1] == a + init;
      assert (a + b)[|a + b| - 1] == x;
      ScreenAppend(a, init);
      match Screen(a) {
        case Failure(e) =>
        case Success(xs) =>
          match Screen(init) {
            case Failure(e) =>
            case Success(ys) =>
              match Step(x) {
                case Failure(e) =>
                case Success(zs) => assert (xs + ys) + zs == xs + (ys + zs);
              }
          }
      }
    }
  }

  /** An empty series ends a pass that has completed so far with the IndexError for its ticker. */
  lemma EmptySeriesEndsPass(fs: seq<Fetched>, i: nat)
    requires i < |fs| && Screen(fs[..i]).Success? && fs[i].prices == Some([])
    ensures Screen(fs) == Failure(EmptySeries(fs[i].ticker))
  {
    EmptySeriesFailsPrefix(fs, i);
    ScreenStopsAtFailure(fs, i + 1);
  }

  lemma EmptySeriesFailsPrefix(fs: seq<Fetched>, i: nat)
    requires i < |fs| && Screen(fs[..i]).Success? && fs[i].prices == Some([])
    ensures Screen(fs[..i + 1]) == Failure(EmptySeries(fs[i].ticker))
  {
    var done := fs[..i + 1];
    assert done[..i] == fs[..i] && done[i] == fs[i];
    assert Step(fs[i]) == Failure(EmptySeries(fs[i].ticker));
  }

  /** Once the pass has failed, later tickers do not change its outcome. */
  lemma ScreenStopsAtFailure(fs: seq<Fetched>, n: nat)
    requires n <= |fs| && Screen(fs[..n]).Failure?
    ensures Screen(fs) == Screen(fs[..n])
  {
    ScreenAppend(fs[..n], fs[n..]);
    assert fs[..n] + fs[n..] == fs;
  }

  /** A ticker whose fetch failed is skipped without affecting the others. */
  lemma ScreenSkipsMissing(a: seq<Fetched>, t: Ticker, b: seq<Fetched>)
    ensures Screen(a + [Fetched(t, None)] + b) == Screen(a + b)
  {
    ScreenAppend(a + [Fetched(t, None)], b);
    ScreenAppend(a, [Fetched(t, None)]);
    ScreenAppend(a, b);
    assert Screen([Fetched(t, None)]) == Success([]) by {
      assert [Fetched(t, None)][..0] == [];
    }
    match Screen(a) {
      case Failure(e) =>
      case Success(xs) => assert xs + [] == xs;
    }
  }

  /** Screening one ticker is that ticker's step. */
  lemma ScreenSingle(f: Fetched)
    ensures Screen([f]) == Step(f)
  {
    assert [f][..0] == [];
    match Step(f) {
      case Failure(e) =>
      case Success(xs) => assert [] + xs == xs;
    }
  }

  /** What a completed step contributes: one recommendation exactly when the ticker qualifies. */
  lemma StepValue(f: Fetched)
    requires Step(f).Success?
    ensures Step(f).value == if Recommended(f) then [Recommendation(f.ticker, Last(f.prices.value))] else []
  {
  }

  /** The pass completes exactly when no fetched series is empty. */
  lemma {:induction false} ScreenSucceedsIff(fs: seq<Fetched>)
    ensures Screen(fs).Success? <==> forall k :: 0 <= k < |fs| ==> fs[k].prices != Some([])
    decreases |fs|
  {
    if fs != [] {
      var init := fs[..|fs| - 1];
      ScreenSucceedsIff(init);
      assert forall k :: 0 <= k < |init| ==> init[k] == fs[k];
    }
  }

  /** A failed pass fails at the first empty series, naming its ticker. */
  lemma {:induction false} ScreenFailsAtFirstEmpty(fs: seq<Fetched>) returns (k: nat)
    requires Screen(fs).Failure?
    ensures k < |fs| && fs[k].prices == Some([])
    ensures Screen(fs) == Failure(EmptySeries(fs[k].ticker))
    ensures forall j :: 0 <= j < k ==> fs[j].prices != Some([])
    decreases |fs|
  {
    var init := fs[..|fs| - 1];
    assert forall j :: 0 <= j < |init| ==> init[j] == fs[j];
    if Screen(init).Failure? {
      k := ScreenFailsAtFirstEmpty(init);
    } else {
      k := |fs| - 1;
      ScreenSucceedsIff(init);
    }
  }

  /** The positions of the input whose ticker qualifies, in increasing order. */
  ghost function RecommendedPositions(fs: seq<Fetched>): seq<nat>
  {
    if fs == [] then []
    else RecommendedPositions(fs[..|fs| - 1]) + (if Recommended(fs[|fs| - 1]) then [|fs| - 1] else [])
  }

  /**
    RecommendedPositions lists, in strictly increasing order, positions of qualifying
    tickers, and every qualifying position is listed.
   */
  lemma {:induction false} RecommendedPositionsExact(fs: seq<Fetched>)
    ensures forall j :: 0 <= j < |RecommendedPositions(fs)| ==>
              RecommendedPositions(fs)[j] < |fs| && Recommended(fs[RecommendedPositions(fs)[j]])
    ensures forall j, j' :: 0 <= j < j' < |RecommendedPositions(fs)| ==>
              RecommendedPositions(fs)[j] < RecommendedPositions(fs)[j']
    ensures forall k :: 0 <= k < |fs| && Recommended(fs[k]) ==>
              exists j :: 0 <= j < |RecommendedPositions(fs)| && RecommendedPositions(fs)[j] == k
    decreases |fs|
  {
    if fs != [] {
      var init := fs[..|fs| - 1];
      var prev := RecommendedPositions(init);
      var idx := RecommendedPositions(fs);
      RecommendedPositionsExact(init);
      assert forall j :: 0 <= j < |init| ==> init[j] == fs[j];
      assert forall j :: 0 <= j < |prev| ==> idx[j] == prev[j];
      forall k | 0 <= k < |fs| && Recommended(fs[k]) ensures exists j :: 0 <= j < |idx| && idx[j] == k {
        if k < |init| {
          assert Recommended(init[k]);
          var j :| 0 <= j < |prev| && prev[j] == k;
          assert idx[j] == k;
        } else {
          assert idx[|prev|] == k;
        }
      }
    }
  }

  /**
    A completed pass recommends exactly the qualifying tickers, in input order, each with
    the last price of its own series: entry j comes from position RecommendedPositions(fs)[j].
   */
  lemma {:induction false} ScreenSelects(fs: seq<Fetched>)
    requires Screen(fs).Success?
    ensures |Screen(fs).value| == |RecommendedPositions(fs)|
    ensures forall j :: 0 <= j < |Screen(fs).value| ==>
              var k := RecommendedPositions(fs)[j];
              k < |fs| && fs[k].prices.Some? && |fs[k].prices.value| > 0 &&
              Screen(fs).value[j] == Recommendation(fs[k].ticker, Last(fs[k].prices.value))
    decreases |fs|
  {
    RecommendedPositionsExact(fs);
    if fs != [] {
      var init := fs[..|fs| - 1];
      var x := fs[|fs| - 1];
      assert Screen(fs) == Join(Screen(init), Step(x));
      assert Screen(init).Success? && Step(x).Success?;
      assert forall j :: 0 <= j < |init| ==> init[j] == fs[j];
      ScreenSelects(init);
      RecommendedPositionsExact(init);
      StepValue(x);
      var prev, out := Screen(init).value, Screen(fs).value;
      assert out == prev + Step(x).value;
      forall j | 0 <= j < |out|
        ensures var k := RecommendedPositions(fs)[j];
          k < |fs| && fs[k].prices.Some? && |fs[k].prices.value| > 0 &&
          out[j] == Recommendation(fs[k].ticker, Last(fs[k].prices.value))
      {
        if j < |prev| {
          assert out[j] == prev[j];
          assert RecommendedPositions(fs)[j] == RecommendedPositions(init)[j];
        } else {
          assert RecommendedPositions(fs)[j] == |fs| - 1;
        }
      }
    }
  }
}
