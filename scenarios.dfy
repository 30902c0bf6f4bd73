/** Worked screening scenarios: what the model gives, proved, for concrete price series. */
module Scenarios {
  import opened Wrappers
  import opened Series
  import opened RelativeStrength
  import opened Stats
  import opened Screener

  /**
    A sharp final drop: the last price 4 is below mean - 0.4 * std (mean 8, variance 12)
    and the window holds only a drop, so the RSI is 0.
   */
  lemma SharpDropQualifies()
    ensures Qualifies([10.0, 10.0, 4.0])
  {
    var p := [10.0, 10.0, 4.0];
    assert Sum(p) == 24.0 by {
      assert p[1..] == [10.0, 4.0];
      assert p[1..][1..] == [4.0];
      assert p[1..][1..][1..] == [];
    }
    assert Mean(p) == 8.0;
    assert SquaredDeviations(p, 8.0) == 24.0 by {
      assert p[1..] == [10.0, 4.0];
      assert p[1..][1..] == [4.0];
      assert p[1..][1..][1..] == [];
    }
    assert SampleVariance(p) == Some(12.0);
    RsiCases(p, RsiWindow, 2);
    assert WindowStart(2, RsiWindow) == 0;
    assert !NoDrop(p, 0, 2) by { assert p[2] < p[1]; }
  }

  /**
    Falling for the whole RSI window gives RSI 0 < 30, but the last price 9 is above the
    mean 59/7, so the ticker is not recommended.
   */
  lemma OversoldAboveMeanExcluded()
    ensures !Qualifies([0.0, 10.0, 10.0, 10.0, 10.0, 10.0, 9.0])
  {
    var p := [0.0, 10.0, 10.0, 10.0, 10.0, 10.0, 9.0];
    assert Sum(p) == 59.0 by {
      assert p[1..] == [10.0, 10.0, 10.0, 10.0, 10.0, 9.0];
      assert p[1..][1..] == [10.0, 10.0, 10.0, 10.0, 9.0];
      assert p[1..][1..][1..] == [10.0, 10.0, 10.0, 9.0];
      assert p[1..][1..][1..][1..] == [10.0, 10.0, 9.0];
      assert p[1..][1..][1..][1..][1..] == [10.0, 9.0];
      assert p[1..][1..][1..][1..][1..][1..] == [9.0];
      assert p[1..][1..][1..][1..][1..][1..][1..] == [];
    }
    assert Last(p) > Mean(p);
    RsiCases(p, RsiWindow, 6);
    assert WindowStart(6, RsiWindow) == 2;
    assert !NoDrop(p, 2, 6) by { assert p[6] < p[5]; }
    assert Rsi(p, RsiWindow)[6] == Some(0.0);
  }

  /**
    The band matters: the last price 3 is below the mean 23/7 and the RSI is 0, but the
    variance is 47/21, so mean - 0.4 * std lies below 3 and the ticker is not recommended.
   */
  lemma InsideBandExcluded()
    ensures var p := [0.0, 4.0, 4.0, 4.0, 4.0, 4.0, 3.0];
      && Last(p) < Mean(p)
      && SampleVariance(p) == Some(47.0 / 21.0)
      && Rsi(p, RsiWindow)[6] == Some(0.0)
      && !Qualifies(p)
  {
    var p := [0.0, 4.0, 4.0, 4.0, 4.0, 4.0, 3.0];
    assert p[1..] == [4.0, 4.0, 4.0, 4.0, 4.0, 3.0];
    assert p[1..][1..] == [4.0, 4.0, 4.0, 4.0, 3.0];
    assert p[1..][1..][1..] == [4.0, 4.0, 4.0, 3.0];
    assert p[1..][1..][1..][1..] == [4.0, 4.0, 3.0];
    assert p[1..][1..][1..][1..][1..] == [4.0, 3.0];
    assert p[1..][1..][1..][1..][1..][1..] == [3.0];
    assert p[1..][1..][1..][1..][1..][1..][1..] == [];
    assert Sum(p) == 23.0;
    assert Mean(p) == 23.0 / 7.0;
    assert SquaredDeviations(p, 23.0 / 7.0) == 94.0 / 7.0;
    assert SampleVariance(p) == Some(47.0 / 21.0);
    RsiCases(p, RsiWindow, 6);
    assert WindowStart(6, RsiWindow) == 2;
    assert !NoDrop(p, 2, 6) by { assert p[6] < p[5]; }
    assert Rsi(p, RsiWindow)[6] == Some(0.0);
    assert !BelowBand(Last(p), Mean(p), SampleVariance(p));
  }

  /** Screening the sharp-drop ticker alone recommends it at its last price. */
  lemma SharpDropRecommended(t: Ticker)
    ensures Screen([Fetched(t, Some([10.0, 10.0, 4.0]))]) == Success([Recommendation(t, 4.0)])
  {
    var f := Fetched(t, Some([10.0, 10.0, 4.0]));
    SharpDropQualifies();
    ScreenSingle(f);
    StepValue(f);
  }

  /** Screening a flat ticker alone recommends nothing. */
  lemma FlatNotRecommended(t: Ticker)
    ensures Screen([Fetched(t, Some([5.0, 5.0]))]) == Success([])
  {
    var f := Fetched(t, Some([5.0, 5.0]));
    ConstantNeverQualifies([5.0, 5.0], 5.0);
    ScreenSingle(f);
    StepValue(f);
  }

  /**
    A failed fetch and a flat series do not stop the pass; only the ticker with the sharp
    drop is recommended, at its last price, whatever the three tickers are called.
   */
  lemma MixedUniverse(ta: Ticker, tb: Ticker, tc: Ticker)
    ensures Screen([Fetched(ta, None), Fetched(tb, Some([10.0, 10.0, 4.0])), Fetched(tc, Some([5.0, 5.0]))])
         == Success([Recommendation(tb, 4.0)])
  {
    var a, b, c := Fetched(ta, None), Fetched(tb, Some([10.0, 10.0, 4.0])), Fetched(tc, Some([5.0, 5.0]));
    var rec := Recommendation(tb, 4.0);
    SharpDropRecommended(tb);
    FlatNotRecommended(tc);
    ScreenAppend([b], [c]);
    assert [b] + [c] == [b, c];
    assert [rec] + [] == [rec];
    assert Screen([b, c]) == Success([rec]);
    ScreenSkipsMissing([], ta, [b, c]);
    assert [] + [a] + [b, c] == [a, b, c];
    assert [] + [b, c] == [b, c];
  }
}
