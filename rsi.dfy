/**
  The Relative Strength Index of a closing-price series (`calculate_rsi` in main.py),
  computed over exact reals. Every series here is index-aligned with the price series;
  `None` stands for the NaN that pandas produces for 0/0.
 */
module RelativeStrength {
  import opened Wrappers
  import opened Series

  /** First difference (`data.diff()`): no prior value at index 0, so that entry is NaN. */
  function Deltas(p: seq<real>): (d: seq<Option<real>>)
    ensures |d| == |p|
    ensures |p| > 0 ==> d[0].None?
    ensures forall i :: 1 <= i < |p| ==> d[i].Some?
  {
    seq(|p|, i requires 0 <= i < |p| => if i == 0 then None else Some(p[i] - p[i - 1]))
  }

  /** `delta.where(delta > 0, 0).fillna(0)` on one entry; NaN > 0 is false, so NaN gives 0. */
  function Gain(delta: Option<real>): (r: real)
    ensures r >= 0.0
    ensures r > 0.0 ==> delta == Some(r)
  {
    match delta
    case Some(x) => if x > 0.0 then x else 0.0
    case None => 0.0
  }

  /** `(-delta.where(delta < 0, 0)).fillna(0)` on one entry. */
  function Loss(delta: Option<real>): (r: real)
    ensures r >= 0.0
    ensures r > 0.0 ==> delta == Some(-r)
  {
    match delta
    case Some(x) => if x < 0.0 then -x else 0.0
    case None => 0.0
  }

  /** The gain series, index-aligned with the prices. */
  function Gains(p: seq<real>): (g: seq<real>)
    ensures |g| == |p|
    ensures forall i :: 0 <= i < |p| ==> g[i] >= 0.0
  {
    var d := Deltas(p);
    seq(|p|, i requires 0 <= i < |p| => Gain(d[i]))
  }

  /** The loss series, index-aligned with the prices. */
  function Losses(p: seq<real>): (l: seq<real>)
    ensures |l| == |p|
    ensures forall i :: 0 <= i < |p| ==> l[i] >= 0.0
  {
    var d := Deltas(p);
    seq(|p|, i requires 0 <= i < |p| => Loss(d[i]))
  }

  /** First index of the trailing window of `w` samples ending at `i`: max(0, i - w + 1). */
  function WindowStart(i: nat, w: nat): (s: nat)
    requires w >= 1
    ensures s <= i
    ensures i + 1 - s == if i + 1 < w then i + 1 else w
  {
    if i + 1 >= w then i + 1 - w else 0
  }

  /**
    `rolling(window=w, min_periods=1).mean()`: at each index, the mean of the samples of the
    trailing window that exist, divided by how many exist.
   */
  function RollingMean(xs: seq<real>, w: nat): (r: seq<real>)
    requires w >= 1
    ensures |r| == |xs|
  {
    seq(|xs|, i requires 0 <= i < |xs| =>
      Sum(xs[WindowStart(i, w)..i + 1]) / ((i + 1 - WindowStart(i, w)) as real))
  }

  /** `avg_gain`: the rolling mean of the gains, one per price. */
  function AvgGains(p: seq<real>, w: nat): (a: seq<real>)
    requires w >= 1
    ensures |a| == |p|
  {
    RollingMean(Gains(p), w)
  }

  /** `avg_loss`: the rolling mean of the losses, one per price. */
  function AvgLosses(p: seq<real>, w: nat): (a: seq<real>)
    requires w >= 1
    ensures |a| == |p|
  {
    RollingMean(Losses(p), w)
  }

  /**
    `100 - 100 / (1 + avg_gain / avg_loss)` for one position. A zero average loss makes RS
    +infinity (RSI 100) when the average gain is positive, and 0/0 (NaN) when it is zero.
   */
  function RsiValue(avgGain: real, avgLoss: real): (r: Option<real>)
    requires avgGain >= 0.0 && avgLoss >= 0.0
    ensures r.None? <==> avgGain == 0.0 && avgLoss == 0.0
    ensures avgLoss == 0.0 && avgGain > 0.0 ==> r == Some(100.0)
  {
    if avgLoss == 0.0 then
      if avgGain == 0.0 then None else Some(100.0)
    else
      Some(100.0 - 100.0 / (1.0 + avgGain / avgLoss))
  }

  /** calculate_rsi(data, window): one (possibly undefined) RSI value per price. */
  function Rsi(p: seq<real>, w: nat): (r: seq<Option<real>>)
    requires w >= 1
    ensures |r| == |p|
  {
    var ag := AvgGains(p, w);
    var al := AvgLosses(p, w);
    GainsNonNegative(p);
    LossesNonNegative(p);
    RollingMeanNonNegative(Gains(p), w);
    RollingMeanNonNegative(Losses(p), w);
    seq(|p|, i requires 0 <= i < |p| => RsiValue(ag[i], al[i]))
  }

  // ---------------------------------------------------------------------------------------
  // Gains and losses

  lemma GainsNonNegative(p: seq<real>)
    ensures AllNonNegative(Gains(p))
  {
  }

  lemma LossesNonNegative(p: seq<real>)
    ensures AllNonNegative(Losses(p))
  {
  }

  /**
    Each price change is split into a non-negative gain and a non-negative loss whose
    difference is the change, at most one of them non-zero; index 0 has neither.
   */
  lemma GainLossSplit(p: seq<real>, i: nat)
    requires i < |p|
    ensures Gains(p)[i] >= 0.0 && Losses(p)[i] >= 0.0
    ensures Gains(p)[i] == 0.0 || Losses(p)[i] == 0.0
    ensures i == 0 ==> Gains(p)[i] == 0.0 && Losses(p)[i] == 0.0
    ensures i >= 1 ==> Gains(p)[i] - Losses(p)[i] == p[i] - p[i - 1]
  {
  }

  // ---------------------------------------------------------------------------------------
  // Rolling means

  /**
    With fewer than `w` samples so far the mean is taken over the `i + 1` samples that exist
    (not padded, not NaN); from index w - 1 on it is over exactly the last `w` samples.
   */
  lemma RollingMeanAt(xs: seq<real>, w: nat, i: nat)
    requires w >= 1 && i < |xs|
    ensures i + 1 < w ==> RollingMean(xs, w)[i] == Sum(xs[..i + 1]) / ((i + 1) as real)
    ensures i + 1 >= w ==> RollingMean(xs, w)[i] == Sum(xs[i + 1 - w..i + 1]) / (w as real)
    ensures i == 0 ==> RollingMean(xs, w)[i] == xs[0]
  {
    if i == 0 {
      assert xs[0..1] == [xs[0]];
      assert Sum(xs[0..1]) == xs[0] + Sum([]);
    }
  }

  /** The mean of a window of non-negative samples is non-negative, and zero exactly when every sample of the window is. */
  lemma RollingMeanZeroIff(xs: seq<real>, w: nat, i: nat)
    requires w >= 1 && i < |xs|
    requires AllNonNegative(xs)
    ensures RollingMean(xs, w)[i] >= 0.0
    ensures RollingMean(xs, w)[i] == 0.0 <==> forall k :: WindowStart(i, w) <= k <= i ==> xs[k] == 0.0
  {
    var s := WindowStart(i, w);
    var win := xs[s..i + 1];
    assert forall k :: 0 <= k < |win| ==> win[k] == xs[s + k];
    SumNonNegative(win);
    var n := (i + 1 - s) as real;
    assert n > 0.0;
    assert RollingMean(xs, w)[i] == Sum(win) / n;
    if forall k :: s <= k <= i ==> xs[k] == 0.0 {
      assert AllZero(win);
    }
    if AllZero(win) {
      forall k | s <= k <= i ensures xs[k] == 0.0 {
        assert xs[k] == win[k - s];
      }
    }
  }

  lemma RollingMeanNonNegative(xs: seq<real>, w: nat)
    requires w >= 1
    requires AllNonNegative(xs)
    ensures forall i :: 0 <= i < |xs| ==> RollingMean(xs, w)[i] >= 0.0
  {
    forall i | 0 <= i < |xs| ensures RollingMean(xs, w)[i] >= 0.0 {
      RollingMeanZeroIff(xs, w, i);
    }
  }

  // ---------------------------------------------------------------------------------------
  // One RSI value

  /**
    A defined RSI lies in [0, 100]; it is undefined exactly for 0/0, exactly 100 when
    only gains are present, exactly 0 when only losses are, and otherwise
    100 * gain / (gain + loss).
   */
  lemma RsiValueProperties(g: real, l: real)
    requires g >= 0.0 && l >= 0.0
    ensures RsiValue(g, l).None? <==> g == 0.0 && l == 0.0
    ensures RsiValue(g, l).Some? ==> 0.0 <= RsiValue(g, l).value <= 100.0
    ensures RsiValue(g, l) == Some(100.0) <==> l == 0.0 && g > 0.0
    ensures RsiValue(g, l) == Some(0.0) <==> g == 0.0 && l > 0.0
    ensures l > 0.0 ==> RsiValue(g, l) == Some(100.0 * g / (g + l))
  {
    if l > 0.0 {
      RsiClosedForm(g, l);
      var r := 100.0 * g / (g + l);
      assert r == 100.0 * (g / (g + l));
      assert 0.0 <= g / (g + l) <= 1.0;
      assert g / (g + l) == 1.0 ==> g == g + l;
    }
  }

  /** For a positive average loss, 100 - 100 / (1 + g / l) is 100 * g / (g + l). */
  lemma RsiClosedForm(g: real, l: real)
    requires g >= 0.0 && l > 0.0
    ensures 100.0 - 100.0 / (1.0 + g / l) == 100.0 * g / (g + l)
  {
    var n := g + l;
    assert 1.0 + g / l == n / l by {
      assert (g / l) * l == g;
      assert (1.0 + g / l) * l == n;
      QuotientUnique(1.0 + g / l, n, l);
    }
    var q := 100.0 / (n / l);
    assert q * (n / l) == 100.0;
    assert q == 100.0 * l / n by {
      assert (n / l) * l == n;
      assert q * n == q * ((n / l) * l) == (q * (n / l)) * l == 100.0 * l;
    }
    assert 100.0 - 100.0 * l / n == 100.0 * g / n by {
      assert (100.0 * l / n) * n == 100.0 * l;
      assert (100.0 * g / n) * n == 100.0 * g;
      assert (100.0 - 100.0 * l / n) * n == 100.0 * g;
      QuotientUnique(100.0 - 100.0 * l / n, 100.0 * g, n);
    }
  }

  /** The only x with x * b == a is a / b. */
  lemma QuotientUnique(x: real, a: real, b: real)
    requires b != 0.0 && x * b == a
    ensures x == a / b
  {
    assert (a / b) * b == a;
    assert (x - a / b) * b == 0.0;
  }

  // ---------------------------------------------------------------------------------------
  // The RSI series

  /** No price in `lo..hi` is below its predecessor. */
  ghost predicate NoDrop(p: seq<real>, lo: nat, hi: nat)
    requires hi < |p|
  {
    forall j :: lo <= j <= hi && 1 <= j ==> p[j - 1] <= p[j]
  }

  /** No price in `lo..hi` is above its predecessor. */
  ghost predicate NoRise(p: seq<real>, lo: nat, hi: nat)
    requires hi < |p|
  {
    forall j :: lo <= j <= hi && 1 <= j ==> p[j] <= p[j - 1]
  }

  /** The average loss at `i` is zero exactly when the trailing window holds no price drop. */
  lemma AvgLossZeroIff(p: seq<real>, w: nat, i: nat)
    requires w >= 1 && i < |p|
    ensures AvgLosses(p, w)[i] >= 0.0
    ensures AvgLosses(p, w)[i] == 0.0 <==> NoDrop(p, WindowStart(i, w), i)
  {
    LossesNonNegative(p);
    RollingMeanZeroIff(Losses(p), w, i);
    var s := WindowStart(i, w);
    if NoDrop(p, s, i) {
      forall k | s <= k <= i ensures Losses(p)[k] == 0.0 {
        GainLossSplit(p, k);
      }
    }
    if forall k :: s <= k <= i ==> Losses(p)[k] == 0.0 {
      forall j | s <= j <= i && 1 <= j ensures p[j - 1] <= p[j] {
        assert Losses(p)[j] == 0.0;
      }
    }
  }

  /** The average gain at `i` is zero exactly when the trailing window holds no price rise. */
  lemma AvgGainZeroIff(p: seq<real>, w: nat, i: nat)
    requires w >= 1 && i < |p|
    ensures AvgGains(p, w)[i] >= 0.0
    ensures AvgGains(p, w)[i] == 0.0 <==> NoRise(p, WindowStart(i, w), i)
  {
    GainsNonNegative(p);
    RollingMeanZeroIff(Gains(p), w, i);
    var s := WindowStart(i, w);
    if NoRise(p, s, i) {
      forall k | s <= k <= i ensures Gains(p)[k] == 0.0 {
        GainLossSplit(p, k);
      }
    }
    if forall k :: s <= k <= i ==> Gains(p)[k] == 0.0 {
      forall j | s <= j <= i && 1 <= j ensures p[j] <= p[j - 1] {
        assert Gains(p)[j] == 0.0;
      }
    }
  }

  /**
    The RSI at `i`, read off the prices of its trailing window: defined values lie in
    [0, 100]; undefined (0/0) exactly when the window is flat; exactly 100 when the window
    rises somewhere and never drops; exactly 0 when it drops somewhere and never rises.
   */
  lemma RsiCases(p: seq<real>, w: nat, i: nat)
    requires w >= 1 && i < |p|
    ensures Rsi(p, w)[i].Some? ==> 0.0 <= Rsi(p, w)[i].value <= 100.0
    ensures Rsi(p, w)[i].None? <==> NoRise(p, WindowStart(i, w), i) && NoDrop(p, WindowStart(i, w), i)
    ensures Rsi(p, w)[i] == Some(100.0) <==> NoDrop(p, WindowStart(i, w), i) && !NoRise(p, WindowStart(i, w), i)
    ensures Rsi(p, w)[i] == Some(0.0) <==> NoRise(p, WindowStart(i, w), i) && !NoDrop(p, WindowStart(i, w), i)
  {
    AvgGainZeroIff(p, w, i);
    AvgLossZeroIff(p, w, i);
    var g, l := AvgGains(p, w)[i], AvgLosses(p, w)[i];
    assert Rsi(p, w)[i] == RsiValue(g, l);
    RsiValueProperties(g, l);
  }

  /** Index 0 has neither gain nor loss, so its RSI is always 0/0. */
  lemma RsiUndefinedAtStart(p: seq<real>, w: nat)
    requires w >= 1 && |p| > 0
    ensures Rsi(p, w)[0] == None
  {
    RsiCases(p, w, 0);
  }

  /** A strictly increasing series has RSI 100 at every index after the first. */
  lemma RsiOfIncreasing(p: seq<real>, w: nat)
    requires w >= 1
    requires forall j :: 1 <= j < |p| ==> p[j - 1] < p[j]
    ensures forall i :: 1 <= i < |p| ==> Rsi(p, w)[i] == Some(100.0)
  {
    forall i | 1 <= i < |p| ensures Rsi(p, w)[i] == Some(100.0) {
      RsiCases(p, w, i);
      assert !NoRise(p, WindowStart(i, w), i) by { assert p[i - 1] < p[i]; }
    }
  }

  /** A strictly decreasing series has RSI 0 at every index after the first. */
  lemma RsiOfDecreasing(p: seq<real>, w: nat)
    requires w >= 1
    requires forall j :: 1 <= j < |p| ==> p[j] < p[j - 1]
    ensures forall i :: 1 <= i < |p| ==> Rsi(p, w)[i] == Some(0.0)
  {
    forall i | 1 <= i < |p| ensures Rsi(p, w)[i] == Some(0.0) {
      RsiCases(p, w, i);
      assert !NoDrop(p, WindowStart(i, w), i) by { assert p[i] < p[i - 1]; }
    }
  }

  /** A constant series has an undefined RSI everywhere. */
  lemma RsiOfConstant(p: seq<real>, w: nat)
    requires w >= 1
    requires forall j :: 1 <= j < |p| ==> p[j] == p[j - 1]
    ensures forall i :: 0 <= i < |p| ==> Rsi(p, w)[i] == None
  {
    forall i | 0 <= i < |p| ensures Rsi(p, w)[i] == None {
      RsiCases(p, w, i);
    }
  }

  /** The RSI at `i` depends on the prices at indices 0..i only. */
  lemma RsiCausal(p: seq<real>, q: seq<real>, w: nat, i: nat)
    requires w >= 1 && i < |p| && i < |q|
    requires p[..i + 1] == q[..i + 1]
    ensures Rsi(p, w)[i] == Rsi(q, w)[i]
  {
    var s := WindowStart(i, w);
    forall k | 0 <= k <= i ensures Gains(p)[k] == Gains(q)[k] && Losses(p)[k] == Losses(q)[k] {
      assert p[k] == p[..i + 1][k] == q[..i + 1][k] == q[k];
      if k >= 1 {
        assert p[k - 1] == p[..i + 1][k - 1] == q[..i + 1][k - 1] == q[k - 1];
      }
    }
    assert Gains(p)[s..i + 1] == Gains(q)[s..i + 1];
    assert Losses(p)[s..i + 1] == Losses(q)[s..i + 1];
  }
}
