# RSI-based buy recommendations — a Dafny model

The repository is a small screening script. It takes a universe of KRW-quoted
cryptocurrency tickers, fetches about 40 daily closing prices for each one and
computes two indicators per series:

- a whole-series band: the mean minus 0.4 times the sample standard deviation;
- a 5-period Relative Strength Index (RSI).

It recommends a ticker, at its last price, when that price is below the band and
the last RSI is below 30.

This project models that core over exact `real` arithmetic:

- `RelativeStrength` (rsi.dfy) is `calculate_rsi`:
  - first differences, with no difference at index 0;
  - the split into non-negative gains and losses;
  - the trailing rolling mean with `min_periods=1`;
  - RS and RSI, with the pandas division cases written out. A zero average loss with
    a positive average gain saturates at 100. A 0/0 is NaN, modelled as `None`.
- `Stats` (stats.dfy) is `prices.mean()` and the square of `prices.std()`, the sample
  variance with N - 1 denominator. With fewer than two prices it is NaN, modelled as
  `None`.
- `Screener` (screener.dfy) is `get_buy_recommendations`:
  - the method `GetBuyRecommendations` runs the source's loop over the tickers;
  - it is proved equal to the specification function `Screen`;
  - the lemmas beside it prove what the pass recommends, in which order, and when it fails.
- `Series` (series.dfy) holds the sums both indicators use. `Wrappers` (wrappers.dfy)
  holds `Option` and `Result`.
- `Scenarios` (scenarios.dfy) proves what the model gives for concrete price series.

Dafny has no square root, so `price < mean - 0.4 * std` is tested as
`mean - price > 0 && (mean - price)^2 > 0.16 * variance`.
`Screener.BandEquivalence` proves the two are the same for every non-negative `s`
with `s * s == variance`.

The ticker list and the price fetch are inputs to the model. The input is a sequence
of `Fetched(ticker, prices)` in the order the ticker list returns them. `prices` is
`None` when the fetch raised (caught inside `get_price`) or returned no frame.

Where the code and the system's specification differ, the model follows the code:

- The specification says a ticker whose fetch "returned no data" is skipped. In the code,
  only a `None` result is skipped. A series that exists but is empty reaches
  `prices.iloc[-1]`, and the `IndexError` it raises is not caught, so the whole pass
  ends. The model returns `Failure(EmptySeries(ticker))` for the first such ticker.
- The specification calls the RSI undefined wherever the average loss is zero. In the
  code it is undefined only when the average gain is zero too; with a positive average
  gain it is 100.
- The specification asks for series of length two or more. The code also accepts a single
  price: its std is NaN and its RSI is 0/0, so it is never recommended
  (`Screener.SinglePriceNeverQualifies`).
- `rolling(window=w, min_periods=1)` raises `ValueError` for a window below 1. The RSI
  functions therefore require `w >= 1`. The screener always uses 5.

## Model

| member | source | states |
|---|---|---|
| `RelativeStrength.Deltas` | main.py:10 | one difference per price; none at index 0 (the NaN of `diff`); a difference at every later index |
| `RelativeStrength.Gain` | main.py:11 | a gain is non-negative, and a positive gain is the price change itself (a missing or non-positive change gives 0) |
| `RelativeStrength.Loss` | main.py:12 | a loss is non-negative, and a positive loss is the negated price change (a missing or non-negative change gives 0) |
| `RelativeStrength.Gains` | main.py:11 | the gain series is index-aligned with the prices and non-negative everywhere |
| `RelativeStrength.Losses` | main.py:12 | the loss series is index-aligned with the prices and non-negative everywhere |
| `RelativeStrength.WindowStart` | main.py:14-15 | the window ending at i starts at or before i and holds min(i + 1, w) samples (`min_periods=1`) |
| `RelativeStrength.RollingMean` | main.py:14-15 | the rolling mean has one entry per sample (values: `RollingMeanAt`) |
| `RelativeStrength.AvgGains` | main.py:14 | the average gain series has one entry per price |
| `RelativeStrength.AvgLosses` | main.py:15 | the average loss series has one entry per price |
| `RelativeStrength.RsiValue` | main.py:17-18 | the RSI of two non-negative averages is NaN exactly when both are 0, and 100 when only the loss is 0 |
| `RelativeStrength.Rsi` | main.py:9-20 | the RSI series has one entry per price, so it is index-aligned with the input |
| `RelativeStrength.RsiCausal` | main.py:9-20 | the RSI at index i is the same for any two series that agree on prices 0..i |
| `RelativeStrength.GainLossSplit` | main.py:10-12 | gain and loss are non-negative and at most one is non-zero; both are 0 at index 0; from index 1 on, gain - loss is the price change |
| `RelativeStrength.RollingMeanAt` | main.py:14-15 | before w samples exist, the rolling mean is the sum of the i+1 available samples divided by i+1; from then on it is the last w samples over w; at index 0 it is the sample itself (not padded, not NaN) |
| `RelativeStrength.RollingMeanZeroIff` | main.py:14-15 | the rolling mean of non-negative samples is non-negative, and zero exactly when every sample in its window is zero |
| `RelativeStrength.AvgLossZeroIff` | main.py:10-15 | the average loss at i is non-negative, and zero exactly when no price in the trailing window drops |
| `RelativeStrength.AvgGainZeroIff` | main.py:10-15 | the average gain at i is non-negative, and zero exactly when no price in the trailing window rises |
| `RelativeStrength.RsiValueProperties` | main.py:17-18 | from the two averages: undefined exactly when both are 0; otherwise in [0, 100]; exactly 100 iff the loss is 0 and the gain positive; exactly 0 iff the gain is 0 and the loss positive; with a positive loss, 100*g/(g+l) |
| `RelativeStrength.RsiClosedForm` | main.py:17-18 | for a positive average loss, 100 - 100/(1 + g/l) equals 100*g/(g+l) |
| `RelativeStrength.RsiCases` | main.py:10-18 | the RSI at i read off the prices of its window: in [0, 100] when defined; undefined iff the window is flat; 100 iff it rises and never drops; 0 iff it drops and never rises |
| `RelativeStrength.RsiUndefinedAtStart` | main.py:10-18 | the RSI at index 0 is always 0/0 |
| `RelativeStrength.RsiOfIncreasing` | main.py:10-18 | a strictly increasing series has RSI 100 at every index from 1 on |
| `RelativeStrength.RsiOfDecreasing` | main.py:10-18 | a strictly decreasing series has RSI 0 at every index from 1 on |
| `RelativeStrength.RsiOfConstant` | main.py:10-18 | a constant series has an undefined RSI at every index |
| `Stats.Mean` | main.py:41 | the mean times the number of prices is their sum |
| `Stats.SquaredDeviations` | main.py:42 | the sum of squared deviations is non-negative |
| `Stats.SampleVariance` | main.py:42 | the variance is defined exactly for two or more prices (pandas std is NaN for fewer) and is then non-negative |
| `Stats.StatsOfConstant` | main.py:41-42 | a constant series has its value as mean and, with two or more prices, variance 0 |
| `Screener.BelowBand` | main.py:44-50 | the band test holds only when the std is defined and the price is below the mean |
| `Screener.BandEquivalence` | main.py:44-50 | for the standard deviation s of v, price < mean - s*0.4 holds iff the squared test BelowBand holds |
| `Screener.QualifiesIff` | main.py:40-50 | a series of two or more prices qualifies iff its last price is below mean - 0.4*std and its last 5-period RSI is defined and below 30 |
| `Screener.SinglePriceNeverQualifies` | main.py:40-50 | a one-price series never qualifies, because its std and its RSI are NaN |
| `Screener.QualifiesNeedsRecentDrop` | main.py:40-50 | a qualifying series has two or more prices, a last price below its mean, and at least one price drop in its last RSI window |
| `Screener.ConstantNeverQualifies` | main.py:41-50 | a constant series is never recommended: std 0 puts the threshold at the mean, which is the last price |
| `Screener.Step` | main.py:39-51 | one ticker ends the pass exactly when its series is empty; otherwise it contributes nothing or the single pair (ticker, last price) |
| `Screener.GetBuyRecommendations` | main.py:34-53 | the loop's result is exactly `Screen` of the fetched tickers |
| `Screener.ScreenAppend` | main.py:35-53 | screening a concatenation screens the parts in order: results are concatenated, and the first error wins |
| `Screener.ScreenSkipsMissing` | main.py:24-39 | a ticker whose fetch failed is skipped and does not change the outcome for the others |
| `Screener.EmptySeriesEndsPass` | main.py:39-40 | an empty series ends the pass with the error for its ticker |
| `Screener.ScreenStopsAtFailure` | main.py:39-40 | once the pass has failed, later tickers do not change the outcome |
| `Screener.ScreenSucceedsIff` | main.py:39-40 | the pass completes exactly when no fetched series is empty |
| `Screener.ScreenFailsAtFirstEmpty` | main.py:39-40 | a failed pass names the ticker of the first empty series, and no earlier series is empty |
| `Screener.RecommendedPositionsExact` | main.py:36-51 | the positions listed are strictly increasing; each holds a qualifying ticker; every qualifying position is listed |
| `Screener.ScreenSelects` | main.py:36-51 | a completed pass yields one recommendation per qualifying position, in input order, each with that ticker's name and last price |
| `Scenarios.SharpDropQualifies` | main.py:40-50 | prices 10, 10, 4 qualify: mean 8, variance 12, RSI 0 |
| `Scenarios.OversoldAboveMeanExcluded` | main.py:40-50 | prices 0, 10, 10, 10, 10, 10, 9 have RSI 0 but a last price above the mean, so they do not qualify |
| `Scenarios.InsideBandExcluded` | main.py:40-50 | prices 0, 4, 4, 4, 4, 4, 3 have RSI 0 and a last price below the mean 23/7, but with variance 47/21 the price is above mean - 0.4*std, so they do not qualify |
| `Scenarios.SharpDropRecommended` | main.py:34-53 | screening the 10, 10, 4 ticker alone recommends it at 4 |
| `Scenarios.FlatNotRecommended` | main.py:34-53 | screening a 5, 5 ticker alone recommends nothing |
| `Scenarios.MixedUniverse` | main.py:34-53 | a failed fetch, a sharp drop and a flat series, screened in that order, give exactly one recommendation: the sharp drop, at its last price |

## Left out

- `pyupbit.get_tickers` and `pyupbit.get_ohlcv` (main.py:25, 32) are network calls into a foreign library, so their results are inputs. The `count=40` and `interval="day"` they are called with are not modelled.
- Exception handling and error printing in `get_price` (main.py:24-29) are modelled only as a `None` series. The message it prints is not modelled.
- The `TTLCache` memoization (main.py:2-6, 22) is a time-based performance cache. It does not change results within one run. Two entries for the same ticker in the input are screened independently.
- The console loop at the end of the script (main.py:55-57) is output only.
- IEEE-754 floating point is not modelled: no rounding in pandas' incremental rolling sums, no infinities, and no NaN propagation beyond the modelled `None` cases. The multiplier 0.4 and its square 0.16 are exact here.
- Square roots are not modelled. The std comparison is the equivalent squared comparison (`Screener.BandEquivalence`).
