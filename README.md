# Drawdown metrics of a stock-analysis dashboard, in Dafny

This project models the analytic core of a small stock-analysis dashboard. The core is `finance_utils.py`. It has two parts:

- `extract_close_price` selects a ticker's closing-price column from a downloaded price table. The table has either flat columns or (field, ticker) columns.
- `compute_metrics` turns that price series into derived series and statistics.

The model covers the part of `compute_metrics` that is about order and equality:

- the return series (`pct_change().dropna()`);
- the growth of one unit (`(1 + returns).cumprod()`);
- its running peak (`cummax()`);
- the drawdown from that peak;
- the underwater-duration counter, built from `groupby(...).cumsum()`;
- the maximum drawdown and the maximum drawdown duration.

Prices are exact `real`s and counts are `nat`s. Every step is a pure function. The running scans (product, maximum, cumulative sum, reset counter) are recursive functions over sequences. Lemmas relate each one to an independent description:

- the cumulative growth telescopes to `p[i+1]/p[0]`;
- the running peak dominates every earlier value and is one of them;
- drawdown is never positive and is zero exactly at new highs;
- the grouped cumulative sum equals a counter that resets at every point that is not underwater;
- the maximum of that counter is the length of the longest underwater run.

Files and modules:

| file | module | contents |
|---|---|---|
| `series.dfy` | `PriceSeries` | `Series` (timestamps and values), `Result`/`Error`, `MaxOf`, `MinOf` |
| `extract.dfy` | `CloseExtraction` | the two table layouts and `ExtractClosePrice` |
| `scans.dfy` | `Scans` | returns, cumulative product, running maximum, drawdown |
| `duration.dfy` | `DrawdownDuration` | the grouped cumulative sum, the reset counter, runs |
| `metrics.dfy` | `Metrics` | `Analyse`, `ComputeMetrics`, the non-decreasing case, a worked example |

Choices that follow the code:

- **No missing values.** `extract_close_price` (finance_utils.py:4-8) has no `dropna`, so the model carries no missing values. Every closing price is assumed positive (`AllPositive`).
- **Errors.** The code raises pandas' `KeyError` for a missing column. With no prices it raises `IndexError` (`iloc[-1]`, line 14). With one price it raises `ZeroDivisionError` (`252 / len(returns)`, line 14). The model reports `MissingColumn` for the first case and `InsufficientData` for the other two.
- **Prices that never fall.** The zero-drawdown lemma assumes non-decreasing prices, which covers strictly increasing ones.

## Model

| member | source | states |
|---|---|---|
| `CloseExtraction.ExtractClosePrice` | finance_utils.py:4-8 | It succeeds exactly when the layout's closing-price key is present: `"Close"` for a flat table, `("Close", ticker)` for a hierarchical one. It then returns that column unchanged. Otherwise it returns `MissingColumn`. A valid table yields a valid series. |
| `CloseExtraction.ExtractReadsOnlyItsColumn` | finance_utils.py:5-6 | In a hierarchical table the result depends only on the `("Close", ticker)` column. |
| `CloseExtraction.NoFallbackToOtherTicker` | finance_utils.py:5-6 | A hierarchical table holding another ticker's closing prices still fails for a ticker it lacks. There is no fallback. |
| `Scans.PctChange` | finance_utils.py:12 | For n ≥ 1 prices it returns n − 1 returns (none for an empty series). Every growth factor 1 + r[i] is positive. |
| `Scans.PctChangeAt` | finance_utils.py:12 | Element i of the return series is p[i+1]/p[i] − 1. |
| `Scans.Returns` | finance_utils.py:12 | The return series is a valid series: timestamps and values have equal length. Its growth factors are positive. |
| `Scans.ReturnsShape` | finance_utils.py:12 | For n ≥ 2 prices the return series has n − 1 elements. Element i carries timestamp i + 1 and value p[i+1]/p[i] − 1, so the first timestamp is dropped. |
| `Scans.CumProd` | finance_utils.py:18 | The running product has one element per return. |
| `Scans.CumProdStep` | finance_utils.py:18 | Each element after the first is the previous one times 1 + r[i]. |
| `Scans.CumProdFirst` | finance_utils.py:18 | The first element is 1 + r[0]. |
| `Scans.CumProdPositive` | finance_utils.py:18 | If every growth factor is positive, every cumulative value is positive. |
| `Scans.CumProdTelescopes` | finance_utils.py:12-18 | For positive prices the cumulative return at i equals p[i+1]/p[0]. |
| `Scans.CumMax` | finance_utils.py:19 | The running maximum has one element per input. Element i is at least every input up to i. The sequence never decreases. |
| `Scans.CumMaxAttained` | finance_utils.py:19 | Element i of the running maximum equals some input at or before i. |
| `Scans.CumMaxFirst` | finance_utils.py:19 | The running maximum starts at the first cumulative return. |
| `Scans.DrawdownOf` | finance_utils.py:20 | The drawdown series has one element per cumulative return. |
| `Scans.DrawdownPoint` | finance_utils.py:20 | At each point drawdown ≤ 0. It is 0 exactly when the cumulative return equals its running maximum. |
| `Scans.DrawdownSigns` | finance_utils.py:18-20 | Every drawdown is ≤ 0. It is 0 exactly at a new high, where the value is at least every earlier value. It is 0 at the first point. |
| `Metrics.DrawdownSeries` | finance_utils.py:18-20 | The drawdown series is indexed by the return timestamps (the prices' timestamps without the first). It has one element fewer than the prices, and every value is ≤ 0. |
| `DrawdownDuration.Underwater` | finance_utils.py:23 | There is one underwater flag per drawdown value. |
| `DrawdownDuration.CumSum` | finance_utils.py:25 | The running count starts at the first count, adds one count per step, and never decreases. |
| `DrawdownDuration.GroupedCumSum` | finance_utils.py:24-26 | The grouped running total has one element per input. It is defined as the total of the values at positions ≤ i whose key equals key[i]; `DurationAt` is what is proved about it. |
| `DrawdownDuration.DurationSeries` | finance_utils.py:23-26 | The duration series, computed as the source computes it, has one element per drawdown point. |
| `DrawdownDuration.ResetCounter` | finance_utils.py:23-26 | The reference counter is 0 exactly at points that are not underwater. It is 1 on an underwater first point, and otherwise one more than at the previous point. It never exceeds index + 1. |
| `DrawdownDuration.DurationAt` | finance_utils.py:24-26 | At every index the grouped cumulative sum equals the reset counter. |
| `DrawdownDuration.DurationIsResetCounter` | finance_utils.py:23-26 | `groupby((~u).cumsum()).cumsum()` of the underwater indicator is exactly the reset counter. |
| `DrawdownDuration.DurationCounterSteps` | finance_utils.py:23-26 | In terms of drawdown values: the duration is 0 where drawdown ≥ 0 and 1 on an underwater first point. It is the previous duration + 1 where drawdown < 0. It is ≤ index + 1. |
| `DrawdownDuration.CounterIsRunLength` | finance_utils.py:23-26 | The counter at i is the length of the maximal underwater run ending at i. All points it covers are underwater, and the point before them is not (or there is none). |
| `DrawdownDuration.RunWithinCounter` | finance_utils.py:23-26 | Any underwater run ending at j is no longer than the counter at j. |
| `DrawdownDuration.MaxDurationIsLongestRun` | finance_utils.py:23-27 | The maximum of the duration series is at least the length of every underwater run, and it equals the length of some run. It is 0 exactly when no point is underwater. |
| `DrawdownDuration.OpenRunCounts` | finance_utils.py:23-27 | An underwater run that reaches the last point counts in full toward the maximum duration. |
| `PriceSeries.MaxOf` | finance_utils.py:27 | The maximum of a non-empty integer series is one of its elements and is at least all of them. |
| `PriceSeries.MinOf` | finance_utils.py:33 | The minimum of a non-empty series is one of its elements and is at most all of them. |
| `Metrics.Analyse` | finance_utils.py:18-34 | For at least two positive prices the report keeps the prices and has a drawdown series indexed by the return timestamps. Its maximum drawdown is ≤ 0, is one of the drawdowns, and is at most each of them. Its maximum duration is shorter than the drawdown series. |
| `Metrics.FirstPointDry` | finance_utils.py:20-27 | The first drawdown point is never underwater, so no duration reaches the length of the drawdown series. |
| `Metrics.AnalyseOf` | finance_utils.py:33-34 | The maximum drawdown is the minimum of the drawdown series. The maximum duration is the maximum of the duration series over its underwater flags. |
| `Metrics.AnalyseDurationIsLongestRun` | finance_utils.py:20-27 | The reported maximum duration is at least the length of every underwater run of the reported drawdown series and equals the length of one of them. It is 0 exactly when no drawdown is negative. |
| `Metrics.ComputeMetrics` | finance_utils.py:10-37 | Only the extracted closing prices need to be positive; other columns (volume, other tickers) are unconstrained. A missing closing-price column gives `MissingColumn`. When the column is present, `InsufficientData` is returned exactly when there are fewer than two prices. With at least two prices the result is `Ok` of the analysis of the extracted prices. |
| `Metrics.NonDecreasingPricesNoDrawdown` | finance_utils.py:18-34 | If prices never fall, the maximum drawdown is 0 and the maximum drawdown duration is 0. |
| `Metrics.ExampleGrowth` | finance_utils.py:12-18 | For prices 100, 110, 105, 95, 100, 120 the growth of one unit is 1.1, 1.05, 0.95, 1.0, 1.2. |
| `Metrics.ExamplePeak` | finance_utils.py:19 | The running peak of that growth is 1.1, 1.1, 1.1, 1.1, 1.2. |
| `Metrics.ExampleDrawdown` | finance_utils.py:18-20 | For prices 100, 110, 105, 95, 100, 120 the drawdowns are 0, 1.05/1.1 − 1, 0.95/1.1 − 1, 1/1.1 − 1, 0. |
| `Metrics.ExampleUnderwater` | finance_utils.py:23 | For those prices the underwater flags are false, true, true, true, false. |
| `Metrics.ExampleTrough` | finance_utils.py:33 | For the example drawdowns the minimum is 95/110 − 1, at the trough of price 95. |
| `Metrics.ExampleDurations` | finance_utils.py:24-27 | For flags false, true, true, true, false the durations are 0, 1, 2, 3, 0, and their maximum is 3. |
| `Metrics.ExampleExtracted` | finance_utils.py:10-12 | A flat table holding the example prices under `"Close"` yields their analysis, whatever ticker is asked for. |
| `Metrics.WorkedExample` | finance_utils.py:10-37 | For the example table and any ticker, the metrics are `Ok`, with maximum drawdown duration 3 and maximum drawdown 95/110 − 1. |

## Left out

- CAGR (finance_utils.py:14): a fractional real power `** (252 / len(returns))` in floating point, with no exact counterpart here. The only part modelled is its need for at least two prices, through `InsufficientData`.
- Volatility and Sharpe ratio (finance_utils.py:15-16): the sample standard deviation, `np.sqrt(252)`, and float division that gives inf or nan at zero volatility. The risk-free rate `rf` is used only by the Sharpe ratio, so `ComputeMetrics` takes no rate.
- Presentation (finance_utils.py:29-35): the scaling by 100, `round(..., 2)`, and the display labels of the metrics dictionary. The model keeps the maximum drawdown as a fraction. The maximum duration is already an integer (`nat`), which is what `int(...)` yields.
- Floating-point rounding: all arithmetic is on exact reals. This changes the duration result when a price returns exactly to its earlier peak. In floating point the cumulative return at that point can land a few units in the last place below the peak (for prices 100, 101, 96, 101 the double-precision cumulative return is 1.01 at the peak and 1.0099999999999998 on the return to 101). The program then counts the point as underwater and, since the running maximum stays at the old peak, keeps counting through every later return to that price, where the model resets to 0. The run-length lemmas (`CounterIsRunLength`, `MaxDurationIsLongestRun`) hold for any flag sequence; only the flags derived from drawdown (`Underwater`) differ.
- Non-positive, missing or non-finite closing prices: a zero price makes the source divide by zero (inf or nan), a negative one gives drawdowns without their usual meaning, and a missing one is kept as a gap. The model requires the extracted closing prices to be positive (`AllPositive`); the table's other columns are unconstrained.
- Series names: `.rename("Close")` (finance_utils.py:6) changes only the series' name, which the model does not carry.
- Timestamp ordering: the index is carried along unchanged and is not required to be increasing, since no step depends on it.
- ComputeMetrics: it merges the source's `IndexError` (no prices) and `ZeroDivisionError` (one price) into the single error `InsufficientData`, and pandas' `KeyError` into `MissingColumn`.
- app.py is not part of this model: the dashboard, its input widgets, market-data downloads, charts, the benchmark comparison and its copy of the layout branch.
