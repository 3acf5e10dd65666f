# EMA crossover alert: a Dafny model

The script `ema_check.py` runs once per invocation. For each configured trading
symbol it fetches recent candles and computes a 9-span and a 26-span exponential
moving average (EMA) of the close prices. It then looks at the last two candles:
if the 9-EMA has just crossed above the 26-EMA it sends a bullish alert, if it has
just crossed below it sends a bearish alert, and otherwise it logs "no cross".

This project models two things:

- `crossover.dfy`, module `Crossover`: the cross classifier. It is a pure function
  `Classify(short, long)` over two series of abstract `real` averages with at least
  two points each, returning `Bullish`, `Bearish` or `NoCross`. It is specified
  against an independent reading of each candle: whether the short average is
  below, level with, or above the long one. Lemmas state the script's rule in its
  own comparisons, the treatment of ties, the mirror symmetry between the two
  series, and that only the last two points are read.
- `driver.dfy`, module `Driver`: the per-symbol loop of `main` and the error
  handling of `check_symbol`. The fetch and the EMA computation become one given
  response per symbol: `Ok(short, long)` or `Err`. `Process` is the specification
  of a whole run as a function. `Run` is the loop, proved equal to it. `Alerts`
  gives the notifications a run sends.
  - A failed fetch is caught, so that symbol is skipped and the run goes on.
  - A series shorter than two points makes the indexing of the last two candles
    fail. That indexing sits outside the `try`, so the error ends the whole run.
    The model records this as an `IndexError` report, and the run stops there.

## Model

| member | source | states |
|---|---|---|
| Crossover.Classify | ema_check.py:46-58 | bullish exactly when the short EMA is strictly above now and was not strictly above one candle earlier; bearish exactly when strictly below now and not strictly below before; no cross exactly when level now or on the same side at both candles |
| Crossover.BullishExactly | ema_check.py:49-52 | bullish if and only if `ema9_now > ema26_now` and `ema9_prev <= ema26_prev` |
| Crossover.BearishExactly | ema_check.py:49-56 | bearish if and only if `ema9_now < ema26_now` and `ema9_prev >= ema26_prev`, whatever the order of the two tests |
| Crossover.LevelNowIsNoCross | ema_check.py:49-58 | equal averages at the latest candle give no cross, whatever the previous candle |
| Crossover.LeavingLevelIsCross | ema_check.py:49-56 | from exact equality one candle earlier, strictly above now is bullish and strictly below now is bearish |
| Crossover.SameSideIsNoCross | ema_check.py:49-58 | the short EMA on the same side of the long one at both candles gives no cross |
| Crossover.SwapMirrors | ema_check.py:49-56 | exchanging the two series turns bullish into bearish and bearish into bullish, and keeps no cross |
| Crossover.OnlyLastTwoMatter | ema_check.py:46-47 | two pairs of series that agree on their last two points classify the same |
| Crossover.HistoryIgnored | ema_check.py:46-47 | prepending earlier values to either series never changes the result |
| Crossover.SampleWindows | ema_check.py:49-58 | (9,10) then (11,10) is bullish; (11,10) then (9,10) is bearish; (10,10) then (11,12) is bearish |
| Driver.Check | ema_check.py:35-58 | a failed fetch is skipped; a series with fewer than two points fails on indexing; otherwise the symbol gets the classifier's signal |
| Driver.Process | ema_check.py:35-62 | one report per symbol checked, in configuration order, each equal to that symbol's check; no index failure before the last report; the run stops early only right after an index failure |
| Driver.AbortIsFinal | ema_check.py:46-62 | once an index failure has ended the run, the later symbols add nothing |
| Driver.Run | ema_check.py:60-62 | the loop over the symbols produces exactly the reports of `Process` |
| Driver.Alerts | ema_check.py:49-56 | every alert comes from a report classified as a cross with that symbol and direction, and every such report gets its alert; a single report gives exactly its own alert or none |
| Driver.AlertsAppend | ema_check.py:49-62 | the alerts of consecutive stretches of reports are concatenated in report order, so each crossing report gives exactly one alert, in order |
| Driver.NoSymbolsNoWork | ema_check.py:60-62 | no symbols means no reports and no alerts |
| Driver.AllReadableCompletes | ema_check.py:36-40 | when no series is too short, every symbol gets exactly one report in order, and it is a skip exactly when its fetch failed |
| Driver.FailedFetchIsSkipped | ema_check.py:36-40 | a failed fetch is reported as skipped, and the next symbol is still checked |
| Driver.AlertsComeFromCrosses | ema_check.py:49-56 | every alert of a run names a symbol whose fetch succeeded and whose averages crossed in that direction |
| Driver.CrossesAreAlerted | ema_check.py:49-56 | a cross found for a symbol reached by the run is alerted with that symbol and direction |
| Driver.AlertSymbolsDistinct | ema_check.py:49-56 | reports for pairwise different symbols give alerts for pairwise different symbols |
| Driver.AtMostOneAlertPerSymbol | ema_check.py:49-62 | with no symbol configured twice, no two alerts of a run name the same symbol, and there are never more alerts than symbols |

Two points about the code that a reader might not expect:

- The window (10,10) then (11,12) is a bearish cross by the code's comparisons
  (11 < 12 and 10 >= 10), although the long average was never exceeded: leaving
  a tie to strictly below counts. `Crossover.SampleWindows` states this.
- The code reads a single `interval` from the configuration and loops over the
  symbols only.

## Left out

- EMA computation (`ewm(span=…, adjust=False).mean()`): a floating-point library call. The averages are given inputs, as exact reals, so NaN and rounding are not modelled.
- HTTP requests to the market-data and messaging services, and the DataFrame construction: all of this is I/O. A fetch is one given response per symbol. A sent alert is an `Alert` value, and a failed delivery is not modelled, because the script only logs it.
- Loading the configuration file and the startup check of the two credentials: process setup. The symbols are a parameter.
- Message text, the printed log lines and the timestamp formatting: output only.
- Lines 50 and 54 read `cfg['interval']` with no default, while line 37 defaults it to `"5m"`. With no interval key, a cross would therefore raise an uncaught `KeyError`. The configuration is not modelled, so this failure is not either.
- Nothing is deduplicated between runs: each run re-fetches and re-detects. The model describes one run, so a cross still present on the next run would be alerted again.
