# Verified model of the ko-stocks back tester

This project is a Dafny model of the back-test position engine of `kjs_trade.py`
and of the signal helpers in `screener.py`. It proves properties of the model.

The engine reads three inputs:

- a screener table of signals: (date, ticker, cor, vrate, mapct);
- one price table per ticker: daily bars with open, high, low, close, volume,
  traded value and market capitalisation;
- one fundamentals table per date, indexed by local symbol.

The engine walks the signal dates in ascending order. A signal opens a
position at that day's close unless one of three things holds:

- the ticker is already held;
- the ticker has no price table;
- 200 tickers are already held.

An opened position gets a four-rung buy ladder. Each rung is 10% below the
previous one. The position is then run over the later bars of the ticker,
until it ends, before the next signal is looked at. On each bar the first
matching rule wins:

1. average down at the next rung;
2. take profit at 1.1 times the average;
3. stop out at the close once 600 calendar days have passed.

Each opened position appends exactly one ledger row. The row's four exit
fields are either all set or all unset.

Modules:

- `Wrappers`: `Option` and `Result`.
- `Numeric`: sums and means, plus a float value type `Value` (finite, ±inf,
  NaN) for the screener's divisions.
- `Seqs`: lists without repetitions.
- `Market`: the `Bar` record, `BarAt` (`prices.loc[date]`) and `After`
  (`prices[prices.index > date]`).
- `Strategy`: `calculate_buy_points`, `calculate_sell_point` and the running
  average.
- `Position`: the per-bar `elif` chain (`Step`) and the forward loop as a
  function (`Forward`).
- `Backtest`: `run_backtest`. It has specification functions (`Admit`,
  `ProcessSignals`, `RunDays`, `RunSpec`) and three methods with the source's
  loops (`RunBacktest` over dates, `ProcessDay` over the signals of a date,
  `SimulateForward` over the forward bars). Each method is proved equal to its
  specification function.
- `SignalFilter`: the three-threshold screening loop of `kjs_trade.py`'s main
  block.
- `Screener`: `set_signal`, `set_moving_average` and `identify_candle_signal`.
  `kjs_trade.py:34-67` holds the same three functions; they are modelled once.
- `DateFormat`: `convert_datetime_string`.

Modelling choices:

- Prices are exact reals, with no float rounding.
- Dates are calendar-day ordinals, so `duration` is a subtraction.
- `n_split` is fixed at 4, the value its one caller uses.
- The hold list and the ledger are `seq`s. The methods append to them and
  update the last row in place, as the source does.
- The engine aborts with an `Err` in two cases. A date has no fundamentals
  table (`read_sql` raises). An admitted signal's date is missing from its
  ticker's price table (`prices.loc` raises `KeyError`). Date strings in the
  source are turned into table names by `convert_datetime_string`. Two
  timestamps give the same name exactly when they fall on the same date
  (`DateFormat.DateKeyInjective`), so the model keys fundamentals by day.
- The hold list holds only tickers whose positions never closed within the
  available bars. This is because each position is simulated to its end
  before the next signal is read. `Backtest.RunLedger` states it as
  `hold == OpenTickers(rows)`. The 200 cap and the already-held check
  therefore apply only to positions that never closed.
- The time stop is 600 days. `run_backtest` records no days-since-high
  field and has no date cut-off.

## Model

| member | source | states |
|---|---|---|
| `Strategy.CalculateBuyPoints` | kjs_trade.py:82-89 | the returned list is exactly the four-rung ladder: rung 0 is the first price and each rung is 0.9 times the one before |
| `Strategy.Ladder` | kjs_trade.py:71-89 | the ladder has `n_split` = 4 rungs |
| `Strategy.RungClosedForm` | kjs_trade.py:85-87 | rung k, built by k repeated multiplications of the previous rung, equals first × `Pow(0.9, k)` with `Pow` the k-th power |
| `Strategy.LadderShape` | kjs_trade.py:82-89 | the ladder is [p, 0.9p, 0.81p, 0.729p]: rung 0 is p and rung k is rung k-1 × 0.9 |
| `Strategy.LadderStrictlyDecreasing` | kjs_trade.py:82-89 | for p > 0 the rungs are positive and strictly decreasing |
| `Strategy.AveragePriceValues` | kjs_trade.py:181 | mean of the first 1, 2, 3, 4 rungs: p, 0.95p, 2.71p/3, 0.85975p |
| `Strategy.AveragePriceFalls` | kjs_trade.py:179-182 | the next rung lies below the current average, and each fill strictly lowers a positive average |
| `Strategy.SellPoint` | kjs_trade.py:93-103 | the target lies strictly above a positive buy price |
| `Strategy.AveragePrice` | kjs_trade.py:181 | no contract of its own: `AveragePriceValues` gives its four values and `AveragePriceBounds` its bounds |
| `Strategy.AveragePriceBounds` | kjs_trade.py:181 | for a positive first price the average after `order` fills lies between the last rung bought and the first price |
| `Strategy.ProfitPct` | kjs_trade.py:187 | for a positive average, profit_pct is positive iff the exit price is above the average, and zero iff it equals it |
| `Strategy.ProfitAtTarget` | kjs_trade.py:103 | selling at `calculate_sell_point(avg)` realises exactly 10% |
| `Market.BarAt` | kjs_trade.py:144-146 | the bar found is dated on the requested day, and a bar is found iff the table has that date |
| `Market.After` | kjs_trade.py:141 | exactly the bars dated strictly after the day, and no more bars than the table has |
| `Market.AfterAll` | kjs_trade.py:141 | a table whose bars all follow the day is returned whole, in table order |
| `Market.AfterInOrder` | kjs_trade.py:141 | on a date-ascending table the result is exactly the suffix of the table after the day, so the forward loop walks later bars in date order |
| `Position.Opening` | kjs_trade.py:144-158 | the first state has order 1, average = entry close, and satisfies the position invariant |
| `Position.Step` | kjs_trade.py:177-207 | a fill happens iff order < 4 and Low < the next rung, and then order rises by exactly 1, the average falls and the target is 1.1 × the new average; otherwise take-profit iff High > target, exiting at the target with profit 0.1; otherwise time stop iff ≥ 600 days since entry, exiting at the close; duration and profit_pct are measured from the entry date and the average |
| `Position.Forward` | kjs_trade.py:176-207 | the forward loop keeps the position invariant (1 ≤ order ≤ 4, avg = mean of the first order rungs, target = 1.1 × avg); order never falls and rises at most once per bar; the average never rises |
| `Position.ForwardExit` | kjs_trade.py:186-207 | an exit happens on one of the forward bars; it is a take-profit at the final target (profit 0.1) or a time stop at that bar's close after ≥ 600 days; duration = exit day − entry day; profit_pct = (exit − avg)/avg |
| `Position.ForwardConcat` | kjs_trade.py:176-207 | running over `a + b` is running over `a` and then, only if no exit happened, over `b` from the state reached |
| `Position.NoLookahead` | kjs_trade.py:195 | bars after the exit never change the outcome (`break`) |
| `Position.TieBreakFavoursAveraging` | kjs_trade.py:179-186 | a bar with Low < next rung and High > target is an averaging event: order + 1 and no exit |
| `Position.ScenarioAverageThenTarget` | kjs_trade.py:179-195 | entry 1000; Low 850 then High 1050 gives order 2, average 950, exit at 1045 with profit 0.1 after 2 days |
| `Position.ScenarioTimeStop` | kjs_trade.py:197-207 | entry 1000 with no fill and no target hit gives an exit at day 600 at that bar's close, 980, for a profit of −0.02 |
| `Position.ScenarioUnterminated` | kjs_trade.py:176-207 | a history that ends 30 days after entry with no trigger leaves the position open with no exit |
| `Backtest.Symbol` | kjs_trade.py:151 | the symbol is the prefix of the ticker before its first '.' (the whole ticker when it has none) |
| `Backtest.Fundamental` | kjs_trade.py:153-156 | the symbol's row when it is in the table, else a row of NaNs with the table's columns |
| `Backtest.RemoveFirst` | kjs_trade.py:189 | `list.remove` of a ticker in the list: one fewer element, with exactly one occurrence of the ticker removed (as multisets) |
| `Backtest.OpenRow` | kjs_trade.py:158-174 | the appended row has all four exit fields unset, order 1 and the entry close as buy price |
| `Backtest.Settle` | kjs_trade.py:183-206 | settling an open row leaves its exit fields unset iff the position did not close, and otherwise sets all four |
| `Backtest.RemoveFirstAppended` | kjs_trade.py:189 | removing the ticker just appended to a list that lacked it restores the list |
| `Backtest.OpenTickersMembers` | kjs_trade.py:149 | a ticker is among the open tickers iff some row with all exit fields unset has it |
| `Backtest.OpenTickersAppend` | kjs_trade.py:159-174 | appending a row adds its ticker to the open tickers iff its exit fields are unset |
| `Backtest.Admit` | kjs_trade.py:133-207 | a held ticker, a ticker without prices or a full book (≥ 200) leaves the ledger unchanged; otherwise a missing entry date aborts, or exactly one row is appended for the signal's ticker and date, the old rows are untouched, and the ticker stays held iff the new row's exit fields are unset |
| `Backtest.SettledRow` | kjs_trade.py:179-207 | after simulation the row's buy price is the mean of its order rungs; the four exit fields are all set iff the position closed; a closed row's sell date is after its buy date, its duration is their difference and its profit_pct is (sell − buy)/buy, and 0.1 when sold at the target |
| `Backtest.AdmitAppended` | kjs_trade.py:144-207 | the row an admission appends is the opening row settled by the forward simulation |
| `Backtest.OpenedRow` | kjs_trade.py:144-207 | the settled opening row carries the signal's fields, the entry bar's traded value and market cap and the symbol's fundamentals; its buy price is the mean of its order rungs; its exit fields are all set iff the position closed, with the source's sell date, duration and profit_pct |
| `Backtest.AdmitRow` | kjs_trade.py:144-174 | an admitted row carries the signal's date, ticker, cor, vrate, mapct, the entry bar's traded value and market cap, and the symbol's fundamentals, and is settled as above |
| `Backtest.LedgerAppend` | kjs_trade.py:149-207 | appending a settled row for an unheld ticker below capacity, with the hold list extended exactly when the row stays open, keeps the ledger invariant |
| `Backtest.AdmitKeepsInv` | kjs_trade.py:133-207 | one admission keeps the ledger invariant: hold list = tickers of open rows, no duplicates, at most 200, exit fields all-or-nothing, 1 ≤ order ≤ 4 |
| `Backtest.OnDay` | kjs_trade.py:124 | one groupby group: exactly the signals of that date |
| `Backtest.Without` | kjs_trade.py:124 | the signals not on that date; strictly fewer when the date occurs |
| `Backtest.MinDay` | kjs_trade.py:124 | the earliest date of the table |
| `Backtest.Days` | kjs_trade.py:124 | the groupby keys: strictly ascending, and exactly the dates of the signals |
| `Backtest.ProcessSignals` | kjs_trade.py:127-207 | the signals of one date in order: a successful pass keeps every earlier row as a prefix |
| `Backtest.RunDays` | kjs_trade.py:124-207 | the dates in order: a successful run had a fundamentals table for every date, and keeps every earlier row as a prefix |
| `Backtest.RunSpec` | kjs_trade.py:122-209 | a successful run had a fundamentals table for the date of every signal |
| `Backtest.AdmitGood` | kjs_trade.py:133-207 | admitting one signal of a date keeps the ledger invariant, rows drawn from signals and in date order, only appends, and dates every row no later than that date |
| `Backtest.ProcessSignalsKeeps` | kjs_trade.py:127-207 | processing one date keeps the invariant, only appends rows, and dates every row no later than that date |
| `Backtest.RunDaysKeeps` | kjs_trade.py:124-207 | processing the remaining dates keeps the invariant and only appends rows |
| `Backtest.RunLedger` | kjs_trade.py:122-209 | a completed run's hold list is exactly the tickers of rows never closed, with no duplicates and at most 200; a ticker is held iff it has an open row; every row's exit fields are all set or all unset; every row comes from an input signal; rows are in ascending entry-date order |
| `Backtest.SimulateForward` | kjs_trade.py:176-207 | the bar loop, updating `results[-1]` in place and removing the ticker on exit, yields the settled row and the released hold list of the forward specification |
| `Backtest.ProcessDay` | kjs_trade.py:127-207 | the loop over one date's signals computes `ProcessSignals` |
| `Backtest.RunBacktest` | kjs_trade.py:107-209 | the whole run computes the rows of `RunSpec`, including its aborts |
| `Numeric.Div` | screener.py:43 | float division: the exact quotient for a non-zero divisor; for a zero divisor +inf iff the numerator is positive, −inf iff it is negative, NaN iff it is zero |
| `Screener.SetSignal` | screener.py:32-45 | one COR and one vrate value per row |
| `Screener.SetSignalColumns` | screener.py:43-44 | COR = (Close − Open)/Open; vrate is NaN on the first 59 rows and afterwards is Volume / mean of the 60 volumes ending at that row |
| `Screener.VrateScaleAt` | screener.py:44 | vrate on a row is unchanged when all volumes are scaled by a positive factor |
| `Screener.VrateScaleInvariant` | screener.py:44 | the whole vrate column is independent of the volume unit |
| `Screener.RollingMean` | screener.py:63 | `rolling(n).mean()` at a row is NaN iff fewer than n rows exist up to it; otherwise finite, and n times it is the sum of the n values ending at that row |
| `Screener.MaPct` | screener.py:63-64 | one ma{n}pct value per row |
| `Screener.MaPctColumns` | screener.py:63-64 | ma{n}pct is NaN on the first n−1 rows and afterwards (Close − ma)/ma with ma the mean of the n closes ending at that row (non-zero ma) |
| `Screener.SetMovingAverage` | screener.py:61-65 | the columns ma20pct, ma60pct and ma200pct, one value per row, are `MaPct` at 20, 60 and 200 |
| `Screener.MaPctSign` | screener.py:63-64 | a defined ma{n}pct is positive iff the close is above its n-row moving average |
| `Screener.MaPctFlat` | screener.py:63-64 | on a flat series ma{n}pct is NaN for the first n−1 rows and 0 afterwards |
| `Screener.IdentifyCandleSignal` | screener.py:48-58 | returns nothing iff no ticker has both vrate > 8 and COR > 0.03, which covers both early returns; otherwise a list without duplicates of such tickers, of length min(30, their number), holding all of them when there are at most 30 |
| `SignalFilter.ScreenDate` | kjs_trade.py:249-276 | for a date the signals are exactly the tickers with mapct < 0, vrate > 8 and cor > 0.03, each with that date's three values; the early `continue`s change nothing; the vrate or cor row lookup raises exactly when it is reached without that row |
| `SignalFilter.Collect` | kjs_trade.py:276 | `contents` is the union of the dates' signals; it fails iff some date fails, and then with the error of the first failing date |
| `SignalFilter.Screen` | kjs_trade.py:249-276 | no contract of its own: `ScreenDays`, `ScreenSound` and `ScreenComplete` state what it computes |
| `SignalFilter.ScreenDays` | kjs_trade.py:249-276 | the screening loop fails iff some date fails; otherwise it is the union of the dates' signals |
| `SignalFilter.ScreenSound` | kjs_trade.py:249-276 | every signal produced passes the three thresholds on its date and carries that date's values |
| `SignalFilter.ScreenComplete` | kjs_trade.py:249-276 | every ticker passing the three thresholds on a table date yields its signal |
| `DateFormat.ConvertDateTimeString` | kjs_trade.py:228-232 | the result is the 8 digits YYYYMMDD of the parsed year, month and day |
| `DateFormat.ConvertRender` | kjs_trade.py:228-232 | every valid timestamp's text is accepted, parses back to the same timestamp, and converts to its date key |
| `DateFormat.DateKeyInjective` | kjs_trade.py:125 | two timestamps give the same table name iff they fall on the same calendar date |
| `DateFormat.ValuePad` | kjs_trade.py:232 | printing a number with w zero-padded digits and reading it back gives the number |
| `DateFormat.PadValue` | kjs_trade.py:230 | reading a digit string and printing it zero-padded to its length gives it back |

## Left out

- SQLite access is not modelled. This covers `get_all_tables` (kjs_trade.py:7-31, screener.py:5-29) and the fundamentals `read_sql` per date; the model takes those tables as an input map. It also covers the table loads in both main blocks, including the `dfs` fill at kjs_trade.py:268-270, and screener.py's pivot and `to_sql` main block. All of this is I/O.
- `save_results_to_excel`, `to_excel` and `print` are output.
- The downloaders (data_downloader.py, fundamental.py, for_test.py, common/utils.py), the model training (analysis/feature_importance.py, analysis/tree_analysis.py, tree_analyzer.py), analysis/freq_analysis.py and analysis/candle_analyzer.py are not modelled. They are network access, library calls, plotting or Excel/SQL loading.
- Float rounding of the 0.9 and 1.1 products is not modelled: prices are exact reals. NaN inside the price bars is not modelled either; bars hold finite reals.
- Backtest.ValidPrices: every price table must have strictly ascending dates and positive closes. Distinct dates are what `prices.loc` needs: with a duplicate date it returns a frame. Ascending dates are what makes `prices.index > date` the suffix of the table after the entry (`Market.AfterInOrder`); the forward loop itself walks the bars in table order, as the source does. With a zero close, the source's profit_pct becomes NaN or inf.
- Backtest.RunBacktest: `n_split` is fixed at 4, the value its caller uses. A larger value makes the source index past the ladder and raise.
- Backtest.Row: the fundamentals row is a separate field. The source merges it into the row dict with `**`, where a column named like a ledger key would overwrite that key.
- Python set iteration order is an input, because string hashes are salted per process. This order picks the first 30 in `identify_candle_signal`. It also orders the signals within a date in the screener table, so the engine accepts any within-date order.
- Screener.IdentifyCandleSignal: it requires every ticker with vrate > 8 to have a COR entry; otherwise `df_cor.loc` raises `KeyError`. Indexing with a set follows the pandas versions that accept it; pandas 2 raises `TypeError` there.
- DateFormat.ConvertDateTimeString: it is defined only on zero-padded "YYYY-MM-DD HH:MM:SS" strings with years 1000 to 9999. `strptime` also accepts unpadded fields, and `%Y` prints small years differently across platforms.
- Dates are day ordinals, so `duration` is the difference of ordinals. This is what `(to_datetime(a) - to_datetime(b)).days` gives for timestamps at the same time of day.
- Backtest.RemoveFirst: it requires the ticker to be in the list, and `Backtest.SimulateForward` requires it of the hold list. Python's `list.remove` raises `ValueError` for an absent element. No call reaches that case: the ticker is appended at kjs_trade.py:149 and removed at most once, on the bar that ends the loop.
