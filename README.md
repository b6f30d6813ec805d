# millennium-data-quality backtester, modelled in Dafny

This project models the core of a small Python equity backtester:

- the mean-reversion order generator (`MeanReversionOrderGenerator.generate_orders`);
- the long/short backtest engine (`EquityBacktestEngine.run_backtest`);
- the performance report (`ExtendedMetrics.calculate`);
- the running VWAP of the price cache (`calculate_vwap`).

It then proves properties of that model.

The modules follow the program:

- `Market` holds what the generator and the engine share: dates, tickers, order records and the price table. It also has the sort of the row labels.
- `BacktestEngine` holds the engine. The class `EquityBacktestEngine` keeps the source's loops: a `for` over the sorted dates, a `while` over the orders at the pointer, and a loop over the holdings. Each loop is proved to compute a specification function on values: `Trade`, `Consume`, `StateAfter`, `Run` and `Backtest`. The lemmas about the engine are stated on those functions.
- `OrderGenerator` holds the generator. The nested `for` loops are a method proved equal to `MeanReversionOrders`, and the lemmas are about that function.
- `Pipeline` feeds the generated orders to the engine, as the driver script `backtester/main.py` does.
- `Metrics` holds the report. It is a pure function that returns a map with eight keys.
- `Vwap` holds the running VWAP. The per-ticker series is a function built from cumulative sums. The loop over tickers is a method that fills a map.
- `Series` holds sums, products, weighted sums, minimum and maximum on real series. `Wrappers` holds `Option`.

Prices, cash and returns are modelled as mathematical reals, not as floating-point numbers. Share counts are integers. Dates are integers ordered as time.

Where the repository's tests and its code disagree, the model follows the code and proves the disagreement:

- The generator emits one order for every row, including the first 99 rows. There the rolling mean is NaN, the comparison is false, and the order is a SELL. The test at `unit_tests/test_backtester.py:35` expects no order dated before row 99. The test at `unit_tests/test_backtester.py:77` expects no orders for a single row. `OrderGenerator.EarlyRowsSell`, `OrderGenerator.OrderBeforeRow99` and `OrderGenerator.SingleRowOrders` state what the code does instead.
- The engine only advances its order pointer past orders dated on the current date. The generator lists the orders ticker by ticker. So with two or more rows on an ascending index, only the first ticker's orders are ever executed (`Pipeline.OnlyFirstTickerTraded`). With a single row, every order is executed (`Pipeline.SingleRowAllTraded`).
- Orders are never checked against cash or holdings. The values asserted by the two tests named "insufficient cash" and "sell without holdings" would still hold if the order were executed, because a trade at the current price leaves the marked value unchanged (`BacktestEngine.UncheckedBuy`, `BacktestEngine.UncheckedShortSale`). As the tests are written, the order date is a string and the row label a Timestamp; they never compare equal, so no order is executed and the value is the untouched cash. That comparison is not modelled (see "Left out").

## Model

| member | source | states |
|---|---|---|
| Market.Column | backtester/order_generator.py:21 | no contract of its own beyond one entry per row: `data[ticker]`, the close at each row label in row order; characterised by `OrdersForAt` and `OrderAt` |
| Market.SortDates | backtester/backtest_engine.py:25 | `index.sort_values()`: same length and same multiset of dates, nondecreasing, strictly ascending when the labels are distinct |
| Market.Insert | backtester/backtest_engine.py:25 | inserting into a sorted sequence keeps it sorted and adds exactly that element |
| Market.SortAscending | backtester/backtest_engine.py:25 | sorting an already ascending index returns it unchanged |
| BacktestEngine.Get | backtester/backtest_engine.py:39 | `holdings.get(k, 0)` is 0 for a ticker without an entry |
| BacktestEngine.Put | backtester/backtest_engine.py:39 | after `holdings[k] = q`, k maps to q and every other ticker keeps its count |
| BacktestEngine.PutKeys | backtester/backtest_engine.py:39 | the dict gains the key k only if k was missing, and it never gets a duplicate key |
| BacktestEngine.Start | backtester/backtest_engine.py:22-26 | no contract of its own: cash = initial cash, no holdings, pointer 0; `NoOrdersKeepCash` and `RunAt` are stated from it |
| BacktestEngine.Exposure | backtester/backtest_engine.py:47-51 | no contract of its own: Σ price × count over the holdings; characterised by `ExposurePut`, `ExposureBuy`, `ExposureSell` and `ExposureChange`, and computed by `MarkToMarket` |
| BacktestEngine.Mark | backtester/backtest_engine.py:47-51 | no contract of its own: cash + `Exposure`; characterised by `TradeNeutral`, `ConsumeNeutral` and `SelfFinancing` |
| BacktestEngine.Trade | backtester/backtest_engine.py:36-43 | a BUY adds the quantity to the ticker's count and a SELL subtracts it, with no check; other tickers are unchanged; any other order type changes nothing |
| BacktestEngine.TradeCash | backtester/backtest_engine.py:37-42 | a BUY takes price × quantity out of cash and a SELL adds it, whatever the balance |
| BacktestEngine.ApplyRange | backtester/backtest_engine.py:30-45 | no contract of its own: orders a..b−1 executed in list order, each at its own date's price; characterised by `ApplyRangeSplit`, and `Consume` and `StateAfter` are stated in terms of it |
| BacktestEngine.ApplyRangeSplit | backtester/backtest_engine.py:30-45 | executing orders a..c is executing a..b and then b..c |
| BacktestEngine.Consume | backtester/backtest_engine.py:30-45 | the inner loop only moves the pointer forward; it executes exactly the consecutive orders dated on the current date, stops at the first order with another date, and the portfolio is those orders applied in list order |
| BacktestEngine.StateAfter | backtester/backtest_engine.py:29-45 | after any prefix of the dates, the executed orders are a prefix of the list starting at the pointer, each dated on one of those dates |
| BacktestEngine.Run | backtester/backtest_engine.py:29-53 | the value series has one pair per date, dated in the order of the dates |
| BacktestEngine.Backtest | backtester/backtest_engine.py:21-57 | one (date, value) pair per row of the table, strictly ascending, and the dates are exactly the row labels |
| BacktestEngine.ExposurePut | backtester/backtest_engine.py:39-51 | setting a ticker's count to q changes the marked positions by price × (q − old count) |
| BacktestEngine.ExposureBuy | backtester/backtest_engine.py:39-51 | adding delta shares of a ticker adds price × delta to the marked positions |
| BacktestEngine.ExposureSell | backtester/backtest_engine.py:43-51 | removing delta shares takes price × delta off the marked positions |
| BacktestEngine.TradeNeutral | backtester/backtest_engine.py:34-51 | an order executed at the current date's price leaves cash + Σ holdings × price at that date unchanged |
| BacktestEngine.BuyNeutral | backtester/backtest_engine.py:36-51 | a BUY at the current price leaves the marked value unchanged |
| BacktestEngine.SellNeutral | backtester/backtest_engine.py:40-51 | a SELL at the current price leaves the marked value unchanged |
| BacktestEngine.BuySellRoundTrip | backtester/backtest_engine.py:36-43 | a BUY followed by a SELL of the same quantity at the same price restores both the cash and every holding |
| BacktestEngine.ConsumeNeutral | backtester/backtest_engine.py:30-51 | all the orders executed on one date together leave that date's marked value unchanged |
| BacktestEngine.RunAt | backtester/backtest_engine.py:47-53 | entry k of the series is (date k, the value marked after the dates up to k) |
| BacktestEngine.NoOrdersKeepCash | backtester/backtest_engine.py:22-53 | with no orders, on any index (repeated labels included), every value in the series is the initial cash |
| BacktestEngine.ExposureChange | backtester/backtest_engine.py:47-51 | the change of the marked positions between two dates is Σ holdings × (new price − old price) |
| BacktestEngine.SelfFinancing | backtester/backtest_engine.py:29-53 | the value change between consecutive dates is the price gain of the holdings held after the first date; the trades add nothing |
| BacktestEngine.StateAfterAppend | backtester/backtest_engine.py:29-45 | walking ds and then es is walking ds + es |
| BacktestEngine.OrderIndexMonotone | backtester/backtest_engine.py:26-45 | `order_index` never decreases from one date to a later one |
| BacktestEngine.Stall | backtester/backtest_engine.py:30 | if no later date equals the date of the order at the pointer, no further order is ever executed |
| BacktestEngine.StalledValues | backtester/backtest_engine.py:30-53 | after such a stall, every value is the same portfolio marked at that date's prices |
| BacktestEngine.UncheckedBuy | unit_tests/test_backtester.py:42-51 | 5000 in cash and a BUY of 100 at 150 give cash −10000, 100 shares, and the single value 5000 |
| BacktestEngine.UncheckedShortSale | unit_tests/test_backtester.py:53-62 | 10000 in cash and a SELL of 50 at 150 give cash 17500, −50 shares, and the single value 10000 |
| BacktestEngine.EquityBacktestEngine.constructor | backtester/backtest_engine.py:9-10 | the engine stores the initial cash |
| BacktestEngine.EquityBacktestEngine.RunBacktest | backtester/backtest_engine.py:21-57 | the date loop returns exactly `Backtest(initial_cash, orders, data)` |
| BacktestEngine.EquityBacktestEngine.RerunIsIdentical | backtester/backtest_engine.py:9-24 | running the engine twice on the same inputs gives identical series |
| BacktestEngine.EquityBacktestEngine.ExecuteOrders | backtester/backtest_engine.py:30-45 | the inner `while` loop computes `Consume` on the cash, holdings and pointer it starts from |
| BacktestEngine.EquityBacktestEngine.ExecuteOrder | backtester/backtest_engine.py:31-43 | the loop body executes `Trade` at the looked-up price |
| BacktestEngine.EquityBacktestEngine.MarkToMarket | backtester/backtest_engine.py:47-51 | the valuation loop returns cash + Σ holdings × price on the date |
| OrderGenerator.TrailingMean | backtester/order_generator.py:22 | the rolling mean is defined exactly from row 99 on |
| OrderGenerator.BelowMean | backtester/order_generator.py:25 | no contract of its own: `close < mean`, false when the mean is NaN; `Signal` states its effect |
| OrderGenerator.Signal | backtester/order_generator.py:25-28 | no contract of its own: BUY when `BelowMean`, SELL otherwise; characterised by `OrderAt`, `OrdersForAt`, `EarlyRowsSell` and `FlatPricesSell` |
| OrderGenerator.ColumnOrders | backtester/order_generator.py:24-28 | one order per row of the ticker, order i dated on row i, naming that ticker, for 100 shares |
| OrderGenerator.OrdersFor | backtester/order_generator.py:20-28 | one order per (column, row) |
| OrderGenerator.MeanReversionOrders | backtester/order_generator.py:16-30 | no contract of its own: the orders of every column of the table; characterised by `OrderCount`, `OrderAt`, `OrderDate` and `GeneratedCovered`, and computed by `GenerateOrders` |
| OrderGenerator.GenerateOrders | backtester/order_generator.py:16-30 | the nested loops return exactly `MeanReversionOrders(data)` |
| OrderGenerator.AppendTickerOrders | backtester/order_generator.py:24-28 | the row loop appends one ticker's orders, in row order, after the orders already listed |
| OrderGenerator.OrdersForAt | backtester/order_generator.py:20-24 | order c × rows + i is the order of column c at row i: grouped by ticker in column order, rows in index order |
| OrderGenerator.OrderAt | backtester/order_generator.py:22-28 | order c × rows + i has row i's date, column c's ticker and quantity 100; it is a BUY exactly when i ≥ 99 and the close is below the mean of rows i−99..i, and a SELL otherwise |
| OrderGenerator.OrderDate | backtester/order_generator.py:20-28 | order c × rows + i is dated on row i and names column c |
| OrderGenerator.OrderCount | backtester/order_generator.py:20-28 | `len(orders)` = number of columns × number of rows |
| OrderGenerator.GeneratedCovered | backtester/order_generator.py:20-28 | every order is dated on a row label and names a column, so every price lookup the engine makes for the generated orders hits the table |
| OrderGenerator.ColumnsCovered | backtester/order_generator.py:20-28 | the same for the orders of any list of columns of the table |
| OrderGenerator.MeanWithinWindow | backtester/order_generator.py:22 | the rolling mean lies between any bounds of the 100 closes it averages |
| OrderGenerator.SlidingMean | backtester/order_generator.py:22 | moving the window one row adds (new close − dropped close) / 100 to the mean |
| OrderGenerator.BuyBelowWindowHigh | backtester/order_generator.py:25-26 | a BUY happens only when some close in the window is above the current close |
| OrderGenerator.FlatPricesSell | backtester/order_generator.py:25-28 | constant prices never trigger a BUY |
| OrderGenerator.EarlyRowsSell | backtester/order_generator.py:22-28 | every row before row 99 emits a SELL of 100 shares |
| OrderGenerator.OrderBeforeRow99 | unit_tests/test_backtester.py:35 | with 100 or more ascending rows, some order is dated before row 99, contrary to the test |
| OrderGenerator.SingleRowOrders | unit_tests/test_backtester.py:77 | a single row gives one SELL per column, so no orders only when there are no columns, contrary to the test |
| Pipeline.ConsumeOne | backtester/backtest_engine.py:30-45 | when the next order has another date, the inner loop executes exactly one order |
| Pipeline.ConsumeAll | backtester/backtest_engine.py:30-45 | when all the remaining orders share the date, the inner loop executes them all |
| Pipeline.FirstColumnOrder | backtester/order_generator.py:20-28 | the first generated orders are the first ticker's, order i dated on row i |
| Pipeline.SecondColumnStart | backtester/order_generator.py:20-28 | the order after the first ticker's block is dated on row 0 |
| Pipeline.FirstColumnDates | backtester/backtest_engine.py:30 | on an ascending index, order i − 1 is dated on row i − 1 and the next order is dated on another row, so the inner loop stops after one order |
| Pipeline.FirstColumnPrefix | backtester/main.py:19-21 | on the generated orders, the pointer after the first i dates is i |
| Pipeline.OnlyFirstTickerTraded | backtester/main.py:19-21 | with two or more ascending rows, exactly the first ticker's orders are executed, one per date; no other ticker is traded |
| Pipeline.SingleRowAllTraded | backtester/main.py:19-21 | with one row, all the generated orders are executed |
| Metrics.Mean | backtester/metrics.py:21 | no contract of its own: Σ r / n, NaN for an empty series; characterised by `DailyReturnBounds` and `ExcessMeanShift` |
| Metrics.OnePlus | backtester/metrics.py:22 | `1 + returns` keeps the length of the returns |
| Metrics.Defined | backtester/metrics.py:23 | pandas' `skipna`: at most as many entries, none exactly when every entry is NaN, and all of them in order when none is NaN; `DefinedAppend`, `DefinedOne` and `DefinedMembers` fix order and multiplicity in general |
| Metrics.Logs | backtester/metrics.py:23 | no contract of its own: `np.log(1 + returns)`, one logarithm per return; characterised by `LogsAppend` and `LogReturnAllDefined` |
| Metrics.LogReturn | backtester/metrics.py:23 | Log Return is never None, and it is NaN exactly when no logarithm of 1 + r is defined; `LogReturnSkips` and `LogReturnAllDefined` give its value |
| Metrics.LogReturnAllDefined | backtester/metrics.py:23 | when every logarithm is defined, Log Return is the plain mean of all of them |
| Metrics.DefinedAppend | backtester/metrics.py:23 | keeping the defined entries distributes over concatenation |
| Metrics.DefinedOne | backtester/metrics.py:23 | on a single entry, `Some(y)` is kept as y and None is dropped; with `DefinedAppend`, every defined entry is kept once and in order |
| Metrics.DefinedMembers | backtester/metrics.py:23 | the values kept are exactly those that occur defined |
| Metrics.LogsAppend | backtester/metrics.py:23 | the logarithms of a concatenation are the concatenated logarithms |
| Metrics.LogReturnSkips | backtester/metrics.py:23 | a return whose logarithm is NaN is skipped wherever it stands: Log Return equals that of the other returns |
| Metrics.DefinedSkip | backtester/metrics.py:23 | dropping one NaN entry keeps the same defined entries |
| Metrics.LogReturnSkipsNaN | backtester/metrics.py:23 | the returns [0, −2] have Log Return 0: the NaN log(1 − 2) is skipped, not propagated |
| Metrics.RunningMax | backtester/metrics.py:36 | entry i of `cummax` is the maximum of the values up to i |
| Metrics.PrefixMaxMonotone | backtester/metrics.py:36 | the maximum of a longer prefix is at least that of a shorter one |
| Metrics.RunningMaxAbove | backtester/metrics.py:36 | the running maximum is ≥ the value at every index, and its first entry is the first value |
| Metrics.RunningMaxAttained | backtester/metrics.py:36 | each running maximum is one of the values seen so far |
| Metrics.RunningMaxMonotone | backtester/metrics.py:36 | the running maximum never decreases |
| Metrics.Drawdowns | backtester/metrics.py:37 | one drawdown per value |
| Metrics.MaxDrawdown | backtester/metrics.py:36-38 | `drawdown.min()`: never None; NaN exactly for no values or a zero running maximum; otherwise at most every drawdown and equal to one of them |
| Metrics.SharpeRatio | backtester/metrics.py:32-34 | no contract of its own: mean(excess) / std × √252, NaN when there are no returns or the standard deviation is NaN or zero; characterised by `ExcessMeanShift` |
| Metrics.Entry | backtester/metrics.py:21-41 | a report entry is None exactly for the Information Coefficient without a benchmark |
| Metrics.Calculate | backtester/metrics.py:18-55 | exactly the eight keys; Information Coefficient is None exactly when there is no benchmark; no other entry is None; Daily Return, Cumulative Return Π(1 + r) − 1 and Max Drawdown as defined |
| Metrics.EightKeys | backtester/metrics.py:21-41 | eight distinct keys under eight distinct texts, none of them "Beta" or "Alpha" (those lines are commented out) |
| Metrics.Label | backtester/metrics.py:21-41 | no contract of its own: the eight key texts, spelled as in the source; `EightKeys` proves them distinct |
| Metrics.DailyReturnBounds | backtester/metrics.py:21 | the daily return lies between the smallest and the largest return |
| Metrics.ExcessMeanShift | backtester/metrics.py:32-34 | mean(excess) = mean(returns) − 0.0045 / 252 |
| Metrics.PctChange | backtester/main.py:23 | `pct_change().dropna()` has one element fewer; `PctChangeCompounds` and `Telescoping` state how the returns rebuild the values |
| Metrics.PctChangeCompounds | backtester/main.py:23 | compounding value i by return i gives value i + 1, for nonzero values |
| Metrics.Telescoping | backtester/main.py:23 | Π(1 + pct_change(v)) = v_last / v_first for nonzero values |
| Metrics.CumulativeFromValues | backtester/metrics.py:22 | on the returns of a value series, Cumulative Return = v_last / v_first − 1 |
| Metrics.DrawdownRange | backtester/metrics.py:36-37 | for positive values, every drawdown lies in (−1, 0] |
| Metrics.MaxDrawdownRange | backtester/metrics.py:36-38 | for positive values, Max Drawdown is a number in (−1, 0] |
| Metrics.NoFallPrefixMax | backtester/metrics.py:36 | in a nondecreasing series, the maximum of the values up to i is the value at i |
| Metrics.NoFallRunningMax | backtester/metrics.py:36 | the running maximum of a nondecreasing series equals the series at every index |
| Metrics.NoFallNoDrawdown | backtester/metrics.py:36-38 | a positive nondecreasing series has Max Drawdown 0 |
| Series.Sum | backtester/metrics.py:21 | no contract of its own: the sum of a series, the numerator of every `mean()` and of `rolling(100).mean()`; characterised by `SumBounds`, `SumShift` and `SlidingMean` |
| Series.Prod | backtester/metrics.py:22 | no contract of its own: `(1 + returns).prod()` of Cumulative Return; characterised by `Telescoping` and `CumulativeFromValues` |
| Series.Shift | backtester/metrics.py:33 | `returns - risk_free_rate / 252` keeps the length; characterised by `SumShift` and `ExcessMeanShift` |
| Series.Min | backtester/metrics.py:38 | the minimum is ≤ every element and is one of them |
| Series.Max | backtester/metrics.py:36 | the maximum is ≥ every element and is one of them |
| Series.SumShift | backtester/metrics.py:33 | subtracting c from each of n elements lowers the sum by n × c |
| Series.SumBounds | backtester/order_generator.py:22 | a series bounded by lo and hi sums to between n × lo and n × hi |
| Series.DotBounds | backtester/cache_sp500_data.py:27 | with nonnegative weights, a weighted sum lies between lo and hi times the total weight |
| Series.DotConstant | backtester/cache_sp500_data.py:27 | a constant price weighted by volumes sums to the price times the total volume |
| Vwap.CumSum | backtester/cache_sp500_data.py:27 | entry i of `cumsum` is the sum of the first i + 1 elements |
| Vwap.Times | backtester/cache_sp500_data.py:27 | no contract beyond its length: `adj_close * volume` element by element; `SumTimes` states what its sums are |
| Vwap.Ratio | backtester/cache_sp500_data.py:27 | element-wise quotient: no value exactly where the denominator is zero, and otherwise the value times the denominator gives back the numerator |
| Vwap.TickerVwap | backtester/cache_sp500_data.py:27 | the VWAP series has one entry per row |
| Vwap.CalculateVwap | backtester/cache_sp500_data.py:22-34 | one frame per ticker of the column level, each keeping that ticker's Adj Close and Volume unchanged next to its VWAP series |
| Vwap.SumTimes | backtester/cache_sp500_data.py:27 | summing `adj_close * volume` gives the volume-weighted sum of prices |
| Vwap.VwapFormula | backtester/cache_sp500_data.py:27 | vwap[i] = Σ_{j≤i} p_j v_j / Σ_{j≤i} v_j, with no value exactly when the cumulative volume is zero |
| Vwap.VwapFirst | backtester/cache_sp500_data.py:27 | with a nonzero first volume, the first VWAP is the first price |
| Vwap.VwapBounds | backtester/cache_sp500_data.py:27 | with nonnegative volumes and a positive cumulative volume, vwap[i] lies between the lowest and highest price of rows 0..i |
| Vwap.VwapWithin | backtester/cache_sp500_data.py:27 | the same for any bounds that enclose the prices of rows 0..i |
| Vwap.VwapConstant | backtester/cache_sp500_data.py:27 | a constant price gives that price as VWAP wherever the cumulative volume is nonzero |

## Left out

- Price lookups (`data.at`) are a total function of (date, ticker). The KeyError for a missing label and NaN cells are not modelled. The engine itself makes no demand on the orders. `Market.Covered` states that every order dated on a row names a column, so that every lookup the engine makes succeeds, and `OrderGenerator.GeneratedCovered` proves the generated orders meet it.
- The engine requires distinct row labels (`Distinct(t.index)`, a requirement of `Backtest`, `RunBacktest` and `RerunIsIdentical`; with no orders no price is looked up, and `NoOrdersKeepCash` holds for any index). With a repeated row label pandas' `.at` returns a Series instead of one price, so repeated dates are not modelled, and with distinct labels the sorted dates are strictly ascending. A repeated column label would make `.at` return a Series too; the total price lookup leaves that case out.
- Floating point: all arithmetic is on mathematical reals, so rounding, infinities and NaN propagation are not modelled.
- BacktestEngine.Trade: its contract states only the holdings effect. The cash effect is stated by `BacktestEngine.TradeCash`, to keep the products out of every use of `Trade`.
- The `print` of each value (backtester/backtest_engine.py:54) and the construction of the result DataFrame (backtester/backtest_engine.py:56-57) are not modelled. The result is the list of (date, value) pairs.
- The abstract base class `BacktestEngine` declares `run_backtest` and stores `initial_cash` in its constructor; that constructor is modelled as the constructor of the class `EquityBacktestEngine`, which has no base class here. The abstract base class `OrderGenerator` only declares `generate_orders`. `GenerateOrders` is a module-level method, because the generator has no state.
- In the two engine tests the order dates are strings and the row labels Timestamps. A string never equals a Timestamp, so as written those tests execute no order. Dates are integers here, and that comparison is not modelled.
- Metrics: the logarithms of Log Return, Volatility, the Sharpe ratio's standard deviation, the Information Coefficient's correlation and the VaR quantile call `np.log`, `np.sqrt`, the sample standard deviation, Pearson correlation and interpolated quantiles. These routines are parameters of the model (`Metrics.Numerics`). Their results are passed through and not characterised.
- PctChange: its own contract states only the length. The element relation is the lemma `Metrics.PctChangeCompounds`, kept out of the function's contract so that the nonlinear quantifier stays out of every proof that uses `PctChange`.
- Metrics.SharpeRatio: a zero standard deviation gives NaN here. pandas would give ±inf or NaN.
- Metrics.MaxDrawdown: a zero running maximum, which occurs only on a prefix where no value is positive, gives NaN for the whole entry here. pandas gives NaN (0 / 0) at those positions, which `min()` skips, or −inf for a negative value over 0.
- Metrics.Calculate: the result values are `Stat` values. NaN and None are distinct constructors, not floats.
- The Beta and Alpha lines of the report are commented out in the source, and they do not appear in the model.
- Vwap: missing tickers in the column level are not modelled. pandas keeps unused labels in `levels` after slicing, and looking one up would raise a KeyError. The model requires every ticker of the level to have its two columns.
- Vwap.TickerVwap: where the cumulative volume is zero, pandas gives NaN or an infinity. The model gives no value there.
- The download, the S&P 500 ticker scrape, the pickle cache (backtester/cache_sp500_data.py:5-20,36-50), the data source, the cache interface and the driver scripts are I/O and orchestration. They are not modelled. The Betting-Against-Beta script imports a generator and a plotting function that the repository does not define; it is not part of this model.
