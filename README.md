# Bitcoin MACD/RSI trading scripts — a verified model

The repository is a family of near-duplicate Bitcoin backtesting and paper-trading scripts.
Leave out fetching, files, plotting and the user interface, and every script runs the same
pipeline:

1. a sequence of price bars becomes indicator columns (EMA, MACD, RSI, ATR, support and
   resistance);
2. the MACD histogram becomes turning-point flags (Green peaks sell, Red troughs buy);
3. the flags, gated by RSI and ATR thresholds, drive an all-in/all-out portfolio in a single
   asset, and the portfolio keeps a trade log.

The model is one Dafny development with one module per component:

| module | what it models |
|---|---|
| `Wrappers` | `Option`/`Result`, and pandas comparisons with NaN (modelled as `None`, so every comparison is false) |
| `Indicators` | EMA with `adjust=False`, MACD, rolling-mean RSI (plain and zero-filled), true range and ATR, support/resistance, `value_if_held` |
| `Detectors` | the three histogram detectors: lagged derivative, at-bar derivative, three-point extremum; and the crossover signals |
| `Trades` | the shared trade log, the `total` column and the array writes of a portfolio row |
| `FeeStrategy` | the fee-charging position-flag strategy of five scripts, one `Config` preset per script |
| `LiveTrader` | the live single-bar step of the 15-minute GOLDMINE trader, as a class over the global portfolio table |
| `RowTrader` | `make_trading_decision` of the one-second trader, as a class over the global table and its last-price globals |
| `Backtest` | `backtest_strategy` of the 30-day backtest |
| `StopLoss` | the ATR stop-loss strategy of the five-year backtest |
| `CounterStrategy` | the trade-counter strategies of the sell-at-peak and 2022-23 scripts |
| `MaxCarry` | the `max`-carry strategy of the "100x" script |
| `Schedule` | `interval_to_seconds` and `calculate_next_timestamp` |
| `Dips` | the "major dip" rule of the NASDAQ chart |
| `Headlines` | the headline keyword classifier and its trend verdict |

Every portfolio loop has the same model shape:

- a `method` fills the portfolio arrays in a `while` loop, as the script does;
- its `ensures` ties the arrays and the log to a recursive specification function
  (`TraceTo`) bar by bar;
- what the script promises is proved about `TraceTo` as lemmas:
  - one trade per bar at most, in bar order;
  - cash = 0 or holdings = 0;
  - Buy/Sell alternation;
  - the fee arithmetic;
  - no trade during the warm-up.

Prices are `real`, closes are positive, and the fee lies in `[0, 1)`. Time is a count of
microseconds since `datetime.min`.

## Model

| member | source | states |
|---|---|---|
| Indicators.Closes | realtime-15m-paper-trader-binance-GOLDMINE.py:122 | the `Close` column has one entry per bar, the bar's close |
| Indicators.Defined | realtime-15m-paper-trader-binance-GOLDMINE.py:42 | a column without NaN: one defined entry per value, in order |
| Indicators.Values | realtime-15m-paper-trader-binance-GOLDMINE.py:44-45 | the numbers of a column, one per entry, each defined entry's own value |
| Indicators.Alpha | realtime-15m-paper-trader-binance-GOLDMINE.py:33-36 | the smoothing factor 2/(span+1) of `ewm(span)` lies in (0, 1] |
| Indicators.Ema | realtime-15m-paper-trader-binance-GOLDMINE.py:33-36 | the `adjust=False` EMA has the input's length and its value at t is the recurrence e[0]=x[0], e[t]=αx[t]+(1-α)e[t-1] |
| Indicators.EmaOfConstant | archive/data_analysis.py:43-46 | the EMA of a constant series is that constant at every index |
| Indicators.EmaBounded | archive/data_analysis.py:43-46 | each EMA value lies between the smallest and the largest input so far |
| Indicators.EmaCausal | realtime-15m-paper-trader-binance-GOLDMINE.py:213-216 | the EMA of a prefix agrees with the EMA of the whole series on that prefix |
| Indicators.EmaPrefixAgrees | realtime-15m-paper-trader-binance-GOLDMINE.py:213-216 | two series equal up to t have the same EMA at t |
| Indicators.MacdLine | realtime-15m-paper-trader-binance-GOLDMINE.py:33-35 | the MACD line is EMA12 minus EMA26 of the closes, bar by bar |
| Indicators.CalculateMacd | realtime-15m-paper-trader-binance-GOLDMINE.py:32-39 | the line, its 9-span signal and the histogram line minus signal, all of the input's length |
| Indicators.MacdOfConstant | archive/data_analysis.py:42-47 | a constant close gives an all-zero MACD line, signal and histogram |
| Indicators.MacdCausal | realtime-15m-paper-trader-binance-GOLDMINE.py:213-217 | MACD line, signal and histogram of a prefix of the bars agree with the full-series columns |
| Indicators.Diff | realtime-15m-paper-trader-binance-GOLDMINE.py:42 | `diff()` is undefined at index 0 and is x[i]-x[i-1] where both are defined |
| Indicators.SumNonNegative | realtime-15m-paper-trader-binance-GOLDMINE.py:44-45 | a sum of non-negative values is non-negative |
| Indicators.RollingMean | realtime-15m-paper-trader-binance-GOLDMINE.py:44-45 | `rolling(w).mean()` has the input's length, entry by entry the windowed mean |
| Indicators.RollingMeanDefined | realtime-15m-paper-trader-binance-GOLDMINE.py:28 | on a fully defined input the rolling mean is defined exactly from index w-1 on |
| Indicators.RollingMeanNonNegative | realtime-15m-paper-trader-binance-GOLDMINE.py:44-45 | the rolling mean of non-negative entries is non-negative |
| Indicators.RollingMeanCausal | archive/25x-5yr-macd_stop_loss_strategy_bitcoin-backtesting.py:164-166 | the rolling mean at i depends only on the entries up to i |
| Indicators.RsiValue | realtime-15m-paper-trader-binance-GOLDMINE.py:46-47 | `100 - 100/(1+g/l)` lies in [0, 100) when l > 0; it is 50 when g = l and 0 when g = 0; with l = 0 it is 100 for g ≠ 0 and NaN for g = 0 |
| Indicators.Gains | realtime-15m-paper-trader-binance-GOLDMINE.py:43 | the clipped-up deltas, one per bar |
| Indicators.Losses | realtime-15m-paper-trader-binance-GOLDMINE.py:43 | the clipped-down deltas, negated, one per bar |
| Indicators.ComputeRsi | realtime-15m-paper-trader-binance-GOLDMINE.py:41-48 | `compute_rsi(close, w)`: one value per bar, the RSI of the rolling means of gains and losses |
| Indicators.RsiWarmup | realtime-15m-paper-trader-binance-GOLDMINE.py:41-48 | the RSI is undefined on the first w bars (the first delta is NaN) |
| Indicators.RsiRange | 2.3x-15m-10-11-23-to-10-12.23-btc_paper_trader_binance.py:46-53 | after the warm-up the RSI is defined and in [0, 100] unless the window holds no movement; it is below 100 when the loss mean is positive |
| Indicators.ZeroFilledGains | archive/data_analysis.py:35 | `delta.where(delta > 0, 0)` is defined everywhere, 0 at the undefined first delta |
| Indicators.ZeroFilledLosses | archive/data_analysis.py:36 | `-delta.where(delta < 0, 0)` is defined everywhere and never negative |
| Indicators.CalculateRsi | archive/data_analysis.py:33-39 | `calculate_rsi`: one value per bar, the RSI of the rolling means of the zero-filled gains and losses |
| Indicators.CalculateRsiRange | archive/data_analysis.py:33-39 | the zero-filled RSI is undefined before index w-1; from there on it is defined and lies in [0, 100) when the loss mean is positive |
| Indicators.CalculateRsiDefined | archive/data_analysis.py:33-39 | from index w-1 on, both means are defined and the zero-filled RSI is defined exactly when the gain or the loss mean is positive (0/0 is NaN); it is 100 when only the gain mean is |
| Indicators.TrueRange | realtime-15m-paper-trader-binance-GOLDMINE.py:22-26 | the row maximum of high-low and the two gaps to the previous close (high-low alone on bar 0), one per bar |
| Indicators.CalculateAtr | realtime-15m-paper-trader-binance-GOLDMINE.py:22-29 | `calculate_atr`: the rolling mean of the true range, one per bar |
| Indicators.AtrDefined | realtime-15m-paper-trader-binance-GOLDMINE.py:28 | the ATR exists exactly from index w-1 on |
| Indicators.TrueRangeNonNegative | realtime-15m-paper-trader-binance-GOLDMINE.py:22-26 | the true range of a bar with low ≤ high is not negative |
| Indicators.AtrCausal | archive/25x-5yr-macd_stop_loss_strategy_bitcoin-backtesting.py:27-34 | the ATR computed on the prefix `data[:k]` equals the full-series ATR at every i < k |
| Indicators.MinOf | archive/25x-5yr-macd_stop_loss_strategy_bitcoin-backtesting.py:38 | `min()` is at most every entry and is one of them |
| Indicators.MaxOf | archive/25x-5yr-macd_stop_loss_strategy_bitcoin-backtesting.py:39 | `max()` is at least every entry and is one of them |
| Indicators.Lows | archive/25x-5yr-macd_stop_loss_strategy_bitcoin-backtesting.py:38 | the `Low` column |
| Indicators.Highs | archive/25x-5yr-macd_stop_loss_strategy_bitcoin-backtesting.py:39 | the `High` column |
| Indicators.SupportResistanceWindow | archive/25x-5yr-macd_stop_loss_strategy_bitcoin-backtesting.py:36-40 | support is the lowest low and resistance the highest high of the last ≤ lookback bars up to and including bar i |
| Indicators.MinOfSlice | archive/0.8x-3.5x-macd_sell_at_peak_strategy_bitcoin-backtesting.py:20-24 | the minimum of a window is an entry of the window and bounds it from below |
| Indicators.MaxOfSlice | archive/0.8x-3.5x-macd_sell_at_peak_strategy_bitcoin-backtesting.py:20-24 | the maximum of a window is an entry of the window and bounds it from above |
| Indicators.SupportBelowResistance | archive/0.8x-3.5x-macd_sell_at_peak_strategy_bitcoin-backtesting.py:20-24 | support ≤ resistance when every bar has low ≤ high |
| Indicators.HoldingValue | archive/25x-5yr-macd_stop_loss_strategy_bitcoin-backtesting.py:21-25 | `initial * (end/start)`: v·start = initial·end, and v ≥ initial exactly in the direction the price moved |
| Indicators.ValueIfHeld | realtime-15m-paper-trader-binance-GOLDMINE.py:204-206 | `value_if_held` times the first close is the initial capital times the last close |
| Indicators.ValueIfHeldExample | 2x-60d-daytrading_bitcoin-backtesting_15m-GOLDMINE.py:160-162 | closes [100, 200] and a capital of 100 give a baseline of 200 |
| Detectors.GreenLaggedFlags | realtime-15m-paper-trader-binance-GOLDMINE.py:59-63 | the Green column is set at j exactly when the histogram rose into j and did not rise out of it |
| Detectors.RedLaggedFlags | realtime-15m-paper-trader-binance-GOLDMINE.py:65-67 | the Red column is set at j exactly when the histogram fell into j and did not fall out of it |
| Detectors.GreenAtBarFlags | archive/realtime-1s-15m-paper-trader-binance.py:71-74 | the at-bar Green column is set at i exactly when the deltas at i-1 and i are defined, the first > 0 and the second ≤ 0 |
| Detectors.RedAtBarFlags | archive/realtime-1s-15m-paper-trader-binance.py:76-78 | the at-bar Red column: deltas defined, the first < 0 and the second ≥ 0 |
| Detectors.LocalMaxFlags | archive/25x-5yr-macd_stop_loss_strategy_bitcoin-backtesting.py:70-74 | the three-point Green column is set exactly at interior strict local maxima |
| Detectors.LocalMinFlags | archive/25x-5yr-macd_stop_loss_strategy_bitcoin-backtesting.py:70-74 | the three-point Red column is set exactly at interior strict local minima |
| Detectors.DefinedDiff | realtime-15m-paper-trader-binance-GOLDMINE.py:53 | `diff()` of a fully defined histogram, entry by entry |
| Detectors.OptionDiff | archive/15m-paper-trader-binance-backtest-30d.py:56 | `diff()` of a histogram with undefined entries: None at 0 and wherever an operand is None |
| Detectors.IdentifyPeaksLagged | realtime-15m-paper-trader-binance-GOLDMINE.py:51-69 | the loop over i in 2..n-1 produces exactly the lagged Green and Red columns |
| Detectors.IdentifyPeaksAtBar | archive/15m-paper-trader-binance-backtest-30d.py:54-72 | the loop over i in 1..n-1 produces exactly the at-bar Green and Red columns |
| Detectors.IdentifyPeaksThreePoint | archive/0.8x-3.5x-macd_sell_at_peak_strategy_bitcoin-backtesting.py:46-61 | the loop over i in 1..n-2 produces exactly the local-extremum columns |
| Detectors.LaggedFlagsShape | 2x-60d-daytrading_bitcoin-backtesting_15m-GOLDMINE.py:38-56 | no bar is both a lagged peak and a lagged trough; bars 0 and n-1 are never flagged |
| Detectors.AtBarFlagsShape | archive/realtime-1s-15m-paper-trader-binance.py:62-80 | no bar is both at-bar flags; bars 0 and 1 are never flagged |
| Detectors.ThreePointFlagsShape | archive/25x-5yr-macd_stop_loss_strategy_bitcoin-backtesting.py:61-76 | no bar is both a local maximum and a local minimum; neither end bar is flagged |
| Detectors.BuySellSignals | realtime-15m-paper-trader-binance-GOLDMINE.py:71-77 | the buy signal is the Red column and the sell signal the Green column of the lagged detector |
| Detectors.CrossoverBuy | archive/1.4x-2022-23-strategy.py:49 | one flag per bar: MACD above its signal and RSI below the bound |
| Detectors.CrossoverSell | archive/1.4x-2022-23-strategy.py:50 | one flag per bar: MACD below its signal and RSI above the bound |
| Detectors.CrossoverExclusive | archive/100xinbitcoin.py:42-43 | the two crossover signals are never both on; a buy needs a defined RSI below its bound, a sell one above |
| Detectors.AtBarIsLaggedShifted | archive/realtime-1s-15m-paper-trader-binance.py:71-78 | on a defined histogram the at-bar flags are the lagged flags shifted one bar later |
| Detectors.LocalExtremumIsLaggedFlag | archive/25x-5yr-macd_stop_loss_strategy_bitcoin-backtesting.py:70-74 | a strict local maximum (minimum) is also a lagged Green (Red) flag |
| Detectors.AtBarCanFlagLastBar | archive/realtime-1s-15m-paper-trader-binance.py:71-74 | the at-bar detector can flag the last bar, where the lagged one cannot |
| Detectors.PlateauIsLaggedOnly | archive/0.8x-3.5x-macd_sell_at_peak_strategy_bitcoin-backtesting.py:55-59 | a rise followed by a plateau is a lagged peak but not a strict local maximum |
| Trades.AppendKeepsOrder | realtime-15m-paper-trader-binance-GOLDMINE.py:153 | appending a trade on a later bar keeps the log in strictly increasing bar order |
| Trades.TotalsOf | realtime-15m-paper-trader-binance-GOLDMINE.py:201 | `total[j] = cash[j] + holdings[j]·close[j]` on every bar |
| Trades.Totals | archive/0.8x-3.5x-macd_sell_at_peak_strategy_bitcoin-backtesting.py:165 | the revaluation pass produces exactly that column |
| Trades.Record | archive/0.8x-3.5x-macd_sell_at_peak_strategy_bitcoin-backtesting.py:121-123 | writing row i of holdings, cash and trades sets those three and leaves every other row unchanged |
| FeeStrategy.PresetsValid | archive/3x-in-300days-1hr-paper-trader-binance.py:26-28 | the five per-script presets have positive windows and a fee in [0, 1) |
| FeeStrategy.MarketOf | realtime-1h-paper-trader-binance.py:121-125 | the signal, RSI and ATR columns all have one entry per bar |
| FeeStrategy.CalculateMacdAndRsi | 2.3x-15m-10-11-23-to-10-12.23-btc_paper_trader_binance.py:135-139 | `calculate_macd_and_rsi` computes exactly those columns |
| FeeStrategy.TraceTo | realtime-15m-paper-trader-binance-GOLDMINE.py:139-201 | the trace of bars 0..k-1 has one position per bar |
| FeeStrategy.TraceAgrees | realtime-15m-paper-trader-binance-GOLDMINE.py:139-142 | the bar-by-bar trace agrees with the per-bar specification `StateAt`/`LogUpTo` |
| FeeStrategy.TradeBar | realtime-15m-paper-trader-binance-GOLDMINE.py:141-198 | the loop body for bar i computes exactly the specified step from the previous bar |
| FeeStrategy.Simulate | 2x-60d-daytrading_bitcoin-backtesting_15m-GOLDMINE.py:95-162 | the run's columns, totals, log and `value_if_held` are those the specification gives |
| FeeStrategy.RunBars | realtime-1h-paper-trader-binance.py:170-232 | after the loop the arrays hold the specified positions of every bar and the log is the specified log |
| FeeStrategy.TraceExtends | 2.3x-15m-10-11-23-to-10-12.23-btc_paper_trader_binance.py:184-187 | one more loop iteration extends the trace by that bar's step |
| FeeStrategy.RunsIntro | archive/3x-in-300days-1hr-paper-trader-binance.py:233-238 | columns that copy the trace, with totals at the close, are the run's outcome |
| FeeStrategy.StrategyColumns | archive/3x-in-300days-1hr-paper-trader-binance.py:126-131 | the strategy's own indicator section computes the same columns |
| FeeStrategy.Annotate | realtime-15m-paper-trader-binance-GOLDMINE.py:153-189 | one `trade_log` entry per trade, carrying the trade and the RSI and ATR of its bar |
| FeeStrategy.TradingStrategy | realtime-15m-paper-trader-binance-GOLDMINE.py:113-208 | `trading_strategy`: the outcome is the specified run over the computed columns, the trades lie on bars 1..n-1, and every log entry records its bar's RSI and ATR |
| FeeStrategy.TradingStrategyFrom | realtime-1h-paper-trader-binance.py:142-145 | returns nothing exactly when current_time < start_time, whatever the data; otherwise the specified run and its annotated log |
| FeeStrategy.StepConsistent | realtime-15m-paper-trader-binance-GOLDMINE.py:146-198 | one bar keeps the invariant: a position means no cash and positive holdings, no position means no holdings |
| FeeStrategy.StateConsistent | realtime-15m-paper-trader-binance-GOLDMINE.py:137-198 | every bar's position is consistent, so cash = 0 or holdings = 0 |
| FeeStrategy.BoughtPositive | realtime-15m-paper-trader-binance-GOLDMINE.py:148-150 | all cash less the fee buys a positive amount |
| FeeStrategy.StepEffect | 2x-60d-daytrading_bitcoin-backtesting_15m-GOLDMINE.py:102-135 | a bar without a trade carries cash and holdings; a buy needs flat, Red, cash, RSI and ATR below their limits and sets holdings = cash(1-fee)/close, cash 0; a sell needs long, Green, holdings, RSI above, ATR below and sets cash = holdings·close·(1-fee), holdings 0; each logs what it did |
| FeeStrategy.TradeEffect | realtime-15m-paper-trader-binance-GOLDMINE.py:139-198 | every bar ≥ 1 has that effect on the previous bar's position and adds at most one log entry |
| FeeStrategy.NoTradeWhileUndefined | realtime-15m-paper-trader-binance-GOLDMINE.py:146 | a bar whose RSI or ATR is undefined never trades |
| FeeStrategy.NoTradeDuringWarmup | 2x-60d-daytrading_bitcoin-backtesting_15m-GOLDMINE.py:20-36 | no trade on the first rsi_window bars nor before the ATR window is full |
| FeeStrategy.NoTradeOnLastBar | realtime-15m-paper-trader-binance-GOLDMINE.py:60-67 | the last bar is never flagged by the lagged detector, so never trades |
| FeeStrategy.LogShape | realtime-1h-paper-trader-binance.py:168-229 | the log alternates Buy, Sell, ... from Buy, is odd exactly while a position is held, and its bars strictly increase |
| FeeStrategy.RunShape | 2.3x-15m-10-11-23-to-10-12.23-btc_paper_trader_binance.py:182-246 | a whole run: an alternating log on increasing bars in 1..n-1, and on every bar cash = 0 or holdings = 0 |
| FeeStrategy.StepCash | realtime-15m-paper-trader-binance-GOLDMINE.py:151-177 | one bar keeps cash non-negative or at the initial capital |
| FeeStrategy.CashNonNegativeOrInitial | realtime-15m-paper-trader-binance-GOLDMINE.py:129-177 | cash is always the initial capital or non-negative |
| FeeStrategy.ProceedsPositive | realtime-15m-paper-trader-binance-GOLDMINE.py:175-177 | selling positive holdings at a positive price yields positive cash after the fee |
| FeeStrategy.FeeRoundTrip | realtime-15m-paper-trader-binance-GOLDMINE.py:148-177 | buying with c at p and selling at q returns c·(1-fee)²·q/p |
| LiveTrader.LiveDecision | realtime-15m-paper-trader-binance-GOLDMINE.py:247-306 | no trade carries the previous row; a buy at the ticker price spends cash(1-fee), a sell yields holdings·price·(1-fee); a log entry is on bar i at the ticker price |
| LiveTrader.LiveMatchesStep | realtime-15m-paper-trader-binance-GOLDMINE.py:146-198 | on a consistent position, at the bar's close, the live decision is the retrospective step |
| LiveTrader.LiveNeverTrades | realtime-15m-paper-trader-binance-GOLDMINE.py:235-247 | the live step reads bar n-1, which the lagged detector never flags, so it only copies the previous row |
| LiveTrader.WithRow | realtime-15m-paper-trader-binance-GOLDMINE.py:226-228 | a new timestamp gets a copy of the last row; a known one leaves the column as it is |
| LiveTrader.WithStamp | realtime-15m-paper-trader-binance-GOLDMINE.py:226-228 | the index then holds the timestamp, appended when it was new |
| LiveTrader.LivePortfolio.constructor | realtime-15m-paper-trader-binance-GOLDMINE.py:473 | the table the retrospective run hands over |
| LiveTrader.LivePortfolio.EnsureRow | realtime-15m-paper-trader-binance-GOLDMINE.py:223-228 | the row for the latest timestamp exists afterwards; nothing else changes |
| LiveTrader.LivePortfolio.TradeLatest | realtime-15m-paper-trader-binance-GOLDMINE.py:235-316 | row n-1 becomes the live decision on row n-2; the total is valued at the ticker price; the log grows by the decision's trade; `value_if_held` uses the ticker price |
| LiveTrader.LivePortfolio.SingleRealtime | realtime-15m-paper-trader-binance-GOLDMINE.py:210-318 | the whole live step on the computed columns: the log never grows and row n-1 copies row n-2 |
| RowTrader.FrameOf | archive/realtime-1s-15m-paper-trader-binance.py:101-104 | the recomputed indicator table has one row per close |
| RowTrader.UpdateIndicators | archive/realtime-1s-15m-paper-trader-binance.py:99-104 | `calculate_macd`, `compute_rsi2` and the at-bar detector compute exactly that table |
| RowTrader.GainAboveFee | archive/realtime-1s-15m-paper-trader-binance.py:156 | `(price - last_buy)/last_buy > fee` iff price > last_buy·(1+fee) |
| RowTrader.Decide | archive/realtime-1s-15m-paper-trader-binance.py:123-178 | "Hold" iff no row is appended, and it keeps the globals; an appended row is all cash or all bitcoin with total = cash + holdings·price; "Buy" needs Red, RSI < 30 and cash and buys cash(1-fee)/price, recording the price; "Sell" needs Green, RSI > 70, holdings and a gain above the fee |
| RowTrader.NoBuyAfterBuy | archive/realtime-1s-15m-paper-trader-binance.py:131-151 | a buy leaves no cash, so the next decision is not a buy |
| RowTrader.NoSellAfterSell | archive/realtime-1s-15m-paper-trader-binance.py:154-174 | a sale leaves no holdings, so the next decision is not a sale |
| RowTrader.SellAfterBuy | archive/realtime-1s-15m-paper-trader-binance.py:136-160 | after a buy, a Green bar with RSI > 70 and a price above the buy by more than the fee sells |
| RowTrader.RowPortfolio.constructor | archive/realtime-1s-15m-paper-trader-binance.py:186-198 | one row of no holdings and all capital in cash; last_buy_price 999999 |
| RowTrader.RowPortfolio.MakeTradingDecision | archive/realtime-1s-15m-paper-trader-binance.py:117-178 | appends the decided row (at most one), rebinds the globals as decided, leaves the table unchanged on "Hold", and keeps every row all-in or all-out |
| Backtest.BacktestStrategy | archive/15m-paper-trader-binance-backtest-30d.py:77-98 | the final valuation is capital + position·last close of the specified run, and the log is the run's log |
| Backtest.BacktestFromHistogram | archive/15m-paper-trader-binance-backtest-30d.py:106-109 | the at-bar detector over the histogram, then the backtest |
| Backtest.RowStepInStep | archive/15m-paper-trader-binance-backtest-30d.py:82-93 | one row keeps capital = 0 or position = 0 and the alternation, and adds at most one entry |
| Backtest.RunInStep | archive/15m-paper-trader-binance-backtest-30d.py:78-93 | after every row capital = 0 or position = 0, and the log alternates BUY, SELL, ... from BUY |
| Backtest.RowStepEffect | archive/15m-paper-trader-binance-backtest-30d.py:84-93 | a BUY turns all capital into position = capital/close, a SELL all position into capital = position·close, and the entry records the state after it; buy has precedence |
| Backtest.RoundTripAtSamePrice | archive/15m-paper-trader-binance-backtest-30d.py:85-91 | a BUY and a later SELL at the same price give back exactly the capital |
| Backtest.NoTradeOnFirstRows | archive/15m-paper-trader-binance-backtest-30d.py:63-70 | with the at-bar detector rows 0 and 1 never trade |
| StopLoss.CurrentAtr | archive/25x-5yr-macd_stop_loss_strategy_bitcoin-backtesting.py:164-166 | the ATR recomputed on `data[:i+1]` is defined from bar 14 on and equals the full-series ATR at i |
| StopLoss.AtrNonNegative | archive/25x-5yr-macd_stop_loss_strategy_bitcoin-backtesting.py:27-34 | that ATR is not negative on well-formed bars |
| StopLoss.PrefixAtr | archive/25x-5yr-macd_stop_loss_strategy_bitcoin-backtesting.py:161-166 | the ATR column the loop sees is the full-series ATR, ready from bar 14 |
| StopLoss.MarketOf | archive/25x-5yr-macd_stop_loss_strategy_bitcoin-backtesting.py:95-112 | the three-point flags, RSI(14) and ATR columns are well formed |
| StopLoss.Columns | archive/25x-5yr-macd_stop_loss_strategy_bitcoin-backtesting.py:94-112 | the indicator section computes exactly those columns |
| StopLoss.Step | archive/25x-5yr-macd_stop_loss_strategy_bitcoin-backtesting.py:146-232 | `last_buy_price` and `stop_loss_atr` stay set or cleared together |
| StopLoss.TraceTo | archive/25x-5yr-macd_stop_loss_strategy_bitcoin-backtesting.py:146-158 | one state per bar up to k, the last coherent |
| StopLoss.TradeBar | archive/25x-5yr-macd_stop_loss_strategy_bitcoin-backtesting.py:161-232 | the loop body for bar i computes exactly the specified step |
| StopLoss.Simulate | archive/25x-5yr-macd_stop_loss_strategy_bitcoin-backtesting.py:114-241 | the returned columns, log and monthly values are those of the specified run |
| StopLoss.RunBars | archive/25x-5yr-macd_stop_loss_strategy_bitcoin-backtesting.py:146-233 | after the loop the arrays hold every bar's specified state and the log and monthly values are the specified ones |
| StopLoss.TraceExtends | archive/25x-5yr-macd_stop_loss_strategy_bitcoin-backtesting.py:146-158 | one more loop iteration extends the trace by that bar's step |
| StopLoss.RunsIntro | archive/25x-5yr-macd_stop_loss_strategy_bitcoin-backtesting.py:235-241 | columns copying the trace, with totals at the close, are the run's outcome |
| StopLoss.TradingStrategy | archive/25x-5yr-macd_stop_loss_strategy_bitcoin-backtesting.py:93-241 | `trading_strategy`: the specified run over the computed columns |
| StopLoss.LogWiden | archive/25x-5yr-macd_stop_loss_strategy_bitcoin-backtesting.py:161-162 | a bar without an entry keeps the log in shape |
| StopLoss.LogAppend | archive/25x-5yr-macd_stop_loss_strategy_bitcoin-backtesting.py:179-230 | an entry that alternates with the last keeps the log in shape |
| StopLoss.AlternateAppend | archive/25x-5yr-macd_stop_loss_strategy_bitcoin-backtesting.py:179-230 | buys at even and exits at odd positions survive an alternating append |
| StopLoss.OrderedAppend | archive/25x-5yr-macd_stop_loss_strategy_bitcoin-backtesting.py:179-230 | an entry on a later bar keeps one entry per bar in increasing order |
| StopLoss.PricedAppend | archive/25x-5yr-macd_stop_loss_strategy_bitcoin-backtesting.py:191-214 | a sale above and a stop-loss below the buy before keep the exits priced |
| StopLoss.BuyHolds | archive/25x-5yr-macd_stop_loss_strategy_bitcoin-backtesting.py:171-190 | a buy opens a position at the close from a state with none |
| StopLoss.SellHolds | archive/25x-5yr-macd_stop_loss_strategy_bitcoin-backtesting.py:191-210 | a sale closes the open position above its buy price |
| StopLoss.StopHolds | archive/25x-5yr-macd_stop_loss_strategy_bitcoin-backtesting.py:212-232 | a stop-loss closes the open position below its buy price |
| StopLoss.StepHolds | archive/25x-5yr-macd_stop_loss_strategy_bitcoin-backtesting.py:167-232 | one bar keeps the state in agreement with the log and the log in shape |
| StopLoss.TraceHolds | archive/25x-5yr-macd_stop_loss_strategy_bitcoin-backtesting.py:146-232 | after every bar: a position is open exactly after a buy; buys and exits alternate, one per bar in order, each sale above and each stop below its buy; cash = 0 or holdings = 0 |
| StopLoss.NoTradeDuringWarmup | archive/25x-5yr-macd_stop_loss_strategy_bitcoin-backtesting.py:161-162 | bars 1..14 trade nothing and only carry the state forward |
| StopLoss.MonthlyValues | archive/25x-5yr-macd_stop_loss_strategy_bitcoin-backtesting.py:157-158 | the initial capital, then the carried-forward total of every bar whose index is a multiple of 30 |
| StopLoss.StepEffect | archive/25x-5yr-macd_stop_loss_strategy_bitcoin-backtesting.py:167-232 | on bar i ≥ 15: the stop re-armed from last_buy_price; a buy (Red, cash, RSI < 45) spends all cash at the close and arms the stop; else a sale (Green, holdings, close above the last trade, RSI > 65) liquidates and clears it; else a stop-loss when the close is under the stop; else a carry |
| StopLoss.StepWarmup | archive/25x-5yr-macd_stop_loss_strategy_bitcoin-backtesting.py:161-162 | before bar 15 a bar logs nothing and only clears the counter |
| CounterStrategy.TraceTo | archive/0.8x-3.5x-macd_sell_at_peak_strategy_bitcoin-backtesting.py:113-159 | one row per bar up to k |
| CounterStrategy.TradeBar | archive/0.8x-3.5x-macd_sell_at_peak_strategy_bitcoin-backtesting.py:117-159 | the loop body for bar i computes exactly the specified step |
| CounterStrategy.RunBars | archive/1.4x-2022-23-strategy.py:69-104 | after the loop the arrays hold every bar's specified row and the log is the specified log |
| CounterStrategy.TraceExtends | archive/0.8x-3.5x-macd_sell_at_peak_strategy_bitcoin-backtesting.py:113-159 | one more loop iteration extends the trace by that bar's step |
| CounterStrategy.RunsIntro | archive/0.8x-3.5x-macd_sell_at_peak_strategy_bitcoin-backtesting.py:165 | columns copying the trace, with totals at the close, are the run's outcome |
| CounterStrategy.Simulate | archive/0.8x-3.5x-macd_sell_at_peak_strategy_bitcoin-backtesting.py:100-165 | the returned columns and log are those of the specified run |
| CounterStrategy.SellAtPeakMarket | archive/0.8x-3.5x-macd_sell_at_peak_strategy_bitcoin-backtesting.py:80-97 | three-point signals and RSI(14), one per bar |
| CounterStrategy.Annotate | archive/0.8x-3.5x-macd_sell_at_peak_strategy_bitcoin-backtesting.py:125-152 | one annotated entry per trade with the trade's RSI and its bar's support and resistance |
| CounterStrategy.SellAtPeakStrategy | archive/0.8x-3.5x-macd_sell_at_peak_strategy_bitcoin-backtesting.py:78-171 | the specified run, trades on bars 1..n-1, and the annotated log |
| CounterStrategy.PriceGatedMarket | archive/1.4x-2022-23-strategy.py:40-50 | crossover signals with RSI(21) 35/55, one per bar |
| CounterStrategy.TradeDates | archive/1.4x-2022-23-strategy.py:85-98 | one date per trade, the trade's bar |
| CounterStrategy.PriceGatedStrategy | archive/1.4x-2022-23-strategy.py:38-116 | the specified run and its trade dates |
| CounterStrategy.StepEffect | archive/0.8x-3.5x-macd_sell_at_peak_strategy_bitcoin-backtesting.py:117-159 | below two, a buy (tried first) turns all cash into cash/close and counts one up; else a sale turns all holdings into holdings·close; else the row is carried; at two the counter resets and nothing trades |
| CounterStrategy.LogWiden | archive/1.4x-2022-23-strategy.py:100-102 | a bar without a trade keeps the log's shape |
| CounterStrategy.LogAppend | archive/1.4x-2022-23-strategy.py:72-99 | an alternating trade that passes the price gate keeps the shape |
| CounterStrategy.CountsAppend | archive/0.8x-3.5x-macd_sell_at_peak_strategy_bitcoin-backtesting.py:123-141 | a trade extends the counter's run of consecutive trade bars |
| CounterStrategy.BuyHolds | archive/1.4x-2022-23-strategy.py:72-85 | a buy of all cash keeps the row, counter and log in agreement |
| CounterStrategy.SellHolds | archive/1.4x-2022-23-strategy.py:86-99 | a sale of all bitcoin keeps the row, counter and log in agreement |
| CounterStrategy.IdleHolds | archive/1.4x-2022-23-strategy.py:100-104 | a bar without a trade keeps them in agreement |
| CounterStrategy.StepBuyHolds | archive/0.8x-3.5x-macd_sell_at_peak_strategy_bitcoin-backtesting.py:119-136 | a buy bar keeps the invariant |
| CounterStrategy.StepSellHolds | archive/0.8x-3.5x-macd_sell_at_peak_strategy_bitcoin-backtesting.py:138-154 | a sell bar keeps the invariant |
| CounterStrategy.StepIdleHolds | archive/0.8x-3.5x-macd_sell_at_peak_strategy_bitcoin-backtesting.py:155-159 | a bar without a trade keeps the invariant |
| CounterStrategy.StepHolds | archive/0.8x-3.5x-macd_sell_at_peak_strategy_bitcoin-backtesting.py:117-159 | every bar keeps the invariant |
| CounterStrategy.TraceHolds | archive/1.4x-2022-23-strategy.py:69-104 | after every bar: holdings not negative; Buy/Sell alternate on increasing bars; each sale above the buy before and each later buy below the sale before (when gated); the counter counts the run of consecutive trade bars |
| CounterStrategy.TraceInOrOut | archive/1.4x-2022-23-strategy.py:73-88 | every row is all cash or all bitcoin |
| CounterStrategy.TradeDatesIncrease | archive/1.4x-2022-23-strategy.py:85-98 | `trade_dates` lists the trades' bars, strictly increasing, within 1..n-1 |
| CounterStrategy.WipeIsFinal | archive/0.8x-3.5x-macd_sell_at_peak_strategy_bitcoin-backtesting.py:155-159 | as written, once a reset row is empty every later row stays empty |
| CounterStrategy.CarryKeepsCapital | archive/1.4x-2022-23-strategy.py:100-104 | with the reset carrying the row, a positive capital never drops to an empty row |
| CounterStrategy.ResetMarket | archive/0.8x-3.5x-macd_sell_at_peak_strategy_bitcoin-backtesting.py:113-159 | a four-bar market the sell-at-peak loop can run |
| CounterStrategy.ResetWipesPortfolio | archive/0.8x-3.5x-macd_sell_at_peak_strategy_bitcoin-backtesting.py:158-159 | as written 100 doubles to 200 by bar 2 and is gone on bar 3 |
| CounterStrategy.CarriedResetKeepsPortfolio | archive/0.8x-3.5x-macd_sell_at_peak_strategy_bitcoin-backtesting.py:155-159 | with the row carried on the reset bar the 200 is kept |
| MaxCarry.TraceTo | archive/100xinbitcoin.py:58-89 | one row per bar up to k |
| MaxCarry.TradeBar | archive/100xinbitcoin.py:60-89 | the loop body for bar i, the two `max` lines included, computes exactly the specified step |
| MaxCarry.RunBars | archive/100xinbitcoin.py:58-89 | after the loop the arrays hold every bar's specified row and the log is the specified log |
| MaxCarry.TraceExtends | archive/100xinbitcoin.py:58-89 | one more loop iteration extends the trace by that bar's step |
| MaxCarry.RunsIntro | archive/100xinbitcoin.py:91 | columns copying the trace, with totals at the close, are the run's outcome |
| MaxCarry.Simulate | archive/100xinbitcoin.py:49-97 | the returned columns are those of the specified run |
| MaxCarry.MaxCarryMarket | archive/100xinbitcoin.py:33-43 | crossover signals 70/30 with RSI(14), one per bar |
| MaxCarry.TradingStrategy | archive/100xinbitcoin.py:31-97 | `trading_strategy`: the specified run over the computed columns |
| MaxCarry.StepEffect | archive/100xinbitcoin.py:60-89 | cash and holdings never fall; a buy raises holdings to max(cash/close, holdings) and keeps the cash; a sale raises cash to max(holdings·close, cash) and keeps the holdings; at two the counter resets and nothing is logged |
| MaxCarry.NeverDecreasing | archive/100xinbitcoin.py:52-89 | along a run cash and holdings only grow, so cash never falls below the initial capital |
| MaxCarry.LogOrdered | archive/100xinbitcoin.py:66-84 | the trades are on bars 1..k-1, one per bar, in increasing order |
| MaxCarry.BuyKeepsCash | archive/100xinbitcoin.py:62-88 | as written, a buy from cash c and no bitcoin ends with cash c and c/close bitcoin |
| MaxCarry.BuyMarket | archive/100xinbitcoin.py:61 | a two-bar market with a buy signal on bar 1 |
| MaxCarry.FreeBitcoin | archive/100xinbitcoin.py:61-89 | as written, 100 in cash becomes 100 in cash and 100 bitcoin at price 1 |
| MaxCarry.IntendedStepKeepsWorth | archive/100xinbitcoin.py:60-86 | without the `max` lines every bar keeps the row's worth at its close |
| MaxCarry.IntendedRunKeepsWorth | archive/100xinbitcoin.py:58-89 | along such a run each bar ends with the worth it started with at its close |
| MaxCarry.IntendedBuySpendsCash | archive/100xinbitcoin.py:62-63 | on the same two bars, the 100 becomes 100 bitcoin and no cash |
| Schedule.DigitChar | realtime-15m-paper-trader-binance-GOLDMINE.py:358 | a digit character whose value is the given digit |
| Schedule.StripLeft | realtime-15m-paper-trader-binance-GOLDMINE.py:358 | leading white space removed, and only white space |
| Schedule.StripRight | realtime-15m-paper-trader-binance-GOLDMINE.py:358 | trailing white space removed, and only white space |
| Schedule.DigitsOf | realtime-15m-paper-trader-binance-GOLDMINE.py:358 | the digits of a run, underscores dropped |
| Schedule.DigitsOfDigits | realtime-15m-paper-trader-binance-GOLDMINE.py:358 | dropping underscores leaves only digits |
| Schedule.ShowNat | realtime-15m-paper-trader-binance-GOLDMINE.py:458 | `str(n)` of a natural number is a non-empty digit string |
| Schedule.ValueOfShowNat | realtime-15m-paper-trader-binance-GOLDMINE.py:458 | the digits of `str(n)` spell n |
| Schedule.DigitsOfPlain | realtime-15m-paper-trader-binance-GOLDMINE.py:358 | a string of digits keeps all its characters |
| Schedule.StripUnspaced | realtime-15m-paper-trader-binance-GOLDMINE.py:358 | `strip()` leaves a string without outer white space unchanged |
| Schedule.PlainDigitRun | realtime-15m-paper-trader-binance-GOLDMINE.py:358 | a non-empty digit string is a valid digit run |
| Schedule.ParseShowNat | realtime-15m-paper-trader-binance-GOLDMINE.py:358 | reading `str(m)` back gives m |
| Schedule.ParseShow | realtime-15m-paper-trader-binance-GOLDMINE.py:358 | `int(str(n)) == n` for every integer |
| Schedule.Scaled | realtime-15m-paper-trader-binance-GOLDMINE.py:358-362 | a count times a unit multiple of 60 is a multiple of 60; a bad count raises, never "unsupported" |
| Schedule.IntervalToSeconds | realtime-15m-paper-trader-binance-GOLDMINE.py:356-364 | a result is a multiple of 60, and "unsupported" is raised exactly when the string ends in none of m, h, d |
| Schedule.IntervalSeconds | realtime-15m-paper-trader-binance-GOLDMINE.py:356-362 | "<n>m", "<n>h", "<n>d" read as 60n, 3600n and 86400n seconds |
| Schedule.IntervalErrors | realtime-15m-paper-trader-binance-GOLDMINE.py:356-364 | a bare number and "15s" are unsupported; "m" alone is not an integer |
| Schedule.PyMod | realtime-15m-paper-trader-binance-GOLDMINE.py:415 | Python's `%`: a remainder with the divisor's sign, and floor division times the divisor plus it gives the dividend |
| Schedule.BoundaryUnits | realtime-15m-paper-trader-binance-GOLDMINE.py:415-418 | the boundary is t's whole units plus `n - field % n` units, a multiple of the unit |
| Schedule.Advance | realtime-15m-paper-trader-binance-GOLDMINE.py:413-418 | a result lies within `datetime`'s range and on a unit; a zero count raises ZeroDivisionError, a non-integer count ValueError |
| Schedule.CalculateNextTimestamp | realtime-15m-paper-trader-binance-GOLDMINE.py:412-421 | a result lies within range with zero seconds and microseconds, and "unsupported" is raised exactly when the string ends in neither m nor h |
| Schedule.HourOnMinute | realtime-15m-paper-trader-binance-GOLDMINE.py:418 | a whole hour is a whole minute |
| Schedule.BoundaryAhead | realtime-15m-paper-trader-binance-GOLDMINE.py:415-418 | with n > 0 the boundary is strictly after t and at most n units after it |
| Schedule.BoundaryBehind | realtime-15m-paper-trader-binance-GOLDMINE.py:415-418 | with n < 0 the boundary is before t |
| Schedule.BoundaryAligned | realtime-15m-paper-trader-binance-GOLDMINE.py:415 | when n divides the period the boundary's field is a multiple of n |
| Schedule.IntervalCount | realtime-15m-paper-trader-binance-GOLDMINE.py:414-417 | `int(interval[:-1])` of "<n><unit>" is n |
| Schedule.NextTimestampOfInterval | realtime-15m-paper-trader-binance-GOLDMINE.py:412-418 | on "<n>m" and "<n>h": ZeroDivisionError for n = 0, else the boundary if it is in range |
| Schedule.NextMinuteBoundary | realtime-15m-paper-trader-binance-GOLDMINE.py:413-415 | "<n>m", n > 0: the result exists iff the boundary is in range, is strictly after t, at most n minutes later, on a whole minute, and on a multiple of n minutes when n divides 60 |
| Schedule.NextHourBoundary | realtime-15m-paper-trader-binance-GOLDMINE.py:416-418 | "<n>h", n > 0: the same with hours, aligned when n divides 24 |
| Schedule.NegativeCountGoesBack | realtime-15m-paper-trader-binance-GOLDMINE.py:414-418 | a negative count gives a time before t |
| Schedule.DayIntervalRaises | realtime-15m-paper-trader-binance-GOLDMINE.py:412-421 | "<n>d" raises here though `interval_to_seconds` reads it as n days |
| Dips.WindowMaxIsMax | archive/chart_generation.py:21-22 | the window maximum is one of the window's closes and at least every one |
| Dips.WindowMaxAgrees | archive/chart_generation.py:21-22 | two series equal on the window have the same maximum |
| Dips.Reference | archive/chart_generation.py:21-22 | the reference price of positive closes is positive |
| Dips.ReferenceIsWindowMax | archive/chart_generation.py:21-22 | the reference is the largest of the five closes before bar i |
| Dips.MarkDips | archive/chart_generation.py:20-28 | the loop marks exactly the specified bars, in order |
| Dips.DipsBeforeSound | archive/chart_generation.py:20-24 | every marked bar is from bar 5 on and passes the test |
| Dips.DipsBeforeComplete | archive/chart_generation.py:20-24 | every bar from 5 on that passes the test is marked |
| Dips.DipsBeforeIncreasing | archive/chart_generation.py:20 | the marks are in increasing bar order |
| Dips.DipsBeforeMeaning | archive/chart_generation.py:19-24 | the marks are exactly the passing bars from 5 on, in increasing order; bars 0..4 are never marked |
| Dips.IsDip | archive/chart_generation.py:21-24 | the loop's percentage test is the dip test |
| Dips.DipMeaning | archive/chart_generation.py:18-24 | with positive closes a change ≤ -9% is close ≤ 0.91·max; a dip is below the max, has a defined RSI in [30, 40] and MACD below signal |
| Dips.ReferenceWindow | archive/chart_generation.py:21 | the reference looks only at the five closes before bar i |
| Dips.ChartOf | archive/chart_generation.py:14-15 | the chart columns of a close series are well formed |
| Dips.NoDipDuringRsiWarmup | archive/chart_generation.py:14-23 | no dip before bar 13: the RSI is undefined there |
| Dips.FlatHasNoDips | archive/chart_generation.py:15-24 | a flat close series has no dips |
| Headlines.LowerChar | archive/data_analysis.py:18 | a lower-cased character is not an upper-case letter |
| Headlines.Lower | archive/data_analysis.py:18 | `lower()` keeps the length and lower-cases character by character |
| Headlines.CountOf | archive/data_analysis.py:20-27 | a category count is at most the number of titles |
| Headlines.GetStockMarketTrend | archive/data_analysis.py:14-30 | one (title, category) pair per title in input order; positive and negative counts are the numbers of such titles; the neutral count is 0 |
| Headlines.CountOfNext | main.py:18-29 | one more title adds one to its own category's count |
| Headlines.VerdictIsStrictMaximum | main.py:47-54 | each verdict names exactly the strictly largest count, and "mixed" exactly when none is |
| Headlines.NeverStable | main.py:47-54 | with the returned counts the page never says "stable"; it says positive iff positives outnumber negatives, negative iff the reverse |
| Headlines.CountsWithinTitles | main.py:21-28 | two categories' counts add to at most the number of titles, so positive + negative ≤ len(articles) |
| Headlines.CountsPartition | main.py:18-29 | the four categories' counts add up to the number of titles |
| Headlines.ClassifyIgnoresCase | main.py:19 | lower-casing twice changes nothing, and a title and its lower case get the same category |
| Headlines.SearchKeptByAppend | main.py:21 | a whole-word match survives text appended after a space |
| Headlines.PositiveKeptByAppend | main.py:21-23 | a Positive title stays Positive when more words follow it |
| Headlines.KeywordInsideWord | main.py:11 | "up" inside "update" is no match; "up" after a space is |
| Headlines.StocksUpIsPositive | main.py:19-23 | "Stocks UP" is Positive |
| Headlines.PositiveBeatsNegative | main.py:21-26 | a title with a positive and a negative word is Positive |
| Headlines.MarketsFallIsNegative | main.py:24-26 | "Markets fall" is Negative |
| Headlines.NoPositiveIn | main.py:11 | "markets fall" holds no positive keyword |

## Left out

- Network and exchange calls (`fetch_data`, `get_current_price`, `request_and_process_data`, `fetch_historical_data`, the GoogleNews search): prices, the ticker price and the headline titles are parameters.
- File I/O (`update_csv`'s file handling, `read_data_from_csv`, `read_data_from_excel`, `get_btc_data_for_dates`, `is_latest_data_available`, the `to_excel` calls): the model works on the columns those would read or write.
- Wall-clock driver loops, `time.sleep` and `next_target_time`, which reads the clock; `calculate_next_timestamp` takes the time as a parameter.
- Plotting and the Streamlit page: `plot_data` and the mplfinance charts; from the NASDAQ chart only the dip loop is modelled, as the list of marked bars; from the page only the verdict chain.
- The pandas calendar-window drivers (the 60-day chunk loop, the month-offset loops and the 2.3x CSV slicing): each run is over one given window of bars.
- Floating point: prices are exact `real`s, so IEEE rounding is not modelled. NaN is `None` and every comparison with it is false.
- Pandas indexing quirks: chained assignment and integer keys on a DatetimeIndex are modelled as plain positional arrays.
- The `adjust=True`, `min_periods` EMA of the 30-day backtest: `Backtest.BacktestFromHistogram` takes its histogram as a parameter.
- The unused indicator and signal functions: `compute_rsi` of the one-second trader (commented out at its call site), `simple_buy_signal`/`simple_sell_signal`, `compute_atr` of the 2022-23 and "100x" scripts (its column is never read), and the 30-day script's `compute_rsi` (never read by `backtest_strategy`).
- Python `str.lower()` and `\w` are modelled on ASCII only, and `int()` accepts ASCII digits and white space only; other Unicode letters, digits and spaces are not modelled.
- Schedule.CalculateNextTimestamp: `datetime`'s range and `timedelta`'s limits are modelled as one `Overflow` error for a result past 9999-12-31; a day is 86400 seconds, as for a naive `datetime`.
- Closes are taken to be positive, the data non-empty, and the fee to lie in [0, 1), as the scripts' data and constants are. On empty data the scripts raise an error (`data.iloc[0]`, `data.iloc[-1]`, `portfolio['cash'][0]`); the model's strategies require at least one bar instead. FeeStrategy.TradingStrategyFrom requires it only when current_time ≥ start_time, since the early return reads no data.
- LiveTrader.LiveDecision: the RSI and ATR the live branch writes into its `trade_log` entry are not carried; the live table's log holds the trades alone. `LiveTrader.LiveNeverTrades` shows the live step never adds an entry.
- The `Date` of a log entry is its bar's position in the data (`Trade.bar`), not the timestamp.

## Findings

| source | as written | input that shows it | evidently intended | confidence | as-written member | corrected member |
|---|---|---|---|---|---|---|
| archive/0.8x-3.5x-macd_sell_at_peak_strategy_bitcoin-backtesting.py:158-159 | after two trade bars in a row, the reset bar only sets `trades[i] = 0`, so its cash and holdings keep the zeros the columns were created with; every later bar then carries zeros (the same happens at archive/1.4x-2022-23-strategy.py:103-104) | signal columns, not bars that produce them: 100 of capital, a buy flag with RSI 20 on bar 1 at price 1 and a sell flag with RSI 80 on bar 2 at price 2; bar 2 holds 200 in cash, bar 3 holds nothing (WipeIsFinal states the wipe for every input) | the reset bar carries the previous row, as "reset trade counter weekly" says, and keeps the 200 | not executed | CounterStrategy.ResetWipesPortfolio, CounterStrategy.WipeIsFinal | CounterStrategy.CarriedResetKeepsPortfolio, CounterStrategy.CarryKeepsCapital |
| archive/100xinbitcoin.py:88-89 | after a trade, `max(cash[i], cash[i-1])` restores the cash a buy spent (and `max` of holdings the bitcoin a sale spent), so a buy creates bitcoin from nothing | signal columns, not bars that produce them: 100 in cash and a buy flag on bar 1 at price 1; bar 1 holds 100 in cash and 100 bitcoin (BuyKeepsCash states it for every input) | a buy turns all cash into bitcoin and keeps the row's worth at the close | not executed | MaxCarry.BuyKeepsCash, MaxCarry.FreeBitcoin | MaxCarry.IntendedStepKeepsWorth, MaxCarry.IntendedRunKeepsWorth |
