/**
 * The `trading_strategy` of the two "trade counter" backtests: the sell-at-peak script
 * (three-point detector, RSI gates 30/70 in the loop) and the 2022-23 script (crossover
 * signals, buys only below and sales only above the last trade price). Both keep a per-bar
 * counter of consecutive trade bars: a bar that follows two trade bars in a row trades
 * nothing, resets the counter, and leaves that row's cash and holdings at their initial
 * zeros.
 */
module CounterStrategy {
  import opened Wrappers
  import opened Indicators
  import opened Detectors
  import opened Trades

  /** A bar trades only while the counter of the bar before is below this. */
  const TradeLimit: nat := 2
  /** The starting `last_trade_price`. */
  const InitialLastTrade: real := 999999.0
  /** `calculate_support_resistance`'s default lookback. */
  const Lookback: nat := 20

  /** What a bar after two trade bars does to cash and holdings: as written the row keeps
      the zeros it was created with; `Carry` copies the previous row instead. */
  datatype ResetRule = Wipe | Carry

  /** The gates that differ between the scripts. An RSI bound of None means the loop tests no
      RSI (the signal column already contains it). */
  datatype Config = Config(buyRsiBelow: Option<real>, sellRsiAbove: Option<real>,
                           buyBelowLastTrade: bool, sellAboveLastTrade: bool, reset: ResetRule)

  /** The sell-at-peak script: RSI < 30 to buy, RSI > 70 and a price above the last trade to sell. */
  const SellAtPeak: Config := Config(Some(30.0), Some(70.0), false, true, Wipe)
  /** The 2022-23 script: RSI is part of the signals; buys below and sales above the last trade. */
  const PriceGated: Config := Config(None, None, true, true, Wipe)

  /** The RSI windows and signal thresholds of the two scripts. */
  const SellAtPeakRsiWindow: nat := 14
  const PriceGatedRsiWindow: nat := 21
  const PriceGatedBuyRsi: real := 35.0
  const PriceGatedSellRsi: real := 55.0

  /** The columns the loop reads. */
  datatype Market = Market(close: seq<real>, buy: seq<bool>, sell: seq<bool>, rsi: seq<Option<real>>)

  predicate WellFormed(m: Market) {
    |m.close| >= 1 && |m.buy| == |m.close| && |m.sell| == |m.close| && |m.rsi| == |m.close| &&
    AllPositive(m.close)
  }

  /** Row i of the portfolio and the running `last_trade_price`. */
  datatype Book = Book(cash: real, holdings: real, trades: nat, lastTradePrice: real)

  function Start(initial: real): Book {
    Book(initial, 0.0, 0, InitialLastTrade)
  }

  /** `RSI < bound` when the loop tests it. */
  predicate RsiBelow(bound: Option<real>, rsi: Option<real>) {
    bound.None? || Lt(rsi, bound.value)
  }

  /** `RSI > bound` when the loop tests it. */
  predicate RsiAbove(bound: Option<real>, rsi: Option<real>) {
    bound.None? || Gt(rsi, bound.value)
  }

  /** The condition of the buy branch on bar i. */
  predicate BuyOk(m: Market, cfg: Config, s: Book, i: nat)
    requires WellFormed(m) && i < |m.close|
  {
    m.buy[i] && s.cash > 0.0 && RsiBelow(cfg.buyRsiBelow, m.rsi[i]) &&
    (cfg.buyBelowLastTrade ==> m.close[i] < s.lastTradePrice)
  }

  /** The condition of the sell branch on bar i. */
  predicate SellOk(m: Market, cfg: Config, s: Book, i: nat)
    requires WellFormed(m) && i < |m.close|
  {
    m.sell[i] && s.holdings > 0.0 && (cfg.sellAboveLastTrade ==> s.lastTradePrice < m.close[i]) &&
    RsiAbove(cfg.sellRsiAbove, m.rsi[i])
  }

  /** Bar i of the loop, from row i-1. */
  function Step(m: Market, cfg: Config, s: Book, i: nat): (Book, Option<Trade>)
    requires WellFormed(m) && 1 <= i < |m.close|
  {
    var price := m.close[i];
    if s.trades < TradeLimit then
      if BuyOk(m, cfg, s, i) then
        (Book(0.0, s.cash / price, s.trades + 1, price), Some(Trade(i, Buy, price, s.cash / price, s.cash)))
      else if SellOk(m, cfg, s, i) then
        (Book(s.holdings * price, 0.0, s.trades + 1, price), Some(Trade(i, Sell, price, s.holdings, s.holdings * price)))
      else
        (Book(s.cash, s.holdings, 0, s.lastTradePrice), None)
    else if cfg.reset == Wipe then
      (Book(0.0, 0.0, 0, s.lastTradePrice), None)
    else
      (Book(s.cash, s.holdings, 0, s.lastTradePrice), None)
  }

  /** The rows 0..k-1 and the trades made on them. */
  datatype Trace = Trace(states: seq<Book>, log: seq<Trade>)

  function TraceTo(m: Market, cfg: Config, initial: real, k: nat): (t: Trace)
    requires WellFormed(m) && 1 <= k <= |m.close|
    ensures |t.states| == k
  {
    if k == 1 then Trace([Start(initial)], [])
    else
      var prev := TraceTo(m, cfg, initial, k - 1);
      var st := Step(m, cfg, prev.states[k - 2], k - 1);
      Trace(prev.states + [st.0], Extend(prev.log, st.1))
  }

  /** The portfolio columns and the trades of a run. */
  datatype Outcome = Outcome(holdings: seq<real>, cash: seq<real>, trades: seq<nat>, total: seq<real>,
                             log: seq<Trade>)

  /** `out` is the result of running the loop over all bars. */
  predicate Runs(m: Market, cfg: Config, initial: real, out: Outcome)
    requires WellFormed(m)
  {
    var n := |m.close|;
    var t := TraceTo(m, cfg, initial, n);
    |out.holdings| == n && |out.cash| == n && |out.trades| == n &&
    (forall i :: 0 <= i < n ==>
      out.holdings[i] == t.states[i].holdings && out.cash[i] == t.states[i].cash && out.trades[i] == t.states[i].trades) &&
    out.total == TotalsOf(out.holdings, out.cash, m.close) &&
    out.log == t.log
  }

  /** The body of the loop for bar i. The row starts as created, with no cash, no holdings
      and a zero counter. */
  method TradeBar(m: Market, cfg: Config, i: nat, prevCash: real, prevHoldings: real, prevTrades: nat,
                  lastTradePrice: real)
    returns (cash: real, holdings: real, trades: nat, lastTrade: real, trade: Option<Trade>)
    requires WellFormed(m) && 1 <= i < |m.close|
    ensures (Book(cash, holdings, trades, lastTrade), trade) ==
      Step(m, cfg, Book(prevCash, prevHoldings, prevTrades, lastTradePrice), i)
  {
    ghost var st := Step(m, cfg, Book(prevCash, prevHoldings, prevTrades, lastTradePrice), i);
    cash, holdings, trades, lastTrade, trade := 0.0, 0.0, 0, lastTradePrice, None;
    var price := m.close[i];
    if prevTrades < TradeLimit {
      if m.buy[i] && prevCash > 0.0 && RsiBelow(cfg.buyRsiBelow, m.rsi[i]) &&
         (cfg.buyBelowLastTrade ==> price < lastTradePrice) {
        holdings := prevCash / price;
        cash := 0.0;
        trades := prevTrades + 1;
        trade := Some(Trade(i, Buy, price, prevCash / price, prevCash));
        lastTrade := price;
      } else if m.sell[i] && prevHoldings > 0.0 && (cfg.sellAboveLastTrade ==> lastTradePrice < price) &&
                RsiAbove(cfg.sellRsiAbove, m.rsi[i]) {
        cash := prevHoldings * price;
        holdings := 0.0;
        trades := prevTrades + 1;
        trade := Some(Trade(i, Sell, price, prevHoldings, prevHoldings * price));
        lastTrade := price;
      } else {
        holdings, cash := prevHoldings, prevCash;
      }
    } else if cfg.reset == Carry {
      holdings, cash := prevHoldings, prevCash;
    }
    assert st.0 == Book(cash, holdings, trades, lastTrade) && st.1 == trade;
  }

  /** The loop over bars 1..n-1, filling the portfolio columns in place. */
  method RunBars(m: Market, cfg: Config, initial: real, holdings: array<real>, cash: array<real>, trades: array<nat>)
    returns (log: seq<Trade>, ghost states: seq<Book>)
    requires WellFormed(m) && holdings.Length == |m.close| && cash.Length == |m.close| && trades.Length == |m.close|
    requires holdings != cash && holdings[0] == 0.0 && cash[0] == initial && trades[0] == 0
    modifies holdings, cash, trades
    ensures Trace(states, log) == TraceTo(m, cfg, initial, |m.close|)
    ensures forall j :: 0 <= j < |m.close| ==>
      holdings[j] == states[j].holdings && cash[j] == states[j].cash && trades[j] == states[j].trades
  {
    var n := |m.close|;
    log := [];
    var lastTradePrice := InitialLastTrade;
    states := [Start(initial)];
    var i := 1;
    while i < n
      invariant 1 <= i <= n
      invariant Trace(states, log) == TraceTo(m, cfg, initial, i)
      invariant forall j :: 0 <= j < i ==> holdings[j] == states[j].holdings
      invariant forall j :: 0 <= j < i ==> cash[j] == states[j].cash
      invariant forall j :: 0 <= j < i ==> trades[j] == states[j].trades
      invariant lastTradePrice == states[i - 1].lastTradePrice
    {
      ghost var prev := Trace(states, log);
      var prevCash, prevHoldings, prevTrades := cash[i - 1], holdings[i - 1], trades[i - 1];
      assert Book(prevCash, prevHoldings, prevTrades, lastTradePrice) == states[i - 1];
      var c, h, k, lt, trade := TradeBar(m, cfg, i, prevCash, prevHoldings, prevTrades, lastTradePrice);
      Record(holdings, cash, trades, i, h, c, k);
      lastTradePrice := lt;
      states := states + [Book(c, h, k, lt)];
      log := Extend(log, trade);
      TraceExtends(m, cfg, initial, i, prev, Book(c, h, k, lt), trade, Trace(states, log));
      i := i + 1;
    }
  }

  /** One more bar of the trace, from the outcome of Step. */
  lemma TraceExtends(m: Market, cfg: Config, initial: real, i: nat, prev: Trace, b: Book, trade: Option<Trade>, next: Trace)
    requires WellFormed(m) && 1 <= i < |m.close| && prev == TraceTo(m, cfg, initial, i)
    requires (b, trade) == Step(m, cfg, prev.states[i - 1], i)
    requires next.states == prev.states + [b]
    requires next.log == Extend(prev.log, trade)
    ensures next == TraceTo(m, cfg, initial, i + 1)
  {
  }

  lemma RunsIntro(m: Market, cfg: Config, initial: real, t: Trace, out: Outcome)
    requires WellFormed(m) && t == TraceTo(m, cfg, initial, |m.close|)
    requires |out.holdings| == |m.close| && |out.cash| == |m.close| && |out.trades| == |m.close|
    requires forall j :: 0 <= j < |m.close| ==>
      out.holdings[j] == t.states[j].holdings && out.cash[j] == t.states[j].cash && out.trades[j] == t.states[j].trades
    requires out.total == TotalsOf(out.holdings, out.cash, m.close)
    requires out.log == t.log
    ensures Runs(m, cfg, initial, out)
  {
  }

  /** The portfolio loop and the `total` column on prepared signal columns. */
  method Simulate(m: Market, cfg: Config, initial: real) returns (out: Outcome)
    requires WellFormed(m)
    ensures Runs(m, cfg, initial, out)
  {
    var n := |m.close|;
    var holdings := new real[n](_ => 0.0);
    var cash := new real[n](_ => 0.0);
    var trades := new nat[n](_ => 0);
    cash[0] := initial;
    var log, states := RunBars(m, cfg, initial, holdings, cash, trades);
    var hs, cs, ks := holdings[..], cash[..], trades[..];
    var total := Totals(hs, cs, m.close);
    out := Outcome(hs, cs, ks, total, log);
    RunsIntro(m, cfg, initial, Trace(states, log), out);
  }

  // ---------------------------------------------------------------------------
  // The two scripts
  // ---------------------------------------------------------------------------

  /** The sell-at-peak columns: three-point troughs buy and peaks sell, RSI over 14 bars. */
  function SellAtPeakMarket(bars: seq<Bar>): (m: Market)
    requires |bars| >= 1 && AllPositive(Closes(bars))
    ensures WellFormed(m) && m.close == Closes(bars)
  {
    var close := Closes(bars);
    var hist := CalculateMacd(close).hist;
    Market(close, LocalMinFlags(hist), LocalMaxFlags(hist), ComputeRsi(close, SellAtPeakRsiWindow))
  }

  /** The log with each trade's RSI and its bar's support and resistance, as the sell-at-peak
      script records them. */
  function Annotate(bars: seq<Bar>, rsi: seq<Option<real>>, log: seq<Trade>): (e: seq<Entry>)
    requires |rsi| == |bars| && BarsWithin(log, 0, |bars|)
    ensures |e| == |log|
    ensures forall j :: 0 <= j < |log| ==> e[j].trade == log[j] && e[j].rsi == rsi[log[j].bar]
  {
    seq(|log|, j requires 0 <= j < |log| =>
      var sr := SupportResistance(bars, log[j].bar, Lookback);
      Entry(log[j], rsi[log[j].bar], sr.0, sr.1))
  }

  /** The sell-at-peak `trading_strategy`: the portfolio and the annotated trade log. */
  method SellAtPeakStrategy(bars: seq<Bar>, initial: real) returns (out: Outcome, entries: seq<Entry>)
    requires |bars| >= 1 && AllPositive(Closes(bars))
    ensures Runs(SellAtPeakMarket(bars), SellAtPeak, initial, out)
    ensures BarsWithin(out.log, 1, |bars|) && entries == Annotate(bars, SellAtPeakMarket(bars).rsi, out.log)
  {
    var close := Closes(bars);
    var macd := CalculateMacd(close);
    var rsi := ComputeRsi(close, SellAtPeakRsiWindow);
    var green, red := IdentifyPeaksThreePoint(macd.hist);
    var m := Market(close, red, green, rsi);
    out := Simulate(m, SellAtPeak, initial);
    TraceHolds(m, SellAtPeak, initial, |bars|);
    entries := Annotate(bars, rsi, out.log);
  }

  /** The 2022-23 columns: crossover signals with RSI over 21 bars. */
  function PriceGatedMarket(close: seq<real>): (m: Market)
    requires |close| >= 1 && AllPositive(close)
    ensures WellFormed(m) && m.close == close
  {
    var macd := CalculateMacd(close);
    var rsi := ComputeRsi(close, PriceGatedRsiWindow);
    Market(close, CrossoverBuy(macd, rsi, PriceGatedBuyRsi), CrossoverSell(macd, rsi, PriceGatedSellRsi), rsi)
  }

  /** `trade_dates`: the bar of every trade. */
  function TradeDates(log: seq<Trade>): (d: seq<nat>)
    ensures |d| == |log|
  {
    seq(|log|, j requires 0 <= j < |log| => log[j].bar)
  }

  /** The 2022-23 `trading_strategy`: the portfolio and the trade dates. */
  method PriceGatedStrategy(close: seq<real>, initial: real) returns (out: Outcome, dates: seq<nat>)
    requires |close| >= 1 && AllPositive(close)
    ensures Runs(PriceGatedMarket(close), PriceGated, initial, out) && dates == TradeDates(out.log)
  {
    out := Simulate(PriceGatedMarket(close), PriceGated, initial);
    dates := TradeDates(out.log);
  }

  // ---------------------------------------------------------------------------
  // One bar
  // ---------------------------------------------------------------------------

  /** What bar i does: a buy is tried first and a sale only if there is no buy, and both only
      while the previous counter is below two; a buy turns all cash into bitcoin at the close,
      a sale all bitcoin into cash, each adding one to the counter and setting the last trade
      price; any other bar sets the counter to zero, keeps the last trade price and copies the
      row, except that after two trade bars in a row `Wipe` leaves it empty. */
  lemma StepEffect(m: Market, cfg: Config, s: Book, i: nat)
    requires WellFormed(m) && 1 <= i < |m.close|
    ensures var r := Step(m, cfg, s, i); var p := m.close[i];
      (r.1.Some? <==> s.trades < TradeLimit && (BuyOk(m, cfg, s, i) || SellOk(m, cfg, s, i))) &&
      (r.1.Some? ==>
        r.0.trades == s.trades + 1 && r.0.lastTradePrice == p && r.1.value.bar == i && r.1.value.price == p) &&
      (r.1.Some? && r.1.value.action == Buy <==> s.trades < TradeLimit && BuyOk(m, cfg, s, i)) &&
      (r.1.Some? && r.1.value.action == Buy ==>
        r.0.cash == 0.0 && r.0.holdings * p == s.cash && r.0.holdings > 0.0 &&
        r.1.value.amount == r.0.holdings && r.1.value.value == s.cash) &&
      (r.1.Some? && r.1.value.action == Sell ==>
        !BuyOk(m, cfg, s, i) && SellOk(m, cfg, s, i) &&
        r.0.holdings == 0.0 && r.0.cash == s.holdings * p && r.0.cash > 0.0 &&
        r.1.value.amount == s.holdings && r.1.value.value == r.0.cash) &&
      (r.1.Some? ==> r.1.value.action != StopLoss) &&
      (r.1.None? ==> r.0.trades == 0 && r.0.lastTradePrice == s.lastTradePrice) &&
      (r.1.None? && (s.trades < TradeLimit || cfg.reset == Carry) ==>
        r.0.cash == s.cash && r.0.holdings == s.holdings) &&
      (s.trades >= TradeLimit && cfg.reset == Wipe ==> r.0.cash == 0.0 && r.0.holdings == 0.0)
  {
    var p := m.close[i];
    if s.trades < TradeLimit && BuyOk(m, cfg, s, i) {
      assert s.cash / p > 0.0 && s.cash / p * p == s.cash;
    } else if s.trades < TradeLimit && SellOk(m, cfg, s, i) {
      assert s.holdings * p > 0.0;
    }
  }

  // ---------------------------------------------------------------------------
  // Runs
  // ---------------------------------------------------------------------------

  /** The row after a bar agrees with the log so far: holdings are never negative; with
      holdings there is no cash and an odd number of trades; with cash there is an even
      number; the last trade price is that of the last trade, or the initial 999999. */
  predicate Holds(s: Book, log: seq<Trade>) {
    s.holdings >= 0.0 &&
    (s.holdings > 0.0 ==> s.cash == 0.0 && |log| % 2 == 1) &&
    (s.cash > 0.0 ==> |log| % 2 == 0) &&
    (|log| == 0 ==> s.lastTradePrice == InitialLastTrade) &&
    (|log| > 0 ==> s.lastTradePrice == log[|log| - 1].price)
  }

  /** With the sale gate every sale is above the trade before it (the buy it closes); with the
      buy gate every buy is below the trade before it (the sale before it), or below 999999. */
  predicate Priced(cfg: Config, log: seq<Trade>) {
    (cfg.sellAboveLastTrade ==> forall j :: 1 <= j < |log| && log[j].action == Sell ==>
      log[j].price > log[j - 1].price) &&
    (cfg.buyBelowLastTrade ==> forall j :: 0 <= j < |log| && log[j].action == Buy ==>
      log[j].price < (if j == 0 then InitialLastTrade else log[j - 1].price))
  }

  /** The counter of the row of bar i counts the trades on bars i, i-1, ... back to the last
      bar without a trade; it never exceeds two. */
  predicate Counts(s: Book, log: seq<Trade>, i: nat) {
    s.trades <= TradeLimit && s.trades <= |log| &&
    forall j :: |log| - s.trades <= j < |log| ==> log[j].bar + (|log| - 1 - j) == i
  }

  /** The log of bars below k: Buy, Sell, Buy, ... on increasing bars 1..k-1, priced as the
      gates demand. */
  predicate LogShape(cfg: Config, log: seq<Trade>, k: nat) {
    Alternates(log) && BarsIncreasing(log) && BarsWithin(log, 1, k) && Priced(cfg, log)
  }

  /** Row i of a run, with the log after it, is as the run promises. */
  predicate Good(cfg: Config, s: Book, log: seq<Trade>, i: nat) {
    Holds(s, log) && Counts(s, log, i) && LogShape(cfg, log, i + 1)
  }

  /** A bar without a trade keeps the log's shape for one more bar. */
  lemma LogWiden(cfg: Config, log: seq<Trade>, k: nat)
    requires LogShape(cfg, log, k)
    ensures LogShape(cfg, log, k + 1)
  {
  }

  /** A trade on bar k at position |log| keeps the shape, given the alternation and the gate
      its branch checked. */
  lemma LogAppend(cfg: Config, log: seq<Trade>, t: Trade, k: nat)
    requires LogShape(cfg, log, k) && 1 <= k == t.bar && t.action == (if |log| % 2 == 0 then Buy else Sell)
    requires t.action == Sell && cfg.sellAboveLastTrade && |log| > 0 ==> t.price > log[|log| - 1].price
    requires t.action == Buy && cfg.buyBelowLastTrade ==>
      t.price < (if |log| == 0 then InitialLastTrade else log[|log| - 1].price)
    ensures LogShape(cfg, log + [t], k + 1)
  {
    var log' := log + [t];
    assert forall j :: 0 <= j < |log| ==> log'[j] == log[j];
    AppendKeepsOrder(log, t, 1, k);
  }

  /** A trade on bar i extends the counter's run of consecutive trade bars. */
  lemma CountsAppend(s: Book, log: seq<Trade>, i: nat, t: Trade, trades: nat)
    requires 1 <= i && Counts(s, log, i - 1) && s.trades < TradeLimit && t.bar == i && trades == s.trades + 1
    ensures Counts(s.(trades := trades), log + [t], i)
  {
    var log' := log + [t];
    forall j | |log'| - trades <= j < |log'| ensures log'[j].bar + (|log'| - 1 - j) == i {
      if j < |log| {
        assert log'[j] == log[j];
      }
    }
  }

  /** A buy of all cash at price p on bar i keeps Holds, the counter's meaning and the log's
      shape. */
  lemma BuyHolds(cfg: Config, s: Book, log: seq<Trade>, i: nat, p: real)
    requires 1 <= i && p > 0.0 && Good(cfg, s, log, i - 1)
    requires s.trades < TradeLimit && s.cash > 0.0 && (cfg.buyBelowLastTrade ==> p < s.lastTradePrice)
    ensures Good(cfg, Book(0.0, s.cash / p, s.trades + 1, p), log + [Trade(i, Buy, p, s.cash / p, s.cash)], i)
  {
    assert s.cash / p > 0.0;
    var t := Trade(i, Buy, p, s.cash / p, s.cash);
    LogAppend(cfg, log, t, i);
    CountsAppend(s, log, i, t, s.trades + 1);
  }

  /** A sale of all bitcoin at price p on bar i keeps Holds, the counter's meaning and the
      log's shape. */
  lemma SellHolds(cfg: Config, s: Book, log: seq<Trade>, i: nat, p: real)
    requires 1 <= i && p > 0.0 && Good(cfg, s, log, i - 1)
    requires s.trades < TradeLimit && s.holdings > 0.0 && (cfg.sellAboveLastTrade ==> s.lastTradePrice < p)
    ensures Good(cfg, Book(s.holdings * p, 0.0, s.trades + 1, p), log + [Trade(i, Sell, p, s.holdings, s.holdings * p)], i)
  {
    assert s.holdings * p > 0.0;
    var t := Trade(i, Sell, p, s.holdings, s.holdings * p);
    LogAppend(cfg, log, t, i);
    CountsAppend(s, log, i, t, s.trades + 1);
  }

  /** A bar without a trade, carrying the row or leaving it empty, keeps Holds, the
      counter's meaning and the log's shape. */
  lemma IdleHolds(cfg: Config, s: Book, log: seq<Trade>, i: nat, b: Book)
    requires 1 <= i && Good(cfg, s, log, i - 1)
    requires b == Book(s.cash, s.holdings, 0, s.lastTradePrice) || b == Book(0.0, 0.0, 0, s.lastTradePrice)
    ensures Good(cfg, b, log, i)
  {
    LogWiden(cfg, log, i);
  }

  /** Bar i as a buy bar keeps Holds, the counter's meaning and the log's shape. */
  lemma StepBuyHolds(m: Market, cfg: Config, s: Book, log: seq<Trade>, i: nat)
    requires WellFormed(m) && 1 <= i < |m.close| && Good(cfg, s, log, i - 1)
    requires s.trades < TradeLimit && BuyOk(m, cfg, s, i)
    ensures var st := Step(m, cfg, s, i); Good(cfg, st.0, Extend(log, st.1), i)
  {
    var p := m.close[i];
    assert Step(m, cfg, s, i) == (Book(0.0, s.cash / p, s.trades + 1, p), Some(Trade(i, Buy, p, s.cash / p, s.cash)));
    BuyHolds(cfg, s, log, i, p);
  }

  /** Bar i as a sell bar keeps Holds, the counter's meaning and the log's shape. */
  lemma StepSellHolds(m: Market, cfg: Config, s: Book, log: seq<Trade>, i: nat)
    requires WellFormed(m) && 1 <= i < |m.close| && Good(cfg, s, log, i - 1)
    requires s.trades < TradeLimit && !BuyOk(m, cfg, s, i) && SellOk(m, cfg, s, i)
    ensures var st := Step(m, cfg, s, i); Good(cfg, st.0, Extend(log, st.1), i)
  {
    var p := m.close[i];
    var b, t := Book(s.holdings * p, 0.0, s.trades + 1, p), Trade(i, Sell, p, s.holdings, s.holdings * p);
    assert Step(m, cfg, s, i) == (b, Some(t));
    SellHolds(cfg, s, log, i, p);
    assert Extend(log, Some(t)) == log + [t];
  }

  /** Bar i without a trade keeps Holds, the counter's meaning and the log's shape. */
  lemma StepIdleHolds(m: Market, cfg: Config, s: Book, log: seq<Trade>, i: nat)
    requires WellFormed(m) && 1 <= i < |m.close| && Good(cfg, s, log, i - 1)
    requires s.trades >= TradeLimit || !(BuyOk(m, cfg, s, i) || SellOk(m, cfg, s, i))
    ensures var st := Step(m, cfg, s, i); Good(cfg, st.0, Extend(log, st.1), i)
  {
    IdleHolds(cfg, s, log, i, Step(m, cfg, s, i).0);
  }

  /** Every bar keeps Holds, the counter's meaning and the log's shape. */
  lemma StepHolds(m: Market, cfg: Config, s: Book, log: seq<Trade>, i: nat)
    requires WellFormed(m) && 1 <= i < |m.close| && Good(cfg, s, log, i - 1)
    ensures var st := Step(m, cfg, s, i); Good(cfg, st.0, Extend(log, st.1), i)
  {
    if s.trades >= TradeLimit || !(BuyOk(m, cfg, s, i) || SellOk(m, cfg, s, i)) {
      StepIdleHolds(m, cfg, s, log, i);
    } else if BuyOk(m, cfg, s, i) {
      StepBuyHolds(m, cfg, s, log, i);
    } else {
      StepSellHolds(m, cfg, s, log, i);
    }
  }

  /** After every bar of a run: at most one trade per bar, on bars in increasing order and
      none on bar 0; trades alternate Buy, Sell, ... starting with Buy; every row holds only
      cash or only bitcoin; a sale is above the buy before it (both scripts) and, in the
      2022-23 script, a buy is below the sale before it; the counter of row k-1 is the number
      of trades on the bars right before it, at most two. */
  lemma {:induction false} TraceHolds(m: Market, cfg: Config, initial: real, k: nat)
    requires WellFormed(m) && 1 <= k <= |m.close|
    ensures var t := TraceTo(m, cfg, initial, k); var s := t.states[k - 1];
      Good(cfg, s, t.log, k - 1) && (s.cash == 0.0 || s.holdings == 0.0)
  {
    if k > 1 {
      TraceHolds(m, cfg, initial, k - 1);
      var prev := TraceTo(m, cfg, initial, k - 1);
      StepHolds(m, cfg, prev.states[k - 2], prev.log, k - 1);
    }
  }

  /** After every bar the portfolio is all cash or all bitcoin. */
  lemma TraceInOrOut(m: Market, cfg: Config, initial: real, k: nat)
    requires WellFormed(m) && 1 <= k <= |m.close|
    ensures var s := TraceTo(m, cfg, initial, k).states[k - 1]; s.cash == 0.0 || s.holdings == 0.0
  {
    TraceHolds(m, cfg, initial, k);
  }

  /** The trades of a run, one per trade bar, in increasing bar order; `trade_dates` lists
      exactly those bars, in the same order. */
  lemma TradeDatesIncrease(m: Market, cfg: Config, initial: real)
    requires WellFormed(m)
    ensures var log := TraceTo(m, cfg, initial, |m.close|).log; var d := TradeDates(log);
      (forall j :: 0 <= j < |d| ==> d[j] == log[j].bar && 1 <= d[j] < |m.close|) &&
      (forall j, l :: 0 <= j < l < |d| ==> d[j] < d[l])
  {
    TraceHolds(m, cfg, initial, |m.close|);
  }

  /** As written, the bar after two trade bars in a row leaves the row empty, and every later
      row then stays empty with no further trade: the portfolio is lost for good. */
  lemma {:induction false} WipeIsFinal(m: Market, cfg: Config, initial: real, j: nat, k: nat)
    requires WellFormed(m) && cfg.reset == Wipe && 1 <= j < k <= |m.close|
    requires TraceTo(m, cfg, initial, j).states[j - 1].trades >= TradeLimit
    ensures var t := TraceTo(m, cfg, initial, k);
      t.states[k - 1].cash == 0.0 && t.states[k - 1].holdings == 0.0 && t.log == TraceTo(m, cfg, initial, j).log
  {
    if k > j + 1 {
      WipeIsFinal(m, cfg, initial, j, k - 1);
    }
  }

  /** With `Carry`, a positive starting capital is never lost: every row has cash or bitcoin. */
  lemma {:induction false} CarryKeepsCapital(m: Market, cfg: Config, initial: real, k: nat)
    requires WellFormed(m) && cfg.reset == Carry && initial > 0.0 && 1 <= k <= |m.close|
    ensures var s := TraceTo(m, cfg, initial, k).states[k - 1];
      s.cash > 0.0 || s.holdings > 0.0
  {
    if k > 1 {
      CarryKeepsCapital(m, cfg, initial, k - 1);
      StepEffect(m, cfg, TraceTo(m, cfg, initial, k - 1).states[k - 2], k - 1);
    }
  }

  // ---------------------------------------------------------------------------
  // The reset as written and as intended
  // ---------------------------------------------------------------------------

  /** Signal columns of four bars (not bars that produce them) on which the sell-at-peak loop
      buys on bar 1 and sells on bar 2. */
  function ResetMarket(): (m: Market)
    ensures WellFormed(m)
  {
    Market([1.0, 1.0, 2.0, 2.0], [false, true, false, false], [false, false, true, false],
           [None, Some(20.0), Some(80.0), None])
  }

  /** As written, 100 of capital doubles to 200 by bar 2 and is gone on bar 3. */
  lemma ResetWipesPortfolio()
    ensures TraceTo(ResetMarket(), SellAtPeak, 100.0, 3).states[2] == Book(200.0, 0.0, 2, 2.0)
    ensures TraceTo(ResetMarket(), SellAtPeak, 100.0, 4).states[3] == Book(0.0, 0.0, 0, 2.0)
  {
    var m := ResetMarket();
    assert TraceTo(m, SellAtPeak, 100.0, 2).states[1] == Book(0.0, 100.0, 1, 1.0);
  }

  /** With the reset carrying the row, the same bars keep the 200. */
  lemma CarriedResetKeepsPortfolio()
    ensures TraceTo(ResetMarket(), SellAtPeak.(reset := Carry), 100.0, 4).states[3] == Book(200.0, 0.0, 0, 2.0)
  {
    var m := ResetMarket();
    var cfg := SellAtPeak.(reset := Carry);
    assert TraceTo(m, cfg, 100.0, 2).states[1] == Book(0.0, 100.0, 1, 1.0);
    assert TraceTo(m, cfg, 100.0, 3).states[2] == Book(200.0, 0.0, 2, 2.0);
  }
}
