/**
 * `trading_strategy` of the five-year stop-loss backtest. The indicator columns are the
 * MACD histogram with its three-point extrema (a Red trough buys, a Green peak sells) and the
 * 14-bar rolling-mean RSI. From bar 15 on, every bar first re-arms the stop at
 * `last_buy_price - 2 * ATR` (ATR recomputed on the data up to the bar), then tries a buy,
 * then a sell above the last trade price, then the stop-loss. Trades are fee-free and all in
 * or all out.
 */
module StopLoss {
  import opened Wrappers
  import opened Indicators
  import opened Detectors
  import opened Trades

  const AtrWindow: nat := 14
  const AtrMultiplier: real := 2.0
  /** The window of `compute_rsi`. */
  const RsiWindow: nat := 14
  const RsiBuyBelow: real := 45.0
  const RsiSellAbove: real := 65.0
  /** The lookback of `calculate_support_resistance`. */
  const Lookback: nat := 20
  /** The starting value of `last_trade_price`. */
  const InitialLastTrade: real := 999999.0
  /** A monthly value is recorded on every bar whose index is a multiple of this. */
  const MonthBars: nat := 30

  /** The data table with the columns the loop reads. `atr[i]` is the ATR the loop computes at
      bar i, `support[i]` and `resistance[i]` the levels it logs for a trade at bar i. */
  datatype Market = Market(bars: seq<Bar>, red: seq<bool>, green: seq<bool>, rsi: seq<Option<real>>,
                           atr: seq<Option<real>>, support: seq<real>, resistance: seq<real>)

  predicate PositiveCloses(bars: seq<Bar>) {
    forall i :: 0 <= i < |bars| ==> bars[i].close > 0.0
  }

  /** From bar 14 on the ATR exists and is not negative. */
  predicate AtrReady(atr: seq<Option<real>>) {
    forall i :: AtrWindow <= i < |atr| ==> atr[i].Some? && atr[i].value >= 0.0
  }

  predicate WellFormed(m: Market) {
    |m.bars| >= 1 && |m.red| == |m.bars| && |m.green| == |m.bars| && |m.rsi| == |m.bars| &&
    |m.atr| == |m.bars| && |m.support| == |m.bars| && |m.resistance| == |m.bars| &&
    PositiveCloses(m.bars) && AtrReady(m.atr)
  }

  /** `calculate_atr(data.iloc[:i + 1]).iloc[-1]`: the ATR computed on the data up to bar i.
      It is the full-series ATR at bar i. */
  function CurrentAtr(bars: seq<Bar>, i: nat): (a: real)
    requires AtrWindow <= i + 1 && i < |bars|
    ensures CalculateAtr(bars, AtrWindow)[i] == Some(a)
  {
    AtrDefined(bars[..i + 1], AtrWindow, i);
    AtrCausal(bars, AtrWindow, i + 1, i);
    CalculateAtr(bars[..i + 1], AtrWindow)[i].value
  }

  /** From bar 14 on the ATR window holds no bar 0, so every true range in it is a maximum of
      absolute values and the ATR is never negative. */
  lemma AtrNonNegative(bars: seq<Bar>, i: nat)
    requires AtrWindow <= i < |bars|
    ensures CurrentAtr(bars, i) >= 0.0
  {
    var x := Defined(TrueRange(bars));
    forall k | 0 <= k <= i && i < k + AtrWindow && x[k].Some? ensures x[k].value >= 0.0 {
      assert k >= 1 && x[k].value == TrueRangeAt(bars, k);
    }
    RollingMeanNonNegative(x, AtrWindow, i);
  }

  /** The ATR column as the loop sees it, bar by bar on the data up to the bar: it is the
      full-series ATR. */
  function PrefixAtr(bars: seq<Bar>): (atr: seq<Option<real>>)
    ensures atr == CalculateAtr(bars, AtrWindow) && AtrReady(atr)
  {
    var atr := seq(|bars|, i requires 0 <= i < |bars| =>
      if AtrWindow <= i + 1 then Some(CurrentAtr(bars, i)) else None);
    forall i | 0 <= i < |bars| ensures atr[i] == CalculateAtr(bars, AtrWindow)[i] {
      if AtrWindow > i + 1 {
        AtrDefined(bars, AtrWindow, i);
      }
    }
    forall i | AtrWindow <= i < |bars| ensures atr[i].Some? && atr[i].value >= 0.0 {
      AtrNonNegative(bars, i);
    }
    atr
  }

  /** The columns `trading_strategy` uses: the three-point extrema of the MACD histogram, the
      RSI, the ATR, and the support and resistance of every bar. */
  function MarketOf(bars: seq<Bar>): (m: Market)
    requires |bars| >= 1 && PositiveCloses(bars)
    ensures WellFormed(m) && m.bars == bars
  {
    var close := Closes(bars);
    var hist := CalculateMacd(close).hist;
    Market(bars, LocalMinFlags(hist), LocalMaxFlags(hist), ComputeRsi(close, RsiWindow), PrefixAtr(bars),
           seq(|bars|, i requires 0 <= i < |bars| => SupportResistance(bars, i, Lookback).0),
           seq(|bars|, i requires 0 <= i < |bars| => SupportResistance(bars, i, Lookback).1))
  }

  /** The indicator section of `trading_strategy`, with the detector loop. */
  method Columns(bars: seq<Bar>) returns (m: Market)
    requires |bars| >= 1 && PositiveCloses(bars)
    ensures m == MarketOf(bars)
  {
    var close := Closes(bars);
    var macd := CalculateMacd(close);
    var rsi := ComputeRsi(close, RsiWindow);
    var green, red := IdentifyPeaksThreePoint(macd.hist);
    m := Market(bars, red, green, rsi, PrefixAtr(bars),
                seq(|bars|, i requires 0 <= i < |bars| => SupportResistance(bars, i, Lookback).0),
                seq(|bars|, i requires 0 <= i < |bars| => SupportResistance(bars, i, Lookback).1));
  }

  /** The loop state after a bar: its cash, holdings and trade counter, and the variables
      `last_buy_price`, `stop_loss_atr` and `last_trade_price` (None stands for Python's None). */
  datatype Book = Book(cash: real, holdings: real, trades: nat, lastBuy: Option<real>, stop: Option<real>,
                       lastTradePrice: real)

  /** `last_buy_price` and `stop_loss_atr` are set and cleared together. */
  predicate Coherent(s: Book) {
    s.lastBuy.Some? <==> s.stop.Some?
  }

  /** Python truthiness of a number that may be None. */
  predicate Truthy(x: Option<real>) {
    x.Some? && x.value != 0.0
  }

  /** The cash a full sale of `holdings` at `price` brings in. */
  function Proceeds(holdings: real, price: real): real {
    holdings * price
  }

  function Start(initial: real): Book {
    Book(initial, 0.0, 0, None, None, InitialLastTrade)
  }

  /** Bar i of the loop, from the state after bar i-1. */
  function Step(m: Market, s: Book, i: nat): (r: (Book, Option<Entry>))
    requires WellFormed(m) && Coherent(s) && 1 <= i < |m.bars|
    ensures Coherent(r.0)
  {
    if i <= AtrWindow then (s.(trades := 0), None)
    else
      var price := m.bars[i].close;
      var atr := m.atr[i].value;
      var stop := if s.stop.Some? then Some(s.lastBuy.value - AtrMultiplier * atr) else None;
      var sr := (m.support[i], m.resistance[i]);
      if m.red[i] && s.cash > 0.0 && Lt(m.rsi[i], RsiBuyBelow) then
        var amount := s.cash / price;
        (Book(0.0, amount, s.trades + 1, Some(price), Some(price - AtrMultiplier * atr), price),
         Some(Entry(Trade(i, Buy, price, amount, s.cash), m.rsi[i], sr.0, sr.1)))
      else if m.green[i] && s.holdings > 0.0 && s.lastTradePrice < price && Gt(m.rsi[i], RsiSellAbove) then
        (Book(Proceeds(s.holdings, price), 0.0, s.trades + 1, None, None, price),
         Some(Entry(Trade(i, Sell, price, s.holdings, Proceeds(s.holdings, price)), m.rsi[i], sr.0, sr.1)))
      else if Truthy(s.lastBuy) && Truthy(stop) && s.holdings > 0.0 && price < stop.value then
        (Book(Proceeds(s.holdings, price), 0.0, s.trades + 1, None, None, s.lastTradePrice),
         Some(Entry(Trade(i, StopLoss, price, s.holdings, Proceeds(s.holdings, price)), m.rsi[i], sr.0, sr.1)))
      else
        (Book(s.cash, s.holdings, 0, s.lastBuy, stop, s.lastTradePrice), None)
  }

  /** The states of bars 0..k-1, the log and the monthly values after them. */
  datatype Trace = Trace(states: seq<Book>, log: seq<Entry>, monthly: seq<real>)

  function TraceTo(m: Market, initial: real, k: nat): (t: Trace)
    requires WellFormed(m) && 1 <= k <= |m.bars|
    ensures |t.states| == k && Coherent(t.states[k - 1])
  {
    if k == 1 then Trace([Start(initial)], [], [initial])
    else
      var prev := TraceTo(m, initial, k - 1);
      var s := prev.states[k - 2];
      var st := Step(m, s, k - 1);
      var mark := if (k - 1) % MonthBars == 0 then [Worth(s.cash, s.holdings, m.bars[k - 1].close)] else [];
      Trace(prev.states + [st.0], prev.log + (if st.1.Some? then [st.1.value] else []), prev.monthly + mark)
  }

  /** What `trading_strategy` returns: the portfolio columns, the trade log and the monthly
      portfolio values. */
  datatype Outcome = Outcome(holdings: seq<real>, cash: seq<real>, trades: seq<nat>, total: seq<real>,
                             log: seq<Entry>, monthly: seq<real>)

  /** `out` is the result of running the loop over all bars. */
  predicate Runs(m: Market, initial: real, out: Outcome)
    requires WellFormed(m)
  {
    var n := |m.bars|;
    var t := TraceTo(m, initial, n);
    |out.holdings| == n && |out.cash| == n && |out.trades| == n &&
    (forall i :: 0 <= i < n ==>
      out.holdings[i] == t.states[i].holdings && out.cash[i] == t.states[i].cash && out.trades[i] == t.states[i].trades) &&
    out.total == TotalsOf(out.holdings, out.cash, Closes(m.bars)) &&
    out.log == t.log && out.monthly == t.monthly
  }

  /** The body of the loop for bar i after the carry-forward of cash and holdings: the ATR
      re-arm and the buy / sell / stop-loss chain. */
  method TradeBar(m: Market, i: nat, prevCash: real, prevHoldings: real, prevTrades: nat,
                  lastBuyPrice: Option<real>, stopLossAtr: Option<real>, lastTradePrice: real)
    returns (cash: real, holdings: real, trades: nat, lastBuy: Option<real>, stop: Option<real>,
             lastTrade: real, entry: Option<Entry>)
    requires WellFormed(m) && 1 <= i < |m.bars| && (lastBuyPrice.Some? <==> stopLossAtr.Some?)
    ensures (Book(cash, holdings, trades, lastBuy, stop, lastTrade), entry) ==
      Step(m, Book(prevCash, prevHoldings, prevTrades, lastBuyPrice, stopLossAtr, lastTradePrice), i)
  {
    ghost var prev := Book(prevCash, prevHoldings, prevTrades, lastBuyPrice, stopLossAtr, lastTradePrice);
    cash, holdings, trades := prevCash, prevHoldings, 0;
    lastBuy, stop, lastTrade, entry := lastBuyPrice, stopLossAtr, lastTradePrice, None;
    if i <= AtrWindow {
      return;
    }
    var price := m.bars[i].close;
    var sr := (m.support[i], m.resistance[i]);
    var currentAtr := m.atr[i].value;
    if stop.Some? {
      stop := Some(lastBuy.value - AtrMultiplier * currentAtr);
    }
    ghost var st := Step(m, prev, i);
    if m.red[i] && prevCash > 0.0 && Lt(m.rsi[i], RsiBuyBelow) {
      lastBuy := Some(price);
      stop := Some(price - AtrMultiplier * currentAtr);
      holdings := prevCash / price;
      cash := 0.0;
      trades := prevTrades + 1;
      entry := Some(Entry(Trade(i, Buy, price, prevCash / price, prevCash), m.rsi[i], sr.0, sr.1));
      lastTrade := price;
      assert st.0 == Book(cash, holdings, trades, lastBuy, stop, lastTrade) && st.1 == entry;
    } else if m.green[i] && prevHoldings > 0.0 && lastTradePrice < price && Gt(m.rsi[i], RsiSellAbove) {
      lastBuy, stop := None, None;
      cash := Proceeds(prevHoldings, price);
      holdings := 0.0;
      trades := prevTrades + 1;
      entry := Some(Entry(Trade(i, Sell, price, prevHoldings, Proceeds(prevHoldings, price)), m.rsi[i], sr.0, sr.1));
      lastTrade := price;
      assert st.0.cash == cash && st.0.holdings == holdings && st.0.trades == trades;
      assert st.0.lastBuy == lastBuy && st.0.stop == stop && st.0.lastTradePrice == lastTrade;
      assert st.1.Some? && st.1.value.trade == entry.value.trade && st.1.value.rsi == entry.value.rsi;
      assert st.1.value.support == entry.value.support && st.1.value.resistance == entry.value.resistance;
    } else if Truthy(lastBuy) && Truthy(stop) && prevHoldings > 0.0 && price < stop.value {
      cash := Proceeds(prevHoldings, price);
      holdings := 0.0;
      trades := prevTrades + 1;
      entry := Some(Entry(Trade(i, StopLoss, price, prevHoldings, Proceeds(prevHoldings, price)), m.rsi[i], sr.0, sr.1));
      lastBuy, stop := None, None;
      assert st.0.cash == cash && st.0.holdings == holdings && st.0.trades == trades;
      assert st.0.lastBuy == lastBuy && st.0.stop == stop && st.0.lastTradePrice == lastTrade;
      assert st.1.Some? && st.1.value.trade == entry.value.trade && st.1.value.rsi == entry.value.rsi;
      assert st.1.value.support == entry.value.support && st.1.value.resistance == entry.value.resistance;
    } else {
      assert st.0 == Book(cash, holdings, trades, lastBuy, stop, lastTrade) && st.1 == entry;
    }
  }

  /** `trading_strategy(data, initial_capital)` on the prepared columns. */
  method Simulate(m: Market, initial: real) returns (out: Outcome)
    requires WellFormed(m)
    ensures Runs(m, initial, out)
  {
    var n := |m.bars|;
    var holdings := new real[n](_ => 0.0);
    var cash := new real[n](_ => 0.0);
    var trades := new nat[n](_ => 0);
    cash[0] := initial;
    var log, monthly, states := RunBars(m, initial, holdings, cash, trades);
    var hs, cs, ks := holdings[..], cash[..], trades[..];
    var total := Totals(hs, cs, Closes(m.bars));
    out := Outcome(hs, cs, ks, total, log, monthly);
    RunsIntro(m, initial, Trace(states, log, monthly), out);
  }

  /** The loop over bars 1..n-1, filling the portfolio columns in place: every bar starts
      from the previous bar's cash, holdings and trade counter. */
  method RunBars(m: Market, initial: real, holdings: array<real>, cash: array<real>, trades: array<nat>)
    returns (log: seq<Entry>, monthly: seq<real>, ghost states: seq<Book>)
    requires WellFormed(m) && holdings.Length == |m.bars| && cash.Length == |m.bars| && trades.Length == |m.bars|
    requires holdings != cash && holdings[0] == 0.0 && cash[0] == initial && trades[0] == 0
    modifies holdings, cash, trades
    ensures Trace(states, log, monthly) == TraceTo(m, initial, |m.bars|)
    ensures forall j :: 0 <= j < |m.bars| ==>
      holdings[j] == states[j].holdings && cash[j] == states[j].cash && trades[j] == states[j].trades
  {
    var n := |m.bars|;
    monthly := [initial];
    log := [];
    var lastBuyPrice: Option<real> := None;
    var stopLossAtr: Option<real> := None;
    var lastTradePrice := InitialLastTrade;
    states := [Start(initial)];
    var i := 1;
    while i < n
      invariant 1 <= i <= n
      invariant Trace(states, log, monthly) == TraceTo(m, initial, i)
      invariant forall j :: 0 <= j < i ==> holdings[j] == states[j].holdings
      invariant forall j :: 0 <= j < i ==> cash[j] == states[j].cash
      invariant forall j :: 0 <= j < i ==> trades[j] == states[j].trades
      invariant lastBuyPrice == states[i - 1].lastBuy && stopLossAtr == states[i - 1].stop
      invariant lastTradePrice == states[i - 1].lastTradePrice
    {
      ghost var prev := Trace(states, log, monthly);
      var prevCash, prevHoldings, prevTrades := cash[i - 1], holdings[i - 1], trades[i - 1];
      assert Book(prevCash, prevHoldings, prevTrades, lastBuyPrice, stopLossAtr, lastTradePrice) == states[i - 1];
      var total := Worth(prevCash, prevHoldings, m.bars[i].close);
      if i % MonthBars == 0 {
        monthly := monthly + [total];
      }
      var c, h, k, lb, sl, lt, entry :=
        TradeBar(m, i, prevCash, prevHoldings, prevTrades, lastBuyPrice, stopLossAtr, lastTradePrice);
      Record(holdings, cash, trades, i, h, c, k);
      lastBuyPrice, stopLossAtr, lastTradePrice := lb, sl, lt;
      states := states + [Book(c, h, k, lb, sl, lt)];
      if entry.Some? {
        log := log + [entry.value];
      }
      TraceExtends(m, initial, i, prev, Book(c, h, k, lb, sl, lt), entry, Trace(states, log, monthly));
      i := i + 1;
    }
  }

  /** One more bar of the trace, from the outcome of Step. */
  lemma TraceExtends(m: Market, initial: real, i: nat, prev: Trace, b: Book, entry: Option<Entry>, next: Trace)
    requires WellFormed(m) && 1 <= i < |m.bars| && prev == TraceTo(m, initial, i)
    requires (b, entry) == Step(m, prev.states[i - 1], i)
    requires next.states == prev.states + [b]
    requires next.log == prev.log + (if entry.Some? then [entry.value] else [])
    requires next.monthly == prev.monthly +
      (if i % MonthBars == 0 then [Worth(prev.states[i - 1].cash, prev.states[i - 1].holdings, m.bars[i].close)] else [])
    ensures next == TraceTo(m, initial, i + 1)
  {
  }

  lemma RunsIntro(m: Market, initial: real, t: Trace, out: Outcome)
    requires WellFormed(m) && t == TraceTo(m, initial, |m.bars|)
    requires |out.holdings| == |m.bars| && |out.cash| == |m.bars| && |out.trades| == |m.bars|
    requires forall j :: 0 <= j < |m.bars| ==>
      out.holdings[j] == t.states[j].holdings && out.cash[j] == t.states[j].cash && out.trades[j] == t.states[j].trades
    requires out.total == TotalsOf(out.holdings, out.cash, Closes(m.bars))
    requires out.log == t.log && out.monthly == t.monthly
    ensures Runs(m, initial, out)
  {
  }

  /** The whole script for one data window: indicator columns, then the loop. */
  method TradingStrategy(bars: seq<Bar>, initial: real) returns (out: Outcome)
    requires |bars| >= 1 && PositiveCloses(bars)
    ensures Runs(MarketOf(bars), initial, out)
  {
    var m := Columns(bars);
    out := Simulate(m, initial);
  }

  // ---------------------------------------------------------------------------
  // Properties of the specification
  // ---------------------------------------------------------------------------

  /** A sale or a stop-loss: the two ways a position is closed. */
  predicate IsExit(a: Action) {
    a == Sell || a == StopLoss
  }

  /** The state after a bar agrees with the log so far: a position is open exactly after an
      odd number of trades; an open position has no cash, positive holdings and was bought at
      `last_buy_price`, which is also `last_trade_price` and the price of the last entry; with
      no position `last_buy_price` is None. */
  predicate Holds(s: Book, log: seq<Entry>) {
    Coherent(s) && s.holdings >= 0.0 &&
    (s.holdings > 0.0 <==> |log| % 2 == 1) &&
    (s.holdings > 0.0 ==>
      s.cash == 0.0 && s.lastBuy.Some? && s.lastBuy.value > 0.0 &&
      s.lastBuy.value == s.lastTradePrice && s.lastBuy.value == log[|log| - 1].trade.price) &&
    (s.holdings == 0.0 ==> s.lastBuy.None?)
  }

  /** Buys at even and exits at odd positions of the log. */
  predicate BuysAlternate(log: seq<Entry>) {
    forall j :: 0 <= j < |log| ==> (log[j].trade.action == Buy <==> j % 2 == 0)
  }

  /** One entry per bar, in increasing bar order, all on bars 15..k-1. */
  predicate BarsOrdered(log: seq<Entry>, k: nat) {
    (forall j :: 0 <= j < |log| ==> AtrWindow < log[j].trade.bar < k) &&
    (forall j, l :: 0 <= j < l < |log| ==> log[j].trade.bar < log[l].trade.bar)
  }

  /** A sale is above the entry before it, a stop-loss below it. */
  predicate ExitsPriced(log: seq<Entry>) {
    (forall j :: 1 <= j < |log| && log[j].trade.action == Sell ==>
      log[j].trade.price > log[j - 1].trade.price) &&
    (forall j :: 1 <= j < |log| && log[j].trade.action == StopLoss ==>
      log[j].trade.price < log[j - 1].trade.price)
  }

  /** The log of the bars below k: buys at even and exits at odd positions, one trade per bar
      in increasing bar order, none before bar 15; a sale is above the buy it closes and a
      stop-loss below it. */
  predicate LogShape(log: seq<Entry>, k: nat) {
    BuysAlternate(log) && BarsOrdered(log, k) && ExitsPriced(log)
  }

  /** Every row holds only cash or only bitcoin. */
  predicate InOrOut(s: Book) {
    s.cash == 0.0 || s.holdings == 0.0
  }

  /** The log stays in shape when a bar adds no entry. */
  lemma LogWiden(log: seq<Entry>, i: nat)
    requires LogShape(log, i)
    ensures LogShape(log, i + 1)
  {
  }

  /** Appending the entry of bar i keeps the log in shape if it alternates with the last
      entry and a sale or stop-loss lies on the right side of the buy price. */
  lemma LogAppend(log: seq<Entry>, e: Entry, i: nat)
    requires LogShape(log, i) && e.trade.bar == i && AtrWindow < i
    requires e.trade.action == Buy <==> |log| % 2 == 0
    requires |log| > 0 && e.trade.action == Sell ==> e.trade.price > log[|log| - 1].trade.price
    requires |log| > 0 && e.trade.action == StopLoss ==> e.trade.price < log[|log| - 1].trade.price
    ensures LogShape(log + [e], i + 1)
  {
    AlternateAppend(log, e);
    OrderedAppend(log, e, i);
    PricedAppend(log, e);
  }

  lemma AlternateAppend(log: seq<Entry>, e: Entry)
    requires BuysAlternate(log) && (e.trade.action == Buy <==> |log| % 2 == 0)
    ensures BuysAlternate(log + [e])
  {
    var log' := log + [e];
    forall j | 0 <= j < |log'| ensures (log'[j].trade.action == Buy <==> j % 2 == 0) {
      if j < |log| {
        assert log'[j] == log[j];
      }
    }
  }

  lemma OrderedAppend(log: seq<Entry>, e: Entry, i: nat)
    requires BarsOrdered(log, i) && e.trade.bar == i && AtrWindow < i
    ensures BarsOrdered(log + [e], i + 1)
  {
    var log' := log + [e];
    forall j | 0 <= j < |log'| ensures AtrWindow < log'[j].trade.bar < i + 1 {
      if j < |log| {
        assert log'[j] == log[j];
      }
    }
    forall j, l | 0 <= j < l < |log'| ensures log'[j].trade.bar < log'[l].trade.bar {
      assert log'[j] == log[j];
      if l < |log| {
        assert log'[l] == log[l];
      }
    }
  }

  lemma PricedAppend(log: seq<Entry>, e: Entry)
    requires ExitsPriced(log)
    requires |log| > 0 && e.trade.action == Sell ==> e.trade.price > log[|log| - 1].trade.price
    requires |log| > 0 && e.trade.action == StopLoss ==> e.trade.price < log[|log| - 1].trade.price
    ensures ExitsPriced(log + [e])
  {
    var log' := log + [e];
    forall j | 1 <= j < |log'| && log'[j].trade.action == Sell
      ensures log'[j].trade.price > log'[j - 1].trade.price
    {
      assert log'[j - 1] == log[j - 1];
      if j < |log| {
        assert log'[j] == log[j];
      }
    }
    forall j | 1 <= j < |log'| && log'[j].trade.action == StopLoss
      ensures log'[j].trade.price < log'[j - 1].trade.price
    {
      assert log'[j - 1] == log[j - 1];
      if j < |log| {
        assert log'[j] == log[j];
      }
    }
  }

  /** A buy opens a position at the bar's close from a state with no position. */
  lemma BuyHolds(m: Market, s: Book, log: seq<Entry>, i: nat)
    requires WellFormed(m) && AtrWindow < i < |m.bars| && Holds(s, log) && LogShape(log, i)
    requires m.red[i] && s.cash > 0.0 && Lt(m.rsi[i], RsiBuyBelow)
    ensures var st := Step(m, s, i);
      st.1.Some? && Holds(st.0, log + [st.1.value]) && LogShape(log + [st.1.value], i + 1) && InOrOut(st.0)
  {
    var price := m.bars[i].close;
    assert price > 0.0;
    assert s.cash / price > 0.0;
    var st := Step(m, s, i);
    assert st.0.holdings == s.cash / price && st.0.lastBuy == Some(price);
    LogAppend(log, st.1.value, i);
  }

  /** A sale closes the open position above its buy price. */
  lemma SellHolds(m: Market, s: Book, log: seq<Entry>, i: nat)
    requires WellFormed(m) && AtrWindow < i < |m.bars| && Holds(s, log) && LogShape(log, i)
    requires !(m.red[i] && s.cash > 0.0 && Lt(m.rsi[i], RsiBuyBelow))
    requires m.green[i] && s.holdings > 0.0 && s.lastTradePrice < m.bars[i].close && Gt(m.rsi[i], RsiSellAbove)
    ensures var st := Step(m, s, i);
      st.1.Some? && Holds(st.0, log + [st.1.value]) && LogShape(log + [st.1.value], i + 1) && InOrOut(st.0)
  {
    var st := Step(m, s, i);
    assert st.1.value.trade.action == Sell && st.0.holdings == 0.0;
    LogAppend(log, st.1.value, i);
  }

  /** A stop-loss closes the open position below its buy price, since the ATR is not negative. */
  lemma StopHolds(m: Market, s: Book, log: seq<Entry>, i: nat)
    requires WellFormed(m) && AtrWindow < i < |m.bars| && Holds(s, log) && LogShape(log, i)
    requires !(m.red[i] && s.cash > 0.0 && Lt(m.rsi[i], RsiBuyBelow))
    requires !(m.green[i] && s.holdings > 0.0 && s.lastTradePrice < m.bars[i].close && Gt(m.rsi[i], RsiSellAbove))
    requires Step(m, s, i).1.Some?
    ensures var st := Step(m, s, i);
      Holds(st.0, log + [st.1.value]) && LogShape(log + [st.1.value], i + 1) && InOrOut(st.0)
  {
    var st := Step(m, s, i);
    var atr := m.atr[i].value;
    assert atr >= 0.0;
    assert s.holdings > 0.0 && m.bars[i].close < s.lastBuy.value - AtrMultiplier * atr;
    assert st.1.value.trade.action == StopLoss && st.0.holdings == 0.0;
    LogAppend(log, st.1.value, i);
  }

  /** One bar keeps the state in agreement with the log and the log in shape. */
  lemma StepHolds(m: Market, s: Book, log: seq<Entry>, i: nat)
    requires WellFormed(m) && 1 <= i < |m.bars| && Holds(s, log) && LogShape(log, i)
    ensures var st := Step(m, s, i);
      var log' := log + (if st.1.Some? then [st.1.value] else []);
      Holds(st.0, log') && LogShape(log', i + 1) && InOrOut(st.0)
  {
    var st := Step(m, s, i);
    if st.1.None? {
      LogWiden(log, i);
    } else if m.red[i] && s.cash > 0.0 && Lt(m.rsi[i], RsiBuyBelow) {
      BuyHolds(m, s, log, i);
    } else if m.green[i] && s.holdings > 0.0 && s.lastTradePrice < m.bars[i].close && Gt(m.rsi[i], RsiSellAbove) {
      SellHolds(m, s, log, i);
    } else {
      StopHolds(m, s, log, i);
    }
  }

  /** After every bar the state agrees with the log, the log is in shape, and every row of the
      portfolio holds only cash or only bitcoin. */
  lemma {:induction false} TraceHolds(m: Market, initial: real, k: nat)
    requires WellFormed(m) && 1 <= k <= |m.bars|
    ensures var t := TraceTo(m, initial, k);
      Holds(t.states[k - 1], t.log) && LogShape(t.log, k) &&
      forall j :: 0 <= j < k ==> InOrOut(t.states[j])
  {
    if k > 1 {
      TraceHolds(m, initial, k - 1);
      var prev := TraceTo(m, initial, k - 1);
      var st := Step(m, prev.states[k - 2], k - 1);
      StepHolds(m, prev.states[k - 2], prev.log, k - 1);
      var t := TraceTo(m, initial, k);
      assert t.states == prev.states + [st.0];
      assert t.log == prev.log + (if st.1.Some? then [st.1.value] else []);
    }
  }

  /** No trade happens and nothing changes on bars 0..15-1: the state stays the start. */
  lemma {:induction false} NoTradeDuringWarmup(m: Market, initial: real, k: nat)
    requires WellFormed(m) && 1 <= k <= |m.bars| && k <= AtrWindow + 1
    ensures var t := TraceTo(m, initial, k);
      t.log == [] && forall j :: 0 <= j < k ==> t.states[j] == Start(initial)
  {
    if k > 1 {
      NoTradeDuringWarmup(m, initial, k - 1);
    }
  }

  /** The monthly values: the initial capital, then one value every 30 bars, the row before
      that bar valued at that bar's close. */
  lemma {:induction false} MonthlyValues(m: Market, initial: real, k: nat)
    requires WellFormed(m) && 1 <= k <= |m.bars|
    ensures var t := TraceTo(m, initial, k);
      |t.monthly| == 1 + (k - 1) / MonthBars && t.monthly[0] == initial &&
      forall q :: 1 <= q < |t.monthly| ==>
        t.monthly[q] == Worth(t.states[q * MonthBars - 1].cash, t.states[q * MonthBars - 1].holdings,
                              m.bars[q * MonthBars].close)
  {
    if k > 1 {
      MonthlyValues(m, initial, k - 1);
      var prev := TraceTo(m, initial, k - 1);
      var t := TraceTo(m, initial, k);
      assert t.states[..k - 1] == prev.states;
      forall q | 1 <= q < |prev.monthly|
        ensures t.monthly[q] == Worth(t.states[q * MonthBars - 1].cash, t.states[q * MonthBars - 1].holdings,
                                      m.bars[q * MonthBars].close)
      {
        assert q * MonthBars - 1 < k - 1;
        assert t.states[q * MonthBars - 1] == prev.states[q * MonthBars - 1];
      }
    }
  }

  /** The buy test of bar i. */
  predicate BuyWanted(m: Market, s: Book, i: nat)
    requires WellFormed(m) && i < |m.bars|
  {
    m.red[i] && s.cash > 0.0 && Lt(m.rsi[i], RsiBuyBelow)
  }

  /** The sell test of bar i: a Green peak, holdings, a close above the last trade price and
      RSI above 65. */
  predicate SellWanted(m: Market, s: Book, i: nat)
    requires WellFormed(m) && i < |m.bars|
  {
    m.green[i] && s.holdings > 0.0 && s.lastTradePrice < m.bars[i].close && Gt(m.rsi[i], RsiSellAbove)
  }

  /** The stop-loss test of bar i against the re-armed stop `last_buy_price - 2 * ATR`. */
  predicate StopHit(m: Market, s: Book, i: nat)
    requires WellFormed(m) && AtrWindow < i < |m.bars|
  {
    s.lastBuy.Some? && s.lastBuy.value != 0.0 &&
    var stop := s.lastBuy.value - AtrMultiplier * m.atr[i].value;
    stop != 0.0 && s.holdings > 0.0 && m.bars[i].close < stop
  }

  /** What bar i >= 15 does, branch by branch in the order the script tries them, and what
      every trade records. */
  lemma StepEffect(m: Market, s: Book, i: nat)
    requires WellFormed(m) && Coherent(s) && AtrWindow < i < |m.bars|
    ensures var st := Step(m, s, i); var b := st.0; var p := m.bars[i].close;
      var atr := m.atr[i].value;
      (st.1.Some? ==>
        b.trades == s.trades + 1 && st.1.value.trade.bar == i && st.1.value.trade.price == p &&
        st.1.value.rsi == m.rsi[i] && st.1.value.support == m.support[i] &&
        st.1.value.resistance == m.resistance[i]) &&
      (st.1.None? ==> b.trades == 0) &&
      (st.1.Some? && st.1.value.trade.action == Buy <==> BuyWanted(m, s, i)) &&
      (BuyWanted(m, s, i) ==>
        b.cash == 0.0 && b.holdings * p == s.cash && b.lastBuy == Some(p) &&
        b.stop == Some(p - AtrMultiplier * atr) && b.lastTradePrice == p &&
        st.1.value.trade.amount == b.holdings && st.1.value.trade.value == s.cash) &&
      (st.1.Some? && st.1.value.trade.action == Sell <==> !BuyWanted(m, s, i) && SellWanted(m, s, i)) &&
      (st.1.Some? && st.1.value.trade.action == StopLoss <==>
        !BuyWanted(m, s, i) && !SellWanted(m, s, i) && StopHit(m, s, i)) &&
      (st.1.Some? && IsExit(st.1.value.trade.action) ==>
        b.cash == s.holdings * p && b.holdings == 0.0 && b.lastBuy.None? && b.stop.None? &&
        st.1.value.trade.amount == s.holdings && st.1.value.trade.value == b.cash &&
        b.lastTradePrice == (if st.1.value.trade.action == Sell then p else s.lastTradePrice)) &&
      (st.1.None? ==>
        b.cash == s.cash && b.holdings == s.holdings && b.lastBuy == s.lastBuy &&
        b.lastTradePrice == s.lastTradePrice &&
        b.stop == (if s.stop.Some? then Some(s.lastBuy.value - AtrMultiplier * atr) else None))
  {
    var p := m.bars[i].close;
    assert p > 0.0;
    if BuyWanted(m, s, i) {
      assert s.cash / p * p == s.cash;
    }
  }

  /** Before bar 15 the loop only clears the trade counter. */
  lemma StepWarmup(m: Market, s: Book, i: nat)
    requires WellFormed(m) && Coherent(s) && 1 <= i <= AtrWindow && i < |m.bars|
    ensures Step(m, s, i).1.None? && Step(m, s, i).0 == s.(trades := 0)
  {
  }
}
