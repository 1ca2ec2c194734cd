/**
 * The fee-charging, position-flag strategy shared by the 15-minute GOLDMINE retrospective
 * run, the 60-day 15-minute backtest, the 1-hour, 2.3x and 300-day paper traders.
 * On every bar after the first the previous cash and holdings are carried over; a buy is
 * tried first (a Red trough, no position, cash, RSI and ATR below their limits), and only
 * otherwise a sell (a Green peak, a position, holdings, RSI above its limit, ATR below).
 * A buy spends all cash less the fee; a sell liquidates all holdings less the fee.
 */
module FeeStrategy {
  import opened Wrappers
  import opened Indicators
  import opened Detectors
  import opened Trades

  /** The per-script parameters. */
  datatype Config = Config(
    rsiWindow: nat,     // window of compute_rsi
    atrWindow: nat,     // window of calculate_atr
    rsiBuyBelow: real,  // a buy needs RSI below this
    rsiSellAbove: real, // a sell needs RSI above this
    atrBelow: real,     // both need ATR below this
    fee: real)          // maker_taker_fee

  predicate ValidConfig(c: Config) {
    c.rsiWindow >= 1 && c.atrWindow >= 1 && 0.0 <= c.fee < 1.0
  }

  const MakerTakerFee: real := 0.00075
  const AtrCeiling: real := 1000.0

  /** realtime-15m GOLDMINE: rsi_lower_limit = 90 gates buys, rsi_upper_limit = 10 gates sells. */
  const Goldmine15m: Config := Config(7, 7, 90.0, 10.0, AtrCeiling, MakerTakerFee)
  /** The 60-day 15-minute backtest. */
  const Backtest60d: Config := Config(7, 7, 50.0, 50.0, AtrCeiling, MakerTakerFee)
  /** The 1-hour paper trader: ATR over 14 bars. */
  const PaperTrader1h: Config := Config(7, 14, 50.0, 50.0, AtrCeiling, MakerTakerFee)
  /** The 2.3x 15-minute paper trader. */
  const PaperTrader2p3x: Config := Config(7, 7, 50.0, 50.0, AtrCeiling, MakerTakerFee)
  /** The 300-day 1-hour paper trader: rsi_window = 14, buy below 70, sell above 30. */
  const PaperTrader300d: Config := Config(14, 7, 70.0, 30.0, AtrCeiling, MakerTakerFee)

  lemma PresetsValid()
    ensures ValidConfig(Goldmine15m) && ValidConfig(Backtest60d) && ValidConfig(PaperTrader1h)
    ensures ValidConfig(PaperTrader2p3x) && ValidConfig(PaperTrader300d)
  {
  }

  // ---------------------------------------------------------------------------
  // The indicator columns a run reads
  // ---------------------------------------------------------------------------

  /** Close prices, the buy (Red) and sell (Green) flags, RSI and ATR, bar-aligned. */
  datatype Market = Market(
    close: seq<real>, buy: seq<bool>, sell: seq<bool>, rsi: seq<Option<real>>, atr: seq<Option<real>>)

  predicate WellFormed(m: Market) {
    |m.close| >= 1 && |m.buy| == |m.close| && |m.sell| == |m.close| &&
    |m.rsi| == |m.close| && |m.atr| == |m.close| && AllPositive(m.close)
  }

  /** The columns computed from the bars: MACD histogram, lagged detector, RSI and ATR. */
  function MarketOf(bars: seq<Bar>, cfg: Config): (m: Market)
    requires ValidConfig(cfg)
    ensures |m.close| == |m.buy| == |m.sell| == |m.rsi| == |m.atr| == |bars|
  {
    var close := Closes(bars);
    var hist := CalculateMacd(close).hist;
    Market(close, RedLaggedFlags(hist), GreenLaggedFlags(hist),
           ComputeRsi(close, cfg.rsiWindow), CalculateAtr(bars, cfg.atrWindow))
  }

  /** `calculate_macd_and_rsi`: MACD, RSI, ATR and the detector's columns for a data frame. */
  method CalculateMacdAndRsi(bars: seq<Bar>, cfg: Config) returns (m: Market)
    requires ValidConfig(cfg)
    ensures m == MarketOf(bars, cfg)
  {
    var close := Closes(bars);
    var macd := CalculateMacd(close);
    var rsi := ComputeRsi(close, cfg.rsiWindow);
    var atr := CalculateAtr(bars, cfg.atrWindow);
    var green, red := IdentifyPeaksLagged(macd.hist);
    m := Market(close, red, green, rsi, atr);
  }

  // ---------------------------------------------------------------------------
  // The per-bar specification
  // ---------------------------------------------------------------------------

  /** Cash, holdings and `position_held` after a bar. */
  datatype Position = Position(cash: real, holdings: real, held: bool)

  predicate BuyWanted(m: Market, cfg: Config, s: Position, i: nat)
    requires WellFormed(m) && i < |m.close|
  {
    m.buy[i] && !s.held && s.cash > 0.0 && Lt(m.rsi[i], cfg.rsiBuyBelow) && Lt(m.atr[i], cfg.atrBelow)
  }

  predicate SellWanted(m: Market, cfg: Config, s: Position, i: nat)
    requires WellFormed(m) && i < |m.close|
  {
    m.sell[i] && s.held && s.holdings > 0.0 && Gt(m.rsi[i], cfg.rsiSellAbove) && Lt(m.atr[i], cfg.atrBelow)
  }

  /** The position after bar i from the position after bar i-1, and the trade it logs. */
  function Step(m: Market, cfg: Config, s: Position, i: nat): (Position, Option<Trade>)
    requires WellFormed(m) && i < |m.close|
  {
    var price := m.close[i];
    if BuyWanted(m, cfg, s, i) then
      var invest := s.cash - s.cash * cfg.fee;
      (Position(0.0, invest / price, true), Some(Trade(i, Buy, price, invest / price, invest)))
    else if SellWanted(m, cfg, s, i) then
      var sellValue := s.holdings * price;
      (Position(sellValue - sellValue * cfg.fee, 0.0, false), Some(Trade(i, Sell, price, s.holdings, sellValue)))
    else
      (s, None)
  }

  /** The position after bar i: the initial capital and no position on bar 0. */
  function StateAt(m: Market, cfg: Config, initial: real, i: nat): Position
    requires WellFormed(m) && i < |m.close|
  {
    if i == 0 then Position(initial, 0.0, false)
    else Step(m, cfg, StateAt(m, cfg, initial, i - 1), i).0
  }

  /** The trade logged on bar i >= 1, if any. */
  function TradeAt(m: Market, cfg: Config, initial: real, i: nat): Option<Trade>
    requires WellFormed(m) && 1 <= i < |m.close|
  {
    Step(m, cfg, StateAt(m, cfg, initial, i - 1), i).1
  }

  /** The trades logged on bars 1..k-1, in order. */
  function LogUpTo(m: Market, cfg: Config, initial: real, k: nat): seq<Trade>
    requires WellFormed(m) && k <= |m.close|
  {
    if k <= 1 then []
    else
      var t := TradeAt(m, cfg, initial, k - 1);
      LogUpTo(m, cfg, initial, k - 1) + (if t.Some? then [t.value] else [])
  }

  /** Every bar's position and the log so far, built bar by bar as the portfolio loop does. */
  datatype Trace = Trace(states: seq<Position>, log: seq<Trade>)

  /** The trace of bars 0..k-1. */
  function TraceTo(m: Market, cfg: Config, initial: real, k: nat): (t: Trace)
    requires WellFormed(m) && 1 <= k <= |m.close|
    ensures |t.states| == k
  {
    if k == 1 then Trace([Position(initial, 0.0, false)], [])
    else
      var prev := TraceTo(m, cfg, initial, k - 1);
      var st := Step(m, cfg, prev.states[k - 2], k - 1);
      Trace(prev.states + [st.0], prev.log + (if st.1.Some? then [st.1.value] else []))
  }

  /** The trace agrees with the bar-indexed specification. */
  lemma {:induction false} TraceAgrees(m: Market, cfg: Config, initial: real, k: nat)
    requires WellFormed(m) && 1 <= k <= |m.close|
    ensures forall j :: 0 <= j < k ==> TraceTo(m, cfg, initial, k).states[j] == StateAt(m, cfg, initial, j)
    ensures TraceTo(m, cfg, initial, k).log == LogUpTo(m, cfg, initial, k)
  {
    if k > 1 {
      TraceAgrees(m, cfg, initial, k - 1);
    }
  }

  // ---------------------------------------------------------------------------
  // The run
  // ---------------------------------------------------------------------------

  /** The three returned values: the portfolio columns, `trade_log` and `value_if_held`. */
  datatype Outcome = Outcome(
    holdings: seq<real>, cash: seq<real>, total: seq<real>, log: seq<Trade>, valueIfHeld: real)

  /** An outcome is the one the specification gives for these columns: the position of
      every bar, the total value of every bar, the whole log and the buy-and-hold baseline. */
  predicate Runs(m: Market, cfg: Config, initial: real, out: Outcome)
    requires WellFormed(m)
  {
    var n := |m.close|;
    var t := TraceTo(m, cfg, initial, n);
    |out.holdings| == n && |out.cash| == n && |out.total| == n &&
    (forall i :: 0 <= i < n ==>
      out.holdings[i] == t.states[i].holdings && out.cash[i] == t.states[i].cash) &&
    out.total == TotalsOf(out.holdings, out.cash, m.close) &&
    out.log == t.log &&
    out.valueIfHeld == ValueIfHeld(m.close, initial)
  }

  predicate Simulates(bars: seq<Bar>, cfg: Config, initial: real, out: Outcome)
    requires ValidConfig(cfg) && |bars| >= 1 && AllPositive(Closes(bars))
  {
    Runs(MarketOf(bars, cfg), cfg, initial, out)
  }

  /** The body of the portfolio loop for bar i: from the previous bar's holdings, cash and
      position flag, the new ones and the trade appended to the log, if any. */
  method TradeBar(m: Market, cfg: Config, i: nat, prevHoldings: real, prevCash: real, positionHeld: bool)
    returns (holdings: real, cash: real, held: bool, trade: Option<Trade>)
    requires WellFormed(m) && i < |m.close|
    ensures (Position(cash, holdings, held), trade) == Step(m, cfg, Position(prevCash, prevHoldings, positionHeld), i)
  {
    var close := m.close[i];
    ghost var prev := Position(prevCash, prevHoldings, positionHeld);
    holdings, cash, held, trade := prevHoldings, prevCash, positionHeld, None;
    if m.buy[i] && !positionHeld && prevCash > 0.0 && Lt(m.rsi[i], cfg.rsiBuyBelow) && Lt(m.atr[i], cfg.atrBelow) {
      assert BuyWanted(m, cfg, prev, i);
      var transactionCost := prevCash * cfg.fee;
      var investAmount := prevCash - transactionCost;
      holdings := investAmount / close;
      cash := 0.0;
      trade := Some(Trade(i, Buy, close, investAmount / close, investAmount));
      held := true;
      assert Step(m, cfg, prev, i).1.Some?;
      assert Step(m, cfg, prev, i).1.value.action == Buy;
      assert Step(m, cfg, prev, i).1.value.bar == i;
      assert Step(m, cfg, prev, i).1.value.price == close;
      assert Step(m, cfg, prev, i).1.value.value == investAmount;
      assert Step(m, cfg, prev, i).1.value.amount == investAmount / close;
    } else if m.sell[i] && positionHeld && prevHoldings > 0.0 && Gt(m.rsi[i], cfg.rsiSellAbove) && Lt(m.atr[i], cfg.atrBelow) {
      assert !BuyWanted(m, cfg, prev, i) && SellWanted(m, cfg, prev, i);
      var sellValue := prevHoldings * close;
      var transactionCost := sellValue * cfg.fee;
      cash := sellValue - transactionCost;
      holdings := 0.0;
      trade := Some(Trade(i, Sell, close, prevHoldings, sellValue));
      held := false;
      assert Step(m, cfg, prev, i).1.Some?;
      assert Step(m, cfg, prev, i).1.value.action == Sell;
      assert Step(m, cfg, prev, i).1.value.bar == i;
      assert Step(m, cfg, prev, i).1.value.price == close;
      assert Step(m, cfg, prev, i).1.value.value == sellValue;
      assert Step(m, cfg, prev, i).1.value.amount == prevHoldings;
    } else {
      assert !BuyWanted(m, cfg, prev, i) && !SellWanted(m, cfg, prev, i);
    }
    assert Position(cash, holdings, held) == Step(m, cfg, prev, i).0;
    assert trade == Step(m, cfg, prev, i).1;
  }

  /** The portfolio loop of `trading_strategy` over already computed columns: every bar
      starts from the previous bar's holdings and cash; the totals are then revalued bar by
      bar at the close. */
  method Simulate(m: Market, initial: real, cfg: Config) returns (out: Outcome)
    requires WellFormed(m)
    ensures Runs(m, cfg, initial, out)
  {
    var n := |m.close|;
    var holdings := new real[n](_ => 0.0);
    var cash := new real[n](_ => 0.0);
    cash[0] := initial;
    var log, states := RunBars(m, initial, cfg, holdings, cash);
    var hs, cs := holdings[..], cash[..];
    var total := Totals(hs, cs, m.close);
    out := Outcome(hs, cs, total, log, ValueIfHeld(m.close, initial));
    RunsIntro(m, cfg, initial, Trace(states, log), out);
  }

  /** The loop over bars 1..n-1 of `trading_strategy`, filling the holdings and cash columns
      in place: every bar starts from the previous bar's holdings, cash and position flag. */
  method RunBars(m: Market, initial: real, cfg: Config, holdings: array<real>, cash: array<real>)
    returns (log: seq<Trade>, ghost states: seq<Position>)
    requires WellFormed(m) && holdings.Length == |m.close| && cash.Length == |m.close| && holdings != cash
    requires holdings[0] == 0.0 && cash[0] == initial
    modifies holdings, cash
    ensures Trace(states, log) == TraceTo(m, cfg, initial, |m.close|)
    ensures forall j :: 0 <= j < |m.close| ==> holdings[j] == states[j].holdings && cash[j] == states[j].cash
  {
    var n := |m.close|;
    log := [];
    var positionHeld := false;
    states := [Position(initial, 0.0, false)];
    var i := 1;
    while i < n
      invariant 1 <= i <= n
      invariant Trace(states, log) == TraceTo(m, cfg, initial, i)
      invariant forall j :: 0 <= j < i ==> holdings[j] == states[j].holdings && cash[j] == states[j].cash
      invariant positionHeld == states[i - 1].held
    {
      ghost var prev := Trace(states, log);
      assert Position(cash[i - 1], holdings[i - 1], positionHeld) == states[i - 1];
      var h, c, held, trade := TradeBar(m, cfg, i, holdings[i - 1], cash[i - 1], positionHeld);
      holdings[i], cash[i], positionHeld := h, c, held;
      states := states + [Position(c, h, held)];
      if trade.Some? {
        log := log + [trade.value];
      }
      TraceExtends(m, cfg, initial, i, prev, Position(c, h, held), trade, Trace(states, log));
      i := i + 1;
    }
  }

  /** One more bar of the loop extends the trace by the bar's step. */
  lemma TraceExtends(m: Market, cfg: Config, initial: real, i: nat, prev: Trace, s: Position, trade: Option<Trade>, next: Trace)
    requires WellFormed(m) && 1 <= i < |m.close| && prev == TraceTo(m, cfg, initial, i)
    requires (s, trade) == Step(m, cfg, prev.states[i - 1], i)
    requires next == Trace(prev.states + [s], prev.log + (if trade.Some? then [trade.value] else []))
    ensures next == TraceTo(m, cfg, initial, i + 1)
  {
  }

  /** An outcome whose columns copy a trace of the whole run, with totals at the close. */
  lemma RunsIntro(m: Market, cfg: Config, initial: real, t: Trace, out: Outcome)
    requires WellFormed(m) && t == TraceTo(m, cfg, initial, |m.close|)
    requires |out.holdings| == |m.close| && |out.cash| == |m.close| && |out.total| == |m.close|
    requires forall j :: 0 <= j < |m.close| ==> out.holdings[j] == t.states[j].holdings && out.cash[j] == t.states[j].cash
    requires out.total == TotalsOf(out.holdings, out.cash, m.close)
    requires out.log == t.log && out.valueIfHeld == ValueIfHeld(m.close, initial)
    ensures Runs(m, cfg, initial, out)
  {
  }

  /** The indicator and signal columns as the strategy computes them itself. */
  method StrategyColumns(bars: seq<Bar>, cfg: Config) returns (m: Market)
    requires ValidConfig(cfg)
    ensures m == MarketOf(bars, cfg)
  {
    var close := Closes(bars);
    var macd := CalculateMacd(close);
    var rsi := ComputeRsi(close, cfg.rsiWindow);
    var atr := CalculateAtr(bars, cfg.atrWindow);
    var buySignal, sellSignal := BuySellSignals(macd.hist);
    m := Market(close, buySignal, sellSignal, rsi, atr);
  }

  /** A `trade_log` entry as the scripts write it: the trade with the RSI and ATR of its bar. */
  datatype LoggedTrade = LoggedTrade(trade: Trade, rsi: Option<real>, atr: Option<real>)

  /** The log with the RSI and ATR columns read at every trade's bar. */
  function Annotate(m: Market, log: seq<Trade>): (e: seq<LoggedTrade>)
    requires WellFormed(m) && BarsWithin(log, 0, |m.close|)
    ensures |e| == |log|
    ensures forall j :: 0 <= j < |log| ==>
      e[j].trade == log[j] && e[j].rsi == m.rsi[log[j].bar] && e[j].atr == m.atr[log[j].bar]
  {
    seq(|log|, j requires 0 <= j < |log| => LoggedTrade(log[j], m.rsi[log[j].bar], m.atr[log[j].bar]))
  }

  /** `trading_strategy` / `trading_strategy_retrospective`: the portfolio and the trade log,
      whose entries carry the RSI and ATR of their bars. */
  method TradingStrategy(bars: seq<Bar>, initial: real, cfg: Config) returns (out: Outcome, entries: seq<LoggedTrade>)
    requires ValidConfig(cfg) && |bars| >= 1 && AllPositive(Closes(bars))
    ensures Simulates(bars, cfg, initial, out)
    ensures BarsWithin(out.log, 1, |bars|) && entries == Annotate(MarketOf(bars, cfg), out.log)
  {
    var m := StrategyColumns(bars, cfg);
    out := Simulate(m, initial, cfg);
    RunShape(bars, cfg, initial, out);
    entries := Annotate(m, out.log);
  }

  /** The 1-hour trader's `trading_strategy(data, initial, start_time, current_time)`: nothing
      happens, and three Nones are returned, before the start time; the data matter only
      after it. */
  method TradingStrategyFrom(bars: seq<Bar>, initial: real, cfg: Config, startTime: int, currentTime: int)
    returns (r: Option<(Outcome, seq<LoggedTrade>)>)
    requires ValidConfig(cfg)
    requires currentTime >= startTime ==> |bars| >= 1 && AllPositive(Closes(bars))
    ensures r.None? <==> currentTime < startTime
    ensures r.Some? ==> Simulates(bars, cfg, initial, r.value.0) && BarsWithin(r.value.0.log, 1, |bars|)
    ensures r.Some? ==> r.value.1 == Annotate(MarketOf(bars, cfg), r.value.0.log)
  {
    if currentTime < startTime {
      return None;
    }
    var out, entries := TradingStrategy(bars, initial, cfg);
    r := Some((out, entries));
  }

  // ---------------------------------------------------------------------------
  // Properties of the specification
  // ---------------------------------------------------------------------------

  /** The position invariant: a held position has no cash and positive holdings, no position
      means no holdings; so at every bar cash = 0 or holdings = 0. */
  predicate Consistent(s: Position) {
    (s.held ==> s.cash == 0.0 && s.holdings > 0.0) && (!s.held ==> s.holdings == 0.0)
  }

  /** One bar keeps the position invariant. */
  lemma StepConsistent(m: Market, cfg: Config, s: Position, i: nat)
    requires WellFormed(m) && ValidConfig(cfg) && i < |m.close| && Consistent(s)
    ensures Consistent(Step(m, cfg, s, i).0)
  {
    if BuyWanted(m, cfg, s, i) {
      BoughtPositive(s.cash, cfg.fee, m.close[i]);
      assert Step(m, cfg, s, i).0 == Position(0.0, (s.cash - s.cash * cfg.fee) / m.close[i], true);
    }
  }

  lemma {:induction false} StateConsistent(m: Market, cfg: Config, initial: real, i: nat)
    requires WellFormed(m) && ValidConfig(cfg) && i < |m.close|
    ensures Consistent(StateAt(m, cfg, initial, i))
    ensures StateAt(m, cfg, initial, i).cash == 0.0 || StateAt(m, cfg, initial, i).holdings == 0.0
  {
    if i > 0 {
      StateConsistent(m, cfg, initial, i - 1);
      StepConsistent(m, cfg, StateAt(m, cfg, initial, i - 1), i);
    }
  }

  /** All cash less the fee buys a positive amount. */
  lemma BoughtPositive(cash: real, fee: real, price: real)
    requires cash > 0.0 && 0.0 <= fee < 1.0 && price > 0.0
    ensures (cash - cash * fee) / price > 0.0
  {
    assert cash - cash * fee == cash * (1.0 - fee);
    MulPositive(cash, 1.0 - fee);
    DivPositive(cash * (1.0 - fee), price);
  }

  lemma MulPositive(a: real, b: real)
    requires a > 0.0 && b > 0.0
    ensures a * b > 0.0
  {
  }

  /** Scaling a positive amount by a factor below one makes it smaller. */
  lemma MulBelow(x: real, y: real)
    requires x > 0.0 && y < 1.0
    ensures x * y < x
  {
    MulPositive(x, 1.0 - y);
    assert x - x * y == x * (1.0 - y);
  }

  lemma DivPositive(a: real, b: real)
    requires a > 0.0 && b > 0.0
    ensures a / b > 0.0
  {
  }

  /** What a trade on one bar means: the conditions that allowed it and the position it
      leaves, with the fee taken from the cash spent or from the sale proceeds. */
  predicate EffectHolds(m: Market, cfg: Config, prev: Position, i: nat, s: Position, t: Option<Trade>)
    requires WellFormed(m) && i < |m.close|
  {
    var p := m.close[i];
    (t.None? ==> s == prev) &&
    (t.Some? && t.value.action == Buy ==>
      m.buy[i] && !prev.held && prev.cash > 0.0 &&
      m.rsi[i].Some? && m.rsi[i].value < cfg.rsiBuyBelow &&
      m.atr[i].Some? && m.atr[i].value < cfg.atrBelow &&
      s == Position(0.0, prev.cash * (1.0 - cfg.fee) / p, true) &&
      t.value.value == prev.cash * (1.0 - cfg.fee) && t.value.amount * p == t.value.value) &&
    (t.Some? && t.value.action == Sell ==>
      m.sell[i] && prev.held && prev.holdings > 0.0 &&
      m.rsi[i].Some? && m.rsi[i].value > cfg.rsiSellAbove &&
      m.atr[i].Some? && m.atr[i].value < cfg.atrBelow &&
      s == Position(prev.holdings * p * (1.0 - cfg.fee), 0.0, false) &&
      t.value.amount == prev.holdings && t.value.value == prev.holdings * p) &&
    (t.Some? ==> t.value.bar == i && t.value.price == p && t.value.action != StopLoss)
  }

  lemma StepEffect(m: Market, cfg: Config, prev: Position, i: nat)
    requires WellFormed(m) && i < |m.close|
    ensures EffectHolds(m, cfg, prev, i, Step(m, cfg, prev, i).0, Step(m, cfg, prev, i).1)
  {
    var p := m.close[i];
    assert p > 0.0;
    if BuyWanted(m, cfg, prev, i) {
      var invest := prev.cash - prev.cash * cfg.fee;
      assert invest == prev.cash * (1.0 - cfg.fee);
      assert invest / p * p == invest;
    } else if SellWanted(m, cfg, prev, i) {
      var sv := prev.holdings * p;
      assert sv - sv * cfg.fee == prev.holdings * p * (1.0 - cfg.fee);
    }
  }

  /** Every bar i >= 1 either carries the previous position and logs nothing, or logs exactly
      one Buy or Sell whose conditions and effect are those of the script. */
  lemma TradeEffect(m: Market, cfg: Config, initial: real, i: nat)
    requires WellFormed(m) && 1 <= i < |m.close|
    ensures EffectHolds(m, cfg, StateAt(m, cfg, initial, i - 1), i,
                        StateAt(m, cfg, initial, i), TradeAt(m, cfg, initial, i))
    ensures |LogUpTo(m, cfg, initial, i + 1)| <= |LogUpTo(m, cfg, initial, i)| + 1
  {
    StepEffect(m, cfg, StateAt(m, cfg, initial, i - 1), i);
  }

  /** An undefined RSI or ATR compares false, so such a bar never trades. */
  lemma NoTradeWhileUndefined(m: Market, cfg: Config, initial: real, i: nat)
    requires WellFormed(m) && 1 <= i < |m.close|
    requires m.rsi[i].None? || m.atr[i].None?
    ensures TradeAt(m, cfg, initial, i).None?
  {
  }

  /** No trade happens on the first `rsiWindow` bars nor before the ATR window is full. */
  lemma NoTradeDuringWarmup(bars: seq<Bar>, cfg: Config, initial: real, i: nat)
    requires ValidConfig(cfg) && AllPositive(Closes(bars)) && 1 <= i < |bars|
    requires i < cfg.rsiWindow || i + 1 < cfg.atrWindow
    ensures TradeAt(MarketOf(bars, cfg), cfg, initial, i).None?
  {
    var m := MarketOf(bars, cfg);
    if i < cfg.rsiWindow {
      RsiWarmup(Closes(bars), cfg.rsiWindow, i);
    } else {
      AtrDefined(bars, cfg.atrWindow, i);
    }
    NoTradeWhileUndefined(m, cfg, initial, i);
  }

  /** The lagged detector never flags the last bar, so the last bar never trades. */
  lemma NoTradeOnLastBar(bars: seq<Bar>, cfg: Config, initial: real)
    requires ValidConfig(cfg) && AllPositive(Closes(bars)) && |bars| >= 2
    ensures TradeAt(MarketOf(bars, cfg), cfg, initial, |bars| - 1).None?
  {
  }

  /** The log alternates Buy, Sell, ... starting with Buy, has an odd length exactly while a
      position is held, and lists distinct bars >= 1 in increasing order. */
  lemma {:induction false} LogShape(m: Market, cfg: Config, initial: real, k: nat)
    requires WellFormed(m) && 1 <= k <= |m.close|
    ensures var log := LogUpTo(m, cfg, initial, k);
      Alternates(log) && BarsIncreasing(log) && BarsWithin(log, 1, k) &&
      (|log| % 2 == 1 <==> StateAt(m, cfg, initial, k - 1).held)
  {
    if k > 1 {
      LogShape(m, cfg, initial, k - 1);
      var t := TradeAt(m, cfg, initial, k - 1);
      var log := LogUpTo(m, cfg, initial, k - 1);
      if t.Some? {
        AppendKeepsOrder(log, t.value, 1, k - 1);
      }
    }
  }

  /** The whole run: an alternating log of distinct increasing bars, ending flat exactly when
      the log has even length, and cash = 0 or holdings = 0 on every bar. */
  lemma RunShape(bars: seq<Bar>, cfg: Config, initial: real, out: Outcome)
    requires ValidConfig(cfg) && |bars| >= 1 && AllPositive(Closes(bars))
    requires Simulates(bars, cfg, initial, out)
    ensures Alternates(out.log) && BarsIncreasing(out.log) && BarsWithin(out.log, 1, |bars|)
    ensures forall i :: 0 <= i < |bars| ==> out.cash[i] == 0.0 || out.holdings[i] == 0.0
    ensures forall i :: 0 <= i < |bars| ==> out.cash[i] >= 0.0 || out.cash[i] == initial
  {
    var m := MarketOf(bars, cfg);
    TraceAgrees(m, cfg, initial, |bars|);
    LogShape(m, cfg, initial, |bars|);
    forall i | 0 <= i < |bars|
      ensures out.cash[i] == 0.0 || out.holdings[i] == 0.0
      ensures out.cash[i] >= 0.0 || out.cash[i] == initial
    {
      assert out.cash[i] == StateAt(m, cfg, initial, i).cash;
      assert out.holdings[i] == StateAt(m, cfg, initial, i).holdings;
      StateConsistent(m, cfg, initial, i);
      CashNonNegativeOrInitial(m, cfg, initial, i);
    }
  }

  /** One bar keeps cash non-negative or at the initial capital: a buy leaves no cash, a
      sale of positive holdings leaves positive cash, no trade leaves it as it was. */
  lemma StepCash(m: Market, cfg: Config, initial: real, s: Position, i: nat)
    requires WellFormed(m) && ValidConfig(cfg) && i < |m.close| && Consistent(s)
    requires s.cash >= 0.0 || s.cash == initial
    ensures Step(m, cfg, s, i).0.cash >= 0.0 || Step(m, cfg, s, i).0.cash == initial
  {
    if !BuyWanted(m, cfg, s, i) && SellWanted(m, cfg, s, i) {
      ProceedsPositive(s.holdings, m.close[i], cfg.fee);
    }
  }

  /** Cash is only ever the initial capital, zero or the proceeds of a sale. */
  lemma {:induction false} CashNonNegativeOrInitial(m: Market, cfg: Config, initial: real, i: nat)
    requires WellFormed(m) && ValidConfig(cfg) && i < |m.close|
    ensures StateAt(m, cfg, initial, i).cash >= 0.0 || StateAt(m, cfg, initial, i).cash == initial
  {
    if i > 0 {
      CashNonNegativeOrInitial(m, cfg, initial, i - 1);
      StateConsistent(m, cfg, initial, i - 1);
      StepCash(m, cfg, initial, StateAt(m, cfg, initial, i - 1), i);
    }
  }

  /** Selling positive holdings at a positive price yields positive cash after the fee. */
  lemma ProceedsPositive(holdings: real, price: real, fee: real)
    requires holdings > 0.0 && price > 0.0 && 0.0 <= fee < 1.0
    ensures holdings * price - holdings * price * fee > 0.0
  {
    var sv := holdings * price;
    MulPositive(holdings, price);
    assert sv - sv * fee == sv * (1.0 - fee);
    MulPositive(sv, 1.0 - fee);
  }

  /** Buying with all cash c at price p and selling everything at price q returns
      c (1 - fee)^2 q / p; at the same price the round trip costs exactly the two fees. */
  lemma FeeRoundTrip(c: real, p: real, q: real, fee: real)
    requires p > 0.0 && q > 0.0 && 0.0 <= fee < 1.0
    ensures var holdings := (c - c * fee) / p;
      var back := holdings * q - holdings * q * fee;
      back == c * (1.0 - fee) * (1.0 - fee) * q / p &&
      (p == q ==> back == c * (1.0 - fee) * (1.0 - fee)) &&
      (p == q && c > 0.0 && fee > 0.0 ==> back < c)
  {
    var holdings := (c - c * fee) / p;
    assert holdings * q - holdings * q * fee == holdings * q * (1.0 - fee);
    assert (c - c * fee) / p * q == c * (1.0 - fee) * q / p;
    if p == q && c > 0.0 && fee > 0.0 {
      var k := (1.0 - fee) * (1.0 - fee);
      MulPositive(1.0 - fee, 1.0 - fee);
      MulBelow(1.0 - fee, 1.0 - fee);
      MulBelow(c, k);
    }
  }
}
