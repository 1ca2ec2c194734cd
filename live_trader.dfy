/**
 * `trading_strategy_single_realtime` of the 15-minute GOLDMINE trader: once a new bar has
 * arrived, the global portfolio table gets a row for its timestamp (a copy of the last row),
 * the row at position n-1 (n = number of bars) copies the row before it, and a buy or a sell
 * at the live ticker price may then overwrite it. The decision reads the signal columns at
 * bar n-1, which the lagged detector never flags, so the live step never trades.
 */
module LiveTrader {
  import opened Wrappers
  import opened Indicators
  import opened Trades
  import opened FeeStrategy

  /** What the live step decides for the last row: its cash, holdings and the trade logged. */
  datatype Decision = Decision(cash: real, holdings: real, trade: Option<Trade>)

  /** A row's `total`: its cash plus its holdings at the given price. */
  function Valuation(cash: real, holdings: real, price: real): real {
    cash + holdings * price
  }

  /** The live decision on bar i at the ticker price: a buy needs a Red flag, cash and RSI and
      ATR below their limits; otherwise a sell needs a Green flag, holdings, RSI above its limit
      and ATR below. Unlike the retrospective run it does not consult a position flag. */
  function LiveDecision(m: Market, cfg: Config, i: nat, prevCash: real, prevHoldings: real, price: real): (d: Decision)
    requires WellFormed(m) && i < |m.close| && price > 0.0
    ensures d.trade.None? ==> d.cash == prevCash && d.holdings == prevHoldings
    ensures d.trade.Some? ==> d.trade.value.bar == i && d.trade.value.price == price
    ensures d.trade.Some? && d.trade.value.action == Buy ==>
      m.buy[i] && prevCash > 0.0 && d.cash == 0.0 && d.trade.value.value == prevCash * (1.0 - cfg.fee) &&
      d.holdings * price == d.trade.value.value && d.trade.value.amount == d.holdings
    ensures d.trade.Some? && d.trade.value.action == Sell ==>
      !(m.buy[i] && prevCash > 0.0 && Lt(m.rsi[i], cfg.rsiBuyBelow) && Lt(m.atr[i], cfg.atrBelow)) &&
      m.sell[i] && prevHoldings > 0.0 && d.holdings == 0.0 &&
      d.trade.value.amount == prevHoldings && d.cash == prevHoldings * price * (1.0 - cfg.fee)
    ensures d.trade.Some? ==> d.trade.value.action != StopLoss
  {
    if m.buy[i] && prevCash > 0.0 && Lt(m.rsi[i], cfg.rsiBuyBelow) && Lt(m.atr[i], cfg.atrBelow) then
      var investAmount := prevCash - prevCash * cfg.fee;
      assert investAmount / price * price == investAmount;
      Decision(0.0, investAmount / price, Some(Trade(i, Buy, price, investAmount / price, investAmount)))
    else if m.sell[i] && prevHoldings > 0.0 && Gt(m.rsi[i], cfg.rsiSellAbove) && Lt(m.atr[i], cfg.atrBelow) then
      var sellValue := prevHoldings * price;
      Decision(sellValue - sellValue * cfg.fee, 0.0, Some(Trade(i, Sell, price, prevHoldings, sellValue)))
    else
      Decision(prevCash, prevHoldings, None)
  }

  /** On a consistent position and at the bar's close, the live decision is the retrospective
      run's step: the position flag the live step ignores is implied by cash and holdings. */
  lemma LiveMatchesStep(m: Market, cfg: Config, s: Position, i: nat)
    requires WellFormed(m) && i < |m.close| && Consistent(s)
    ensures var d := LiveDecision(m, cfg, i, s.cash, s.holdings, m.close[i]);
      var st := Step(m, cfg, s, i);
      d.cash == st.0.cash && d.holdings == st.0.holdings && d.trade == st.1
  {
    var p := m.close[i];
    var d := LiveDecision(m, cfg, i, s.cash, s.holdings, p);
    var st := Step(m, cfg, s, i);
    if BuyWanted(m, cfg, s, i) {
      var invest := s.cash - s.cash * cfg.fee;
      assert m.buy[i] && s.cash > 0.0 && Lt(m.rsi[i], cfg.rsiBuyBelow) && Lt(m.atr[i], cfg.atrBelow);
      assert d.cash == 0.0 == st.0.cash;
      assert d.holdings == invest / p == st.0.holdings;
      assert d.trade.value == Trade(i, Buy, p, invest / p, invest) == st.1.value;
    } else if SellWanted(m, cfg, s, i) {
      var sv := s.holdings * p;
      assert s.cash == 0.0;
      assert m.sell[i] && s.holdings > 0.0 && Gt(m.rsi[i], cfg.rsiSellAbove) && Lt(m.atr[i], cfg.atrBelow);
      assert d.cash == sv - sv * cfg.fee == st.0.cash;
      assert d.holdings == 0.0 == st.0.holdings;
      assert d.trade.value == Trade(i, Sell, p, s.holdings, sv) == st.1.value;
    }
  }

  /** The live step reads the flags of the last bar, which the lagged detector never sets:
      whatever the RSI, ATR, cash and price, it keeps the previous row and logs nothing. */
  lemma LiveNeverTrades(bars: seq<Bar>, cfg: Config, prevCash: real, prevHoldings: real, price: real)
    requires ValidConfig(cfg) && |bars| >= 1 && AllPositive(Closes(bars)) && price > 0.0
    ensures LiveDecision(MarketOf(bars, cfg), cfg, |bars| - 1, prevCash, prevHoldings, price) ==
            Decision(prevCash, prevHoldings, None)
  {
    var m := MarketOf(bars, cfg);
    assert !m.buy[|bars| - 1] && !m.sell[|bars| - 1];
  }

  /** A column after `portfolio.loc[stamp] = portfolio.iloc[-1].copy()` when the stamp is new. */
  function WithRow(stamps: seq<int>, column: seq<real>, stamp: int): (c: seq<real>)
    requires |column| >= 1
    ensures stamp in stamps ==> c == column
    ensures stamp !in stamps ==> |c| == |column| + 1 && c[..|column|] == column && c[|column|] == column[|column| - 1]
  {
    if stamp in stamps then column else column + [column[|column| - 1]]
  }

  /** The index after the same step. */
  function WithStamp(stamps: seq<int>, stamp: int): (s: seq<int>)
    ensures stamp in s
    ensures stamp in stamps ==> s == stamps
    ensures stamp !in stamps ==> s == stamps + [stamp]
  {
    if stamp in stamps then stamps else stamps + [stamp]
  }

  /** The global `portfolio` table (timestamps and the holdings, cash and total columns, all
      addressed by position) and the global `trade_log`. */
  class LivePortfolio {
    var stamps: seq<int>
    var holdings: seq<real>
    var cash: seq<real>
    var total: seq<real>
    var log: seq<Trade>

    ghost predicate Valid()
      reads this
    {
      |stamps| == |holdings| == |cash| == |total| >= 1
    }

    /** The table the retrospective run hands over: its rows under the bars' timestamps. */
    constructor (barStamps: seq<int>, out: Outcome)
      requires |barStamps| == |out.holdings| == |out.cash| == |out.total| >= 1
      ensures Valid()
      ensures stamps == barStamps && holdings == out.holdings && cash == out.cash && total == out.total
      ensures log == out.log
    {
      stamps := barStamps;
      holdings := out.holdings;
      cash := out.cash;
      total := out.total;
      log := out.log;
    }

    /** Gives the timestamp a row, copying the last one, unless it already has one. */
    method EnsureRow(stamp: int)
      requires Valid()
      modifies this
      ensures Valid()
      ensures stamps == WithStamp(old(stamps), stamp)
      ensures holdings == WithRow(old(stamps), old(holdings), stamp)
      ensures cash == WithRow(old(stamps), old(cash), stamp)
      ensures total == WithRow(old(stamps), old(total), stamp)
      ensures log == old(log)
    {
      if stamp !in stamps {
        holdings := holdings + [holdings[|holdings| - 1]];
        cash := cash + [cash[|cash| - 1]];
        total := total + [total[|total| - 1]];
        stamps := stamps + [stamp];
      }
    }

    /** The body of the live step over already computed columns: row n-1 starts as a copy of
        row n-2, the decision may overwrite it, and its total is valued at the ticker price.
        Returns `value_if_held`, valued at the ticker price too. */
    method TradeLatest(m: Market, cfg: Config, price: real, latestStamp: int, initial: real)
      returns (valueIfHeld: real)
      requires Valid() && WellFormed(m) && price > 0.0
      requires 2 <= |m.close| <= |holdings| + (if latestStamp in stamps then 0 else 1)
      modifies this
      ensures Valid()
      ensures stamps == WithStamp(old(stamps), latestStamp)
      ensures var i := |m.close| - 1;
        var h := WithRow(old(stamps), old(holdings), latestStamp);
        var c := WithRow(old(stamps), old(cash), latestStamp);
        var d := LiveDecision(m, cfg, i, c[i - 1], h[i - 1], price);
        holdings == h[i := d.holdings]
      ensures var i := |m.close| - 1;
        var h := WithRow(old(stamps), old(holdings), latestStamp);
        var c := WithRow(old(stamps), old(cash), latestStamp);
        var d := LiveDecision(m, cfg, i, c[i - 1], h[i - 1], price);
        cash == c[i := d.cash]
      ensures var i := |m.close| - 1;
        var h := WithRow(old(stamps), old(holdings), latestStamp);
        var c := WithRow(old(stamps), old(cash), latestStamp);
        var d := LiveDecision(m, cfg, i, c[i - 1], h[i - 1], price);
        total == WithRow(old(stamps), old(total), latestStamp)[i := Valuation(d.cash, d.holdings, price)]
      ensures var i := |m.close| - 1;
        var h := WithRow(old(stamps), old(holdings), latestStamp);
        var c := WithRow(old(stamps), old(cash), latestStamp);
        var d := LiveDecision(m, cfg, i, c[i - 1], h[i - 1], price);
        log == old(log) + (if d.trade.Some? then [d.trade.value] else [])
      ensures valueIfHeld == initial * (price / m.close[0])
    {
      ghost var s0, h0, c0, t0, l0 := stamps, holdings, cash, total, log;
      EnsureRow(latestStamp);
      ghost var h, c, t := holdings, cash, total;
      var i := |m.close| - 1;
      assert i < |holdings|;
      holdings := holdings[i := holdings[i - 1]];
      cash := cash[i := cash[i - 1]];
      assert holdings[i - 1] == h[i - 1] && cash[i - 1] == c[i - 1];
      var d := LiveDecision(m, cfg, i, cash[i - 1], holdings[i - 1], price);
      holdings := holdings[i := d.holdings];
      cash := cash[i := d.cash];
      assert holdings == h[i := d.holdings] && cash == c[i := d.cash];
      if d.trade.Some? {
        log := log + [d.trade.value];
      }
      assert total == t;
      var newTotal := cash[i] + holdings[i] * price;
      assert newTotal == Valuation(d.cash, d.holdings, price);
      total := total[i := newTotal];
      assert h == WithRow(s0, h0, latestStamp) && c == WithRow(s0, c0, latestStamp);
      assert d == LiveDecision(m, cfg, i, c[i - 1], h[i - 1], price);
      assert holdings == h[i := d.holdings];
      assert cash == c[i := d.cash];
      assert total == WithRow(s0, t0, latestStamp)[i := Valuation(d.cash, d.holdings, price)];
      assert log == l0 + (if d.trade.Some? then [d.trade.value] else []);
      valueIfHeld := initial * (price / m.close[0]);
    }

    /** `trading_strategy_single_realtime(data)` with the ticker price passed in: the columns
        are computed from the bars, and the step then leaves the log as it was and row n-1 a
        copy of row n-2, revalued at the ticker price. */
    method SingleRealtime(bars: seq<Bar>, cfg: Config, price: real, latestStamp: int, initial: real)
      returns (valueIfHeld: real)
      requires Valid() && ValidConfig(cfg) && AllPositive(Closes(bars)) && price > 0.0
      requires 2 <= |bars| <= |holdings| + (if latestStamp in stamps then 0 else 1)
      modifies this
      ensures Valid() && stamps == WithStamp(old(stamps), latestStamp)
      ensures log == old(log)
      ensures var i := |bars| - 1;
        var h := WithRow(old(stamps), old(holdings), latestStamp);
        var c := WithRow(old(stamps), old(cash), latestStamp);
        holdings == h[i := h[i - 1]] && cash == c[i := c[i - 1]] &&
        total == WithRow(old(stamps), old(total), latestStamp)[i := Valuation(c[i - 1], h[i - 1], price)]
      ensures valueIfHeld * bars[0].close == initial * price
    {
      var m := StrategyColumns(bars, cfg);
      ghost var h := WithRow(stamps, holdings, latestStamp);
      ghost var c := WithRow(stamps, cash, latestStamp);
      LiveNeverTrades(bars, cfg, c[|bars| - 2], h[|bars| - 2], price);
      valueIfHeld := TradeLatest(m, cfg, price, latestStamp, initial);
      assert m.close[0] == bars[0].close > 0.0;
    }
  }
}
