/**
 * `make_trading_decision` of the one-second paper trader: it looks only at the newest row of
 * the indicator table and either appends one portfolio row (a buy or a sell) or returns
 * "Hold". A buy needs an at-bar Red flag, RSI below 30 and cash in the last portfolio row; a
 * sell needs an at-bar Green flag, RSI above 70, holdings, and a price that has risen since
 * the last buy by more than the fee.
 */
module RowTrader {
  import opened Wrappers
  import opened Indicators
  import opened Detectors
  import FeeStrategy

  /** The window of `compute_rsi2`. */
  const RsiWindow: nat := 7
  const RsiBuyBelow: real := 30.0
  const RsiSellAbove: real := 70.0
  /** The starting values of the globals `last_buy_price` and `last_sell_price`. */
  const InitialLastBuy: real := 999999.0
  const InitialLastSell: real := -999999.0

  /** The indicator table read back from the CSV file: close, the at-bar flags and RSI. */
  datatype Frame = Frame(close: seq<real>, red: seq<bool>, green: seq<bool>, rsi: seq<Option<real>>)

  predicate FrameShape(f: Frame) {
    |f.close| >= 1 && |f.red| == |f.close| && |f.green| == |f.close| && |f.rsi| == |f.close|
  }

  /** The columns `update_csv` recomputes over all closes: the MACD histogram (fully defined),
      the at-bar detector over it and the 7-bar rolling-mean RSI. */
  function FrameOf(close: seq<real>): (f: Frame)
    requires |close| >= 1
    ensures FrameShape(f) && f.close == close
  {
    var hist := Defined(CalculateMacd(close).hist);
    Frame(close, RedAtBarFlags(hist), GreenAtBarFlags(hist), ComputeRsi(close, RsiWindow))
  }

  /** `calculate_macd`, `compute_rsi2` and the at-bar detector applied to the combined data. */
  method UpdateIndicators(close: seq<real>) returns (f: Frame)
    requires |close| >= 1
    ensures f == FrameOf(close)
  {
    var macd := CalculateMacd(close);
    var rsi := ComputeRsi(close, RsiWindow);
    var green, red := IdentifyPeaksAtBar(Defined(macd.hist));
    f := Frame(close, red, green, rsi);
  }

  /** One row of the global `portfolio` table. */
  datatype Row = Row(holdings: real, cash: real, total: real)

  /** The string the function returns. */
  datatype Decision = Buy | Sell | Hold

  /** The newest row of the indicator table. */
  datatype Tick = Tick(price: real, red: bool, green: bool, rsi: Option<real>)

  function LatestTick(f: Frame): (t: Tick)
    requires FrameShape(f)
  {
    var i := |f.close| - 1;
    Tick(f.close[i], f.red[i], f.green[i], f.rsi[i])
  }

  /** What one call decides: the returned string, the appended row if any, and the new
      `last_buy_price` and `last_sell_price`. */
  datatype Effect = Effect(decision: Decision, row: Option<Row>, lastBuy: real, lastSell: real)

  /** `(price - lastBuy) / lastBuy > fee` says the same as `price > lastBuy * (1 + fee)`. */
  lemma GainAboveFee(price: real, lastBuy: real, fee: real)
    requires lastBuy > 0.0
    ensures (price - lastBuy) / lastBuy > fee <==> price > lastBuy * (1.0 + fee)
  {
    var r := (price - lastBuy) / lastBuy;
    assert r * lastBuy == price - lastBuy;
    if r > fee {
      assert (r - fee) * lastBuy > 0.0 by { FeeStrategy.MulPositive(r - fee, lastBuy); }
    } else {
      assert (fee - r) * lastBuy >= 0.0 by { MulNonNegative(fee - r, lastBuy); }
    }
  }

  /** The decision for the newest row, given the last portfolio row and the globals. */
  function Decide(last: Row, lastBuy: real, lastSell: real, t: Tick): (e: Effect)
    requires t.price > 0.0 && lastBuy > 0.0
    ensures e.decision == Hold <==> e.row.None?
    ensures e.decision == Hold ==> e.lastBuy == lastBuy && e.lastSell == lastSell
    ensures e.row.Some? ==> e.row.value.cash == 0.0 || e.row.value.holdings == 0.0
    ensures e.row.Some? ==> e.row.value.total == e.row.value.cash + e.row.value.holdings * t.price
    ensures e.decision == Buy ==>
      t.red && Lt(t.rsi, RsiBuyBelow) && last.cash > 0.0 &&
      e.row.value.cash == 0.0 &&
      e.row.value.holdings * t.price == last.cash * (1.0 - FeeStrategy.MakerTakerFee) &&
      e.lastBuy == t.price && e.lastSell == lastSell
    ensures e.decision == Sell ==>
      !(t.red && Lt(t.rsi, RsiBuyBelow) && last.cash > 0.0) &&
      t.green && Gt(t.rsi, RsiSellAbove) && last.holdings > 0.0 &&
      t.price > lastBuy * (1.0 + FeeStrategy.MakerTakerFee) &&
      e.row.value.holdings == 0.0 &&
      e.row.value.cash == last.holdings * t.price * (1.0 - FeeStrategy.MakerTakerFee) &&
      e.lastBuy == lastBuy && e.lastSell == t.price
  {
    var fee := FeeStrategy.MakerTakerFee;
    if t.red && Lt(t.rsi, RsiBuyBelow) && last.cash > 0.0 then
      var investAmount := last.cash - last.cash * fee;
      var newHoldings := investAmount / t.price;
      assert newHoldings * t.price == last.cash * (1.0 - fee);
      Effect(Buy, Some(Row(newHoldings, 0.0, 0.0 + newHoldings * t.price)), t.price, lastSell)
    else if t.green && Gt(t.rsi, RsiSellAbove) && last.holdings > 0.0 then
      if (t.price - lastBuy) / lastBuy > fee then
        GainAboveFee(t.price, lastBuy, fee);
        var sellValue := last.holdings * t.price;
        var newCash := sellValue - sellValue * fee;
        Effect(Sell, Some(Row(0.0, newCash, newCash + 0.0 * t.price)), lastBuy, t.price)
      else
        Effect(Hold, None, lastBuy, lastSell)
    else
      Effect(Hold, None, lastBuy, lastSell)
  }

  /** A buy leaves no cash, so the very next decision cannot be a buy. */
  lemma NoBuyAfterBuy(last: Row, lastBuy: real, lastSell: real, t1: Tick, t2: Tick)
    requires t1.price > 0.0 && t2.price > 0.0 && lastBuy > 0.0
    requires Decide(last, lastBuy, lastSell, t1).decision == Buy
    ensures var e := Decide(last, lastBuy, lastSell, t1);
      Decide(e.row.value, e.lastBuy, e.lastSell, t2).decision != Buy
  {
  }

  /** A sale leaves no holdings, so the very next decision cannot be a sale. */
  lemma NoSellAfterSell(last: Row, lastBuy: real, lastSell: real, t1: Tick, t2: Tick)
    requires t1.price > 0.0 && t2.price > 0.0 && lastBuy > 0.0
    requires Decide(last, lastBuy, lastSell, t1).decision == Sell
    ensures var e := Decide(last, lastBuy, lastSell, t1);
      Decide(e.row.value, e.lastBuy, e.lastSell, t2).decision != Sell
  {
  }

  /** After a buy, a sale is possible at the next signal: the bought holdings are positive,
      and a sale then happens exactly above the buy price plus the fee. */
  lemma SellAfterBuy(last: Row, lastBuy: real, lastSell: real, t1: Tick, t2: Tick)
    requires t1.price > 0.0 && t2.price > 0.0 && lastBuy > 0.0
    requires Decide(last, lastBuy, lastSell, t1).decision == Buy
    requires t2.green && Gt(t2.rsi, RsiSellAbove)
    ensures var e := Decide(last, lastBuy, lastSell, t1);
      Decide(e.row.value, e.lastBuy, e.lastSell, t2).decision == Sell <==>
      t2.price > t1.price * (1.0 + FeeStrategy.MakerTakerFee)
  {
    var e := Decide(last, lastBuy, lastSell, t1);
    FeeStrategy.BoughtPositive(last.cash, FeeStrategy.MakerTakerFee, t1.price);
    assert e.row.value.holdings > 0.0;
    GainAboveFee(t2.price, t1.price, FeeStrategy.MakerTakerFee);
  }

  /** Every row has no cash or no holdings. */
  predicate AllInOrOut(rows: seq<Row>) {
    forall j :: 0 <= j < |rows| ==> rows[j].cash == 0.0 || rows[j].holdings == 0.0
  }

  /** The globals the function reads and rebinds: `portfolio`, `last_buy_price` and
      `last_sell_price`. */
  class RowPortfolio {
    var rows: seq<Row>
    var lastBuyPrice: real
    var lastSellPrice: real

    ghost predicate Valid()
      reads this
    {
      |rows| >= 1 && lastBuyPrice > 0.0
    }

    /** The starting table: one row with no holdings and all of the capital in cash. */
    constructor (initial: real)
      ensures Valid()
      ensures rows == [Row(0.0, initial, initial)] && AllInOrOut(rows)
      ensures lastBuyPrice == InitialLastBuy && lastSellPrice == InitialLastSell
    {
      rows := [Row(0.0, initial, initial)];
      lastBuyPrice := InitialLastBuy;
      lastSellPrice := InitialLastSell;
    }

    /** `make_trading_decision(df)`: decides on the newest row of the table and appends at
        most one portfolio row. */
    method MakeTradingDecision(f: Frame) returns (decision: Decision)
      requires Valid() && FrameShape(f) && AllPositive(f.close)
      modifies this
      ensures Valid()
      ensures var e := Decide(old(rows)[|old(rows)| - 1], old(lastBuyPrice), old(lastSellPrice), LatestTick(f));
        decision == e.decision &&
        rows == old(rows) + (if e.row.Some? then [e.row.value] else []) &&
        lastBuyPrice == e.lastBuy && lastSellPrice == e.lastSell
      ensures decision == Hold ==> rows == old(rows)
      ensures AllInOrOut(old(rows)) ==> AllInOrOut(rows)
    {
      var i := |f.close| - 1;
      var currentPrice := f.close[i];
      var last := rows[|rows| - 1];
      ghost var e := Decide(last, lastBuyPrice, lastSellPrice, LatestTick(f));
      var fee := FeeStrategy.MakerTakerFee;
      if f.red[i] && Lt(f.rsi[i], RsiBuyBelow) && last.cash > 0.0 {
        var transactionCost := last.cash * fee;
        var investAmount := last.cash - transactionCost;
        var newHoldings := investAmount / currentPrice;
        var newCash := 0.0;
        var newTotal := newCash + newHoldings * currentPrice;
        lastBuyPrice := currentPrice;
        rows := rows + [Row(newHoldings, newCash, newTotal)];
        assert e.decision == Buy && e.lastBuy == currentPrice;
        assert e.row.value.holdings == newHoldings && e.row.value.cash == newCash && e.row.value.total == newTotal;
        return Buy;
      }
      if f.green[i] && Gt(f.rsi[i], RsiSellAbove) && last.holdings > 0.0 {
        if (currentPrice - lastBuyPrice) / lastBuyPrice > fee {
          var sellValue := last.holdings * currentPrice;
          var transactionCost := sellValue * fee;
          var newCash := sellValue - transactionCost;
          var newHoldings := 0.0;
          var newTotal := newCash + newHoldings * currentPrice;
          lastSellPrice := currentPrice;
          rows := rows + [Row(newHoldings, newCash, newTotal)];
          assert e.decision == Sell && e.lastSell == currentPrice;
          assert e.row.value.holdings == newHoldings && e.row.value.cash == newCash && e.row.value.total == newTotal;
          return Sell;
        } else {
          return Hold;
        }
      }
      return Hold;
    }
  }
}
