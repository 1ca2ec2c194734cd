/** The trade log shared by the simulators: one record per trade. */
module Trades {
  import opened Wrappers

  datatype Action = Buy | Sell | StopLoss

  /** One entry of `trade_log`: the bar it happened on, what was done, the close price, the
      BTC amount and the cash amount the script records for it. */
  datatype Trade = Trade(bar: nat, action: Action, price: real, amount: real, value: real)

  /** A `trade_log` dictionary of the scripts that also record the bar's RSI, support and
      resistance. */
  datatype Entry = Entry(trade: Trade, rsi: Option<real>, support: real, resistance: real)

  /** Buy, Sell, Buy, ... starting with Buy. */
  predicate Alternates(log: seq<Trade>) {
    forall j :: 0 <= j < |log| ==> log[j].action == (if j % 2 == 0 then Buy else Sell)
  }

  /** The log after a bar that made `trade`, if any. */
  function Extend(log: seq<Trade>, trade: Option<Trade>): seq<Trade> {
    if trade.Some? then log + [trade.value] else log
  }

  /** Bar indices strictly increase along the log: at most one trade per bar, in bar order. */
  predicate BarsIncreasing(log: seq<Trade>) {
    forall j, k :: 0 <= j < k < |log| ==> log[j].bar < log[k].bar
  }

  /** Every logged bar lies in [lo, hi). */
  predicate BarsWithin(log: seq<Trade>, lo: nat, hi: nat) {
    forall j :: 0 <= j < |log| ==> lo <= log[j].bar < hi
  }

  /** Appending a trade on a later bar keeps the log ordered. */
  lemma AppendKeepsOrder(log: seq<Trade>, t: Trade, lo: nat, hi: nat)
    requires BarsIncreasing(log) && BarsWithin(log, lo, hi) && lo <= t.bar
    requires hi <= t.bar
    ensures BarsIncreasing(log + [t]) && BarsWithin(log + [t], lo, t.bar + 1)
  {
  }

  /** The value of a portfolio row at a price: its cash plus its holdings at that price. */
  function Worth(cash: real, holdings: real, price: real): real {
    cash + holdings * price
  }

  /** `portfolio['total']`: cash plus holdings valued at each bar's close. */
  function TotalsOf(holdings: seq<real>, cash: seq<real>, close: seq<real>): (total: seq<real>)
    requires |holdings| == |cash| == |close|
    ensures |total| == |close|
    ensures forall j :: 0 <= j < |close| ==> total[j] == cash[j] + holdings[j] * close[j]
  {
    seq(|close|, j requires 0 <= j < |close| => cash[j] + holdings[j] * close[j])
  }

  /** The revaluation pass over the portfolio columns. */
  method Totals(holdings: seq<real>, cash: seq<real>, close: seq<real>) returns (total: seq<real>)
    requires |holdings| == |cash| == |close|
    ensures total == TotalsOf(holdings, cash, close)
  {
    var t := new real[|close|](_ => 0.0);
    var i := 0;
    while i < |close|
      invariant 0 <= i <= |close|
      invariant forall j :: 0 <= j < i ==> t[j] == cash[j] + holdings[j] * close[j]
    {
      t[i] := cash[i] + holdings[i] * close[i];
      i := i + 1;
    }
    total := t[..];
    assert total == TotalsOf(holdings, cash, close);
  }

  /** Writes row i of the holdings, cash and trade-counter columns. */
  method Record(holdings: array<real>, cash: array<real>, trades: array<nat>, i: nat, h: real, c: real, k: nat)
    requires i < holdings.Length && i < cash.Length && i < trades.Length && holdings != cash
    modifies holdings, cash, trades
    ensures holdings[i] == h && cash[i] == c && trades[i] == k
    ensures forall j :: 0 <= j < holdings.Length && j != i ==> holdings[j] == old(holdings[j])
    ensures forall j :: 0 <= j < cash.Length && j != i ==> cash[j] == old(cash[j])
    ensures forall j :: 0 <= j < trades.Length && j != i ==> trades[j] == old(trades[j])
  {
    holdings[i], cash[i], trades[i] := h, c, k;
  }
}
