/**
 * `backtest_strategy` of the 30-day backtest: a fee-free all-in/all-out run over the rows of
 * the indicator table. A row with an at-bar Red flag and capital buys with all of it; else a
 * row with an at-bar Green flag and a position sells all of it. Each trade is logged with the
 * position and capital it leaves.
 */
module Backtest {
  import opened Wrappers
  import opened Indicators
  import opened Detectors
  import opened Trades

  /** The columns the loop reads: close and the at-bar flags. */
  datatype Columns = Columns(close: seq<real>, red: seq<bool>, green: seq<bool>)

  predicate Shaped(c: Columns) {
    |c.red| == |c.close| && |c.green| == |c.close| && AllPositive(c.close)
  }

  /** The local `capital` and `position`. */
  datatype Holding = Holding(capital: real, position: real)

  /** A `trade_log` tuple: row, action, close, and the position and capital after the trade. */
  datatype LogEntry = LogEntry(row: nat, action: Action, price: real, position: real, capital: real)

  /** Row i of the loop. */
  function RowStep(c: Columns, s: Holding, i: nat): (Holding, Option<LogEntry>)
    requires Shaped(c) && i < |c.close|
  {
    var price := c.close[i];
    if c.red[i] && s.capital > 0.0 then
      var position := s.capital / price;
      (Holding(0.0, position), Some(LogEntry(i, Buy, price, position, 0.0)))
    else if c.green[i] && s.position > 0.0 then
      var capital := s.position * price;
      (Holding(capital, 0.0), Some(LogEntry(i, Sell, price, 0.0, capital)))
    else
      (s, None)
  }

  /** The holding and the log after rows 0..k-1. */
  function RunRows(c: Columns, initial: real, k: nat): (Holding, seq<LogEntry>)
    requires Shaped(c) && k <= |c.close|
  {
    if k == 0 then (Holding(initial, 0.0), [])
    else
      var prev := RunRows(c, initial, k - 1);
      var st := RowStep(c, prev.0, k - 1);
      (st.0, prev.1 + (if st.1.Some? then [st.1.value] else []))
  }

  /** `capital + position * close` of the last row. */
  function Valuation(c: Columns, s: Holding): real
    requires Shaped(c) && |c.close| >= 1
  {
    s.capital + s.position * c.close[|c.close| - 1]
  }

  /** `backtest_strategy(data, initial_capital)`: the final valuation and the trade log. */
  method BacktestStrategy(c: Columns, initial: real) returns (finalValuation: real, log: seq<LogEntry>)
    requires Shaped(c) && |c.close| >= 1
    ensures var r := RunRows(c, initial, |c.close|);
      log == r.1 && finalValuation == Valuation(c, r.0)
  {
    var capital := initial;
    var position := 0.0;
    log := [];
    var i := 0;
    while i < |c.close|
      invariant 0 <= i <= |c.close|
      invariant (Holding(capital, position), log) == RunRows(c, initial, i)
    {
      ghost var st := RowStep(c, Holding(capital, position), i);
      ghost var prevLog := log;
      var price := c.close[i];
      if c.red[i] && capital > 0.0 {
        position := capital / price;
        capital := 0.0;
        log := log + [LogEntry(i, Buy, price, position, capital)];
        assert st.1.value == LogEntry(i, Buy, price, position, capital);
      } else if c.green[i] && position > 0.0 {
        capital := position * price;
        position := 0.0;
        log := log + [LogEntry(i, Sell, price, position, capital)];
        assert st.1.value == LogEntry(i, Sell, price, position, capital);
      }
      assert st.0 == Holding(capital, position);
      assert log == prevLog + (if st.1.Some? then [st.1.value] else []);
      assert RunRows(c, initial, i + 1) == (st.0, prevLog + (if st.1.Some? then [st.1.value] else []));
      i := i + 1;
    }
    finalValuation := capital + position * c.close[|c.close| - 1];
  }

  /** The driver: the at-bar detector over the given histogram, then the backtest. */
  method BacktestFromHistogram(close: seq<real>, hist: seq<Option<real>>, initial: real)
    returns (finalValuation: real, log: seq<LogEntry>)
    requires |hist| == |close| >= 1 && AllPositive(close)
    ensures var c := Columns(close, RedAtBarFlags(hist), GreenAtBarFlags(hist));
      var r := RunRows(c, initial, |close|);
      log == r.1 && finalValuation == Valuation(c, r.0)
  {
    var green, red := IdentifyPeaksAtBar(hist);
    finalValuation, log := BacktestStrategy(Columns(close, red, green), initial);
  }

  // ---------------------------------------------------------------------------
  // Properties
  // ---------------------------------------------------------------------------

  /** The shape of the run after every row: with an even number of trades there is no
      position, with an odd number there is no capital and a positive position. */
  predicate InStep(s: Holding, log: seq<LogEntry>) {
    (|log| % 2 == 0 ==> s.position == 0.0) &&
    (|log| % 2 == 1 ==> s.capital == 0.0 && s.position > 0.0)
  }

  /** One row keeps the shape and extends the log by at most one entry, which is a Buy at an
      even and a Sell at an odd position of the log. */
  lemma RowStepInStep(c: Columns, s: Holding, log: seq<LogEntry>, i: nat)
    requires Shaped(c) && i < |c.close| && InStep(s, log)
    ensures var st := RowStep(c, s, i);
      var log' := log + (if st.1.Some? then [st.1.value] else []);
      InStep(st.0, log') &&
      (st.1.Some? ==> st.1.value.row == i && st.1.value.action == (if |log| % 2 == 0 then Buy else Sell))
  {
    var p := c.close[i];
    if c.red[i] && s.capital > 0.0 {
      assert s.capital / p > 0.0;
    } else if c.green[i] && s.position > 0.0 {
      assert s.position * p > 0.0;
    }
  }

  /** After every row the capital or the position is zero, the log alternates BUY, SELL, ...
      starting with BUY, and it lists increasing rows below k. */
  lemma {:induction false} RunInStep(c: Columns, initial: real, k: nat)
    requires Shaped(c) && k <= |c.close|
    ensures var r := RunRows(c, initial, k);
      InStep(r.0, r.1) && (r.0.capital == 0.0 || r.0.position == 0.0) &&
      (forall j :: 0 <= j < |r.1| ==> r.1[j].action == (if j % 2 == 0 then Buy else Sell)) &&
      (forall j :: 0 <= j < |r.1| ==> r.1[j].row < k) &&
      (forall j, l :: 0 <= j < l < |r.1| ==> r.1[j].row < r.1[l].row)
  {
    if k > 0 {
      RunInStep(c, initial, k - 1);
      var prev := RunRows(c, initial, k - 1);
      RowStepInStep(c, prev.0, prev.1, k - 1);
    }
  }

  /** Every entry records the trade it stands for: a BUY turns all capital into a position at
      the close, a SELL turns the whole position into capital at the close. */
  lemma RowStepEffect(c: Columns, s: Holding, i: nat)
    requires Shaped(c) && i < |c.close|
    ensures var st := RowStep(c, s, i);
      (st.1.None? <==> st.0 == s) &&
      (st.1.Some? ==> st.1.value.position == st.0.position && st.1.value.capital == st.0.capital &&
                      st.1.value.price == c.close[i]) &&
      (st.1.Some? && st.1.value.action == Buy ==>
        c.red[i] && s.capital > 0.0 && st.0.capital == 0.0 && st.0.position * c.close[i] == s.capital) &&
      (st.1.Some? && st.1.value.action == Sell ==>
        !(c.red[i] && s.capital > 0.0) && c.green[i] && s.position > 0.0 &&
        st.0.position == 0.0 && st.0.capital == s.position * c.close[i])
  {
    var p := c.close[i];
    if c.red[i] && s.capital > 0.0 {
      assert s.capital / p > 0.0 && s.capital / p * p == s.capital;
    } else if c.green[i] && s.position > 0.0 {
      assert s.position * p > 0.0;
    }
  }

  /** With no fee, buying with all capital and selling at the same price gives the capital
      back exactly. */
  lemma RoundTripAtSamePrice(c: Columns, s: Holding, i: nat, j: nat)
    requires Shaped(c) && i < j < |c.close| && c.close[i] == c.close[j]
    requires c.red[i] && s.capital > 0.0 && !c.red[j] && c.green[j]
    ensures RowStep(c, RowStep(c, s, i).0, j).0 == Holding(s.capital, 0.0)
  {
    var p := c.close[i];
    assert s.capital / p > 0.0 && s.capital / p * p == s.capital;
  }

  /** Fed by the at-bar detector, the loop never trades on rows 0 and 1. */
  lemma NoTradeOnFirstRows(close: seq<real>, hist: seq<Option<real>>, initial: real, s: Holding, i: nat)
    requires |hist| == |close| && AllPositive(close) && i < |close| && i < 2
    ensures RowStep(Columns(close, RedAtBarFlags(hist), GreenAtBarFlags(hist)), s, i).1.None?
  {
  }
}
