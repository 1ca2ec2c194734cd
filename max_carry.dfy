/**
 * The `trading_strategy` of the "100x" backtest: crossover signals (MACD against its signal
 * line, RSI 70/30), the trade counter of the sell-at-peak scripts without their copy of the
 * row on bars without a trade, and instead, after every bar, each of cash and holdings
 * raised to at least its value on the bar before.
 */
module MaxCarry {
  import opened Wrappers
  import opened Indicators
  import opened Detectors
  import opened Trades
  import CounterStrategy

  /** A bar trades only while the counter of the bar before is below this. */
  const TradeLimit: nat := 2
  const RsiWindow: nat := 14
  const BuyRsiBelow: real := 70.0
  const SellRsiAbove: real := 30.0

  /** The loop reads the closes and the two signal columns of the shared market type. */
  type Market = CounterStrategy.Market

  /** Row i of the portfolio. */
  datatype Book = Book(cash: real, holdings: real, trades: nat)

  function Start(initial: real): Book {
    Book(initial, 0.0, 0)
  }

  /** The row the branches of bar i write, starting from no cash, no holdings and a zero
      counter, before the `max` lines. */
  function Written(m: Market, s: Book, i: nat): (Book, Option<Trade>)
    requires CounterStrategy.WellFormed(m) && 1 <= i < |m.close|
  {
    var price := m.close[i];
    if s.trades < TradeLimit && m.buy[i] && s.cash > 0.0 then
      (Book(0.0, s.cash / price, s.trades + 1), Some(Trade(i, Buy, price, s.cash / price, s.cash)))
    else if s.trades < TradeLimit && m.sell[i] && s.holdings > 0.0 then
      (Book(s.holdings * price, 0.0, s.trades + 1), Some(Trade(i, Sell, price, s.holdings, s.holdings * price)))
    else
      (Book(0.0, 0.0, 0), None)
  }

  /** Bar i of the loop, from row i-1: the written row, with each of cash and holdings
      raised to the previous row's if that is larger. */
  function Step(m: Market, s: Book, i: nat): (Book, Option<Trade>)
    requires CounterStrategy.WellFormed(m) && 1 <= i < |m.close|
  {
    var w := Written(m, s, i);
    (Book(Max(w.0.cash, s.cash), Max(w.0.holdings, s.holdings), w.0.trades), w.1)
  }

  /** The rows 0..k-1 and the trades made on them. */
  datatype Trace = Trace(states: seq<Book>, log: seq<Trade>)

  function TraceTo(m: Market, initial: real, k: nat): (t: Trace)
    requires CounterStrategy.WellFormed(m) && 1 <= k <= |m.close|
    ensures |t.states| == k
  {
    if k == 1 then Trace([Start(initial)], [])
    else
      var prev := TraceTo(m, initial, k - 1);
      var st := Step(m, prev.states[k - 2], k - 1);
      Trace(prev.states + [st.0], Extend(prev.log, st.1))
  }

  /** The portfolio columns of a run, and the trades the script logs along the way. */
  datatype Outcome = Outcome(holdings: seq<real>, cash: seq<real>, trades: seq<nat>, total: seq<real>,
                             log: seq<Trade>)

  /** `out` is the result of running the loop over all bars. */
  predicate Runs(m: Market, initial: real, out: Outcome)
    requires CounterStrategy.WellFormed(m)
  {
    var n := |m.close|;
    var t := TraceTo(m, initial, n);
    |out.holdings| == n && |out.cash| == n && |out.trades| == n &&
    (forall i :: 0 <= i < n ==>
      out.holdings[i] == t.states[i].holdings && out.cash[i] == t.states[i].cash && out.trades[i] == t.states[i].trades) &&
    out.total == TotalsOf(out.holdings, out.cash, m.close) &&
    out.log == t.log
  }

  /** The body of the loop for bar i, the two `max` lines included. */
  method TradeBar(m: Market, i: nat, prevCash: real, prevHoldings: real, prevTrades: nat)
    returns (cash: real, holdings: real, trades: nat, trade: Option<Trade>)
    requires CounterStrategy.WellFormed(m) && 1 <= i < |m.close|
    ensures (Book(cash, holdings, trades), trade) == Step(m, Book(prevCash, prevHoldings, prevTrades), i)
  {
    ghost var st := Step(m, Book(prevCash, prevHoldings, prevTrades), i);
    cash, holdings, trades, trade := 0.0, 0.0, 0, None;
    var price := m.close[i];
    if prevTrades < TradeLimit {
      if m.buy[i] && prevCash > 0.0 {
        holdings := prevCash / price;
        cash := 0.0;
        trades := prevTrades + 1;
        trade := Some(Trade(i, Buy, price, prevCash / price, prevCash));
      } else if m.sell[i] && prevHoldings > 0.0 {
        cash := prevHoldings * price;
        holdings := 0.0;
        trades := prevTrades + 1;
        trade := Some(Trade(i, Sell, price, prevHoldings, prevHoldings * price));
        assert st.1.value.amount == prevHoldings && st.1.value.value == prevHoldings * price;
      }
    }
    cash := Max(cash, prevCash);
    holdings := Max(holdings, prevHoldings);
    assert st.0 == Book(cash, holdings, trades) && st.1 == trade;
  }

  /** The loop over bars 1..n-1, filling the portfolio columns in place. */
  method RunBars(m: Market, initial: real, holdings: array<real>, cash: array<real>, trades: array<nat>)
    returns (log: seq<Trade>, ghost states: seq<Book>)
    requires CounterStrategy.WellFormed(m)
    requires holdings.Length == |m.close| && cash.Length == |m.close| && trades.Length == |m.close|
    requires holdings != cash && holdings[0] == 0.0 && cash[0] == initial && trades[0] == 0
    modifies holdings, cash, trades
    ensures Trace(states, log) == TraceTo(m, initial, |m.close|)
    ensures forall j :: 0 <= j < |m.close| ==>
      holdings[j] == states[j].holdings && cash[j] == states[j].cash && trades[j] == states[j].trades
  {
    var n := |m.close|;
    log := [];
    states := [Start(initial)];
    var i := 1;
    while i < n
      invariant 1 <= i <= n
      invariant Trace(states, log) == TraceTo(m, initial, i)
      invariant forall j :: 0 <= j < i ==> holdings[j] == states[j].holdings
      invariant forall j :: 0 <= j < i ==> cash[j] == states[j].cash
      invariant forall j :: 0 <= j < i ==> trades[j] == states[j].trades
    {
      ghost var prev := Trace(states, log);
      var prevCash, prevHoldings, prevTrades := cash[i - 1], holdings[i - 1], trades[i - 1];
      assert Book(prevCash, prevHoldings, prevTrades) == states[i - 1];
      var c, h, k, trade := TradeBar(m, i, prevCash, prevHoldings, prevTrades);
      Record(holdings, cash, trades, i, h, c, k);
      states := states + [Book(c, h, k)];
      log := Extend(log, trade);
      TraceExtends(m, initial, i, prev, Book(c, h, k), trade, Trace(states, log));
      i := i + 1;
    }
  }

  /** One more bar of the trace, from the outcome of Step. */
  lemma TraceExtends(m: Market, initial: real, i: nat, prev: Trace, b: Book, trade: Option<Trade>, next: Trace)
    requires CounterStrategy.WellFormed(m) && 1 <= i < |m.close| && prev == TraceTo(m, initial, i)
    requires (b, trade) == Step(m, prev.states[i - 1], i)
    requires next.states == prev.states + [b] && next.log == Extend(prev.log, trade)
    ensures next == TraceTo(m, initial, i + 1)
  {
  }

  lemma RunsIntro(m: Market, initial: real, t: Trace, out: Outcome)
    requires CounterStrategy.WellFormed(m) && t == TraceTo(m, initial, |m.close|)
    requires |out.holdings| == |m.close| && |out.cash| == |m.close| && |out.trades| == |m.close|
    requires forall j :: 0 <= j < |m.close| ==>
      out.holdings[j] == t.states[j].holdings && out.cash[j] == t.states[j].cash && out.trades[j] == t.states[j].trades
    requires out.total == TotalsOf(out.holdings, out.cash, m.close)
    requires out.log == t.log
    ensures Runs(m, initial, out)
  {
  }

  /** The portfolio loop and the `total` column on prepared signal columns. */
  method Simulate(m: Market, initial: real) returns (out: Outcome)
    requires CounterStrategy.WellFormed(m)
    ensures Runs(m, initial, out)
  {
    var n := |m.close|;
    var holdings := new real[n](_ => 0.0);
    var cash := new real[n](_ => 0.0);
    var trades := new nat[n](_ => 0);
    cash[0] := initial;
    var log, states := RunBars(m, initial, holdings, cash, trades);
    var hs, cs, ks := holdings[..], cash[..], trades[..];
    var total := Totals(hs, cs, m.close);
    out := Outcome(hs, cs, ks, total, log);
    RunsIntro(m, initial, Trace(states, log), out);
  }

  /** The script's columns: crossover signals with RSI over 14 bars. */
  function MaxCarryMarket(close: seq<real>): (m: Market)
    requires |close| >= 1 && AllPositive(close)
    ensures CounterStrategy.WellFormed(m) && m.close == close
  {
    var macd := CalculateMacd(close);
    var rsi := ComputeRsi(close, RsiWindow);
    CounterStrategy.Market(close, CrossoverBuy(macd, rsi, BuyRsiBelow), CrossoverSell(macd, rsi, SellRsiAbove), rsi)
  }

  /** `trading_strategy(data, initial_capital)`: the portfolio it returns, with the trades it
      logs. */
  method TradingStrategy(close: seq<real>, initial: real) returns (out: Outcome)
    requires |close| >= 1 && AllPositive(close)
    ensures Runs(MaxCarryMarket(close), initial, out)
  {
    out := Simulate(MaxCarryMarket(close), initial);
  }

  // ---------------------------------------------------------------------------
  // Properties
  // ---------------------------------------------------------------------------

  /** What bar i does: cash and holdings never fall; a buy (tried first) raises holdings to
      at least the cash at the close and keeps the cash; a sale raises cash to at least the
      holdings' proceeds and keeps the holdings; a trade adds one to the counter; on any
      other bar, and on every bar after two trade bars in a row, nothing is logged, the
      counter is zero and a row without negative amounts is copied. */
  lemma StepEffect(m: Market, s: Book, i: nat)
    requires CounterStrategy.WellFormed(m) && 1 <= i < |m.close|
    ensures var r := Step(m, s, i); var p := m.close[i];
      r.0.cash >= s.cash && r.0.holdings >= s.holdings &&
      (r.1.Some? <==> s.trades < TradeLimit && ((m.buy[i] && s.cash > 0.0) || (m.sell[i] && s.holdings > 0.0))) &&
      (r.1.Some? ==> r.0.trades == s.trades + 1 && r.1.value.bar == i && r.1.value.price == p) &&
      (r.1.Some? && r.1.value.action == Buy <==> s.trades < TradeLimit && m.buy[i] && s.cash > 0.0) &&
      (r.1.Some? && r.1.value.action == Buy ==>
        r.0.cash == s.cash && r.0.holdings == Max(s.cash / p, s.holdings) &&
        r.1.value.amount * p == s.cash && r.1.value.value == s.cash) &&
      (r.1.Some? && r.1.value.action == Sell ==>
        r.0.holdings == s.holdings && r.0.cash == Max(s.holdings * p, s.cash) &&
        r.1.value.amount == s.holdings && r.1.value.value == s.holdings * p) &&
      (r.1.Some? ==> r.1.value.action != StopLoss) &&
      (s.trades >= TradeLimit ==> r.1.None?) &&
      (r.1.None? ==> r.0.trades == 0) &&
      (r.1.None? && s.cash >= 0.0 && s.holdings >= 0.0 ==> r.0.cash == s.cash && r.0.holdings == s.holdings)
  {
    var p := m.close[i];
    if s.trades < TradeLimit && m.buy[i] && s.cash > 0.0 {
      assert s.cash / p * p == s.cash;
    }
  }

  /** Over a run, cash and holdings only ever grow: no row has less cash or fewer bitcoin
      than any row before it, so cash never falls below the initial capital and holdings
      never below zero. */
  lemma {:induction false} NeverDecreasing(m: Market, initial: real, k: nat)
    requires CounterStrategy.WellFormed(m) && 1 <= k <= |m.close|
    ensures forall j, l :: 0 <= j <= l < k ==>
      TraceTo(m, initial, k).states[j].cash <= TraceTo(m, initial, k).states[l].cash &&
      TraceTo(m, initial, k).states[j].holdings <= TraceTo(m, initial, k).states[l].holdings
    ensures forall j :: 0 <= j < k ==>
      TraceTo(m, initial, k).states[j].cash >= initial && TraceTo(m, initial, k).states[j].holdings >= 0.0
  {
    if k > 1 {
      NeverDecreasing(m, initial, k - 1);
      var prev := TraceTo(m, initial, k - 1);
      var s := prev.states[k - 2];
      StepEffect(m, s, k - 1);
      var t := TraceTo(m, initial, k);
      assert t.states == prev.states + [Step(m, s, k - 1).0];
      var last := t.states[k - 1];
      forall j, l | 0 <= j <= l < k
        ensures t.states[j].cash <= t.states[l].cash && t.states[j].holdings <= t.states[l].holdings
      {
        assert j < k - 1 ==> t.states[j] == prev.states[j];
        if l < k - 1 {
          assert t.states[l] == prev.states[l];
        } else {
          assert j < k - 1 ==> prev.states[j].cash <= s.cash && prev.states[j].holdings <= s.holdings;
        }
      }
      forall j | 0 <= j < k ensures t.states[j].cash >= initial && t.states[j].holdings >= 0.0 {
        if j < k - 1 {
          assert t.states[j] == prev.states[j];
        }
      }
    }
  }

  /** The trades of a run are on bars 1..k-1, one per bar, in increasing bar order. */
  lemma {:induction false} LogOrdered(m: Market, initial: real, k: nat)
    requires CounterStrategy.WellFormed(m) && 1 <= k <= |m.close|
    ensures var log := TraceTo(m, initial, k).log; BarsIncreasing(log) && BarsWithin(log, 1, k)
  {
    if k > 1 {
      LogOrdered(m, initial, k - 1);
      var prev := TraceTo(m, initial, k - 1);
      var st := Step(m, prev.states[k - 2], k - 1);
      if st.1.Some? {
        AppendKeepsOrder(prev.log, st.1.value, 1, k - 1);
      }
    }
  }

  // ---------------------------------------------------------------------------
  // The max step as written and as intended
  // ---------------------------------------------------------------------------

  /** As written, a buy keeps the cash it spends: from a row of cash c and no bitcoin, the
      buy row is worth 2c at the buy price. */
  lemma BuyKeepsCash(m: Market, s: Book, i: nat)
    requires CounterStrategy.WellFormed(m) && 1 <= i < |m.close|
    requires s.trades < TradeLimit && m.buy[i] && s.cash > 0.0 && s.holdings == 0.0
    ensures var r := Step(m, s, i).0; var p := m.close[i];
      Worth(r.cash, r.holdings, p) == 2.0 * Worth(s.cash, s.holdings, p)
  {
    var p := m.close[i];
    assert s.cash / p * p == s.cash;
    assert s.cash / p > 0.0;
  }

  /** Signal columns of two bars (not bars that produce them): a buy flag on bar 1, both at
      price 1. */
  function BuyMarket(): (m: Market)
    ensures CounterStrategy.WellFormed(m)
  {
    CounterStrategy.Market([1.0, 1.0], [false, true], [false, false], [None, None])
  }

  /** As written, 100 of capital becomes 100 in cash and 100 bitcoin at price 1. */
  lemma FreeBitcoin()
    ensures TraceTo(BuyMarket(), 100.0, 2).states[1] == Book(100.0, 100.0, 1)
  {
  }

  /** The evident intent: the loop of the sell-at-peak scripts with no RSI or price gate and
      the row copied on every bar without a trade. */
  const Intended: CounterStrategy.Config := CounterStrategy.Config(None, None, false, false, CounterStrategy.Carry)

  /** With the intended loop every bar keeps the row's worth at its close: a buy turns all
      cash into bitcoin of the same value, a sale all bitcoin into the same cash, and any
      other bar copies the row. */
  lemma IntendedStepKeepsWorth(m: Market, s: CounterStrategy.Book, i: nat)
    requires CounterStrategy.WellFormed(m) && 1 <= i < |m.close| && (s.cash == 0.0 || s.holdings == 0.0)
    ensures var r := CounterStrategy.Step(m, Intended, s, i).0; var p := m.close[i];
      Worth(r.cash, r.holdings, p) == Worth(s.cash, s.holdings, p)
  {
    var p := m.close[i];
    CounterStrategy.StepEffect(m, Intended, s, i);
    if CounterStrategy.Step(m, Intended, s, i).1.Some? {
      assert s.cash / p * p == s.cash;
    }
  }

  /** Over an intended run, bar k-1 starts and ends with the same worth at its close. */
  lemma IntendedRunKeepsWorth(m: Market, initial: real, k: nat)
    requires CounterStrategy.WellFormed(m) && 2 <= k <= |m.close|
    ensures var t := CounterStrategy.TraceTo(m, Intended, initial, k); var p := m.close[k - 1];
      Worth(t.states[k - 1].cash, t.states[k - 1].holdings, p) == Worth(t.states[k - 2].cash, t.states[k - 2].holdings, p)
  {
    CounterStrategy.TraceInOrOut(m, Intended, initial, k - 1);
    var prev := CounterStrategy.TraceTo(m, Intended, initial, k - 1);
    var s := prev.states[k - 2];
    IntendedStepKeepsWorth(m, s, k - 1);
    var t := CounterStrategy.TraceTo(m, Intended, initial, k);
    assert t.states == prev.states + [CounterStrategy.Step(m, Intended, s, k - 1).0];
  }

  /** On the same two bars the intended loop turns the 100 into 100 bitcoin and no cash. */
  lemma IntendedBuySpendsCash()
    ensures CounterStrategy.TraceTo(BuyMarket(), Intended, 100.0, 2).states[1] == CounterStrategy.Book(0.0, 100.0, 1, 1.0)
  {
  }
}
