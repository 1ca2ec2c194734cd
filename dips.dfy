/**
 * The "major dip" markers of the index chart: bar i is marked when its close is at least 9%
 * below the highest close of the five bars before it, its zero-filled RSI(14) lies in
 * [30, 40] and its MACD line is below the signal line.
 */
module Dips {
  import opened Wrappers
  import opened Indicators

  /** `major_crash_threshold`, in percent. */
  const CrashThreshold: real := -9.0
  /** `window_size`: the bars before i that give the reference price. */
  const WindowSize: nat := 5
  const RsiLow: real := 30.0
  const RsiHigh: real := 40.0
  /** The default window of `calculate_rsi`. */
  const RsiWindow: nat := 14

  /** The columns the loop reads. */
  datatype Chart = Chart(close: seq<real>, rsi: seq<Option<real>>, macd: seq<real>, signal: seq<real>)

  predicate Shaped(c: Chart) {
    |c.rsi| == |c.close| && |c.macd| == |c.close| && |c.signal| == |c.close| && AllPositive(c.close)
  }

  /** `max()` of the closes of bars lo..hi-1. */
  function WindowMax(close: seq<real>, lo: nat, hi: nat): real
    requires lo < hi <= |close|
    decreases hi - lo
  {
    if hi == lo + 1 then close[lo] else Max(WindowMax(close, lo, hi - 1), close[hi - 1])
  }

  /** The maximum is one of the closes of the window and at least every other one. */
  lemma {:induction false} WindowMaxIsMax(close: seq<real>, lo: nat, hi: nat)
    requires lo < hi <= |close|
    ensures forall k :: lo <= k < hi ==> close[k] <= WindowMax(close, lo, hi)
    ensures exists k :: lo <= k < hi && WindowMax(close, lo, hi) == close[k]
    decreases hi - lo
  {
    if hi > lo + 1 {
      WindowMaxIsMax(close, lo, hi - 1);
      var a :| lo <= a < hi - 1 && WindowMax(close, lo, hi - 1) == close[a];
      if close[hi - 1] > close[a] {
        assert WindowMax(close, lo, hi) == close[hi - 1];
      } else {
        assert WindowMax(close, lo, hi) == close[a];
      }
    } else {
      assert WindowMax(close, lo, hi) == close[lo];
    }
  }

  /** Two series with the same closes on lo..hi-1 have the same maximum there. */
  lemma {:induction false} WindowMaxAgrees(x: seq<real>, y: seq<real>, lo: nat, hi: nat)
    requires lo < hi <= |x| && hi <= |y| && forall k :: lo <= k < hi ==> x[k] == y[k]
    ensures WindowMax(x, lo, hi) == WindowMax(y, lo, hi)
    decreases hi - lo
  {
    if hi > lo + 1 {
      WindowMaxAgrees(x, y, lo, hi - 1);
    }
  }

  /** The highest close of the five bars before i, bar i itself excluded. */
  function Reference(c: Chart, i: nat): (m: real)
    requires Shaped(c) && WindowSize <= i < |c.close|
    ensures m > 0.0
  {
    WindowMaxIsMax(c.close, i - WindowSize, i);
    assert c.close[i - 1] > 0.0;
    WindowMax(c.close, i - WindowSize, i)
  }

  /** The reference price is the largest of the five closes before bar i. */
  lemma ReferenceIsWindowMax(c: Chart, i: nat)
    requires Shaped(c) && WindowSize <= i < |c.close|
    ensures forall k :: i - WindowSize <= k < i ==> c.close[k] <= Reference(c, i)
    ensures exists k :: i - WindowSize <= k < i && Reference(c, i) == c.close[k]
  {
    WindowMaxIsMax(c.close, i - WindowSize, i);
  }

  /** `(close[i] - max) / max * 100`. */
  function PercentChange(c: Chart, i: nat): real
    requires Shaped(c) && WindowSize <= i < |c.close|
  {
    var m := Reference(c, i);
    (c.close[i] - m) / m * 100.0
  }

  /** The test of bar i, with the percentage condition in its meaning for positive closes
      (`close[i] <= 0.91 * max`, see DipMeaning); a NaN RSI fails both of its comparisons. */
  predicate MajorDip(c: Chart, i: nat)
    requires Shaped(c) && WindowSize <= i < |c.close|
  {
    c.close[i] <= 0.91 * Reference(c, i) && Ge(c.rsi[i], RsiLow) && Le(c.rsi[i], RsiHigh) &&
    c.macd[i] < c.signal[i]
  }

  /** The bars among WindowSize..k-1 that pass the test, in increasing order. */
  function DipsBefore(c: Chart, k: nat): seq<nat>
    requires Shaped(c) && k <= |c.close|
  {
    if k <= WindowSize then []
    else DipsBefore(c, k - 1) + (if MajorDip(c, k - 1) then [k - 1] else [])
  }

  /** The loop of `get_nasdaq_chart`: the bars it marks, in the order it draws them. */
  method MarkDips(c: Chart) returns (dips: seq<nat>)
    requires Shaped(c)
    ensures dips == DipsBefore(c, |c.close|)
  {
    dips := [];
    var i := WindowSize;
    while i < |c.close|
      invariant WindowSize <= i
      invariant i <= |c.close| ==> dips == DipsBefore(c, i)
      invariant |c.close| < i ==> dips == [] && |c.close| <= WindowSize
    {
      var dip := IsDip(c, i);
      if dip {
        dips := dips + [i];
      }
      i := i + 1;
    }
    if |c.close| < WindowSize {
      assert dips == DipsBefore(c, |c.close|);
    }
  }

  /** Every marked bar is a bar from WindowSize on that passes the test. */
  lemma {:induction false} DipsBeforeSound(c: Chart, k: nat)
    requires Shaped(c) && k <= |c.close|
    ensures forall m :: 0 <= m < |DipsBefore(c, k)| ==>
      WindowSize <= DipsBefore(c, k)[m] < k && MajorDip(c, DipsBefore(c, k)[m])
  {
    if k > WindowSize {
      DipsBeforeSound(c, k - 1);
      var prev := DipsBefore(c, k - 1);
      var d := DipsBefore(c, k);
      assert forall m :: 0 <= m < |prev| ==> d[m] == prev[m];
    }
  }

  /** Every bar from WindowSize on that passes the test is marked. */
  lemma {:induction false} DipsBeforeComplete(c: Chart, k: nat)
    requires Shaped(c) && k <= |c.close|
    ensures forall i :: WindowSize <= i < k && MajorDip(c, i) ==> i in DipsBefore(c, k)
  {
    if k > WindowSize {
      DipsBeforeComplete(c, k - 1);
      var prev := DipsBefore(c, k - 1);
      var d := DipsBefore(c, k);
      assert forall i :: i in prev ==> i in d;
    }
  }

  /** The marks are in increasing bar order, one per bar. */
  lemma {:induction false} DipsBeforeIncreasing(c: Chart, k: nat)
    requires Shaped(c) && k <= |c.close|
    ensures forall m, l :: 0 <= m < l < |DipsBefore(c, k)| ==> DipsBefore(c, k)[m] < DipsBefore(c, k)[l]
  {
    if k > WindowSize {
      DipsBeforeIncreasing(c, k - 1);
      DipsBeforeSound(c, k - 1);
      var prev := DipsBefore(c, k - 1);
      var d := DipsBefore(c, k);
      assert forall m :: 0 <= m < |prev| ==> d[m] == prev[m] && prev[m] < k - 1;
    }
  }

  /** The marked bars are exactly the bars from WindowSize on that pass the test, in
      increasing order: bars 0 to 4 are never marked. */
  lemma DipsBeforeMeaning(c: Chart, k: nat)
    requires Shaped(c) && k <= |c.close|
    ensures var d := DipsBefore(c, k);
      (forall m :: 0 <= m < |d| ==> WindowSize <= d[m] < k && MajorDip(c, d[m])) &&
      (forall i :: WindowSize <= i < k && MajorDip(c, i) ==> i in d) &&
      (forall m, l :: 0 <= m < l < |d| ==> d[m] < d[l])
  {
    DipsBeforeSound(c, k);
    DipsBeforeComplete(c, k);
    DipsBeforeIncreasing(c, k);
  }

  /** The test of one bar, as the loop body computes it. */
  method IsDip(c: Chart, i: nat) returns (dip: bool)
    requires Shaped(c) && WindowSize <= i < |c.close|
    ensures dip == MajorDip(c, i)
  {
    var top := Reference(c, i);
    var change := (c.close[i] - top) / top * 100.0;
    DipMeaning(c, i);
    dip := change <= CrashThreshold && Ge(c.rsi[i], RsiLow) && Le(c.rsi[i], RsiHigh) && c.macd[i] < c.signal[i];
  }

  // ---------------------------------------------------------------------------
  // Properties
  // ---------------------------------------------------------------------------

  /** With positive closes the script's percentage test `(close[i] - max) / max * 100 <= -9`
      is `close[i] <= 0.91 * max`; a marked bar is therefore below the highest close of its
      window, and it has a defined RSI in [30, 40] and a MACD line below the signal line. */
  lemma DipMeaning(c: Chart, i: nat)
    requires Shaped(c) && WindowSize <= i < |c.close|
    ensures PercentChange(c, i) <= CrashThreshold <==> c.close[i] <= 0.91 * Reference(c, i)
    ensures MajorDip(c, i) ==>
      c.close[i] < Reference(c, i) && c.rsi[i].Some? && RsiLow <= c.rsi[i].value <= RsiHigh &&
      c.macd[i] < c.signal[i]
  {
    var m := Reference(c, i);
    var x := c.close[i];
    var y := (x - m) / m;
    assert y * m == x - m;
    assert PercentChange(c, i) == y * 100.0;
    assert (y + 0.09) * m == x - 0.91 * m;
    SignOfProduct(y + 0.09, m);
  }

  lemma SignOfProduct(a: real, m: real)
    requires m > 0.0
    ensures a <= 0.0 <==> a * m <= 0.0
  {
    if a > 0.0 {
      assert a * m > 0.0;
    } else {
      assert (-a) * m >= 0.0;
    }
  }

  /** The reference price looks only at the five bars before i: changing bar i, or any bar
      outside the window, leaves it as it is. */
  lemma ReferenceWindow(c: Chart, d: Chart, i: nat)
    requires Shaped(c) && Shaped(d) && WindowSize <= i < |c.close| && i < |d.close|
    requires c.close[i - WindowSize..i] == d.close[i - WindowSize..i]
    ensures Reference(c, i) == Reference(d, i)
  {
    forall k | i - WindowSize <= k < i ensures c.close[k] == d.close[k] {
      assert c.close[k] == c.close[i - WindowSize..i][k - (i - WindowSize)];
    }
    WindowMaxAgrees(c.close, d.close, i - WindowSize, i);
  }

  /** The chart of a close series: the zero-filled RSI(14), the MACD line and its signal. */
  function ChartOf(close: seq<real>): (c: Chart)
    requires AllPositive(close)
    ensures Shaped(c) && c.close == close
  {
    var m := CalculateMacd(close);
    Chart(close, CalculateRsi(close, RsiWindow), m.line, m.signal)
  }

  /** On the chart of a close series no bar before 13 is a dip: the RSI is still undefined
      there. */
  lemma NoDipDuringRsiWarmup(close: seq<real>, i: nat)
    requires AllPositive(close) && WindowSize <= i < |close| && i + 1 < RsiWindow
    ensures !MajorDip(ChartOf(close), i)
  {
    CalculateRsiRange(close, RsiWindow, i);
  }

  /** A flat close series has no dips: the close equals the window maximum and the MACD equals
      its signal line. */
  lemma FlatHasNoDips(close: seq<real>, p: real, i: nat)
    requires AllPositive(close) && Constant(close, p) && WindowSize <= i < |close|
    ensures !MajorDip(ChartOf(close), i)
  {
    MacdOfConstant(close, p);
    var c := ChartOf(close);
    assert c.macd[i] == 0.0 && c.signal[i] == 0.0;
  }
}
