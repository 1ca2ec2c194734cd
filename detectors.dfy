/**
 * MACD-histogram turning-point detectors. Each script marks "Green" peaks (sell signals)
 * and "Red" troughs (buy signals) in two boolean columns, in one of three ways:
 *  - lagged: a sign change of the histogram's first difference between bars i-1 and i
 *    marks bar i-1;
 *  - at-bar: the same sign change marks bar i itself;
 *  - three-point: bar i is a strict local maximum or minimum of the histogram.
 */
module Detectors {
  import opened Wrappers
  import opened Indicators

  // ---------------------------------------------------------------------------
  // Specifications of the flags
  // ---------------------------------------------------------------------------

  /** Bar j is a lagged Green peak: the histogram rose into j and did not rise out of it. */
  predicate IsGreenLagged(h: seq<real>, j: int) {
    1 <= j && j + 1 < |h| && h[j] - h[j - 1] > 0.0 && h[j + 1] - h[j] <= 0.0
  }

  /** Bar j is a lagged Red trough: the histogram fell into j and did not fall out of it. */
  predicate IsRedLagged(h: seq<real>, j: int) {
    1 <= j && j + 1 < |h| && h[j] - h[j - 1] < 0.0 && h[j + 1] - h[j] >= 0.0
  }

  function GreenLaggedFlags(h: seq<real>): (f: seq<bool>)
    ensures |f| == |h| && forall j :: 0 <= j < |h| ==> (f[j] <==> IsGreenLagged(h, j))
  {
    seq(|h|, j requires 0 <= j < |h| => IsGreenLagged(h, j))
  }

  function RedLaggedFlags(h: seq<real>): (f: seq<bool>)
    ensures |f| == |h| && forall j :: 0 <= j < |h| ==> (f[j] <==> IsRedLagged(h, j))
  {
    seq(|h|, j requires 0 <= j < |h| => IsRedLagged(h, j))
  }

  /** Bar i is an at-bar Green peak: the differences into i-1 and into i are both defined,
      the first positive and the second not positive. */
  predicate IsGreenAtBar(h: seq<Option<real>>, i: int) {
    2 <= i < |h| && h[i - 2].Some? && h[i - 1].Some? && h[i].Some? &&
    h[i - 1].value - h[i - 2].value > 0.0 && h[i].value - h[i - 1].value <= 0.0
  }

  predicate IsRedAtBar(h: seq<Option<real>>, i: int) {
    2 <= i < |h| && h[i - 2].Some? && h[i - 1].Some? && h[i].Some? &&
    h[i - 1].value - h[i - 2].value < 0.0 && h[i].value - h[i - 1].value >= 0.0
  }

  function GreenAtBarFlags(h: seq<Option<real>>): (f: seq<bool>)
    ensures |f| == |h| && forall i :: 0 <= i < |h| ==> (f[i] <==> IsGreenAtBar(h, i))
  {
    seq(|h|, i requires 0 <= i < |h| => IsGreenAtBar(h, i))
  }

  function RedAtBarFlags(h: seq<Option<real>>): (f: seq<bool>)
    ensures |f| == |h| && forall i :: 0 <= i < |h| ==> (f[i] <==> IsRedAtBar(h, i))
  {
    seq(|h|, i requires 0 <= i < |h| => IsRedAtBar(h, i))
  }

  /** Bar i is an interior strict local maximum of the histogram. */
  predicate IsLocalMax(h: seq<real>, i: int) {
    1 <= i && i + 1 < |h| && h[i] > h[i - 1] && h[i] > h[i + 1]
  }

  /** Bar i is an interior strict local minimum of the histogram. */
  predicate IsLocalMin(h: seq<real>, i: int) {
    1 <= i && i + 1 < |h| && h[i] < h[i - 1] && h[i] < h[i + 1]
  }

  function LocalMaxFlags(h: seq<real>): (f: seq<bool>)
    ensures |f| == |h| && forall i :: 0 <= i < |h| ==> (f[i] <==> IsLocalMax(h, i))
  {
    seq(|h|, i requires 0 <= i < |h| => IsLocalMax(h, i))
  }

  function LocalMinFlags(h: seq<real>): (f: seq<bool>)
    ensures |f| == |h| && forall i :: 0 <= i < |h| ==> (f[i] <==> IsLocalMin(h, i))
  {
    seq(|h|, i requires 0 <= i < |h| => IsLocalMin(h, i))
  }

  // ---------------------------------------------------------------------------
  // The detector loops
  // ---------------------------------------------------------------------------

  /** `hist.diff()` of a fully defined histogram, stated entry by entry so that the loops below
      reason about single differences rather than the whole series. */
  method DefinedDiff(hist: seq<real>) returns (delta: seq<Option<real>>)
    ensures |delta| == |hist|
    ensures forall i :: 1 <= i < |hist| ==> delta[i] == Some(hist[i] - hist[i - 1])
  {
    delta := Diff(Defined(hist));
  }

  /** `hist.diff()` of a histogram that may be undefined, entry by entry. */
  method OptionDiff(hist: seq<Option<real>>) returns (delta: seq<Option<real>>)
    ensures |delta| == |hist| && (|hist| > 0 ==> delta[0] == None)
    ensures forall i :: 1 <= i < |hist| ==>
      delta[i] == if hist[i].Some? && hist[i - 1].Some? then Some(hist[i].value - hist[i - 1].value) else None
  {
    delta := Diff(hist);
  }

  /** `identify_macd_peaks_and_troughs_using_derivative`, lagged variant: for i in 2..n-1 a
      sign change of the difference between i-1 and i flags bar i-1. */
  method IdentifyPeaksLagged(hist: seq<real>) returns (green: seq<bool>, red: seq<bool>)
    ensures green == GreenLaggedFlags(hist) && red == RedLaggedFlags(hist)
  {
    var delta := DefinedDiff(hist);
    var n := |hist|;
    var g := new bool[n](_ => false);
    var r := new bool[n](_ => false);
    var i := 2;
    while i < n
      invariant 2 <= i && (n >= 2 ==> i <= n)
      invariant forall j :: 0 <= j < n ==> (g[j] <==> j + 1 < i && IsGreenLagged(hist, j))
      invariant forall j :: 0 <= j < n ==> (r[j] <==> j + 1 < i && IsRedLagged(hist, j))
    {
      var peak := Gt(delta[i - 1], 0.0) && Le(delta[i], 0.0);
      var trough := Lt(delta[i - 1], 0.0) && Ge(delta[i], 0.0);
      if peak {
        g[i - 1] := true;
      }
      if trough {
        r[i - 1] := true;
      }
      i := i + 1;
    }
    green, red := g[..], r[..];
  }

  /** The derivative detector flagging bar i itself, for i in 1..n-1, over a histogram that
      may be undefined during its warm-up. */
  method IdentifyPeaksAtBar(hist: seq<Option<real>>) returns (green: seq<bool>, red: seq<bool>)
    ensures green == GreenAtBarFlags(hist) && red == RedAtBarFlags(hist)
  {
    var delta := OptionDiff(hist);
    var n := |hist|;
    var g := new bool[n](_ => false);
    var r := new bool[n](_ => false);
    var i := 1;
    while i < n
      invariant 1 <= i && (n >= 1 ==> i <= n)
      invariant forall j :: 0 <= j < n ==> (g[j] <==> j < i && IsGreenAtBar(hist, j))
      invariant forall j :: 0 <= j < n ==> (r[j] <==> j < i && IsRedAtBar(hist, j))
    {
      var peak := Gt(delta[i - 1], 0.0) && Le(delta[i], 0.0);
      var trough := Lt(delta[i - 1], 0.0) && Ge(delta[i], 0.0);
      assert peak == IsGreenAtBar(hist, i) && trough == IsRedAtBar(hist, i);
      if peak {
        g[i] := true;
      }
      if trough {
        r[i] := true;
      }
      i := i + 1;
    }
    green, red := g[..], r[..];
  }

  /** `identify_macd_peaks_and_troughs`: for i in 1..n-2 a strict local maximum is Green,
      otherwise a strict local minimum is Red. */
  method IdentifyPeaksThreePoint(hist: seq<real>) returns (green: seq<bool>, red: seq<bool>)
    ensures green == LocalMaxFlags(hist) && red == LocalMinFlags(hist)
  {
    var n := |hist|;
    var g := new bool[n](_ => false);
    var r := new bool[n](_ => false);
    var i := 1;
    while i + 1 < n
      invariant 1 <= i && (n >= 2 ==> i + 1 <= n)
      invariant forall j :: 0 <= j < n ==> (g[j] <==> j < i && IsLocalMax(hist, j))
      invariant forall j :: 0 <= j < n ==> (r[j] <==> j < i && IsLocalMin(hist, j))
    {
      if hist[i] > hist[i - 1] && hist[i] > hist[i + 1] {
        g[i] := true;
      } else if hist[i] < hist[i - 1] && hist[i] < hist[i + 1] {
        r[i] := true;
      }
      i := i + 1;
    }
    green, red := g[..], r[..];
  }

  /** No bar is both a lagged peak and a lagged trough, and neither end bar is flagged. */
  lemma LaggedFlagsShape(hist: seq<real>)
    ensures var green, red := GreenLaggedFlags(hist), RedLaggedFlags(hist);
      (forall j :: 0 <= j < |hist| ==> !(green[j] && red[j])) &&
      (|hist| > 0 ==> !green[0] && !red[0] && !green[|hist| - 1] && !red[|hist| - 1])
  {
  }

  /** No bar is both an at-bar peak and an at-bar trough, and bars 0 and 1 are never flagged. */
  lemma AtBarFlagsShape(hist: seq<Option<real>>)
    ensures var green, red := GreenAtBarFlags(hist), RedAtBarFlags(hist);
      (forall i :: 0 <= i < |hist| ==> !(green[i] && red[i])) &&
      (forall i :: 0 <= i < |hist| && i < 2 ==> !green[i] && !red[i])
  {
  }

  /** No bar is both a local maximum and a local minimum, and neither end bar is flagged. */
  lemma ThreePointFlagsShape(hist: seq<real>)
    ensures var green, red := LocalMaxFlags(hist), LocalMinFlags(hist);
      (forall i :: 0 <= i < |hist| ==> !(green[i] && red[i])) &&
      (|hist| > 0 ==> !green[0] && !red[0] && !green[|hist| - 1] && !red[|hist| - 1])
  {
  }

  /** `buy_signal_macd_peaks` / `sell_signal_macd_peaks`: each runs the lagged detector
      afresh and keeps the Red (buy) or the Green (sell) column. */
  method BuySellSignals(hist: seq<real>) returns (buy: seq<bool>, sell: seq<bool>)
    ensures buy == RedLaggedFlags(hist) && sell == GreenLaggedFlags(hist)
  {
    var _, red := IdentifyPeaksLagged(hist);
    var green, _ := IdentifyPeaksLagged(hist);
    buy, sell := red, green;
  }

  // ---------------------------------------------------------------------------
  // Crossover signals
  // ---------------------------------------------------------------------------

  /** `(MACD > Signal_Line) & (RSI < below)`: a buy signal that needs no detector. */
  function CrossoverBuy(m: Macd, rsi: seq<Option<real>>, below: real): (f: seq<bool>)
    requires |m.line| == |m.signal| == |rsi|
    ensures |f| == |rsi|
  {
    seq(|rsi|, i requires 0 <= i < |rsi| => m.line[i] > m.signal[i] && Lt(rsi[i], below))
  }

  /** `(MACD < Signal_Line) & (RSI > above)`: the matching sell signal. */
  function CrossoverSell(m: Macd, rsi: seq<Option<real>>, above: real): (f: seq<bool>)
    requires |m.line| == |m.signal| == |rsi|
    ensures |f| == |rsi|
  {
    seq(|rsi|, i requires 0 <= i < |rsi| => m.line[i] < m.signal[i] && Gt(rsi[i], above))
  }

  /** Whatever the RSI thresholds, the two crossover signals are never both on: one needs the
      MACD line above its signal line and the other below it. A buy needs a defined RSI under
      its bound and a sale a defined RSI over its bound. */
  lemma CrossoverExclusive(m: Macd, rsi: seq<Option<real>>, below: real, above: real, i: nat)
    requires |m.line| == |m.signal| == |rsi| && i < |rsi|
    ensures !(CrossoverBuy(m, rsi, below)[i] && CrossoverSell(m, rsi, above)[i])
    ensures CrossoverBuy(m, rsi, below)[i] ==> rsi[i].Some? && rsi[i].value < below
    ensures CrossoverSell(m, rsi, above)[i] ==> rsi[i].Some? && rsi[i].value > above
  {
  }

  // ---------------------------------------------------------------------------
  // Relations between the variants
  // ---------------------------------------------------------------------------

  /** The at-bar detector on a fully defined histogram is the lagged detector shifted one bar
      later: bar i is flagged at-bar exactly when bar i-1 is flagged lagged. */
  lemma AtBarIsLaggedShifted(h: seq<real>, i: nat)
    requires i < |h|
    ensures IsGreenAtBar(Defined(h), i) <==> i >= 1 && IsGreenLagged(h, i - 1)
    ensures IsRedAtBar(Defined(h), i) <==> i >= 1 && IsRedLagged(h, i - 1)
  {
  }

  /** A strict local maximum is also a lagged Green peak, and a strict local minimum a lagged
      Red trough; the converse fails on plateaus. */
  lemma LocalExtremumIsLaggedFlag(h: seq<real>, i: nat)
    requires i < |h|
    ensures IsLocalMax(h, i) ==> IsGreenLagged(h, i)
    ensures IsLocalMin(h, i) ==> IsRedLagged(h, i)
  {
  }

  /** The last bar can carry an at-bar flag: [0, 1, 1] has a Green peak on bar 2. */
  lemma AtBarCanFlagLastBar()
    ensures IsGreenAtBar([Some(0.0), Some(1.0), Some(1.0)], 2)
    ensures !IsGreenLagged([0.0, 1.0, 1.0], 2)
  {
  }

  /** A plateau after a rise is a lagged peak but not a strict local maximum. */
  lemma PlateauIsLaggedOnly()
    ensures IsGreenLagged([0.0, 1.0, 1.0], 1) && !IsLocalMax([0.0, 1.0, 1.0], 1)
  {
  }
}
