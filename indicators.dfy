/**
 * The indicator engine: exponential moving averages with `adjust=False`, MACD,
 * RSI over simple rolling means, true range and ATR, support/resistance and the
 * buy-and-hold baseline. Every column is index-aligned with the bar sequence;
 * pandas' warm-up NaN is `None`.
 */
module Indicators {
  import opened Wrappers

  /** One OHLC candle. */
  datatype Bar = Bar(open: real, high: real, low: real, close: real)

  /** The `Close` column. */
  function Closes(bars: seq<Bar>): (c: seq<real>)
    ensures |c| == |bars|
    ensures forall i :: 0 <= i < |bars| ==> c[i] == bars[i].close
  {
    seq(|bars|, i requires 0 <= i < |bars| => bars[i].close)
  }

  /** A column without undefined entries, as an Option column. */
  function Defined(x: seq<real>): (d: seq<Option<real>>)
    ensures |d| == |x|
    ensures forall i :: 0 <= i < |x| ==> d[i] == Some(x[i])
  {
    seq(|x|, i requires 0 <= i < |x| => Some(x[i]))
  }

  predicate AllPositive(x: seq<real>) {
    forall i :: 0 <= i < |x| ==> x[i] > 0.0
  }

  predicate Constant(x: seq<real>, c: real) {
    forall i :: 0 <= i < |x| ==> x[i] == c
  }

  // ---------------------------------------------------------------------------
  // Exponential moving average, `ewm(span=s, adjust=False).mean()`
  // ---------------------------------------------------------------------------

  /** The smoothing factor of `ewm(span=s)`. */
  function Alpha(span: nat): (a: real)
    requires span >= 1
    ensures 0.0 < a <= 1.0
  {
    2.0 / (span as real + 1.0)
  }

  const FastSpan: nat := 12
  const SlowSpan: nat := 26
  const SignalSpan: nat := 9

  /** The recursive, unadjusted EMA at index t: seeded by the first value. */
  function EmaAt(x: seq<real>, alpha: real, t: nat): real
    requires t < |x|
  {
    if t == 0 then x[0] else alpha * x[t] + (1.0 - alpha) * EmaAt(x, alpha, t - 1)
  }

  function Ema(x: seq<real>, alpha: real): (e: seq<real>)
    ensures |e| == |x|
    ensures forall t :: 0 <= t < |x| ==> e[t] == EmaAt(x, alpha, t)
  {
    seq(|x|, t requires 0 <= t < |x| => EmaAt(x, alpha, t))
  }

  /** The EMA of a constant series is that constant at every index. */
  lemma {:induction false} EmaOfConstant(x: seq<real>, alpha: real, c: real, t: nat)
    requires t < |x| && Constant(x, c)
    ensures EmaAt(x, alpha, t) == c
  {
    if t > 0 {
      EmaOfConstant(x, alpha, c, t - 1);
      calc {
        EmaAt(x, alpha, t);
        alpha * c + (1.0 - alpha) * c;
        c;
      }
    }
  }

  /** With 0 <= alpha <= 1 each EMA value is a convex combination of the inputs so far. */
  lemma {:induction false} EmaBounded(x: seq<real>, alpha: real, lo: real, hi: real, t: nat)
    requires t < |x| && 0.0 <= alpha <= 1.0
    requires forall k :: 0 <= k <= t ==> lo <= x[k] <= hi
    ensures lo <= EmaAt(x, alpha, t) <= hi
  {
    if t > 0 {
      EmaBounded(x, alpha, lo, hi, t - 1);
      ConvexBetween(alpha, x[t], EmaAt(x, alpha, t - 1), lo, hi);
    }
  }

  lemma MulNonNegative(p: real, q: real)
    requires p >= 0.0 && q >= 0.0
    ensures p * q >= 0.0
  {
  }

  lemma ConvexBetween(a: real, u: real, v: real, lo: real, hi: real)
    requires 0.0 <= a <= 1.0 && lo <= u <= hi && lo <= v <= hi
    ensures lo <= a * u + (1.0 - a) * v <= hi
  {
    MulNonNegative(a, u - lo);
    MulNonNegative(1.0 - a, v - lo);
    MulNonNegative(a, hi - u);
    MulNonNegative(1.0 - a, hi - v);
    assert a * u + (1.0 - a) * v - lo == a * (u - lo) + (1.0 - a) * (v - lo);
    assert hi - (a * u + (1.0 - a) * v) == a * (hi - u) + (1.0 - a) * (hi - v);
  }

  /** The EMA is causal: recomputing it on a prefix leaves the earlier values unchanged. */
  lemma {:induction false} EmaCausal(x: seq<real>, alpha: real, k: nat, t: nat)
    requires t < k <= |x|
    ensures EmaAt(x[..k], alpha, t) == EmaAt(x, alpha, t)
  {
    if t > 0 {
      EmaCausal(x, alpha, k, t - 1);
    }
  }

  // ---------------------------------------------------------------------------
  // MACD 12/26/9
  // ---------------------------------------------------------------------------

  datatype Macd = Macd(line: seq<real>, signal: seq<real>, hist: seq<real>)

  /** `ewm(12) - ewm(26)` of the closes. */
  function MacdLine(close: seq<real>): (m: seq<real>)
    ensures |m| == |close|
    ensures forall i :: 0 <= i < |close| ==>
      m[i] == EmaAt(close, Alpha(FastSpan), i) - EmaAt(close, Alpha(SlowSpan), i)
  {
    seq(|close|, i requires 0 <= i < |close| =>
      EmaAt(close, Alpha(FastSpan), i) - EmaAt(close, Alpha(SlowSpan), i))
  }

  /** MACD line, its 9-span signal line and the histogram, all of the input's length. */
  function CalculateMacd(close: seq<real>): (m: Macd)
    ensures |m.line| == |m.signal| == |m.hist| == |close|
    ensures m.line == MacdLine(close) && m.signal == Ema(m.line, Alpha(SignalSpan))
    ensures forall i :: 0 <= i < |close| ==> m.hist[i] == m.line[i] - m.signal[i]
  {
    var line := MacdLine(close);
    var signal := Ema(line, Alpha(SignalSpan));
    Macd(line, signal, seq(|close|, i requires 0 <= i < |close| => line[i] - signal[i]))
  }

  /** A constant close gives an all-zero MACD line, signal line and histogram. */
  lemma MacdOfConstant(close: seq<real>, c: real)
    requires Constant(close, c)
    ensures Constant(CalculateMacd(close).line, 0.0)
    ensures Constant(CalculateMacd(close).signal, 0.0)
    ensures Constant(CalculateMacd(close).hist, 0.0)
  {
    var m := CalculateMacd(close);
    forall i | 0 <= i < |close| ensures m.line[i] == 0.0 {
      EmaOfConstant(close, Alpha(FastSpan), c, i);
      EmaOfConstant(close, Alpha(SlowSpan), c, i);
    }
    forall i | 0 <= i < |close| ensures m.signal[i] == 0.0 {
      EmaOfConstant(m.line, Alpha(SignalSpan), 0.0, i);
    }
  }

  /** The MACD columns are causal: a prefix of the bars gives a prefix of the columns. */
  lemma MacdCausal(close: seq<real>, k: nat, i: nat)
    requires i < k <= |close|
    ensures CalculateMacd(close[..k]).line[i] == CalculateMacd(close).line[i]
    ensures CalculateMacd(close[..k]).signal[i] == CalculateMacd(close).signal[i]
    ensures CalculateMacd(close[..k]).hist[i] == CalculateMacd(close).hist[i]
  {
    var l := MacdLine(close);
    var lk := MacdLine(close[..k]);
    forall j | 0 <= j < k ensures lk[j] == l[j] {
      EmaCausal(close, Alpha(FastSpan), k, j);
      EmaCausal(close, Alpha(SlowSpan), k, j);
    }
    assert lk == l[..k];
    EmaPrefixAgrees(l, lk, Alpha(SignalSpan), i);
  }

  /** Two series that agree up to t have the same EMA at t. */
  lemma {:induction false} EmaPrefixAgrees(x: seq<real>, y: seq<real>, alpha: real, t: nat)
    requires t < |x| && t < |y|
    requires forall k :: 0 <= k <= t ==> x[k] == y[k]
    ensures EmaAt(x, alpha, t) == EmaAt(y, alpha, t)
  {
    if t > 0 {
      EmaPrefixAgrees(x, y, alpha, t - 1);
    }
  }

  // ---------------------------------------------------------------------------
  // diff() and rolling(w).mean()
  // ---------------------------------------------------------------------------

  /** pandas `diff()`: undefined at index 0 and wherever an operand is undefined. */
  function Diff(x: seq<Option<real>>): (d: seq<Option<real>>)
    ensures |d| == |x|
    ensures |x| > 0 ==> d[0] == None
    ensures forall i :: 1 <= i < |x| ==>
      d[i] == if x[i].Some? && x[i - 1].Some? then Some(x[i].value - x[i - 1].value) else None
  {
    seq(|x|, i requires 0 <= i < |x| =>
      if i > 0 && x[i].Some? && x[i - 1].Some? then Some(x[i].value - x[i - 1].value) else None)
  }

  function Sum(s: seq<real>): real {
    if |s| == 0 then 0.0 else Sum(s[..|s| - 1]) + s[|s| - 1]
  }

  lemma {:induction false} SumNonNegative(s: seq<real>)
    requires forall k :: 0 <= k < |s| ==> s[k] >= 0.0
    ensures Sum(s) >= 0.0
  {
    if |s| > 0 {
      SumNonNegative(s[..|s| - 1]);
    }
  }

  predicate AllDefined(s: seq<Option<real>>) {
    forall k :: 0 <= k < |s| ==> s[k].Some?
  }

  /** The defined values of a column (an undefined entry reads as 0, never used when AllDefined). */
  function Values(s: seq<Option<real>>): (v: seq<real>)
    ensures |v| == |s|
    ensures forall k :: 0 <= k < |s| && s[k].Some? ==> v[k] == s[k].value
  {
    seq(|s|, k requires 0 <= k < |s| => if s[k].Some? then s[k].value else 0.0)
  }

  /** `rolling(w).mean()` at index i: the mean of the last w entries, undefined while fewer
      than w entries exist or while one of them is undefined (min_periods = w). */
  function RollingMeanAt(x: seq<Option<real>>, w: nat, i: nat): Option<real>
    requires w >= 1 && i < |x|
  {
    if i + 1 < w then None
    else if AllDefined(x[i + 1 - w .. i + 1]) then Some(Sum(Values(x[i + 1 - w .. i + 1])) / w as real)
    else None
  }

  function RollingMean(x: seq<Option<real>>, w: nat): (r: seq<Option<real>>)
    requires w >= 1
    ensures |r| == |x|
    ensures forall i :: 0 <= i < |x| ==> r[i] == RollingMeanAt(x, w, i)
  {
    seq(|x|, i requires 0 <= i < |x| => RollingMeanAt(x, w, i))
  }

  /** A rolling mean is defined exactly from index w-1 on when its input is fully defined. */
  lemma RollingMeanDefined(x: seq<Option<real>>, w: nat, i: nat)
    requires w >= 1 && i < |x| && AllDefined(x)
    ensures RollingMeanAt(x, w, i).Some? <==> i + 1 >= w
  {
    if i + 1 >= w {
      assert AllDefined(x[i + 1 - w .. i + 1]);
    }
  }

  /** The mean of non-negative values is non-negative: only the entries of the window matter. */
  lemma RollingMeanNonNegative(x: seq<Option<real>>, w: nat, i: nat)
    requires w >= 1 && i < |x|
    requires forall k :: 0 <= k <= i && i < k + w && x[k].Some? ==> x[k].value >= 0.0
    ensures RollingMeanAt(x, w, i).Some? ==> RollingMeanAt(x, w, i).value >= 0.0
  {
    if i + 1 >= w && AllDefined(x[i + 1 - w .. i + 1]) {
      SumNonNegative(Values(x[i + 1 - w .. i + 1]));
    }
  }

  /** A rolling mean depends only on entries up to its own index. */
  lemma RollingMeanCausal(x: seq<Option<real>>, y: seq<Option<real>>, w: nat, i: nat)
    requires w >= 1 && i < |x| && i < |y|
    requires forall k :: 0 <= k <= i ==> x[k] == y[k]
    ensures RollingMeanAt(x, w, i) == RollingMeanAt(y, w, i)
  {
    if i + 1 >= w {
      assert x[i + 1 - w .. i + 1] == y[i + 1 - w .. i + 1];
    }
  }

  // ---------------------------------------------------------------------------
  // RSI
  // ---------------------------------------------------------------------------

  /** `delta.clip(lower=0)`. */
  function Up(d: Option<real>): Option<real> {
    match d
    case None => None
    case Some(v) => Some(if v > 0.0 then v else 0.0)
  }

  /** `-1 * delta.clip(upper=0)`. */
  function Down(d: Option<real>): Option<real> {
    match d
    case None => None
    case Some(v) => Some(if v < 0.0 then -v else 0.0)
  }

  /** `100 - 100 / (1 + g / l)` under IEEE division: g/0 with g != 0 is infinite, which
      gives an RSI of 100, and 0/0 is NaN (undefined). A zero denominator `1 + g/l` needs a
      negative mean and so never arises for clipped gains and losses; it is undefined here. */
  function RsiValue(g: real, l: real): (r: Option<real>)
    ensures l > 0.0 && g >= 0.0 ==> r.Some? && 0.0 <= r.value < 100.0
    ensures l > 0.0 && g == l ==> r == Some(50.0)
    ensures l > 0.0 && g == 0.0 ==> r == Some(0.0)
    ensures l == 0.0 ==> (r.Some? <==> g != 0.0) && (r.Some? ==> r.value == 100.0)
  {
    if l == 0.0 then
      if g == 0.0 then None else Some(100.0)
    else
      var q := 1.0 + g / l;
      if q == 0.0 then None
      else
        assert l > 0.0 && g >= 0.0 ==> q >= 1.0 && 100.0 / q <= 100.0 && 100.0 / q > 0.0;
        assert l > 0.0 && g == l ==> g / l == 1.0 && q == 2.0;
        Some(100.0 - 100.0 / q)
  }

  /** `100 - 100/(1 + roll_up/roll_down)`, undefined when either mean is. */
  function RsiOf(up: Option<real>, down: Option<real>): Option<real> {
    if up.Some? && down.Some? then RsiValue(up.value, down.value) else None
  }

  function Gains(close: seq<real>): (u: seq<Option<real>>)
    ensures |u| == |close|
  {
    var d := Diff(Defined(close));
    seq(|close|, i requires 0 <= i < |close| => Up(d[i]))
  }

  function Losses(close: seq<real>): (u: seq<Option<real>>)
    ensures |u| == |close|
  {
    var d := Diff(Defined(close));
    seq(|close|, i requires 0 <= i < |close| => Down(d[i]))
  }

  /** `compute_rsi(close, window)` (also `compute_rsi2`): rolling means of gains and losses. */
  function ComputeRsi(close: seq<real>, w: nat): (r: seq<Option<real>>)
    requires w >= 1
    ensures |r| == |close|
    ensures forall i :: 0 <= i < |close| ==>
      r[i] == RsiOf(RollingMeanAt(Gains(close), w, i), RollingMeanAt(Losses(close), w, i))
  {
    var up := Gains(close);
    var down := Losses(close);
    seq(|close|, i requires 0 <= i < |close| => RsiOf(RollingMeanAt(up, w, i), RollingMeanAt(down, w, i)))
  }

  /** No RSI value exists for the first `w` bars: the first delta is undefined. */
  lemma RsiWarmup(close: seq<real>, w: nat, i: nat)
    requires w >= 1 && i < |close| && i < w
    ensures ComputeRsi(close, w)[i] == None
  {
    if i + 1 == w {
      assert Gains(close)[i + 1 - w .. i + 1][0] == Gains(close)[0] == None;
    }
  }

  /** After the warm-up the RSI is defined unless the window holds no movement at all,
      and every defined value lies in [0, 100]; it is below 100 when some loss occurred. */
  lemma RsiRange(close: seq<real>, w: nat, i: nat)
    requires w >= 1 && w <= i < |close|
    ensures var g := RollingMeanAt(Gains(close), w, i);
            var l := RollingMeanAt(Losses(close), w, i);
            g.Some? && l.Some? && g.value >= 0.0 && l.value >= 0.0 &&
            (ComputeRsi(close, w)[i].Some? <==> g.value > 0.0 || l.value > 0.0) &&
            (ComputeRsi(close, w)[i].Some? ==> 0.0 <= ComputeRsi(close, w)[i].value <= 100.0) &&
            (l.value > 0.0 ==> ComputeRsi(close, w)[i].value < 100.0)
  {
    var up, down := Gains(close), Losses(close);
    assert AllDefined(up[i + 1 - w .. i + 1]);
    assert AllDefined(down[i + 1 - w .. i + 1]);
    RollingMeanNonNegative(up, w, i);
    RollingMeanNonNegative(down, w, i);
  }

  /** `calculate_rsi` of the chart module: `where(delta > 0, 0)` turns the undefined first
      delta into 0, so the windows are always fully defined. */
  function ZeroFilledGains(close: seq<real>): (u: seq<Option<real>>)
    ensures |u| == |close| && AllDefined(u)
  {
    var d := Diff(Defined(close));
    seq(|close|, i requires 0 <= i < |close| => Some(if d[i].Some? && d[i].value > 0.0 then d[i].value else 0.0))
  }

  function ZeroFilledLosses(close: seq<real>): (u: seq<Option<real>>)
    ensures |u| == |close| && AllDefined(u)
  {
    var d := Diff(Defined(close));
    seq(|close|, i requires 0 <= i < |close| => Some(if d[i].Some? && d[i].value < 0.0 then -d[i].value else 0.0))
  }

  function CalculateRsi(close: seq<real>, w: nat): (r: seq<Option<real>>)
    requires w >= 1
    ensures |r| == |close|
    ensures forall i :: 0 <= i < |close| ==>
      r[i] == RsiOf(RollingMeanAt(ZeroFilledGains(close), w, i), RollingMeanAt(ZeroFilledLosses(close), w, i))
  {
    var up := ZeroFilledGains(close);
    var down := ZeroFilledLosses(close);
    seq(|close|, i requires 0 <= i < |close| => RsiOf(RollingMeanAt(up, w, i), RollingMeanAt(down, w, i)))
  }

  /** The zero-filled RSI is undefined before index w-1; from there on it is defined
      whenever the average loss is positive, and then lies in [0, 100). */
  lemma CalculateRsiRange(close: seq<real>, w: nat, i: nat)
    requires w >= 1 && i < |close|
    ensures i + 1 < w ==> CalculateRsi(close, w)[i] == None
    ensures i + 1 >= w ==>
      var l := RollingMeanAt(ZeroFilledLosses(close), w, i);
      l.Some? && (l.value > 0.0 ==>
        CalculateRsi(close, w)[i].Some? && 0.0 <= CalculateRsi(close, w)[i].value < 100.0)
  {
    var up, down := ZeroFilledGains(close), ZeroFilledLosses(close);
    if i + 1 >= w {
      RollingMeanDefined(up, w, i);
      RollingMeanDefined(down, w, i);
      RollingMeanNonNegative(up, w, i);
    }
  }

  /** From index w-1 on, the zero-filled RSI is defined exactly when the average gain or the
      average loss is positive (0/0 is NaN), and it is 100 when only gains occurred. */
  lemma CalculateRsiDefined(close: seq<real>, w: nat, i: nat)
    requires w >= 1 && i < |close| && i + 1 >= w
    ensures var g := RollingMeanAt(ZeroFilledGains(close), w, i);
      var l := RollingMeanAt(ZeroFilledLosses(close), w, i);
      g.Some? && l.Some? && (CalculateRsi(close, w)[i].Some? <==> g.value > 0.0 || l.value > 0.0) &&
      (g.value > 0.0 && l.value == 0.0 ==> CalculateRsi(close, w)[i] == Some(100.0))
  {
    var up, down := ZeroFilledGains(close), ZeroFilledLosses(close);
    RollingMeanDefined(up, w, i);
    RollingMeanDefined(down, w, i);
    RollingMeanNonNegative(up, w, i);
    RollingMeanNonNegative(down, w, i);
  }

  // ---------------------------------------------------------------------------
  // True range and ATR
  // ---------------------------------------------------------------------------

  function Abs(x: real): real { if x < 0.0 then -x else x }

  function Max(a: real, b: real): real { if a < b then b else a }

  /** The row maximum of (high-low, |high-prev close|, |low-prev close|); on the first bar
      the two shifted terms are NaN and the NaN-skipping maximum leaves high-low. */
  function TrueRangeAt(bars: seq<Bar>, i: nat): real
    requires i < |bars|
  {
    var hl := bars[i].high - bars[i].low;
    if i == 0 then hl
    else Max(Max(hl, Abs(bars[i].high - bars[i - 1].close)), Abs(bars[i].low - bars[i - 1].close))
  }

  function TrueRange(bars: seq<Bar>): (tr: seq<real>)
    ensures |tr| == |bars|
    ensures forall i :: 0 <= i < |bars| ==> tr[i] == TrueRangeAt(bars, i)
  {
    seq(|bars|, i requires 0 <= i < |bars| => TrueRangeAt(bars, i))
  }

  /** `calculate_atr(data, window)`: the rolling mean of the true range. */
  function CalculateAtr(bars: seq<Bar>, w: nat): (atr: seq<Option<real>>)
    requires w >= 1
    ensures |atr| == |bars|
    ensures forall i :: 0 <= i < |bars| ==> atr[i] == RollingMeanAt(Defined(TrueRange(bars)), w, i)
  {
    RollingMean(Defined(TrueRange(bars)), w)
  }

  /** The ATR exists exactly from index w-1 on. */
  lemma AtrDefined(bars: seq<Bar>, w: nat, i: nat)
    requires w >= 1 && i < |bars|
    ensures CalculateAtr(bars, w)[i].Some? <==> i + 1 >= w
  {
    RollingMeanDefined(Defined(TrueRange(bars)), w, i);
  }

  /** The true range is never negative on a well-formed bar (low <= high hence high-low >= 0). */
  lemma TrueRangeNonNegative(bars: seq<Bar>, i: nat)
    requires i < |bars| && bars[i].low <= bars[i].high
    ensures TrueRangeAt(bars, i) >= 0.0
  {
  }

  /** ATR recomputed on the prefix `bars[..k]` agrees with the full-series ATR at every
      index below k: the indicator is causal. */
  lemma AtrCausal(bars: seq<Bar>, w: nat, k: nat, i: nat)
    requires w >= 1 && i < k <= |bars|
    ensures CalculateAtr(bars[..k], w)[i] == CalculateAtr(bars, w)[i]
  {
    var x := Defined(TrueRange(bars[..k]));
    var y := Defined(TrueRange(bars));
    forall j | 0 <= j <= i ensures x[j] == y[j] {
      assert bars[..k][j] == bars[j];
      if j > 0 {
        assert bars[..k][j - 1] == bars[j - 1];
      }
    }
    RollingMeanCausal(x, y, w, i);
  }

  // ---------------------------------------------------------------------------
  // Support and resistance
  // ---------------------------------------------------------------------------

  function MinOf(s: seq<real>): (m: real)
    requires |s| > 0
    ensures forall k :: 0 <= k < |s| ==> m <= s[k]
    ensures exists k :: 0 <= k < |s| && m == s[k]
  {
    if |s| == 1 then s[0]
    else
      var r := MinOf(s[..|s| - 1]);
      assert forall k :: 0 <= k < |s| - 1 ==> s[..|s| - 1][k] == s[k];
      if s[|s| - 1] < r then s[|s| - 1] else r
  }

  function MaxOf(s: seq<real>): (m: real)
    requires |s| > 0
    ensures forall k :: 0 <= k < |s| ==> s[k] <= m
    ensures exists k :: 0 <= k < |s| && m == s[k]
  {
    if |s| == 1 then s[0]
    else
      var r := MaxOf(s[..|s| - 1]);
      assert forall k :: 0 <= k < |s| - 1 ==> s[..|s| - 1][k] == s[k];
      if s[|s| - 1] > r then s[|s| - 1] else r
  }

  function Lows(bars: seq<Bar>): (l: seq<real>)
    ensures |l| == |bars| && forall i :: 0 <= i < |bars| ==> l[i] == bars[i].low
  {
    seq(|bars|, i requires 0 <= i < |bars| => bars[i].low)
  }

  function Highs(bars: seq<Bar>): (h: seq<real>)
    ensures |h| == |bars| && forall i :: 0 <= i < |bars| ==> h[i] == bars[i].high
  {
    seq(|bars|, i requires 0 <= i < |bars| => bars[i].high)
  }

  /** First index of the `tail(lookback)` window ending at bar i. */
  function WindowStart(i: nat, lookback: nat): nat {
    if i + 1 >= lookback then i + 1 - lookback else 0
  }

  /** `calculate_support_resistance(data, date_i, lookback)`: the lowest low and the highest
      high of the last `lookback` bars up to and including bar i. */
  function SupportResistance(bars: seq<Bar>, i: nat, lookback: nat): (sr: (real, real))
    requires i < |bars| && lookback >= 1
  {
    var lo := WindowStart(i, lookback);
    (MinOf(Lows(bars)[lo .. i + 1]), MaxOf(Highs(bars)[lo .. i + 1]))
  }

  /** Support is the lowest low and resistance the highest high of the window: both bound
      every bar of it and both are attained by some bar of it. */
  lemma SupportResistanceWindow(bars: seq<Bar>, i: nat, lookback: nat)
    requires i < |bars| && lookback >= 1
    ensures var sr := SupportResistance(bars, i, lookback);
      var lo := WindowStart(i, lookback);
      (forall k :: lo <= k <= i ==> sr.0 <= bars[k].low && bars[k].high <= sr.1) &&
      (exists k :: lo <= k <= i && sr.0 == bars[k].low) &&
      (exists k :: lo <= k <= i && sr.1 == bars[k].high)
  {
    var lo := WindowStart(i, lookback);
    var sr := SupportResistance(bars, i, lookback);
    var lows, highs := Lows(bars), Highs(bars);
    assert sr == (MinOf(lows[lo .. i + 1]), MaxOf(highs[lo .. i + 1]));
    var a := MinOfSlice(lows, lo, i + 1);
    var b := MaxOfSlice(highs, lo, i + 1);
    forall k | lo <= k <= i ensures sr.0 <= bars[k].low && bars[k].high <= sr.1 {
      assert lows[k] == bars[k].low && highs[k] == bars[k].high;
    }
    assert sr.0 == bars[a].low;
    assert sr.1 == bars[b].high;
  }

  /** The minimum of a slice bounds the slice's entries at their own indices, and is the entry
      at the returned index. */
  lemma MinOfSlice(s: seq<real>, lo: nat, hi: nat) returns (a: nat)
    requires lo < hi <= |s|
    ensures lo <= a < hi && MinOf(s[lo .. hi]) == s[a]
    ensures forall k :: lo <= k < hi ==> MinOf(s[lo .. hi]) <= s[k]
  {
    var t := s[lo .. hi];
    forall k | lo <= k < hi ensures MinOf(t) <= s[k] {
      assert t[k - lo] == s[k];
    }
    var j :| 0 <= j < |t| && MinOf(t) == t[j];
    a := lo + j;
  }

  /** The maximum of a slice, likewise. */
  lemma MaxOfSlice(s: seq<real>, lo: nat, hi: nat) returns (b: nat)
    requires lo < hi <= |s|
    ensures lo <= b < hi && MaxOf(s[lo .. hi]) == s[b]
    ensures forall k :: lo <= k < hi ==> s[k] <= MaxOf(s[lo .. hi])
  {
    var t := s[lo .. hi];
    forall k | lo <= k < hi ensures s[k] <= MaxOf(t) {
      assert t[k - lo] == s[k];
    }
    var j :| 0 <= j < |t| && MaxOf(t) == t[j];
    b := lo + j;
  }

  /** Support never exceeds resistance when every bar has low <= high. */
  lemma SupportBelowResistance(bars: seq<Bar>, i: nat, lookback: nat)
    requires i < |bars| && lookback >= 1
    requires forall k :: 0 <= k < |bars| ==> bars[k].low <= bars[k].high
    ensures SupportResistance(bars, i, lookback).0 <= SupportResistance(bars, i, lookback).1
  {
    SupportResistanceWindow(bars, i, lookback);
    var sr := SupportResistance(bars, i, lookback);
    assert sr.0 <= bars[i].low <= bars[i].high <= sr.1;
  }

  // ---------------------------------------------------------------------------
  // Buy-and-hold baseline
  // ---------------------------------------------------------------------------

  /** `initial * (end_price / start_price)` for the bars at positions `start` and `end`. */
  function HoldingValue(close: seq<real>, start: nat, end: nat, initial: real): (v: real)
    requires start < |close| && end < |close| && close[start] > 0.0
    ensures v * close[start] == initial * close[end]
    ensures initial >= 0.0 && close[end] >= close[start] ==> v >= initial
    ensures initial >= 0.0 && close[end] <= close[start] ==> v <= initial
  {
    var ratio := close[end] / close[start];
    assert close[end] >= close[start] ==> ratio >= 1.0;
    assert close[end] <= close[start] ==> ratio <= 1.0;
    initial * ratio
  }

  /** `value_if_held`: the baseline from the first to the last bar. */
  function ValueIfHeld(close: seq<real>, initial: real): (v: real)
    requires |close| > 0 && close[0] > 0.0
    ensures v * close[0] == initial * close[|close| - 1]
  {
    HoldingValue(close, 0, |close| - 1, initial)
  }

  /** close = [100, 200] and an initial capital of 100 give a baseline of 200. */
  lemma ValueIfHeldExample()
    ensures ValueIfHeld([100.0, 200.0], 100.0) == 200.0
  {
  }
}
