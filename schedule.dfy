/**
 * The interval helpers of the 15-minute live trader: `interval_to_seconds`, which reads an
 * interval such as "15m", "1h" or "1d", and `calculate_next_timestamp`, which finds the next
 * bar boundary after a given time.
 *
 * A naive `datetime` is modelled as a whole number of microseconds since 0001-01-01 00:00,
 * `datetime.min`; every day has 86400 seconds, as it has for a naive datetime, so the minute
 * and hour fields are plain divisions of that count.
 */
module Schedule {
  import opened Wrappers

  // ---------------------------------------------------------------------------
  // Python's int() on a string
  // ---------------------------------------------------------------------------

  /** The characters `str.strip()` removes that are ASCII: tab to carriage return, the four
      separators 0x1c to 0x1f, and space. */
  predicate IsSpace(c: char) {
    (9 <= c as int <= 13) || (28 <= c as int <= 31) || c == ' '
  }

  predicate IsDigit(c: char) {
    '0' <= c <= '9'
  }

  function DigitValue(c: char): nat
    requires IsDigit(c)
  {
    (c as int - '0' as int) as nat
  }

  function DigitChar(d: nat): (c: char)
    requires d < 10
    ensures IsDigit(c) && DigitValue(c) == d
  {
    ('0' as int + d) as char
  }

  /** `s` without its leading white space. */
  function StripLeft(s: string): (r: string)
    ensures |r| <= |s| && r == s[|s| - |r|..]
    ensures |r| > 0 ==> !IsSpace(r[0])
    ensures forall k :: 0 <= k < |s| - |r| ==> IsSpace(s[k])
  {
    if |s| > 0 && IsSpace(s[0]) then StripLeft(s[1..]) else s
  }

  /** `s` without its trailing white space. */
  function StripRight(s: string): (r: string)
    ensures |r| <= |s| && r == s[..|r|]
    ensures |r| > 0 ==> !IsSpace(r[|r| - 1])
    ensures forall k :: |r| <= k < |s| ==> IsSpace(s[k])
  {
    if |s| > 0 && IsSpace(s[|s| - 1]) then StripRight(s[..|s| - 1]) else s
  }

  function Strip(s: string): string {
    StripRight(StripLeft(s))
  }

  /** A run of decimal digits in which single underscores may separate two digits, as
      Python's integer literals allow ("1_000"). */
  predicate DigitRun(s: string) {
    |s| > 0 && IsDigit(s[0]) && IsDigit(s[|s| - 1]) &&
    (forall k :: 0 <= k < |s| ==> IsDigit(s[k]) || s[k] == '_') &&
    (forall k :: 0 <= k < |s| - 1 ==> s[k] == '_' ==> IsDigit(s[k + 1]))
  }

  /** The digits of `s`, underscores dropped. */
  function DigitsOf(s: string): (d: string)
    ensures |d| <= |s|
  {
    if |s| == 0 then [] else (if s[0] == '_' then [] else [s[0]]) + DigitsOf(s[1..])
  }

  /** The number a string of decimal digits spells. */
  function ValueOf(d: string): nat
    requires forall k :: 0 <= k < |d| ==> IsDigit(d[k])
  {
    if |d| == 0 then 0 else ValueOf(d[..|d| - 1]) * 10 + DigitValue(d[|d| - 1])
  }

  lemma {:induction false} DigitsOfDigits(s: string)
    requires forall k :: 0 <= k < |s| ==> IsDigit(s[k]) || s[k] == '_'
    ensures forall k :: 0 <= k < |DigitsOf(s)| ==> IsDigit(DigitsOf(s)[k])
  {
    if |s| > 0 {
      DigitsOfDigits(s[1..]);
    }
  }

  /** A digit run read as a number; None for anything else. */
  function ParseDigits(b: string): Option<nat> {
    if DigitRun(b) then
      DigitsOfDigits(b);
      Some(ValueOf(DigitsOf(b)))
    else None
  }

  /** A stripped `int()` argument: an optional sign, then a digit run. */
  function ParseSigned(t: string): Option<int> {
    if |t| > 0 && t[0] == '-' then
      var v := ParseDigits(t[1..]);
      if v.Some? then Some(0 - v.value) else None
    else if |t| > 0 && t[0] == '+' then
      var v := ParseDigits(t[1..]);
      if v.Some? then Some(v.value) else None
    else
      var v := ParseDigits(t);
      if v.Some? then Some(v.value) else None
  }

  /** `int(s)` on a string: white space around an optional sign and a digit run; None where
      Python raises ValueError. */
  function ParseInt(s: string): Option<int> {
    ParseSigned(Strip(s))
  }

  /** `str(n)`: the decimal digits of n, with a minus sign when it is negative. */
  function ShowNat(n: nat): (s: string)
    ensures |s| > 0 && forall k :: 0 <= k < |s| ==> IsDigit(s[k])
  {
    if n < 10 then [DigitChar(n)] else ShowNat(n / 10) + [DigitChar(n % 10)]
  }

  function Show(n: int): string {
    if n < 0 then "-" + ShowNat(-n) else ShowNat(n)
  }

  lemma {:induction false} ValueOfShowNat(n: nat)
    ensures ValueOf(ShowNat(n)) == n
  {
    if n >= 10 {
      ValueOfShowNat(n / 10);
      var s := ShowNat(n);
      assert s[..|s| - 1] == ShowNat(n / 10);
    }
  }

  lemma {:induction false} DigitsOfPlain(s: string)
    requires forall k :: 0 <= k < |s| ==> IsDigit(s[k])
    ensures DigitsOf(s) == s
  {
    if |s| > 0 {
      DigitsOfPlain(s[1..]);
    }
  }

  lemma StripUnspaced(s: string)
    requires |s| > 0 && !IsSpace(s[0]) && !IsSpace(s[|s| - 1])
    ensures Strip(s) == s
  {
    assert StripLeft(s) == s;
  }

  lemma PlainDigitRun(d: string)
    requires |d| > 0 && forall k :: 0 <= k < |d| ==> IsDigit(d[k])
    ensures DigitRun(d)
  {
  }

  lemma ParseShowNat(m: nat)
    ensures ParseDigits(ShowNat(m)) == Some(m)
  {
    var d := ShowNat(m);
    PlainDigitRun(d);
    DigitsOfPlain(d);
    ValueOfShowNat(m);
  }

  /** `int(str(n)) == n` for every integer n. */
  lemma ParseShow(n: int)
    ensures ParseInt(Show(n)) == Some(n)
  {
    var m: nat := if n < 0 then -n else n;
    var d := ShowNat(m);
    var s := Show(n);
    assert s[|s| - 1] == d[|d| - 1];
    StripUnspaced(s);
    ParseShowNat(m);
    if n < 0 {
      assert s[1..] == d;
    }
  }

  // ---------------------------------------------------------------------------
  // interval_to_seconds
  // ---------------------------------------------------------------------------

  /** Why a call raises: the suffix is not m, h or d; the count is not an integer; the count
      of minutes or hours is zero (the modulo divides by it); the time leaves the datetime
      range. */
  datatype Error = Unsupported | NotAnInteger | ZeroDivision | Overflow

  const MinuteSeconds: nat := 60
  const HourSeconds: nat := 3600
  const DaySeconds: nat := 86400

  predicate EndsWith(s: string, c: char) {
    |s| > 0 && s[|s| - 1] == c
  }

  /** `interval[:-1]`. */
  function Count(s: string): string
    requires |s| > 0
  {
    s[..|s| - 1]
  }

  function Scaled(n: Option<int>, unit: nat): (r: Result<int, Error>)
    requires unit > 0 && unit % MinuteSeconds == 0
    ensures r.Ok? ==> r.value % MinuteSeconds == 0
    ensures r != Err(Unsupported)
  {
    if n.Some? then
      assert n.value * unit == (n.value * (unit / MinuteSeconds)) * MinuteSeconds;
      MulDivMod(n.value * (unit / MinuteSeconds), MinuteSeconds);
      Ok(n.value * unit)
    else Err(NotAnInteger)
  }

  /** `interval_to_seconds(interval)`: a whole number of seconds, a multiple of 60. */
  function IntervalToSeconds(interval: string): (r: Result<int, Error>)
    ensures r.Ok? ==> r.value % MinuteSeconds == 0
    ensures r == Err(Unsupported) <==> !(EndsWith(interval, 'm') || EndsWith(interval, 'h') || EndsWith(interval, 'd'))
  {
    if EndsWith(interval, 'm') then Scaled(ParseInt(Count(interval)), MinuteSeconds)
    else if EndsWith(interval, 'h') then Scaled(ParseInt(Count(interval)), HourSeconds)
    else if EndsWith(interval, 'd') then Scaled(ParseInt(Count(interval)), DaySeconds)
    else Err(Unsupported)
  }

  /** The units an interval may carry, with their letter and length in seconds. */
  datatype Unit = Minutes | Hours | Days

  function Letter(u: Unit): char {
    match u
    case Minutes => 'm'
    case Hours => 'h'
    case Days => 'd'
  }

  function Seconds(u: Unit): nat {
    match u
    case Minutes => MinuteSeconds
    case Hours => HourSeconds
    case Days => DaySeconds
  }

  /** The interval written "<n><unit>", as the scripts' `interval` constants are. */
  function Interval(n: int, u: Unit): string {
    Show(n) + [Letter(u)]
  }

  /** Reading "<n>m", "<n>h" or "<n>d" gives n minutes, hours or days in seconds. */
  lemma IntervalSeconds(n: int, u: Unit)
    ensures IntervalToSeconds(Interval(n, u)) == Ok(n * Seconds(u))
  {
    var s := Interval(n, u);
    assert Count(s) == Show(n);
    ParseShow(n);
  }

  /** A number with no unit letter, or a unit letter with no number before it, raises. */
  lemma IntervalErrors(n: int)
    ensures IntervalToSeconds(Show(n)) == Err(Unsupported)
    ensures IntervalToSeconds("m") == Err(NotAnInteger)
    ensures IntervalToSeconds("15s") == Err(Unsupported)
  {
    var s := Show(n);
    assert IsDigit(s[|s| - 1]);
    assert ParseInt("") == None;
  }

  // ---------------------------------------------------------------------------
  // calculate_next_timestamp
  // ---------------------------------------------------------------------------

  const SecondUs: nat := 1000000
  const MinuteUs: nat := 60 * SecondUs
  const HourUs: nat := 60 * MinuteUs
  const DayUs: nat := 24 * HourUs

  /** `datetime.max`, 9999-12-31 23:59:59.999999, as microseconds since `datetime.min`. */
  const MaxTime: nat := 3652059 * DayUs - 1

  // Small facts of integer division, which the solver does not find unaided.

  lemma MulAtLeast(d: int, n: int)
    requires d >= 1 && n > 0
    ensures d * n >= n
  {
    assert d * n == (d - 1) * n + n;
  }

  lemma MulAtMost(d: int, n: int)
    requires d <= -1 && n > 0
    ensures d * n <= -n
  {
    assert d * n == (d + 1) * n - n;
  }

  /** Euclidean division is unique. */
  lemma UniqueDivMod(x: int, n: int, q: int, r: int)
    requires n > 0 && 0 <= r < n && x == q * n + r
    ensures x % n == r && x / n == q
  {
    var d := x / n - q;
    assert d * n == r - x % n by {
      assert x == (x / n) * n + x % n;
      assert (x / n) * n - q * n == d * n;
    }
    if d >= 1 {
      MulAtLeast(d, n);
    } else if d <= -1 {
      MulAtMost(d, n);
    }
  }

  lemma MulDivMod(a: int, n: int)
    requires n > 0
    ensures (a * n) % n == 0 && (a * n) / n == a
  {
    UniqueDivMod(a * n, n, a, 0);
  }

  lemma ModShift(f: int, a: int, n: int)
    requires n > 0
    ensures (a * n + f) % n == f % n
  {
    var g := f % n;
    assert f == (f / n) * n + g;
    assert a * n + f == (a + f / n) * n + g;
    UniqueDivMod(a * n + f, n, a + f / n, g);
  }

  /** Python's `a % b` for b != 0: the remainder that takes the sign of b. */
  function PyMod(a: int, b: int): (r: int)
    requires b != 0
    ensures b > 0 ==> 0 <= r < b
    ensures b < 0 ==> b < r <= 0
    ensures a == (a / b - (if b < 0 && a % b != 0 then 1 else 0)) * b + r
  {
    var e := a % b;
    assert a == (a / b) * b + e;
    if b < 0 && e != 0 then
      assert a == (a / b - 1) * b + (e + b);
      e + b
    else e
  }

  /** `time.replace(<smaller fields>=0) + timedelta(<units>=n - field % n)` where one unit is
      `unitUs` microseconds and the field counts units modulo `period`. */
  function NextBoundary(t: nat, n: int, unitUs: nat, period: nat): int
    requires n != 0 && unitUs > 0 && period > 0
  {
    var field := (t / unitUs) % period;
    (t - t % unitUs) + (n - PyMod(field, n)) * unitUs
  }

  /** The boundary is t's unit count plus `n - field % n` units. */
  lemma BoundaryUnits(t: nat, n: int, unitUs: nat, period: nat)
    requires n != 0 && unitUs > 0 && period > 0
    ensures var q := t / unitUs; var k := n - PyMod(q % period, n);
      NextBoundary(t, n, unitUs, period) == (q + k) * unitUs &&
      NextBoundary(t, n, unitUs, period) / unitUs == q + k &&
      NextBoundary(t, n, unitUs, period) % unitUs == 0
  {
    var q := t / unitUs;
    var k := n - PyMod(q % period, n);
    assert t - t % unitUs == q * unitUs;
    assert NextBoundary(t, n, unitUs, period) == (q + k) * unitUs;
    MulDivMod(q + k, unitUs);
  }

  function InRange(next: int): Result<int, Error> {
    if 0 <= next <= MaxTime then Ok(next) else Err(Overflow)
  }

  function Advance(t: nat, n: Option<int>, unitUs: nat, period: nat): (r: Result<int, Error>)
    requires unitUs > 0 && period > 0
    ensures r.Ok? ==> 0 <= r.value <= MaxTime && r.value % unitUs == 0
    ensures r != Err(Unsupported)
  {
    if n.None? then Err(NotAnInteger)
    else if n.value == 0 then Err(ZeroDivision)
    else
      BoundaryUnits(t, n.value, unitUs, period);
      InRange(NextBoundary(t, n.value, unitUs, period))
  }

  /** `calculate_next_timestamp(current_time, interval)`; only minute and hour intervals are
      accepted, and every result is a time of the datetime range on a whole minute. */
  function CalculateNextTimestamp(t: nat, interval: string): (r: Result<int, Error>)
    requires t <= MaxTime
    ensures r.Ok? ==> 0 <= r.value <= MaxTime && r.value % MinuteUs == 0
    ensures r == Err(Unsupported) <==> !(EndsWith(interval, 'm') || EndsWith(interval, 'h'))
  {
    if EndsWith(interval, 'm') then Advance(t, ParseInt(Count(interval)), MinuteUs, 60)
    else if EndsWith(interval, 'h') then
      var r := Advance(t, ParseInt(Count(interval)), HourUs, 24);
      if r.Ok? then HourOnMinute(r.value); r else r
    else Err(Unsupported)
  }

  lemma HourOnMinute(x: int)
    requires x % HourUs == 0
    ensures x % MinuteUs == 0
  {
    var a := x / HourUs;
    assert x == a * HourUs;
    assert x == (a * 60) * MinuteUs;
    MulDivMod(a * 60, MinuteUs);
  }

  /** For a positive count the boundary is strictly after t and at most n units after it. */
  lemma BoundaryAhead(t: nat, n: int, unitUs: nat, period: nat)
    requires n > 0 && unitUs > 0 && period > 0
    ensures t < NextBoundary(t, n, unitUs, period) <= t + n * unitUs
  {
    var q := t / unitUs;
    var k := n - PyMod(q % period, n);
    assert 1 <= k <= n;
    BoundaryUnits(t, n, unitUs, period);
    assert t == q * unitUs + t % unitUs;
    assert (q + k) * unitUs == q * unitUs + k * unitUs;
    assert k * unitUs <= n * unitUs by {
      assert n * unitUs - k * unitUs == (n - k) * unitUs;
    }
    MulAtLeast(k, unitUs);
  }

  /** For a negative count the boundary is before t: `n - field % n` is then negative. */
  lemma BoundaryBehind(t: nat, n: int, unitUs: nat, period: nat)
    requires n < 0 && unitUs > 0 && period > 0
    ensures NextBoundary(t, n, unitUs, period) < t
  {
    var q := t / unitUs;
    var k := n - PyMod(q % period, n);
    assert k <= -1;
    BoundaryUnits(t, n, unitUs, period);
    assert t == q * unitUs + t % unitUs;
    assert (q + k) * unitUs == q * unitUs - (-k) * unitUs;
    MulAtLeast(-k, unitUs);
  }

  /** When n divides the period (15 minutes into an hour, say), the boundary is a multiple of
      n units: the field of the result is a multiple of n. */
  lemma BoundaryAligned(t: nat, n: nat, unitUs: nat, period: nat)
    requires n > 0 && unitUs > 0 && period > 0 && period % n == 0
    ensures (NextBoundary(t, n, unitUs, period) / unitUs) % n == 0
  {
    var q := t / unitUs;
    var f := q % period;
    var b := period / n;
    assert period == b * n;
    assert q == (q / period) * period + f;
    assert q == ((q / period) * b) * n + f;
    assert q % n == f % n by {
      ModShift(f, (q / period) * b, n);
    }
    var k := n - f % n;
    BoundaryUnits(t, n, unitUs, period);
    assert q + k == (q / n + 1) * n by {
      assert q == (q / n) * n + q % n;
    }
    MulDivMod(q / n + 1, n);
  }

  /** On "<n>m" and "<n>h" the count is read back as n. */
  lemma IntervalCount(n: int, u: Unit)
    ensures ParseInt(Count(Interval(n, u))) == Some(n)
  {
    ParseShow(n);
    assert Count(Interval(n, u)) == Show(n);
  }

  /** On "<n>m" and "<n>h" the function raises ZeroDivisionError for n = 0 and otherwise
      gives the boundary, unless it lies outside the datetime range. */
  lemma NextTimestampOfInterval(t: nat, n: int)
    requires t <= MaxTime
    ensures CalculateNextTimestamp(t, Interval(n, Minutes)) ==
      if n == 0 then Err(ZeroDivision) else InRange(NextBoundary(t, n, MinuteUs, 60))
    ensures CalculateNextTimestamp(t, Interval(n, Hours)) ==
      if n == 0 then Err(ZeroDivision) else InRange(NextBoundary(t, n, HourUs, 24))
  {
    IntervalCount(n, Minutes);
    IntervalCount(n, Hours);
    assert EndsWith(Interval(n, Minutes), 'm');
    assert EndsWith(Interval(n, Hours), 'h') && !EndsWith(Interval(n, Hours), 'm');
  }

  /** "<n>m" with n > 0: the next whole-minute boundary strictly after t, at most n minutes
      later, on a minute that is a multiple of n when n divides 60; it fails only when that
      boundary is past `datetime.max`. */
  lemma NextMinuteBoundary(t: nat, n: nat)
    requires t <= MaxTime && n > 0
    ensures var r := CalculateNextTimestamp(t, Interval(n, Minutes));
      var next := NextBoundary(t, n, MinuteUs, 60);
      (r.Ok? <==> next <= MaxTime) && (r.Err? ==> r.error == Overflow) &&
      t < next <= t + n * MinuteUs && next % MinuteUs == 0 &&
      (60 % n == 0 ==> (next / MinuteUs) % n == 0) &&
      (r.Ok? ==> r.value == next)
  {
    NextTimestampOfInterval(t, n);
    BoundaryAhead(t, n, MinuteUs, 60);
    BoundaryUnits(t, n, MinuteUs, 60);
    if 60 % n == 0 {
      BoundaryAligned(t, n, MinuteUs, 60);
    }
  }

  /** "<n>h" with n > 0: the next whole-hour boundary strictly after t, at most n hours later,
      on an hour that is a multiple of n when n divides 24. */
  lemma NextHourBoundary(t: nat, n: nat)
    requires t <= MaxTime && n > 0
    ensures var r := CalculateNextTimestamp(t, Interval(n, Hours));
      var next := NextBoundary(t, n, HourUs, 24);
      (r.Ok? <==> next <= MaxTime) && (r.Err? ==> r.error == Overflow) &&
      t < next <= t + n * HourUs && next % HourUs == 0 &&
      (24 % n == 0 ==> (next / HourUs) % n == 0) &&
      (r.Ok? ==> r.value == next)
  {
    NextTimestampOfInterval(t, n);
    BoundaryAhead(t, n, HourUs, 24);
    BoundaryUnits(t, n, HourUs, 24);
    if 24 % n == 0 {
      BoundaryAligned(t, n, HourUs, 24);
    }
  }

  /** A negative count moves the time back instead: "-15m" is accepted and gives an earlier
      minute, because `n - field % n` is then negative. */
  lemma NegativeCountGoesBack(t: nat, n: int)
    requires t <= MaxTime && n < 0
    ensures var r := CalculateNextTimestamp(t, Interval(n, Minutes)); r.Ok? ==> r.value < t
    ensures var r := CalculateNextTimestamp(t, Interval(n, Hours)); r.Ok? ==> r.value < t
  {
    NextTimestampOfInterval(t, n);
    BoundaryBehind(t, n, MinuteUs, 60);
    BoundaryBehind(t, n, HourUs, 24);
  }

  /** A day interval, which `interval_to_seconds` reads as n days, raises here. */
  lemma DayIntervalRaises(t: nat, n: int)
    requires t <= MaxTime
    ensures CalculateNextTimestamp(t, Interval(n, Days)) == Err(Unsupported)
    ensures IntervalToSeconds(Interval(n, Days)) == Ok(n * DaySeconds)
  {
    IntervalSeconds(n, Days);
  }
}
