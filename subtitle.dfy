// SRT and ASS subtitle files: the time codecs, the two parsers, the
// serialiser and the whole-file time shift.
module Subtitle {
  import opened Results
  import opened Text
  import opened Paths
  import opened Models

  // ---------------------------------------------------------------------
  // Python float arithmetic, on exact reals

  /** `x // m` for floats: the floor of the quotient. */
  function FloorDiv(x: real, m: real): int
    requires m > 0.0
  {
    (x / m).Floor
  }

  /** `x % m` for floats: the remainder takes the sign of the (positive) divisor. */
  function FloorMod(x: real, m: real): (r: real)
    requires m > 0.0
    ensures 0.0 <= r < m
    ensures x == m * FloorDiv(x, m) as real + r
  {
    var q := x / m;
    var f := q - q.Floor as real;
    assert 0.0 <= f < 1.0;
    assert x - m * FloorDiv(x, m) as real == m * f;
    ScaleBelow(m, f);
    x - m * FloorDiv(x, m) as real
  }

  lemma ScaleBelow(m: real, f: real)
    requires m > 0.0 && 0.0 <= f < 1.0
    ensures 0.0 <= m * f < m
  {
  }

  /** `int(x)` for a float: truncation towards zero. */
  function Trunc(x: real): int
  {
    if x >= 0.0 then x.Floor else -((-x).Floor)
  }

  lemma FloorIs(y: real, k: int)
    requires k as real <= y < k as real + 1.0
    ensures y.Floor == k
  {
  }

  // ---------------------------------------------------------------------
  // Time codecs

  /** `H:M:S` with `int(H)`, `int(M)`, `float(S)`: IndexError and ValueError become None. */
  function ParseClock(s: string): (r: Option<real>)
  {
    var parts := Split(s, ":");
    if |parts| < 3 then None
    else
      var h, m, sec := ParseInt(parts[0]), ParseInt(parts[1]), ParseFloat(parts[2]);
      if h.Some? && m.Some? && sec.Some? then Some(Seconds(h.value, m.value, sec.value))
      else None
  }

  /** `hours * 3600 + minutes * 60 + seconds`. */
  function Seconds(h: int, m: int, sec: real): real
  {
    (h * 3600 + m * 60) as real + sec
  }

  /** `SRTParser._parse_srt_time`: `HH:MM:SS,mmm` with the comma read as a decimal point. */
  function ParseSrtTime(s: string): Option<real>
  {
    ParseClock(Replace(s, ',', '.'))
  }

  /** `ASSParser._parse_ass_time`: `H:MM:SS.cc`. */
  function ParseAssTime(s: string): Option<real>
  {
    ParseClock(s)
  }

  /** `SRTParser._format_srt_time`: `{hours:02d}:{minutes:02d}:{secs:02d},{millisecs:03d}`. */
  function FormatSrtTime(t: real): string
  {
    var hours := FloorDiv(t, 3600.0);
    var minutes := FloorDiv(FloorMod(t, 3600.0), 60.0);
    var secs := FloorMod(t, 60.0);
    var millis := Trunc(FloorMod(secs, 1.0) * 1000.0);
    FormatInt(hours, 2) + ":" + FormatInt(minutes, 2) + ":" + FormatInt(Trunc(secs), 2) + "," + FormatInt(millis, 3)
  }

  /** `format(x, '05.2f')` for `0 <= x`: two decimals, rounded half up, padded to five characters. */
  function FixedTwo(x: real): string
    requires x >= 0.0
  {
    var c := (x * 100.0 + 0.5).Floor;
    assert c >= 0;
    ZeroPad(NatToDigits(c / 100), 2) + "." + ZeroPad(NatToDigits(c % 100), 2)
  }

  /** `ASSParser._format_ass_time`: `{hours}:{minutes:02d}:{secs:05.2f}`. */
  function FormatAssTime(t: real): string
  {
    var hours := FloorDiv(t, 3600.0);
    var minutes := FloorDiv(FloorMod(t, 3600.0), 60.0);
    var secs := FloorMod(t, 60.0);
    IntToString(hours) + ":" + FormatInt(minutes, 2) + ":" + FixedTwo(secs)
  }

  /** Two-digit zero padding of a natural number, as `{n:02d}` prints it. */
  function Pad(n: nat, width: nat): (r: string)
    ensures |r| > 0 && AllDigits(r) && DigitsValue(r) == n
  {
    NatToDigitsValue(n);
    ZeroPadValue(NatToDigits(n), width);
    ZeroPad(NatToDigits(n), width)
  }

  lemma FormatIntNat(n: nat, width: nat)
    ensures FormatInt(n, width) == Pad(n, width)
  {
  }

  /** A clock written with digit fields parses to the value of its fields. */
  lemma ClockValue(a: string, b: string, c: string, d: string) returns (x: string)
    requires |a| > 0 && |b| > 0 && |c| > 0 && |d| > 0
    requires AllDigits(a) && AllDigits(b) && AllDigits(c) && AllDigits(d)
    ensures x == a + ":" + b + ":" + (c + "." + d)
    ensures ParseClock(x) == Some(Seconds(DigitsValue(a), DigitsValue(b), Decimal(c, d)))
  {
    var sec := c + "." + d;
    x := a + ":" + b + ":" + sec;
    NoColon(c, d);
    SplitClock(a, b, sec);
    ParseIntDigits(a);
    ParseIntDigits(b);
    DecimalValue(c, d);
    ParseClockOf(x, a, b, sec, DigitsValue(a), DigitsValue(b), Decimal(c, d));
  }

  lemma NoColon(c: string, d: string)
    requires AllDigits(c) && AllDigits(d)
    ensures forall j :: 0 <= j < |c + "." + d| ==> (c + "." + d)[j] != ':'
  {
    var sec := c + "." + d;
    forall j | 0 <= j < |sec|
      ensures sec[j] != ':'
    {
      if j < |c| {
        assert sec[j] == c[j] && IsDigit(c[j]);
      } else if j > |c| {
        assert sec[j] == d[j - |c| - 1] && IsDigit(d[j - |c| - 1]);
      }
    }
  }

  lemma ParseClockOf(x: string, a: string, b: string, sec: string, h: int, m: int, v: real)
    requires Split(x, ":") == [a, b, sec]
    requires ParseInt(a) == Some(h) && ParseInt(b) == Some(m) && ParseFloat(sec) == Some(v)
    ensures ParseClock(x) == Some(Seconds(h, m, v))
  {
  }

  lemma SplitClock(a: string, b: string, sec: string)
    requires AllDigits(a) && AllDigits(b)
    requires forall j :: 0 <= j < |sec| ==> sec[j] != ':'
    ensures Split(a + ":" + b + ":" + sec, ":") == [a, b, sec]
  {
    var parts := [a, b, sec];
    assert parts[1..] == [b, sec];
    assert parts[1..][1..] == [sec];
    assert Join([sec], ":") == sec;
    assert Join([b, sec], ":") == b + ":" + sec;
    assert Join(parts, ":") == a + ":" + b + ":" + sec;
    forall k, j | 0 <= k < |parts| && 0 <= j < |parts[k]|
      ensures parts[k][j] != ':'
    {
      if k == 0 {
        assert IsDigit(a[j]);
      } else if k == 1 {
        assert IsDigit(b[j]);
      }
    }
    SplitJoin(parts, ':');
  }

  lemma AroundSeparator(x: string, ch: char, y: string)
    ensures (x + [ch] + y)[..|x|] == x && (x + [ch] + y)[|x| + 1..] == y
  {
  }

  /** `float("<c>.<d>")` for digit strings c and d. */
  lemma DecimalValue(c: string, d: string)
    requires |c| > 0 && |d| > 0 && AllDigits(c) && AllDigits(d)
    ensures ParseFloat(c + "." + d) == Some(Decimal(c, d))
  {
    var sec := c + "." + d;
    assert sec[0] == c[0] && IsDigit(c[0]);
    assert sec[|sec| - 1] == d[|d| - 1] && IsDigit(d[|d| - 1]);
    ParseFloatUnsigned(sec);
    DecimalUnsigned(c, d);
  }

  /** The point splits `<c>.<d>` into its two digit strings. */
  lemma DecimalUnsigned(c: string, d: string)
    requires |c| > 0 && |d| > 0 && AllDigits(c) && AllDigits(d)
    ensures ParseUnsignedDecimal(c + "." + d) == Some(Decimal(c, d))
  {
    var sec := c + "." + d;
    forall j | 0 <= j < |c|
      ensures c[j] != '.'
    {
      assert IsDigit(c[j]);
    }
    FindAfterPrefix(c, '.', d);
    assert sec == c + ['.'] + d;
    AroundSeparator(c, '.', d);
    assert sec[..|c|] == c && sec[|c| + 1..] == d;
  }

  /** Milliseconds split into hours, minutes below 60, seconds below 60 and milliseconds below 1000. */
  lemma ClockFields(n: nat, unit: nat) returns (h: nat, m: nat, s: nat, x: nat)
    requires unit > 0
    ensures n == h * 3600 * unit + m * 60 * unit + s * unit + x
    ensures m < 60 && s < 60 && x < unit
  {
    x := n % unit;
    var a := n / unit;
    s := a % 60;
    var b := a / 60;
    m := b % 60;
    h := b / 60;
    assert a == b * 60 + s;
    assert b == h * 60 + m;
    assert n == a * unit + x;
    calc {
      n;
      (b * 60 + s) * unit + x;
      ((h * 60 + m) * 60 + s) * unit + x;
      h * 3600 * unit + m * 60 * unit + s * unit + x;
    }
  }

  /** An SRT time on the millisecond grid prints as its clock fields. */
  lemma SrtTimeFields(t: real, ms: nat) returns (h: nat, m: nat, s: nat, x: nat)
    requires t == ms as real / 1000.0
    ensures m < 60 && s < 60 && x < 1000
    ensures ms == h * 3600000 + m * 60000 + s * 1000 + x
    ensures FormatSrtTime(t) == Pad(h, 2) + ":" + Pad(m, 2) + ":" + Pad(s, 2) + "," + Pad(x, 3)
  {
    h, m, s, x := ClockFields(ms, 1000);
    SrtFieldValues(t, ms, h, m, s, x);
    FormatIntNat(h, 2);
    FormatIntNat(m, 2);
    FormatIntNat(s, 2);
    FormatIntNat(x, 3);
  }

  /** The four quantities `_format_srt_time` computes, for a time on the millisecond grid. */
  lemma SrtFieldValues(t: real, ms: nat, h: nat, m: nat, s: nat, x: nat)
    requires t == ms as real / 1000.0
    requires ms == h * 3600000 + m * 60000 + s * 1000 + x
    requires m < 60 && s < 60 && x < 1000
    ensures FloorDiv(t, 3600.0) == h && FloorDiv(FloorMod(t, 3600.0), 60.0) == m
    ensures Trunc(FloorMod(t, 60.0)) == s && Trunc(FloorMod(FloorMod(t, 60.0), 1.0) * 1000.0) == x
  {
    assert t == (h * 3600) as real + (m * 60) as real + s as real + x as real / 1000.0;
    FloorIs(t / 3600.0, h);
    var r1 := FloorMod(t, 3600.0);
    assert r1 == (m * 60) as real + s as real + x as real / 1000.0;
    FloorIs(r1 / 60.0, m);
    FloorIs(t / 60.0, h * 60 + m);
    var secs := FloorMod(t, 60.0);
    assert secs == s as real + x as real / 1000.0;
    FloorIs(secs, s);
    FloorIs(secs / 1.0, s);
    var frac := FloorMod(secs, 1.0);
    assert frac * 1000.0 == x as real;
    FloorIs(frac * 1000.0, x);
  }

  /** A non-negative SRT time on the millisecond grid survives formatting and parsing, and prints as a clock. */
  lemma SrtTimeRoundTrip(t: real)
    requires OnGrid(t, 1000)
    ensures ParseSrtTime(FormatSrtTime(t)) == Some(t)
    ensures ClockText(FormatSrtTime(t))
  {
    var ms := GridCount(t, 1000);
    var h, m, s, x := SrtTimeFields(t, ms);
    SrtClockOf(t, ms, h, m, s, x, FormatSrtTime(t));
  }

  lemma SrtClockOf(t: real, ms: nat, h: nat, m: nat, s: nat, x: nat, text: string)
    requires t == ms as real / 1000.0 && ms == h * 3600000 + m * 60000 + s * 1000 + x && x < 1000
    requires text == Pad(h, 2) + ":" + Pad(m, 2) + ":" + Pad(s, 2) + "," + Pad(x, 3)
    ensures ParseSrtTime(text) == Some(t) && ClockText(text)
  {
    SrtClockValue(h, m, s, x, text);
    MillisecondSeconds(ms, h, m, s, x);
    Chain(ParseSrtTime(text), ParseSrtTime(text), Seconds(h, m, s as real + x as real / 1000.0), t);
    ClockOf(Pad(h, 2), Pad(m, 2), Pad(s, 2), ",", Pad(x, 3));
  }

  /** The SRT clock text of given fields parses to their value. */
  lemma SrtClockValue(h: nat, m: nat, s: nat, x: nat, text: string)
    requires x < 1000
    requires text == Pad(h, 2) + ":" + Pad(m, 2) + ":" + Pad(s, 2) + "," + Pad(x, 3)
    ensures ParseSrtTime(text) == Some(Seconds(h, m, s as real + x as real / 1000.0))
  {
    var ph, pm, ps, px := Pad(h, 2), Pad(m, 2), Pad(s, 2), Pad(x, 3);
    var clock := ClockValue(ph, pm, ps, px);
    CommaToPoint(ph, pm, ps, px);
    assert Replace(text, ',', '.') == clock;
    NatToDigitsLength(x, 3);
    DecimalMillis(ps, px, s, x);
    SecondsOf(DigitsValue(ph), DigitsValue(pm), Decimal(ps, px), h, m, s as real + x as real / 1000.0);
    Chain(ParseSrtTime(text), ParseClock(clock), Seconds(DigitsValue(ph), DigitsValue(pm), Decimal(ps, px)), Seconds(h, m, s as real + x as real / 1000.0));
  }

  lemma Chain(p: Option<real>, q: Option<real>, v: real, w: real)
    requires p == q && q == Some(v) && v == w
    ensures p == Some(w)
  {
  }

  lemma SecondsOf(h: int, m: int, v: real, h': int, m': int, v': real)
    requires h == h' && m == m' && v == v'
    ensures Seconds(h, m, v) == Seconds(h', m', v')
  {
  }

  /** Replacing the comma of an SRT clock gives the dotted clock. */
  lemma CommaToPoint(a: string, b: string, c: string, d: string)
    requires AllDigits(a) && AllDigits(b) && AllDigits(c) && AllDigits(d)
    ensures Replace(a + ":" + b + ":" + c + "," + d, ',', '.') == a + ":" + b + ":" + (c + "." + d)
  {
    var head := a + ":" + b + ":" + c;
    NoCommaInClock(a, b, c);
    NoCommaInDigits(d);
    ReplaceAppend(head + ",", d, ',', '.');
    ReplaceAppend(head, ",", ',', '.');
    assert Replace(",", ',', '.') == ".";
    PointAssociates(a, b, c, d);
  }

  lemma PointAssociates(a: string, b: string, c: string, d: string)
    ensures a + ":" + b + ":" + c + "." + d == a + ":" + b + ":" + (c + "." + d)
  {
  }

  lemma NoCommaInDigits(d: string)
    requires AllDigits(d)
    ensures Replace(d, ',', '.') == d
  {
    forall i | 0 <= i < |d|
      ensures d[i] != ','
    {
      assert IsDigit(d[i]);
    }
    ReplaceAbsent(d, ',', '.');
  }

  lemma NoCommaInClock(a: string, b: string, c: string)
    requires AllDigits(a) && AllDigits(b) && AllDigits(c)
    ensures Replace(a + ":" + b + ":" + c, ',', '.') == a + ":" + b + ":" + c
  {
    var head := a + ":" + b + ":" + c;
    forall i | 0 <= i < |head|
      ensures head[i] != ','
    {
      if i < |a| {
        assert IsDigit(a[i]);
      } else if |a| < i < |a| + 1 + |b| {
        assert head[i] == b[i - |a| - 1] && IsDigit(b[i - |a| - 1]);
      } else if |a| + 1 + |b| < i {
        assert head[i] == c[i - |a| - |b| - 2] && IsDigit(c[i - |a| - |b| - 2]);
      }
    }
    ReplaceAbsent(head, ',', '.');
  }

  lemma DecimalMillis(c: string, d: string, s: nat, x: nat)
    requires AllDigits(c) && AllDigits(d) && |d| == 3
    requires DigitsValue(c) == s && DigitsValue(d) == x
    ensures Decimal(c, d) == s as real + x as real / 1000.0
  {
    var e := d[1..];
    var f := e[1..];
    assert e[0] == d[1] && f[0] == d[2] && f[1..] == [];
    assert FracValue(f) == DigitValue(d[2]) as real / 10.0;
    assert FracValue(e) == (DigitValue(d[1]) as real + FracValue(f)) / 10.0;
    assert FracValue(d) == (DigitValue(d[0]) as real + FracValue(e)) / 10.0;
    var a := d[..2];
    var b := a[..1];
    assert d[..|d| - 1] == a && a[..|a| - 1] == b && b[..0] == [];
    assert a[1] == d[1] && b[0] == d[0];
    assert DigitsValue(b) == DigitValue(d[0]);
    assert DigitsValue(a) == DigitValue(d[0]) * 10 + DigitValue(d[1]);
    assert DigitsValue(d) == DigitsValue(a) * 10 + DigitValue(d[2]);
  }

  lemma MillisecondSeconds(ms: nat, h: nat, m: nat, s: nat, x: nat)
    requires ms == h * 3600000 + m * 60000 + s * 1000 + x
    ensures Seconds(h, m, s as real + x as real / 1000.0) == ms as real / 1000.0
  {
  }

  /** An ASS time on the centisecond grid prints as its clock fields. */
  lemma AssTimeFields(t: real, cs: nat) returns (h: nat, m: nat, s: nat, y: nat)
    requires t == cs as real / 100.0
    ensures m < 60 && s < 60 && y < 100
    ensures cs == h * 360000 + m * 6000 + s * 100 + y
    ensures FormatAssTime(t) == Pad(h, 0) + ":" + Pad(m, 2) + ":" + (Pad(s, 2) + "." + Pad(y, 2))
  {
    h, m, s, y := ClockFields(cs, 100);
    AssFieldValues(t, cs, h, m, s, y);
    FormatIntNat(h, 0);
    FormatIntNat(m, 2);
  }

  /** The quantities `_format_ass_time` computes, for a time on the centisecond grid. */
  lemma AssFieldValues(t: real, cs: nat, h: nat, m: nat, s: nat, y: nat)
    requires t == cs as real / 100.0
    requires cs == h * 360000 + m * 6000 + s * 100 + y
    requires m < 60 && s < 60 && y < 100
    ensures FloorDiv(t, 3600.0) == h && FloorDiv(FloorMod(t, 3600.0), 60.0) == m
    ensures FixedTwo(FloorMod(t, 60.0)) == Pad(s, 2) + "." + Pad(y, 2)
  {
    assert t == (h * 3600) as real + (m * 60) as real + s as real + y as real / 100.0;
    FloorIs(t / 3600.0, h);
    var r1 := FloorMod(t, 3600.0);
    assert r1 == (m * 60) as real + s as real + y as real / 100.0;
    FloorIs(r1 / 60.0, m);
    FloorIs(t / 60.0, h * 60 + m);
    var secs := FloorMod(t, 60.0);
    assert secs == s as real + y as real / 100.0;
    var c := s * 100 + y;
    FloorIs(secs * 100.0 + 0.5, c);
    assert c / 100 == s && c % 100 == y;
  }

  /** A non-negative ASS time on the centisecond grid survives formatting and parsing, and prints as a clock. */
  lemma AssTimeRoundTrip(t: real)
    requires OnGrid(t, 100)
    ensures ParseAssTime(FormatAssTime(t)) == Some(t)
    ensures ClockText(FormatAssTime(t))
  {
    var cs := GridCount(t, 100);
    var h, m, s, y := AssTimeFields(t, cs);
    AssClockOf(t, cs, h, m, s, y, FormatAssTime(t));
  }

  lemma AssClockOf(t: real, cs: nat, h: nat, m: nat, s: nat, y: nat, text: string)
    requires t == cs as real / 100.0 && cs == h * 360000 + m * 6000 + s * 100 + y && y < 100
    requires text == Pad(h, 0) + ":" + Pad(m, 2) + ":" + (Pad(s, 2) + "." + Pad(y, 2))
    ensures ParseAssTime(text) == Some(t) && ClockText(text)
  {
    AssClockValue(h, m, s, y, text);
    CentisecondSeconds(cs, h, m, s, y);
    Chain(ParseAssTime(text), ParseAssTime(text), Seconds(h, m, s as real + y as real / 100.0), t);
    ClockOf(Pad(h, 0), Pad(m, 2), Pad(s, 2), ".", Pad(y, 2));
  }

  /** The ASS clock text of given fields parses to their value. */
  lemma AssClockValue(h: nat, m: nat, s: nat, y: nat, text: string)
    requires y < 100
    requires text == Pad(h, 0) + ":" + Pad(m, 2) + ":" + (Pad(s, 2) + "." + Pad(y, 2))
    ensures ParseAssTime(text) == Some(Seconds(h, m, s as real + y as real / 100.0))
  {
    var ph, pm, ps, py := Pad(h, 0), Pad(m, 2), Pad(s, 2), Pad(y, 2);
    var clock := ClockValue(ph, pm, ps, py);
    NatToDigitsLength(y, 2);
    DecimalCents(ps, py, s, y);
    SecondsOf(DigitsValue(ph), DigitsValue(pm), Decimal(ps, py), h, m, s as real + y as real / 100.0);
    Chain(ParseAssTime(text), ParseClock(clock), Seconds(DigitsValue(ph), DigitsValue(pm), Decimal(ps, py)), Seconds(h, m, s as real + y as real / 100.0));
  }

  lemma DecimalCents(c: string, d: string, s: nat, y: nat)
    requires AllDigits(c) && AllDigits(d) && |d| == 2
    requires DigitsValue(c) == s && DigitsValue(d) == y
    ensures Decimal(c, d) == s as real + y as real / 100.0
  {
    var e := d[1..];
    assert e[0] == d[1] && e[1..] == [];
    assert FracValue(e) == DigitValue(d[1]) as real / 10.0;
    assert FracValue(d) == (DigitValue(d[0]) as real + FracValue(e)) / 10.0;
    var b := d[..1];
    assert d[..|d| - 1] == b && b[..0] == [] && b[0] == d[0];
    assert DigitsValue(b) == DigitValue(d[0]);
    assert DigitsValue(d) == DigitsValue(b) * 10 + DigitValue(d[1]);
  }

  lemma CentisecondSeconds(cs: nat, h: nat, m: nat, s: nat, y: nat)
    requires cs == h * 360000 + m * 6000 + s * 100 + y
    ensures Seconds(h, m, s as real + y as real / 100.0) == cs as real / 100.0
  {
  }
  // ---------------------------------------------------------------------
  // SRT cues

  /** `SRTParser.format_entry`: the index, the timing line and the text, each followed by a newline. */
  function FormatSrtEntry(e: SubtitleEntry): string
  {
    IntToString(e.index) + "\n" + FormatSrtTime(e.startTime) + " --> " + FormatSrtTime(e.endTime) + "\n" + e.text + "\n"
  }

  /** One block of `SRTParser.parse`; None where the parser skips it. */
  function ParseSrtBlock(block: string): Option<SubtitleEntry>
  {
    ParseSrtLines(Split(Strip(block), "\n"))
  }

  /** The body of the `try` in `SRTParser.parse`, on the lines of the stripped block. */
  function ParseSrtLines(lines: seq<string>): Option<SubtitleEntry>
  {
    if |lines| < 3 then None
    else
      var index := ParseInt(lines[0]);
      if index.None? then None
      else
        match ParseSrtTiming(lines[1])
        case None => None
        case Some((start, end)) => Some(SubtitleEntry(index.value, start, end, Join(lines[2..], "\n"), None))
  }

  /** The timing line: None without the arrow, without exactly two pieces around it, or with a bad time. */
  function ParseSrtTiming(line: string): Option<(real, real)>
  {
    if !Contains(line, " --> ") then None
    else
      // `start_str, end_str = time_line.split(' --> ')` needs exactly two pieces
      var halves := Split(line, " --> ");
      if |halves| != 2 then None
      else
        var start, end := ParseSrtTime(Strip(halves[0])), ParseSrtTime(Strip(halves[1]));
        if start.None? || end.None? then None
        else Some((start.value, end.value))
  }

  /** The skip rules: fewer than three lines, a first line that is not an integer or a second line without the
      arrow drop the block; an accepted block keeps its own index and joins lines three onwards as its text. */
  lemma SrtBlockRules(block: string)
    ensures var lines := Split(Strip(block), "\n"); var r := ParseSrtBlock(block);
      && (|lines| < 3 ==> r.None?)
      && (|lines| >= 3 && ParseInt(lines[0]).None? ==> r.None?)
      && (|lines| >= 3 && !Contains(lines[1], " --> ") ==> r.None?)
      && (r.Some? ==> |lines| >= 3 && Some(r.value.index) == ParseInt(lines[0])
                      && r.value.text == Join(lines[2..], "\n") && r.value.style.None?)
  {
  }

  /** The cue `format_entry` writes, without its final newline. */
  function SrtCue(e: SubtitleEntry): string
  {
    IntToString(e.index) + "\n" + FormatSrtTime(e.startTime) + " --> " + FormatSrtTime(e.endTime) + "\n" + e.text
  }

  /** A cue with millisecond times, and text that is not empty and does not end in whitespace, parses back from
      what `format_entry` writes; only its style is lost, which SRT does not carry. */
  lemma SrtEntryRoundTrip(e: SubtitleEntry)
    requires OnGrid(e.startTime, 1000) && OnGrid(e.endTime, 1000)
    requires |e.text| > 0 && !IsSpace(e.text[|e.text| - 1])
    ensures ParseSrtBlock(FormatSrtEntry(e)) == Some(e.(style := None))
  {
    SrtCueParses(e);
    SrtCueEnds(e);
    NewlineIgnored(SrtCue(e));
    assert FormatSrtEntry(e) == SrtCue(e) + "\n";
  }

  /** A cue starts with its index and ends with its text, so no whitespace surrounds it. */
  lemma SrtCueEnds(e: SubtitleEntry)
    requires |e.text| > 0 && !IsSpace(e.text[|e.text| - 1])
    ensures var cue := SrtCue(e); |cue| > 0 && !IsSpace(cue[0]) && !IsSpace(cue[|cue| - 1])
  {
    var cue := SrtCue(e);
    var idx := IntToString(e.index);
    IndexText(e.index);
    assert cue[0] == idx[0] && cue[|cue| - 1] == e.text[|e.text| - 1];
  }

  /** A newline after a block without surrounding whitespace changes nothing. */
  lemma NewlineIgnored(cue: string)
    requires |cue| > 0 && !IsSpace(cue[0]) && !IsSpace(cue[|cue| - 1])
    ensures ParseSrtBlock(cue + "\n") == ParseSrtBlock(cue)
  {
    StripSpaceTail(cue, "\n");
    StripNoSpace(cue);
  }

  /** The cue without its newline parses to the entry, without its style. */
  lemma SrtCueParses(e: SubtitleEntry)
    requires OnGrid(e.startTime, 1000) && OnGrid(e.endTime, 1000)
    requires |e.text| > 0 && !IsSpace(e.text[|e.text| - 1])
    ensures ParseSrtBlock(SrtCue(e)) == Some(e.(style := None))
  {
    SrtTimeRoundTrip(e.startTime);
    SrtTimeRoundTrip(e.endTime);
    CueOfClocks(e.index, FormatSrtTime(e.startTime), FormatSrtTime(e.endTime), e.text, e.startTime, e.endTime);
  }

  /** A block of an index, two clocks that read as `start` and `end`, and text parses to that cue. */
  lemma CueOfClocks(index: int, a: string, b: string, text: string, start: real, end: real)
    requires ClockText(a) && ClockText(b)
    requires ParseSrtTime(a) == Some(start) && ParseSrtTime(b) == Some(end)
    requires |text| > 0 && !IsSpace(text[|text| - 1])
    ensures ParseSrtBlock(IntToString(index) + "\n" + a + " --> " + b + "\n" + text)
      == Some(SubtitleEntry(index, start, end, text, None))
  {
    var idx := IntToString(index);
    IndexText(index);
    IntToStringParse(index);
    var timing := a + " --> " + b;
    TimingParses(a, b, start, end);
    var cue := idx + "\n" + timing + "\n" + text;
    BlockLines(idx, timing, text);
    JoinSplit(text, "\n");
    var lines := [idx, timing] + Split(text, "\n");
    LinesParse(idx, timing, Split(text, "\n"), index, start, end, text);
    assert Split(Strip(cue), "\n") == lines;
    assert ParseSrtBlock(cue) == Some(SubtitleEntry(index, start, end, text, None));
    TimingAssociates(idx, a, b, text);
  }

  lemma TimingAssociates(idx: string, a: string, b: string, text: string)
    ensures idx + "\n" + a + " --> " + b + "\n" + text == idx + "\n" + (a + " --> " + b) + "\n" + text
  {
  }

  lemma TimingParses(a: string, b: string, start: real, end: real)
    requires ClockText(a) && ClockText(b)
    requires ParseSrtTime(a) == Some(start) && ParseSrtTime(b) == Some(end)
    ensures ParseSrtTiming(a + " --> " + b) == Some((start, end))
    ensures forall j :: 0 <= j < |a + " --> " + b| ==> (a + " --> " + b)[j] != '\n'
  {
    TimingSplit(a, b);
    StripNoSpace(a);
    StripNoSpace(b);
    TimingOfHalves(a + " --> " + b, a, b, start, end);
  }

  /** A timing line that splits into two stripped clocks parses to their two times. */
  lemma TimingOfHalves(line: string, a: string, b: string, start: real, end: real)
    requires Contains(line, " --> ") && Split(line, " --> ") == [a, b]
    requires Strip(a) == a && Strip(b) == b
    requires ParseSrtTime(a) == Some(start) && ParseSrtTime(b) == Some(end)
    ensures ParseSrtTiming(line) == Some((start, end))
  {
  }

  lemma BlockLines(idx: string, timing: string, text: string)
    requires |idx| > 0 && !IsSpace(idx[0])
    requires forall j :: 0 <= j < |idx| ==> idx[j] != '\n'
    requires forall j :: 0 <= j < |timing| ==> timing[j] != '\n'
    requires |text| > 0 && !IsSpace(text[|text| - 1])
    ensures Split(Strip(idx + "\n" + timing + "\n" + text), "\n") == [idx, timing] + Split(text, "\n")
  {
    var cue := idx + "\n" + timing + "\n" + text;
    assert cue[0] == idx[0] && cue[|cue| - 1] == text[|text| - 1];
    StripNoSpace(cue);
    CueLines(idx, timing, text);
  }

  lemma LinesParse(idx: string, timing: string, tail: seq<string>, index: int, start: real, end: real, text: string)
    requires ParseInt(idx) == Some(index) && ParseSrtTiming(timing) == Some((start, end))
    requires |tail| > 0 && Join(tail, "\n") == text
    ensures ParseSrtLines([idx, timing] + tail) == Some(SubtitleEntry(index, start, end, text, None))
  {
    var lines := [idx, timing] + tail;
    assert lines[0] == idx && lines[1] == timing && lines[2..] == tail;
  }

  /** A non-negative time on the grid of `1/perSecond` seconds. */
  predicate OnGrid(t: real, perSecond: nat)
  {
    t >= 0.0 && (t * perSecond as real).Floor as real == t * perSecond as real
  }

  lemma GridCount(t: real, perSecond: nat) returns (n: nat)
    requires perSecond > 0 && OnGrid(t, perSecond)
    ensures t == n as real / perSecond as real
  {
    n := (t * perSecond as real).Floor;
  }

  predicate IsClockChar(c: char)
  {
    IsDigit(c) || c == ':' || c == ',' || c == '.'
  }

  /** A clock as the formatters print it on their grid: digits and separators, starting and ending with a digit. */
  predicate ClockText(s: string)
  {
    |s| > 0 && IsDigit(s[0]) && IsDigit(s[|s| - 1]) && AllChars(s, IsClockChar)
  }

  lemma ClockOf(a: string, b: string, c: string, point: string, d: string)
    requires |a| > 0 && |d| > 0 && AllDigits(a) && AllDigits(b) && AllDigits(c) && AllDigits(d)
    requires point == "," || point == "."
    ensures ClockText(a + ":" + b + ":" + c + point + d)
    ensures ClockText(a + ":" + b + ":" + (c + point + d))
  {
    assert a + ":" + b + ":" + (c + point + d) == a + ":" + b + ":" + c + point + d;
    var text := a + ":" + b + ":" + c + point + d;
    AllCharsConcat(a, ":", IsClockChar);
    AllCharsConcat(a + ":", b, IsClockChar);
    AllCharsConcat(a + ":" + b, ":", IsClockChar);
    AllCharsConcat(a + ":" + b + ":", c, IsClockChar);
    AllCharsConcat(a + ":" + b + ":" + c, point, IsClockChar);
    AllCharsConcat(a + ":" + b + ":" + c + point, d, IsClockChar);
    assert text[0] == a[0] && text[|text| - 1] == d[|d| - 1];
  }

  /** The timing line of two clocks contains the arrow and splits back into them at it. */
  lemma TimingSplit(a: string, b: string)
    requires ClockText(a) && ClockText(b)
    ensures Contains(a + " --> " + b, " --> ")
    ensures Split(a + " --> " + b, " --> ") == [a, b]
    ensures forall j :: 0 <= j < |a + " --> " + b| ==> (a + " --> " + b)[j] != '\n'
  {
    var sep := " --> ";
    ClockClean(a);
    ClockClean(b);
    CleanIfHeadAbsent(a, sep);
    CleanIfHeadAbsent(b, sep);
    FindAfterPart(a, sep, b);
    assert Join([a, b], sep) == a + sep + b;
    assert forall k :: 0 <= k < |[a, b]| ==> EndsCleanly([a, b][k], sep);
    SplitJoinSep([a, b], sep);
    NoNewlineJoined(a, sep, b);
  }

  /** A clock has neither blanks nor line breaks. */
  lemma ClockClean(a: string)
    requires ClockText(a)
    ensures forall j :: 0 <= j < |a| ==> a[j] != ' ' && a[j] != '\n'
  {
    forall j | 0 <= j < |a| ensures a[j] != ' ' && a[j] != '\n' { assert IsClockChar(a[j]); }
  }

  lemma NoNewlineJoined(a: string, sep: string, b: string)
    requires forall j :: 0 <= j < |a| ==> a[j] != '\n'
    requires forall j :: 0 <= j < |sep| ==> sep[j] != '\n'
    requires forall j :: 0 <= j < |b| ==> b[j] != '\n'
    ensures forall j :: 0 <= j < |a + sep + b| ==> (a + sep + b)[j] != '\n'
  {
    var t := a + sep + b;
    forall j | 0 <= j < |t|
      ensures t[j] != '\n'
    {
      if j < |a| {
        assert t[j] == a[j];
      } else if j < |a| + |sep| {
        assert t[j] == sep[j - |a|];
      } else {
        assert t[j] == b[j - |a| - |sep|];
      }
    }
  }

  /** The lines of a cue: its index line, its timing line, then the lines of its text. */
  lemma CueLines(idx: string, timing: string, text: string)
    requires forall j :: 0 <= j < |idx| ==> idx[j] != '\n'
    requires forall j :: 0 <= j < |timing| ==> timing[j] != '\n'
    ensures Split(idx + "\n" + timing + "\n" + text, "\n") == [idx, timing] + Split(text, "\n")
  {
    var rest := timing + "\n" + text;
    var tail := Split(text, "\n");
    CleanIfHeadAbsent(idx, "\n");
    CleanIfHeadAbsent(timing, "\n");
    SplitAfterPart(timing, "\n", text);
    SplitAfterPart(idx, "\n", rest);
    Associate(idx, "\n", timing, text);
    assert [idx] + ([timing] + tail) == [idx, timing] + tail;
  }

  lemma Associate(a: string, nl: string, b: string, c: string)
    ensures a + nl + b + nl + c == a + nl + (b + nl + c)
  {
  }

  /** `str(index)`: a sign or digits, then digits, with no newline or other whitespace. */
  lemma IndexText(i: int)
    ensures var s := IntToString(i);
      |s| > 0 && (s[0] == '-' || IsDigit(s[0])) && IsDigit(s[|s| - 1])
      && forall j :: 0 <= j < |s| ==> s[j] == '-' || IsDigit(s[j])
  {
    if i < 0 {
      var d := NatToDigits(-i);
      assert IntToString(i) == "-" + d;
    }
  }

  /** The blocks `SRTParser.parse` reads: the stripped content cut at every blank line. */
  function SrtBlocks(content: string): seq<string>
  {
    Split(Strip(content), "\n\n")
  }

  /** The cues of the blocks that `parse` accepts, in block order. */
  function Accepted(blocks: seq<string>, parse: string -> Option<SubtitleEntry>): (r: seq<SubtitleEntry>)
    ensures |r| <= |blocks|
  {
    if |blocks| == 0 then []
    else
      var last := parse(blocks[|blocks| - 1]);
      Accepted(blocks[..|blocks| - 1], parse) + (if last.Some? then [last.value] else [])
  }

  /** `SRTParser.parse` on the file's text: the blocks, then the loop over them. */
  method ParseSrt(content: string) returns (entries: seq<SubtitleEntry>)
    ensures entries == Accepted(SrtBlocks(content), ParseSrtBlock)
  {
    var blocks := SrtBlocks(content);
    entries := CollectAccepted(blocks, ParseSrtBlock);
  }

  /** The loop of `SRTParser.parse`, with the body of its `try` as `parse`: every block that parses
      contributes its cue, in order. */
  method CollectAccepted(blocks: seq<string>, parse: string -> Option<SubtitleEntry>) returns (entries: seq<SubtitleEntry>)
    ensures entries == Accepted(blocks, parse)
  {
    entries := [];
    var i := 0;
    while i < |blocks|
      invariant 0 <= i <= |blocks|
      invariant entries == Accepted(blocks[..i], parse)
    {
      var cue := parse(blocks[i]);
      if cue.Some? {
        entries := entries + [cue.value];
      }
      assert blocks[..i + 1][..i] == blocks[..i];
      i := i + 1;
    }
    assert blocks[..|blocks|] == blocks;
  }
  // ---------------------------------------------------------------------
  // SRT files

  /** The text of entries written one after another, each as `write` prints it (the loop of `save`). */
  function Written(es: seq<SubtitleEntry>, write: SubtitleEntry -> string): string
  {
    if |es| == 0 then "" else Written(es[..|es| - 1], write) + write(es[|es| - 1])
  }

  /** `f` applied to every entry. */
  function MapText(es: seq<SubtitleEntry>, f: SubtitleEntry -> string): (r: seq<string>)
    ensures |r| == |es| && forall i :: 0 <= i < |es| ==> r[i] == f(es[i])
  {
    seq(|es|, i requires 0 <= i < |es| => f(es[i]))
  }

  /** One SRT entry as `save` writes it: `format_entry`, then the extra newline. */
  function SrtSaved(e: SubtitleEntry): string
  {
    FormatSrtEntry(e) + "\n"
  }

  /** The entries as SRT reads them back: SRT carries no style. */
  function Unstyled(es: seq<SubtitleEntry>): (r: seq<SubtitleEntry>)
    ensures |r| == |es| && forall i :: 0 <= i < |es| ==> r[i] == es[i].(style := None)
  {
    seq(|es|, i requires 0 <= i < |es| => es[i].(style := None))
  }

  /** An entry that an SRT file can carry: millisecond times, and text that is not empty, neither starts with a
      newline nor ends in whitespace, and holds no blank line (a blank line would end the block). */
  predicate SrtWritable(e: SubtitleEntry)
  {
    && OnGrid(e.startTime, 1000) && OnGrid(e.endTime, 1000)
    && |e.text| > 0 && e.text[0] != '\n' && !IsSpace(e.text[|e.text| - 1])
    && NoBlankLine(e.text)
  }

  /** Reading back a saved SRT file gives the saved entries, in order, with their own indices and without style. */
  lemma SrtFileRoundTrip(es: seq<SubtitleEntry>)
    requires forall i :: 0 <= i < |es| ==> SrtWritable(es[i])
    ensures Accepted(SrtBlocks(Written(es, SrtSaved)), ParseSrtBlock) == Unstyled(es)
  {
    if |es| == 0 {
      NothingSaved(es, SrtSaved);
    } else {
      CuesParse(es, SrtCue);
      SavedAreCues(es, SrtSaved, SrtCue);
      SavedBlocks(es, SrtSaved, SrtCue, Unstyled(es));
    }
  }

  lemma NothingSaved(es: seq<SubtitleEntry>, write: SubtitleEntry -> string)
    requires |es| == 0
    ensures Accepted(SrtBlocks(Written(es, write)), ParseSrtBlock) == []
  {
    assert SrtBlocks("") == [""];
    assert Accepted([""], ParseSrtBlock) == [];
  }

  /** Entries written as cues separated and followed by blank lines, where every cue ends cleanly and parses to
      the matching entry of `out`, read back as `out`. */
  lemma SavedBlocks(es: seq<SubtitleEntry>, write: SubtitleEntry -> string, cue: SubtitleEntry -> string, out: seq<SubtitleEntry>)
    requires |es| > 0 && |out| == |es|
    requires forall i :: 0 <= i < |es| ==> write(es[i]) == cue(es[i]) + "\n\n"
    requires forall i :: 0 <= i < |es| ==> |cue(es[i])| > 0 && EndsCleanly(cue(es[i]), "\n\n")
    requires forall i :: 0 <= i < |es| ==> ParseSrtBlock(cue(es[i])) == Some(out[i])
    requires !IsSpace(cue(es[0])[0])
    requires var last := cue(es[|es| - 1]); !IsSpace(last[|last| - 1])
    ensures Accepted(SrtBlocks(Written(es, write)), ParseSrtBlock) == out
  {
    var cues := MapText(es, cue);
    WrittenJoin(es, write, cue, "\n\n");
    CuesBlocks(es, cue, cues);
    assert SrtBlocks(Written(es, write)) == cues;
    AcceptedAll(cues, out, ParseSrtBlock);
  }

  lemma CuesBlocks(es: seq<SubtitleEntry>, cue: SubtitleEntry -> string, cues: seq<string>)
    requires |es| > 0 && cues == MapText(es, cue)
    requires forall i :: 0 <= i < |es| ==> |cue(es[i])| > 0 && EndsCleanly(cue(es[i]), "\n\n")
    requires !IsSpace(cue(es[0])[0])
    requires var last := cue(es[|es| - 1]); !IsSpace(last[|last| - 1])
    ensures SrtBlocks(Join(cues, "\n\n") + "\n\n") == cues
  {
    BlocksOfCues(cues);
  }

  lemma SavedAreCues(es: seq<SubtitleEntry>, write: SubtitleEntry -> string, cue: SubtitleEntry -> string)
    requires forall e :: write(e) == SrtSaved(e) && cue(e) == SrtCue(e)
    ensures forall i :: 0 <= i < |es| ==> write(es[i]) == cue(es[i]) + "\n\n"
  {
    forall i | 0 <= i < |es|
      ensures write(es[i]) == cue(es[i]) + "\n\n"
    {
      EntryIsCue(es[i]);
    }
  }

  lemma CuesParse(es: seq<SubtitleEntry>, cue: SubtitleEntry -> string)
    requires |es| > 0 && forall i :: 0 <= i < |es| ==> SrtWritable(es[i])
    requires forall e :: cue(e) == SrtCue(e)
    ensures forall i :: 0 <= i < |es| ==> |cue(es[i])| > 0 && EndsCleanly(cue(es[i]), "\n\n")
    ensures forall i :: 0 <= i < |es| ==> ParseSrtBlock(cue(es[i])) == Some(Unstyled(es)[i])
    ensures !IsSpace(cue(es[0])[0])
    ensures var last := cue(es[|es| - 1]); !IsSpace(last[|last| - 1])
  {
    forall i | 0 <= i < |es|
      ensures |cue(es[i])| > 0 && EndsCleanly(cue(es[i]), "\n\n")
      ensures ParseSrtBlock(cue(es[i])) == Some(Unstyled(es)[i])
    {
      SrtCueClean(es[i]);
      SrtCueParses(es[i]);
    }
    SrtCueEnds(es[0]);
    SrtCueEnds(es[|es| - 1]);
  }

  /** Entries each written as their cue and a separator make the join of the cues, then the separator. */
  lemma {:induction false} WrittenJoin(es: seq<SubtitleEntry>, write: SubtitleEntry -> string, cue: SubtitleEntry -> string, sep: string)
    requires |es| > 0
    requires forall i :: 0 <= i < |es| ==> write(es[i]) == cue(es[i]) + sep
    ensures Written(es, write) == Join(MapText(es, cue), sep) + sep
  {
    var n := |es| - 1;
    if n > 0 {
      var init := es[..n];
      WrittenJoin(init, write, cue, sep);
      var parts := MapText(es, cue);
      assert parts[..n] == MapText(init, cue);
      JoinSnoc(parts, sep);
    }
  }

  /** Cues that end cleanly, the first and last without surrounding whitespace, come back as the blocks of their
      blank-line join followed by a blank line. */
  lemma BlocksOfCues(cues: seq<string>)
    requires |cues| > 0
    requires forall k :: 0 <= k < |cues| ==> |cues[k]| > 0 && EndsCleanly(cues[k], "\n\n")
    requires !IsSpace(cues[0][0])
    requires var last := cues[|cues| - 1]; !IsSpace(last[|last| - 1])
    ensures SrtBlocks(Join(cues, "\n\n") + "\n\n") == cues
  {
    var body := Join(cues, "\n\n");
    JoinEnds(cues, "\n\n");
    StripSpaceTail(body, "\n\n");
    SplitJoinSep(cues, "\n\n");
  }

  /** A writable cue holds no blank line and does not end in a newline. */
  lemma SrtCueClean(e: SubtitleEntry)
    requires SrtWritable(e)
    ensures EndsCleanly(SrtCue(e), "\n\n") && |SrtCue(e)| > 0
  {
    SrtTimeIsClock(e.startTime);
    SrtTimeIsClock(e.endTime);
    CueClean(e.index, FormatSrtTime(e.startTime), FormatSrtTime(e.endTime), e.text);
  }

  /** A cue of an index, two clocks and text without a blank line holds no blank line and ends in its text. */
  lemma CueClean(index: int, a: string, b: string, text: string)
    requires ClockText(a) && ClockText(b)
    requires |text| > 0 && text[0] != '\n' && !IsSpace(text[|text| - 1]) && NoBlankLine(text)
    ensures var cue := IntToString(index) + "\n" + a + " --> " + b + "\n" + text;
      |cue| > 0 && EndsCleanly(cue, "\n\n")
  {
    var idx := IntToString(index);
    var timing := a + " --> " + b;
    IndexText(index);
    TimingNoNewline(a, b);
    CueNoBlankLine(idx, timing, text);
    var cue := idx + "\n" + timing + "\n" + text;
    assert cue == idx + "\n" + a + " --> " + b + "\n" + text;
    assert cue[|cue| - 1] == text[|text| - 1];
    CleanWithoutBlankLine(cue);
  }

  /** The timing line of two clocks is a single line. */
  lemma TimingNoNewline(a: string, b: string)
    requires ClockText(a) && ClockText(b)
    ensures var t := a + " --> " + b; forall j :: 0 <= j < |t| ==> t[j] != '\n'
  {
    var t := a + " --> " + b;
    forall j | 0 <= j < |t|
      ensures t[j] != '\n'
    {
      if j < |a| {
        assert t[j] == a[j] && IsClockChar(a[j]);
      } else if j >= |a| + 5 {
        assert t[j] == b[j - |a| - 5] && IsClockChar(b[j - |a| - 5]);
      }
    }
  }

  /** A non-negative time on the millisecond grid prints as a clock. */
  lemma SrtTimeIsClock(t: real)
    requires OnGrid(t, 1000)
    ensures ClockText(FormatSrtTime(t))
  {
    var ms := GridCount(t, 1000);
    var h, m, s, x := SrtTimeFields(t, ms);
    ClockOf(Pad(h, 2), Pad(m, 2), Pad(s, 2), ",", Pad(x, 3));
  }

  lemma CueNoBlankLine(idx: string, timing: string, text: string)
    requires forall j :: 0 <= j < |idx| ==> idx[j] != '\n'
    requires forall j :: 0 <= j < |timing| ==> timing[j] != '\n'
    requires |idx| > 0 && |timing| > 0 && |text| > 0 && text[0] != '\n' && NoBlankLine(text)
    ensures NoBlankLine(idx + "\n" + timing + "\n" + text)
  {
    NoNewlineNoBlankLine(idx);
    NoNewlineNoBlankLine(timing);
    assert NoBlankLine("\n");
    NoBlankLineConcat(idx, "\n");
    NoBlankLineConcat(idx + "\n", timing);
    NoBlankLineConcat(idx + "\n" + timing, "\n");
    NoBlankLineConcat(idx + "\n" + timing + "\n", text);
  }

  /** `format_entry` writes the cue followed by a newline. */
  lemma EntryIsCue(e: SubtitleEntry)
    ensures FormatSrtEntry(e) == SrtCue(e) + "\n"
  {
  }

  /** Accepted keeps every block when each block parses to the matching cue. */
  lemma {:induction false} AcceptedAll(blocks: seq<string>, es: seq<SubtitleEntry>, parse: string -> Option<SubtitleEntry>)
    requires |blocks| == |es|
    requires forall i :: 0 <= i < |blocks| ==> parse(blocks[i]) == Some(es[i])
    ensures Accepted(blocks, parse) == es
  {
    if |blocks| > 0 {
      var n := |blocks| - 1;
      AcceptedAll(blocks[..n], es[..n], parse);
      assert es == es[..n] + [es[n]];
    }
  }

  /** A cue with empty text is written as two lines and dropped when read back. */
  lemma SrtEmptyTextDropped(e: SubtitleEntry)
    requires OnGrid(e.startTime, 1000) && OnGrid(e.endTime, 1000) && e.text == ""
    ensures ParseSrtBlock(FormatSrtEntry(e)) == None
  {
    SrtTimeIsClock(e.startTime);
    SrtTimeIsClock(e.endTime);
    EmptyCueDropped(e.index, FormatSrtTime(e.startTime), FormatSrtTime(e.endTime), e.text);
  }

  /** A block of an index line and a timing line only has two lines. */
  lemma EmptyCueDropped(index: int, a: string, b: string, text: string)
    requires ClockText(a) && ClockText(b) && text == ""
    ensures ParseSrtBlock(IntToString(index) + "\n" + a + " --> " + b + "\n" + text + "\n") == None
  {
    var idx := IntToString(index);
    var timing := a + " --> " + b;
    IndexText(index);
    TimingNoNewline(a, b);
    var line := idx + "\n" + timing;
    assert IntToString(index) + "\n" + a + " --> " + b + "\n" + text + "\n" == line + "\n\n";
    LineDropped(idx, timing);
  }

  lemma LineDropped(idx: string, timing: string)
    requires |idx| > 0 && |timing| > 0 && !IsSpace(idx[0]) && !IsSpace(timing[|timing| - 1])
    requires forall j :: 0 <= j < |idx| ==> idx[j] != '\n'
    requires forall j :: 0 <= j < |timing| ==> timing[j] != '\n'
    ensures ParseSrtBlock(idx + "\n" + timing + "\n\n") == None
  {
    var line := idx + "\n" + timing;
    assert line[0] == idx[0] && line[|line| - 1] == timing[|timing| - 1];
    StripSpaceTail(line, "\n\n");
    CleanIfHeadAbsent(idx, "\n");
    CleanIfHeadAbsent(timing, "\n");
    SplitAfterPart(idx, "\n", timing);
    CleanHasNone(timing, "\n");
    assert |Split(line, "\n")| == 2;
  }
}
