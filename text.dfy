// Character and string helpers that stand for the Python built-ins the
// drama processor uses: str.strip/lower/upper/split/join/startswith, `in` on
// strings, int() and float() on decimal text, and zero-padded formatting.
// Only ASCII digits, ASCII letters and ASCII whitespace are modelled.
module Text {
  import opened Results

  predicate IsDigit(c: char) { '0' <= c <= '9' }

  predicate AllDigits(s: string) { forall i :: 0 <= i < |s| ==> IsDigit(s[i]) }

  /** The characters str.isspace() accepts within ASCII. */
  predicate IsSpace(c: char)
  {
    c == ' ' || c == '\t' || c == '\n' || c == '\r' || c == '\U{000B}' || c == '\U{000C}'
    || c == '\U{001C}' || c == '\U{001D}' || c == '\U{001E}' || c == '\U{001F}'
  }

  function DigitValue(c: char): nat
    requires IsDigit(c)
  {
    c as int - '0' as int
  }

  function DigitChar(d: nat): char
    requires d < 10
  {
    (('0' as int) + d) as char
  }

  /** The value of a string of decimal digits, as int() reads it. */
  function DigitsValue(s: string): nat
    requires AllDigits(s)
  {
    if |s| == 0 then 0 else DigitsValue(s[..|s| - 1]) * 10 + DigitValue(s[|s| - 1])
  }

  /** str(n) for a natural number: shortest decimal form. */
  function NatToDigits(n: nat): (r: string)
    ensures |r| > 0 && AllDigits(r)
  {
    if n < 10 then [DigitChar(n)] else NatToDigits(n / 10) + [DigitChar(n % 10)]
  }

  lemma {:induction false} NatToDigitsValue(n: nat)
    ensures DigitsValue(NatToDigits(n)) == n
  {
    var s := NatToDigits(n);
    if n >= 10 {
      NatToDigitsValue(n / 10);
      assert s[..|s| - 1] == NatToDigits(n / 10);
    }
  }

  lemma {:induction false} NatToDigitsInjective(m: nat, n: nat)
    requires NatToDigits(m) == NatToDigits(n)
    ensures m == n
  {
    NatToDigitsValue(m);
    NatToDigitsValue(n);
  }

  /** A number below 10^k takes at most k digits. */
  lemma {:induction false} NatToDigitsLength(n: nat, k: nat)
    requires 1 <= k && n < Pow10(k)
    ensures |NatToDigits(n)| <= k
  {
    if n >= 10 {
      assert k >= 2;
      NatToDigitsLength(n / 10, k - 1);
    }
  }

  function Zeros(k: nat): (r: string)
    ensures |r| == k && AllDigits(r)
  {
    if k == 0 then "" else "0" + Zeros(k - 1)
  }

  lemma {:induction false} DigitsValueAppend(s: string, t: string)
    requires AllDigits(s) && AllDigits(t)
    ensures AllDigits(s + t)
    ensures DigitsValue(s + t) == DigitsValue(s) * Pow10(|t|) + DigitsValue(t)
  {
    if |t| > 0 {
      var u := s + t;
      var t' := t[..|t| - 1];
      assert u[..|u| - 1] == s + t';
      DigitsValueAppend(s, t');
      var d := DigitValue(t[|t| - 1]);
      calc {
        DigitsValue(u);
        DigitsValue(s + t') * 10 + d;
        (DigitsValue(s) * Pow10(|t'|) + DigitsValue(t')) * 10 + d;
        { MulAssoc(DigitsValue(s), Pow10(|t'|), 10); }
        DigitsValue(s) * Pow10(|t|) + (DigitsValue(t') * 10 + d);
      }
    } else {
      assert s + t == s;
    }
  }

  lemma MulAssoc(a: nat, b: nat, c: nat)
    ensures (a * b) * c == a * (c * b)
  {
  }

  function Pow10(k: nat): (r: nat)
    ensures r >= 1
  {
    if k == 0 then 1 else 10 * Pow10(k - 1)
  }

  lemma {:induction false} ZerosValue(k: nat)
    ensures DigitsValue(Zeros(k)) == 0
  {
    if k > 0 {
      assert Zeros(k) == "0" + Zeros(k - 1);
      DigitsValueAppend("0", Zeros(k - 1));
      ZerosValue(k - 1);
    }
  }

  /** Left-pads a digit string with zeros up to `width` characters. */
  function ZeroPad(s: string, width: nat): (r: string)
    ensures |r| == if |s| >= width then |s| else width
  {
    if |s| >= width then s else Zeros(width - |s|) + s
  }

  lemma ZeroPadValue(s: string, width: nat)
    requires AllDigits(s)
    ensures AllDigits(ZeroPad(s, width)) && DigitsValue(ZeroPad(s, width)) == DigitsValue(s)
  {
    if |s| < width {
      DigitsValueAppend(Zeros(width - |s|), s);
      ZerosValue(width - |s|);
    }
  }

  /** Python's format of an int with spec `0<width>d`: the sign counts towards the width. */
  function FormatInt(i: int, width: nat): string
  {
    if i < 0 then "-" + ZeroPad(NatToDigits(-i), if width > 0 then width - 1 else 0)
    else ZeroPad(NatToDigits(i), width)
  }

  /** str(i) for an int. */
  function IntToString(i: int): string
  {
    FormatInt(i, 0)
  }

  function ToLower(c: char): char
  {
    if 'A' <= c <= 'Z' then (c as int + 32) as char else c
  }

  function ToUpper(c: char): char
  {
    if 'a' <= c <= 'z' then (c as int - 32) as char else c
  }

  /** str.lower() on ASCII letters. */
  function Lower(s: string): (r: string)
    ensures |r| == |s| && forall i :: 0 <= i < |s| ==> r[i] == ToLower(s[i])
  {
    if |s| == 0 then "" else [ToLower(s[0])] + Lower(s[1..])
  }

  /** str.upper() on ASCII letters. */
  function Upper(s: string): (r: string)
    ensures |r| == |s| && forall i :: 0 <= i < |s| ==> r[i] == ToUpper(s[i])
  {
    if |s| == 0 then "" else [ToUpper(s[0])] + Upper(s[1..])
  }

  /** str.strip() with no argument: leading and trailing whitespace removed. */
  function Strip(s: string): string
    decreases |s|
  {
    if |s| > 0 && IsSpace(s[0]) then Strip(s[1..])
    else if |s| > 0 && IsSpace(s[|s| - 1]) then Strip(s[..|s| - 1])
    else s
  }

  lemma StripNoSpace(s: string)
    requires |s| == 0 || (!IsSpace(s[0]) && !IsSpace(s[|s| - 1]))
    ensures Strip(s) == s
  {
  }

  /** No whitespace at either end. */
  predicate Trimmed(s: string)
  {
    |s| == 0 || (!IsSpace(s[0]) && !IsSpace(s[|s| - 1]))
  }

  predicate StartsWith(s: string, prefix: string)
  {
    |prefix| <= |s| && s[..|prefix|] == prefix
  }

  predicate EndsWith(s: string, suffix: string)
  {
    |suffix| <= |s| && s[|s| - |suffix|..] == suffix
  }

  /** Index of the first occurrence of `sep` in `s` (str.find), if any. */
  function Find(s: string, sep: string): (r: Option<nat>)
    requires |sep| > 0
    ensures r.Some? ==> r.value + |sep| <= |s| && s[r.value..r.value + |sep|] == sep
    decreases |s|
  {
    if |s| < |sep| then None
    else if s[..|sep|] == sep then Some(0)
    else
      match Find(s[1..], sep)
      case None => None
      case Some(i) => Some(i + 1)
  }

  predicate MatchAt(s: string, sep: string, j: nat)
  {
    j + |sep| <= |s| && s[j..j + |sep|] == sep
  }

  lemma MatchAtTail(s: string, sep: string, j: nat)
    requires |s| > 0
    ensures MatchAt(s[1..], sep, j) <==> MatchAt(s, sep, j + 1)
  {
    if j + 1 + |sep| <= |s| {
      assert s[1..][j..j + |sep|] == s[j + 1..j + 1 + |sep|];
    }
  }

  /** Find returns the first index at which `sep` occurs. */
  lemma {:induction false} FindFirst(s: string, sep: string, i: nat)
    requires |sep| > 0 && MatchAt(s, sep, i)
    requires forall j :: 0 <= j < i ==> !MatchAt(s, sep, j)
    ensures Find(s, sep) == Some(i)
    decreases i
  {
    if i > 0 {
      assert !MatchAt(s, sep, 0);
      assert s[0..|sep|] == s[..|sep|];
      var t := s[1..];
      forall j | 0 <= j < i - 1
        ensures !MatchAt(t, sep, j)
      {
        MatchAtTail(s, sep, j);
      }
      MatchAtTail(s, sep, i - 1);
      FindFirst(t, sep, i - 1);
    }
  }

  /** A string without the character `c` has no occurrence of it. */
  lemma {:induction false} FindAbsent(s: string, c: char)
    requires forall j :: 0 <= j < |s| ==> s[j] != c
    ensures Find(s, [c]).None?
    decreases |s|
  {
    if |s| >= 1 {
      assert s[..1] == [s[0]];
      FindAbsent(s[1..], c);
    }
  }

  /** `sub in s` for strings. */
  predicate Contains(s: string, sub: string)
  {
    if |sub| == 0 then true else Find(s, sub).Some?
  }

  /** str.split(sep) with an explicit, non-empty separator. */
  function Split(s: string, sep: string): (r: seq<string>)
    requires |sep| > 0
    ensures |r| >= 1
    decreases |s|
  {
    match Find(s, sep)
    case None => [s]
    case Some(i) => [s[..i]] + Split(s[i + |sep|..], sep)
  }

  /** str.split(sep, maxsplit): at most `maxsplit` splits. */
  function SplitN(s: string, sep: string, maxsplit: nat): (r: seq<string>)
    requires |sep| > 0
    ensures 1 <= |r| <= maxsplit + 1
    decreases maxsplit
  {
    if maxsplit == 0 then [s]
    else
      match Find(s, sep)
      case None => [s]
      case Some(i) => [s[..i]] + SplitN(s[i + |sep|..], sep, maxsplit - 1)
  }

  /** sep.join(parts). */
  function Join(parts: seq<string>, sep: string): string
  {
    if |parts| == 0 then "" else if |parts| == 1 then parts[0] else parts[0] + sep + Join(parts[1..], sep)
  }

  /** Splitting a join on a one-character separator that no part contains gives the parts back. */
  lemma {:induction false} SplitJoin(parts: seq<string>, c: char)
    requires |parts| > 0
    requires forall k, j :: 0 <= k < |parts| && 0 <= j < |parts[k]| ==> parts[k][j] != c
    ensures Split(Join(parts, [c]), [c]) == parts
  {
    var s := Join(parts, [c]);
    if |parts| == 1 {
      FindAbsent(parts[0], c);
    } else {
      var p := parts[0];
      var rest := Join(parts[1..], [c]);
      assert s == p + [c] + rest;
      FindAfterPrefix(p, c, rest);
      assert s[|p| + 1..] == rest;
      assert s[..|p|] == p;
      SplitJoin(parts[1..], c);
    }
  }

  lemma FindAfterPrefix(p: string, c: char, rest: string)
    requires forall j :: 0 <= j < |p| ==> p[j] != c
    ensures Find(p + [c] + rest, [c]) == Some(|p|)
  {
    var s := p + [c] + rest;
    assert s[|p|..|p| + 1] == [c];
    forall j | 0 <= j < |p|
      ensures !MatchAt(s, [c], j)
    {
      assert s[j..j + 1] == [p[j]];
    }
    FindFirst(s, [c], |p|);
  }

  /** Python int() on text: surrounding whitespace, an optional sign, then decimal digits. */
  function ParseInt(s: string): Option<int>
  {
    var t := Strip(s);
    if |t| > 0 && (t[0] == '-' || t[0] == '+') then
      if |t| > 1 && AllDigits(t[1..]) then
        Some(if t[0] == '-' then -(DigitsValue(t[1..]) as int) else DigitsValue(t[1..]))
      else None
    else if |t| > 0 && AllDigits(t) then Some(DigitsValue(t))
    else None
  }

  /** Python float() on decimal text: whitespace, an optional sign, digits with at most one '.', at least one digit. */
  function ParseFloat(s: string): Option<real>
  {
    var t := Strip(s);
    if |t| > 0 && (t[0] == '-' || t[0] == '+') then
      match ParseUnsignedDecimal(t[1..])
      case None => None
      case Some(v) => Some(if t[0] == '-' then -v else v)
    else ParseUnsignedDecimal(t)
  }

  function ParseUnsignedDecimal(t: string): Option<real>
  {
    match Find(t, ".")
    case None =>
      if |t| > 0 && AllDigits(t) then Some(DigitsValue(t) as real) else None
    case Some(i) =>
      var whole := t[..i];
      var frac := t[i + 1..];
      if AllDigits(whole) && AllDigits(frac) && |whole| + |frac| > 0 then Some(Decimal(whole, frac))
      else None
  }

  /** The value of `<whole>.<frac>`. */
  function Decimal(whole: string, frac: string): real
    requires AllDigits(whole) && AllDigits(frac)
  {
    DigitsValue(whole) as real + FracValue(frac)
  }

  /** The value of the digits after a decimal point: `0.<frac>`. */
  function FracValue(frac: string): real
    requires AllDigits(frac)
  {
    if |frac| == 0 then 0.0 else (DigitValue(frac[0]) as real + FracValue(frac[1..])) / 10.0
  }

  lemma ParseIntDigits(s: string)
    requires |s| > 0 && AllDigits(s)
    ensures ParseInt(s) == Some(DigitsValue(s))
  {
    assert IsDigit(s[0]) && IsDigit(s[|s| - 1]);
    StripNoSpace(s);
    assert s[0] != '-' && s[0] != '+';
  }

  /** float() of unsigned text with no surrounding whitespace is its decimal value. */
  lemma ParseFloatUnsigned(s: string)
    requires |s| > 0 && !IsSpace(s[0]) && !IsSpace(s[|s| - 1]) && s[0] != '-' && s[0] != '+'
    ensures ParseFloat(s) == ParseUnsignedDecimal(s)
  {
    StripNoSpace(s);
  }

  /** str.replace(a, b) for single characters: every `a` becomes `b`. */
  function Replace(s: string, a: char, b: char): (r: string)
    ensures |r| == |s|
  {
    if |s| == 0 then "" else [if s[0] == a then b else s[0]] + Replace(s[1..], a, b)
  }

  lemma {:induction false} ReplaceAppend(s: string, t: string, a: char, b: char)
    ensures Replace(s + t, a, b) == Replace(s, a, b) + Replace(t, a, b)
    decreases |s|
  {
    if |s| > 0 {
      assert (s + t)[1..] == s[1..] + t;
      ReplaceAppend(s[1..], t, a, b);
    } else {
      assert s + t == t;
    }
  }

  lemma {:induction false} ReplaceAbsent(s: string, a: char, b: char)
    requires forall i :: 0 <= i < |s| ==> s[i] != a
    ensures Replace(s, a, b) == s
    decreases |s|
  {
    if |s| > 0 {
      ReplaceAbsent(s[1..], a, b);
    }
  }
  /** No occurrence of `sep` anywhere in `s`: find gives None. */
  lemma {:induction false} FindNone(s: string, sep: string)
    requires |sep| > 0
    requires forall j :: 0 <= j < |s| ==> !MatchAt(s, sep, j)
    ensures Find(s, sep).None?
    decreases |s|
  {
    if |s| >= |sep| {
      assert !MatchAt(s, sep, 0);
      assert s[0..|sep|] == s[..|sep|];
      forall j | 0 <= j < |s| - 1
        ensures !MatchAt(s[1..], sep, j)
      {
        MatchAtTail(s, sep, j);
      }
      FindNone(s[1..], sep);
    }
  }

  /** `sep` occurs in `p + sep` only at the end: `p` holds no `sep` and no prefix of it overlaps the seam. */
  predicate EndsCleanly(p: string, sep: string)
  {
    forall j :: 0 <= j < |p| ==> !MatchAt(p + sep, sep, j)
  }

  lemma FindAfterPart(p: string, sep: string, rest: string)
    requires |sep| > 0 && EndsCleanly(p, sep)
    ensures Find(p + sep + rest, sep) == Some(|p|)
  {
    var s := p + sep + rest;
    assert s[|p|..|p| + |sep|] == sep;
    forall j | 0 <= j < |p|
      ensures !MatchAt(s, sep, j)
    {
      assert !MatchAt(p + sep, sep, j);
      assert s[j..j + |sep|] == (p + sep)[j..j + |sep|];
    }
    FindFirst(s, sep, |p|);
  }

  /** Splitting a join gives the parts back when every part ends cleanly before the separator. */
  lemma {:induction false} SplitJoinSep(parts: seq<string>, sep: string)
    requires |parts| > 0 && |sep| > 0
    requires forall k :: 0 <= k < |parts| ==> EndsCleanly(parts[k], sep)
    ensures Split(Join(parts, sep), sep) == parts
  {
    var p := parts[0];
    assert EndsCleanly(p, sep);
    if |parts| == 1 {
      CleanHasNone(p, sep);
    } else {
      var tail := parts[1..];
      assert forall k :: 0 <= k < |tail| ==> EndsCleanly(tail[k], sep) by {
        forall k | 0 <= k < |tail|
          ensures EndsCleanly(tail[k], sep)
        {
          assert tail[k] == parts[k + 1];
        }
      }
      SplitJoinSep(tail, sep);
      SplitAfterPart(p, sep, Join(tail, sep));
      assert Join(parts, sep) == p + sep + Join(tail, sep);
    }
  }

  lemma SplitAfterPart(p: string, sep: string, rest: string)
    requires |sep| > 0 && EndsCleanly(p, sep)
    ensures Split(p + sep + rest, sep) == [p] + Split(rest, sep)
  {
    var s := p + sep + rest;
    FindAfterPart(p, sep, rest);
    assert s[|p| + |sep|..] == rest;
    assert s[..|p|] == p;
  }

  lemma CleanHasNone(p: string, sep: string)
    requires |sep| > 0 && EndsCleanly(p, sep)
    ensures Find(p, sep).None?
  {
    forall j | 0 <= j < |p|
      ensures !MatchAt(p, sep, j)
    {
      assert !MatchAt(p + sep, sep, j);
      if j + |sep| <= |p| {
        assert (p + sep)[j..j + |sep|] == p[j..j + |sep|];
      }
    }
    FindNone(p, sep);
  }

  /** Joining the pieces of a split restores the text. */
  lemma {:induction false} JoinSplit(s: string, sep: string)
    requires |sep| > 0
    ensures Join(Split(s, sep), sep) == s
    decreases |s|
  {
    match Find(s, sep)
    case None =>
    case Some(i) =>
      var rest := s[i + |sep|..];
      var tail := Split(rest, sep);
      JoinSplit(rest, sep);
      var parts := Split(s, sep);
      assert parts == [s[..i]] + tail;
      assert parts[1..] == tail;
      assert s == s[..i] + sep + rest;
  }

  /** int() reads back what str() writes. */
  lemma IntToStringParse(i: int)
    ensures ParseInt(IntToString(i)) == Some(i)
  {
    var s := IntToString(i);
    if i < 0 {
      var d := NatToDigits(-i);
      assert s == "-" + d;
      NatToDigitsValue(-i);
      assert IsDigit(s[|s| - 1]);
      StripNoSpace(s);
      assert s[1..] == d;
    } else {
      NatToDigitsValue(i);
      ParseIntDigits(NatToDigits(i));
    }
  }
  /** Every character of `s` satisfies `p`. */
  predicate AllChars(s: string, p: char -> bool)
  {
    forall j :: 0 <= j < |s| ==> p(s[j])
  }

  lemma AllCharsConcat(x: string, y: string, p: char -> bool)
    requires AllChars(x, p) && AllChars(y, p)
    ensures AllChars(x + y, p)
  {
    forall j | 0 <= j < |x + y|
      ensures p((x + y)[j])
    {
      if j >= |x| {
        assert (x + y)[j] == y[j - |x|];
      }
    }
  }

  /** A match of `sep` starts with the first character of `sep`. */
  lemma MatchHead(x: string, sep: string, j: nat)
    requires |sep| > 0 && MatchAt(x, sep, j)
    ensures x[j] == sep[0]
  {
    assert x[j..j + |sep|][0] == x[j];
  }

  /** A part without the separator's first character ends cleanly before it. */
  lemma CleanIfHeadAbsent(p: string, sep: string)
    requires |sep| > 0
    requires forall j :: 0 <= j < |p| ==> p[j] != sep[0]
    ensures EndsCleanly(p, sep)
  {
    forall j | 0 <= j < |p|
      ensures !MatchAt(p + sep, sep, j)
    {
      assert (p + sep)[j] == p[j];
      if MatchAt(p + sep, sep, j) {
        MatchHead(p + sep, sep, j);
      }
    }
  }

  /** Trailing whitespace after a text without surrounding whitespace is stripped away. */
  lemma {:induction false} StripSpaceTail(x: string, w: string)
    requires |x| > 0 && !IsSpace(x[0]) && !IsSpace(x[|x| - 1])
    requires forall j :: 0 <= j < |w| ==> IsSpace(w[j])
    ensures Strip(x + w) == x
    decreases |w|
  {
    var u := x + w;
    assert u[0] == x[0];
    if |w| == 0 {
      assert u == x;
    } else {
      assert u[|u| - 1] == w[|w| - 1];
      assert u[..|u| - 1] == x + w[..|w| - 1];
      StripSpaceTail(x, w[..|w| - 1]);
    }
  }
  /** No two consecutive newlines: the text holds no blank line. */
  predicate NoBlankLine(s: string)
  {
    forall j :: 0 <= j < |s| - 1 ==> !(s[j] == '\n' && s[j + 1] == '\n')
  }

  lemma NoNewlineNoBlankLine(s: string)
    requires forall j :: 0 <= j < |s| ==> s[j] != '\n'
    ensures NoBlankLine(s)
  {
  }

  lemma NoBlankLineConcat(x: string, y: string)
    requires NoBlankLine(x) && NoBlankLine(y)
    requires |x| == 0 || |y| == 0 || x[|x| - 1] != '\n' || y[0] != '\n'
    ensures NoBlankLine(x + y)
  {
    var s := x + y;
    forall j | 0 <= j < |s| - 1
      ensures !(s[j] == '\n' && s[j + 1] == '\n')
    {
      if j + 1 < |x| {
        assert s[j] == x[j] && s[j + 1] == x[j + 1];
      } else if j >= |x| {
        assert s[j] == y[j - |x|] && s[j + 1] == y[j + 1 - |x|];
      } else {
        assert s[j] == x[|x| - 1] && s[j + 1] == y[0];
      }
    }
  }

  /** A text without blank lines that does not end in a newline ends cleanly before a blank line. */
  lemma CleanWithoutBlankLine(p: string)
    requires |p| > 0 && p[|p| - 1] != '\n' && NoBlankLine(p)
    ensures EndsCleanly(p, "\n\n")
  {
    var s := p + "\n\n";
    forall j | 0 <= j < |p|
      ensures !MatchAt(s, "\n\n", j)
    {
      assert s[j..j + 2] == [s[j], s[j + 1]];
      assert s[j] == p[j];
      if j < |p| - 1 {
        assert s[j + 1] == p[j + 1];
      }
    }
  }

  /** A join of non-empty parts starts with the first part's first character and ends with the last part's last. */
  lemma {:induction false} JoinEnds(parts: seq<string>, sep: string)
    requires |parts| > 0
    requires forall k :: 0 <= k < |parts| ==> |parts[k]| > 0
    ensures var s := Join(parts, sep); var last := parts[|parts| - 1];
      |s| > 0 && s[0] == parts[0][0] && s[|s| - 1] == last[|last| - 1]
  {
    if |parts| > 1 {
      var tail := parts[1..];
      JoinEnds(tail, sep);
      var t := Join(tail, sep);
      assert Join(parts, sep) == parts[0] + sep + t;
      assert tail[|tail| - 1] == parts[|parts| - 1];
    }
  }

  /** A join of several parts is the join of all but the last, the separator and the last part. */
  lemma {:induction false} JoinSnoc(parts: seq<string>, sep: string)
    requires |parts| > 1
    ensures Join(parts, sep) == Join(parts[..|parts| - 1], sep) + sep + parts[|parts| - 1]
  {
    var n := |parts| - 1;
    if n > 1 {
      var tail := parts[1..];
      JoinSnoc(tail, sep);
      assert tail[..|tail| - 1] == parts[..n][1..];
      assert tail[|tail| - 1] == parts[n];
    }
  }

  /** A string in which `sub` occurs somewhere contains it. */
  lemma {:induction false} ContainsAt(s: string, sub: string, i: nat)
    requires |sub| > 0 && MatchAt(s, sub, i)
    ensures Contains(s, sub)
    decreases i
  {
    if s[..|sub|] != sub {
      assert i > 0 by {
        assert s[0..|sub|] == s[..|sub|];
      }
      MatchAtTail(s, sub, i - 1);
      ContainsAt(s[1..], sub, i - 1);
    }
  }
}
