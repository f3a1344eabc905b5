// Natural ordering of segment files and the contiguity check on their
// leading numbers.
module Sorter {
  import opened Results
  import opened Text
  import opened Paths

  /** Length of the leading run of digits, or of non-digits, of `s`. */
  function RunLength(s: string): (n: nat)
    requires |s| > 0
    ensures 1 <= n <= |s|
    ensures forall k :: 0 <= k < n ==> IsDigit(s[k]) == IsDigit(s[0])
    ensures n < |s| ==> IsDigit(s[n]) != IsDigit(s[0])
  {
    if |s| == 1 || IsDigit(s[1]) != IsDigit(s[0]) then 1 else 1 + RunLength(s[1..])
  }

  /** The maximal runs of digits and of non-digits, left to right: the matches of `(\d+)|(\D+)`. */
  function Runs(s: string): seq<string>
    decreases |s|
  {
    if |s| == 0 then [] else [s[..RunLength(s)]] + Runs(s[RunLength(s)..])
  }

  function Concat(parts: seq<string>): string
  {
    if |parts| == 0 then "" else parts[0] + Concat(parts[1..])
  }

  /** The run starts with a digit. */
  predicate DigitRun(run: string)
  {
    |run| > 0 && IsDigit(run[0])
  }

  predicate Homogeneous(run: string)
  {
    |run| > 0 && forall k :: 0 <= k < |run| ==> IsDigit(run[k]) == IsDigit(run[0])
  }

  /** The runs cover the text, each is a non-empty run of one kind, and neighbouring runs differ in kind. */
  lemma RunsFacts(s: string)
    ensures Concat(Runs(s)) == s
    ensures |Runs(s)| == 0 <==> |s| == 0
    ensures |s| > 0 ==> Runs(s)[0][0] == s[0]
    ensures forall i :: 0 <= i < |Runs(s)| ==> Homogeneous(Runs(s)[i])
    ensures forall i :: 0 <= i < |Runs(s)| - 1 ==> DigitRun(Runs(s)[i]) != DigitRun(Runs(s)[i + 1])
  {
    RunsCover(s);
    RunsHomogeneous(s);
    RunsAlternate(s);
  }

  /** The first run of a non-empty text is its leading run, and the rest are the runs of what follows. */
  lemma RunsHead(s: string)
    requires |s| > 0
    ensures Runs(s) == [s[..RunLength(s)]] + Runs(s[RunLength(s)..])
    ensures Runs(s)[0][0] == s[0]
  {
  }

  lemma {:induction false} RunsCover(s: string)
    ensures Concat(Runs(s)) == s
    ensures |Runs(s)| == 0 <==> |s| == 0
    decreases |s|
  {
    if |s| > 0 {
      var n := RunLength(s);
      RunsCover(s[n..]);
      RunsHead(s);
      var rs := Runs(s);
      assert rs[0] == s[..n] && rs[1..] == Runs(s[n..]);
      assert Concat(rs) == s[..n] + Concat(Runs(s[n..]));
      assert s[..n] + s[n..] == s;
    }
  }

  lemma {:induction false} RunsHomogeneous(s: string)
    ensures forall i :: 0 <= i < |Runs(s)| ==> Homogeneous(Runs(s)[i])
    decreases |s|
  {
    if |s| > 0 {
      var n := RunLength(s);
      var rest := Runs(s[n..]);
      RunsHomogeneous(s[n..]);
      RunsHead(s);
      var rs := Runs(s);
      assert Homogeneous(rs[0]);
      forall i | 0 < i < |rs|
        ensures Homogeneous(rs[i])
      {
        assert rs[i] == rest[i - 1];
      }
    }
  }

  lemma {:induction false} RunsAlternate(s: string)
    ensures forall i :: 0 <= i < |Runs(s)| - 1 ==> DigitRun(Runs(s)[i]) != DigitRun(Runs(s)[i + 1])
    decreases |s|
  {
    if |s| > 0 {
      var n := RunLength(s);
      var rest := Runs(s[n..]);
      RunsAlternate(s[n..]);
      RunsHead(s);
      var rs := Runs(s);
      if n < |s| {
        RunsHead(s[n..]);
        assert rs[1] == rest[0] && rest[0][0] == s[n];
      }
      forall i | 0 < i < |rs| - 1
        ensures DigitRun(rs[i]) != DigitRun(rs[i + 1])
      {
        assert rs[i] == rest[i - 1] && rs[i + 1] == rest[i];
      }
    }
  }

  /** One element of the natural sort key: an int for a digit run, the lower-cased text otherwise. */
  datatype KeyPart = Num(n: nat) | Word(w: string)

  type SortKey = seq<KeyPart>

  function PartOf(run: string): KeyPart
  {
    if |run| > 0 && AllDigits(run) then Num(DigitsValue(run)) else Word(Lower(run))
  }

  function PartsOf(runs: seq<string>): (r: seq<KeyPart>)
    ensures |r| == |runs| && forall i :: 0 <= i < |runs| ==> r[i] == PartOf(runs[i])
  {
    if |runs| == 0 then [] else [PartOf(runs[0])] + PartsOf(runs[1..])
  }

  /** The natural sort key of a file stem; ('',) for an empty stem. */
  function NaturalKey(stem: string): SortKey
  {
    if |stem| == 0 then [Word("")] else PartsOf(Runs(stem))
  }

  /** The key `natural_sort_key` gives a path: the key of the stem of its name. */
  function KeyOf(p: Path): SortKey
  {
    NaturalKey(Stem(Name(p)))
  }

  /** `natural_sort_key`: the key of the stem of the path's name. */
  method NaturalSortKey(path: Path) returns (key: SortKey)
    ensures key == KeyOf(path)
  {
    key := StemKey(Stem(Name(path)));
  }

  /** `natural_sort_key` on a stem: its parts, or ('',) when there are none. */
  method StemKey(s: string) returns (key: SortKey)
    ensures key == NaturalKey(s)
  {
    var parts := StemParts(s);
    assert |s| > 0 ==> |Runs(s)| > 0;
    if |parts| == 0 {
      parts := [Word("")];
    }
    key := parts;
  }

  /** Walks the stem run by run and appends one key part per run. */
  method StemParts(s: string) returns (parts: seq<KeyPart>)
    ensures parts == PartsOf(Runs(s))
  {
    parts := [];
    var i := 0;
    assert s[0..] == s;
    while i < |s|
      invariant 0 <= i <= |s|
      invariant parts + PartsOf(Runs(s[i..])) == PartsOf(Runs(s))
    {
      var part, j := NextPart(s, i);
      ShiftFirst(parts, part, PartsOf(Runs(s[j..])));
      parts := parts + [part];
      i := j;
    }
    assert s[|s|..] == [] && PartsOf(Runs(s[|s|..])) == [];
  }

  /** Moving the first element of the rest onto the end of the part done keeps the whole. */
  lemma ShiftFirst<T>(done: seq<T>, x: T, rest: seq<T>)
    ensures (done + [x]) + rest == done + ([x] + rest)
  {
  }

  /** Scans the run that starts at `i` up to its end `j` and gives its key part. */
  method NextPart(s: string, i: nat) returns (part: KeyPart, j: nat)
    requires i < |s|
    ensures i < j <= |s|
    ensures PartsOf(Runs(s[i..])) == [part] + PartsOf(Runs(s[j..]))
  {
    j := i + 1;
    while j < |s| && IsDigit(s[j]) == IsDigit(s[i])
      invariant i < j <= |s|
      invariant forall k :: i <= k < j ==> IsDigit(s[k]) == IsDigit(s[i])
    {
      j := j + 1;
    }
    RunsStep(s, i, j);
    if IsDigit(s[i]) {
      part := Num(DigitsValue(s[i..j]));
    } else {
      part := Word(Lower(s[i..j]));
    }
  }

  /** A maximal run found by scanning from `i` to `j` is the first of the runs of `s[i..]`. */
  lemma RunsStep(s: string, i: nat, j: nat)
    requires i < j <= |s|
    requires forall k :: i <= k < j ==> IsDigit(s[k]) == IsDigit(s[i])
    requires j < |s| ==> IsDigit(s[j]) != IsDigit(s[i])
    ensures AllDigits(s[i..j]) <==> IsDigit(s[i])
    ensures PartsOf(Runs(s[i..])) == [PartOf(s[i..j])] + PartsOf(Runs(s[j..]))
  {
    var t := s[i..];
    RunLengthIs(t, j - i);
    assert t[..j - i] == s[i..j];
    assert t[j - i..] == s[j..];
  }

  lemma {:induction false} RunLengthIs(t: string, n: nat)
    requires 0 < n <= |t|
    requires forall k :: 0 <= k < n ==> IsDigit(t[k]) == IsDigit(t[0])
    requires n < |t| ==> IsDigit(t[n]) != IsDigit(t[0])
    ensures RunLength(t) == n
  {
    if n > 1 {
      assert IsDigit(t[1]) == IsDigit(t[0]);
      RunLengthIs(t[1..], n - 1);
    }
  }

  /** Neighbouring parts of a key alternate between numbers and words, and the first is a number exactly when the stem starts with a digit. */
  lemma NaturalKeyAlternates(stem: string)
    ensures |NaturalKey(stem)| > 0
    ensures NaturalKey(stem)[0].Num? <==> |stem| > 0 && IsDigit(stem[0])
    ensures forall i :: 0 <= i < |NaturalKey(stem)| - 1 ==> NaturalKey(stem)[i].Num? != NaturalKey(stem)[i + 1].Num?
  {
    if |stem| > 0 {
      RunsFacts(stem);
      var runs := Runs(stem);
      forall i | 0 <= i < |runs|
        ensures PartOf(runs[i]).Num? <==> DigitRun(runs[i])
      {
        HomogeneousDigits(runs[i]);
      }
    }
  }

  lemma HomogeneousDigits(run: string)
    requires Homogeneous(run)
    ensures AllDigits(run) <==> IsDigit(run[0])
  {
  }

  /** Case does not matter: a stem and its lower-cased form have the same key. */
  lemma {:induction false} NaturalKeyIgnoresCase(stem: string)
    ensures NaturalKey(Lower(stem)) == NaturalKey(stem)
    decreases |stem|
  {
    if |stem| > 0 {
      var n := RunLength(stem);
      var low := Lower(stem);
      RunLengthIs(low, n);
      assert low[..n] == Lower(stem[..n]);
      assert low[n..] == Lower(stem[n..]);
      LowerPart(stem[..n]);
      NaturalKeyIgnoresCase(stem[n..]);
      assert Runs(low) == [low[..n]] + Runs(low[n..]);
      assert Runs(stem) == [stem[..n]] + Runs(stem[n..]);
      if |stem[n..]| == 0 {
        assert low[n..] == [];
      }
    }
  }

  lemma LowerPart(run: string)
    ensures PartOf(Lower(run)) == PartOf(run)
  {
    if |run| > 0 && AllDigits(run) {
      assert Lower(run) == run;
    } else {
      assert AllDigits(Lower(run)) <==> AllDigits(run);
      assert Lower(Lower(run)) == Lower(run);
    }
  }

  // ---------------------------------------------------------------------
  // extract_number

  /** `extract_number`: every digit run of the stem as an int, or (0,) when there is none. */
  function ExtractNumber(filename: string): (r: seq<nat>)
    ensures |r| > 0
  {
    var stem := if Contains(filename, ".") then Stem(filename) else filename;
    var numbers := NumbersOf(Runs(stem));
    if |numbers| > 0 then numbers else [0]
  }

  function NumbersOf(runs: seq<string>): seq<nat>
  {
    if |runs| == 0 then []
    else if |runs[0]| > 0 && AllDigits(runs[0]) then [DigitsValue(runs[0])] + NumbersOf(runs[1..])
    else NumbersOf(runs[1..])
  }

  function NumbersOfKey(key: SortKey): seq<nat>
  {
    if |key| == 0 then [] else (if key[0].Num? then [key[0].n] else []) + NumbersOfKey(key[1..])
  }

  /** The numbers `extract_number` reads are the number parts of the natural sort key, in order. */
  lemma ExtractNumberMatchesKey(filename: string)
    ensures NumbersOfKey(NaturalKey(Stem(filename))) == (if ExtractNumber(filename) == [0] && NumbersOfKey(NaturalKey(Stem(filename))) == [] then [] else ExtractNumber(filename))
  {
    var stem := Stem(filename);
    assert !Contains(filename, ".") ==> stem == filename by {
      if !Contains(filename, ".") && SuffixStart(filename).Some? {
        var i := SuffixStart(filename).value;
        FindFirstChar(filename, '.', i);
      }
    }
    NumbersOfParts(Runs(stem));
    if |stem| == 0 {
      assert Runs(stem) == [];
    }
  }

  lemma FindFirstChar(s: string, c: char, i: nat)
    requires i < |s| && s[i] == c
    ensures Find(s, [c]).Some?
  {
    var k :| 0 <= k <= i && s[k] == c && forall j :: 0 <= j < k ==> s[j] != c by {
      FirstOccurrence(s, c, i);
    }
    forall j | 0 <= j < k
      ensures !MatchAt(s, [c], j)
    {
      assert s[j..j + 1] == [s[j]];
    }
    assert s[k..k + 1] == [c];
    FindFirst(s, [c], k);
  }

  lemma {:induction false} FirstOccurrence(s: string, c: char, i: nat)
    requires i < |s| && s[i] == c
    ensures exists k :: 0 <= k <= i && s[k] == c && forall j :: 0 <= j < k ==> s[j] != c
    decreases i
  {
    if exists j :: 0 <= j < i && s[j] == c {
      var j :| 0 <= j < i && s[j] == c;
      FirstOccurrence(s, c, j);
    } else {
      assert forall j :: 0 <= j < i ==> s[j] != c;
    }
  }

  lemma {:induction false} NumbersOfParts(runs: seq<string>)
    ensures NumbersOfKey(PartsOf(runs)) == NumbersOf(runs)
  {
    if |runs| > 0 {
      NumbersOfParts(runs[1..]);
      assert PartsOf(runs)[1..] == PartsOf(runs[1..]);
    }
  }

  // ---------------------------------------------------------------------
  // Ordering of keys: Python's `<` on tuples of ints and strs.

  /** `a < b` on str: code-point lexicographic order. */
  function StrLess(a: string, b: string): bool
  {
    if |a| == 0 then |b| > 0
    else if |b| == 0 then false
    else if a[0] != b[0] then a[0] < b[0]
    else StrLess(a[1..], b[1..])
  }

  /** `x < y` on two key parts; None where Python raises TypeError (an int against a str). */
  function PartLess(x: KeyPart, y: KeyPart): Option<bool>
  {
    match (x, y)
    case (Num(m), Num(n)) => Some(m < n)
    case (Word(v), Word(w)) => Some(StrLess(v, w))
    case _ => None
  }

  /** `a < b` on tuples: the first position where they differ decides; else the shorter is less. */
  function KeyLess(a: SortKey, b: SortKey): Option<bool>
  {
    if |a| == 0 || |b| == 0 then Some(|a| < |b|)
    else if a[0] != b[0] then PartLess(a[0], b[0])
    else KeyLess(a[1..], b[1..])
  }

  predicate Comparable(a: SortKey, b: SortKey)
  {
    KeyLess(a, b).Some?
  }

  lemma {:induction false} StrLessStrict(a: string, b: string)
    ensures !(StrLess(a, b) && StrLess(b, a))
    ensures a != b ==> StrLess(a, b) || StrLess(b, a)
    ensures !StrLess(a, a)
  {
    if |a| > 0 && |b| > 0 && a[0] == b[0] {
      StrLessStrict(a[1..], b[1..]);
      if a != b {
        assert a == [a[0]] + a[1..] && b == [b[0]] + b[1..];
      }
    }
    if |a| > 0 {
      StrLessStrict(a[1..], a[1..]);
    }
  }

  lemma {:induction false} StrLessTrans(a: string, b: string, c: string)
    requires StrLess(a, b) && StrLess(b, c)
    ensures StrLess(a, c)
  {
    if |a| > 0 && |b| > 0 && |c| > 0 && a[0] == b[0] && b[0] == c[0] {
      StrLessTrans(a[1..], b[1..], c[1..]);
    }
  }

  lemma {:induction false} KeyLessStrict(a: SortKey, b: SortKey)
    ensures KeyLess(a, b).Some? <==> KeyLess(b, a).Some?
    ensures !(KeyLess(a, b) == Some(true) && KeyLess(b, a) == Some(true))
    ensures KeyLess(a, b).Some? && a != b ==> KeyLess(a, b) == Some(true) || KeyLess(b, a) == Some(true)
    ensures KeyLess(a, a) == Some(false)
  {
    if |a| > 0 && |b| > 0 {
      if a[0] != b[0] {
        match (a[0], b[0])
        case (Word(v), Word(w)) => StrLessStrict(v, w);
        case _ =>
      } else {
        KeyLessStrict(a[1..], b[1..]);
        if a != b {
          assert a == [a[0]] + a[1..] && b == [b[0]] + b[1..];
        }
      }
    }
    if |a| > 0 {
      KeyLessStrict(a[1..], a[1..]);
    }
  }

  lemma {:induction false} KeyLessTrans(a: SortKey, b: SortKey, c: SortKey)
    requires KeyLess(a, b) == Some(true) && KeyLess(b, c) == Some(true)
    ensures KeyLess(a, c) == Some(true)
  {
    if |a| > 0 && |b| > 0 && |c| > 0 {
      if a[0] == b[0] && b[0] == c[0] {
        KeyLessTrans(a[1..], b[1..], c[1..]);
      } else if a[0] != b[0] && b[0] != c[0] {
        match (a[0], b[0], c[0])
        case (Word(u), Word(v), Word(w)) =>
          StrLessTrans(u, v, w);
          StrLessStrict(u, w);
        case (Num(_), Num(_), Num(_)) =>
      }
    }
  }

  /** Keys of two stems can be compared exactly when both stems start with a digit or neither does. */
  lemma StemsComparable(s: string, t: string)
    ensures Comparable(NaturalKey(s), NaturalKey(t)) <==> ((|s| > 0 && IsDigit(s[0])) == (|t| > 0 && IsDigit(t[0])))
  {
    NaturalKeyAlternates(s);
    NaturalKeyAlternates(t);
    var a, b := NaturalKey(s), NaturalKey(t);
    if a[0].Num? == b[0].Num? {
      AlternatingComparable(a, b);
    } else {
      assert a[0] != b[0];
    }
  }

  predicate Alternating(k: SortKey)
  {
    forall i :: 0 <= i < |k| - 1 ==> k[i].Num? != k[i + 1].Num?
  }

  lemma {:induction false} AlternatingComparable(a: SortKey, b: SortKey)
    requires Alternating(a) && Alternating(b)
    requires |a| > 0 && |b| > 0 && a[0].Num? == b[0].Num?
    ensures Comparable(a, b)
  {
    if a[0] == b[0] && |a| > 1 && |b| > 1 {
      AlternatingComparable(a[1..], b[1..]);
    }
  }

  // ---------------------------------------------------------------------
  // sort_files: a stable sort by the natural key. The sort is stated for any
  // key function and used with KeyOf.

  predicate AllComparable(files: seq<Path>, key: Path -> SortKey)
  {
    forall i, j :: 0 <= i < |files| && 0 <= j < |files| ==> Comparable(key(files[i]), key(files[j]))
  }

  /** `y` is not ordered before `x`: the place where a stable insertion of `x` stops. */
  predicate NotBefore(y: Path, x: Path, key: Path -> SortKey)
  {
    KeyLess(key(y), key(x)) == Some(false)
  }

  /** Puts `x` before the first element that does not sort before it. */
  function Insert(x: Path, t: seq<Path>, key: Path -> SortKey): (r: seq<Path>)
    ensures multiset(r) == multiset(t) + multiset{x}
  {
    if |t| == 0 then [x]
    else if NotBefore(t[0], x, key) then [x] + t
    else
      assert t == [t[0]] + t[1..];
      [t[0]] + Insert(x, t[1..], key)
  }

  /** Stable insertion sort: each element goes in front of the equal elements that follow it in the input. */
  function SortByKey(files: seq<Path>, key: Path -> SortKey): (r: seq<Path>)
    ensures multiset(r) == multiset(files)
  {
    if |files| == 0 then []
    else
      assert files == [files[0]] + files[1..];
      Insert(files[0], SortByKey(files[1..], key), key)
  }

  /**
   * `sorted(files, key=natural_sort_key)`; None where Python raises TypeError.
   * Keys of one kind (stems starting with a digit, or not) always compare, so
   * an error arises only when both kinds occur; and then every comparison sort
   * must compare some key of one kind with some key of the other, since the
   * comparisons inside each kind cannot tell it how to interleave the two.
   */
  function SortFiles(files: seq<Path>): Option<seq<Path>>
  {
    if AllComparable(files, KeyOf) then Some(SortByKey(files, KeyOf)) else None
  }

  predicate Sorted(s: seq<Path>, key: Path -> SortKey)
  {
    forall i, j :: 0 <= i < j < |s| ==> NotBefore(s[j], s[i], key)
  }

  lemma {:induction false} InsertSorted(x: Path, t: seq<Path>, key: Path -> SortKey)
    requires Sorted(t, key)
    requires forall k :: 0 <= k < |t| ==> Comparable(key(t[k]), key(x))
    ensures Sorted(Insert(x, t, key), key)
  {
    if |t| > 0 {
      KeyLessStrict(key(t[0]), key(x));
      if NotBefore(t[0], x, key) {
        var r := [x] + t;
        forall i, j | 0 <= i < j < |r|
          ensures NotBefore(r[j], r[i], key)
        {
          if i == 0 && j > 1 {
            NotBeforeTrans(key(x), key(t[0]), key(t[j - 1]));
          }
        }
      } else {
        assert Comparable(key(t[0]), key(x));
        var less, back := KeyLess(key(t[0]), key(x)), KeyLess(key(x), key(t[0]));
        assert less == Some(less.value) && less.value;
        assert back == Some(back.value) && !back.value;
        InsertSorted(x, t[1..], key);
        HeadBeforeInserted(x, t, key);
        SortedCons(t[0], Insert(x, t[1..], key), key);
      }
    }
  }

  /** The head of a sorted list that `x` does not precede stays in front of everything after inserting `x` into the tail. */
  lemma HeadBeforeInserted(x: Path, t: seq<Path>, key: Path -> SortKey)
    requires |t| > 0 && Sorted(t, key) && NotBefore(x, t[0], key)
    ensures forall j :: 0 <= j < |Insert(x, t[1..], key)| ==> NotBefore(Insert(x, t[1..], key)[j], t[0], key)
  {
    var u := Insert(x, t[1..], key);
    forall j | 0 <= j < |u|
      ensures NotBefore(u[j], t[0], key)
    {
      assert u[j] in multiset(u);
      assert u[j] in multiset(t[1..]) + multiset{x};
      if u[j] != x {
        assert u[j] in t[1..];
        var k :| 0 <= k < |t[1..]| && t[1..][k] == u[j];
        assert t[k + 1] == u[j];
      }
    }
  }

  /** A sorted list stays sorted with an element in front that everything else does not precede. */
  lemma SortedCons(h: Path, u: seq<Path>, key: Path -> SortKey)
    requires Sorted(u, key) && forall j :: 0 <= j < |u| ==> NotBefore(u[j], h, key)
    ensures Sorted([h] + u, key)
  {
    var r := [h] + u;
    forall i, j | 0 <= i < j < |r|
      ensures NotBefore(r[j], r[i], key)
    {
      if i == 0 {
        assert r[j] == u[j - 1];
      } else {
        assert r[i] == u[i - 1] && r[j] == u[j - 1];
      }
    }
  }

  /** "Not before" is transitive over keys that compare. */
  lemma NotBeforeTrans(ka: SortKey, kb: SortKey, kc: SortKey)
    requires KeyLess(kb, ka) == Some(false) && KeyLess(kc, kb) == Some(false)
    requires Comparable(kc, ka)
    ensures KeyLess(kc, ka) == Some(false)
  {
    KeyLessStrict(ka, kb);
    KeyLessStrict(kb, kc);
    KeyLessStrict(ka, kc);
    if KeyLess(kc, ka) == Some(true) {
      if ka == kb {
      } else if kb == kc {
      } else {
        KeyLessTrans(kc, ka, kb);
      }
    }
  }

  /** The sort returns a permutation of its input, ordered by key. */
  lemma {:induction false} SortByKeySorted(files: seq<Path>, key: Path -> SortKey)
    requires AllComparable(files, key)
    ensures Sorted(SortByKey(files, key), key) && multiset(SortByKey(files, key)) == multiset(files)
  {
    if |files| > 0 {
      var rest := files[1..];
      ComparableTail(files, key);
      SortByKeySorted(rest, key);
      var t := SortByKey(rest, key);
      ComparableWithHead(files, t, key);
      InsertSorted(files[0], t, key);
    }
  }

  lemma ComparableTail(files: seq<Path>, key: Path -> SortKey)
    requires |files| > 0 && AllComparable(files, key)
    ensures AllComparable(files[1..], key)
  {
    var rest := files[1..];
    forall i, j | 0 <= i < |rest| && 0 <= j < |rest|
      ensures Comparable(key(rest[i]), key(rest[j]))
    {
      assert rest[i] == files[i + 1] && rest[j] == files[j + 1];
    }
  }

  /** A rearrangement of the tail compares with the head. */
  lemma ComparableWithHead(files: seq<Path>, t: seq<Path>, key: Path -> SortKey)
    requires |files| > 0 && AllComparable(files, key) && multiset(t) == multiset(files[1..])
    ensures forall k :: 0 <= k < |t| ==> Comparable(key(t[k]), key(files[0]))
  {
    forall k | 0 <= k < |t|
      ensures Comparable(key(t[k]), key(files[0]))
    {
      assert t[k] in multiset(files[1..]);
      var m :| 1 <= m < |files| && files[m] == t[k];
    }
  }

  /** The elements whose key is `k`, in order. */
  function WithKey(s: seq<Path>, k: SortKey, key: Path -> SortKey): seq<Path>
  {
    if |s| == 0 then [] else (if key(s[0]) == k then [s[0]] else []) + WithKey(s[1..], k, key)
  }

  lemma {:induction false} InsertWithKey(x: Path, t: seq<Path>, k: SortKey, key: Path -> SortKey)
    ensures WithKey(Insert(x, t, key), k, key) == (if key(x) == k then [x] else []) + WithKey(t, k, key)
  {
    if |t| > 0 && !NotBefore(t[0], x, key) {
      InsertWithKey(x, t[1..], k, key);
      var u := Insert(x, t[1..], key);
      assert ([t[0]] + u)[1..] == u;
      if key(t[0]) == k && key(x) == k {
        KeyLessStrict(k, k);
      }
    } else if |t| > 0 {
      assert ([x] + t)[1..] == t;
    }
  }

  /** Stability: elements with equal keys keep their input order. */
  lemma {:induction false} SortByKeyStable(files: seq<Path>, k: SortKey, key: Path -> SortKey)
    ensures WithKey(SortByKey(files, key), k, key) == WithKey(files, k, key)
  {
    if |files| > 0 {
      SortByKeyStable(files[1..], k, key);
      InsertWithKey(files[0], SortByKey(files[1..], key), k, key);
    }
  }

  /** sort_files fails exactly when one stem starts with a digit and another does not. */
  lemma SortFilesFails(files: seq<Path>)
    ensures SortFiles(files).None? <==>
      exists i, j :: 0 <= i < |files| && 0 <= j < |files| && StartsWithDigit(Stem(Name(files[i]))) != StartsWithDigit(Stem(Name(files[j])))
  {
    assert SortFiles(files).None? <==> !AllComparable(files, KeyOf);
    forall i, j | 0 <= i < |files| && 0 <= j < |files|
      ensures Comparable(KeyOf(files[i]), KeyOf(files[j])) <==> StartsWithDigit(Stem(Name(files[i]))) == StartsWithDigit(Stem(Name(files[j])))
    {
      StemsComparable(Stem(Name(files[i])), Stem(Name(files[j])));
    }
  }

  predicate StartsWithDigit(s: string)
  {
    |s| > 0 && IsDigit(s[0])
  }

  // ---------------------------------------------------------------------
  // validate_sequence

  /** The outcome of `validate_sequence`; `Verdict` gives the (is_valid, message) pair. */
  datatype SequenceCheck = SequenceOk | EmptyList | DuplicateNumbers(dups: seq<nat>) | MissingNumbers(missing: seq<nat>)

  function FormatNatList(xs: seq<nat>): string
  {
    "[" + Join(DigitStrings(xs), ", ") + "]"
  }

  function DigitStrings(xs: seq<nat>): (r: seq<string>)
    ensures |r| == |xs|
  {
    if |xs| == 0 then [] else [NatToDigits(xs[0])] + DigitStrings(xs[1..])
  }

  function Verdict(c: SequenceCheck): (bool, Option<string>)
  {
    match c
    case SequenceOk => (true, None)
    case EmptyList => (false, Some("文件列表为空"))
    case DuplicateNumbers(d) => (false, Some("发现重复的序号: " + FormatNatList(d)))
    case MissingNumbers(m) => (false, Some("序列不连续，缺失序号: " + FormatNatList(m)))
  }

  /** The leading number of a file: the first number `extract_number` finds in its name. */
  function LeadingNumber(p: Path): nat
  {
    ExtractNumber(Name(p))[0]
  }

  function Elems(s: seq<nat>): set<nat>
  {
    set x | x in s
  }

  /** The values that occur more than once. */
  function Repeated(s: seq<nat>): set<nat>
  {
    set x | x in s && multiset(s)[x] >= 2
  }

  function RangeSet(start: nat, n: nat): set<nat>
  {
    Elems(RangeSeq(start, n))
  }

  predicate Increasing(s: seq<nat>)
  {
    forall i, j :: 0 <= i < j < |s| ==> s[i] < s[j]
  }

  predicate NonDecreasing(s: seq<nat>)
  {
    forall i, j :: 0 <= i < j < |s| ==> s[i] <= s[j]
  }

  function MinOf(s: seq<nat>): (m: nat)
    requires |s| > 0
    ensures m in s && forall x :: x in s ==> m <= x
  {
    if |s| == 1 then s[0]
    else
      assert s == [s[0]] + s[1..];
      var m := MinOf(s[1..]);
      if s[0] <= m then s[0] else m
  }

  function InsertNat(x: nat, s: seq<nat>): (r: seq<nat>)
    requires NonDecreasing(s)
    ensures NonDecreasing(r) && multiset(r) == multiset(s) + multiset{x}
  {
    if |s| == 0 then [x]
    else if x <= s[0] then [x] + s
    else
      assert s == [s[0]] + s[1..];
      var t := InsertNat(x, s[1..]);
      InsertNatHead(x, s, t);
      [s[0]] + t
  }

  lemma InsertNatHead(x: nat, s: seq<nat>, t: seq<nat>)
    requires |s| > 0 && s[0] < x && NonDecreasing(s) && NonDecreasing(t)
    requires multiset(t) == multiset(s[1..]) + multiset{x}
    ensures NonDecreasing([s[0]] + t)
  {
    forall j | 0 <= j < |t|
      ensures s[0] <= t[j]
    {
      assert t[j] in multiset(t);
      if t[j] != x {
        assert t[j] in multiset(s[1..]);
        var k :| 1 <= k < |s| && s[k] == t[j];
      }
    }
  }

  /** `sorted()` on a list of ints. */
  function SortNats(s: seq<nat>): (r: seq<nat>)
    ensures NonDecreasing(r) && multiset(r) == multiset(s)
  {
    if |s| == 0 then []
    else
      assert s == [s[0]] + s[1..];
      InsertNat(s[0], SortNats(s[1..]))
  }

  /** `list(range(start, start + n))`. */
  function RangeSeq(start: nat, n: nat): (r: seq<nat>)
    ensures |r| == n && forall i :: 0 <= i < n ==> r[i] == start + i
  {
    if n == 0 then [] else RangeSeq(start, n - 1) + [start + n - 1]
  }

  /**
   * `validate_sequence`: an empty list, repeated leading numbers and gaps are
   * reported in that order of priority; the reported lists are sorted.
   */
  method ValidateSequence(files: seq<Path>) returns (r: SequenceCheck)
    ensures r == EmptyList <==> |files| == 0
    ensures r.DuplicateNumbers? <==> |files| > 0 && Repeated(LeadingNumbers(files)) != {}
    ensures r.DuplicateNumbers? ==> Increasing(r.dups) && Elems(r.dups) == Repeated(LeadingNumbers(files))
    ensures r.MissingNumbers? ==> |r.missing| > 0 && Increasing(r.missing)
    ensures r.MissingNumbers? ==>
      Elems(r.missing) == RangeSet(MinOf(LeadingNumbers(files)), |files|) - Elems(LeadingNumbers(files))
    ensures r == SequenceOk <==>
      |files| > 0 && Repeated(LeadingNumbers(files)) == {}
      && Elems(LeadingNumbers(files)) == RangeSet(MinOf(LeadingNumbers(files)), |files|)
  {
    if |files| == 0 {
      return EmptyList;
    }
    var numbers: seq<nat> := [];
    var i := 0;
    while i < |files|
      invariant 0 <= i <= |files|
      invariant numbers == LeadingNumbers(files[..i])
    {
      LeadingNumbersSnoc(files, i);
      numbers := numbers + [LeadingNumber(files[i])];
      i := i + 1;
    }
    assert files[..|files|] == files;
    r := CheckNumbers(numbers);
  }

  /** The checks `validate_sequence` runs on the list of leading numbers. */
  method CheckNumbers(numbers: seq<nat>) returns (r: SequenceCheck)
    requires |numbers| > 0
    ensures r != EmptyList
    ensures r.DuplicateNumbers? <==> Repeated(numbers) != {}
    ensures r.DuplicateNumbers? ==> Increasing(r.dups) && Elems(r.dups) == Repeated(numbers)
    ensures r.MissingNumbers? ==> |r.missing| > 0 && Increasing(r.missing)
    ensures r.MissingNumbers? ==> Elems(r.missing) == RangeSet(MinOf(numbers), |numbers|) - Elems(numbers)
    ensures r == SequenceOk <==> Repeated(numbers) == {} && Elems(numbers) == RangeSet(MinOf(numbers), |numbers|)
  {
    var seen, duplicates := CollectDuplicates(numbers);
    if |duplicates| > 0 {
      var sortedDups := SortNats(duplicates);
      DistinctSortedIncreasing(duplicates, sortedDups);
      MultisetElems(duplicates, sortedDups);
      assert duplicates[0] in Elems(duplicates);
      return DuplicateNumbers(sortedDups);
    }
    var sortedNumbers := SortNats(numbers);
    var start := sortedNumbers[0];
    SortedHeadIsMin(numbers, sortedNumbers);
    var expected := RangeSeq(start, |sortedNumbers|);
    if sortedNumbers != expected {
      var missing := MissingFrom(expected, seen);
      MissingFromFacts(expected, seen);
      if |missing| > 0 {
        RangeSetMembers(start, |numbers|);
        assert missing[0] in RangeSet(start, |numbers|) - Elems(numbers);
        return MissingNumbers(missing);
      }
      MissingEmpty(numbers, start, expected, seen);
    } else {
      MultisetElems(numbers, sortedNumbers);
    }
    return SequenceOk;
  }

  /** The duplicate-collecting loop: `seen` and the repeated values in order of their second occurrence. */
  method CollectDuplicates(numbers: seq<nat>) returns (seen: set<nat>, duplicates: seq<nat>)
    ensures seen == Elems(numbers)
    ensures Elems(duplicates) == Repeated(numbers)
    ensures forall a, b :: 0 <= a < b < |duplicates| ==> duplicates[a] != duplicates[b]
  {
    seen := {};
    duplicates := [];
    var i := 0;
    while i < |numbers|
      invariant 0 <= i <= |numbers|
      invariant seen == Elems(numbers[..i])
      invariant Elems(duplicates) == Repeated(numbers[..i])
      invariant forall a, b :: 0 <= a < b < |duplicates| ==> duplicates[a] != duplicates[b]
    {
      var n := numbers[i];
      RepeatedSnoc(numbers[..i], n);
      assert numbers[..i + 1] == numbers[..i] + [n];
      if n in seen {
        if n !in duplicates {
          duplicates := duplicates + [n];
        }
      } else {
        seen := seen + {n};
      }
      i := i + 1;
    }
    assert numbers[..|numbers|] == numbers;
  }

  lemma SortedHeadIsMin(s: seq<nat>, t: seq<nat>)
    requires |s| > 0 && NonDecreasing(t) && multiset(t) == multiset(s)
    ensures |t| > 0 && t[0] == MinOf(s)
  {
    assert |t| == |multiset(t)| == |s|;
    assert t[0] in multiset(s);
    assert t[0] in s;
    var m := MinOf(s);
    assert m in multiset(t);
    var k :| 0 <= k < |t| && t[k] == m;
    assert t[0] <= t[k];
  }

  /** `range(start, start + n)` holds exactly the numbers from start below start + n, ascending. */
  lemma RangeSetMembers(start: nat, n: nat)
    ensures forall x :: x in RangeSet(start, n) <==> start <= x < start + n
    ensures Increasing(RangeSeq(start, n))
  {
    var r := RangeSeq(start, n);
    forall x: nat | start <= x < start + n
      ensures x in RangeSet(start, n)
    {
      assert r[x - start] == x;
    }
  }

  /** The branch where sorted_numbers differs from the range but nothing is missing cannot be taken. */
  lemma MissingEmpty(numbers: seq<nat>, start: nat, expected: seq<nat>, seen: set<nat>)
    requires |numbers| > 0 && Repeated(numbers) == {} && seen == Elems(numbers)
    requires expected == RangeSeq(start, |numbers|)
    requires Elems(expected) - seen == {}
    ensures Elems(numbers) == RangeSet(start, |numbers|)
  {
    NoRepeatsCard(numbers);
    RangeCard(start, |numbers|);
    forall x | x in Elems(expected)
      ensures x in seen
    {
      assert x !in Elems(expected) - seen;
    }
    SubsetSameSize(RangeSet(start, |numbers|), Elems(numbers));
  }

  function LeadingNumbers(files: seq<Path>): (r: seq<nat>)
    ensures |r| == |files|
  {
    if |files| == 0 then [] else LeadingNumbers(files[..|files| - 1]) + [LeadingNumber(files[|files| - 1])]
  }

  lemma LeadingNumbersSnoc(files: seq<Path>, i: nat)
    requires i < |files|
    ensures LeadingNumbers(files[..i + 1]) == LeadingNumbers(files[..i]) + [LeadingNumber(files[i])]
  {
    assert files[..i + 1][..i] == files[..i];
  }

  /** The members of `expected` not in `seen`, keeping the order of `expected`. */
  function MissingFrom(expected: seq<nat>, seen: set<nat>): seq<nat>
  {
    if |expected| == 0 then []
    else if expected[0] in seen then MissingFrom(expected[1..], seen)
    else [expected[0]] + MissingFrom(expected[1..], seen)
  }

  lemma {:induction false} MissingFromFacts(expected: seq<nat>, seen: set<nat>)
    ensures Elems(MissingFrom(expected, seen)) == Elems(expected) - seen
    ensures Increasing(expected) ==> Increasing(MissingFrom(expected, seen))
    ensures forall x :: x in MissingFrom(expected, seen) ==> x in expected
  {
    if |expected| > 0 {
      var rest := expected[1..];
      MissingFromFacts(rest, seen);
      assert expected == [expected[0]] + rest;
      assert Elems(expected) == {expected[0]} + Elems(rest);
      var r := MissingFrom(expected, seen);
      if expected[0] !in seen {
        assert Elems(r) == {expected[0]} + Elems(MissingFrom(rest, seen));
      }
      if Increasing(expected) {
        assert Increasing(rest);
        var r := MissingFrom(expected, seen);
        if expected[0] !in seen {
          forall j | 1 <= j < |r|
            ensures r[0] < r[j]
          {
            assert r[j] in MissingFrom(rest, seen);
            var k :| 0 <= k < |rest| && rest[k] == r[j];
            assert expected[k + 1] == r[j];
          }
        }
      }
    }
  }

  lemma RepeatedSnoc(s: seq<nat>, n: nat)
    ensures Repeated(s + [n]) == Repeated(s) + (if n in s then {n} else {})
  {
    assert multiset(s + [n]) == multiset(s) + multiset{n};
    assert forall x :: x in s + [n] <==> x in s || x == n;
  }

  lemma MultisetElems(s: seq<nat>, t: seq<nat>)
    requires multiset(s) == multiset(t)
    ensures Elems(s) == Elems(t)
  {
    assert forall x :: x in s <==> x in multiset(s);
    assert forall x :: x in t <==> x in multiset(t);
  }

  lemma DistinctSortedIncreasing(s: seq<nat>, t: seq<nat>)
    requires forall a, b :: 0 <= a < b < |s| ==> s[a] != s[b]
    requires NonDecreasing(t) && multiset(t) == multiset(s)
    ensures Increasing(t)
  {
    forall a, b | 0 <= a < b < |t|
      ensures t[a] < t[b]
    {
      if t[a] == t[b] {
        CountAtLeastTwo(t, a, b);
        DistinctCountOne(s, t[a]);
      }
    }
  }

  lemma CountAtLeastTwo(t: seq<nat>, a: nat, b: nat)
    requires a < b < |t| && t[a] == t[b]
    ensures multiset(t)[t[a]] >= 2
  {
    assert t == t[..a] + [t[a]] + t[a + 1..b] + [t[b]] + t[b + 1..];
    assert multiset(t) == multiset(t[..a]) + multiset{t[a]} + multiset(t[a + 1..b]) + multiset{t[b]} + multiset(t[b + 1..]);
  }

  lemma {:induction false} DistinctCountOne(s: seq<nat>, x: nat)
    requires forall a, b :: 0 <= a < b < |s| ==> s[a] != s[b]
    ensures multiset(s)[x] <= 1
  {
    if |s| > 0 {
      var u := s[..|s| - 1];
      assert s == u + [s[|s| - 1]];
      DistinctCountOne(u, x);
      if s[|s| - 1] == x {
        assert x !in u;
      }
    }
  }

  lemma NoRepeatsCard(s: seq<nat>)
    requires Repeated(s) == {}
    ensures |Elems(s)| == |s|
  {
    forall a, b | 0 <= a < b < |s|
      ensures s[a] != s[b]
    {
      assert s[a] !in Repeated(s);
      if s[a] == s[b] {
        CountAtLeastTwo(s, a, b);
      }
    }
    DistinctCard(s);
  }

  lemma {:induction false} DistinctCard(s: seq<nat>)
    requires forall a, b :: 0 <= a < b < |s| ==> s[a] != s[b]
    ensures |Elems(s)| == |s|
  {
    if |s| > 0 {
      var u := s[..|s| - 1];
      DistinctCard(u);
      assert Elems(s) == Elems(u) + {s[|s| - 1]};
      assert s[|s| - 1] !in Elems(u);
    }
  }

  lemma {:induction false} RangeCard(start: nat, n: nat)
    ensures |RangeSet(start, n)| == n
  {
    if n > 0 {
      RangeCard(start, n - 1);
      RangeNext(start, n);
    }
  }

  /** The range grows by its new last value, which it did not hold before. */
  lemma RangeNext(start: nat, n: nat)
    requires n > 0
    ensures RangeSet(start, n) == RangeSet(start, n - 1) + {start + n - 1}
    ensures start + n - 1 !in RangeSet(start, n - 1)
  {
    var before := RangeSeq(start, n - 1);
    assert RangeSeq(start, n) == before + [start + n - 1];
    forall x | x in RangeSet(start, n)
      ensures x in RangeSet(start, n - 1) + {start + n - 1}
    {
      assert x in before + [start + n - 1];
    }
    forall i | 0 <= i < |before|
      ensures before[i] != start + n - 1
    {
    }
  }

  lemma SubsetSameSize(a: set<nat>, b: set<nat>)
    requires a <= b && |a| == |b|
    ensures a == b
  {
    var d := b - a;
    assert a + d == b && a * d == {};
    assert |d| == 0;
    assert d == {};
  }
}
