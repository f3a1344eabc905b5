// `FileManager.get_unique_path` of file_manager.py: a path that is taken is
// replaced by the first free `stem_N.suffix` next to it.
module FileManager {
  import opened Results
  import opened Text
  import opened Paths

  /** `parent / f"{stem}_{k}{suffix}"`. */
  function Numbered(p: Path, k: nat): Path
  {
    Child(Parent(p), Stem(Name(p)) + "_" + NatToDigits(k) + Suffix(Name(p)))
  }

  /** Every candidate numbered 1 up to, but not including, `n` is taken. */
  predicate TakenBelow(fs: FileSystem, p: Path, n: nat)
  {
    forall k :: 1 <= k < n ==> fs.Exists(Numbered(p, k))
  }

  /**
   * The path `get_unique_path` returns: the path itself when it is free,
   * otherwise the first numbered candidate that is free.
   */
  function UniquePath(fs: FileSystem, p: Path): Path
  {
    if !fs.Exists(p) then p else FirstFree(fs, p, 1)
  }

  /** The first free candidate from `counter` on. It exists because the filesystem is finite and the candidates distinct. */
  function FirstFree(fs: FileSystem, p: Path, counter: nat): Path
    requires 1 <= counter && TakenBelow(fs, p, counter)
    decreases |fs.isDir.Keys| + 1 - counter
  {
    if !fs.Exists(Numbered(p, counter)) then Numbered(p, counter)
    else
      TakenNext(fs, p, counter);
      CandidatesCounted(fs, p, counter + 1);
      FirstFree(fs, p, counter + 1)
  }

  /** One more taken candidate extends the taken run by one. */
  lemma TakenNext(fs: FileSystem, p: Path, n: nat)
    requires TakenBelow(fs, p, n) && fs.Exists(Numbered(p, n))
    ensures TakenBelow(fs, p, n + 1)
  {
    var taken := (k: nat) => fs.Exists(Numbered(p, k));
    BelowNext(taken, n);
  }

  lemma BelowNext(holds: nat -> bool, n: nat)
    requires (forall k :: 1 <= k < n ==> holds(k)) && holds(n)
    ensures forall k :: 1 <= k < n + 1 ==> holds(k)
  {
  }

  /**
   * `get_unique_path`: the path itself when it is free, otherwise the first
   * numbered candidate that is free. The loop ends because the filesystem
   * holds finitely many entries and the candidates are pairwise distinct.
   */
  method GetUniquePath(fs: FileSystem, p: Path) returns (r: Path)
    ensures r == UniquePath(fs, p)
  {
    if !fs.Exists(p) {
      return p;
    }
    var counter := 1;
    while true
      invariant 1 <= counter
      invariant TakenBelow(fs, p, counter)
      invariant FirstFree(fs, p, counter) == FirstFree(fs, p, 1)
      decreases |fs.isDir.Keys| + 1 - counter
    {
      var newPath := Numbered(p, counter);
      if !fs.Exists(newPath) {
        return newPath;
      }
      TakenNext(fs, p, counter);
      CandidatesCounted(fs, p, counter + 1);
      counter := counter + 1;
    }
  }

  /**
   * The unique path is free and next to the requested one; it is the
   * requested path when that is free, and otherwise the numbered candidate
   * `k` for which every smaller candidate is taken.
   */
  lemma UniquePathFacts(fs: FileSystem, p: Path)
    ensures !fs.Exists(UniquePath(fs, p)) && Parent(UniquePath(fs, p)) == Parent(p)
    ensures !fs.Exists(p) ==> UniquePath(fs, p) == p
    ensures fs.Exists(p) ==> exists k :: 1 <= k && UniquePath(fs, p) == Numbered(p, k) && TakenBelow(fs, p, k)
  {
    if fs.Exists(p) {
      var k := FirstFreeFacts(fs, p, 1);
      NumberedName(p, k);
    }
  }

  /** The path chosen is free. */
  lemma UniquePathFree(fs: FileSystem, p: Path)
    ensures !fs.Exists(UniquePath(fs, p))
  {
    UniquePathFacts(fs, p);
  }

  /** The first free candidate from `counter` on is candidate `k`, free, with every one below it taken. */
  lemma {:induction false} FirstFreeFacts(fs: FileSystem, p: Path, counter: nat) returns (k: nat)
    requires 1 <= counter && TakenBelow(fs, p, counter)
    ensures counter <= k && FirstFree(fs, p, counter) == Numbered(p, k)
    ensures !fs.Exists(Numbered(p, k)) && TakenBelow(fs, p, k)
    decreases |fs.isDir.Keys| + 1 - counter
  {
    if fs.Exists(Numbered(p, counter)) {
      TakenNext(fs, p, counter);
      CandidatesCounted(fs, p, counter + 1);
      assert FirstFree(fs, p, counter) == FirstFree(fs, p, counter + 1);
      k := FirstFreeFacts(fs, p, counter + 1);
    } else {
      k := counter;
    }
  }

  /** Different counters give different candidates. */
  lemma NumberedInjective(p: Path, a: nat, b: nat)
    requires Numbered(p, a) == Numbered(p, b)
    ensures a == b
  {
    var stem, suffix := Stem(Name(p)) + "_", Suffix(Name(p));
    var x, y := stem + NatToDigits(a) + suffix, stem + NatToDigits(b) + suffix;
    assert x == Name(Numbered(p, a)) && y == Name(Numbered(p, b));
    assert |NatToDigits(a)| == |NatToDigits(b)|;
    assert NatToDigits(a) == x[|stem|..|x| - |suffix|];
    assert NatToDigits(b) == y[|stem|..|y| - |suffix|];
    NatToDigitsInjective(a, b);
  }

  /** The candidates numbered 1 up to, but not including, `n`. */
  function Candidates(p: Path, n: nat): set<Path>
  {
    set k | 1 <= k < n :: Numbered(p, k)
  }

  lemma {:induction false} CandidatesSize(p: Path, n: nat)
    requires n >= 1
    ensures |Candidates(p, n)| == n - 1
  {
    if n > 1 {
      CandidatesSize(p, n - 1);
      CandidatesNext(p, n - 1);
    } else {
      assert Candidates(p, n) == {};
    }
  }

  /** Counter `m` adds a candidate not among those below it. */
  lemma CandidatesNext(p: Path, m: nat)
    requires m >= 1
    ensures Candidates(p, m + 1) == Candidates(p, m) + {Numbered(p, m)}
    ensures Numbered(p, m) !in Candidates(p, m)
  {
    forall q
      ensures q in Candidates(p, m + 1) <==> q in Candidates(p, m) || q == Numbered(p, m)
    {
      if q in Candidates(p, m + 1) {
        var k :| 1 <= k < m + 1 && q == Numbered(p, k);
        if k < m {
          assert q in Candidates(p, m);
        }
      }
      if q in Candidates(p, m) {
        var k :| 1 <= k < m && q == Numbered(p, k);
        assert q in Candidates(p, m + 1);
      }
    }
    if Numbered(p, m) in Candidates(p, m) {
      var k :| 1 <= k < m && Numbered(p, k) == Numbered(p, m);
      NumberedInjective(p, k, m);
    }
  }

  /** Taken candidates are entries of the filesystem, so there are at most as many as it has entries. */
  lemma CandidatesCounted(fs: FileSystem, p: Path, n: nat)
    requires n >= 1 && TakenBelow(fs, p, n)
    ensures n - 1 <= |fs.isDir.Keys|
  {
    CandidatesSize(p, n);
    assert Candidates(p, n) <= fs.isDir.Keys by {
      forall q | q in Candidates(p, n)
        ensures q in fs.isDir
      {
        var k :| 1 <= k < n && q == Numbered(p, k);
        assert fs.Exists(Numbered(p, k));
      }
    }
    SubsetSize(Candidates(p, n), fs.isDir.Keys);
  }

  lemma SubsetSize<T>(a: set<T>, b: set<T>)
    requires a <= b
    ensures |a| <= |b|
  {
    assert b == a + (b - a);
  }

  /**
   * A numbered candidate keeps the parent and the suffix, and its stem is the
   * old stem with `_k` added; this fails only for a name ending in '.', whose
   * suffix is empty but whose candidate `name_k` has the suffix `._k`.
   */
  lemma NumberedKeepsSuffix(p: Path, k: nat)
    requires Name(p) == "" || Name(p)[|Name(p)| - 1] != '.'
    ensures Parent(Numbered(p, k)) == Parent(p)
    ensures Suffix(Name(Numbered(p, k))) == Suffix(Name(p))
    ensures Stem(Name(Numbered(p, k))) == Stem(Name(p)) + "_" + NatToDigits(k)
  {
    NumberedName(p, k);
    CounterHasNoDot(k);
    InsertBeforeSuffix(Name(p), "_" + NatToDigits(k));
  }

  lemma NumberedName(p: Path, k: nat)
    ensures Parent(Numbered(p, k)) == Parent(p)
    ensures Name(Numbered(p, k)) == Stem(Name(p)) + ("_" + NatToDigits(k)) + Suffix(Name(p))
  {
    assert Stem(Name(p)) + "_" + NatToDigits(k) == Stem(Name(p)) + ("_" + NatToDigits(k));
  }

  predicate NoDot(s: string)
  {
    forall j :: 0 <= j < |s| ==> s[j] != '.'
  }

  lemma CounterHasNoDot(k: nat)
    ensures NoDot("_" + NatToDigits(k))
  {
    var digits := NatToDigits(k);
    var extra := "_" + digits;
    forall j | 0 <= j < |extra|
      ensures extra[j] != '.'
    {
      if j > 0 {
        assert extra[j] == digits[j - 1];
      }
    }
  }

  lemma InsertBeforeSuffix(name: string, extra: string)
    requires name == "" || name[|name| - 1] != '.'
    requires |extra| > 0 && NoDot(extra)
    ensures Suffix(Stem(name) + extra + Suffix(name)) == Suffix(name)
    ensures Stem(Stem(name) + extra + Suffix(name)) == Stem(name) + extra
  {
    var s := Stem(name) + extra + Suffix(name);
    match SuffixStart(name)
    case Some(i) =>
      assert LastIndexOf(name, '.') == Some(i);
      assert s == name[..i] + extra + name[i..];
      LastIndexOfIs(s, '.', i + |extra|);
      assert SuffixStart(s) == Some(i + |extra|);
      assert s[i + |extra|..] == name[i..];
    case None =>
      assert s == name + extra;
      match LastIndexOf(name, '.')
      case None =>
        LastIndexOfNone(s, '.');
      case Some(j) =>
        assert j == 0;
        LastIndexOfIs(s, '.', 0);
  }

  lemma LastIndexOfIs(s: string, c: char, j: nat)
    requires j < |s| && s[j] == c && forall i :: j < i < |s| ==> s[i] != c
    ensures LastIndexOf(s, c) == Some(j)
  {
  }

  lemma LastIndexOfNone(s: string, c: char)
    requires forall i :: 0 <= i < |s| ==> s[i] != c
    ensures LastIndexOf(s, c) == None
  {
  }
}
