// scanner.py: the work units of a run are the directories under the drama root
// named `drama-` and four digits; for each, which of its `video/`, `srt/`,
// `merged/` and `cleared/` sub-folders exist (under `original/` or directly),
// and which units each stage accepts.
module Scanner {
  import opened Results
  import opened Text
  import opened Paths
  import opened Models
  import Sorter

  // ---------------------------------------------------------------------
  // The name pattern `^drama-\d{4}$`

  const Prefix := "drama-"

  /** `^drama-\d{4}` matches the first ten characters. */
  predicate HeadMatches(name: string)
  {
    |name| >= 10 && name[..6] == Prefix && AllDigits(name[6..10])
  }

  /** Python's `$` outside MULTILINE mode: at the end, or just before a newline that ends the string. */
  predicate DollarAt(s: string, i: nat)
  {
    i == |s| || (i + 1 == |s| && s[i] == '\n')
  }

  /** `DRAMA_DIR_PATTERN.match(name)` as the pattern is written. */
  predicate MatchesAsWritten(name: string)
  {
    HeadMatches(name) && DollarAt(name, 10)
  }

  /** A unit name as intended: `drama-` followed by exactly four digits and nothing else. */
  predicate IsDramaName(name: string)
  {
    HeadMatches(name) && |name| == 10
  }

  /** The unit name with number `n`. */
  function DramaName(n: nat): string
  {
    Prefix + FormatInt(n, 4)
  }

  /** The pattern as written accepts a unit name and also a unit name followed by one newline. */
  lemma MatchesAsWrittenCases(name: string)
    ensures MatchesAsWritten(name) <==>
      IsDramaName(name) || (|name| == 11 && name[10] == '\n' && IsDramaName(name[..10]))
  {
    if |name| == 11 {
      assert name[..10][..6] == name[..6] && name[..10][6..10] == name[6..10];
    }
  }

  /** The name that shows the difference: `drama-0001` with a newline after it. */
  lemma TrailingNewlineAccepted()
    ensures MatchesAsWritten("drama-0001\n") && !IsDramaName("drama-0001\n")
  {
    var name := "drama-0001\n";
    assert name[..6] == Prefix;
    assert name[6..10] == "0001";
  }

  /** The unit names are exactly `drama-0000` … `drama-9999`, one per number. */
  lemma DramaNames(name: string)
    ensures IsDramaName(name) <==> exists n :: 0 <= n < 10000 && name == DramaName(n)
  {
    if IsDramaName(name) {
      var digits := name[6..];
      assert digits == name[6..10];
      var n := DigitsValue(digits);
      FourDigitsBelow(digits);
      DramaNameOf(n);
      FixedWidthDigits(digits, DramaName(n)[6..]);
      assert name == Prefix + digits;
      assert name == DramaName(n);
    }
    forall n | 0 <= n < 10000 && name == DramaName(n)
      ensures IsDramaName(name)
    {
      DramaNameOf(n);
    }
  }

  /** `drama-` and the number zero-padded to four digits is a unit name that carries the number. */
  lemma DramaNameOf(n: nat)
    requires n < 10000
    ensures IsDramaName(DramaName(n)) && DigitsValue(DramaName(n)[6..]) == n
  {
    var digits := NatToDigits(n);
    assert Pow10(4) == 10000;
    NatToDigitsLength(n, 4);
    ZeroPadValue(digits, 4);
    NatToDigitsValue(n);
    var name := DramaName(n);
    assert name[6..] == ZeroPad(digits, 4);
    assert name[..6] == Prefix;
  }

  lemma FourDigitsBelow(s: string)
    requires |s| == 4 && AllDigits(s)
    ensures DigitsValue(s) < 10000
  {
    DigitsValueBound(s);
    assert Pow10(4) == 10000;
  }

  lemma {:induction false} DigitsValueBound(s: string)
    requires AllDigits(s)
    ensures DigitsValue(s) < Pow10(|s|)
  {
    if |s| > 0 {
      DigitsValueBound(s[..|s| - 1]);
    }
  }

  /** Digit strings of one length with one value are equal. */
  lemma {:induction false} FixedWidthDigits(a: string, b: string)
    requires AllDigits(a) && AllDigits(b) && |a| == |b| && DigitsValue(a) == DigitsValue(b)
    ensures a == b
  {
    if |a| > 0 {
      var n := |a| - 1;
      assert DigitValue(a[n]) == DigitsValue(a) % 10 && DigitValue(b[n]) == DigitsValue(b) % 10;
      assert DigitsValue(a[..n]) == DigitsValue(a) / 10 && DigitsValue(b[..n]) == DigitsValue(b) / 10;
      FixedWidthDigits(a[..n], b[..n]);
      assert a == a[..n] + [a[n]] && b == b[..n] + [b[n]];
    }
  }

  // ---------------------------------------------------------------------
  // One unit and the root scan

  /** `_check_subdirectory`: `<unit>/original/<sub>` is tried first, then `<unit>/<sub>`. */
  function CheckSubdirectory(fs: FileSystem, drama: Path, sub: string): (r: bool)
    ensures r <==> fs.IsDir(Child(Child(drama, "original"), sub)) || fs.IsDir(Child(drama, sub))
  {
    var nested := Child(Child(drama, "original"), sub);
    if fs.Exists(nested) && fs.IsDir(nested) then true
    else
      var direct := Child(drama, sub);
      fs.Exists(direct) && fs.IsDir(direct)
  }

  /** `_create_drama_directory`. */
  function CreateDramaDirectory(fs: FileSystem, p: Path): DramaDirectory
  {
    DramaDirectory(p, Name(p), CheckSubdirectory(fs, p, "video"), CheckSubdirectory(fs, p, "srt"),
                   CheckSubdirectory(fs, p, "merged"), CheckSubdirectory(fs, p, "cleared"))
  }

  function RootMissing(root: Path): string
  {
    "根目录不存在: " + ToString(root)
  }

  function RootNotADirectory(root: Path): string
  {
    "路径不是目录: " + ToString(root)
  }

  /** The directories among `items` whose names the pattern as written matches, in listing order. */
  function UnitPaths(fs: FileSystem, items: seq<Path>): (r: seq<Path>)
  {
    if |items| == 0 then []
    else
      var last := items[|items| - 1];
      UnitPaths(fs, items[..|items| - 1]) + (if fs.IsDir(last) && MatchesAsWritten(Name(last)) then [last] else [])
  }

  /** `d.name` as a sort key: Python orders the names as strings. */
  function NameKey(p: Path): Sorter.SortKey
  {
    [Sorter.Word(Name(p))]
  }

  /** The units for a list of paths. */
  function Units(fs: FileSystem, paths: seq<Path>): (r: seq<DramaDirectory>)
    ensures |r| == |paths| && forall i :: 0 <= i < |paths| ==> r[i] == CreateDramaDirectory(fs, paths[i])
  {
    if |paths| == 0 then [] else Units(fs, paths[..|paths| - 1]) + [CreateDramaDirectory(fs, paths[|paths| - 1])]
  }

  /**
   * `scan_drama_root`: the units found under `root`, sorted by name. A unit's
   * record depends only on its path, so sorting the paths and then building
   * the records gives the list the source sorts.
   */
  function DramaScan(fs: FileSystem, root: Path): Result<seq<DramaDirectory>>
  {
    if !fs.Exists(root) then Err(RootMissing(root))
    else if !fs.IsDir(root) then Err(RootNotADirectory(root))
    else Ok(Units(fs, Sorter.SortByKey(UnitPaths(fs, fs.Children(root)), NameKey)))
  }

  method ScanDramaRoot(fs: FileSystem, root: Path) returns (r: Result<seq<DramaDirectory>>)
    ensures r == DramaScan(fs, root)
  {
    if !fs.Exists(root) {
      return Err(RootMissing(root));
    }
    if !fs.IsDir(root) {
      return Err(RootNotADirectory(root));
    }
    var found := CollectUnitPaths(fs, fs.Children(root));
    var units := BuildUnits(fs, Sorter.SortByKey(found, NameKey));
    return Ok(units);
  }

  /** Builds the record of each unit, in order. */
  method BuildUnits(fs: FileSystem, paths: seq<Path>) returns (units: seq<DramaDirectory>)
    ensures units == Units(fs, paths)
  {
    units := [];
    var i := 0;
    while i < |paths|
      invariant 0 <= i <= |paths|
      invariant units == Units(fs, paths[..i])
    {
      assert paths[..i + 1][..i] == paths[..i];
      units := units + [CreateDramaDirectory(fs, paths[i])];
      i := i + 1;
    }
    assert paths[..i] == paths;
  }

  /** The loop over `root.iterdir()`. */
  method CollectUnitPaths(fs: FileSystem, items: seq<Path>) returns (found: seq<Path>)
    ensures found == UnitPaths(fs, items)
  {
    found := [];
    var i := 0;
    while i < |items|
      invariant 0 <= i <= |items|
      invariant found == UnitPaths(fs, items[..i])
    {
      assert items[..i + 1][..i] == items[..i];
      var item := items[i];
      if fs.IsDir(item) && MatchesAsWritten(Name(item)) {
        found := found + [item];
      }
      i := i + 1;
    }
    assert items[..i] == items;
  }

  lemma {:induction false} UnitPathsMembers(fs: FileSystem, items: seq<Path>)
    ensures forall p :: p in UnitPaths(fs, items) <==> p in items && fs.IsDir(p) && MatchesAsWritten(Name(p))
  {
    if |items| > 0 {
      UnitPathsMembers(fs, items[..|items| - 1]);
      assert items == items[..|items| - 1] + [items[|items| - 1]];
    }
  }

  /** Comparing name keys is comparing the names as strings. */
  lemma NameKeyLess(p: Path, q: Path)
    ensures Sorter.KeyLess(NameKey(p), NameKey(q)) == Some(Sorter.StrLess(Name(p), Name(q)))
  {
    var kp, kq := NameKey(p), NameKey(q);
    if Name(p) == Name(q) {
      Sorter.StrLessStrict(Name(p), Name(q));
      assert kp[1..] == [] && kq[1..] == [];
    } else {
      assert kp[0] != kq[0];
    }
  }

  /** The records built from sorted paths: one per path, each built from a path of the input. */
  lemma SortedUnitsFacts(fs: FileSystem, found: seq<Path>)
    ensures var units := Units(fs, Sorter.SortByKey(found, NameKey));
      && |units| == |found|
      && (forall i :: 0 <= i < |units| ==> units[i] == CreateDramaDirectory(fs, units[i].path) && units[i].path in found)
      && (forall p :: p in found ==> exists i :: 0 <= i < |units| && units[i].path == p)
  {
    var sorted := Sorter.SortByKey(found, NameKey);
    UnitsFromFound(fs, sorted, found);
    var units := Units(fs, sorted);
    forall p | p in found
      ensures exists i :: 0 <= i < |units| && units[i].path == p
    {
      var i := SameElements(sorted, found, p);
      assert units[i] == CreateDramaDirectory(fs, p);
    }
  }

  lemma {:induction false} UnitsFromFound(fs: FileSystem, sorted: seq<Path>, found: seq<Path>)
    requires multiset(sorted) == multiset(found)
    ensures var units := Units(fs, sorted);
      && |units| == |found|
      && forall i :: 0 <= i < |units| ==> units[i] == CreateDramaDirectory(fs, units[i].path) && units[i].path in found
  {
    assert |sorted| == |multiset(sorted)| == |found|;
    var units := Units(fs, sorted);
    forall i | 0 <= i < |units|
      ensures units[i].path in found
    {
      var j := SameElements(found, sorted, sorted[i]);
    }
  }

  /** An element of one of two rearrangements of each other is at some index of the other. */
  lemma SameElements(s: seq<Path>, t: seq<Path>, p: Path) returns (i: nat)
    requires multiset(s) == multiset(t) && p in t
    ensures i < |s| && s[i] == p
  {
    assert p in multiset(t);
    assert p in s;
    i :| i < |s| && s[i] == p;
  }


  /** The records built from sorted paths are in name order. */
  lemma SortedUnitsOrdered(fs: FileSystem, found: seq<Path>)
    ensures var units := Units(fs, Sorter.SortByKey(found, NameKey));
      forall i, j :: 0 <= i < j < |units| ==> !Sorter.StrLess(units[j].name, units[i].name)
  {
    forall i, j | 0 <= i < |found| && 0 <= j < |found|
      ensures Sorter.Comparable(NameKey(found[i]), NameKey(found[j]))
    {
      NameKeyLess(found[i], found[j]);
    }
    Sorter.SortByKeySorted(found, NameKey);
    var sorted := Sorter.SortByKey(found, NameKey);
    var units := Units(fs, sorted);
    forall i, j | 0 <= i < j < |units|
      ensures !Sorter.StrLess(units[j].name, units[i].name)
    {
      assert Sorter.NotBefore(sorted[j], sorted[i], NameKey);
      NameKeyLess(sorted[j], sorted[i]);
    }
  }

  /**
   * A successful scan lists, once per listing entry, exactly the
   * sub-directories of the root whose names the pattern as written matches
   * (a unit name, or a unit name and a final newline), each with its name
   * and its four sub-folder flags (units without any sub-folder are kept), in
   * name order.
   */
  lemma ScanFinds(fs: FileSystem, root: Path, units: seq<DramaDirectory>)
    requires DramaScan(fs, root) == Ok(units)
    ensures forall i :: 0 <= i < |units| ==>
      && units[i] == CreateDramaDirectory(fs, units[i].path)
      && fs.IsDir(units[i].path) && Parent(units[i].path) == root && MatchesAsWritten(units[i].name)
    ensures forall p :: p in fs.Children(root) && fs.IsDir(p) && MatchesAsWritten(Name(p)) ==>
      exists i :: 0 <= i < |units| && units[i].path == p
    ensures |units| == |UnitPaths(fs, fs.Children(root))|
    ensures forall i, j :: 0 <= i < j < |units| ==> !Sorter.StrLess(units[j].name, units[i].name)
  {
    var found := UnitPaths(fs, fs.Children(root));
    UnitPathsMembers(fs, fs.Children(root));
    SortedUnitsFacts(fs, found);
    SortedUnitsOrdered(fs, found);
  }

  /**
   * The scan as written lists a directory named `drama-0001` followed by a
   * newline, which is not a unit name.
   */
  lemma NewlineNameScanned(fs: FileSystem, root: Path, units: seq<DramaDirectory>, p: Path)
    requires DramaScan(fs, root) == Ok(units)
    requires p in fs.Children(root) && fs.IsDir(p) && Name(p) == "drama-0001\n"
    ensures exists i :: 0 <= i < |units| && units[i].path == p && !IsDramaName(units[i].name)
  {
    TrailingNewlineAccepted();
    ScanFinds(fs, root, units);
    var i :| 0 <= i < |units| && units[i].path == p;
    assert units[i] == CreateDramaDirectory(fs, p);
  }

  // ---------------------------------------------------------------------
  // Stage eligibility

  /** The stages a unit can be validated for, under the names `scan_and_validate` accepts. */
  datatype Stage = Merge | Separation | Transcode

  /** `validate_for_merge` / `validate_for_separation` / `validate_for_transcode`. */
  predicate ValidFor(stage: Stage, d: DramaDirectory)
  {
    match stage
    case Merge => d.hasVideoDir
    case Separation => d.hasMergedDir
    case Transcode => d.hasClearedDir
  }

  /** `get_valid_dirs_for_*`: the units the stage accepts, in order. */
  function ValidDirs(stage: Stage, dirs: seq<DramaDirectory>): (r: seq<DramaDirectory>)
    ensures |r| <= |dirs|
  {
    if |dirs| == 0 then []
    else
      var last := dirs[|dirs| - 1];
      ValidDirs(stage, dirs[..|dirs| - 1]) + (if ValidFor(stage, last) then [last] else [])
  }

  /** The filter keeps exactly the units the stage accepts. */
  lemma {:induction false} ValidDirsMembers(stage: Stage, dirs: seq<DramaDirectory>)
    ensures forall d :: d in ValidDirs(stage, dirs) <==> d in dirs && ValidFor(stage, d)
  {
    if |dirs| > 0 {
      ValidDirsMembers(stage, dirs[..|dirs| - 1]);
      assert dirs == dirs[..|dirs| - 1] + [dirs[|dirs| - 1]];
    }
  }

  /** The filter keeps order: filtering a concatenation filters each part. */
  lemma {:induction false} ValidDirsAppend(stage: Stage, a: seq<DramaDirectory>, b: seq<DramaDirectory>)
    ensures ValidDirs(stage, a + b) == ValidDirs(stage, a) + ValidDirs(stage, b)
    decreases |b|
  {
    if |b| == 0 {
      assert a + b == a;
    } else {
      assert (a + b)[..|a + b| - 1] == a + b[..|b| - 1];
      ValidDirsAppend(stage, a, b[..|b| - 1]);
    }
  }

  function InvalidOperation(op: string): string
  {
    "无效的操作类型: " + op + "，有效值为: 'merge', 'separation', 'transcode'"
  }

  /** The operation names `scan_and_validate` accepts. */
  function StageNamed(op: string): (r: Result<Stage>)
    ensures r.Ok? <==> op == "merge" || op == "separation" || op == "transcode"
    ensures r.Err? ==> r.error == InvalidOperation(op)
  {
    if op == "merge" then Ok(Merge)
    else if op == "separation" then Ok(Separation)
    else if op == "transcode" then Ok(Transcode)
    else Err(InvalidOperation(op))
  }

  /** `scan_and_validate`: the root is scanned first, so its errors come before an unknown operation's. */
  function ScanAndValidate(fs: FileSystem, root: Path, op: string): (r: Result<seq<DramaDirectory>>)
    ensures DramaScan(fs, root).Err? ==> r == DramaScan(fs, root)
    ensures DramaScan(fs, root).Ok? && StageNamed(op).Err? ==> r == Err(InvalidOperation(op))
    ensures r.Ok? ==> r.value == ValidDirs(StageNamed(op).value, DramaScan(fs, root).value)
  {
    match DramaScan(fs, root)
    case Err(e) => Err(e)
    case Ok(all) =>
      match StageNamed(op)
      case Err(e) => Err(e)
      case Ok(stage) => Ok(ValidDirs(stage, all))
  }
}
