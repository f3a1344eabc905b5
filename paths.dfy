// Paths and a snapshot of the filesystem the drama processor looks at.
// A path is the list of its components relative to the working directory
// (pathlib.Path's parts); the filesystem is the set of existing entries, each
// marked as directory or file, in the order a directory listing yields them.
module Paths {
  import opened Results
  import opened Text

  type Path = seq<string>

  /** `p / name`. */
  function Child(p: Path, name: string): (r: Path)
    ensures |r| == |p| + 1 && Parent(r) == p && Name(r) == name
  {
    p + [name]
  }

  /** `p.name`: the last component, "" for the working directory itself. */
  function Name(p: Path): string
  {
    if |p| == 0 then "" else p[|p| - 1]
  }

  /** `p.parent`; the working directory is its own parent. */
  function Parent(p: Path): Path
  {
    if |p| == 0 then [] else p[..|p| - 1]
  }

  /** Index of the last `c` in `s` (str.rfind). */
  function LastIndexOf(s: string, c: char): (r: Option<nat>)
    ensures r.Some? ==> r.value < |s| && s[r.value] == c
    ensures r.Some? ==> forall j :: r.value < j < |s| ==> s[j] != c
    ensures r.None? ==> forall j :: 0 <= j < |s| ==> s[j] != c
  {
    if |s| == 0 then None
    else if s[|s| - 1] == c then Some(|s| - 1)
    else LastIndexOf(s[..|s| - 1], c)
  }

  /** Where pathlib splits a file name into stem and suffix: the last dot, unless it is the first or last character. */
  function SuffixStart(name: string): Option<nat>
  {
    match LastIndexOf(name, '.')
    case Some(i) => if 0 < i < |name| - 1 then Some(i) else None
    case None => None
  }

  /** `Path(name).suffix`. */
  function Suffix(name: string): (r: string)
    ensures Stem(name) + r == name
    ensures |r| > 0 ==> r[0] == '.' && |r| >= 2
  {
    match SuffixStart(name)
    case Some(i) => name[i..]
    case None => ""
  }

  /** `Path(name).stem`. */
  function Stem(name: string): string
  {
    match SuffixStart(name)
    case Some(i) => name[..i]
    case None => name
  }

  /** A path whose components survive a round trip through their text form. */
  predicate WellFormed(p: Path)
  {
    forall k :: 0 <= k < |p| ==> p[k] != "" && p[k] != "." && forall j :: 0 <= j < |p[k]| ==> p[k][j] != '/'
  }

  /** `str(p)`. */
  function ToString(p: Path): string
  {
    if |p| == 0 then "." else Join(p, "/")
  }

  /** `Path(s)` for a relative path: empty and "." components are dropped. */
  function FromString(s: string): Path
  {
    DropTrivial(Split(s, "/"))
  }

  function DropTrivial(parts: seq<string>): (r: Path)
    ensures |r| <= |parts|
  {
    if |parts| == 0 then []
    else if parts[0] == "" || parts[0] == "." then DropTrivial(parts[1..])
    else [parts[0]] + DropTrivial(parts[1..])
  }

  lemma {:induction false} DropTrivialWellFormed(p: Path)
    requires forall k :: 0 <= k < |p| ==> p[k] != "" && p[k] != "."
    ensures DropTrivial(p) == p
  {
    if |p| > 0 {
      DropTrivialWellFormed(p[1..]);
    }
  }

  /** `Path(str(p)) == p` for well-formed relative paths. */
  lemma PathStringRoundTrip(p: Path)
    requires WellFormed(p)
    ensures FromString(ToString(p)) == p
  {
    if |p| == 0 {
      FindAbsent(".", '/');
    } else {
      SplitJoin(p, '/');
      DropTrivialWellFormed(p);
    }
  }

  /**
   * The entries that exist, in directory-listing order, and for each whether
   * it is a directory. The working directory itself ([]) always exists.
   */
  datatype FileSystem = FileSystem(listing: seq<Path>, isDir: map<Path, bool>)
  {
    ghost predicate Valid()
    {
      (forall i, j :: 0 <= i < j < |listing| ==> listing[i] != listing[j])
      && (forall p :: p in isDir <==> p in listing)
      && [] !in isDir
      && (forall p :: p in isDir && |p| > 1 ==> Parent(p) in isDir && isDir[Parent(p)])
    }

    /** `p.exists()`. */
    predicate Exists(p: Path)
    {
      p == [] || p in isDir
    }

    /** `p.is_dir()`. */
    predicate IsDir(p: Path)
    {
      p == [] || (p in isDir && isDir[p])
    }

    /** `dir.iterdir()`: the entries directly inside `dir`, in listing order. */
    function Children(dir: Path): (r: seq<Path>)
      ensures forall q :: q in r <==> q in listing && |q| > 0 && Parent(q) == dir
    {
      ChildrenOf(listing, dir)
    }

    /** `dir.glob("*" + ext)`: the entries directly inside `dir` whose name ends with `ext`. */
    function Glob(dir: Path, ext: string): (r: seq<Path>)
      ensures forall q :: q in r <==> q in listing && |q| > 0 && Parent(q) == dir && EndsWith(Name(q), ext)
    {
      GlobIn(listing, dir, ext)
    }

    /** The filesystem after a new file `p` is written. */
    function AddFile(p: Path): (r: FileSystem)
      ensures r.Exists(p) && forall q :: Exists(q) ==> r.Exists(q)
      ensures forall q :: r.Exists(q) ==> Exists(q) || q == p
    {
      if p in isDir then this else FileSystem(listing + [p], isDir[p := false])
    }

    /** `p.is_file()`: an entry that is not a directory. */
    predicate IsFile(p: Path)
    {
      p in isDir && !isDir[p]
    }

    /**
     * `p.mkdir(parents=True, exist_ok=True)` where the parent of `p` is a
     * directory, as it is for the output directories inside a unit: an
     * existing directory is kept, a missing one is created, and an existing
     * file raises FileExistsError. MkDirs is the general case; MkDirUnderDir
     * shows the two agree here.
     */
    function MkDir(p: Path): (r: Result<FileSystem>)
      ensures r.Err? <==> IsFile(p)
      ensures r.Err? ==> r.error == FileExists(p)
      ensures r.Ok? ==> r.value == AddDir(p) && r.value.IsDir(p)
    {
      if IsFile(p) then Err(FileExists(p)) else Ok(AddDir(p))
    }

    /** The filesystem after directory `p` is created (`mkdir(exist_ok=True)`). */
    function AddDir(p: Path): (r: FileSystem)
      ensures r.Exists(p) && forall q :: Exists(q) ==> r.Exists(q)
      ensures forall q :: r.Exists(q) ==> Exists(q) || q == p
      ensures !IsFile(p) ==> r.IsDir(p)
      ensures forall q :: q != p ==> (r.IsDir(q) <==> IsDir(q))
    {
      if p == [] || p in isDir then this else FileSystem(listing + [p], isDir[p := true])
    }

    /** Some ancestor of `p` below the working directory is a regular file. */
    predicate FileAbove(p: Path)
    {
      exists k :: 0 < k < |p| && IsFile(p[..k])
    }

    /**
     * `p.mkdir(parents=True, exist_ok=True)` for any `p`. An ancestor that is
     * a regular file makes `os.mkdir` raise NotADirectoryError, which
     * `exist_ok` does not swallow since `p` is then no directory; `p` itself
     * being a file raises FileExistsError; otherwise every missing ancestor
     * and `p` are created, shortest first.
     */
    function MkDirs(p: Path): (r: Result<FileSystem>)
      ensures r.Err? <==> FileAbove(p) || IsFile(p)
      ensures FileAbove(p) ==> r == Err(NotADirectory(p))
      ensures !FileAbove(p) && IsFile(p) ==> r == Err(FileExists(p))
      ensures r.Ok? ==> r.value == AddDirs(p)
    {
      if FileAbove(p) then Err(NotADirectory(p))
      else if IsFile(p) then Err(FileExists(p))
      else Ok(AddDirs(p))
    }

    /** The filesystem after `p` and its missing ancestors are created as directories. */
    function AddDirs(p: Path): FileSystem
      decreases |p|
    {
      if |p| == 0 then this else AddDirs(Parent(p)).AddDir(p)
    }
  }

  /** Creating `p` with its ancestors adds exactly `p` and its missing ancestors. */
  lemma {:induction false} AddDirsAdds(fs: FileSystem, p: Path)
    ensures forall q :: fs.AddDirs(p).Exists(q) <==> fs.Exists(q) || (0 < |q| <= |p| && q == p[..|q|])
    decreases |p|
  {
    if |p| > 0 {
      var up := Parent(p);
      AddDirsAdds(fs, up);
      assert fs.AddDirs(p) == fs.AddDirs(up).AddDir(p);
      assert p[..|p|] == p;
      forall q
        ensures fs.AddDirs(p).Exists(q) <==> fs.Exists(q) || (0 < |q| <= |p| && q == p[..|q|])
      {
        if 0 < |q| < |p| && q == p[..|q|] {
          assert q == up[..|q|];
        }
        if 0 < |q| <= |up| && q == up[..|q|] {
          assert q == p[..|q|];
        }
      }
    }
  }

  /** Creating directories changes the kind of no existing entry. */
  lemma {:induction false} AddDirsKeepsKinds(fs: FileSystem, p: Path)
    ensures forall q :: fs.Exists(q) ==> (fs.AddDirs(p).IsDir(q) <==> fs.IsDir(q))
    decreases |p|
  {
    if |p| > 0 {
      var up := Parent(p);
      AddDirsKeepsKinds(fs, up);
      AddDirsAdds(fs, up);
      var before := fs.AddDirs(up);
      assert fs.AddDirs(p) == before.AddDir(p);
      forall q | fs.Exists(q)
        ensures fs.AddDirs(p).IsDir(q) <==> fs.IsDir(q)
      {
        if q == p {
          assert before.Exists(p);
          assert before.AddDir(p) == before;
        }
      }
    }
  }

  /** Creating `p` with its ancestors, none of them a file, makes `p` and every ancestor a directory. */
  lemma {:induction false} AddDirsMakesDirs(fs: FileSystem, p: Path)
    requires forall k :: 0 < k <= |p| ==> !fs.IsFile(p[..k])
    ensures forall k :: 0 < k <= |p| ==> fs.AddDirs(p).IsDir(p[..k])
    ensures |p| > 0 ==> !fs.AddDirs(Parent(p)).IsFile(p)
    decreases |p|
  {
    if |p| > 0 {
      var up := Parent(p);
      forall k | 0 < k <= |up|
        ensures !fs.IsFile(up[..k])
      {
        assert up[..k] == p[..k];
      }
      AddDirsMakesDirs(fs, up);
      var before := fs.AddDirs(up);
      assert fs.AddDirs(p) == before.AddDir(p);
      assert !before.IsFile(p) by {
        if p in before.isDir {
          AddDirsAdds(fs, up);
          assert fs.Exists(p);
          AddDirsKeepsKinds(fs, up);
          assert p[..|p|] == p;
        }
      }
      forall k | 0 < k <= |p|
        ensures fs.AddDirs(p).IsDir(p[..k])
      {
        if k < |p| {
          assert p[..k] == up[..k];
          assert before.IsDir(p[..k]) && p[..k] != p;
        } else {
          assert p[..k] == p;
        }
      }
    }
  }

  /** Creating `p` with its ancestors, none of them a file, keeps the filesystem well formed. */
  lemma {:induction false} AddDirsValid(fs: FileSystem, p: Path)
    requires fs.Valid() && forall k :: 0 < k <= |p| ==> !fs.IsFile(p[..k])
    ensures fs.AddDirs(p).Valid()
    decreases |p|
  {
    if |p| > 0 {
      var up := Parent(p);
      forall k | 0 < k <= |up|
        ensures !fs.IsFile(up[..k])
      {
        assert up[..k] == p[..k];
      }
      AddDirsValid(fs, up);
      AddDirsMakesDirs(fs, p);
      AddDirsMakesDirs(fs, up);
      var before := fs.AddDirs(up);
      assert fs.AddDirs(p) == before.AddDir(p);
      assert |p| > 1 ==> before.IsDir(up) by {
        if |p| > 1 {
          assert up[..|up|] == up;
        }
      }
      AddDirValid(before, p);
    }
  }

  /** Creating a directory whose parent is a directory keeps the filesystem well formed. */
  lemma AddDirValid(fs: FileSystem, p: Path)
    requires fs.Valid() && |p| > 0 && !fs.IsFile(p) && (|p| > 1 ==> fs.IsDir(Parent(p)))
    ensures fs.AddDir(p).Valid()
  {
    if p !in fs.isDir {
      var r := fs.AddDir(p);
      assert r.listing == fs.listing + [p] && r.isDir == fs.isDir[p := true];
      forall i, j | 0 <= i < j < |r.listing|
        ensures r.listing[i] != r.listing[j]
      {
        if j == |fs.listing| {
          assert fs.listing[i] in fs.isDir;
        } else {
          assert r.listing[i] == fs.listing[i] && r.listing[j] == fs.listing[j];
        }
      }
    }
  }

  /**
   * What `mkdir(parents=True, exist_ok=True)` leaves when it returns: a well
   * formed filesystem in which `p` and every ancestor are directories, the
   * created directories are the only new entries, and no existing entry
   * changed kind.
   */
  lemma MkDirsFacts(fs: FileSystem, p: Path)
    requires fs.Valid() && fs.MkDirs(p).Ok?
    ensures var r := fs.MkDirs(p).value;
      && r.Valid()
      && (forall k :: 0 < k <= |p| ==> r.IsDir(p[..k]))
      && (forall q :: r.Exists(q) <==> fs.Exists(q) || (0 < |q| <= |p| && q == p[..|q|]))
      && (forall q :: fs.Exists(q) ==> (r.IsDir(q) <==> fs.IsDir(q)))
  {
    forall k | 0 < k <= |p|
      ensures !fs.IsFile(p[..k])
    {
      if k == |p| {
        assert p[..k] == p;
      }
    }
    AddDirsValid(fs, p);
    AddDirsMakesDirs(fs, p);
    AddDirsAdds(fs, p);
    AddDirsKeepsKinds(fs, p);
  }

  /** With the parent a directory, creating the parents is creating `p` alone. */
  lemma MkDirUnderDir(fs: FileSystem, p: Path)
    requires fs.Valid() && |p| > 0 && fs.IsDir(Parent(p))
    ensures fs.MkDirs(p) == fs.MkDir(p)
  {
    var up := Parent(p);
    if |up| > 0 {
      forall k | 0 < k < |p|
        ensures !fs.IsFile(p[..k])
      {
        assert fs.IsDir(p[..k]) by { AncestorsDirs(fs, up, k); assert p[..k] == up[..k]; }
      }
    }
    assert fs.AddDirs(up) == fs by { AddDirsExisting(fs, up); }
  }

  /** Every ancestor of a directory is a directory. */
  lemma {:induction false} AncestorsDirs(fs: FileSystem, p: Path, k: nat)
    requires fs.Valid() && fs.IsDir(p) && 0 < k <= |p|
    ensures fs.IsDir(p[..k])
    decreases |p|
  {
    if k < |p| {
      assert Parent(p) in fs.isDir && fs.isDir[Parent(p)];
      assert Parent(p)[..k] == p[..k];
      AncestorsDirs(fs, Parent(p), k);
    } else {
      assert p[..k] == p;
    }
  }

  /** Creating an existing directory with its ancestors changes nothing. */
  lemma {:induction false} AddDirsExisting(fs: FileSystem, p: Path)
    requires fs.Valid() && fs.IsDir(p)
    ensures fs.AddDirs(p) == fs
    decreases |p|
  {
    if |p| > 0 {
      if |p| > 1 {
        assert fs.IsDir(Parent(p));
      }
      AddDirsExisting(fs, Parent(p));
    }
  }

  /** `str()` of the NotADirectoryError that `os.mkdir` raises for `p` below a regular file. */
  function NotADirectory(p: Path): string
  {
    "[Errno 20] Not a directory: '" + ToString(p) + "'"
  }

  /** `str()` of the FileExistsError that creating a directory over the file `p` raises. */
  function FileExists(p: Path): string
  {
    "[Errno 17] File exists: '" + ToString(p) + "'"
  }

  function ChildrenOf(listing: seq<Path>, dir: Path): (r: seq<Path>)
    ensures forall q :: q in r <==> q in listing && |q| > 0 && Parent(q) == dir
  {
    if |listing| == 0 then []
    else
      var q := listing[0];
      (if |q| > 0 && Parent(q) == dir then [q] else []) + ChildrenOf(listing[1..], dir)
  }

  function GlobIn(listing: seq<Path>, dir: Path, ext: string): (r: seq<Path>)
    ensures forall q :: q in r <==> q in listing && |q| > 0 && Parent(q) == dir && EndsWith(Name(q), ext)
  {
    if |listing| == 0 then []
    else
      var q := listing[0];
      (if |q| > 0 && Parent(q) == dir && EndsWith(Name(q), ext) then [q] else []) + GlobIn(listing[1..], dir, ext)
  }
}
