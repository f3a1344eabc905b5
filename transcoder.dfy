// transcoder.py: `VideoTranscoder` encodes the first video under `cleared/`
// once per target resolution into `encoded/`, skipping targets above the
// input's height, and copies the subtitles beside the encodes. Probing the
// input and running ffmpeg are the parameters `resolution` and `run`.
module Transcoder {
  import opened Results
  import opened Text
  import opened Paths
  import opened Models
  import Ffmpeg
  import FileManager

  /** A transcoder's settings: the targets and the ffmpeg wrapper it made. */
  datatype VideoTranscoder = VideoTranscoder(specs: seq<TranscodeSpec>, wrapper: Ffmpeg.OptimizedWrapper)

  /** `PRESET_SPECS`: 1080p, 720p and 480p. */
  function PresetSpecs(): seq<TranscodeSpec>
  {
    [Spec(1920, 1080), Spec(1280, 720), Spec(854, 480)]
  }

  /** The constructor: the presets only when no list is given; an empty list stays empty. */
  function NewTranscoder(specs: Option<seq<TranscodeSpec>>, wrapper: Ffmpeg.OptimizedWrapper): (t: VideoTranscoder)
    ensures specs.None? ==> t.specs == PresetSpecs() && |t.specs| == 3
    ensures specs.Some? ==> t.specs == specs.value
    ensures specs == Some([]) ==> t.specs == []
    ensures t.wrapper == wrapper
  {
    VideoTranscoder(if specs.Some? then specs.value else PresetSpecs(), wrapper)
  }

  /** `should_skip_spec`: a target is skipped when the input is less tall than it. */
  predicate ShouldSkipSpec(input: (int, int), target: TranscodeSpec)
  {
    input.1 < target.height
  }

  /** The width of the input plays no part in the choice, and no target is ever upscaled in height. */
  lemma SkipIgnoresWidth(input: (int, int), width: int, target: TranscodeSpec)
    ensures ShouldSkipSpec(input, target) == ShouldSkipSpec((width, input.1), target)
    ensures !ShouldSkipSpec(input, target) ==> target.height <= input.1
  {
  }

  // ---------------------------------------------------------------------
  // One encode

  /** The command `transcode` runs: `build_transcode_command`'s list without its first three items as options. */
  function TranscodeCommand(w: Ffmpeg.OptimizedWrapper, input: Path, output: Path, spec: TranscodeSpec): Ffmpeg.FFmpegCommand
  {
    Ffmpeg.FFmpegCommand([input], output, Ffmpeg.TranscodeArgs(w, input, spec)[3..])
  }

  /** The argument list `transcode` executes. */
  function TranscodeArgv(w: Ffmpeg.OptimizedWrapper, input: Path, output: Path, spec: TranscodeSpec): seq<string>
  {
    Ffmpeg.CommandLine(TranscodeCommand(w, input, output, spec))
  }

  /** `transcode`: the built list is re-wrapped with the input and output, then run. */
  method Transcode(w: Ffmpeg.OptimizedWrapper, input: Path, output: Path, spec: TranscodeSpec)
    returns (argv: seq<string>)
    ensures argv == TranscodeArgv(w, input, output, spec)
    ensures argv == Ffmpeg.TranscodeArgs(w, input, spec) + [ToString(output)]
  {
    var cmd := Ffmpeg.BuildTranscodeCommand(w, input, output, spec);
    argv := Ffmpeg.BuildCommand(Ffmpeg.FFmpegCommand([input], output, cmd[3..]));
    TranscodeArgvIsBuiltList(w, input, output, spec);
  }

  /**
   * Skipping the first three items undoes nothing: what is executed is
   * exactly the list `build_transcode_command` returns, followed by the
   * output path.
   */
  lemma TranscodeArgvIsBuiltList(w: Ffmpeg.OptimizedWrapper, input: Path, output: Path, spec: TranscodeSpec)
    ensures TranscodeArgv(w, input, output, spec) == Ffmpeg.TranscodeArgs(w, input, spec) + [ToString(output)]
  {
    var args := Ffmpeg.TranscodeArgs(w, input, spec);
    Ffmpeg.TranscodeArgsShape(w, input, spec);
    assert Ffmpeg.InputArgs([input]) == ["-i", ToString(input)] by {
      assert [input][..0] == [];
    }
    Rewrapped(args, ToString(input), ToString(output));
  }

  /** Putting `ffmpeg -i <input>` back in front of the rest of a list that began with it gives the list again. */
  lemma Rewrapped(args: seq<string>, input: string, output: string)
    requires |args| >= 3 && args[..3] == ["ffmpeg", "-i", input]
    ensures ["ffmpeg"] + ["-i", input] + args[3..] + [output] == args + [output]
  {
    assert args == args[..3] + args[3..];
  }

  /** `f"{input_video.stem}_{spec.resolution_name}.mp4"`. */
  function OutputName(input: Path, spec: TranscodeSpec): string
  {
    Stem(Name(input)) + "_" + spec.ResolutionName() + ".mp4"
  }

  // ---------------------------------------------------------------------
  // The loop over the targets

  /** What became of one target: skipped under its resolution name, or encoded to a path by a command. */
  datatype SpecFate = SkippedSpec(name: string) | Encoded(output: Path, argv: seq<string>)

  /** The targets' fates in order, the filesystem after the encodes, and the ffmpeg error that stopped the loop, if any. */
  datatype SpecRun = SpecRun(fates: seq<SpecFate>, fs: FileSystem, error: Option<string>)

  /**
   * The loop of `process` over the first `|specs|` targets: a target is
   * skipped or encoded under a free name in `encoded`; a failed encode ends
   * the loop with its message.
   */
  function SpecsRun(w: Ffmpeg.OptimizedWrapper, specs: seq<TranscodeSpec>, input: Path, resolution: (int, int),
                    encoded: Path, fs: FileSystem, run: seq<string> -> Option<string>): SpecRun
    decreases |specs|
  {
    if |specs| == 0 then SpecRun([], fs, None)
    else SpecStep(w, SpecsRun(w, specs[..|specs| - 1], input, resolution, encoded, fs, run), specs[|specs| - 1], input, resolution, encoded, run)
  }

  /** One pass of the loop: nothing after an error, otherwise the target is skipped or encoded under a free name. */
  function SpecStep(w: Ffmpeg.OptimizedWrapper, before: SpecRun, spec: TranscodeSpec, input: Path, resolution: (int, int),
                    encoded: Path, run: seq<string> -> Option<string>): SpecRun
  {
    if before.error.Some? then before
    else if ShouldSkipSpec(resolution, spec) then SpecRun(before.fates + [SkippedSpec(spec.ResolutionName())], before.fs, None)
    else
      var output := FileManager.UniquePath(before.fs, Child(encoded, OutputName(input, spec)));
      var argv := TranscodeArgv(w, input, output, spec);
      match run(argv)
      case Some(e) => SpecRun(before.fates, before.fs, Some(e))
      case None => SpecRun(before.fates + [Encoded(output, argv)], before.fs.AddFile(output), None)
  }

  /** `output_files`: the encoded paths, in order. */
  function Outputs(fates: seq<SpecFate>): (r: seq<Path>)
    ensures |r| <= |fates|
  {
    if |fates| == 0 then []
    else Outputs(fates[..|fates| - 1]) + (if fates[|fates| - 1].Encoded? then [fates[|fates| - 1].output] else [])
  }

  /** `skipped_specs`: the resolution names of the skipped targets, in order. */
  function SkippedNames(fates: seq<SpecFate>): (r: seq<string>)
    ensures |r| <= |fates|
  {
    if |fates| == 0 then []
    else SkippedNames(fates[..|fates| - 1]) + (if fates[|fates| - 1].SkippedSpec? then [fates[|fates| - 1].name] else [])
  }

  /** The loop over the targets, stopped by the first failed encode. */
  method TranscodeAll(w: Ffmpeg.OptimizedWrapper, specs: seq<TranscodeSpec>, input: Path, resolution: (int, int),
                      encoded: Path, fs: FileSystem, run: seq<string> -> Option<string>)
    returns (outputFiles: seq<Path>, skippedSpecs: seq<string>, fs': FileSystem, error: Option<string>)
    ensures var r := SpecsRun(w, specs, input, resolution, encoded, fs, run);
      outputFiles == Outputs(r.fates) && skippedSpecs == SkippedNames(r.fates) && fs' == r.fs && error == r.error
  {
    outputFiles, skippedSpecs, fs', error := [], [], fs, None;
    ghost var fates: seq<SpecFate> := [];
    var i := 0;
    while i < |specs| && error.None?
      invariant 0 <= i <= |specs|
      invariant SpecsRun(w, specs[..i], input, resolution, encoded, fs, run) == SpecRun(fates, fs', error)
      invariant outputFiles == Outputs(fates) && skippedSpecs == SkippedNames(fates)
    {
      var spec := specs[i];
      assert specs[..i + 1][..i] == specs[..i];
      assert SpecsRun(w, specs[..i + 1], input, resolution, encoded, fs, run)
          == SpecStep(w, SpecRun(fates, fs', error), spec, input, resolution, encoded, run);
      ghost var before := fates;
      if ShouldSkipSpec(resolution, spec) {
        skippedSpecs := skippedSpecs + [spec.ResolutionName()];
        fates := fates + [SkippedSpec(spec.ResolutionName())];
        assert fates[..|before|] == before;
      } else {
        var output := FileManager.GetUniquePath(fs', Child(encoded, OutputName(input, spec)));
        var argv := Transcode(w, input, output, spec);
        var failure := run(argv);
        if failure.Some? {
          error := failure;
        } else {
          outputFiles := outputFiles + [output];
          fates := fates + [Encoded(output, argv)];
          assert fates[..|before|] == before;
          fs' := fs'.AddFile(output);
        }
      }
      i := i + 1;
    }
    if error.Some? {
      StoppedRunSticks(w, specs, input, resolution, encoded, fs, run, i);
    } else {
      assert specs[..i] == specs;
    }
  }

  /** Once an encode has failed, the later targets change nothing. */
  lemma {:induction false} StoppedRunSticks(w: Ffmpeg.OptimizedWrapper, specs: seq<TranscodeSpec>, input: Path,
                                            resolution: (int, int), encoded: Path, fs: FileSystem,
                                            run: seq<string> -> Option<string>, i: nat)
    requires i <= |specs| && SpecsRun(w, specs[..i], input, resolution, encoded, fs, run).error.Some?
    ensures SpecsRun(w, specs, input, resolution, encoded, fs, run) == SpecsRun(w, specs[..i], input, resolution, encoded, fs, run)
    decreases |specs| - i
  {
    if i < |specs| {
      assert specs[..i + 1][..i] == specs[..i];
      StoppedRunSticks(w, specs, input, resolution, encoded, fs, run, i + 1);
    } else {
      assert specs[..i] == specs;
    }
  }

  /** The fate a target meets when its turn comes and no encode has failed before it. */
  predicate FateFor(w: Ffmpeg.OptimizedWrapper, input: Path, resolution: (int, int), encoded: Path, spec: TranscodeSpec,
                    fate: SpecFate)
  {
    && (fate.SkippedSpec? <==> ShouldSkipSpec(resolution, spec))
    && (fate.SkippedSpec? ==> fate.name == spec.ResolutionName())
    && (fate.Encoded? ==>
          Parent(fate.output) == encoded && fate.argv == Ffmpeg.TranscodeArgs(w, input, spec) + [ToString(fate.output)])
  }

  /** A run gives a fate to every target, unless an encode failed, which leaves the rest without one. */
  lemma {:induction false} SpecsRunCount(w: Ffmpeg.OptimizedWrapper, specs: seq<TranscodeSpec>, input: Path,
                                         resolution: (int, int), encoded: Path, fs: FileSystem,
                                         run: seq<string> -> Option<string>)
    ensures var r := SpecsRun(w, specs, input, resolution, encoded, fs, run);
      && (r.error.None? ==> |r.fates| == |specs|)
      && (r.error.Some? ==> |r.fates| < |specs|)
    decreases |specs|
  {
    if |specs| > 0 {
      SpecsRunCount(w, specs[..|specs| - 1], input, resolution, encoded, fs, run);
    }
  }

  /**
   * Every target is either skipped, under its resolution name, or encoded
   * into `encoded` by the command built for it, never both, in the configured
   * order; only a failed encode leaves targets without a fate.
   */
  lemma {:induction false} SpecsRunAligned(w: Ffmpeg.OptimizedWrapper, specs: seq<TranscodeSpec>, input: Path,
                                           resolution: (int, int), encoded: Path, fs: FileSystem,
                                           run: seq<string> -> Option<string>)
    ensures var r := SpecsRun(w, specs, input, resolution, encoded, fs, run);
      && (r.error.None? ==> |r.fates| == |specs|)
      && (r.error.Some? ==> |r.fates| < |specs|)
      && forall i :: 0 <= i < |r.fates| ==> FateFor(w, input, resolution, encoded, specs[i], r.fates[i])
    decreases |specs|
  {
    SpecsRunCount(w, specs, input, resolution, encoded, fs, run);
    if |specs| > 0 {
      var init := specs[..|specs| - 1];
      SpecsRunAligned(w, init, input, resolution, encoded, fs, run);
      var before := SpecsRun(w, init, input, resolution, encoded, fs, run);
      var r := SpecsRun(w, specs, input, resolution, encoded, fs, run);
      var spec := specs[|specs| - 1];
      if before.error.Some? {
        assert r == before;
        assert forall i :: 0 <= i < |before.fates| ==> specs[i] == init[i];
      } else {
        assert forall i :: 0 <= i < |before.fates| ==> FateFor(w, input, resolution, encoded, specs[i], before.fates[i]);
        FatesExtend(w, specs, input, resolution, encoded, fs, run);
      }
    }
  }

  /** When the earlier targets ran without error, the last target's fate joins theirs. */
  lemma FatesExtend(w: Ffmpeg.OptimizedWrapper, specs: seq<TranscodeSpec>, input: Path, resolution: (int, int),
                    encoded: Path, fs: FileSystem, run: seq<string> -> Option<string>)
    requires |specs| > 0
    requires var before := SpecsRun(w, specs[..|specs| - 1], input, resolution, encoded, fs, run);
             && before.error.None? && |before.fates| == |specs| - 1
             && forall i :: 0 <= i < |before.fates| ==> FateFor(w, input, resolution, encoded, specs[i], before.fates[i])
    ensures var r := SpecsRun(w, specs, input, resolution, encoded, fs, run);
            forall i :: 0 <= i < |r.fates| ==> FateFor(w, input, resolution, encoded, specs[i], r.fates[i])
  {
    var before := SpecsRun(w, specs[..|specs| - 1], input, resolution, encoded, fs, run);
    var r := SpecsRun(w, specs, input, resolution, encoded, fs, run);
    var spec := specs[|specs| - 1];
    var k := |before.fates|;
    if ShouldSkipSpec(resolution, spec) {
      assert r.fates == before.fates + [SkippedSpec(spec.ResolutionName())];
    } else {
      var output := FileManager.UniquePath(before.fs, Child(encoded, OutputName(input, spec)));
      var argv := TranscodeArgv(w, input, output, spec);
      if run(argv).None? {
        assert r.fates == before.fates + [Encoded(output, argv)];
        EncodedFate(w, input, resolution, encoded, spec, before.fs);
      } else {
        assert r.fates == before.fates;
      }
    }
    assert k < |r.fates| ==> FateFor(w, input, resolution, encoded, specs[k], r.fates[k]);
    assert |r.fates| <= k + 1 && r.fates[..k] == before.fates;
    forall i | 0 <= i < |r.fates|
      ensures FateFor(w, input, resolution, encoded, specs[i], r.fates[i])
    {
      if i < k {
        assert r.fates[i] == before.fates[i];
      } else {
        assert i == k;
      }
    }
  }

  /** A target that is not skipped is encoded into `encoded` by the command built for it. */
  lemma EncodedFate(w: Ffmpeg.OptimizedWrapper, input: Path, resolution: (int, int), encoded: Path, spec: TranscodeSpec,
                    fs: FileSystem)
    requires !ShouldSkipSpec(resolution, spec)
    ensures var output := FileManager.UniquePath(fs, Child(encoded, OutputName(input, spec)));
            FateFor(w, input, resolution, encoded, spec, Encoded(output, TranscodeArgv(w, input, output, spec)))
  {
    var output := FileManager.UniquePath(fs, Child(encoded, OutputName(input, spec)));
    FileManager.UniquePathFacts(fs, Child(encoded, OutputName(input, spec)));
    TranscodeArgvIsBuiltList(w, input, output, spec);
  }

  /** `after` keeps everything `before` had, and each of `paths` is a new file in it, no two alike. */
  ghost predicate FreshWrites(before: FileSystem, paths: seq<Path>, after: FileSystem)
  {
    && (forall q :: before.Exists(q) ==> after.Exists(q))
    && (forall i :: 0 <= i < |paths| ==> !before.Exists(paths[i]) && after.Exists(paths[i]))
    && (forall i, j :: 0 <= i < j < |paths| ==> paths[i] != paths[j])
  }

  lemma FreshWritesSnoc(before: FileSystem, paths: seq<Path>, mid: FileSystem, p: Path)
    requires FreshWrites(before, paths, mid) && !mid.Exists(p)
    ensures FreshWrites(before, paths + [p], mid.AddFile(p))
  {
    var after := mid.AddFile(p);
    var ps := paths + [p];
    forall i | 0 <= i < |ps|
      ensures !before.Exists(ps[i]) && after.Exists(ps[i])
    {
      if i < |paths| {
        assert ps[i] == paths[i];
      }
    }
    forall i, j | 0 <= i < j < |ps|
      ensures ps[i] != ps[j]
    {
      assert ps[i] == paths[i];
      if j < |paths| {
        assert ps[j] == paths[j];
      }
    }
  }

  lemma FreshWritesConcat(a: FileSystem, p: seq<Path>, b: FileSystem, q: seq<Path>, c: FileSystem)
    requires FreshWrites(a, p, b) && FreshWrites(b, q, c)
    ensures FreshWrites(a, p + q, c)
  {
    var pq := p + q;
    forall i | 0 <= i < |pq|
      ensures !a.Exists(pq[i]) && c.Exists(pq[i])
    {
      if i < |p| {
        assert pq[i] == p[i];
      } else {
        assert pq[i] == q[i - |p|];
      }
    }
    forall i, j | 0 <= i < j < |pq|
      ensures pq[i] != pq[j]
    {
      if j < |p| {
        assert pq[i] == p[i] && pq[j] == p[j];
      } else if i >= |p| {
        assert pq[i] == q[i - |p|] && pq[j] == q[j - |p|];
      } else {
        assert pq[i] == p[i] && pq[j] == q[j - |p|];
        assert b.Exists(p[i]) && !b.Exists(q[j - |p|]);
      }
    }
  }

  lemma FreshWritesFrom(a: FileSystem, b: FileSystem, p: seq<Path>, c: FileSystem)
    requires forall q :: a.Exists(q) ==> b.Exists(q)
    requires FreshWrites(b, p, c)
    ensures FreshWrites(a, p, c)
  {
  }

  /** An encoded target's output is new, so the writes stay fresh and distinct. */
  lemma EncodedFresh(fs: FileSystem, before: SpecRun, output: Path, argv: seq<string>)
    requires FreshWrites(fs, Outputs(before.fates), before.fs) && !before.fs.Exists(output)
    ensures FreshWrites(fs, Outputs(before.fates + [Encoded(output, argv)]), before.fs.AddFile(output))
  {
    var fates := before.fates + [Encoded(output, argv)];
    assert fates[..|before.fates|] == before.fates;
    assert Outputs(fates) == Outputs(before.fates) + [output];
    FreshWritesSnoc(fs, Outputs(before.fates), before.fs, output);
  }

  /**
   * The encodes never overwrite: each goes to a path that did not exist
   * before, no two share a path, each exists afterwards, and nothing that
   * existed is lost.
   */
  lemma {:induction false} SpecsRunFresh(w: Ffmpeg.OptimizedWrapper, specs: seq<TranscodeSpec>, input: Path,
                                         resolution: (int, int), encoded: Path, fs: FileSystem,
                                         run: seq<string> -> Option<string>)
    ensures var r := SpecsRun(w, specs, input, resolution, encoded, fs, run); FreshWrites(fs, Outputs(r.fates), r.fs)
    decreases |specs|
  {
    if |specs| > 0 {
      var init := specs[..|specs| - 1];
      SpecsRunFresh(w, init, input, resolution, encoded, fs, run);
      StepFresh(w, fs, SpecsRun(w, init, input, resolution, encoded, fs, run), specs[|specs| - 1], input, resolution, encoded, run);
    }
  }

  /** One pass of the loop keeps the writes fresh: an encoded target's output is a new, distinct path. */
  lemma StepFresh(w: Ffmpeg.OptimizedWrapper, fs: FileSystem, before: SpecRun, spec: TranscodeSpec, input: Path,
                  resolution: (int, int), encoded: Path, run: seq<string> -> Option<string>)
    requires FreshWrites(fs, Outputs(before.fates), before.fs)
    ensures var r := SpecStep(w, before, spec, input, resolution, encoded, run); FreshWrites(fs, Outputs(r.fates), r.fs)
  {
    if before.error.None? {
      if ShouldSkipSpec(resolution, spec) {
        var fates := before.fates + [SkippedSpec(spec.ResolutionName())];
        assert fates[..|before.fates|] == before.fates;
      } else {
        var output := FileManager.UniquePath(before.fs, Child(encoded, OutputName(input, spec)));
        FileManager.UniquePathFree(before.fs, Child(encoded, OutputName(input, spec)));
        var argv := TranscodeArgv(w, input, output, spec);
        if run(argv).None? {
          EncodedFresh(fs, before, output, argv);
        }
      }
    }
  }

  /** The names of the targets an input of the given size skips, in order: a definition independent of the loop. */
  function SkippedOf(specs: seq<TranscodeSpec>, resolution: (int, int)): seq<string>
  {
    if |specs| == 0 then []
    else
      var spec := specs[|specs| - 1];
      SkippedOf(specs[..|specs| - 1], resolution) + (if ShouldSkipSpec(resolution, spec) then [spec.ResolutionName()] else [])
  }

  /**
   * A loop that ran to the end records exactly the names of the targets the
   * input is too short for, and encodes all the others.
   */
  lemma {:induction false} SkippedNamesMatch(w: Ffmpeg.OptimizedWrapper, specs: seq<TranscodeSpec>, input: Path,
                                             resolution: (int, int), encoded: Path, fs: FileSystem,
                                             run: seq<string> -> Option<string>)
    requires SpecsRun(w, specs, input, resolution, encoded, fs, run).error.None?
    ensures var r := SpecsRun(w, specs, input, resolution, encoded, fs, run);
      SkippedNames(r.fates) == SkippedOf(specs, resolution)
      && |Outputs(r.fates)| + |SkippedOf(specs, resolution)| == |specs|
    decreases |specs|
  {
    if |specs| > 0 {
      var init := specs[..|specs| - 1];
      SkippedNamesMatch(w, init, input, resolution, encoded, fs, run);
    }
  }

  // ---------------------------------------------------------------------
  // Copying the subtitles

  /** The subtitle files under `cleared/`: the `.srt` ones, then the `.ass` ones. */
  function SubtitlesIn(fs: FileSystem, cleared: Path): seq<Path>
  {
    fs.Glob(cleared, ".srt") + fs.Glob(cleared, ".ass")
  }

  /** Where the copies went and the filesystem after them. */
  datatype Copies = Copies(paths: seq<Path>, fs: FileSystem)

  /** Each file copied into `dir` under its own name, or the first free numbered variant of it. */
  function Copied(fs: FileSystem, files: seq<Path>, dir: Path): (c: Copies)
    ensures |c.paths| == |files|
    decreases |files|
  {
    if |files| == 0 then Copies([], fs)
    else
      var before := Copied(fs, files[..|files| - 1], dir);
      var dest := FileManager.UniquePath(before.fs, Child(dir, Name(files[|files| - 1])));
      Copies(before.paths + [dest], before.fs.AddFile(dest))
  }

  /** The copy loop of `process`. */
  method CopySubtitles(fs: FileSystem, files: seq<Path>, dir: Path) returns (paths: seq<Path>, fs': FileSystem)
    ensures Copies(paths, fs') == Copied(fs, files, dir)
  {
    paths, fs' := [], fs;
    var i := 0;
    while i < |files|
      invariant 0 <= i <= |files|
      invariant Copies(paths, fs') == Copied(fs, files[..i], dir)
    {
      assert files[..i + 1][..i] == files[..i];
      var dest := FileManager.GetUniquePath(fs', Child(dir, Name(files[i])));
      paths, fs' := paths + [dest], fs'.AddFile(dest);
      i := i + 1;
    }
    assert files[..i] == files;
  }

  /**
   * Every copy lands in `dir` at a path that did not exist, no two copies
   * share a path, and nothing that existed is lost.
   */
  lemma {:induction false} CopiedFresh(fs: FileSystem, files: seq<Path>, dir: Path)
    ensures var c := Copied(fs, files, dir);
      FreshWrites(fs, c.paths, c.fs) && forall i :: 0 <= i < |files| ==> Parent(c.paths[i]) == dir
    decreases |files|
  {
    if |files| > 0 {
      var init := files[..|files| - 1];
      CopiedFresh(fs, init, dir);
      var before := Copied(fs, init, dir);
      var dest := FileManager.UniquePath(before.fs, Child(dir, Name(files[|files| - 1])));
      FileManager.UniquePathFacts(before.fs, Child(dir, Name(files[|files| - 1])));
      FreshWritesSnoc(fs, before.paths, before.fs, dest);
      var paths := before.paths + [dest];
      forall i | 0 <= i < |files|
        ensures Parent(paths[i]) == dir
      {
        if i < |init| {
          assert paths[i] == before.paths[i];
        }
      }
    }
  }

  /** The first copy keeps its name when nothing of that name is in `dir`. */
  lemma CopiedKeepsFreeName(fs: FileSystem, files: seq<Path>, dir: Path)
    requires |files| > 0 && !fs.Exists(Child(dir, Name(files[0])))
    ensures Copied(fs, files, dir).paths[0] == Child(dir, Name(files[0]))
  {
    CopiedPrefix(fs, files, dir, 1);
    assert files[..1] == [files[0]];
    assert Copied(fs, [], dir) == Copies([], fs);
  }

  /** Copying a prefix copies it the same way. */
  lemma {:induction false} CopiedPrefix(fs: FileSystem, files: seq<Path>, dir: Path, k: nat)
    requires k <= |files|
    ensures Copied(fs, files, dir).paths[..k] == Copied(fs, files[..k], dir).paths
    decreases |files|
  {
    if k < |files| {
      var init := files[..|files| - 1];
      CopiedPrefix(fs, init, dir, k);
      assert init[..k] == files[..k];
    } else {
      assert files[..k] == files;
    }
  }

  // ---------------------------------------------------------------------
  // One drama directory

  /** What `process` runs against: the probe of a video's size and the execution of an ffmpeg command. */
  datatype TranscodeTools = TranscodeTools(resolution: Path -> Result<(int, int)>, run: seq<string> -> Option<string>)

  function ClearedDir(drama: Path): Path
  {
    Child(drama, "cleared")
  }

  function EncodedDir(drama: Path): Path
  {
    Child(drama, "encoded")
  }

  function MissingCleared(dir: Path): string
  {
    "cleared/ 目录不存在: " + ToString(dir)
  }

  function NoClearedVideo(dir: Path): string
  {
    "cleared/ 目录中没有找到视频文件: " + ToString(dir)
  }

  function FfmpegFailed(detail: string): string
  {
    "FFmpeg 错误: " + detail
  }

  /** The message of any other exception in `process`. */
  function TranscodeFailed(detail: string): string
  {
    "转码失败: " + detail
  }

  /** What `process` leaves: the result, the targets' fates, the subtitle copies and the filesystem. */
  datatype Outcome = Outcome(result: ProcessingResult, fates: seq<SpecFate>, copies: seq<Path>, fs: FileSystem)

  /**
   * The shape of every result: for the drama directory, in the given time;
   * COMPLETED with `encoded/` as output and no error, or FAILED with an error
   * and no output.
   */
  predicate WellFormed(r: ProcessingResult, drama: Path, elapsed: real)
  {
    && r.inputPath == drama && r.durationSeconds == elapsed
    && (r.status == Completed ==> r.outputPath == Some(EncodedDir(drama)) && r.errorMessage.None?)
    && (r.status != Completed ==> r.status == Failed && r.outputPath.None? && r.errorMessage.Some?)
  }

  /**
   * `process`: the first `.mp4` under `cleared/` is probed, `encoded/` is
   * made, and the video is encoded to every target in turn; the subtitles
   * are copied when all encodes succeed. A failed probe or encode is an
   * FFmpeg error; a file in the place of `encoded/` is any other error.
   */
  function Processed(fs: FileSystem, drama: Path, t: VideoTranscoder, tools: TranscodeTools, elapsed: real): (o: Outcome)
    ensures WellFormed(o.result, drama, elapsed)
  {
    var cleared := ClearedDir(drama);
    if !fs.Exists(cleared) then Outcome(FailedResult(drama, MissingCleared(cleared), elapsed), [], [], fs)
    else
      var videos := fs.Glob(cleared, ".mp4");
      if |videos| == 0 then Outcome(FailedResult(drama, NoClearedVideo(cleared), elapsed), [], [], fs)
      else
        match tools.resolution(videos[0])
        case Err(e) => Outcome(FailedResult(drama, FfmpegFailed(e), elapsed), [], [], fs)
        case Ok(resolution) =>
          var encoded := EncodedDir(drama);
          match fs.MkDir(encoded)
          case Err(e) => Outcome(FailedResult(drama, TranscodeFailed(e), elapsed), [], [], fs)
          case Ok(start) =>
            var r := SpecsRun(t.wrapper, t.specs, videos[0], resolution, encoded, start, tools.run);
            if r.error.Some? then Outcome(FailedResult(drama, FfmpegFailed(r.error.value), elapsed), r.fates, [], r.fs)
            else
              var c := Copied(r.fs, SubtitlesIn(r.fs, cleared), encoded);
              Outcome(ProcessingResult(Completed, drama, Some(encoded), None, elapsed), r.fates, c.paths, c.fs)
  }

  /** `process` on one drama directory. */
  method Process(fs: FileSystem, drama: Path, t: VideoTranscoder, tools: TranscodeTools, elapsed: real)
    returns (result: ProcessingResult, outputFiles: seq<Path>, skippedSpecs: seq<string>, copies: seq<Path>, fs': FileSystem)
    ensures var o := Processed(fs, drama, t, tools, elapsed);
      result == o.result && outputFiles == Outputs(o.fates) && skippedSpecs == SkippedNames(o.fates)
      && copies == o.copies && fs' == o.fs
  {
    outputFiles, skippedSpecs, copies, fs' := [], [], [], fs;
    var cleared := ClearedDir(drama);
    if !fs.Exists(cleared) {
      result := FailedResult(drama, MissingCleared(cleared), elapsed);
      return;
    }
    var videos := fs.Glob(cleared, ".mp4");
    if |videos| == 0 {
      result := FailedResult(drama, NoClearedVideo(cleared), elapsed);
      return;
    }
    var input := videos[0];
    var resolution := tools.resolution(input);
    if resolution.Err? {
      result := FailedResult(drama, FfmpegFailed(resolution.error), elapsed);
      return;
    }
    var encoded := EncodedDir(drama);
    var made := fs.MkDir(encoded);
    if made.Err? {
      result := FailedResult(drama, TranscodeFailed(made.error), elapsed);
      return;
    }
    fs' := made.value;
    var error;
    outputFiles, skippedSpecs, fs', error := TranscodeAll(t.wrapper, t.specs, input, resolution.value, encoded, fs', tools.run);
    if error.Some? {
      result := FailedResult(drama, FfmpegFailed(error.value), elapsed);
      return;
    }
    copies, fs' := CopySubtitles(fs', SubtitlesIn(fs', cleared), encoded);
    result := ProcessingResult(Completed, drama, Some(encoded), None, elapsed);
  }

  /** The guards of `process`: without `cleared/`, or without an `.mp4` in it, nothing is probed, encoded or written. */
  lemma ProcessGuards(fs: FileSystem, drama: Path, t: VideoTranscoder, tools: TranscodeTools, elapsed: real)
    ensures var o := Processed(fs, drama, t, tools, elapsed);
      !fs.Exists(ClearedDir(drama)) ==>
        o.result == FailedResult(drama, MissingCleared(ClearedDir(drama)), elapsed) && o.fates == [] && o.fs == fs
    ensures var o := Processed(fs, drama, t, tools, elapsed);
      fs.Exists(ClearedDir(drama)) && |fs.Glob(ClearedDir(drama), ".mp4")| == 0 ==>
        o.result == FailedResult(drama, NoClearedVideo(ClearedDir(drama)), elapsed) && o.fates == [] && o.fs == fs
  {
  }

  /**
   * A file in the place of `encoded/` fails `process` once the probe has
   * succeeded, with the FileExistsError's text, before anything is encoded.
   */
  lemma ProcessBlocked(fs: FileSystem, drama: Path, t: VideoTranscoder, tools: TranscodeTools, elapsed: real)
    requires fs.Exists(ClearedDir(drama)) && |fs.Glob(ClearedDir(drama), ".mp4")| > 0
    requires tools.resolution(fs.Glob(ClearedDir(drama), ".mp4")[0]).Ok? && fs.IsFile(EncodedDir(drama))
    ensures var o := Processed(fs, drama, t, tools, elapsed);
      o.result == FailedResult(drama, TranscodeFailed(FileExists(EncodedDir(drama))), elapsed) && o.fates == [] && o.fs == fs
  {
  }

  /**
   * `process` completes exactly when `cleared/` holds a video whose probe
   * succeeds, `encoded/` can be made and no encode fails; then every target
   * has its fate, in order, the skipped ones are exactly those taller than
   * the input, and every encode and copy is a new file.
   */
  lemma ProcessCompletes(fs: FileSystem, drama: Path, t: VideoTranscoder, tools: TranscodeTools, elapsed: real)
    ensures var o := Processed(fs, drama, t, tools, elapsed);
      o.result.status == Completed <==>
        && fs.Exists(ClearedDir(drama)) && |fs.Glob(ClearedDir(drama), ".mp4")| > 0
        && tools.resolution(fs.Glob(ClearedDir(drama), ".mp4")[0]).Ok?
        && !fs.IsFile(EncodedDir(drama))
        && SpecsRun(t.wrapper, t.specs, fs.Glob(ClearedDir(drama), ".mp4")[0],
                    tools.resolution(fs.Glob(ClearedDir(drama), ".mp4")[0]).value, EncodedDir(drama),
                    fs.AddDir(EncodedDir(drama)), tools.run).error.None?
  {
  }

  /** A completed run made `encoded/` and ran every target on it, then copied the subtitles. */
  lemma CompletedRan(fs: FileSystem, drama: Path, t: VideoTranscoder, tools: TranscodeTools, elapsed: real)
    requires Processed(fs, drama, t, tools, elapsed).result.status == Completed
    ensures fs.Exists(ClearedDir(drama)) && |fs.Glob(ClearedDir(drama), ".mp4")| > 0
    ensures tools.resolution(fs.Glob(ClearedDir(drama), ".mp4")[0]).Ok? && !fs.IsFile(EncodedDir(drama))
    ensures var o := Processed(fs, drama, t, tools, elapsed);
      var input := fs.Glob(ClearedDir(drama), ".mp4")[0];
      var r := SpecsRun(t.wrapper, t.specs, input, tools.resolution(input).value, EncodedDir(drama),
                        fs.AddDir(EncodedDir(drama)), tools.run);
      var c := Copied(r.fs, SubtitlesIn(r.fs, ClearedDir(drama)), EncodedDir(drama));
      r.error.None? && o.fates == r.fates && o.copies == c.paths && o.fs == c.fs
  {
  }

  /** A completed run has one fate per target, the skipped ones exactly those above the input's height. */
  lemma CompletedCoversSpecs(fs: FileSystem, drama: Path, t: VideoTranscoder, tools: TranscodeTools, elapsed: real)
    requires Processed(fs, drama, t, tools, elapsed).result.status == Completed
    ensures var o := Processed(fs, drama, t, tools, elapsed);
      var input := fs.Glob(ClearedDir(drama), ".mp4")[0];
      var resolution := tools.resolution(input).value;
      && |o.fates| == |t.specs|
      && (forall i :: 0 <= i < |t.specs| ==> FateFor(t.wrapper, input, resolution, EncodedDir(drama), t.specs[i], o.fates[i]))
      && SkippedNames(o.fates) == SkippedOf(t.specs, resolution)
  {
    var input := fs.Glob(ClearedDir(drama), ".mp4")[0];
    var resolution := tools.resolution(input).value;
    var encoded := EncodedDir(drama);
    CompletedRan(fs, drama, t, tools, elapsed);
    SpecsRunAligned(t.wrapper, t.specs, input, resolution, encoded, fs.AddDir(encoded), tools.run);
    SkippedNamesMatch(t.wrapper, t.specs, input, resolution, encoded, fs.AddDir(encoded), tools.run);
  }

  /** Nothing existing is lost, and every encode and every copy is a new file, distinct from all the others. */
  lemma CompletedWritesFresh(fs: FileSystem, drama: Path, t: VideoTranscoder, tools: TranscodeTools, elapsed: real)
    requires Processed(fs, drama, t, tools, elapsed).result.status == Completed
    ensures var o := Processed(fs, drama, t, tools, elapsed); FreshWrites(fs, Outputs(o.fates) + o.copies, o.fs)
  {
    var input := fs.Glob(ClearedDir(drama), ".mp4")[0];
    var resolution := tools.resolution(input).value;
    var encoded := EncodedDir(drama);
    var start := fs.AddDir(encoded);
    CompletedRan(fs, drama, t, tools, elapsed);
    SpecsRunFresh(t.wrapper, t.specs, input, resolution, encoded, start, tools.run);
    var r := SpecsRun(t.wrapper, t.specs, input, resolution, encoded, start, tools.run);
    FreshWritesFrom(fs, start, Outputs(r.fates), r.fs);
    var c := Copied(r.fs, SubtitlesIn(r.fs, ClearedDir(drama)), encoded);
    CopiedFresh(r.fs, SubtitlesIn(r.fs, ClearedDir(drama)), encoded);
    FreshWritesConcat(fs, Outputs(r.fates), r.fs, c.paths, c.fs);
  }

  // ---------------------------------------------------------------------
  // A batch

  /** The results, the callback calls and the filesystem left by a batch. */
  datatype Batch = Batch(results: seq<ProcessingResult>, events: seq<ProgressEvent>, fs: FileSystem)

  /** One directory's processing, as a step of a batch. */
  function ProcessStep(t: VideoTranscoder, tools: TranscodeTools): (FileSystem, Path, real) -> Outcome
  {
    (f: FileSystem, d: Path, e: real) => Processed(f, d, t, tools, e)
  }

  /**
   * `process_batch` over the first `|dramas|` directories, in order, each
   * processed by `step` on the filesystem the earlier ones left; with a
   * callback each is framed by its start and completion calls. `clock(i)` is
   * the time the `i`-th takes.
   */
  function BatchRun(fs: FileSystem, dramas: seq<Path>, step: (FileSystem, Path, real) -> Outcome, callback: bool,
                    clock: nat -> real): (b: Batch)
    ensures |b.results| == |dramas|
    decreases |dramas|
  {
    if |dramas| == 0 then Batch([], [], fs)
    else
      var i := |dramas| - 1;
      var before := BatchRun(fs, dramas[..i], step, callback, clock);
      var o := step(before.fs, dramas[i], clock(i));
      var calls := if callback then [OnFileStart(ToString(dramas[i])), OnFileComplete(o.result)] else [];
      Batch(before.results + [o.result], before.events + calls, o.fs)
  }

  /** One more directory of a batch extends the run of the ones before it. */
  lemma BatchRunNext(fs: FileSystem, dramas: seq<Path>, step: (FileSystem, Path, real) -> Outcome, callback: bool,
                     clock: nat -> real, i: nat)
    requires i < |dramas|
    ensures var before := BatchRun(fs, dramas[..i], step, callback, clock);
            var o := step(before.fs, dramas[i], clock(i));
            var calls := if callback then [OnFileStart(ToString(dramas[i])), OnFileComplete(o.result)] else [];
            BatchRun(fs, dramas[..i + 1], step, callback, clock) == Batch(before.results + [o.result], before.events + calls, o.fs)
  {
    assert dramas[..i + 1][..i] == dramas[..i];
  }

  /** `process_batch`: every directory is processed, whatever happened to the ones before it. */
  method ProcessBatch(fs: FileSystem, dramas: seq<Path>, t: VideoTranscoder, tools: TranscodeTools, callback: bool,
                      clock: nat -> real)
    returns (results: seq<ProcessingResult>, events: seq<ProgressEvent>, fs': FileSystem)
    ensures Batch(results, events, fs') == BatchRun(fs, dramas, ProcessStep(t, tools), callback, clock)
  {
    results, events, fs' := [], [], fs;
    var i := 0;
    while i < |dramas|
      invariant 0 <= i <= |dramas|
      invariant Batch(results, events, fs') == BatchRun(fs, dramas[..i], ProcessStep(t, tools), callback, clock)
    {
      results, events, fs' := ProcessNext(fs, dramas, t, tools, callback, clock, i, results, events, fs');
      i := i + 1;
    }
    assert dramas[..i] == dramas;
  }

  /** The body of the `process_batch` loop: the `i`-th directory, after the ones before it. */
  method ProcessNext(fs: FileSystem, dramas: seq<Path>, t: VideoTranscoder, tools: TranscodeTools, callback: bool,
                     clock: nat -> real, i: nat, results: seq<ProcessingResult>, events: seq<ProgressEvent>, current: FileSystem)
    returns (results': seq<ProcessingResult>, events': seq<ProgressEvent>, fs': FileSystem)
    requires i < |dramas|
    requires Batch(results, events, current) == BatchRun(fs, dramas[..i], ProcessStep(t, tools), callback, clock)
    ensures Batch(results', events', fs') == BatchRun(fs, dramas[..i + 1], ProcessStep(t, tools), callback, clock)
  {
    var r, outputFiles, skippedSpecs, copies, next := Process(current, dramas[i], t, tools, clock(i));
    BatchRunNext(fs, dramas, ProcessStep(t, tools), callback, clock, i);
    var calls := if callback then [OnFileStart(ToString(dramas[i])), OnFileComplete(r)] else [];
    results', events', fs' := results + [r], events + calls, next;
  }

  /** Every result a step gives belongs to the directory it was given, in its time, and is well formed. */
  ghost predicate StepWellFormed(step: (FileSystem, Path, real) -> Outcome)
  {
    forall f, d, e :: WellFormed(step(f, d, e).result, d, e)
  }

  lemma ProcessStepWellFormed(t: VideoTranscoder, tools: TranscodeTools)
    ensures StepWellFormed(ProcessStep(t, tools))
  {
  }

  /** One result per directory, in order, each for that directory, in its time, and well formed. */
  lemma {:induction false} BatchResults(fs: FileSystem, dramas: seq<Path>, step: (FileSystem, Path, real) -> Outcome,
                                        callback: bool, clock: nat -> real)
    requires StepWellFormed(step)
    ensures var b := BatchRun(fs, dramas, step, callback, clock);
      forall i :: 0 <= i < |dramas| ==> WellFormed(b.results[i], dramas[i], clock(i))
    decreases |dramas|
  {
    if |dramas| > 0 {
      var n := |dramas| - 1;
      var init := dramas[..n];
      BatchResults(fs, init, step, callback, clock);
      var before := BatchRun(fs, init, step, callback, clock);
      var b := BatchRun(fs, dramas, step, callback, clock);
      assert forall i :: 0 <= i < n ==> b.results[i] == before.results[i];
      assert forall i :: 0 <= i < n ==> dramas[i] == init[i];
    }
  }

  /**
   * With a callback, the calls are the start and the completion of each
   * directory in turn, the completion carrying its result; without one there
   * are none.
   */
  lemma {:induction false} BatchEvents(fs: FileSystem, dramas: seq<Path>, step: (FileSystem, Path, real) -> Outcome,
                                       callback: bool, clock: nat -> real)
    ensures var b := BatchRun(fs, dramas, step, callback, clock);
      && (callback ==> |b.events| == 2 * |dramas| && forall i :: 0 <= i < |dramas| ==>
            b.events[2 * i] == OnFileStart(ToString(dramas[i])) && b.events[2 * i + 1] == OnFileComplete(b.results[i]))
      && (!callback ==> b.events == [])
    decreases |dramas|
  {
    if |dramas| > 0 {
      var n := |dramas| - 1;
      var init := dramas[..n];
      BatchEvents(fs, init, step, callback, clock);
      var before := BatchRun(fs, init, step, callback, clock);
      var b := BatchRun(fs, dramas, step, callback, clock);
      if callback {
        forall i | 0 <= i < |dramas|
          ensures b.events[2 * i] == OnFileStart(ToString(dramas[i])) && b.events[2 * i + 1] == OnFileComplete(b.results[i])
        {
          if i < n {
            assert dramas[i] == init[i];
            assert b.events[2 * i] == before.events[2 * i] && b.events[2 * i + 1] == before.events[2 * i + 1];
            assert b.results[i] == before.results[i];
          }
        }
      }
    }
  }
}
