// separator.py: `AudioSeparator` takes the first video under `merged/`,
// extracts its audio, has Spleeter split it into vocals and accompaniment
// (in 480-second segments when the audio is longer than ten minutes),
// optionally mixes some accompaniment back, and writes the video with the
// new audio to `cleared/`. Spleeter, ffmpeg and the duration probes are the
// parameters of `SeparatorTools`; what the audio files hold is described by
// `Track`.
module Separator {
  import opened Results
  import opened Text
  import opened Paths
  import opened Models
  import Ffmpeg
  import FileManager

  // ---------------------------------------------------------------------
  // Settings

  /** `max(0.0, min(1.0, v))`. */
  function Clamp01(v: real): (r: real)
    ensures 0.0 <= r <= 1.0
    ensures 0.0 <= v <= 1.0 ==> r == v
    ensures v < 0.0 ==> r == 0.0
    ensures v > 1.0 ==> r == 1.0
  {
    var m := if v < 1.0 then v else 1.0;
    if 0.0 > m then 0.0 else m
  }

  /** Clamping twice is clamping once. */
  lemma ClampIdempotent(v: real)
    ensures Clamp01(Clamp01(v)) == Clamp01(v)
  {
  }

  /** The separation model and the share of accompaniment mixed back. */
  datatype Settings = Settings(model: string, accompanimentVolume: real)

  // ---------------------------------------------------------------------
  // The availability check

  /** How `spleeter --help` ended: with an exit code, not found, or past its timeout. */
  datatype HelpRun = HelpExited(code: int) | HelpMissing | HelpTimedOut

  const NotInstalled := "Spleeter 未正确安装。请运行: pip install spleeter==2.3.0"
  const NotFound := "未找到 Spleeter。请运行: pip install spleeter==2.3.0"

  /** `_check_separator_available`: the error it raises, if any; a timeout counts as available. */
  function SeparatorCheck(h: HelpRun): (r: Option<string>)
    ensures r.None? <==> h == HelpExited(0) || h.HelpTimedOut?
    ensures h.HelpMissing? ==> r == Some(NotFound)
    ensures h.HelpExited? && h.code != 0 ==> r == Some(NotInstalled)
  {
    match h
    case HelpExited(code) => if code != 0 then Some(NotInstalled) else None
    case HelpMissing => Some(NotFound)
    case HelpTimedOut => None
  }

  // ---------------------------------------------------------------------
  // Durations

  /** Python's `int()` of a float: truncation toward zero. */
  function Trunc(x: real): (r: int)
    ensures x >= 0.0 ==> r as real <= x < r as real + 1.0
    ensures x < 0.0 ==> r as real - 1.0 < x <= r as real
  {
    if x >= 0.0 then x.Floor else -((-x).Floor)
  }

  /** The duration `separate_vocals` goes by: the measured one, or 0 when the probe fails. */
  function DurationOrZero(measured: Result<real>): real
  {
    if measured.Ok? then measured.value else 0.0
  }

  /** Audio longer than this many seconds is separated in segments. */
  const LongAudio := 600.0

  /** The segmented path is taken exactly when a duration was measured and it exceeds ten minutes. */
  lemma LongPathChoice(measured: Result<real>)
    ensures DurationOrZero(measured) > LongAudio <==> measured.Ok? && measured.value > 600.0
  {
  }

  // ---------------------------------------------------------------------
  // One Spleeter run

  /** `int(audio_duration) + 1`, when the duration could be read. */
  function DurationParam(measured: Result<real>): Option<int>
  {
    if measured.Ok? then Some(Trunc(measured.value) + 1) else None
  }

  /** The Spleeter command line; `-d` is added only for a duration parameter that is not 0. */
  function SpleeterArgs(model: string, outDir: Path, audio: Path, measured: Result<real>): seq<string>
  {
    var param := DurationParam(measured);
    ["spleeter", "separate", "-p", model, "-o", ToString(outDir)]
    + (if param.Some? && param.value != 0 then ["-d", IntToString(param.value)] else [])
    + [ToString(audio)]
  }


  /**
   * With a readable, non-negative duration `d` Spleeter is told to process
   * `⌊d⌋ + 1` seconds, just before the audio path; without one the audio
   * path directly follows the output directory.
   */
  lemma SpleeterDuration(model: string, outDir: Path, audio: Path, measured: Result<real>)
    ensures var args := SpleeterArgs(model, outDir, audio, measured);
      measured.Ok? && measured.value >= 0.0 ==>
        |args| == 9 && args[6] == "-d" && args[7] == IntToString(measured.value.Floor + 1)
        && args[8] == ToString(audio)
    ensures var args := SpleeterArgs(model, outDir, audio, measured);
      measured.Err? ==>
        args == ["spleeter", "separate", "-p", model, "-o", ToString(outDir), ToString(audio)]
  {
  }

  const SpleeterFailedHead := "Spleeter 执行失败 (返回码: "
  const SpleeterCrashed := "Spleeter 执行错误: "
  const MissingVocals := "未找到人声文件: "
  const MissingAccompaniment := "未找到背景音乐文件: "

  /** How the Spleeter process ended: an exit code with its stderr and the stems it left, a timeout, or a failure to start. */
  datatype SpleeterExit =
    | Exited(code: int, stderr: string, wroteVocals: bool, wroteAccompaniment: bool)
    | SpleeterTimedOut
    | Crashed(message: string)

  const Killed := "Spleeter 被系统终止（可能是内存不足）。建议：1) 增加系统内存或 swap；2) 使用分段处理（音频会自动分段）"
  const SpleeterTimeout := "Spleeter 执行超时（超过 60 分钟）"

  function SpleeterFailed(code: int, stderr: string): string
  {
    SpleeterFailedHead + IntToString(code) + "):\n" + stderr
  }

  /**
   * The error `_separate_with_spleeter` raises for a finished Spleeter run,
   * if any: a kill, another non-zero exit, a timeout, a failure to start,
   * or a missing stem.
   */
  function SpleeterError(e: SpleeterExit, vocals: Path, accompaniment: Path): (r: Option<string>)
    ensures r.None? <==> e.Exited? && e.code == 0 && e.wroteVocals && e.wroteAccompaniment
    ensures e.Exited? && e.code == -9 ==> r == Some(Killed)
    ensures e.Exited? && e.code == 0 && !e.wroteVocals ==> r == Some(MissingVocals + ToString(vocals))
  {
    match e
    case Exited(code, stderr, wroteVocals, wroteAccompaniment) =>
      if code != 0 then
        if code == -9 then Some(Killed) else Some(SpleeterFailed(code, stderr))
      else if !wroteVocals then Some(MissingVocals + ToString(vocals))
      else if !wroteAccompaniment then Some(MissingAccompaniment + ToString(accompaniment))
      else None
    case SpleeterTimedOut => Some(SpleeterTimeout)
    case Crashed(message) => Some(SpleeterCrashed + message)
  }

  // ---------------------------------------------------------------------
  // What the audio files hold

  /**
   * The content of an audio file: the voice or the accompaniment stem of
   * some source audio, a mix of two tracks with the second scaled by a
   * volume (the first keeps volume 1.0), or segments joined end to end.
   */
  datatype Track =
    | Vocals(source: Path)
    | Backing(source: Path)
    | Mixed(voice: Track, backing: Track, volume: real)
    | Joined(parts: seq<Track>)

  /** A level scaled by a mixing volume. */
  function Scaled(volume: real, level: real): real
  {
    volume * level
  }

  /**
   * The level of accompaniment in a track, relative to the original
   * accompaniment; `None` when joined segments do not agree on it. The
   * normalisation of `amix` is not part of this measure.
   */
  function Level(t: Track): Option<real>
  {
    match t
    case Vocals(_) => Some(0.0)
    case Backing(_) => Some(1.0)
    case Mixed(voice, backing, volume) =>
      var a := Level(voice);
      var b := Level(backing);
      if a.Some? && b.Some? then Some(a.value + Scaled(volume, b.value)) else None
    case Joined(parts) =>
      if |parts| > 0 && forall i :: 0 <= i < |parts| ==> Level(parts[i]) == Level(parts[0]) then Level(parts[0])
      else None
  }

  /** Segments that all carry the same level, joined, carry that level. */
  lemma JoinedLevel(parts: seq<Track>, x: real)
    requires |parts| > 0
    requires forall i :: 0 <= i < |parts| ==> Level(parts[i]) == Some(x)
    ensures Level(Joined(parts)) == Some(x)
  {
    assert Level(parts[0]) == Some(x);
  }

  /** Mixing a track with the full accompaniment stem at some volume adds that volume to its level. */
  lemma MixedLevel(voice: Track, backing: Track, volume: real, a: real)
    requires Level(voice) == Some(a) && Level(backing) == Some(1.0)
    ensures Level(Mixed(voice, backing, volume)) == Some(a + volume)
  {
    assert Scaled(volume, 1.0) == volume;
  }

  /** The two files a separation returns, and what each holds. */
  datatype Separation = Separation(first: Path, firstHolds: Track, second: Path, secondHolds: Track)

  /**
   * The external programs: the audio and video duration probes, ffmpeg
   * (the text of its error, or `None` on success), Spleeter, and Python's
   * `str` of a float.
   */
  datatype SeparatorTools = SeparatorTools(
    audioDuration: Path -> Result<real>,
    videoDuration: Path -> Result<real>,
    run: seq<string> -> Option<string>,
    spleeter: seq<string> -> SpleeterExit,
    showFloat: real -> string)

  /** File and directory names of the separation, and the ffmpeg audio options it repeats. */
  const VocalsFile := "vocals.wav"
  const AccompanimentFile := "accompaniment.wav"
  const MixedFile := "mixed.wav"
  const SegmentsDirName := "segments"
  const SeparatedSuffix := "_separated"
  const ConcatListSuffix := "_concat.txt"
  const ConcatFailedHead := "音频合并失败: "
  const FilterHead := "[0:a]volume=1.0[v];[1:a]volume="
  const FilterTail := "[b];[v][b]amix=inputs=2:duration=first"
  const PcmOptions := ["-acodec", "pcm_s16le", "-ar", "44100", "-ac", "2", "-y"]

  /** The `amix` command: the voice at volume 1.0, the accompaniment at `volume`, as long as the voice. */
  function MixArgs(vocals: Path, accompaniment: Path, output: Path, volume: real, showFloat: real -> string): seq<string>
  {
    Ffmpeg.CommandLine(Ffmpeg.FFmpegCommand([vocals, accompaniment], output,
      ["-filter_complex", FilterHead + showFloat(volume) + FilterTail] + PcmOptions))
  }

  /**
   * `_separate_with_spleeter`: Spleeter writes `<outDir>/<stem>/vocals.wav`
   * and `accompaniment.wav`; with a positive accompaniment volume the two
   * are mixed into `<outDir>/mixed.wav`, which is returned in place of the
   * vocals.
   */
  function WithSpleeter(s: Settings, audio: Path, outDir: Path, tools: SeparatorTools): Result<Separation>
  {
    var args := SpleeterArgs(s.model, outDir, audio, tools.audioDuration(audio));
    var stems := Child(outDir, Stem(Name(audio)));
    var vocals := Child(stems, VocalsFile);
    var accompaniment := Child(stems, AccompanimentFile);
    var failure := SpleeterError(tools.spleeter(args), vocals, accompaniment);
    if failure.Some? then Err(failure.value)
    else if s.accompanimentVolume > 0.0 then
      var mixed := Child(outDir, MixedFile);
      var mixError := tools.run(MixArgs(vocals, accompaniment, mixed, s.accompanimentVolume, tools.showFloat));
      if mixError.Some? then Err(mixError.value)
      else Ok(Separation(mixed, Mixed(Vocals(audio), Backing(audio), s.accompanimentVolume), accompaniment, Backing(audio)))
    else Ok(Separation(vocals, Vocals(audio), accompaniment, Backing(audio)))
  }

  /**
   * A successful Spleeter run returns the mix (or the bare vocals when the
   * volume is 0) and the accompaniment stem, and the first carries exactly
   * the configured accompaniment level.
   */
  lemma WithSpleeterHolds(s: Settings, audio: Path, outDir: Path, tools: SeparatorTools)
    requires 0.0 <= s.accompanimentVolume
    ensures var r := WithSpleeter(s, audio, outDir, tools);
      r.Ok? ==>
        && r.value.firstHolds == (if s.accompanimentVolume > 0.0 then Mixed(Vocals(audio), Backing(audio), s.accompanimentVolume)
                                  else Vocals(audio))
        && r.value.second == Child(Child(outDir, Stem(Name(audio))), AccompanimentFile)
        && r.value.secondHolds == Backing(audio)
        && Level(r.value.firstHolds) == Some(s.accompanimentVolume)
  {
  }

  // ---------------------------------------------------------------------
  // Long audio: 480-second segments

  /** Seconds per segment. */
  const SegmentSeconds := 480

  /** `int((duration + 480 - 1) / 480)`. */
  function SegmentCount(d: real): int
  {
    Trunc((d + 479.0) / 480.0)
  }

  function SegmentStart(i: int): int
  {
    SegmentSeconds * i
  }

  /** Every segment lasts 480 seconds except the last, which runs to the end. */
  function SegmentLength(d: real, n: int, i: int): real
  {
    if i == n - 1 then d - SegmentStart(i) as real else SegmentSeconds as real
  }

  /** The seconds covered by the first `k` segments. */
  function Covered(d: real, n: int, k: nat): real
  {
    if k == 0 then 0.0 else Covered(d, n, k - 1) + SegmentLength(d, n, k - 1)
  }

  /**
   * Long audio is cut into at least two segments, the last lasting at least
   * one second and less than 481; each segment starts where the ones before
   * it end, and all of them together cover exactly the whole audio.
   */
  lemma SegmentPlan(d: real)
    requires d > LongAudio
    ensures var n := SegmentCount(d);
      && n >= 2
      && 1.0 <= SegmentLength(d, n, n - 1) < 481.0
      && (forall k: nat :: k < n ==> Covered(d, n, k) == SegmentStart(k) as real)
      && Covered(d, n, n) == d
  {
    var n := SegmentCount(d);
    var q := (d + 479.0) / 480.0;
    assert n as real <= q < n as real + 1.0;
    forall k: nat | k < n
      ensures Covered(d, n, k) == SegmentStart(k) as real
    {
      CoveredBeforeLast(d, n, k);
    }
    CoveredBeforeLast(d, n, n - 1);
  }

  lemma {:induction false} CoveredBeforeLast(d: real, n: int, k: nat)
    requires k < n
    ensures Covered(d, n, k) == SegmentStart(k) as real
  {
    if k > 0 {
      CoveredBeforeLast(d, n, k - 1);
    }
  }

  function SegmentPath(segmentsDir: Path, i: int): Path
  {
    Child(segmentsDir, "segment_" + FormatInt(i, 3) + ".wav")
  }

  function SegmentOutDir(segmentsDir: Path, i: int): Path
  {
    Child(segmentsDir, "output_" + FormatInt(i, 3))
  }

  /**
   * The `-t` argument: the integer 480 for every segment but the last, whose
   * length is a float written by `showFloat`.
   */
  function LengthText(d: real, n: int, i: int, showFloat: real -> string): string
  {
    if i == n - 1 then showFloat(SegmentLength(d, n, i)) else IntToString(SegmentSeconds)
  }

  /** `_extract_audio_segment`: the ffmpeg command cutting one segment out of the audio. */
  function ExtractSegmentArgs(audio: Path, segment: Path, start: int, length: string): seq<string>
  {
    Ffmpeg.CommandLine(Ffmpeg.FFmpegCommand([audio], segment,
      ["-ss", IntToString(start), "-t", length] + PcmOptions))
  }

  /** Segment `i` cut out and separated on its own. */
  function SegmentStep(s: Settings, audio: Path, segmentsDir: Path, d: real, n: int, tools: SeparatorTools, i: int)
    : Result<Separation>
  {
    var segment := SegmentPath(segmentsDir, i);
    var cut := tools.run(ExtractSegmentArgs(audio, segment, SegmentStart(i), LengthText(d, n, i, tools.showFloat)));
    if cut.Some? then Err(cut.value) else WithSpleeter(s, segment, SegmentOutDir(segmentsDir, i), tools)
  }

  /** A segment that separates carries the segment volume in its vocals and the full stem in its accompaniment. */
  lemma SegmentStepLevels(s: Settings, audio: Path, segmentsDir: Path, d: real, n: int, tools: SeparatorTools, i: int)
    requires 0.0 <= s.accompanimentVolume
    ensures var r := SegmentStep(s, audio, segmentsDir, d, n, tools, i);
      r.Ok? ==> Level(r.value.firstHolds) == Some(s.accompanimentVolume) && Level(r.value.secondHolds) == Some(1.0)
  {
    WithSpleeterHolds(s, SegmentPath(segmentsDir, i), SegmentOutDir(segmentsDir, i), tools);
  }

  /** The segment step of one long separation, as a function of the segment index. */
  function SegmentSteps(s: Settings, audio: Path, segmentsDir: Path, d: real, n: int, tools: SeparatorTools)
    : int -> Result<Separation>
  {
    i => SegmentStep(s, audio, segmentsDir, d, n, tools, i)
  }

  /** The segment loop so far: the returned files and their contents, and the first error. */
  datatype SegmentsRun = SegmentsRun(vocals: seq<Path>, voices: seq<Track>, backings: seq<Path>, backs: seq<Track>,
                                     error: Option<string>)

  /** The first `k` rounds of the segment loop, round `i` being `step(i)`; the first error ends it. */
  function SegmentsDone(step: int -> Result<Separation>, k: nat): SegmentsRun
  {
    if k == 0 then SegmentsRun([], [], [], [], None)
    else
      var before := SegmentsDone(step, k - 1);
      if before.error.Some? then before
      else
        match step(k - 1)
        case Err(e) => before.(error := Some(e))
        case Ok(sep) =>
          SegmentsRun(before.vocals + [sep.first], before.voices + [sep.firstHolds],
                      before.backings + [sep.second], before.backs + [sep.secondHolds], None)
  }

  /** Once a segment has failed, later rounds change nothing. */
  lemma {:induction false} SegmentErrorSticks(step: int -> Result<Separation>, i: nat, k: nat)
    requires i <= k
    requires SegmentsDone(step, i).error.Some?
    ensures SegmentsDone(step, k) == SegmentsDone(step, i)
    decreases k
  {
    if k > i {
      SegmentErrorSticks(step, i, k - 1);
    }
  }

  /**
   * Without an error, round `i` contributed the `i`-th entry of every list:
   * what segment `i`'s separation returned.
   */
  lemma {:induction false} SegmentsAligned(step: int -> Result<Separation>, k: nat)
    ensures var r := SegmentsDone(step, k);
      r.error.None? ==>
        && |r.vocals| == k && |r.voices| == k && |r.backings| == k && |r.backs| == k
        && forall i :: 0 <= i < k ==>
             step(i).Ok? && r.vocals[i] == step(i).value.first && r.voices[i] == step(i).value.firstHolds
             && r.backings[i] == step(i).value.second && r.backs[i] == step(i).value.secondHolds
  {
    if k > 0 {
      SegmentsAligned(step, k - 1);
    }
  }

  /** The segment loop of `_separate_long_audio`, stopping at the first failure. */
  method SeparateSegments(s: Settings, audio: Path, segmentsDir: Path, d: real, tools: SeparatorTools)
    returns (vocals: seq<Path>, backings: seq<Path>, error: Option<string>)
    ensures var n := SegmentCount(d);
      var r := SegmentsDone(SegmentSteps(s, audio, segmentsDir, d, n, tools), if n < 0 then 0 else n);
      vocals == r.vocals && backings == r.backings && error == r.error
  {
    var n := SegmentCount(d);
    var total: nat := if n < 0 then 0 else n;
    ghost var step := SegmentSteps(s, audio, segmentsDir, d, n, tools);
    ghost var voices: seq<Track> := [];
    ghost var backs: seq<Track> := [];
    vocals, backings, error := [], [], None;
    var i: nat := 0;
    while i < total && error.None?
      invariant i <= total
      invariant SegmentsRun(vocals, voices, backings, backs, error) == SegmentsDone(step, i)
    {
      var sep := SegmentStep(s, audio, segmentsDir, d, n, tools, i);
      if sep.Err? {
        error := Some(sep.error);
      } else {
        vocals, voices, backings, backs :=
          vocals + [sep.value.first], voices + [sep.value.firstHolds],
          backings + [sep.value.second], backs + [sep.value.secondHolds];
      }
      i := i + 1;
    }
    if error.Some? {
      SegmentErrorSticks(step, i, total);
    }
  }

  /** `_concat_audio_segments`: ffmpeg's concat demuxer over the list file `<stem>_concat.txt` beside the output. */
  function ConcatArgs(output: Path): seq<string>
  {
    Ffmpeg.MergeArgs(Child(Parent(output), Stem(Name(output)) + ConcatListSuffix), output)
  }

  function ConcatFailed(stderr: string): string
  {
    ConcatFailedHead + stderr
  }

  /** How many segments a long audio is cut into (never negative). */
  function SegmentTotal(d: real): nat
  {
    if SegmentCount(d) < 0 then 0 else SegmentCount(d)
  }

  /**
   * The separation of each segment of `_separate_long_audio`. With
   * `mixSegments` each segment's own separation mixes accompaniment into its
   * vocals, as the source's does; without it the segments are separated
   * unmixed.
   */
  function LongSteps(s: Settings, audio: Path, outDir: Path, d: real, tools: SeparatorTools, mixSegments: bool)
    : int -> Result<Separation>
  {
    SegmentSteps(if mixSegments then s else s.(accompanimentVolume := 0.0), audio, Child(outDir, SegmentsDirName), d,
                 SegmentCount(d), tools)
  }

  /**
   * `_separate_long_audio`: the `n` segments are separated one by one by
   * `step`, the vocals and the accompaniments concatenated into
   * `vocals.wav` and `accompaniment.wav`, and, with a positive volume, the
   * two mixed.
   */
  function LongSeparation(s: Settings, outDir: Path, n: nat, step: int -> Result<Separation>, tools: SeparatorTools)
    : Result<Separation>
  {
    JoinSegments(s, outDir, SegmentsDone(step, n), tools)
  }

  /** After the segment loop: the concatenations and the final mix. */
  function JoinSegments(s: Settings, outDir: Path, run: SegmentsRun, tools: SeparatorTools): Result<Separation>
  {
    if run.error.Some? then Err(run.error.value)
    else
      var finalVocal := Child(outDir, VocalsFile);
      var finalBackground := Child(outDir, AccompanimentFile);
      var vocalError := tools.run(ConcatArgs(finalVocal));
      if vocalError.Some? then Err(ConcatFailed(vocalError.value))
      else
        var backgroundError := tools.run(ConcatArgs(finalBackground));
        if backgroundError.Some? then Err(ConcatFailed(backgroundError.value))
        else if s.accompanimentVolume > 0.0 then
          var mixed := Child(outDir, MixedFile);
          var mixError := tools.run(MixArgs(finalVocal, finalBackground, mixed, s.accompanimentVolume, tools.showFloat));
          if mixError.Some? then Err(mixError.value)
          else Ok(Separation(mixed, Mixed(Joined(run.voices), Joined(run.backs), s.accompanimentVolume),
                             finalBackground, Joined(run.backs)))
        else Ok(Separation(finalVocal, Joined(run.voices), finalBackground, Joined(run.backs)))
  }

  /**
   * A successful long separation returns the joined segment vocals, mixed
   * once more with the joined accompaniments when the volume is positive.
   */
  lemma JoinSegmentsHolds(s: Settings, outDir: Path, run: SegmentsRun, tools: SeparatorTools)
    ensures var r := JoinSegments(s, outDir, run, tools);
      r.Ok? ==>
        && run.error.None?
        && r.value.second == Child(outDir, AccompanimentFile)
        && r.value.firstHolds == (if s.accompanimentVolume > 0.0 then Mixed(Joined(run.voices), Joined(run.backs), s.accompanimentVolume)
                                  else Joined(run.voices))
  {
  }

  /** Every segment that separates carries level `x` in its vocals and the full stem in its accompaniment. */
  ghost predicate StepsCarry(step: int -> Result<Separation>, n: nat, x: real)
  {
    forall i :: 0 <= i < n && step(i).Ok? ==>
      Level(step(i).value.firstHolds) == Some(x) && Level(step(i).value.secondHolds) == Some(1.0)
  }

  /** The segments of one long separation carry the volume their own separation mixes in. */
  lemma SegmentStepsCarry(t: Settings, audio: Path, segmentsDir: Path, d: real, n: int, tools: SeparatorTools, k: nat)
    requires 0.0 <= t.accompanimentVolume
    ensures StepsCarry(SegmentSteps(t, audio, segmentsDir, d, n, tools), k, t.accompanimentVolume)
  {
    forall i | 0 <= i < k
      ensures var r := SegmentSteps(t, audio, segmentsDir, d, n, tools)(i);
        r.Ok? ==> Level(r.value.firstHolds) == Some(t.accompanimentVolume) && Level(r.value.secondHolds) == Some(1.0)
    {
      SegmentStepLevels(t, audio, segmentsDir, d, n, tools, i);
    }
  }

  /** Mixed segments carry the configured volume, unmixed ones none. */
  lemma LongStepsCarry(s: Settings, audio: Path, outDir: Path, d: real, tools: SeparatorTools, mixSegments: bool)
    requires 0.0 <= s.accompanimentVolume
    ensures StepsCarry(LongSteps(s, audio, outDir, d, tools, mixSegments), SegmentTotal(d),
                       if mixSegments then s.accompanimentVolume else 0.0)
  {
    var t := if mixSegments then s else s.(accompanimentVolume := 0.0);
    SegmentStepsCarry(t, audio, Child(outDir, SegmentsDirName), d, SegmentCount(d), tools, SegmentTotal(d));
  }

  /** A completed segment loop joins vocals of level `x` and full accompaniment stems. */
  lemma RunLevels(step: int -> Result<Separation>, n: nat, x: real)
    requires n > 0 && StepsCarry(step, n, x)
    ensures var run := SegmentsDone(step, n);
      run.error.None? ==> Level(Joined(run.voices)) == Some(x) && Level(Joined(run.backs)) == Some(1.0)
  {
    var run := SegmentsDone(step, n);
    if run.error.None? {
      SegmentsAligned(step, n);
      JoinedLevel(run.voices, x);
      JoinedLevel(run.backs, 1.0);
    }
  }

  /**
   * Joining segments whose vocals carry level `x`, and mixing once more
   * when the volume `v` is positive, yields level `x + v` (or `x`).
   */
  lemma JoinedSegmentsLevel(s: Settings, outDir: Path, run: SegmentsRun, tools: SeparatorTools, x: real)
    requires run.error.None? ==> Level(Joined(run.voices)) == Some(x) && Level(Joined(run.backs)) == Some(1.0)
    ensures var r := JoinSegments(s, outDir, run, tools);
      r.Ok? ==> Level(r.value.firstHolds) == Some(if s.accompanimentVolume > 0.0 then x + s.accompanimentVolume else x)
  {
    var r := JoinSegments(s, outDir, run, tools);
    if r.Ok? {
      JoinSegmentsHolds(s, outDir, run, tools);
      MixedIfPositive(Joined(run.voices), Joined(run.backs), s.accompanimentVolume, x, r.value.firstHolds);
    }
  }

  /** The vocals, mixed with the full accompaniment stem when the volume is positive, gain that volume in level. */
  lemma MixedIfPositive(voice: Track, backing: Track, volume: real, x: real, holds: Track)
    requires Level(voice) == Some(x) && Level(backing) == Some(1.0)
    requires holds == if volume > 0.0 then Mixed(voice, backing, volume) else voice
    ensures Level(holds) == Some(if volume > 0.0 then x + volume else x)
  {
    if volume > 0.0 {
      MixedLevel(voice, backing, volume, x);
    }
  }

  /**
   * As written, a long audio separated with a positive accompaniment volume
   * `v` carries the accompaniment at level `2v`: its segments each carry
   * `v` already (`LongStepsCarry` with `mixSegments`), and the joined
   * result is mixed again with the joined accompaniment.
   */
  lemma SegmentsMixedTwice(s: Settings, outDir: Path, n: nat, step: int -> Result<Separation>, tools: SeparatorTools)
    requires n > 0 && s.accompanimentVolume > 0.0 && StepsCarry(step, n, s.accompanimentVolume)
    ensures var r := LongSeparation(s, outDir, n, step, tools);
      r.Ok? ==> Level(r.value.firstHolds) == Some(2.0 * s.accompanimentVolume)
  {
    var run := SegmentsDone(step, n);
    assert LongSeparation(s, outDir, n, step, tools) == JoinSegments(s, outDir, run, tools);
    RunLevels(step, n, s.accompanimentVolume);
    JoinedSegmentsLevel(s, outDir, run, tools, s.accompanimentVolume);
  }

  /**
   * With segments separated unmixed, the long path gives every volume `v`
   * in range exactly level `v`, like the short path.
   */
  lemma SegmentsMixedOnce(s: Settings, outDir: Path, n: nat, step: int -> Result<Separation>, tools: SeparatorTools)
    requires n > 0 && 0.0 <= s.accompanimentVolume && StepsCarry(step, n, 0.0)
    ensures var r := LongSeparation(s, outDir, n, step, tools);
      r.Ok? ==> Level(r.value.firstHolds) == Some(s.accompanimentVolume)
  {
    var run := SegmentsDone(step, n);
    assert LongSeparation(s, outDir, n, step, tools) == JoinSegments(s, outDir, run, tools);
    RunLevels(step, n, 0.0);
    JoinedSegmentsLevel(s, outDir, run, tools, 0.0);
  }

  /** Where `separate_vocals` puts the stems of `audio`: `<stem>_separated` beside it. */
  function SeparatedDir(audio: Path): Path
  {
    Child(Parent(audio), Stem(Name(audio)) + SeparatedSuffix)
  }

  /** The measured duration of `audio`, zero when it cannot be read. */
  function AudioLength(audio: Path, tools: SeparatorTools): real
  {
    DurationOrZero(tools.audioDuration(audio))
  }

  /**
   * `separate_vocals` as written: audio measured at over ten minutes takes
   * the segmented path, each segment separated by `_separate_with_spleeter`
   * with its own mix, the rest one Spleeter run.
   */
  function SeparateVocals(s: Settings, audio: Path, tools: SeparatorTools): Result<Separation>
  {
    var outDir := SeparatedDir(audio);
    var d := AudioLength(audio, tools);
    if d > LongAudio then LongSeparation(s, outDir, SegmentTotal(d), LongSteps(s, audio, outDir, d, tools, true), tools)
    else WithSpleeter(s, audio, outDir, tools)
  }

  /**
   * As written, the returned vocals carry the accompaniment at the
   * configured level `v` on the short path and at `2v` on the segmented
   * path: every segment is mixed at `v`, then the joined result once more.
   */
  lemma SeparateVocalsLevel(s: Settings, audio: Path, tools: SeparatorTools)
    requires 0.0 <= s.accompanimentVolume
    ensures var r := SeparateVocals(s, audio, tools);
      r.Ok? ==> Level(r.value.firstHolds)
                == Some(if AudioLength(audio, tools) > LongAudio then 2.0 * s.accompanimentVolume else s.accompanimentVolume)
  {
    var outDir := SeparatedDir(audio);
    var d := AudioLength(audio, tools);
    if d > LongAudio {
      SegmentPlan(d);
      LongStepsCarry(s, audio, outDir, d, tools, true);
      var step := LongSteps(s, audio, outDir, d, tools, true);
      assert SeparateVocals(s, audio, tools) == LongSeparation(s, outDir, SegmentTotal(d), step, tools);
      if s.accompanimentVolume > 0.0 {
        SegmentsMixedTwice(s, outDir, SegmentTotal(d), step, tools);
      } else {
        SegmentsMixedOnce(s, outDir, SegmentTotal(d), step, tools);
      }
    } else {
      assert SeparateVocals(s, audio, tools) == WithSpleeter(s, audio, outDir, tools);
      WithSpleeterHolds(s, audio, outDir, tools);
    }
  }

  /**
   * `separate_vocals` as intended: the same, except that the segments of
   * the long path are separated unmixed, so the accompaniment is mixed in
   * once, after the join.
   */
  function SeparateVocalsIntended(s: Settings, audio: Path, tools: SeparatorTools): Result<Separation>
  {
    var outDir := SeparatedDir(audio);
    var d := AudioLength(audio, tools);
    if d > LongAudio then LongSeparation(s, outDir, SegmentTotal(d), LongSteps(s, audio, outDir, d, tools, false), tools)
    else WithSpleeter(s, audio, outDir, tools)
  }

  /** As intended, whichever path is taken, the returned vocals carry the accompaniment at exactly the configured level. */
  lemma SeparatedLevel(s: Settings, audio: Path, tools: SeparatorTools)
    requires 0.0 <= s.accompanimentVolume
    ensures var r := SeparateVocalsIntended(s, audio, tools);
      r.Ok? ==> Level(r.value.firstHolds) == Some(s.accompanimentVolume)
  {
    var outDir := SeparatedDir(audio);
    var d := AudioLength(audio, tools);
    if d > LongAudio {
      SegmentPlan(d);
      LongStepsCarry(s, audio, outDir, d, tools, false);
      SegmentsMixedOnce(s, outDir, SegmentTotal(d), LongSteps(s, audio, outDir, d, tools, false), tools);
    } else {
      WithSpleeterHolds(s, audio, outDir, tools);
    }
  }

  // ---------------------------------------------------------------------
  // Progress of the audio replacement

  /** `int(percentage / 5) * 5`: the 5% step a progress report falls in. */
  function Bucket(percentage: real): int
  {
    Trunc(percentage / 5.0) * 5
  }

  /**
   * The `on_progress` hook of `replace_audio`: a report is logged when it
   * reaches a higher 5% step than the last logged one, or is past 95%; the
   * result is whether it was logged and the new last step.
   */
  function ThrottleStep(last: int, percentage: real): (bool, int)
  {
    if Bucket(percentage) > last || percentage > 95.0 then (true, Bucket(percentage)) else (false, last)
  }

  /** The closure state of the hook: the last step logged, starting at 0. */
  class ReplaceProgress {
    var lastReported: int

    constructor()
      ensures lastReported == 0
    {
      lastReported := 0;
    }

    method OnProgress(percentage: real) returns (logged: bool)
      modifies this
      ensures (logged, lastReported) == ThrottleStep(old(lastReported), percentage)
    {
      var current := Trunc(percentage / 5.0) * 5;
      logged := current > lastReported || percentage > 95.0;
      if logged {
        lastReported := current;
      }
    }
  }

  /** How many of the reports `ps` are logged, and the last step logged after them. */
  function Throttled(ps: seq<real>): (nat, int)
  {
    if |ps| == 0 then (0, 0)
    else
      var before := Throttled(ps[..|ps| - 1]);
      var step := ThrottleStep(before.1, ps[|ps| - 1]);
      (before.0 + (if step.0 then 1 else 0), step.1)
  }

  /** Up to 95%, the logged steps are distinct multiples of 5 that only grow. */
  lemma {:induction false} ThrottledSteps(ps: seq<real>)
    requires forall i :: 0 <= i < |ps| ==> 0.0 <= ps[i] <= 95.0
    ensures var r := Throttled(ps);
      0 <= r.1 <= 95 && r.1 % 5 == 0 && 5 * r.0 <= r.1
  {
    if |ps| > 0 {
      var init := ps[..|ps| - 1];
      ThrottledSteps(init);
      var p := ps[|ps| - 1];
      var q := Trunc(p / 5.0);
      assert 0 <= q <= 19;
    }
  }

  /** However many reports arrive up to 95%, at most 19 of them are logged; past 95% every one is. */
  lemma ThrottleBound(ps: seq<real>, last: int, p: real)
    requires forall i :: 0 <= i < |ps| ==> 0.0 <= ps[i] <= 95.0
    ensures Throttled(ps).0 <= 19
    ensures p > 95.0 ==> ThrottleStep(last, p).0
  {
    ThrottledSteps(ps);
  }

  // ---------------------------------------------------------------------
  // One drama directory

  const AudioSuffix := "_audio.wav"
  const ReplaceOptions := ["-map", "0:v", "-map", "1:a", "-c:v", "copy", "-c:a", "aac", "-b:a", "192k", "-y"]
  const SubtitleExts := [".srt", ".ass"]

  function MergedDir(drama: Path): Path
  {
    Child(drama, "merged")
  }

  function ClearedDir(drama: Path): Path
  {
    Child(drama, "cleared")
  }

  function MissingMerged(merged: Path): string
  {
    "merged/ 目录不存在: " + ToString(merged)
  }

  function NoMergedVideo(merged: Path): string
  {
    "merged/ 目录中没有视频文件: " + ToString(merged)
  }

  /** `extract_audio`: the WAV written beside the video. */
  function ExtractedAudio(video: Path): Path
  {
    Child(Parent(video), Stem(Name(video)) + AudioSuffix)
  }

  function ExtractAudioArgs(video: Path, audio: Path): seq<string>
  {
    Ffmpeg.CommandLine(Ffmpeg.FFmpegCommand([video], audio, ["-vn"] + PcmOptions))
  }

  /** `replace_audio`: the video stream copied, the new audio encoded as AAC. */
  function ReplaceAudioArgs(video: Path, audio: Path, output: Path): seq<string>
  {
    Ffmpeg.CommandLine(Ffmpeg.FFmpegCommand([video, audio], output, ReplaceOptions))
  }

  /**
   * The ffmpeg commands of the separator: each reads its inputs after `-i`,
   * in order, then its options, and overwrites its output, named last, as
   * 16-bit 44.1 kHz stereo PCM, except the final video, whose copied video
   * stream is joined by the new audio as 192 kb/s AAC.
   */
  lemma AudioCommands(video: Path, audio: Path, output: Path, accompaniment: Path, volume: real,
                      showFloat: real -> string, start: int, length: string)
    ensures var c := ExtractAudioArgs(video, audio);
      |c| == 12 && c[..4] == ["ffmpeg", "-i", ToString(video), "-vn"] && c[4..11] == PcmOptions
      && c[11] == ToString(audio)
    ensures var c := ReplaceAudioArgs(video, audio, output);
      |c| == 17 && c[..5] == ["ffmpeg", "-i", ToString(video), "-i", ToString(audio)] && c[5..16] == ReplaceOptions
      && c[16] == ToString(output)
    ensures var c := MixArgs(audio, accompaniment, output, volume, showFloat);
      |c| == 15 && c[..5] == ["ffmpeg", "-i", ToString(audio), "-i", ToString(accompaniment)]
      && c[5..7] == ["-filter_complex", FilterHead + showFloat(volume) + FilterTail] && c[7..14] == PcmOptions
      && c[14] == ToString(output)
    ensures var c := ExtractSegmentArgs(audio, output, start, length);
      |c| == 15 && c[..7] == ["ffmpeg", "-i", ToString(audio), "-ss", IntToString(start), "-t", length]
      && c[7..14] == PcmOptions && c[14] == ToString(output)
  {
    ExtractAudioCommand(video, audio);
    ReplaceAudioCommand(video, audio, output);
    MixCommand(audio, accompaniment, output, volume, showFloat);
    ExtractSegmentCommand(audio, output, start, length);
  }

  lemma ExtractAudioCommand(video: Path, audio: Path)
    ensures var c := ExtractAudioArgs(video, audio);
      |c| == 12 && c[..4] == ["ffmpeg", "-i", ToString(video), "-vn"] && c[4..11] == PcmOptions
      && c[11] == ToString(audio)
  {
    Ffmpeg.CommandLineShape(Ffmpeg.FFmpegCommand([video], audio, ["-vn"] + PcmOptions));
  }

  lemma ReplaceAudioCommand(video: Path, audio: Path, output: Path)
    ensures var c := ReplaceAudioArgs(video, audio, output);
      |c| == 17 && c[..5] == ["ffmpeg", "-i", ToString(video), "-i", ToString(audio)] && c[5..16] == ReplaceOptions
      && c[16] == ToString(output)
  {
    var cmd := Ffmpeg.FFmpegCommand([video, audio], output, ReplaceOptions);
    Ffmpeg.CommandLineShape(cmd);
    var c := Ffmpeg.CommandLine(cmd);
    assert c[1] == "-i" && c[2] == ToString(video) && c[3] == "-i" && c[4] == ToString(audio) by {
      assert cmd.inputs[0] == video && cmd.inputs[1] == audio;
    }
    assert c[..5] == ["ffmpeg", "-i", ToString(video), "-i", ToString(audio)];
  }

  lemma MixCommand(audio: Path, accompaniment: Path, output: Path, volume: real, showFloat: real -> string)
    ensures var c := MixArgs(audio, accompaniment, output, volume, showFloat);
      |c| == 15 && c[..5] == ["ffmpeg", "-i", ToString(audio), "-i", ToString(accompaniment)]
      && c[5..7] == ["-filter_complex", FilterHead + showFloat(volume) + FilterTail] && c[7..14] == PcmOptions
      && c[14] == ToString(output)
  {
    var filter := FilterHead + showFloat(volume) + FilterTail;
    var cmd := Ffmpeg.FFmpegCommand([audio, accompaniment], output, ["-filter_complex", filter] + PcmOptions);
    Ffmpeg.CommandLineShape(cmd);
    var c := Ffmpeg.CommandLine(cmd);
    assert c[1] == "-i" && c[2] == ToString(audio) && c[3] == "-i" && c[4] == ToString(accompaniment) by {
      assert cmd.inputs[0] == audio && cmd.inputs[1] == accompaniment;
    }
    assert c[..5] == ["ffmpeg", "-i", ToString(audio), "-i", ToString(accompaniment)];
    assert c[5..14] == ["-filter_complex", filter] + PcmOptions;
    assert c[5..7] == c[5..14][..2];
  }

  lemma ExtractSegmentCommand(audio: Path, output: Path, start: int, length: string)
    ensures var c := ExtractSegmentArgs(audio, output, start, length);
      |c| == 15 && c[..7] == ["ffmpeg", "-i", ToString(audio), "-ss", IntToString(start), "-t", length]
      && c[7..14] == PcmOptions && c[14] == ToString(output)
  {
    Ffmpeg.CommandLineShape(Ffmpeg.FFmpegCommand([audio], output, ["-ss", IntToString(start), "-t", length] + PcmOptions));
  }

  /** The subtitle copies made so far, and the filesystem after them. */
  datatype Copies = Copies(paths: seq<Path>, fs: FileSystem)

  /**
   * The subtitle loop of `process`: for each extension, `<stem><ext>` under
   * `merged/`, when present, is copied to a free name in `cleared/`.
   */
  function SubtitlesCopied(fs: FileSystem, merged: Path, cleared: Path, stem: string, exts: seq<string>): Copies
  {
    if |exts| == 0 then Copies([], fs)
    else
      var before := SubtitlesCopied(fs, merged, cleared, stem, exts[..|exts| - 1]);
      var source := Child(merged, stem + exts[|exts| - 1]);
      if before.fs.Exists(source) then
        var target := FileManager.UniquePath(before.fs, Child(cleared, Name(source)));
        Copies(before.paths + [target], before.fs.AddFile(target))
      else before
  }

  /** The subtitle files present under `merged/`, in extension order. */
  function SubtitleSources(fs: FileSystem, merged: Path, stem: string, exts: seq<string>): seq<Path>
  {
    if |exts| == 0 then []
    else
      var source := Child(merged, stem + exts[|exts| - 1]);
      SubtitleSources(fs, merged, stem, exts[..|exts| - 1]) + (if fs.Exists(source) then [source] else [])
  }

  /**
   * One copy per subtitle present, each named after its source in
   * `cleared/`, at a path free before the loop; whatever existed stays.
   */
  lemma {:induction false} SubtitlesCopiedFacts(fs: FileSystem, merged: Path, cleared: Path, stem: string,
                                                 exts: seq<string>)
    requires merged != cleared
    ensures var c := SubtitlesCopied(fs, merged, cleared, stem, exts);
      var sources := SubtitleSources(fs, merged, stem, exts);
      && |c.paths| == |sources|
      && (forall i :: 0 <= i < |c.paths| ==> Parent(c.paths[i]) == cleared && !fs.Exists(c.paths[i]))
      && (forall q :: fs.Exists(q) ==> c.fs.Exists(q))
      && (forall q :: c.fs.Exists(q) && !fs.Exists(q) ==> q in c.paths)
  {
    if |exts| > 0 {
      var init := exts[..|exts| - 1];
      SubtitlesCopiedFacts(fs, merged, cleared, stem, init);
      var before := SubtitlesCopied(fs, merged, cleared, stem, init);
      var source := Child(merged, stem + exts[|exts| - 1]);
      assert before.fs.Exists(source) <==> fs.Exists(source) by {
        forall i | 0 <= i < |before.paths|
          ensures before.paths[i] != source
        {
          assert Parent(before.paths[i]) == cleared && Parent(source) == merged;
        }
      }
      if before.fs.Exists(source) {
        var target := FileManager.UniquePath(before.fs, Child(cleared, Name(source)));
        FileManager.UniquePathFacts(before.fs, Child(cleared, Name(source)));
      }
    }
  }

  /** The subtitle loop of `process`, one extension at a time. */
  method CopySubtitles(fs: FileSystem, merged: Path, cleared: Path, stem: string)
    returns (copies: seq<Path>, fs': FileSystem)
    ensures Copies(copies, fs') == SubtitlesCopied(fs, merged, cleared, stem, SubtitleExts)
  {
    copies, fs' := [], fs;
    var i := 0;
    while i < |SubtitleExts|
      invariant 0 <= i <= |SubtitleExts|
      invariant Copies(copies, fs') == SubtitlesCopied(fs, merged, cleared, stem, SubtitleExts[..i])
    {
      assert SubtitleExts[..i + 1][..i] == SubtitleExts[..i];
      var source := Child(merged, stem + SubtitleExts[i]);
      if fs'.Exists(source) {
        var target := FileManager.GetUniquePath(fs', Child(cleared, Name(source)));
        copies, fs' := copies + [target], fs'.AddFile(target);
      }
      i := i + 1;
    }
    assert SubtitleExts[..i] == SubtitleExts;
  }

  /** What `process` did: its error, if any, the new video, what its audio holds, the copies, the filesystem. */
  datatype Attempt = Attempt(error: Option<string>, output: Path, audio: Option<Track>, copies: seq<Path>, fs: FileSystem)

  /** `separate_vocals` with the settings and tools of one separator, as a function of the audio. */
  function Separations(s: Settings, tools: SeparatorTools): Path -> Result<Separation>
  {
    (audio: Path) => SeparateVocals(s, audio, tools)
  }

  /** The intended `separate_vocals` with the settings and tools of one separator. */
  function IntendedSeparations(s: Settings, tools: SeparatorTools): Path -> Result<Separation>
  {
    (audio: Path) => SeparateVocalsIntended(s, audio, tools)
  }

  /** Every separation `separate` succeeds with has its first file carry the accompaniment at level `x`. */
  ghost predicate SeparationsCarry(separate: Path -> Result<Separation>, x: real)
  {
    forall audio :: separate(audio).Ok? ==> Level(separate(audio).value.firstHolds) == Some(x)
  }

  lemma SeparationsLevel(s: Settings, tools: SeparatorTools)
    requires 0.0 <= s.accompanimentVolume
    ensures SeparationsCarry(IntendedSeparations(s, tools), s.accompanimentVolume)
  {
    forall audio | IntendedSeparations(s, tools)(audio).Ok?
      ensures Level(IntendedSeparations(s, tools)(audio).value.firstHolds) == Some(s.accompanimentVolume)
    {
      SeparatedLevel(s, audio, tools);
    }
  }

  /**
   * The body of `process` inside its `try`: the two `merged/` checks, then
   * `cleared/` is created, a file in its place raising FileExistsError, and
   * the first video is processed. `run` runs an
   * ffmpeg command, `separate` is `separate_vocals`.
   */
  function Separate(fs: FileSystem, drama: Path, temp: Path, run: seq<string> -> Option<string>,
                    separate: Path -> Result<Separation>): (a: Attempt)
    ensures a.error.None? ==> Parent(a.output) == ClearedDir(drama)
  {
    var merged := MergedDir(drama);
    if !fs.Exists(merged) then Attempt(Some(MissingMerged(merged)), [], None, [], fs)
    else
      var videos := fs.Glob(merged, ".mp4");
      if |videos| == 0 then Attempt(Some(NoMergedVideo(merged)), [], None, [], fs)
      else
        match fs.MkDir(ClearedDir(drama))
        case Err(e) => Attempt(Some(e), [], None, [], fs)
        case Ok(withDir) => SeparateVideo(withDir, merged, ClearedDir(drama), videos[0], temp, run, separate)
  }

  /**
   * One video: its audio extracted into the temporary directory `temp`,
   * separated, and put back into a copy of the video at a free name in
   * `cleared/`, then its subtitles copied. Any failure ends it.
   */
  function SeparateVideo(fs: FileSystem, merged: Path, cleared: Path, input: Path, temp: Path,
                         run: seq<string> -> Option<string>, separate: Path -> Result<Separation>): (a: Attempt)
    ensures Parent(a.output) == cleared
  {
    FileManager.UniquePathFacts(fs, Child(cleared, Name(input)));
    var output := FileManager.UniquePath(fs, Child(cleared, Name(input)));
    var audio := ExtractedAudio(input);
    var extractError := run(ExtractAudioArgs(input, audio));
    if extractError.Some? then Attempt(extractError, output, None, [], fs)
    else
      match separate(Child(temp, Name(audio)))
      case Err(e) => Attempt(Some(e), output, None, [], fs)
      case Ok(separation) =>
        var replaceError := run(ReplaceAudioArgs(input, separation.first, output));
        if replaceError.Some? then Attempt(replaceError, output, None, [], fs)
        else
          var c := SubtitlesCopied(fs.AddFile(output), merged, cleared, Stem(Name(input)), SubtitleExts);
          Attempt(None, output, Some(separation.firstHolds), c.paths, c.fs)
  }

  /**
   * What the video's processing needs: the extraction, then `separate_vocals`
   * on the extracted audio moved to `temp`, then the replacement into the
   * free path for the video in `cleared/`, all succeed.
   */
  predicate VideoSucceeds(fs: FileSystem, cleared: Path, input: Path, temp: Path, run: seq<string> -> Option<string>,
                          separate: Path -> Result<Separation>)
  {
    var audio := Child(temp, Name(ExtractedAudio(input)));
    && run(ExtractAudioArgs(input, ExtractedAudio(input))).None?
    && separate(audio).Ok?
    && run(ReplaceAudioArgs(input, separate(audio).value.first,
                            FileManager.UniquePath(fs, Child(cleared, Name(input))))).None?
  }

  /**
   * A video is done exactly when extraction, separation and replacement all
   * succeed; the new video is then at a free path in `cleared/` and holds the
   * separation's first file, and the copies are at free paths in `cleared/`.
   * A failure copies nothing.
   */
  lemma SeparateVideoFacts(fs: FileSystem, merged: Path, cleared: Path, input: Path, temp: Path,
                           run: seq<string> -> Option<string>, separate: Path -> Result<Separation>)
    requires merged != cleared
    ensures var a := SeparateVideo(fs, merged, cleared, input, temp, run, separate);
      var audio := Child(temp, Name(ExtractedAudio(input)));
      && a.output == FileManager.UniquePath(fs, Child(cleared, Name(input)))
      && (a.error.None? <==> VideoSucceeds(fs, cleared, input, temp, run, separate))
      && (a.error.None? ==>
            a.fs.Exists(a.output) && a.audio == Some(separate(audio).value.firstHolds))
      && (a.error.Some? ==> a.copies == [])
      && (forall i :: 0 <= i < |a.copies| ==> Parent(a.copies[i]) == cleared && !fs.Exists(a.copies[i]))
  {
    var a := SeparateVideo(fs, merged, cleared, input, temp, run, separate);
    if a.error.None? {
      var output := a.output;
      SubtitlesCopiedFacts(fs.AddFile(output), merged, cleared, Stem(Name(input)), SubtitleExts);
      var c := SubtitlesCopied(fs.AddFile(output), merged, cleared, Stem(Name(input)), SubtitleExts);
      assert a.copies == c.paths && a.fs == c.fs;
    }
  }

  /** The result `process` returns and the callback calls it makes. */
  datatype Outcome = Outcome(result: ProcessingResult, events: seq<ProgressEvent>, audio: Option<Track>,
                             copies: seq<Path>, fs: FileSystem)

  /**
   * The shape of every result: for the drama directory, in the given time;
   * COMPLETED with a new video in `cleared/` and no error, or FAILED with an
   * error and no output.
   */
  predicate WellFormed(r: ProcessingResult, drama: Path, elapsed: real)
  {
    && r.inputPath == drama && r.durationSeconds == elapsed
    && (r.status == Completed ==> r.outputPath.Some? && Parent(r.outputPath.value) == ClearedDir(drama) && r.errorMessage.None?)
    && (r.status != Completed ==> r.status == Failed && r.outputPath.None? && r.errorMessage.Some?)
  }

  /** `process` after the availability check: a result for every run, the completion reported to the callback. */
  function Processed(fs: FileSystem, drama: Path, temp: Path, run: seq<string> -> Option<string>,
                     separate: Path -> Result<Separation>, callback: bool, elapsed: real): (o: Outcome)
    ensures WellFormed(o.result, drama, elapsed)
  {
    var a := Separate(fs, drama, temp, run, separate);
    var result :=
      if a.error.Some? then FailedResult(drama, a.error.value, elapsed)
      else ProcessingResult(Completed, drama, Some(a.output), None, elapsed);
    var events := if callback then [OnFileStart(ToString(drama)), OnFileComplete(result)] else [];
    Outcome(result, events, a.audio, a.copies, a.fs)
  }

  /**
   * Without `merged/`, without a video in it, or with a file named
   * `cleared`, `process` fails with the matching message before creating
   * anything; every run reports its start and its completion to a callback,
   * and its result is completed or failed.
   */
  lemma ProcessGuards(fs: FileSystem, drama: Path, temp: Path, run: seq<string> -> Option<string>,
                      separate: Path -> Result<Separation>, callback: bool, elapsed: real)
    ensures var o := Processed(fs, drama, temp, run, separate, callback, elapsed);
      && o.result.inputPath == drama && o.result.durationSeconds == elapsed
      && (o.result.status == Completed || o.result.status == Failed)
      && (callback ==> o.events == [OnFileStart(ToString(drama)), OnFileComplete(o.result)])
      && (!callback ==> o.events == [])
      && (!fs.Exists(MergedDir(drama)) ==>
            o.result == FailedResult(drama, MissingMerged(MergedDir(drama)), elapsed) && o.fs == fs && o.copies == [])
      && (fs.Exists(MergedDir(drama)) && |fs.Glob(MergedDir(drama), ".mp4")| == 0 ==>
            o.result == FailedResult(drama, NoMergedVideo(MergedDir(drama)), elapsed) && o.fs == fs && o.copies == [])
      && (fs.Exists(MergedDir(drama)) && |fs.Glob(MergedDir(drama), ".mp4")| > 0 && fs.IsFile(ClearedDir(drama)) ==>
            o.result == FailedResult(drama, FileExists(ClearedDir(drama)), elapsed) && o.fs == fs && o.copies == [])
  {
  }

  /**
   * `process` completes exactly when there is a video in `merged/` and its
   * audio is extracted, separated and put back; the new video is then at a
   * path that was free, in `cleared/`, named after the source video unless
   * that name was taken, and its audio is the separation's first file. A
   * failure has a message, no output and copies nothing.
   */
  lemma ProcessCompletes(fs: FileSystem, drama: Path, temp: Path, run: seq<string> -> Option<string>,
                         separate: Path -> Result<Separation>, callback: bool, elapsed: real)
    ensures var o := Processed(fs, drama, temp, run, separate, callback, elapsed);
      var merged := MergedDir(drama);
      var cleared := ClearedDir(drama);
      var videos := fs.Glob(merged, ".mp4");
      && (o.result.status == Completed <==>
            && fs.Exists(merged) && |videos| > 0 && !fs.IsFile(cleared)
            && VideoSucceeds(fs.AddDir(cleared), cleared, videos[0], temp, run, separate))
      && (o.result.status == Completed ==>
            && |videos| > 0
            && var output := FileManager.UniquePath(fs.AddDir(cleared), Child(cleared, Name(videos[0])));
            && var audio := Child(temp, Name(ExtractedAudio(videos[0])));
            && o.result.outputPath == Some(output) && o.result.errorMessage.None?
            && Parent(output) == cleared && !fs.Exists(output) && o.fs.Exists(output)
            && separate(audio).Ok? && o.audio == Some(separate(audio).value.firstHolds))
      && (o.result.status != Completed ==>
            o.result.status == Failed && o.result.outputPath.None? && o.result.errorMessage.Some? && o.copies == [])
      && (forall i :: 0 <= i < |o.copies| ==> Parent(o.copies[i]) == cleared && !fs.Exists(o.copies[i]))
  {
    var o := Processed(fs, drama, temp, run, separate, callback, elapsed);
    var a := Separate(fs, drama, temp, run, separate);
    SeparateFacts(fs, drama, temp, run, separate);
    assert o.result.status == Completed <==> a.error.None?;
    assert o.copies == a.copies && o.audio == a.audio && o.fs == a.fs;
    assert a.error.None? ==> o.result.outputPath == Some(a.output);
  }

  /** `ProcessCompletes` for the body of the `try`. */
  lemma SeparateFacts(fs: FileSystem, drama: Path, temp: Path, run: seq<string> -> Option<string>,
                      separate: Path -> Result<Separation>)
    ensures var a := Separate(fs, drama, temp, run, separate);
      var merged := MergedDir(drama);
      var cleared := ClearedDir(drama);
      var videos := fs.Glob(merged, ".mp4");
      && (a.error.None? <==>
            && fs.Exists(merged) && |videos| > 0 && !fs.IsFile(cleared)
            && VideoSucceeds(fs.AddDir(cleared), cleared, videos[0], temp, run, separate))
      && (a.error.None? ==>
            && |videos| > 0
            && var output := FileManager.UniquePath(fs.AddDir(cleared), Child(cleared, Name(videos[0])));
            && var audio := Child(temp, Name(ExtractedAudio(videos[0])));
            && a.output == output && Parent(output) == cleared && !fs.Exists(output) && a.fs.Exists(output)
            && separate(audio).Ok? && a.audio == Some(separate(audio).value.firstHolds))
      && (a.error.Some? ==> a.copies == [])
      && (forall i :: 0 <= i < |a.copies| ==> Parent(a.copies[i]) == cleared && !fs.Exists(a.copies[i]))
  {
    if fs.Exists(MergedDir(drama)) && |fs.Glob(MergedDir(drama), ".mp4")| > 0 && !fs.IsFile(ClearedDir(drama)) {
      SeparateMadeFacts(fs, drama, temp, run, separate);
    } else {
      SeparateRefused(fs, drama, temp, run, separate);
    }
  }

  /** When a check fails or `cleared/` cannot be made, the body of the `try` fails and copies nothing. */
  lemma SeparateRefused(fs: FileSystem, drama: Path, temp: Path, run: seq<string> -> Option<string>,
                        separate: Path -> Result<Separation>)
    requires !fs.Exists(MergedDir(drama)) || |fs.Glob(MergedDir(drama), ".mp4")| == 0 || fs.IsFile(ClearedDir(drama))
    ensures Separate(fs, drama, temp, run, separate).error.Some? && Separate(fs, drama, temp, run, separate).copies == []
  {
  }

  /** `SeparateFacts` once the checks pass and `cleared/` is made. */
  lemma SeparateMadeFacts(fs: FileSystem, drama: Path, temp: Path, run: seq<string> -> Option<string>,
                          separate: Path -> Result<Separation>)
    requires fs.Exists(MergedDir(drama)) && |fs.Glob(MergedDir(drama), ".mp4")| > 0 && !fs.IsFile(ClearedDir(drama))
    ensures var a := Separate(fs, drama, temp, run, separate);
      var cleared := ClearedDir(drama);
      var input := fs.Glob(MergedDir(drama), ".mp4")[0];
      var output := FileManager.UniquePath(fs.AddDir(cleared), Child(cleared, Name(input)));
      var audio := Child(temp, Name(ExtractedAudio(input)));
      && (a.error.None? <==> VideoSucceeds(fs.AddDir(cleared), cleared, input, temp, run, separate))
      && (a.error.None? ==>
            && a.output == output && Parent(output) == cleared && !fs.Exists(output) && a.fs.Exists(output)
            && separate(audio).Ok? && a.audio == Some(separate(audio).value.firstHolds))
      && (a.error.Some? ==> a.copies == [])
      && (forall i :: 0 <= i < |a.copies| ==> Parent(a.copies[i]) == cleared && !fs.Exists(a.copies[i]))
  {
    var merged := MergedDir(drama);
    var cleared := ClearedDir(drama);
    var input := fs.Glob(merged, ".mp4")[0];
    var fs1 := fs.AddDir(cleared);
    SeparateMade(fs, drama, temp, run, separate);
    FileManager.UniquePathFacts(fs1, Child(cleared, Name(input)));
    SeparateVideoFacts(fs1, merged, cleared, input, temp, run, separate);
    var a := SeparateVideo(fs1, merged, cleared, input, temp, run, separate);
    assert !fs1.Exists(a.output) && Parent(a.output) == cleared;
    forall i | 0 <= i < |a.copies|
      ensures !fs.Exists(a.copies[i])
    {
      assert !fs1.Exists(a.copies[i]);
    }
  }

  /** Once the checks pass and `cleared/` is made, the body of the `try` is the processing of the first video. */
  lemma SeparateMade(fs: FileSystem, drama: Path, temp: Path, run: seq<string> -> Option<string>,
                     separate: Path -> Result<Separation>)
    requires fs.Exists(MergedDir(drama)) && |fs.Glob(MergedDir(drama), ".mp4")| > 0 && !fs.IsFile(ClearedDir(drama))
    ensures Separate(fs, drama, temp, run, separate)
            == SeparateVideo(fs.AddDir(ClearedDir(drama)), MergedDir(drama), ClearedDir(drama),
                             fs.Glob(MergedDir(drama), ".mp4")[0], temp, run, separate)
  {
  }

  /** The audio `process` separates: the first video of `merged/`, its audio extracted into `temp`. */
  function ProcessedAudio(fs: FileSystem, drama: Path, temp: Path): Path
    requires |fs.Glob(MergedDir(drama), ".mp4")| > 0
  {
    Child(temp, Name(ExtractedAudio(fs.Glob(MergedDir(drama), ".mp4")[0])))
  }

  /**
   * A video `AudioSeparator.process` completes carries the accompaniment at
   * the configured volume `v` when its audio is at most ten minutes long,
   * and at `2v` when it is longer.
   */
  lemma ProcessedLevel(s: Settings, fs: FileSystem, drama: Path, temp: Path, tools: SeparatorTools, callback: bool,
                       elapsed: real)
    requires 0.0 <= s.accompanimentVolume
    ensures var o := Processed(fs, drama, temp, tools.run, Separations(s, tools), callback, elapsed);
      o.result.status == Completed ==>
        && |fs.Glob(MergedDir(drama), ".mp4")| > 0 && o.audio.Some?
        && var long := AudioLength(ProcessedAudio(fs, drama, temp), tools) > LongAudio;
           Level(o.audio.value) == Some(if long then 2.0 * s.accompanimentVolume else s.accompanimentVolume)
  {
    var o := Processed(fs, drama, temp, tools.run, Separations(s, tools), callback, elapsed);
    ProcessCompletes(fs, drama, temp, tools.run, Separations(s, tools), callback, elapsed);
    if o.result.status == Completed {
      SeparateVocalsLevel(s, ProcessedAudio(fs, drama, temp), tools);
    }
  }

  /**
   * Processing with the intended separation gives every completed video the
   * accompaniment at the configured volume, whatever its length.
   */
  lemma IntendedProcessedLevel(s: Settings, fs: FileSystem, drama: Path, temp: Path, tools: SeparatorTools,
                               callback: bool, elapsed: real)
    requires 0.0 <= s.accompanimentVolume
    ensures var o := Processed(fs, drama, temp, tools.run, IntendedSeparations(s, tools), callback, elapsed);
      o.result.status == Completed ==> o.audio.Some? && Level(o.audio.value) == Some(s.accompanimentVolume)
  {
    SeparationsLevel(s, tools);
    ProcessCompletes(fs, drama, temp, tools.run, IntendedSeparations(s, tools), callback, elapsed);
  }

  // ---------------------------------------------------------------------
  // Batches

  datatype Batch = Batch(results: seq<ProcessingResult>, events: seq<ProgressEvent>, fs: FileSystem)

  /** One directory's processing, as a step of a batch: filesystem, directory, temporary directory, time. */
  function ProcessStep(s: Settings, tools: SeparatorTools, callback: bool): (FileSystem, Path, Path, real) -> Outcome
  {
    (f: FileSystem, d: Path, t: Path, e: real) => Processed(f, d, t, tools.run, Separations(s, tools), callback, e)
  }

  /** The progress report of the `i`-th of `total` directories. */
  function Report(dramas: seq<Path>, i: nat, total: nat): ProgressEvent
    requires i < |dramas| <= total
  {
    OnProgress(ProgressInfo(i + 1, total, ToString(dramas[i]), Percentage(i + 1, total)))
  }

  /**
   * `process_batch` over the first `|dramas|` of `total` directories, in
   * order, each on the filesystem the ones before it left; with a callback
   * each is announced by a progress report first. `temps(i)` and `clock(i)`
   * are the temporary directory and the time of the `i`-th.
   */
  function BatchRun(fs: FileSystem, dramas: seq<Path>, total: nat, step: (FileSystem, Path, Path, real) -> Outcome,
                    callback: bool, temps: nat -> Path, clock: nat -> real): (b: Batch)
    requires |dramas| <= total
    ensures |b.results| == |dramas|
    decreases |dramas|
  {
    if |dramas| == 0 then Batch([], [], fs)
    else
      var i := |dramas| - 1;
      var before := BatchRun(fs, dramas[..i], total, step, callback, temps, clock);
      var o := step(before.fs, dramas[i], temps(i), clock(i));
      var report :=
        if callback then [Report(dramas, i, total)] else [];
      Batch(before.results + [o.result], before.events + report + o.events, o.fs)
  }

  /** The run over one more directory extends the run before it by that directory's report and outcome. */
  lemma BatchRunNext(fs: FileSystem, dramas: seq<Path>, total: nat, step: (FileSystem, Path, Path, real) -> Outcome,
                     callback: bool, temps: nat -> Path, clock: nat -> real, i: nat)
    requires i < |dramas| <= total
    ensures var before := BatchRun(fs, dramas[..i], total, step, callback, temps, clock);
            var o := step(before.fs, dramas[i], temps(i), clock(i));
            var report :=
              if callback then [Report(dramas, i, total)] else [];
            BatchRun(fs, dramas[..i + 1], total, step, callback, temps, clock)
              == Batch(before.results + [o.result], before.events + report + o.events, o.fs)
  {
    assert dramas[..i + 1][..i] == dramas[..i];
  }

  /** Every outcome of `step` has a well-formed result for its directory and time. */
  ghost predicate StepWellFormed(step: (FileSystem, Path, Path, real) -> Outcome)
  {
    forall f, d, t, e :: WellFormed(step(f, d, t, e).result, d, e)
  }

  lemma ProcessStepWellFormed(s: Settings, tools: SeparatorTools, callback: bool)
    ensures StepWellFormed(ProcessStep(s, tools, callback))
  {
  }

  /** One result per directory, in order, each for that directory, in its time, and well formed. */
  lemma {:induction false} BatchResults(fs: FileSystem, dramas: seq<Path>, total: nat,
                                        step: (FileSystem, Path, Path, real) -> Outcome, callback: bool,
                                        temps: nat -> Path, clock: nat -> real)
    requires |dramas| <= total && StepWellFormed(step)
    ensures var b := BatchRun(fs, dramas, total, step, callback, temps, clock);
      forall i :: 0 <= i < |dramas| ==> WellFormed(b.results[i], dramas[i], clock(i))
    decreases |dramas|
  {
    if |dramas| > 0 {
      var n := |dramas| - 1;
      var init := dramas[..n];
      BatchResults(fs, init, total, step, callback, temps, clock);
      var before := BatchRun(fs, init, total, step, callback, temps, clock);
      var b := BatchRun(fs, dramas, total, step, callback, temps, clock);
      assert forall i :: 0 <= i < n ==> b.results[i] == before.results[i];
      assert forall i :: 0 <= i < n ==> dramas[i] == init[i];
    }
  }

  /** With a callback, `step` reports a directory's start and then its completion with its result; without one, nothing. */
  ghost predicate StepEvents(step: (FileSystem, Path, Path, real) -> Outcome, callback: bool)
  {
    forall f, d, t, e ::
      step(f, d, t, e).events == (if callback then [OnFileStart(ToString(d)), OnFileComplete(step(f, d, t, e).result)] else [])
  }

  lemma StepEventsAt(step: (FileSystem, Path, Path, real) -> Outcome, callback: bool, f: FileSystem, d: Path, t: Path,
                     e: real)
    requires StepEvents(step, callback)
    ensures step(f, d, t, e).events == (if callback then [OnFileStart(ToString(d)), OnFileComplete(step(f, d, t, e).result)] else [])
  {
  }

  lemma ProcessStepEvents(s: Settings, tools: SeparatorTools, callback: bool)
    ensures StepEvents(ProcessStep(s, tools, callback), callback)
  {
  }

  /** Three events per directory carry over to one more directory's report, start and completion. */
  lemma AnnouncedNext(before: seq<ProgressEvent>, results: seq<ProcessingResult>, dramas: seq<Path>, total: nat,
                      r: ProcessingResult)
    requires 0 < |dramas| <= total && |results| == |dramas| - 1 && |before| == 3 * (|dramas| - 1)
    requires forall i :: 0 <= i < |dramas| - 1 ==>
      && before[3 * i] == Report(dramas, i, total)
      && before[3 * i + 1] == OnFileStart(ToString(dramas[i]))
      && before[3 * i + 2] == OnFileComplete(results[i])
    ensures var n := |dramas| - 1;
      var events := before + [Report(dramas, n, total)] + [OnFileStart(ToString(dramas[n])), OnFileComplete(r)];
      var rs := results + [r];
      && |events| == 3 * |dramas|
      && forall i :: 0 <= i < |dramas| ==>
        && events[3 * i] == Report(dramas, i, total)
        && events[3 * i + 1] == OnFileStart(ToString(dramas[i]))
        && events[3 * i + 2] == OnFileComplete(rs[i])
  {
    var n := |dramas| - 1;
    var events := before + [Report(dramas, n, total)] + [OnFileStart(ToString(dramas[n])), OnFileComplete(r)];
    var rs := results + [r];
    forall i | 0 <= i < n
      ensures && events[3 * i] == before[3 * i] && events[3 * i + 1] == before[3 * i + 1]
              && events[3 * i + 2] == before[3 * i + 2] && rs[i] == results[i]
    {
    }
  }

  /**
   * With a callback, each directory brings a progress report numbered from
   * 1 out of `total`, then its start, then its completion with its result;
   * without one there are no calls.
   */
  lemma {:induction false} BatchEvents(fs: FileSystem, dramas: seq<Path>, total: nat,
                                       step: (FileSystem, Path, Path, real) -> Outcome, callback: bool,
                                       temps: nat -> Path, clock: nat -> real)
    requires |dramas| <= total && StepEvents(step, callback)
    ensures var b := BatchRun(fs, dramas, total, step, callback, temps, clock);
      && (callback ==> |b.events| == 3 * |dramas| && forall i :: 0 <= i < |dramas| ==>
            && b.events[3 * i] == Report(dramas, i, total)
            && b.events[3 * i + 1] == OnFileStart(ToString(dramas[i]))
            && b.events[3 * i + 2] == OnFileComplete(b.results[i]))
      && (!callback ==> b.events == [])
    decreases |dramas|
  {
    if |dramas| > 0 {
      var n := |dramas| - 1;
      var init := dramas[..n];
      BatchEvents(fs, init, total, step, callback, temps, clock);
      var before := BatchRun(fs, init, total, step, callback, temps, clock);
      var b := BatchRun(fs, dramas, total, step, callback, temps, clock);
      var o := step(before.fs, dramas[n], temps(n), clock(n));
      assert b.results[n] == o.result;
      StepEventsAt(step, callback, before.fs, dramas[n], temps(n), clock(n));
      if callback {
        assert forall i :: 0 <= i < n ==> dramas[i] == init[i];
        AnnouncedNext(before.events, before.results, dramas, total, o.result);
      }
    }
  }

  // ---------------------------------------------------------------------
  // The separator object

  /**
   * `AudioSeparator`: the settings fixed at construction, and whether the
   * Spleeter availability check has passed, which happens on the first call
   * of `process`. `help` is how `spleeter --help` ends whenever it is run.
   */
  class AudioSeparator {
    const settings: Settings
    var separatorChecked: bool

    constructor(model: string, accompanimentVolume: real)
      ensures settings == Settings(model, Clamp01(accompanimentVolume)) && !separatorChecked
    {
      settings := Settings(model, Clamp01(accompanimentVolume));
      separatorChecked := false;
    }

    /** The check runs only while it has not passed; its error escapes `process`. */
    method CheckOnce(help: HelpRun) returns (error: Option<string>)
      modifies this
      ensures error == (if old(separatorChecked) then None else SeparatorCheck(help))
      ensures separatorChecked == (old(separatorChecked) || error.None?)
    {
      error := None;
      if !separatorChecked {
        error := SeparatorCheck(help);
        if error.None? {
          separatorChecked := true;
        }
      }
    }

    /** `process`: the check on first use, then one directory. */
    method Process(fs: FileSystem, drama: Path, temp: Path, tools: SeparatorTools, help: HelpRun, callback: bool,
                   elapsed: real) returns (r: Result<Outcome>)
      modifies this
      ensures !old(separatorChecked) && SeparatorCheck(help).Some? ==> r == Err(SeparatorCheck(help).value)
      ensures old(separatorChecked) || SeparatorCheck(help).None? ==>
        r == Ok(Processed(fs, drama, temp, tools.run, Separations(settings, tools), callback, elapsed))
      ensures separatorChecked == (old(separatorChecked) || SeparatorCheck(help).None?)
    {
      var error := CheckOnce(help);
      if error.Some? {
        return Err(error.value);
      }
      r := Ok(Processed(fs, drama, temp, tools.run, Separations(settings, tools), callback, elapsed));
    }

    /**
     * `process_batch`: one result per directory, in order, unless the check
     * fails on the first one.
     */
    method ProcessBatch(fs: FileSystem, dramas: seq<Path>, tools: SeparatorTools, help: HelpRun, callback: bool,
                        temps: nat -> Path, clock: nat -> real) returns (r: Result<Batch>)
      modifies this
      ensures |dramas| > 0 && !old(separatorChecked) && SeparatorCheck(help).Some? ==>
        r == Err(SeparatorCheck(help).value)
      ensures |dramas| == 0 || old(separatorChecked) || SeparatorCheck(help).None? ==>
        r == Ok(BatchRun(fs, dramas, |dramas|, ProcessStep(settings, tools, callback), callback, temps, clock))
      ensures separatorChecked == (old(separatorChecked) || (|dramas| > 0 && SeparatorCheck(help).None?))
    {
      var b := Batch([], [], fs);
      var i := 0;
      while i < |dramas|
        invariant 0 <= i <= |dramas|
        invariant b == BatchRun(fs, dramas[..i], |dramas|, ProcessStep(settings, tools, callback), callback, temps, clock)
        invariant i > 0 ==> separatorChecked && (old(separatorChecked) || SeparatorCheck(help).None?)
        invariant i == 0 ==> separatorChecked == old(separatorChecked)
      {
        var next := ProcessNext(fs, dramas, tools, help, callback, temps, clock, i, b);
        if next.Err? {
          return Err(next.error);
        }
        b := next.value;
        i := i + 1;
      }
      assert dramas[..i] == dramas;
      r := Ok(b);
    }

    /** One turn of the `process_batch` loop: the report, then `process` on the `i`-th directory. */
    method ProcessNext(fs: FileSystem, dramas: seq<Path>, tools: SeparatorTools, help: HelpRun, callback: bool,
                       temps: nat -> Path, clock: nat -> real, i: nat, b: Batch) returns (r: Result<Batch>)
      modifies this
      requires i < |dramas|
      requires b == BatchRun(fs, dramas[..i], |dramas|, ProcessStep(settings, tools, callback), callback, temps, clock)
      ensures !old(separatorChecked) && SeparatorCheck(help).Some? ==> r == Err(SeparatorCheck(help).value)
      ensures old(separatorChecked) || SeparatorCheck(help).None? ==>
        r == Ok(BatchRun(fs, dramas[..i + 1], |dramas|, ProcessStep(settings, tools, callback), callback, temps, clock))
      ensures separatorChecked == (old(separatorChecked) || SeparatorCheck(help).None?)
    {
      ghost var step := ProcessStep(settings, tools, callback);
      BatchRunNext(fs, dramas, |dramas|, step, callback, temps, clock, i);
      var report :=
        if callback then [Report(dramas, i, |dramas|)]
        else [];
      var o := Process(b.fs, dramas[i], temps(i), tools, help, callback, clock(i));
      if o.Err? {
        return Err(o.error);
      }
      assert o.value == step(b.fs, dramas[i], temps(i), clock(i));
      r := Ok(Batch(b.results + [o.value.result], b.events + report + o.value.events, o.value.fs));
    }
  }
}
