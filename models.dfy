// The data model shared by every stage: statuses, results, segments,
// subtitle entries, unit directories, transcode targets and configuration.
module Models {
  import opened Results
  import opened Text
  import opened Paths

  datatype ProcessingStatus = Pending | InProgress | Completed | Failed | Skipped
  {
    /** The enum's string value, as persisted in the state file. */
    function Value(): string
    {
      match this
      case Pending => "pending"
      case InProgress => "in_progress"
      case Completed => "completed"
      case Failed => "failed"
      case Skipped => "skipped"
    }
  }

  /** `ProcessingStatus(value)`: None where Python raises ValueError. */
  function StatusFromValue(v: string): (r: Option<ProcessingStatus>)
    ensures r.Some? ==> r.value.Value() == v
  {
    if v == "pending" then Some(Pending)
    else if v == "in_progress" then Some(InProgress)
    else if v == "completed" then Some(Completed)
    else if v == "failed" then Some(Failed)
    else if v == "skipped" then Some(Skipped)
    else None
  }

  lemma StatusValueRoundTrip(s: ProcessingStatus)
    ensures StatusFromValue(s.Value()) == Some(s)
  {
  }

  datatype SubtitleFormat = Srt | Ass
  {
    function Value(): string
    {
      match this
      case Srt => "srt"
      case Ass => "ass"
    }
  }

  /** The outcome of one unit of work for one stage. */
  datatype ProcessingResult = ProcessingResult(
    status: ProcessingStatus,
    inputPath: Path,
    outputPath: Option<Path>,
    errorMessage: Option<string>,
    durationSeconds: real)

  /** A FAILED result with no output. */
  function FailedResult(input: Path, message: string, elapsed: real): (r: ProcessingResult)
    ensures r.status == Failed && r.inputPath == input && r.outputPath.None?
    ensures r.errorMessage == Some(message)
  {
    ProcessingResult(Failed, input, None, Some(message), elapsed)
  }

  datatype ProgressInfo = ProgressInfo(current: int, total: int, currentFile: string, percentage: real)

  /** `(current / total) * 100`, on exact reals. */
  function Percentage(current: int, total: int): real
    requires total != 0
  {
    current as real / total as real * 100.0
  }

  lemma FullPercentage(n: int)
    requires n != 0
    ensures Percentage(n, n) == 100.0
  {
    var r := n as real;
    assert r / r == 1.0;
  }

  /** Progress never leaves [0, 100] while the count stays within the total. */
  lemma PercentageBounds(current: int, total: int)
    requires 0 <= current <= total && 0 < total
    ensures 0.0 <= Percentage(current, total) <= 100.0
  {
    var c, t := current as real, total as real;
    assert c / t <= 1.0 by {
      assert c / t * t == c;
    }
  }

  /** Both facts above, for use inside expressions. */
  lemma PercentageFacts(current: int, total: int)
    requires total != 0
    ensures 0 <= current <= total ==> 0.0 <= Percentage(current, total) <= 100.0
    ensures current == total ==> Percentage(current, total) == 100.0
  {
    if 0 <= current <= total {
      PercentageBounds(current, total);
    }
    if current == total {
      FullPercentage(total);
    }
  }

  /** A call a stage makes on the progress callback it was given, in the order made. */
  datatype ProgressEvent = OnProgress(info: ProgressInfo) | OnFileStart(file: string) | OnFileComplete(result: ProcessingResult)

  datatype VideoSegment = VideoSegment(path: Path, durationSeconds: real, index: int)

  datatype SubtitleSegment = SubtitleSegment(path: Path, index: int, format: SubtitleFormat)

  /** One subtitle cue; times are seconds. */
  datatype SubtitleEntry = SubtitleEntry(index: int, startTime: real, endTime: real, text: string, style: Option<string>)
  {
    /** A copy of the cue moved by `offset` seconds. */
    function ShiftTime(offset: real): (r: SubtitleEntry)
      ensures r.endTime - r.startTime == endTime - startTime
      ensures r.startTime - startTime == offset
      ensures r.index == index && r.text == text && r.style == style
    {
      SubtitleEntry(index, startTime + offset, endTime + offset, text, style)
    }
  }

  /** Shifting twice is shifting once by the sum; shifting back undoes a shift. */
  lemma ShiftTimeCompose(e: SubtitleEntry, a: real, b: real)
    ensures e.ShiftTime(a).ShiftTime(b) == e.ShiftTime(a + b)
    ensures e.ShiftTime(a).ShiftTime(-a) == e
  {
  }

  datatype DramaDirectory = DramaDirectory(
    path: Path,
    name: string,
    hasVideoDir: bool,
    hasSrtDir: bool,
    hasMergedDir: bool,
    hasClearedDir: bool)

  datatype TranscodeSpec = TranscodeSpec(width: int, height: int, videoCodec: string, audioCodec: string)
  {
    /** "<height>p", e.g. "1080p". */
    function ResolutionName(): string
    {
      IntToString(height) + "p"
    }
  }

  /** `TranscodeSpec(width, height)` with the default codecs. */
  function Spec(width: int, height: int): (r: TranscodeSpec)
    ensures r.width == width && r.height == height
    ensures r.videoCodec == "libx264" && r.audioCodec == "aac"
  {
    TranscodeSpec(width, height, "libx264", "aac")
  }

  /** Two targets share a resolution name exactly when they share a height. */
  lemma {:induction false} ResolutionNameInjective(a: TranscodeSpec, b: TranscodeSpec)
    ensures a.ResolutionName() == b.ResolutionName() <==> a.height == b.height
  {
    if a.ResolutionName() == b.ResolutionName() {
      var sa, sb := IntToString(a.height), IntToString(b.height);
      assert sa == a.ResolutionName()[..|sa|];
      assert |sa| == |b.ResolutionName()| - 1 == |sb|;
      assert sa == sb;
      IntToStringInjective(a.height, b.height);
    }
  }

  lemma IntToStringInjective(i: int, j: int)
    requires IntToString(i) == IntToString(j)
    ensures i == j
  {
    var si, sj := IntToString(i), IntToString(j);
    assert (si[0] == '-') == (i < 0);
    assert (sj[0] == '-') == (j < 0);
    if i < 0 {
      assert si[1..] == NatToDigits(-i) && sj[1..] == NatToDigits(-j);
      NatToDigitsInjective(-i, -j);
    } else {
      NatToDigitsInjective(i, j);
    }
  }

  /** The preset targets: 1080p, 720p and 480p. */
  function DefaultSpecs(): (r: seq<TranscodeSpec>)
    ensures |r| == 3 && r[0].height == 1080 && r[1].height == 720 && r[2].height == 480
  {
    [Spec(1920, 1080), Spec(1280, 720), Spec(854, 480)]
  }

  /** Global options; the Option fields are the ones `__post_init__` fills in. */
  datatype ProcessingConfig = ProcessingConfig(
    dramaRoot: Path,
    maxWorkers: int,
    enableResume: bool,
    stateFile: Option<Path>,
    audioSeparatorModel: string,
    accompanimentVolume: real,
    transcodeSpecs: Option<seq<TranscodeSpec>>,
    preserveAspectRatio: bool,
    overwriteExisting: bool,
    addNumericSuffix: bool,
    generateReport: bool,
    reportDir: Option<Path>,
    logLevel: string,
    logFile: Option<Path>)

  /** `ProcessingConfig(drama_root)` with every other field at its declared default, before `__post_init__`. */
  function ConfigDefaults(root: Path): ProcessingConfig
  {
    ProcessingConfig(root, 4, true, None, "spleeter:2stems", 0.0, None, true, false, true, true, None, "INFO", None)
  }

  /** `__post_init__`: fills the state file, report directory and targets only where they are unset. */
  function PostInit(c: ProcessingConfig): (r: ProcessingConfig)
    ensures r.stateFile == Some(if c.stateFile.None? then [".drama_processor_state.json"] else c.stateFile.value)
    ensures r.reportDir == Some(if c.reportDir.None? then ["reports"] else c.reportDir.value)
    ensures r.transcodeSpecs == Some(if c.transcodeSpecs.None? then DefaultSpecs() else c.transcodeSpecs.value)
    ensures r.(stateFile := c.stateFile, reportDir := c.reportDir, transcodeSpecs := c.transcodeSpecs) == c
  {
    c.(stateFile := Some(c.stateFile.UnwrapOr([".drama_processor_state.json"])),
       reportDir := Some(c.reportDir.UnwrapOr(["reports"])),
       transcodeSpecs := Some(c.transcodeSpecs.UnwrapOr(DefaultSpecs())))
  }

  /** Post-initialisation is idempotent. */
  lemma PostInitIdempotent(c: ProcessingConfig)
    ensures PostInit(PostInit(c)) == PostInit(c)
  {
  }
}
