// The merge stage of merger.py: the numbered video and subtitle segments of a
// drama directory are found, the videos are joined by ffmpeg, and the subtitle
// files are joined into one whose cues follow the joined video's timeline.
// Probing durations, running ffmpeg and reading files are parameters.
module Merger {
  import opened Results
  import opened Text
  import opened Paths
  import opened Models
  import opened Sorter
  import opened Subtitle
  import opened SubtitleFiles
  import opened AssSubtitle
  import FileManager
  import Ffmpeg

  // ---------------------------------------------------------------------
  // Scanning the segments

  function MissingVideoDir(dir: Path): string
  {
    "视频目录不存在: " + ToString(dir)
  }

  function NoVideoFiles(dir: Path): string
  {
    "未找到视频文件: " + ToString(dir)
  }

  /** The TypeError `sorted` raises when the keys of two names cannot be compared. */
  const UnorderableNames := "'<' not supported between instances of 'int' and 'str'"

  /** The segments made of the sorted files, numbered from 1, or the error of the first duration that cannot be read. */
  function VideoSegmentsOf(files: seq<Path>, duration: Path -> Result<real>): Result<seq<VideoSegment>>
  {
    if |files| == 0 then Ok([])
    else
      match VideoSegmentsOf(files[..|files| - 1], duration)
      case Err(e) => Err(e)
      case Ok(segments) =>
        match duration(files[|files| - 1])
        case Err(e) => Err(e)
        case Ok(d) => Ok(segments + [VideoSegment(files[|files| - 1], d, |files|)])
  }

  /** What `scan_video_segments` returns or raises for a directory. */
  function VideoScan(fs: FileSystem, dir: Path, duration: Path -> Result<real>): Result<seq<VideoSegment>>
  {
    if !fs.Exists(dir) then Err(MissingVideoDir(dir))
    else if |fs.Glob(dir, ".mp4")| == 0 then Err(NoVideoFiles(dir))
    else
      match SortFiles(fs.Glob(dir, ".mp4"))
      case None => Err(UnorderableNames)
      case Some(sorted) => VideoSegmentsOf(sorted, duration)
  }

  /**
   * `scan_video_segments`: the `.mp4` files of the directory in natural
   * order, each with its duration and its position from 1. A failed
   * sequence check is only logged.
   */
  method ScanVideoSegments(fs: FileSystem, dir: Path, duration: Path -> Result<real>) returns (r: Result<seq<VideoSegment>>)
    ensures r == VideoScan(fs, dir, duration)
    ensures !fs.Exists(dir) ==> r == Err(MissingVideoDir(dir))
    ensures fs.Exists(dir) && |fs.Glob(dir, ".mp4")| == 0 ==> r == Err(NoVideoFiles(dir))
    ensures fs.Exists(dir) && |fs.Glob(dir, ".mp4")| > 0 && SortFiles(fs.Glob(dir, ".mp4")).None? ==>
      r == Err(UnorderableNames)
    ensures r.Ok? ==> |r.value| > 0
  {
    if !fs.Exists(dir) {
      return Err(MissingVideoDir(dir));
    }
    var videoFiles := fs.Glob(dir, ".mp4");
    if |videoFiles| == 0 {
      return Err(NoVideoFiles(dir));
    }
    var sorted := SortFiles(videoFiles);
    if sorted.None? {
      return Err(UnorderableNames);
    }
    var files := sorted.value;
    var check := ValidateSequence(files);
    assert |files| == |multiset(files)| == |multiset(videoFiles)| == |videoFiles|;
    r := CollectVideoSegments(files, duration);
    VideoSegmentsFacts(files, duration);
  }

  /** The loop of `scan_video_segments`: each file with its duration and its position from 1. */
  method CollectVideoSegments(files: seq<Path>, duration: Path -> Result<real>) returns (r: Result<seq<VideoSegment>>)
    ensures r == VideoSegmentsOf(files, duration)
  {
    var segments: seq<VideoSegment> := [];
    var idx := 0;
    while idx < |files|
      invariant 0 <= idx <= |files|
      invariant VideoSegmentsOf(files[..idx], duration) == Ok(segments)
    {
      assert files[..idx + 1][..idx] == files[..idx];
      var d := duration(files[idx]);
      if d.Err? {
        VideoErrorKept(files, idx + 1, duration);
        return Err(d.error);
      }
      segments := segments + [VideoSegment(files[idx], d.value, idx + 1)];
      idx := idx + 1;
    }
    assert files[..idx] == files;
    r := Ok(segments);
  }

  /**
   * A successful scan holds one segment per `.mp4` file of the directory, in
   * natural order, each with its duration and its position from 1.
   */
  lemma VideoScanOk(fs: FileSystem, dir: Path, duration: Path -> Result<real>, sorted: seq<Path>, segments: seq<VideoSegment>)
    requires VideoScan(fs, dir, duration) == Ok(segments) && SortFiles(fs.Glob(dir, ".mp4")) == Some(sorted)
    ensures |segments| == |sorted| > 0
    ensures forall i :: 0 <= i < |sorted| ==>
      segments[i].path == sorted[i] && segments[i].index == i + 1 && duration(sorted[i]) == Ok(segments[i].durationSeconds)
  {
    assert |sorted| == |multiset(sorted)| == |multiset(fs.Glob(dir, ".mp4"))| == |fs.Glob(dir, ".mp4")|;
    VideoSegmentsFacts(sorted, duration);
  }

  /** Once a duration fails, the scan fails with that error whatever follows. */
  lemma {:induction false} VideoErrorKept(files: seq<Path>, k: nat, duration: Path -> Result<real>)
    requires k <= |files| && VideoSegmentsOf(files[..k], duration).Err?
    ensures VideoSegmentsOf(files, duration) == VideoSegmentsOf(files[..k], duration)
    decreases |files| - k
  {
    if k < |files| {
      assert files[..k + 1][..k] == files[..k];
      VideoErrorKept(files, k + 1, duration);
    } else {
      assert files[..k] == files;
    }
  }

  /**
   * The segments succeed exactly when every duration can be read; segment i
   * is file i with its duration and the index i + 1; otherwise the error is
   * that of the first file whose duration fails.
   */
  lemma {:induction false} VideoSegmentsFacts(files: seq<Path>, duration: Path -> Result<real>)
    ensures VideoSegmentsOf(files, duration).Ok? <==> forall i :: 0 <= i < |files| ==> duration(files[i]).Ok?
    ensures VideoSegmentsOf(files, duration).Ok? ==>
      var segments := VideoSegmentsOf(files, duration).value;
      |segments| == |files| &&
      forall i :: 0 <= i < |files| ==> segments[i] == VideoSegment(files[i], duration(files[i]).value, i + 1)
    ensures VideoSegmentsOf(files, duration).Err? ==>
      exists i :: 0 <= i < |files| && duration(files[i]) == Err(VideoSegmentsOf(files, duration).error)
        && forall j :: 0 <= j < i ==> duration(files[j]).Ok?
  {
    if |files| > 0 {
      var init := files[..|files| - 1];
      VideoSegmentsFacts(init, duration);
      assert forall i :: 0 <= i < |init| ==> init[i] == files[i];
    }
  }

  /** The subtitle files of a directory: the `.srt` ones, then the `.ass` ones. */
  function SubtitleFilesIn(fs: FileSystem, dir: Path): seq<Path>
  {
    fs.Glob(dir, ".srt") + fs.Glob(dir, ".ass")
  }

  /** The format `scan_subtitle_segments` gives a file: that of its lower-cased suffix, if `.srt` or `.ass`. */
  function SuffixFormat(p: Path): Option<SubtitleFormat>
  {
    FormatOfExtension(Extension(p))
  }

  /**
   * The segments kept from the sorted files: a file's position from 1 is its
   * index, and a file `formatOf` gives no format is skipped without giving
   * its index to the next one.
   */
  function Kept(sorted: seq<Path>, formatOf: Path -> Option<SubtitleFormat>): seq<SubtitleSegment>
  {
    if |sorted| == 0 then []
    else
      var last := sorted[|sorted| - 1];
      Kept(sorted[..|sorted| - 1], formatOf)
      + match formatOf(last)
        case Some(f) => [SubtitleSegment(last, |sorted|, f)]
        case None => []
  }

  /** What `scan_subtitle_segments` returns or raises for a directory. */
  function SubtitleScan(fs: FileSystem, dir: Path): Result<seq<SubtitleSegment>>
  {
    if !fs.Exists(dir) || |SubtitleFilesIn(fs, dir)| == 0 then Ok([])
    else
      match SortFiles(SubtitleFilesIn(fs, dir))
      case None => Err(UnorderableNames)
      case Some(sorted) => Ok(Kept(sorted, SuffixFormat))
  }

  /**
   * `scan_subtitle_segments`: nothing for a missing directory or one without
   * subtitle files; otherwise the files in natural order, indexed from 1,
   * with the format their suffix names. A failed sequence check is only
   * logged.
   */
  method ScanSubtitleSegments(fs: FileSystem, dir: Path) returns (r: Result<seq<SubtitleSegment>>)
    ensures r == SubtitleScan(fs, dir)
  {
    if !fs.Exists(dir) {
      return Ok([]);
    }
    var subtitleFiles := fs.Glob(dir, ".srt") + fs.Glob(dir, ".ass");
    if |subtitleFiles| == 0 {
      return Ok([]);
    }
    var sorted := SortFiles(subtitleFiles);
    if sorted.None? {
      return Err(UnorderableNames);
    }
    var files := sorted.value;
    var check := ValidateSequence(files);
    var segments := KeepSubtitleSegments(files, SuffixFormat);
    return Ok(segments);
  }

  /** The loop of `scan_subtitle_segments`: files without a format are skipped, but their position is used up. */
  method KeepSubtitleSegments(files: seq<Path>, formatOf: Path -> Option<SubtitleFormat>) returns (segments: seq<SubtitleSegment>)
    ensures segments == Kept(files, formatOf)
  {
    segments := [];
    var idx := 0;
    while idx < |files|
      invariant 0 <= idx <= |files|
      invariant segments == Kept(files[..idx], formatOf)
    {
      assert files[..idx + 1][..idx] == files[..idx];
      var format := formatOf(files[idx]);
      if format.None? {
        idx := idx + 1;
        continue;
      }
      segments := segments + [SubtitleSegment(files[idx], idx + 1, format.value)];
      idx := idx + 1;
    }
    assert files[..idx] == files;
  }

  /** Every kept segment is the sorted file at its index less one, with the format `formatOf` gives it. */
  lemma {:induction false} KeptIndexed(sorted: seq<Path>, formatOf: Path -> Option<SubtitleFormat>)
    ensures forall k :: 0 <= k < |Kept(sorted, formatOf)| ==>
      var seg := Kept(sorted, formatOf)[k];
      1 <= seg.index <= |sorted| && seg.path == sorted[seg.index - 1] && formatOf(seg.path) == Some(seg.format)
  {
    if |sorted| > 0 {
      var init := sorted[..|sorted| - 1];
      KeptIndexed(init, formatOf);
      var all := Kept(sorted, formatOf);
      assert all[..|Kept(init, formatOf)|] == Kept(init, formatOf);
      assert forall i :: 0 <= i < |init| ==> init[i] == sorted[i];
    }
  }

  /** The indices of the kept segments increase, and none exceeds the number of files. */
  lemma {:induction false} KeptIncreasing(sorted: seq<Path>, formatOf: Path -> Option<SubtitleFormat>)
    ensures forall k :: 0 <= k < |Kept(sorted, formatOf)| ==> 1 <= Kept(sorted, formatOf)[k].index <= |sorted|
    ensures forall k, l :: 0 <= k < l < |Kept(sorted, formatOf)| ==> Kept(sorted, formatOf)[k].index < Kept(sorted, formatOf)[l].index
  {
    if |sorted| > 0 {
      var init := sorted[..|sorted| - 1];
      KeptIncreasing(init, formatOf);
      var all := Kept(sorted, formatOf);
      assert all[..|Kept(init, formatOf)|] == Kept(init, formatOf);
    }
  }

  /** Every file with a format is kept, under its position from 1. */
  lemma {:induction false} KeptComplete(sorted: seq<Path>, formatOf: Path -> Option<SubtitleFormat>)
    ensures forall i :: 0 <= i < |sorted| && formatOf(sorted[i]).Some? ==>
      exists k :: 0 <= k < |Kept(sorted, formatOf)| && Kept(sorted, formatOf)[k].index == i + 1
  {
    if |sorted| > 0 {
      var init := sorted[..|sorted| - 1];
      KeptComplete(init, formatOf);
      var before := Kept(init, formatOf);
      var all := Kept(sorted, formatOf);
      assert all[..|before|] == before;
      forall i | 0 <= i < |sorted| && formatOf(sorted[i]).Some?
        ensures exists k :: 0 <= k < |all| && all[k].index == i + 1
      {
        if i < |init| {
          assert init[i] == sorted[i];
          var k :| 0 <= k < |before| && before[k].index == i + 1;
          assert all[k] == before[k];
        } else {
          assert all == before + [SubtitleSegment(sorted[i], |sorted|, formatOf(sorted[i]).value)];
          assert all[|all| - 1].index == i + 1;
        }
      }
      assert all == Kept(sorted, formatOf);
    }
  }

  /** When every file has a format, segment i is file i, numbered i + 1. */
  lemma {:induction false} KeptAll(sorted: seq<Path>, formatOf: Path -> Option<SubtitleFormat>)
    requires forall i :: 0 <= i < |sorted| ==> formatOf(sorted[i]).Some?
    ensures |Kept(sorted, formatOf)| == |sorted|
    ensures forall i :: 0 <= i < |sorted| ==>
      Kept(sorted, formatOf)[i] == SubtitleSegment(sorted[i], i + 1, formatOf(sorted[i]).value)
  {
    if |sorted| > 0 {
      var init := sorted[..|sorted| - 1];
      assert forall i :: 0 <= i < |init| ==> init[i] == sorted[i];
      KeptAll(init, formatOf);
    }
  }

  /** A file the glob for `*.srt` or `*.ass` found has that suffix unless its whole name is the pattern's tail. */
  lemma GlobbedSuffix(name: string, ext: string)
    requires ext == ".srt" || ext == ".ass"
    requires EndsWith(name, ext) && |name| > 4
    ensures Extension([name]) == ext
  {
    var i := |name| - 4;
    assert name[i..] == ext;
    assert name[i] == '.';
    FileManager.LastIndexOfIs(name, '.', i);
    LowerOfLower(ext);
  }

  lemma LowerOfLower(ext: string)
    requires ext == ".srt" || ext == ".ass"
    ensures Lower(ext) == ext
  {
  }

  // ---------------------------------------------------------------------
  // Joining the videos

  const EmptyVideos := "视频片段列表为空"

  function VideoMergeFailed(detail: string): string
  {
    "视频合并失败: " + detail
  }

  /** `[seg.path for seg in segments]`. */
  function SegmentPaths(segments: seq<VideoSegment>): (r: seq<Path>)
    ensures |r| == |segments| && forall i :: 0 <= i < |segments| ==> r[i] == segments[i].path
  {
    seq(|segments|, i requires 0 <= i < |segments| => segments[i].path)
  }

  /** How the output video was made: copied from the one segment, or joined by the concat demuxer. */
  datatype VideoMerge = Copied(source: Path) | Concatenated(listFile: Path, listText: string, command: seq<string>)

  /** What `merge_videos` makes of the segments, `run` giving the failure of a command, if any. */
  function VideoMerged(segments: seq<VideoSegment>, output: Path, cwd: Path, run: seq<string> -> Option<string>): Result<VideoMerge>
  {
    if |segments| == 0 then Err(EmptyVideos)
    else if |segments| == 1 then Ok(Copied(segments[0].path))
    else
      var listFile := Child(Parent(output), "concat_list.txt");
      var cmd := Ffmpeg.MergeArgs(listFile, output);
      match run(cmd)
      case Some(failure) => Err(VideoMergeFailed(failure))
      case None => Ok(Concatenated(listFile, Ffmpeg.ConcatList(cwd, SegmentPaths(segments)), cmd))
  }

  /**
   * `merge_videos` with the concat wrapper: no segments is an error; one
   * segment is copied; several are joined by the ffmpeg command that reads
   * the concat list written next to the output. `run` gives the text of the
   * failure of running a command, if it fails. The list file is removed
   * again whatever happens.
   */
  method MergeVideos(segments: seq<VideoSegment>, output: Path, cwd: Path, run: seq<string> -> Option<string>)
    returns (r: Result<VideoMerge>)
    ensures r == VideoMerged(segments, output, cwd, run)
    ensures |segments| == 0 ==> r == Err(EmptyVideos)
    ensures |segments| == 1 ==> r == Ok(Copied(segments[0].path))
    ensures |segments| > 1 ==>
      var listFile := Child(Parent(output), "concat_list.txt");
      var cmd := Ffmpeg.MergeArgs(listFile, output);
      (r.Err? <==> run(cmd).Some?)
      && (r.Err? ==> r.error == VideoMergeFailed(run(cmd).value))
      && (r.Ok? ==> r.value == Concatenated(listFile, Ffmpeg.ConcatList(cwd, SegmentPaths(segments)), cmd))
  {
    if |segments| == 0 {
      return Err(EmptyVideos);
    }
    if |segments| == 1 {
      return Ok(Copied(segments[0].path));
    }
    var segmentPaths := SegmentPaths(segments);
    var listFile, listText, cmd := Ffmpeg.BuildMergeCommand(segmentPaths, output, cwd);
    var failure := run(cmd);
    if failure.Some? {
      return Err(VideoMergeFailed(failure.value));
    }
    return Ok(Concatenated(listFile, listText, cmd));
  }

  // ---------------------------------------------------------------------
  // Joining the subtitles

  const EmptySubtitles := "字幕片段列表为空"

  function FormatMismatch(first: SubtitleFormat, other: SubtitleFormat): string
  {
    "字幕格式不一致: " + first.Value() + " vs " + other.Value()
  }

  /** The first segment from position `from` on whose format differs from the first segment's. */
  function FirstMismatch(segments: seq<SubtitleSegment>, from: nat): (r: Option<nat>)
    requires |segments| > 0
    ensures r.Some? ==> from <= r.value < |segments| && segments[r.value].format != segments[0].format
    ensures r.Some? ==> forall j :: from <= j < r.value ==> segments[j].format == segments[0].format
    ensures r.None? ==> forall j :: from <= j < |segments| ==> segments[j].format == segments[0].format
    decreases |segments| - from
  {
    if from >= |segments| then None
    else if segments[from].format != segments[0].format then Some(from)
    else FirstMismatch(segments, from + 1)
  }

  /** The format that is not `f`. */
  function Other(f: SubtitleFormat): (g: SubtitleFormat)
    ensures g != f
  {
    if f == Srt then Ass else Srt
  }

  function Sum(xs: seq<real>): real
  {
    if |xs| == 0 then 0.0 else Sum(xs[..|xs| - 1]) + xs[|xs| - 1]
  }

  function Durations(videos: seq<VideoSegment>): (r: seq<real>)
    ensures |r| == |videos| && forall i :: 0 <= i < |videos| ==> r[i] == videos[i].durationSeconds
  {
    seq(|videos|, i requires 0 <= i < |videos| => videos[i].durationSeconds)
  }

  /** The offset of subtitle file `k`: the durations of the videos before it, as far as there are videos. */
  function OffsetBefore(durations: seq<real>, k: nat): real
  {
    if k <= |durations| then Sum(durations[..k]) else Sum(durations)
  }

  /** A file's cues as they enter the merge: shifted when the offset is positive. */
  function ShiftIfLate(es: seq<SubtitleEntry>, offset: real): seq<SubtitleEntry>
  {
    if offset > 0.0 then ShiftEntries(es, offset) else es
  }

  /** The cues of the files one after another, each file shifted by its offset. */
  function Timeline(files: seq<seq<SubtitleEntry>>, durations: seq<real>): seq<SubtitleEntry>
  {
    if |files| == 0 then []
    else Timeline(files[..|files| - 1], durations) + ShiftIfLate(files[|files| - 1], OffsetBefore(durations, |files| - 1))
  }

  /** The cues with the indices `first`, `first + 1`, ... in order. */
  function Renumbered(es: seq<SubtitleEntry>, first: int): (r: seq<SubtitleEntry>)
    ensures |r| == |es| && forall i :: 0 <= i < |es| ==> r[i] == es[i].(index := first + i)
  {
    seq(|es|, i requires 0 <= i < |es| => es[i].(index := first + i))
  }

  /** The cues of the merged file. */
  function Merged(files: seq<seq<SubtitleEntry>>, durations: seq<real>): seq<SubtitleEntry>
  {
    Renumbered(Timeline(files, durations), 1)
  }

  /** The cues of every segment's file under `parse`, or the error of the first one that cannot be parsed. */
  function ParsedAll(segments: seq<SubtitleSegment>, parse: Path -> Result<seq<SubtitleEntry>>): Result<seq<seq<SubtitleEntry>>>
  {
    if |segments| == 0 then Ok([])
    else
      match ParsedAll(segments[..|segments| - 1], parse)
      case Err(e) => Err(e)
      case Ok(files) =>
        match parse(segments[|segments| - 1].path)
        case Err(e) => Err(e)
        case Ok(es) => Ok(files + [es])
  }

  /** The cues of every segment's file, or the error of the first one that cannot be parsed. */
  function ParsedFiles(segments: seq<SubtitleSegment>, read: Path -> string): Result<seq<seq<SubtitleEntry>>>
  {
    ParsedAll(segments, (p: Path) => ParsedFile(p, read(p)))
  }

  /** The cues of the merged file, or the error of the first file that cannot be parsed. */
  function MergedEntries(segments: seq<SubtitleSegment>, durations: seq<real>, read: Path -> string): Result<seq<SubtitleEntry>>
  {
    match ParsedFiles(segments, read)
    case Err(e) => Err(e)
    case Ok(files) => Ok(Merged(files, durations))
  }

  /**
   * The text `merge_subtitles` writes to its output, or the error it raises.
   * `read` gives the text of each file.
   */
  function MergedSubtitles(segments: seq<SubtitleSegment>, durations: seq<real>, read: Path -> string): Result<string>
  {
    if |segments| == 0 then Err(EmptySubtitles)
    else
      match FirstMismatch(segments, 1)
      case Some(j) => Err(FormatMismatch(segments[0].format, segments[j].format))
      case None =>
        if |segments| == 1 then Ok(read(segments[0].path))
        else JoinedSubtitles(segments, durations, read)
  }

  /**
   * Several files: the first is parsed for the parser that saves the result,
   * then every file is parsed and the cues are joined and saved in the first
   * segment's format.
   */
  function JoinedSubtitles(segments: seq<SubtitleSegment>, durations: seq<real>, read: Path -> string): Result<string>
    requires |segments| > 0
  {
    var first := segments[0].path;
    match SuffixFormat(first)
    case None => Err(UnsupportedFormat(Extension(first)))
    case Some(f) =>
      match MergedEntries(segments, durations, read)
      case Err(e) => Err(e)
      case Ok(entries) => Ok(SavedText(SubtitleFile(entries, segments[0].format, ParserFor(f, read(first)))))
  }

  /**
   * `merge_subtitles`: the formats are checked before anything is written;
   * one file is copied as it is; several are joined. The text written is the
   * result.
   */
  method MergeSubtitles(segments: seq<SubtitleSegment>, videoSegments: seq<VideoSegment>, read: Path -> string)
    returns (r: Result<string>)
    ensures r == MergedSubtitles(segments, Durations(videoSegments), read)
    ensures |segments| == 0 ==> r == Err(EmptySubtitles)
    ensures (exists j :: 0 <= j < |segments| && segments[j].format != segments[0].format) ==>
      r == Err(FormatMismatch(segments[0].format, Other(segments[0].format)))
    ensures |segments| == 1 ==> r == Ok(read(segments[0].path))
  {
    var durations := Durations(videoSegments);
    if |segments| == 0 {
      return Err(EmptySubtitles);
    }
    var firstFormat := segments[0].format;
    var k := 1;
    while k < |segments|
      invariant 1 <= k <= |segments|
      invariant FirstMismatch(segments, 1) == FirstMismatch(segments, k)
    {
      if segments[k].format != firstFormat {
        return Err(FormatMismatch(firstFormat, segments[k].format));
      }
      k := k + 1;
    }
    if |segments| == 1 {
      return Ok(read(segments[0].path));
    }
    r := JoinSubtitles(segments, durations, read);
  }

  /** The joining part of `merge_subtitles`: the first file's parser, then every file's cues, saved together. */
  method JoinSubtitles(segments: seq<SubtitleSegment>, durations: seq<real>, read: Path -> string)
    returns (r: Result<string>)
    requires |segments| > 0
    ensures r == JoinedSubtitles(segments, durations, read)
  {
    var firstSubtitle := ParseFile(segments[0].path, read(segments[0].path));
    if firstSubtitle.Err? {
      return Err(firstSubtitle.error);
    }
    var parser := firstSubtitle.value.parser;
    var entries := MergeEntries(segments, durations, read);
    if entries.Err? {
      return Err(entries.error);
    }
    r := Ok(SavedText(SubtitleFile(entries.value, segments[0].format, parser)));
  }

  /**
   * The loop of `merge_subtitles`: each file is parsed, shifted by the
   * running offset when that is positive and renumbered from the running
   * index; the offset grows by the duration of the video of the same
   * position while there is one.
   */
  method MergeEntries(segments: seq<SubtitleSegment>, durations: seq<real>, read: Path -> string)
    returns (r: Result<seq<SubtitleEntry>>)
    ensures r == MergedEntries(segments, durations, read)
  {
    var allEntries: seq<SubtitleEntry> := [];
    var cumulativeOffset := 0.0;
    var globalIndex := 1;
    ghost var files: seq<seq<SubtitleEntry>> := [];
    var i := 0;
    while i < |segments|
      invariant 0 <= i <= |segments| && |files| == i
      invariant ParsedFiles(segments[..i], read) == Ok(files)
      invariant allEntries == Renumbered(Timeline(files, durations), 1)
      invariant globalIndex == |allEntries| + 1
      invariant cumulativeOffset == OffsetBefore(durations, i)
    {
      assert segments[..i + 1][..i] == segments[..i];
      var path := segments[i].path;
      var entries := ParseShifted(path, read(path), cumulativeOffset);
      if entries.Err? {
        ParsedErrorKept(segments, i + 1, read);
        return Err(entries.error);
      }
      allEntries := AppendRenumbered(allEntries, entries.value, globalIndex, Timeline(files, durations));
      globalIndex := globalIndex + |entries.value|;
      files := files + [ParsedFile(path, read(path)).value];
      TimelineSnoc(files, durations);
      OffsetStep(durations, i);
      if i < |durations| {
        cumulativeOffset := cumulativeOffset + durations[i];
      }
      assert cumulativeOffset == OffsetBefore(durations, i + 1);
      i := i + 1;
    }
    assert segments[..i] == segments;
    r := Ok(allEntries);
  }

  /** One file of `merge_subtitles`: its cues, shifted when the running offset is positive, or the parse error. */
  method ParseShifted(path: Path, content: string, offset: real) returns (r: Result<seq<SubtitleEntry>>)
    ensures r.Err? <==> ParsedFile(path, content).Err?
    ensures r.Err? ==> r.error == ParsedFile(path, content).error
    ensures r.Ok? ==> r.value == ShiftIfLate(ParsedFile(path, content).value, offset)
  {
    var subtitleFile := ParseFile(path, content);
    if subtitleFile.Err? {
      return Err(subtitleFile.error);
    }
    var entries := subtitleFile.value.entries;
    if offset > 0.0 {
      entries := ShiftAll(subtitleFile.value, offset).entries;
    }
    r := Ok(entries);
  }

  /**
   * The inner loop of `merge_subtitles`: each cue gets the running index and
   * is appended; `done` is the timeline the cues so far were numbered from.
   */
  method AppendRenumbered(all: seq<SubtitleEntry>, entries: seq<SubtitleEntry>, globalIndex: int, ghost done: seq<SubtitleEntry>)
    returns (r: seq<SubtitleEntry>)
    requires all == Renumbered(done, 1) && globalIndex == |all| + 1
    ensures r == Renumbered(done + entries, 1)
  {
    r := all;
    var index := globalIndex;
    var k := 0;
    while k < |entries|
      invariant 0 <= k <= |entries|
      invariant r == Renumbered(done + entries[..k], 1) && index == |r| + 1
    {
      assert (done + entries[..k + 1]) == (done + entries[..k]) + [entries[k]];
      r := r + [entries[k].(index := index)];
      index := index + 1;
      k := k + 1;
    }
    assert entries[..k] == entries;
  }

  lemma TimelineSnoc(files: seq<seq<SubtitleEntry>>, durations: seq<real>)
    requires |files| > 0
    ensures Timeline(files, durations)
      == Timeline(files[..|files| - 1], durations) + ShiftIfLate(files[|files| - 1], OffsetBefore(durations, |files| - 1))
  {
  }

  /** The offset grows by the duration of the video at the same position, and not past the last video. */
  lemma OffsetStep(durations: seq<real>, k: nat)
    ensures OffsetBefore(durations, k + 1) == OffsetBefore(durations, k) + (if k < |durations| then durations[k] else 0.0)
  {
    if k < |durations| {
      assert durations[..k + 1][..k] == durations[..k];
    } else if k == |durations| {
      assert durations[..k] == durations;
    }
  }

  /** Once a file cannot be parsed, parsing fails with its error whatever follows. */
  lemma {:induction false} ParsedErrorKept(segments: seq<SubtitleSegment>, k: nat, read: Path -> string)
    requires k <= |segments| && ParsedFiles(segments[..k], read).Err?
    ensures ParsedFiles(segments, read) == ParsedFiles(segments[..k], read)
    decreases |segments| - k
  {
    if k < |segments| {
      assert segments[..k + 1][..k] == segments[..k];
      ParsedErrorKept(segments, k + 1, read);
    } else {
      assert segments[..k] == segments;
    }
  }

  // ---------------------------------------------------------------------
  // What the merged subtitles hold

  /** The number of cues of all files together. */
  function CueCount(files: seq<seq<SubtitleEntry>>): nat
  {
    if |files| == 0 then 0 else CueCount(files[..|files| - 1]) + |files[|files| - 1]|
  }

  /** Every file's cues enter the timeline, so its length is the sum of the files' cue counts. */
  lemma {:induction false} TimelineLength(files: seq<seq<SubtitleEntry>>, durations: seq<real>)
    ensures |Timeline(files, durations)| == CueCount(files)
  {
    if |files| > 0 {
      TimelineLength(files[..|files| - 1], durations);
    }
  }

  /** A file's cues come after those of every file before it. */
  lemma {:induction false} CueCountGrows(files: seq<seq<SubtitleEntry>>, k: nat)
    requires k < |files|
    ensures CueCount(files[..k]) + |files[k]| <= CueCount(files)
    decreases |files|
  {
    var n := |files| - 1;
    if k < n {
      assert files[..n][..k] == files[..k];
      CueCountGrows(files[..n], k);
    } else {
      assert files[..k] == files[..n];
    }
  }

  /**
   * Cue `p` of file `k` sits in the timeline after the cues of the files
   * before it, shifted by that file's offset.
   */
  lemma {:induction false} TimelinePlacement(files: seq<seq<SubtitleEntry>>, durations: seq<real>, k: nat, p: nat)
    requires k < |files| && p < |files[k]|
    ensures CueCount(files[..k]) + p < |Timeline(files, durations)|
    ensures Timeline(files, durations)[CueCount(files[..k]) + p] == ShiftIfLate(files[k], OffsetBefore(durations, k))[p]
    decreases |files|
  {
    var n := |files| - 1;
    var init := files[..n];
    var before := Timeline(init, durations);
    assert Timeline(files, durations) == before + ShiftIfLate(files[n], OffsetBefore(durations, n));
    TimelineLength(init, durations);
    CueCountGrows(files, k);
    if k < n {
      assert init[..k] == files[..k] && init[k] == files[k];
      TimelinePlacement(init, durations, k, p);
      assert Timeline(files, durations)[CueCount(files[..k]) + p] == before[CueCount(files[..k]) + p];
    } else {
      assert files[..k] == init;
    }
  }

  /**
   * The merged cues: as many as all files hold together; cue `p` of file `k`
   * comes after the cues of the files before it, moved by the durations of
   * the videos before it when that offset is positive, with its text and
   * style kept and its index its position from 1.
   */
  lemma MergedPlacement(files: seq<seq<SubtitleEntry>>, durations: seq<real>, k: nat, p: nat)
    requires k < |files| && p < |files[k]|
    ensures |Merged(files, durations)| == CueCount(files)
    ensures var j := CueCount(files[..k]) + p;
      var offset := if OffsetBefore(durations, k) > 0.0 then OffsetBefore(durations, k) else 0.0;
      j < CueCount(files)
      && Merged(files, durations)[j] == SubtitleEntry(j + 1, files[k][p].startTime + offset, files[k][p].endTime + offset,
                                                    files[k][p].text, files[k][p].style)
  {
    TimelineLength(files, durations);
    TimelinePlacement(files, durations, k, p);
  }

  /** The parsed files are those of the segments, one each, in order. */
  lemma ParsedFilesFacts(segments: seq<SubtitleSegment>, read: Path -> string)
    requires ParsedFiles(segments, read).Ok?
    ensures |ParsedFiles(segments, read).value| == |segments|
    ensures forall k :: 0 <= k < |segments| ==>
      ParsedFile(segments[k].path, read(segments[k].path)) == Ok(ParsedFiles(segments, read).value[k])
  {
    var parse := (p: Path) => ParsedFile(p, read(p));
    assert ParsedFiles(segments, read) == ParsedAll(segments, parse);
    if |segments| == 0 {
      assert ParsedAll(segments, parse) == Ok([]);
    } else {
      ParsedAt(segments, parse, 0);
    }
    forall k | 0 <= k < |segments|
      ensures ParsedFile(segments[k].path, read(segments[k].path)) == Ok(ParsedFiles(segments, read).value[k])
    {
      ParsedAt(segments, parse, k);
    }
  }

  lemma {:induction false} ParsedAt(segments: seq<SubtitleSegment>, parse: Path -> Result<seq<SubtitleEntry>>, k: nat)
    requires ParsedAll(segments, parse).Ok? && k < |segments|
    ensures |ParsedAll(segments, parse).value| == |segments|
    ensures parse(segments[k].path) == Ok(ParsedAll(segments, parse).value[k])
  {
    var n := |segments| - 1;
    var init := segments[..n];
    var prev := ParsedAll(init, parse);
    if n > 0 {
      ParsedAt(init, parse, if k < n then k else 0);
    }
    if k < n {
      assert init[k] == segments[k];
    }
  }

  /** A merged SRT file has no header: it is each merged cue's block followed by a blank line, in order. */
  lemma MergedSrtText(segments: seq<SubtitleSegment>, durations: seq<real>, read: Path -> string)
    requires |segments| > 1 && segments[0].format == Srt && SuffixFormat(segments[0].path) == Some(Srt)
    requires MergedSubtitles(segments, durations, read).Ok?
    ensures MergedEntries(segments, durations, read).Ok?
    ensures MergedSubtitles(segments, durations, read).value == Written(MergedEntries(segments, durations, read).value, SrtSaved)
  {
    SrtSavedText(MergedEntries(segments, durations, read).value);
  }

  /** A merged ASS file starts with the header read from the first file and goes on with the merged cue lines. */
  lemma MergedAssText(segments: seq<SubtitleSegment>, durations: seq<real>, read: Path -> string)
    requires |segments| > 1 && segments[0].format == Ass && SuffixFormat(segments[0].path) == Some(Ass)
    requires MergedSubtitles(segments, durations, read).Ok?
    ensures MergedEntries(segments, durations, read).Ok?
    ensures var lines := HeaderOf(ReadLines(read(segments[0].path)));
      MergedSubtitles(segments, durations, read).value
      == HeaderFor(lines) + Written(MergedEntries(segments, durations, read).value, FormatAssEntry)
  {
    var lines := HeaderOf(ReadLines(read(segments[0].path)));
    AssSaveShape(MergedEntries(segments, durations, read).value, lines, StylesOf(map[], lines));
  }

  // ---------------------------------------------------------------------
  // One drama directory

  /** What `process` runs against: durations, file contents, running a command and the working directory. */
  datatype MergeTools = MergeTools(duration: Path -> Result<real>, read: Path -> string, run: seq<string> -> Option<string>, cwd: Path)

  /** The directory the segments are under: `original/` when it exists, the drama directory otherwise. */
  function SourceRoot(fs: FileSystem, drama: Path): Path
  {
    if fs.Exists(Child(drama, "original")) then Child(drama, "original") else drama
  }

  function VideoDir(fs: FileSystem, drama: Path): Path
  {
    Child(SourceRoot(fs, drama), "video")
  }

  function SrtDir(fs: FileSystem, drama: Path): Path
  {
    Child(SourceRoot(fs, drama), "srt")
  }

  function MergedDir(drama: Path): Path
  {
    Child(drama, "merged")
  }

  function ScanFailed(detail: string): string
  {
    "扫描视频片段失败: " + detail
  }

  function MergeFailed(detail: string): string
  {
    "合并视频失败: " + detail
  }

  function ProcessFailed(detail: string): string
  {
    "处理失败: " + detail
  }

  /** The name the merged subtitle file is first tried under. */
  function MergedSubtitleName(f: SubtitleFormat): string
  {
    if f == Srt then "merged.srt" else "merged.ass"
  }

  /** The video directory exists and both scans succeed, so `process` goes on to merge. */
  predicate Scanned(fs: FileSystem, drama: Path, tools: MergeTools)
  {
    fs.Exists(VideoDir(fs, drama)) && VideoScan(fs, VideoDir(fs, drama), tools.duration).Ok?
    && SubtitleScan(fs, SrtDir(fs, drama)).Ok?
  }

  /** The command that joins the videos into `output`. */
  function JoinCommand(drama: Path, output: Path): seq<string>
  {
    Ffmpeg.MergeArgs(Child(MergedDir(drama), "concat_list.txt"), output)
  }

  /** What `process` leaves: the result, the progress calls made, the merged video's path, the merged subtitles' path and the filesystem. */
  datatype Outcome = Outcome(result: ProcessingResult, events: seq<ProgressEvent>, video: Option<Path>, subtitle: Option<Path>, fs: FileSystem)

  /**
   * The shape every outcome of `process` has: the result is for the drama
   * directory; a COMPLETED one names `merged/` and no error, anything else is
   * FAILED with an error and no output; the start call comes first and the
   * completion call, when made, carries the result.
   */
  predicate WellFormed(o: Outcome, drama: Path, elapsed: real)
  {
    && o.result.inputPath == drama && o.result.durationSeconds == elapsed
    && (o.result.status == Completed ==> o.result.outputPath == Some(MergedDir(drama)) && o.result.errorMessage.None?)
    && (o.result.status != Completed ==> o.result.status == Failed && o.result.outputPath.None? && o.result.errorMessage.Some?)
    && 1 <= |o.events| <= 2 && o.events[0] == OnFileStart(ToString(drama))
    && (|o.events| == 2 ==> o.events[1] == OnFileComplete(o.result))
    && (o.result.status == Completed ==> |o.events| == 2)
    && (o.subtitle.Some? ==> o.result.status == Completed)
  }

  /**
   * What `process` does with one drama directory. Every failure is a FAILED
   * result: a missing video directory, a failed video scan and a failed video
   * merge end without a completion call; an error from the subtitle scan is
   * caught by the outer handler, which does make one.
   */
  function Processed(fs: FileSystem, drama: Path, tools: MergeTools, elapsed: real): (o: Outcome)
    ensures WellFormed(o, drama, elapsed)
  {
    var start := OnFileStart(ToString(drama));
    var videoDir := VideoDir(fs, drama);
    if !fs.Exists(videoDir) then Outcome(FailedResult(drama, MissingVideoDir(videoDir), elapsed), [start], None, None, fs)
    else
      match VideoScan(fs, videoDir, tools.duration)
      case Err(e) => Outcome(FailedResult(drama, ScanFailed(e), elapsed), [start], None, None, fs)
      case Ok(videos) =>
        match SubtitleScan(fs, SrtDir(fs, drama))
        case Err(e) =>
          var r := FailedResult(drama, ProcessFailed(e), elapsed);
          Outcome(r, [start, OnFileComplete(r)], None, None, fs)
        case Ok(subtitles) => MergedOutcome(fs, drama, tools, elapsed, videos, subtitles)
  }

  /**
   * The part of `process` after the scans: `merged/` is made, and a file in
   * its place raises into the outer handler; the video goes to a free name
   * there, `merged.mp4` when that is free, and its failure is the failure of
   * the whole; the subtitles go to a free name after the video is written
   * and are kept only when their merge succeeds.
   */
  function MergedOutcome(fs: FileSystem, drama: Path, tools: MergeTools, elapsed: real, videos: seq<VideoSegment>,
                         subtitles: seq<SubtitleSegment>): (o: Outcome)
    ensures WellFormed(o, drama, elapsed)
    ensures o.video.Some? <==> !fs.IsFile(MergedDir(drama))
  {
    var start := OnFileStart(ToString(drama));
    match fs.MkDir(MergedDir(drama))
    case Err(e) =>
      var r := FailedResult(drama, ProcessFailed(e), elapsed);
      Outcome(r, [start, OnFileComplete(r)], None, None, fs)
    case Ok(withDir) => MergedInto(withDir, drama, tools, elapsed, videos, subtitles)
  }

  /** The merges into `merged/`, once it exists in `withDir`. */
  function MergedInto(withDir: FileSystem, drama: Path, tools: MergeTools, elapsed: real, videos: seq<VideoSegment>,
                      subtitles: seq<SubtitleSegment>): (o: Outcome)
    ensures WellFormed(o, drama, elapsed)
    ensures o.video.Some?
  {
    var start := OnFileStart(ToString(drama));
    var videoPath := FileManager.UniquePath(withDir, Child(MergedDir(drama), "merged.mp4"));
    match VideoMerged(videos, videoPath, tools.cwd, tools.run)
    case Err(e) => Outcome(FailedResult(drama, MergeFailed(e), elapsed), [start], Some(videoPath), None, withDir)
    case Ok(_) =>
      var withVideo := withDir.AddFile(videoPath);
      var r := ProcessingResult(Completed, drama, Some(MergedDir(drama)), None, elapsed);
      if |subtitles| == 0 then Outcome(r, [start, OnFileComplete(r)], Some(videoPath), None, withVideo)
      else
        var subtitlePath := FileManager.UniquePath(withVideo, Child(MergedDir(drama), MergedSubtitleName(subtitles[0].format)));
        if MergedSubtitles(subtitles, Durations(videos), tools.read).Ok? then
          Outcome(r, [start, OnFileComplete(r)], Some(videoPath), Some(subtitlePath), withVideo.AddFile(subtitlePath))
        else Outcome(r, [start, OnFileComplete(r)], Some(videoPath), None, withVideo)
  }

  /** `process`: the scans, then the merges, with every failure turned into a FAILED result. */
  method Process(fs: FileSystem, drama: Path, tools: MergeTools, elapsed: real)
    returns (r: ProcessingResult, events: seq<ProgressEvent>, videoOut: Option<Path>, subtitleOut: Option<Path>, fs': FileSystem)
    ensures Outcome(r, events, videoOut, subtitleOut, fs') == Processed(fs, drama, tools, elapsed)
  {
    events := [OnFileStart(ToString(drama))];
    videoOut, subtitleOut, fs' := None, None, fs;
    var videoDir := VideoDir(fs, drama);
    var srtDir := SrtDir(fs, drama);
    if !fs.Exists(videoDir) {
      r := FailedResult(drama, MissingVideoDir(videoDir), elapsed);
      return;
    }
    var videoSegments := ScanVideoSegments(fs, videoDir, tools.duration);
    if videoSegments.Err? {
      r := FailedResult(drama, ScanFailed(videoSegments.error), elapsed);
      return;
    }
    var subtitleSegments := ScanSubtitleSegments(fs, srtDir);
    if subtitleSegments.Err? {
      r := FailedResult(drama, ProcessFailed(subtitleSegments.error), elapsed);
      events := [OnFileStart(ToString(drama)), OnFileComplete(r)];
      return;
    }
    r, events, videoOut, subtitleOut, fs' := MergeScanned(fs, drama, tools, elapsed, videoSegments.value, subtitleSegments.value);
  }

  /** The part of `process` after the scans. */
  method MergeScanned(fs: FileSystem, drama: Path, tools: MergeTools, elapsed: real, videos: seq<VideoSegment>,
                      subtitles: seq<SubtitleSegment>)
    returns (r: ProcessingResult, events: seq<ProgressEvent>, videoOut: Option<Path>, subtitleOut: Option<Path>, fs': FileSystem)
    ensures Outcome(r, events, videoOut, subtitleOut, fs') == MergedOutcome(fs, drama, tools, elapsed, videos, subtitles)
  {
    events := [OnFileStart(ToString(drama))];
    var mergedDir := MergedDir(drama);
    videoOut, subtitleOut := None, None;
    var made := fs.MkDir(mergedDir);
    if made.Err? {
      r := FailedResult(drama, ProcessFailed(made.error), elapsed);
      events := [OnFileStart(ToString(drama)), OnFileComplete(r)];
      fs' := fs;
      return;
    }
    fs' := made.value;
    var videoPath := FileManager.GetUniquePath(fs', Child(mergedDir, "merged.mp4"));
    videoOut := Some(videoPath);
    var merged := MergeVideos(videos, videoPath, tools.cwd, tools.run);
    if merged.Err? {
      r := FailedResult(drama, MergeFailed(merged.error), elapsed);
      return;
    }
    fs' := fs'.AddFile(videoPath);
    if |subtitles| > 0 {
      var name := MergedSubtitleName(subtitles[0].format);
      var subtitlePath := FileManager.GetUniquePath(fs', Child(mergedDir, name));
      var text := MergeSubtitles(subtitles, videos, tools.read);
      if text.Ok? {
        fs' := fs'.AddFile(subtitlePath);
        subtitleOut := Some(subtitlePath);
      }
    }
    r := ProcessingResult(Completed, drama, Some(mergedDir), None, elapsed);
    events := [OnFileStart(ToString(drama)), OnFileComplete(r)];
  }

  /**
   * The failures of `process` before anything is written: a missing video
   * directory, a failed video scan and a failed subtitle scan, each with its
   * message; only the last makes the completion call.
   */
  lemma ProcessEarlyFailures(fs: FileSystem, drama: Path, tools: MergeTools, elapsed: real)
    ensures var o := Processed(fs, drama, tools, elapsed);
      !fs.Exists(VideoDir(fs, drama)) ==>
        o.result == FailedResult(drama, MissingVideoDir(VideoDir(fs, drama)), elapsed) && |o.events| == 1 && o.fs == fs
    ensures var o := Processed(fs, drama, tools, elapsed); var scan := VideoScan(fs, VideoDir(fs, drama), tools.duration);
      fs.Exists(VideoDir(fs, drama)) && scan.Err? ==>
        o.result == FailedResult(drama, ScanFailed(scan.error), elapsed) && |o.events| == 1 && o.fs == fs
    ensures var o := Processed(fs, drama, tools, elapsed); var scan := SubtitleScan(fs, SrtDir(fs, drama));
      fs.Exists(VideoDir(fs, drama)) && VideoScan(fs, VideoDir(fs, drama), tools.duration).Ok? && scan.Err? ==>
        o.result == FailedResult(drama, ProcessFailed(scan.error), elapsed) && |o.events| == 2 && o.fs == fs
    ensures Processed(fs, drama, tools, elapsed).video.Some? <==> Scanned(fs, drama, tools) && !fs.IsFile(MergedDir(drama))
  {
  }

  /** Once both scans succeed, `process` goes on to make `merged/` and merge what they found, of which there is at least one video. */
  lemma ProcessedMerges(fs: FileSystem, drama: Path, tools: MergeTools, elapsed: real, videos: seq<VideoSegment>,
                        subtitles: seq<SubtitleSegment>)
    requires fs.Exists(VideoDir(fs, drama))
    requires VideoScan(fs, VideoDir(fs, drama), tools.duration) == Ok(videos)
    requires SubtitleScan(fs, SrtDir(fs, drama)) == Ok(subtitles)
    ensures Processed(fs, drama, tools, elapsed) == MergedOutcome(fs, drama, tools, elapsed, videos, subtitles)
    ensures |videos| > 0
  {
    VideoScanNonEmpty(fs, VideoDir(fs, drama), tools.duration);
  }

  lemma VideoScanNonEmpty(fs: FileSystem, dir: Path, duration: Path -> Result<real>)
    requires VideoScan(fs, dir, duration).Ok?
    ensures |VideoScan(fs, dir, duration).value| > 0
  {
    var sorted := SortFiles(fs.Glob(dir, ".mp4")).value;
    VideoScanOk(fs, dir, duration, sorted, VideoScan(fs, dir, duration).value);
  }

  /**
   * After the scans, a file named `merged` fails the run through the outer
   * handler, which makes the completion call, and writes nothing.
   */
  lemma MergedBlocked(fs: FileSystem, drama: Path, tools: MergeTools, elapsed: real, videos: seq<VideoSegment>,
                      subtitles: seq<SubtitleSegment>, o: Outcome)
    requires o == MergedOutcome(fs, drama, tools, elapsed, videos, subtitles)
    requires fs.IsFile(MergedDir(drama))
    ensures o.result == FailedResult(drama, ProcessFailed(FileExists(MergedDir(drama))), elapsed)
    ensures |o.events| == 2 && o.video.None? && o.subtitle.None? && o.fs == fs
  {
  }

  /**
   * After the scans, the run completes exactly when `merged/` can be made
   * and the video merge succeeds: with one segment, or when the concat
   * command into the chosen path runs cleanly. A failed merge carries the
   * command's message and no completion call is made. The subtitle merge
   * decides only whether subtitles are written.
   */
  lemma MergedCompletes(fs: FileSystem, drama: Path, tools: MergeTools, elapsed: real, videos: seq<VideoSegment>,
                        subtitles: seq<SubtitleSegment>, o: Outcome)
    requires |videos| > 0
    requires o == MergedOutcome(fs, drama, tools, elapsed, videos, subtitles)
    ensures o.video.Some? <==> !fs.IsFile(MergedDir(drama))
    ensures o.result.status == Completed <==>
      !fs.IsFile(MergedDir(drama)) && (|videos| == 1 || tools.run(JoinCommand(drama, o.video.value)).None?)
    ensures o.result.status == Failed && o.video.Some? ==>
      && o.result.errorMessage == Some(MergeFailed(VideoMergeFailed(tools.run(JoinCommand(drama, o.video.value)).value)))
      && |o.events| == 1
    ensures o.subtitle.Some? <==>
      (o.result.status == Completed && |subtitles| > 0 && MergedSubtitles(subtitles, Durations(videos), tools.read).Ok?)
  {
    if !fs.IsFile(MergedDir(drama)) {
      var withDir := fs.AddDir(MergedDir(drama));
      assert o == MergedInto(withDir, drama, tools, elapsed, videos, subtitles);
      FileManager.UniquePathFacts(withDir, Child(MergedDir(drama), "merged.mp4"));
    }
  }

  /**
   * The merged video goes to a path under `merged/` that did not exist,
   * `merged.mp4` when that was free; the merged subtitles go to another such
   * path, named after the first segment's format; the filesystem only gains
   * entries, and a completed run leaves the video in place.
   */
  lemma MergedOutputs(fs: FileSystem, drama: Path, tools: MergeTools, elapsed: real, videos: seq<VideoSegment>,
                      subtitles: seq<SubtitleSegment>, o: Outcome)
    requires o == MergedOutcome(fs, drama, tools, elapsed, videos, subtitles)
    ensures o.video.Some? ==> Parent(o.video.value) == MergedDir(drama) && !fs.Exists(o.video.value)
    ensures o.video.Some? && !fs.Exists(Child(MergedDir(drama), "merged.mp4")) ==>
      o.video.value == Child(MergedDir(drama), "merged.mp4")
    ensures o.result.status == Completed ==> o.fs.Exists(MergedDir(drama)) && o.fs.Exists(o.video.value)
    ensures o.subtitle.Some? ==>
      && Parent(o.subtitle.value) == MergedDir(drama) && !fs.Exists(o.subtitle.value) && o.fs.Exists(o.subtitle.value)
      && o.subtitle.value != o.video.value
      && (!fs.Exists(Child(MergedDir(drama), MergedSubtitleName(subtitles[0].format))) ==>
            o.subtitle.value == Child(MergedDir(drama), MergedSubtitleName(subtitles[0].format)))
    ensures forall q :: fs.Exists(q) ==> o.fs.Exists(q)
  {
    if !fs.IsFile(MergedDir(drama)) {
      var withDir := fs.AddDir(MergedDir(drama));
      assert o == MergedInto(withDir, drama, tools, elapsed, videos, subtitles);
      MergedIntoOutputs(fs, withDir, drama, tools, elapsed, videos, subtitles, o);
    }
  }

  /** `MergedOutputs` once `merged/` is made. */
  lemma MergedIntoOutputs(fs: FileSystem, withDir: FileSystem, drama: Path, tools: MergeTools, elapsed: real,
                          videos: seq<VideoSegment>, subtitles: seq<SubtitleSegment>, o: Outcome)
    requires withDir == fs.AddDir(MergedDir(drama))
    requires o == MergedInto(withDir, drama, tools, elapsed, videos, subtitles)
    ensures o.video.Some? && Parent(o.video.value) == MergedDir(drama) && !fs.Exists(o.video.value)
    ensures !fs.Exists(Child(MergedDir(drama), "merged.mp4")) ==> o.video.value == Child(MergedDir(drama), "merged.mp4")
    ensures o.result.status == Completed ==> o.fs.Exists(MergedDir(drama)) && o.fs.Exists(o.video.value)
    ensures o.subtitle.Some? ==>
      && Parent(o.subtitle.value) == MergedDir(drama) && !fs.Exists(o.subtitle.value) && o.fs.Exists(o.subtitle.value)
      && o.subtitle.value != o.video.value
      && (!fs.Exists(Child(MergedDir(drama), MergedSubtitleName(subtitles[0].format))) ==>
            o.subtitle.value == Child(MergedDir(drama), MergedSubtitleName(subtitles[0].format)))
    ensures forall q :: fs.Exists(q) ==> o.fs.Exists(q)
  {
    var mergedDir := MergedDir(drama);
    var videoPath := FileManager.UniquePath(withDir, Child(mergedDir, "merged.mp4"));
    FileManager.UniquePathFacts(withDir, Child(mergedDir, "merged.mp4"));
    var withVideo := withDir.AddFile(videoPath);
    if |subtitles| > 0 {
      FileManager.UniquePathFacts(withVideo, Child(mergedDir, MergedSubtitleName(subtitles[0].format)));
    }
  }

  /** Processing never removes anything from the filesystem. */
  lemma ProcessKeeps(fs: FileSystem, drama: Path, tools: MergeTools, elapsed: real)
    ensures forall q :: fs.Exists(q) ==> Processed(fs, drama, tools, elapsed).fs.Exists(q)
  {
    if Scanned(fs, drama, tools) {
      var videos := VideoScan(fs, VideoDir(fs, drama), tools.duration).value;
      var subtitles := SubtitleScan(fs, SrtDir(fs, drama)).value;
      ProcessedMerges(fs, drama, tools, elapsed, videos, subtitles);
      MergedOutputs(fs, drama, tools, elapsed, videos, subtitles, MergedOutcome(fs, drama, tools, elapsed, videos, subtitles));
    }
  }

  /** The progress report made before the `i`-th (from 0) of `total` directories. */
  function BatchProgress(i: nat, total: nat, drama: Path): ProgressInfo
    requires i < total
  {
    ProgressInfo(i + 1, total, ToString(drama), Percentage(i + 1, total))
  }

  /** The results, the callback calls and the filesystem left by a batch. */
  datatype Batch = Batch(results: seq<ProcessingResult>, events: seq<ProgressEvent>, fs: FileSystem)

  /** One directory's processing, as a step of a batch. */
  function ProcessStep(tools: MergeTools): (FileSystem, Path, real) -> Outcome
  {
    (f: FileSystem, d: Path, e: real) => Processed(f, d, tools, e)
  }

  /**
   * The first `|dramas|` directories of a batch of `total`, in order: each is
   * announced with its progress report and then processed by `step` on the
   * filesystem the earlier ones left; `clock(i)` is the time the `i`-th takes.
   */
  function BatchRun(fs: FileSystem, dramas: seq<Path>, total: nat, step: (FileSystem, Path, real) -> Outcome,
                    clock: nat -> real): Batch
    requires |dramas| <= total
    decreases |dramas|
  {
    if |dramas| == 0 then Batch([], [], fs)
    else
      var i := |dramas| - 1;
      var before := BatchRun(fs, dramas[..i], total, step, clock);
      var o := step(before.fs, dramas[i], clock(i));
      Batch(before.results + [o.result], before.events + [OnProgress(BatchProgress(i, total, dramas[i]))] + o.events, o.fs)
  }

  /** One more directory of a batch extends the run of the ones before it. */
  lemma BatchRunNext(fs: FileSystem, dramas: seq<Path>, total: nat, step: (FileSystem, Path, real) -> Outcome,
                     clock: nat -> real, i: nat)
    requires i < |dramas| <= total
    ensures var before := BatchRun(fs, dramas[..i], total, step, clock);
            var o := step(before.fs, dramas[i], clock(i));
            BatchRun(fs, dramas[..i + 1], total, step, clock)
              == Batch(before.results + [o.result], before.events + [OnProgress(BatchProgress(i, total, dramas[i]))] + o.events, o.fs)
  {
    assert dramas[..i + 1][..i] == dramas[..i];
  }

  /** `process_batch`: every directory is processed, whatever happened to the ones before it. */
  method ProcessBatch(fs: FileSystem, dramas: seq<Path>, tools: MergeTools, clock: nat -> real)
    returns (results: seq<ProcessingResult>, events: seq<ProgressEvent>, fs': FileSystem)
    ensures Batch(results, events, fs') == BatchRun(fs, dramas, |dramas|, ProcessStep(tools), clock)
  {
    results, events, fs' := [], [], fs;
    var total := |dramas|;
    var i := 0;
    while i < total
      invariant 0 <= i <= total
      invariant Batch(results, events, fs') == BatchRun(fs, dramas[..i], total, ProcessStep(tools), clock)
    {
      var report := OnProgress(ProgressInfo(i + 1, total, ToString(dramas[i]), Percentage(i + 1, total)));
      var r, processEvents, videoOut, subtitleOut, next := Process(fs', dramas[i], tools, clock(i));
      BatchRunNext(fs, dramas, total, ProcessStep(tools), clock, i);
      results, events, fs' := results + [r], events + [report] + processEvents, next;
      i := i + 1;
    }
    assert dramas[..total] == dramas;
  }

  /** The progress reports among the callback calls, in order. */
  function Reports(events: seq<ProgressEvent>): (r: seq<ProgressInfo>)
    ensures |r| <= |events|
  {
    if |events| == 0 then []
    else Reports(events[..|events| - 1]) + (if events[|events| - 1].OnProgress? then [events[|events| - 1].info] else [])
  }

  lemma {:induction false} ReportsAppend(a: seq<ProgressEvent>, b: seq<ProgressEvent>)
    ensures Reports(a + b) == Reports(a) + Reports(b)
    decreases |b|
  {
    if |b| > 0 {
      assert (a + b)[..|a + b| - 1] == a + b[..|b| - 1];
      ReportsAppend(a, b[..|b| - 1]);
    } else {
      assert a + b == a;
    }
  }

  lemma {:induction false} NoReports(events: seq<ProgressEvent>)
    requires forall i :: 0 <= i < |events| ==> !events[i].OnProgress?
    ensures Reports(events) == []
  {
    if |events| > 0 {
      NoReports(events[..|events| - 1]);
    }
  }

  /** `process` itself makes no progress reports. */
  lemma WellFormedNoReports(o: Outcome, drama: Path, elapsed: real)
    requires WellFormed(o, drama, elapsed)
    ensures Reports(o.events) == []
  {
    NoReports(o.events);
  }

  /** A step of a batch in the shape of `process`, which never removes anything from the filesystem. */
  ghost predicate ProcessLike(step: (FileSystem, Path, real) -> Outcome)
  {
    forall f: FileSystem, d: Path, e: real ::
      WellFormed(step(f, d, e), d, e) && forall q :: f.Exists(q) ==> step(f, d, e).fs.Exists(q)
  }

  lemma ProcessStepIsProcessLike(tools: MergeTools)
    ensures ProcessLike(ProcessStep(tools))
  {
    forall f: FileSystem, d: Path, e: real
      ensures WellFormed(ProcessStep(tools)(f, d, e), d, e)
      ensures forall q :: f.Exists(q) ==> ProcessStep(tools)(f, d, e).fs.Exists(q)
    {
      ProcessKeeps(f, d, tools, e);
    }
  }

  /**
   * A batch yields one result per directory, in order, the `i`-th being the
   * result of processing the `i`-th directory on what the earlier ones left.
   */
  lemma {:induction false} BatchResults(fs: FileSystem, dramas: seq<Path>, total: nat,
                                        step: (FileSystem, Path, real) -> Outcome, clock: nat -> real, i: nat)
    requires |dramas| <= total && i < |dramas|
    ensures var b := BatchRun(fs, dramas, total, step, clock);
      |b.results| == |dramas|
      && b.results[i] == step(BatchRun(fs, dramas[..i], total, step, clock).fs, dramas[i], clock(i)).result
    decreases |dramas|
  {
    var n := |dramas| - 1;
    var before := BatchRun(fs, dramas[..n], total, step, clock);
    var o := step(before.fs, dramas[n], clock(n));
    assert BatchRun(fs, dramas, total, step, clock).results == before.results + [o.result];
    if i < n {
      BatchResults(fs, dramas[..n], total, step, clock, i);
      assert dramas[..n][..i] == dramas[..i];
    } else {
      if n > 0 {
        BatchResults(fs, dramas[..n], total, step, clock, n - 1);
      }
      assert dramas[..i] == dramas[..n];
    }
  }

  /** The `i`-th result of a batch is for the `i`-th directory and took `clock(i)`. */
  lemma BatchResultFor(fs: FileSystem, dramas: seq<Path>, total: nat,
                       step: (FileSystem, Path, real) -> Outcome, clock: nat -> real, i: nat)
    requires |dramas| <= total && ProcessLike(step) && i < |dramas|
    ensures var b := BatchRun(fs, dramas, total, step, clock);
      i < |b.results| && b.results[i].inputPath == dramas[i] && b.results[i].durationSeconds == clock(i)
  {
    BatchResults(fs, dramas, total, step, clock, i);
    var o := step(BatchRun(fs, dramas[..i], total, step, clock).fs, dramas[i], clock(i));
    assert WellFormed(o, dramas[i], clock(i));
  }

  /** The progress reports of a batch count its directories from 1 to `total`, one before each. */
  lemma {:induction false} BatchReports(fs: FileSystem, dramas: seq<Path>, total: nat,
                                        step: (FileSystem, Path, real) -> Outcome, clock: nat -> real)
    requires |dramas| <= total && ProcessLike(step)
    ensures var reports := Reports(BatchRun(fs, dramas, total, step, clock).events);
      |reports| == |dramas| && forall i :: 0 <= i < |dramas| ==> reports[i] == BatchProgress(i, total, dramas[i])
    decreases |dramas|
  {
    if |dramas| > 0 {
      var n := |dramas| - 1;
      var before := BatchRun(fs, dramas[..n], total, step, clock);
      var o := step(before.fs, dramas[n], clock(n));
      var report := OnProgress(BatchProgress(n, total, dramas[n]));
      BatchReports(fs, dramas[..n], total, step, clock);
      assert BatchRun(fs, dramas, total, step, clock).events == before.events + [report] + o.events;
      WellFormedNoReports(o, dramas[n], clock(n));
      assert Reports([report]) == [BatchProgress(n, total, dramas[n])] by {
        assert [report][..0] == [];
      }
      ReportsAppend(before.events + [report], o.events);
      ReportsAppend(before.events, [report]);
      forall i | 0 <= i < n
        ensures dramas[..n][i] == dramas[i]
      {
      }
    }
  }

  /** A batch never removes anything from the filesystem. */
  lemma {:induction false} BatchKeeps(fs: FileSystem, dramas: seq<Path>, total: nat,
                                      step: (FileSystem, Path, real) -> Outcome, clock: nat -> real)
    requires |dramas| <= total && ProcessLike(step)
    ensures forall q :: fs.Exists(q) ==> BatchRun(fs, dramas, total, step, clock).fs.Exists(q)
    decreases |dramas|
  {
    if |dramas| > 0 {
      var n := |dramas| - 1;
      var before := BatchRun(fs, dramas[..n], total, step, clock);
      BatchKeeps(fs, dramas[..n], total, step, clock);
      var o := step(before.fs, dramas[n], clock(n));
      assert WellFormed(o, dramas[n], clock(n)) && forall q :: before.fs.Exists(q) ==> o.fs.Exists(q);
      assert BatchRun(fs, dramas, total, step, clock).fs == o.fs;
    }
  }

  /** The last progress report of a whole batch is at 100 percent. */
  lemma BatchEndsComplete(fs: FileSystem, dramas: seq<Path>, step: (FileSystem, Path, real) -> Outcome, clock: nat -> real)
    requires |dramas| > 0 && ProcessLike(step)
    ensures var reports := Reports(BatchRun(fs, dramas, |dramas|, step, clock).events);
      |reports| == |dramas| && reports[|dramas| - 1].current == |dramas| && reports[|dramas| - 1].percentage == 100.0
  {
    BatchReports(fs, dramas, |dramas|, step, clock);
    FullPercentage(|dramas|);
  }
}
