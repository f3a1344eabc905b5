// ffmpeg_wrapper.py: the argument lists handed to ffmpeg, the progress read
// from a line of its output, and the choice of a hardware encoder. Running
// ffmpeg and ffprobe is outside the model; their outputs are parameters.
module Ffmpeg {
  import opened Results
  import opened Text
  import opened Paths
  import opened Models

  /** `FFmpegCommand`: the input files, the output file and the options between them. */
  datatype FFmpegCommand = FFmpegCommand(inputs: seq<Path>, output: Path, options: seq<string>)

  /** `-i <path>` for each input, in order. */
  function InputArgs(inputs: seq<Path>): (r: seq<string>)
    ensures |r| == 2 * |inputs|
  {
    if |inputs| == 0 then [] else InputArgs(inputs[..|inputs| - 1]) + ["-i", ToString(inputs[|inputs| - 1])]
  }

  /** The argument list `_build_command` makes of a command. */
  function CommandLine(c: FFmpegCommand): seq<string>
  {
    ["ffmpeg"] + InputArgs(c.inputs) + c.options + [ToString(c.output)]
  }

  /** `_build_command`: the argument list is extended input by input, then by the options and the output. */
  method BuildCommand(command: FFmpegCommand) returns (cmd: seq<string>)
    ensures cmd == CommandLine(command)
  {
    cmd := ["ffmpeg"];
    var i := 0;
    while i < |command.inputs|
      invariant 0 <= i <= |command.inputs|
      invariant cmd == ["ffmpeg"] + InputArgs(command.inputs[..i])
    {
      assert command.inputs[..i + 1][..i] == command.inputs[..i];
      cmd := cmd + ["-i", ToString(command.inputs[i])];
      i := i + 1;
    }
    assert command.inputs[..i] == command.inputs;
    cmd := cmd + command.options;
    cmd := cmd + [ToString(command.output)];
  }

  /**
   * The command line is "ffmpeg", then "-i" and the path of each input in
   * order, then the options unchanged, and the output path last.
   */
  lemma CommandLineShape(c: FFmpegCommand)
    ensures |CommandLine(c)| == 2 + 2 * |c.inputs| + |c.options|
    ensures CommandLine(c)[0] == "ffmpeg"
    ensures forall k :: 0 <= k < |c.inputs| ==>
      CommandLine(c)[1 + 2 * k] == "-i" && CommandLine(c)[2 + 2 * k] == ToString(c.inputs[k])
    ensures CommandLine(c)[1 + 2 * |c.inputs|..|CommandLine(c)| - 1] == c.options
    ensures CommandLine(c)[|CommandLine(c)| - 1] == ToString(c.output)
  {
    var args := InputArgs(c.inputs);
    forall k | 0 <= k < |c.inputs|
      ensures CommandLine(c)[1 + 2 * k] == "-i" && CommandLine(c)[2 + 2 * k] == ToString(c.inputs[k])
    {
      InputArgsAt(c.inputs, k);
    }
    assert CommandLine(c)[1 + 2 * |c.inputs|..|CommandLine(c)| - 1] == c.options;
  }

  lemma {:induction false} InputArgsAt(inputs: seq<Path>, k: nat)
    requires k < |inputs|
    ensures InputArgs(inputs)[2 * k] == "-i" && InputArgs(inputs)[2 * k + 1] == ToString(inputs[k])
  {
    if k < |inputs| - 1 {
      InputArgsAt(inputs[..|inputs| - 1], k);
      assert inputs[..|inputs| - 1][k] == inputs[k];
    }
  }

  /** Where the pattern `time=(\d{2}):(\d{2}):(\d{2}\.\d{2})` matches `line`. */
  predicate TimeFieldAt(line: string, i: nat)
  {
    i + 16 <= |line| && line[i..i + 5] == "time="
    && IsDigit(line[i + 5]) && IsDigit(line[i + 6]) && line[i + 7] == ':'
    && IsDigit(line[i + 8]) && IsDigit(line[i + 9]) && line[i + 10] == ':'
    && IsDigit(line[i + 11]) && IsDigit(line[i + 12]) && line[i + 13] == '.'
    && IsDigit(line[i + 14]) && IsDigit(line[i + 15])
  }

  /** `re.search` for that pattern from position `from`: the leftmost match. */
  function FirstTimeField(line: string, from: nat): (r: Option<nat>)
    ensures r.Some? ==> from <= r.value && TimeFieldAt(line, r.value)
    ensures r.Some? ==> forall j :: from <= j < r.value ==> !TimeFieldAt(line, j)
    ensures r.None? ==> forall j :: from <= j ==> !TimeFieldAt(line, j)
    decreases |line| - from
  {
    if from + 16 > |line| then None
    else if TimeFieldAt(line, from) then Some(from)
    else FirstTimeField(line, from + 1)
  }

  function TwoDigits(a: char, b: char): nat
    requires IsDigit(a) && IsDigit(b)
  {
    DigitValue(a) * 10 + DigitValue(b)
  }

  /** `hours * 3600 + minutes * 60 + seconds` of a matched field, in exact arithmetic. */
  function TimeValue(line: string, i: nat): (t: real)
    requires TimeFieldAt(line, i)
    ensures t >= 0.0
  {
    (TwoDigits(line[i + 5], line[i + 6]) * 3600 + TwoDigits(line[i + 8], line[i + 9]) * 60) as real
    + TwoDigits(line[i + 11], line[i + 12]) as real + TwoDigits(line[i + 14], line[i + 15]) as real / 100.0
  }

  /** `min(100.0, max(0.0, p))`. */
  function Clamp(p: real): (r: real)
    ensures 0.0 <= r <= 100.0
    ensures 0.0 <= p <= 100.0 ==> r == p
  {
    if p > 100.0 then 100.0 else if p < 0.0 then 0.0 else p
  }

  /**
   * `_parse_progress`: the percentage of `total` that the first time field of
   * the line stands for, held within 0..100; nothing when the line has no
   * time field or the total is not positive.
   */
  function ParseProgress(line: string, total: real): (r: Option<real>)
    ensures r.Some? ==> 0.0 <= r.value <= 100.0
  {
    match FirstTimeField(line, 0)
    case None => None
    case Some(i) => if total > 0.0 then Some(Clamp(TimeValue(line, i) / total * 100.0)) else None
  }

  /**
   * The percentage is the share of the total that the first time field of
   * the line stands for, and 100 once that time passes the total.
   */
  lemma ParseProgressValue(line: string, total: real)
    ensures ParseProgress(line, total).Some? ==>
      var t := TimeValue(line, FirstTimeField(line, 0).value);
      (t <= total ==> ParseProgress(line, total).value == t / total * 100.0)
      && (t > total ==> ParseProgress(line, total).value == 100.0)
  {
    if ParseProgress(line, total).Some? {
      Share(TimeValue(line, FirstTimeField(line, 0).value), total);
    }
  }

  /** A time within the total is at most 100 percent of it; one beyond it is more. */
  lemma Share(t: real, total: real)
    requires t >= 0.0 && total > 0.0
    ensures t <= total ==> 0.0 <= t / total * 100.0 <= 100.0
    ensures t > total ==> t / total * 100.0 > 100.0
  {
    var q := t / total;
    assert q * total == t;
    if t <= total {
      assert q <= 1.0;
    } else {
      assert q > 1.0;
    }
  }

  /** A percentage comes back exactly when the line has a time field and the total is positive. */
  lemma ParseProgressDefined(line: string, total: real)
    ensures ParseProgress(line, total).None? <==> total <= 0.0 || forall j :: !TimeFieldAt(line, j)
  {
  }

  const Nvenc := "h264_nvenc"
  const Qsv := "h264_qsv"
  const VideoToolbox := "h264_videotoolbox"

  /**
   * `_detect_gpu_encoder`: with GPU use enabled, the first of NVENC (when an
   * NVIDIA GPU was found), Quick Sync (when an Intel GPU was found) and
   * VideoToolbox that ffmpeg's encoder list names. `encoders` is that list,
   * or nothing when running ffmpeg failed.
   */
  function DetectGpuEncoder(enableGpu: bool, encoders: Option<string>, hasNvidia: bool, hasIntel: bool): (r: Option<string>)
    ensures !enableGpu || encoders.None? ==> r.None?
    ensures r == Some(Nvenc) <==> enableGpu && encoders.Some? && Contains(encoders.value, Nvenc) && hasNvidia
    ensures r == Some(Qsv) <==> (enableGpu && encoders.Some? && !(Contains(encoders.value, Nvenc) && hasNvidia)
      && Contains(encoders.value, Qsv) && hasIntel)
    ensures r == Some(VideoToolbox) <==> (enableGpu && encoders.Some? && !(Contains(encoders.value, Nvenc) && hasNvidia)
      && !(Contains(encoders.value, Qsv) && hasIntel) && Contains(encoders.value, VideoToolbox))
    ensures r.Some? ==> r.value in {Nvenc, Qsv, VideoToolbox}
  {
    if !enableGpu then None
    else match encoders
      case None => None
      case Some(out) =>
        if Contains(out, Nvenc) && hasNvidia then Some(Nvenc)
        else if Contains(out, Qsv) && hasIntel then Some(Qsv)
        else if Contains(out, VideoToolbox) then Some(VideoToolbox)
        else None
  }

  /** `OptimizedFFmpegWrapper`: its settings and the encoder it detected when it was made. */
  datatype OptimizedWrapper = OptimizedWrapper(enableGpu: bool, preset: string, gpuEncoder: Option<string>)

  /** The wrapper's constructor: the encoder is detected once, from what the probes report. */
  function NewOptimizedWrapper(enableGpu: bool, preset: string, encoders: Option<string>, hasNvidia: bool, hasIntel: bool)
    : (w: OptimizedWrapper)
    ensures w.enableGpu == enableGpu && w.preset == preset
    ensures !enableGpu ==> w.gpuEncoder.None?
  {
    OptimizedWrapper(enableGpu, preset, DetectGpuEncoder(enableGpu, encoders, hasNvidia, hasIntel))
  }

  /** The NVENC preset for each x264 preset name. */
  const NvencPresets: map<string, string> := map[
    "ultrafast" := "p1", "superfast" := "p2", "veryfast" := "p2", "faster" := "p3", "fast" := "p3",
    "medium" := "p4", "slow" := "p5", "slower" := "p6", "veryslow" := "p7"]

  /** `preset_map.get(preset, 'p4')`. */
  function NvencPreset(preset: string): (r: string)
    ensures preset !in NvencPresets ==> r == "p4"
    ensures r in {"p1", "p2", "p3", "p4", "p5", "p6", "p7"}
  {
    if preset in NvencPresets then NvencPresets[preset] else "p4"
  }

  /** `scale=W:H:force_original_aspect_ratio=decrease`. */
  function ScaleFilter(spec: TranscodeSpec): string
  {
    "scale=" + IntToString(spec.width) + ":" + IntToString(spec.height) + ":force_original_aspect_ratio=decrease"
  }

  /** The encoder arguments: the detected hardware encoder with its own quality options, or the spec's codec. */
  function EncoderArgs(w: OptimizedWrapper, spec: TranscodeSpec): seq<string>
  {
    if w.gpuEncoder.Some? && w.gpuEncoder.value != "" then
      var e := w.gpuEncoder.value;
      ["-c:v", e]
      + (if Contains(e, "nvenc") then ["-preset", NvencPreset(w.preset), "-cq", "23"]
         else if Contains(e, "qsv") then ["-preset", w.preset, "-global_quality", "23"]
         else if Contains(e, "videotoolbox") then ["-b:v", "0", "-q:v", "65"]
         else [])
    else ["-c:v", spec.videoCodec, "-preset", w.preset, "-crf", "23"]
  }

  /** The arguments every transcode command ends with. */
  function CommonArgs(spec: TranscodeSpec): seq<string>
  {
    ["-vf", ScaleFilter(spec), "-c:a", spec.audioCodec, "-b:a", "128k", "-pix_fmt", "yuv420p",
     "-movflags", "+faststart", "-y"]
  }

  /** The list `build_transcode_command` returns for an input and a spec. */
  function TranscodeArgs(w: OptimizedWrapper, input: Path, spec: TranscodeSpec): seq<string>
  {
    ["ffmpeg", "-i", ToString(input)] + EncoderArgs(w, spec) + CommonArgs(spec)
  }

  /**
   * `build_transcode_command`: the list is extended step by step; the output
   * path it is given is not part of it.
   */
  method BuildTranscodeCommand(w: OptimizedWrapper, input: Path, output: Path, spec: TranscodeSpec)
    returns (cmd: seq<string>)
    ensures cmd == TranscodeArgs(w, input, spec)
  {
    cmd := ["ffmpeg", "-i", ToString(input)];
    var encoder := EncoderStep(w, spec);
    cmd := cmd + encoder;
    var common := CommonStep(spec);
    cmd := cmd + common;
  }

  /** The codec choice of `build_transcode_command`, extended option by option. */
  method EncoderStep(w: OptimizedWrapper, spec: TranscodeSpec) returns (args: seq<string>)
    ensures args == EncoderArgs(w, spec)
  {
    if w.gpuEncoder.Some? && w.gpuEncoder.value != "" {
      var e := w.gpuEncoder.value;
      args := ["-c:v", e];
      if Contains(e, "nvenc") {
        args := args + ["-preset", NvencPreset(w.preset)];
        args := args + ["-cq", "23"];
      } else if Contains(e, "qsv") {
        args := args + ["-preset", w.preset];
        args := args + ["-global_quality", "23"];
      } else if Contains(e, "videotoolbox") {
        args := args + ["-b:v", "0"];
        args := args + ["-q:v", "65"];
      }
    } else {
      args := ["-c:v", spec.videoCodec];
      args := args + ["-preset", w.preset];
      args := args + ["-crf", "23"];
    }
  }

  /** The options every transcode command carries after the codec choice, extended one by one. */
  method CommonStep(spec: TranscodeSpec) returns (args: seq<string>)
    ensures args == CommonArgs(spec)
  {
    args := ["-vf", ScaleFilter(spec)];
    args := args + ["-c:a", spec.audioCodec];
    args := args + ["-b:a", "128k"];
    args := args + ["-pix_fmt", "yuv420p"];
    args := args + ["-movflags", "+faststart"];
    args := args + ["-y"];
  }

  /**
   * A transcode command starts with ffmpeg reading the input and a video
   * codec choice, and ends with the scale filter, the audio codec at 128k,
   * the yuv420p pixel format, faststart and "-y".
   */
  lemma TranscodeArgsShape(w: OptimizedWrapper, input: Path, spec: TranscodeSpec)
    ensures var cmd := TranscodeArgs(w, input, spec);
      |cmd| >= 16 && cmd[..3] == ["ffmpeg", "-i", ToString(input)] && cmd[3] == "-c:v"
      && cmd[|cmd| - 11..] == CommonArgs(spec) && cmd[|cmd| - 1] == "-y"
  {
    var cmd := TranscodeArgs(w, input, spec);
    assert cmd[|cmd| - 11..] == CommonArgs(spec);
  }

  /** Without a hardware encoder the command uses the spec's codec, the preset and CRF 23. */
  lemma TranscodeArgsCpu(w: OptimizedWrapper, input: Path, spec: TranscodeSpec)
    requires w.gpuEncoder.None? || w.gpuEncoder.value == ""
    ensures TranscodeArgs(w, input, spec)[3..9] == ["-c:v", spec.videoCodec, "-preset", w.preset, "-crf", "23"]
  {
  }

  /** With NVENC the preset is translated through the NVENC table and the quality is CQ 23. */
  lemma TranscodeArgsNvenc(w: OptimizedWrapper, input: Path, spec: TranscodeSpec)
    requires w.gpuEncoder == Some(Nvenc)
    ensures TranscodeArgs(w, input, spec)[3..9] == ["-c:v", Nvenc, "-preset", NvencPreset(w.preset), "-cq", "23"]
  {
    assert Nvenc[5..10] == "nvenc";
    ContainsAt(Nvenc, "nvenc", 5);
  }

  /** `segment.absolute()`: the path under the working directory `cwd`, as text. */
  function Absolute(cwd: Path, p: Path): string
  {
    "/" + Join(cwd + p, "/")
  }

  /** The line of the concat list for one segment. */
  function ConcatLine(cwd: Path, p: Path): string
  {
    "file '" + Absolute(cwd, p) + "'\n"
  }

  /** The concat list: one line per segment, in order. */
  function ConcatList(cwd: Path, segments: seq<Path>): string
  {
    if |segments| == 0 then "" else ConcatList(cwd, segments[..|segments| - 1]) + ConcatLine(cwd, segments[|segments| - 1])
  }

  /** The concat demuxer's argument list for a list file and an output. */
  function MergeArgs(listFile: Path, output: Path): seq<string>
  {
    ["ffmpeg", "-f", "concat", "-safe", "0", "-i", ToString(listFile), "-c", "copy", "-y", ToString(output)]
  }

  /**
   * `build_merge_command`: the concat list written next to the output, line
   * by line, and the command that copies the listed segments into the output.
   */
  method BuildMergeCommand(segments: seq<Path>, output: Path, cwd: Path)
    returns (listFile: Path, listText: string, cmd: seq<string>)
    ensures listFile == Child(Parent(output), "concat_list.txt")
    ensures listText == ConcatList(cwd, segments)
    ensures cmd == MergeArgs(listFile, output) && cmd[|cmd| - 1] == ToString(output)
  {
    listFile := Child(Parent(output), "concat_list.txt");
    listText := "";
    var i := 0;
    while i < |segments|
      invariant 0 <= i <= |segments|
      invariant listText == ConcatList(cwd, segments[..i])
    {
      assert segments[..i + 1][..i] == segments[..i];
      listText := listText + ConcatLine(cwd, segments[i]);
      i := i + 1;
    }
    assert segments[..i] == segments;
    cmd := MergeArgs(listFile, output);
  }

  /** The list of two runs of segments is the list of the first followed by that of the second. */
  lemma {:induction false} ConcatListAppend(cwd: Path, a: seq<Path>, b: seq<Path>)
    ensures ConcatList(cwd, a + b) == ConcatList(cwd, a) + ConcatList(cwd, b)
  {
    if |b| > 0 {
      ConcatListAppend(cwd, a, b[..|b| - 1]);
      assert (a + b)[..|a + b| - 1] == a + b[..|b| - 1];
    } else {
      assert a + b == a;
    }
  }

  /** Segment `k`'s line sits between the lines of the segments before it and those after it. */
  lemma ConcatListAt(cwd: Path, segments: seq<Path>, k: nat)
    requires k < |segments|
    ensures ConcatList(cwd, segments)
      == ConcatList(cwd, segments[..k]) + ConcatLine(cwd, segments[k]) + ConcatList(cwd, segments[k + 1..])
  {
    assert segments == segments[..k] + [segments[k]] + segments[k + 1..];
    ConcatListAppend(cwd, segments[..k] + [segments[k]], segments[k + 1..]);
    ConcatListAppend(cwd, segments[..k], [segments[k]]);
    assert [segments[k]][..0] == [];
  }
}
