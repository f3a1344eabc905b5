// The command-line option checks: `--specs` parsing into transcode targets,
// the `--workers` range and the `--log-level` names.
module Cli {
  import opened Results
  import opened Text
  import opened Models

  /** The five named presets; `name` is already lower-cased and stripped. */
  function Preset(name: string): Option<TranscodeSpec>
  {
    if name == "1080p" then Some(Spec(1920, 1080))
    else if name == "720p" then Some(Spec(1280, 720))
    else if name == "480p" then Some(Spec(854, 480))
    else if name == "360p" then Some(Spec(640, 360))
    else if name == "240p" then Some(Spec(426, 240))
    else None
  }

  function NotPositive(s: string): string
  {
    "无效的转码规格: " + s + "，宽度和高度必须大于 0"
  }

  function BadFormat(s: string): string
  {
    "无效的转码规格: " + s + "，格式应为 '1080p' 或 '1920x1080'"
  }

  function UnknownSpec(s: string): string
  {
    "无效的转码规格: " + s + "，支持的格式: 1080p, 720p, 480p, 360p, 240p 或 WIDTHxHEIGHT"
  }

  /** One `--specs` argument: a preset name or `WIDTHxHEIGHT`, after lower() and strip(). */
  function ParseSpec(arg: string): Result<TranscodeSpec>
  {
    var s := Strip(Lower(arg));
    match Preset(s)
    case Some(spec) => Ok(spec)
    case None =>
      if !Contains(s, "x") then Err(UnknownSpec(s))
      else
        var parts := Split(s, "x");
        if |parts| != 2 then Err(BadFormat(s))
        else
          match (ParseInt(parts[0]), ParseInt(parts[1]))
          case (Some(w), Some(h)) =>
            if w > 0 && h > 0 then Ok(Spec(w, h)) else Err(NotPositive(s))
          case _ => Err(BadFormat(s))
  }

  /** The specification of parse_transcode_specs: the defaults for no argument, else every argument parsed, stopping at the first error. */
  function SpecsParsed(args: seq<string>): Result<seq<TranscodeSpec>>
  {
    if |args| == 0 then Ok(DefaultSpecs()) else ParsedPrefix(ParseSpec, args)
  }

  /** Parsing the arguments one after the other with `parse`, the first failure ending it. */
  function ParsedPrefix<T>(parse: string -> Result<T>, args: seq<string>): Result<seq<T>>
  {
    if |args| == 0 then Ok([])
    else
      match ParsedPrefix(parse, args[..|args| - 1])
      case Err(e) => Err(e)
      case Ok(done) =>
        match parse(args[|args| - 1])
        case Err(e) => Err(e)
        case Ok(spec) => Ok(done + [spec])
  }

  /** parse_transcode_specs: the loop appending one target per argument. */
  method ParseTranscodeSpecs(args: seq<string>) returns (r: Result<seq<TranscodeSpec>>)
    ensures r == SpecsParsed(args)
  {
    if |args| == 0 {
      return Ok(DefaultSpecs());
    }
    var result: seq<TranscodeSpec> := [];
    var i := 0;
    while i < |args|
      invariant 0 <= i <= |args|
      invariant ParsedPrefix(ParseSpec, args[..i]) == Ok(result)
    {
      var parsed := ParseSpec(args[i]);
      assert args[..i + 1][..i] == args[..i];
      if parsed.Err? {
        PrefixErrSticks(ParseSpec, args, i + 1);
        return Err(parsed.error);
      }
      result := result + [parsed.value];
      i := i + 1;
    }
    assert args[..i] == args;
    return Ok(result);
  }

  /** Once a prefix fails, every longer prefix fails with the same message. */
  lemma {:induction false} PrefixErrSticks<T>(parse: string -> Result<T>, args: seq<string>, i: nat)
    requires 0 < i <= |args| && ParsedPrefix(parse, args[..i]).Err?
    ensures ParsedPrefix(parse, args) == ParsedPrefix(parse, args[..i])
    decreases |args| - i
  {
    if i < |args| {
      assert args[..i + 1][..i] == args[..i];
      PrefixErrSticks(parse, args, i + 1);
    } else {
      assert args[..i] == args;
    }
  }

  /** On success there is exactly one target per argument, each the parse of that argument, in order. */
  lemma {:induction false} ParsedInOrder<T>(parse: string -> Result<T>, args: seq<string>)
    requires ParsedPrefix(parse, args).Ok?
    ensures |ParsedPrefix(parse, args).value| == |args|
    ensures forall i :: 0 <= i < |args| ==> parse(args[i]) == Ok(ParsedPrefix(parse, args).value[i])
  {
    if |args| > 0 {
      var init := args[..|args| - 1];
      ParsedNext(parse, args);
      ParsedInOrder(parse, init);
      var done := ParsedPrefix(parse, init).value;
      var full := ParsedPrefix(parse, args).value;
      assert full == done + [parse(args[|args| - 1]).value];
      assert forall i :: 0 <= i < |init| ==> args[i] == init[i] && full[i] == done[i];
    }
  }

  /** A successful parse of the arguments extends that of all but the last by the last one's target. */
  lemma ParsedNext<T>(parse: string -> Result<T>, args: seq<string>)
    requires |args| > 0 && ParsedPrefix(parse, args).Ok?
    ensures var init := args[..|args| - 1];
            && ParsedPrefix(parse, init).Ok? && parse(args[|args| - 1]).Ok?
            && ParsedPrefix(parse, args).value == ParsedPrefix(parse, init).value + [parse(args[|args| - 1]).value]
  {
  }

  /** Argument `i` is the first whose parse fails. */
  predicate FirstFailure<T>(parse: string -> Result<T>, args: seq<string>, i: int)
  {
    0 <= i < |args| && parse(args[i]).Err? && forall j :: 0 <= j < i ==> parse(args[j]).Ok?
  }

  /** A failed parse carries the message of the first argument that fails. */
  lemma {:induction false} ParsedFailsAtFirst<T>(parse: string -> Result<T>, args: seq<string>)
    requires ParsedPrefix(parse, args).Err?
    ensures exists i :: FirstFailure(parse, args, i) && ParsedPrefix(parse, args).error == parse(args[i]).error
  {
    var n := |args| - 1;
    var init := args[..n];
    if ParsedPrefix(parse, init).Err? {
      ParsedFailsAtFirst(parse, init);
      var i :| FirstFailure(parse, init, i) && ParsedPrefix(parse, init).error == parse(init[i]).error;
      assert args[i] == init[i];
      assert forall j :: 0 <= j < i ==> args[j] == init[j];
      assert FirstFailure(parse, args, i);
    } else {
      ParsedInOrder(parse, init);
      assert forall j :: 0 <= j < n ==> args[j] == init[j];
      assert FirstFailure(parse, args, n);
    }
  }

  /** parse_transcode_specs: no argument gives the three defaults; otherwise one target per argument, in order, or the error of the first argument that fails. */
  lemma SpecsParsedMeaning(args: seq<string>)
    ensures |args| == 0 ==> SpecsParsed(args) == Ok([Spec(1920, 1080), Spec(1280, 720), Spec(854, 480)])
    ensures |args| > 0 && SpecsParsed(args).Ok? ==>
      |SpecsParsed(args).value| == |args| && forall i :: 0 <= i < |args| ==> ParseSpec(args[i]) == Ok(SpecsParsed(args).value[i])
    ensures |args| > 0 && SpecsParsed(args).Err? ==>
      exists i :: FirstFailure(ParseSpec, args, i) && SpecsParsed(args).error == ParseSpec(args[i]).error
  {
    if |args| > 0 {
      if ParsedPrefix(ParseSpec, args).Ok? {
        ParsedInOrder(ParseSpec, args);
      } else {
        ParsedFailsAtFirst(ParseSpec, args);
      }
    }
  }

  /** The presets, whatever the case and surrounding blanks of the argument. */
  lemma PresetNames(arg: string)
    ensures Strip(Lower(arg)) == "1080p" ==> ParseSpec(arg) == Ok(Spec(1920, 1080))
    ensures Strip(Lower(arg)) == "720p" ==> ParseSpec(arg) == Ok(Spec(1280, 720))
    ensures Strip(Lower(arg)) == "480p" ==> ParseSpec(arg) == Ok(Spec(854, 480))
    ensures Strip(Lower(arg)) == "360p" ==> ParseSpec(arg) == Ok(Spec(640, 360))
    ensures Strip(Lower(arg)) == "240p" ==> ParseSpec(arg) == Ok(Spec(426, 240))
  {
  }

  /** The text int() and str() agree on has no letter and no blank at either end. */
  lemma IntToStringShape(i: int)
    ensures var s := IntToString(i);
      |s| > 0 && IsDigit(s[|s| - 1]) && (IsDigit(s[0]) || s[0] == '-')
      && forall j :: 0 <= j < |s| ==> IsDigit(s[j]) || s[j] == '-'
  {
    if i < 0 {
      assert IntToString(i) == "-" + NatToDigits(-i);
    }
  }

  /** `str(w) + "x" + str(h)` parses back to the target when both sides are positive, and to the "must be > 0" error otherwise. */
  lemma SizeRoundTrip(w: int, h: int)
    ensures var s := IntToString(w) + "x" + IntToString(h);
      ParseSpec(s) == if w > 0 && h > 0 then Ok(Spec(w, h)) else Err(NotPositive(s))
  {
    var a, b := IntToString(w), IntToString(h);
    var s := a + "x" + b;
    SizeTextNormal(w, h);
    SizeTextSplits(w, h);
    NotPreset(s, |a|);
    IntToStringParse(w);
    IntToStringParse(h);
  }

  /** lower() and strip() leave `str(w) + "x" + str(h)` as it is. */
  lemma SizeTextNormal(w: int, h: int)
    ensures var s := IntToString(w) + "x" + IntToString(h); Strip(Lower(s)) == s
  {
    var a, b := IntToString(w), IntToString(h);
    var s := a + "x" + b;
    IntToStringShape(w);
    IntToStringShape(h);
    SizeTextLower(a, b);
    assert s[0] == a[0] && s[|s| - 1] == b[|b| - 1];
    StripNoSpace(s);
  }

  /** Lower-casing leaves digits, signs and the 'x' between them alone. */
  lemma {:induction false} SizeTextLower(a: string, b: string)
    requires forall j :: 0 <= j < |a| ==> IsDigit(a[j]) || a[j] == '-'
    requires forall j :: 0 <= j < |b| ==> IsDigit(b[j]) || b[j] == '-'
    ensures Lower(a + "x" + b) == a + "x" + b
  {
    var s := a + "x" + b;
    forall j | 0 <= j < |s|
      ensures IsDigit(s[j]) || s[j] == '-' || s[j] == 'x'
    {
      if j < |a| {
        assert s[j] == a[j];
      } else if j > |a| {
        assert s[j] == b[j - |a| - 1];
      }
    }
    var l := Lower(s);
    assert |l| == |s|;
    forall j | 0 <= j < |s|
      ensures l[j] == s[j]
    {
      assert l[j] == ToLower(s[j]);
    }
  }

  /** `str(w) + "x" + str(h)` holds an 'x' and splits on it into the two numbers. */
  lemma SizeTextSplits(w: int, h: int)
    ensures var a, b := IntToString(w), IntToString(h);
      Contains(a + "x" + b, "x") && Split(a + "x" + b, "x") == [a, b]
  {
    var a, b := IntToString(w), IntToString(h);
    var s := a + "x" + b;
    IntToStringShape(w);
    IntToStringShape(h);
    assert MatchAt(s, "x", |a|) by {
      assert s[|a|..|a| + 1] == "x";
    }
    ContainsAt(s, "x", |a|);
    CleanIfHeadAbsent(a, "x");
    SplitAfterPart(a, "x", b);
    FindAbsent(b, 'x');
  }

  /** A text with an 'x' in it names no preset. */
  lemma NotPreset(s: string, k: nat)
    requires k < |s| && s[k] == 'x'
    ensures Preset(s).None?
  {
    if |s| == 5 {
      assert s != "1080p" by { assert "1080p"[k] != 'x'; }
    } else if |s| == 4 {
      assert s != "720p" && s != "480p" && s != "360p" && s != "240p" by {
        assert "720p"[k] != 'x' && "480p"[k] != 'x' && "360p"[k] != 'x' && "240p"[k] != 'x';
      }
    }
  }

  /** The three error messages: no 'x' and no preset, a malformed size, a side that is not positive. */
  lemma SpecErrors(arg: string)
    ensures var s := Strip(Lower(arg));
      Preset(s).None? && !Contains(s, "x") ==> ParseSpec(arg) == Err(UnknownSpec(s))
    ensures var s := Strip(Lower(arg));
      Preset(s).None? && Contains(s, "x") && |Split(s, "x")| != 2 ==> ParseSpec(arg) == Err(BadFormat(s))
    ensures var s := Strip(Lower(arg));
      (Preset(s).None? && Contains(s, "x") && |Split(s, "x")| == 2
       && (ParseInt(Split(s, "x")[0]).None? || ParseInt(Split(s, "x")[1]).None?)) ==> ParseSpec(arg) == Err(BadFormat(s))
  {
  }

  /** Every target the parse yields has both sides positive. */
  lemma ParsedPositive(arg: string)
    ensures ParseSpec(arg).Ok? ==> ParseSpec(arg).value.width > 0 && ParseSpec(arg).value.height > 0
  {
  }

  const MinWorkers := 1
  const MaxWorkers := 32

  /** validate_workers: the value unchanged when within 1..32, else the message of the bound it breaks. */
  function ValidateWorkers(value: int): (r: Result<int>)
    ensures r.Ok? <==> MinWorkers <= value <= MaxWorkers
    ensures r.Ok? ==> r.value == value
    ensures value < MinWorkers ==> r == Err("并发数量必须至少为 1")
    ensures value > MaxWorkers ==> r == Err("并发数量不应超过 32")
  {
    if value < 1 then Err("并发数量必须至少为 1")
    else if value > 32 then Err("并发数量不应超过 32")
    else Ok(value)
  }

  const LogLevels: seq<string> := ["DEBUG", "INFO", "WARNING", "ERROR", "CRITICAL"]

  /** validate_log_level: the upper-cased name when it is one of the five levels, else an error naming the value as given. */
  function ValidateLogLevel(value: string): (r: Result<string>)
    ensures r.Ok? <==> Upper(value) in LogLevels
    ensures r.Ok? ==> r.value in LogLevels && |r.value| == |value|
    ensures r.Err? ==> r.error == "无效的日志级别: " + value + "，支持的级别: DEBUG, INFO, WARNING, ERROR, CRITICAL"
  {
    var upper := Upper(value);
    if upper !in LogLevels then Err("无效的日志级别: " + value + "，支持的级别: DEBUG, INFO, WARNING, ERROR, CRITICAL")
    else Ok(upper)
  }

  /** An accepted level validates to itself: the check is idempotent. */
  lemma {:induction false} LogLevelIdempotent(value: string)
    requires ValidateLogLevel(value).Ok?
    ensures ValidateLogLevel(ValidateLogLevel(value).value) == ValidateLogLevel(value)
  {
    var u := Upper(value);
    assert Upper(u) == u by {
      forall i | 0 <= i < |u|
        ensures ToUpper(u[i]) == u[i]
      {
        assert ToUpper(ToUpper(value[i])) == ToUpper(value[i]);
      }
    }
  }
}
