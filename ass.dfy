// The ASS half of subtitle.py: `ASSParser`, whose `parse` records the
// header lines and styles it meets before `[Events]` in its own fields and
// returns the dialogue cues after it, numbered from 1.
module AssSubtitle {
  import opened Results
  import opened Text
  import opened Models
  import opened Subtitle

  /** The `Format:` line of the `[Events]` section. */
  const EventsFormat := "Format: Layer, Start, End, Style, Name, MarginL, MarginR, MarginV, Effect, Text"

  /** The events section a header ends with: `[Events]` and its `Format:` line. */
  const EventsSection := "[Events]\n" + EventsFormat + "\n"

  /** `_get_default_header`: script info, the default style, a blank line and the events section. */
  const DefaultHeader := DefaultPrelude + "\n" + EventsSection

  const DefaultPrelude := "[Script Info]\nTitle: Default\nScriptType: v4.00+\n\n[V4+ Styles]\n"
    + "Format: Name, Fontname, Fontsize, PrimaryColour, SecondaryColour, OutlineColour, BackColour, Bold, Italic, "
    + "Underline, StrikeOut, ScaleX, ScaleY, Spacing, Angle, BorderStyle, Outline, Shadow, Alignment, MarginL, "
    + "MarginR, MarginV, Encoding\n"
    + "Style: Default,Arial,20,&H00FFFFFF,&H000000FF,&H00000000,&H00000000,0,0,0,0,100,100,0,0,1,2,2,2,10,10,10,1\n"

  /**
   * `f.readlines()`: the lines of the text without their newlines; a final
   * newline opens no extra line. `parse` strips every line, so dropping the
   * newline here changes nothing it sees.
   */
  function ReadLines(content: string): (r: seq<string>)
  {
    var pieces := Split(content, "\n");
    if pieces[|pieces| - 1] == "" then pieces[..|pieces| - 1] else pieces
  }

  /** Every line stripped. */
  function Stripped(lines: seq<string>): (r: seq<string>)
    ensures |r| == |lines| && forall i :: 0 <= i < |lines| ==> r[i] == Strip(lines[i])
  {
    seq(|lines|, i requires 0 <= i < |lines| => Strip(lines[i]))
  }

  /** A line that opens the events section once stripped. */
  predicate IsEventsMarker(line: string)
  {
    StartsWith(Strip(line), "[Events]")
  }

  /** The position of the first `[Events]` line, or the number of lines when there is none. */
  function EventsAt(lines: seq<string>): (k: nat)
    ensures k <= |lines|
  {
    if |lines| == 0 then 0
    else if IsEventsMarker(lines[0]) then 0
    else 1 + EventsAt(lines[1..])
  }

  /** EventsAt finds the first `[Events]` line: none comes before it, and it is one unless there is none. */
  lemma {:induction false} EventsAtFirst(lines: seq<string>)
    ensures var k := EventsAt(lines);
      && (forall j :: 0 <= j < k ==> !IsEventsMarker(lines[j]))
      && (k < |lines| ==> IsEventsMarker(lines[k]))
  {
    if |lines| > 0 && !IsEventsMarker(lines[0]) {
      var tail := lines[1..];
      EventsAtFirst(tail);
      forall j | 1 <= j < EventsAt(lines)
        ensures !IsEventsMarker(lines[j])
      {
        assert lines[j] == tail[j - 1];
      }
    }
  }

  /** The lines `parse` keeps as header: every line before the first `[Events]`, stripped. */
  function HeaderOf(lines: seq<string>): seq<string>
  {
    Stripped(lines[..EventsAt(lines)])
  }

  /** The lines after the first `[Events]` line. */
  function EventLines(lines: seq<string>): seq<string>
  {
    var k := EventsAt(lines);
    if k < |lines| then lines[k + 1..] else []
  }

  predicate IsStyleLine(line: string)
  {
    StartsWith(line, "Style:")
  }

  /** The style name of a `Style:` line: the first comma field after the first colon, stripped. */
  function StyleName(line: string): string
    requires IsStyleLine(line)
  {
    Strip(Split(line[6..], ",")[0])
  }

  /** `styles` after the header lines `header` are read into `m`: each `Style:` line under its name, later lines
      replacing earlier ones. */
  function StylesOf(m: map<string, string>, header: seq<string>): map<string, string>
  {
    if |header| == 0 then m
    else
      var before := StylesOf(m, header[..|header| - 1]);
      var line := header[|header| - 1];
      if IsStyleLine(line) then before[StyleName(line) := line] else before
  }

  /** The names of the `Style:` lines among `header`. */
  function StyleNames(header: seq<string>): set<string>
  {
    set j | 0 <= j < |header| && IsStyleLine(header[j]) :: StyleName(header[j])
  }

  /** Reading header lines adds exactly their style names to the keys of `styles`. */
  lemma {:induction false} StylesOfKeys(m: map<string, string>, header: seq<string>)
    ensures StylesOf(m, header).Keys == m.Keys + StyleNames(header)
  {
    if |header| > 0 {
      var n := |header| - 1;
      var init := header[..n];
      StylesOfKeys(m, init);
      NamesSnoc(init, header[n]);
      assert header == init + [header[n]];
    }
  }

  lemma NamesSnoc(init: seq<string>, line: string)
    ensures StyleNames(init + [line]) == StyleNames(init) + if IsStyleLine(line) then {StyleName(line)} else {}
  {
    var h := init + [line];
    forall name | name in StyleNames(h)
      ensures name in StyleNames(init) + if IsStyleLine(line) then {StyleName(line)} else {}
    {
      var j :| 0 <= j < |h| && IsStyleLine(h[j]) && StyleName(h[j]) == name;
      if j < |init| {
        assert h[j] == init[j];
      }
    }
    forall name | name in StyleNames(init)
      ensures name in StyleNames(h)
    {
      var j :| 0 <= j < |init| && IsStyleLine(init[j]) && StyleName(init[j]) == name;
      assert h[j] == init[j];
    }
    if IsStyleLine(line) {
      assert h[|init|] == line;
    }
  }

  /** Line `j` of `header` is the last `Style:` line named `name`. */
  predicate LastStyle(header: seq<string>, j: int, name: string)
  {
    && 0 <= j < |header| && IsStyleLine(header[j]) && StyleName(header[j]) == name
    && forall k :: j < k < |header| && IsStyleLine(header[k]) ==> StyleName(header[k]) != name
  }

  /** Under a style name read from the header is the last `Style:` line with that name. */
  lemma {:induction false} StylesOfLast(m: map<string, string>, header: seq<string>, j: int, name: string)
    requires LastStyle(header, j, name)
    ensures name in StylesOf(m, header) && StylesOf(m, header)[name] == header[j]
  {
    var n := |header| - 1;
    if j < n {
      var init := header[..n];
      assert LastStyle(init, j, name) by {
        forall k | j <= k < n
          ensures init[k] == header[k]
        {
        }
      }
      StylesOfLast(m, init, j, name);
    }
  }

  /** A key that names no `Style:` line of the header keeps its old entry, or stays absent. */
  lemma {:induction false} StylesOfOther(m: map<string, string>, header: seq<string>, name: string)
    requires name !in StyleNames(header)
    ensures name in StylesOf(m, header) <==> name in m
    ensures name in m ==> StylesOf(m, header)[name] == m[name]
  {
    if |header| > 0 {
      var n := |header| - 1;
      var init := header[..n];
      NamesSnoc(init, header[n]);
      assert header == init + [header[n]];
      StylesOfOther(m, init, name);
    }
  }

  /** The fields of a dialogue line that `parse` keeps. */
  datatype Dialogue = Dialogue(start: real, end: real, style: string, text: string)

  /**
   * The body of the `try` for a `Dialogue:` line, on the text after its first
   * colon: at most nine splits at commas, so the text may hold commas; None
   * for fewer than ten fields or a time that does not parse.
   */
  function DialogueFields(rest: string): Option<Dialogue>
  {
    FieldsOf(SplitN(rest, ",", 9))
  }

  /** The dialogue of the comma fields of a `Dialogue:` line. */
  function FieldsOf(parts: seq<string>): Option<Dialogue>
  {
    if |parts| < 10 then None
    else
      var start, end := ParseAssTime(Strip(parts[1])), ParseAssTime(Strip(parts[2]));
      if start.None? || end.None? then None
      else Some(Dialogue(start.value, end.value, Strip(parts[3]), Strip(parts[9])))
  }

  /** A stripped line of the events section as `parse` reads it. */
  function ParseDialogue(line: string): Option<Dialogue>
  {
    if StartsWith(line, "Dialogue:") then DialogueFields(line[9..]) else None
  }

  /** The dialogues read from the lines of the events section, in order; `fields` reads the text after
      `Dialogue:`. Further `[Events]` lines and all other lines are passed over. */
  function Dialogues(lines: seq<string>, fields: string -> Option<Dialogue>): seq<Dialogue>
  {
    if |lines| == 0 then []
    else
      var before := Dialogues(lines[..|lines| - 1], fields);
      var line := Strip(lines[|lines| - 1]);
      if StartsWith(line, "[Events]") || !StartsWith(line, "Dialogue:") then before
      else
        match fields(line[9..])
        case None => before
        case Some(d) => before + [d]
  }

  /** The cues of the dialogues, numbered from `first` in order; the style is kept. */
  function Numbered(ds: seq<Dialogue>, first: int): (r: seq<SubtitleEntry>)
    ensures |r| == |ds|
    ensures forall k :: 0 <= k < |ds| ==>
      r[k] == SubtitleEntry(first + k, ds[k].start, ds[k].end, ds[k].text, Some(ds[k].style))
  {
    seq(|ds|, k requires 0 <= k < |ds| => SubtitleEntry(first + k, ds[k].start, ds[k].end, ds[k].text, Some(ds[k].style)))
  }

  /** What `parse` returns for the text `content`. */
  function ParsedEntries(content: string): seq<SubtitleEntry>
  {
    Numbered(Dialogues(EventLines(ReadLines(content)), DialogueFields), 1)
  }

  /** The style written for a cue: its own, or "Default" when it has none or an empty one. */
  function StyleOrDefault(style: Option<string>): (r: string)
    ensures r != ""
    ensures style.Some? && style.value != "" ==> r == style.value
  {
    if style.None? || style.value == "" then "Default" else style.value
  }

  /** `ASSParser.format_entry`: layer 0, the two times, the style, empty name, zero margins, empty effect, the
      text, and a newline. */
  function FormatAssEntry(e: SubtitleEntry): string
  {
    "Dialogue: 0," + FormatAssTime(e.startTime) + "," + FormatAssTime(e.endTime) + "," + StyleOrDefault(e.style)
      + ",,0,0,0,," + e.text + "\n"
  }

  /** No comma anywhere in the text. */
  predicate NoComma(s: string)
  {
    forall j :: 0 <= j < |s| ==> s[j] != ','
  }

  /**
   * A cue written by FormatAssEntry reads back, once its line is stripped, as a dialogue with the same times, the
   * written style and the same text, provided the times are on the centisecond grid, the style holds no comma and
   * neither style nor text has whitespace at its ends.
   */
  lemma AssEntryRoundTrip(e: SubtitleEntry)
    requires OnGrid(e.startTime, 100) && OnGrid(e.endTime, 100)
    requires NoComma(StyleOrDefault(e.style)) && Trimmed(StyleOrDefault(e.style)) && Trimmed(e.text)
    ensures ParseDialogue(Strip(FormatAssEntry(e)))
      == Some(Dialogue(e.startTime, e.endTime, StyleOrDefault(e.style), e.text))
  {
    AssTimeRoundTrip(e.startTime);
    AssTimeRoundTrip(e.endTime);
    AssTimeNoComma(e.startTime);
    AssTimeNoComma(e.endTime);
    DialogueOfLine(FormatAssTime(e.startTime), FormatAssTime(e.endTime), StyleOrDefault(e.style), e.text,
      e.startTime, e.endTime);
  }

  lemma DialogueOfLine(a: string, b: string, style: string, text: string, start: real, end: real)
    requires ClockText(a) && ClockText(b) && NoComma(a) && NoComma(b)
    requires ParseAssTime(a) == Some(start) && ParseAssTime(b) == Some(end)
    requires NoComma(style) && Trimmed(style) && Trimmed(text)
    ensures ParseDialogue(Strip("Dialogue: 0," + a + "," + b + "," + style + ",,0,0,0,," + text + "\n"))
      == Some(Dialogue(start, end, style, text))
  {
    var rest := DialogueRest(a, b, style, text);
    WrittenLine(a, b, style, text);
    RestFields(a, b, style, text, start, end);
    var line := "Dialogue:" + rest;
    assert line[..9] == "Dialogue:" && line[9..] == rest;
  }

  /** The fields after `Dialogue:` on a written line read back as the dialogue. */
  lemma RestFields(a: string, b: string, style: string, text: string, start: real, end: real)
    requires ClockText(a) && ClockText(b) && NoComma(a) && NoComma(b)
    requires ParseAssTime(a) == Some(start) && ParseAssTime(b) == Some(end)
    requires NoComma(style) && Trimmed(style) && Trimmed(text)
    ensures DialogueFields(DialogueRest(a, b, style, text)) == Some(Dialogue(start, end, style, text))
  {
    DialogueParts(a, b, style, text);
    StripNoSpace(a);
    StripNoSpace(b);
    StripNoSpace(style);
    StripNoSpace(text);
    WrittenFields(SplitN(DialogueRest(a, b, style, text), ",", 9), a, b, style, text, start, end);
  }

  lemma WrittenFields(parts: seq<string>, a: string, b: string, style: string, text: string, start: real, end: real)
    requires parts == [" 0", a, b, style, "", "0", "0", "0", "", text]
    requires ParseAssTime(Strip(a)) == Some(start) && ParseAssTime(Strip(b)) == Some(end)
    requires Strip(style) == style && Strip(text) == text
    ensures FieldsOf(parts) == Some(Dialogue(start, end, style, text))
  {
    assert parts[1] == a && parts[2] == b && parts[3] == style && parts[9] == text;
  }

  /** The text after `Dialogue:` on a written line. */
  function DialogueRest(a: string, b: string, style: string, text: string): string
  {
    " 0," + a + "," + b + "," + style + ",,0,0,0,," + text
  }

  /** Stripping a written line removes just its newline. */
  lemma WrittenLine(a: string, b: string, style: string, text: string)
    requires Trimmed(text)
    ensures Strip("Dialogue: 0," + a + "," + b + "," + style + ",,0,0,0,," + text + "\n")
      == "Dialogue:" + DialogueRest(a, b, style, text)
  {
    var line := "Dialogue:" + DialogueRest(a, b, style, text);
    assert "Dialogue: 0," + a + "," + b + "," + style + ",,0,0,0,," + text + "\n" == line + "\n";
    assert line[|line| - 1] == if |text| > 0 then text[|text| - 1] else ',';
    StripSpaceTail(line, "\n");
  }

  /** The comma fields of a written dialogue. */
  lemma DialogueParts(a: string, b: string, style: string, text: string)
    requires NoComma(a) && NoComma(b) && NoComma(style)
    ensures SplitN(DialogueRest(a, b, style, text), ",", 9) == [" 0", a, b, style, "", "0", "0", "0", "", text]
  {
    var r8 := "" + "," + text;
    var r7 := "0" + "," + r8;
    var r6 := "0" + "," + r7;
    var r5 := "0" + "," + r6;
    var r4 := "" + "," + r5;
    var r3 := style + "," + r4;
    var r2 := b + "," + r3;
    var r1 := a + "," + r2;
    assert DialogueRest(a, b, style, text) == " 0" + "," + r1;
    assert NoComma(" 0") && NoComma("0") && NoComma("");
    SplitNPeel("", text, 1);
    SplitNPeel("0", r8, 2);
    SplitNPeel("0", r7, 3);
    SplitNPeel("0", r6, 4);
    SplitNPeel("", r5, 5);
    SplitNPeel(style, r4, 6);
    SplitNPeel(b, r3, 7);
    SplitNPeel(a, r2, 8);
    SplitNPeel(" 0", r1, 9);
    TenFields(" 0", a, b, style, "", "0", "0", "0", "", text);
  }

  lemma TenFields(x0: string, x1: string, x2: string, x3: string, x4: string, x5: string, x6: string, x7: string,
    x8: string, x9: string)
    ensures [x0] + ([x1] + ([x2] + ([x3] + ([x4] + ([x5] + ([x6] + ([x7] + ([x8] + [x9]))))))))
      == [x0, x1, x2, x3, x4, x5, x6, x7, x8, x9]
  {
  }

  lemma SplitNPeel(p: string, rest: string, n: nat)
    requires n > 0 && NoComma(p)
    ensures SplitN(p + "," + rest, ",", n) == [p] + SplitN(rest, ",", n - 1)
  {
    var s := p + "," + rest;
    FindAfterPrefix(p, ',', rest);
    assert s[..|p|] == p && s[|p| + 1..] == rest;
  }

  /** An ASS clock holds no comma. */
  lemma AssTimeNoComma(t: real)
    requires OnGrid(t, 100)
    ensures NoComma(FormatAssTime(t))
  {
    var cs := GridCount(t, 100);
    var h, m, s, y := AssTimeFields(t, cs);
    ClockNoComma(Pad(h, 0), Pad(m, 2), Pad(s, 2), Pad(y, 2));
  }

  lemma ClockNoComma(a: string, b: string, c: string, d: string)
    requires AllDigits(a) && AllDigits(b) && AllDigits(c) && AllDigits(d)
    ensures NoComma(a + ":" + b + ":" + (c + "." + d))
  {
    var text := a + ":" + b + ":" + (c + "." + d);
    forall j | 0 <= j < |text|
      ensures text[j] != ','
    {
      if j < |a| {
        assert IsDigit(a[j]);
      } else if |a| < j < |a| + 1 + |b| {
        assert text[j] == b[j - |a| - 1] && IsDigit(b[j - |a| - 1]);
      } else if |a| + |b| + 1 < j < |a| + |b| + 2 + |c| {
        assert text[j] == c[j - |a| - |b| - 2] && IsDigit(c[j - |a| - |b| - 2]);
      } else if |a| + |b| + |c| + 2 < j {
        assert text[j] == d[j - |a| - |b| - |c| - 3] && IsDigit(d[j - |a| - |b| - |c| - 3]);
      }
    }
  }

  class AssParser {
    var headerLines: seq<string>
    var styles: map<string, string>

    /** `ASSParser()`: no header lines and no styles yet. */
    constructor ()
      ensures headerLines == [] && styles == map[]
    {
      headerLines := [];
      styles := map[];
    }

    /** `parse` on the text of a file: the header lines before the first `[Events]` are appended to
        `headerLines` and their `Style:` lines entered in `styles`; the result is the dialogues after it. */
    method Parse(content: string) returns (entries: seq<SubtitleEntry>)
      modifies this
      ensures headerLines == old(headerLines) + HeaderOf(ReadLines(content))
      ensures styles == StylesOf(old(styles), HeaderOf(ReadLines(content)))
      ensures entries == ParsedEntries(content)
    {
      entries := ParseLines(ReadLines(content), DialogueFields);
    }

    /** The loop of `parse` over the lines, with the `try` body for a dialogue as `fields`. */
    method ParseLines(lines: seq<string>, fields: string -> Option<Dialogue>) returns (entries: seq<SubtitleEntry>)
      modifies this
      ensures headerLines == old(headerLines) + HeaderOf(lines)
      ensures styles == StylesOf(old(styles), HeaderOf(lines))
      ensures entries == Numbered(Dialogues(EventLines(lines), fields), 1)
    {
      entries := [];
      var inEvents := false;
      var index := 1;
      var i := 0;
      ghost var ds: seq<Dialogue> := [];
      ghost var start := ParseState(false, headerLines, styles, []);
      while i < |lines|
        invariant 0 <= i <= |lines|
        invariant ParseState(inEvents, headerLines, styles, ds) == RunLines(start, lines[..i], fields)
        invariant entries == Numbered(ds, 1) && index == |ds| + 1
      {
        assert lines[..i + 1][..i] == lines[..i];
        var line := Strip(lines[i]);
        if StartsWith(line, "[Events]") {
          inEvents := true;
        } else if !inEvents {
          headerLines := headerLines + [line];
          if IsStyleLine(line) {
            styles := styles[StyleName(line) := line];
          }
        } else if StartsWith(line, "Dialogue:") {
          var d := fields(line[9..]);
          if d.Some? {
            NumberedSnoc(ds, d.value, 1);
            entries := entries + [SubtitleEntry(index, d.value.start, d.value.end, d.value.text, Some(d.value.style))];
            ds := ds + [d.value];
            index := index + 1;
          }
        }
        i := i + 1;
      }
      assert lines[..i] == lines;
      RunLinesSpec(start.header, start.styles, lines, fields);
      assert ParseState(inEvents, headerLines, styles, ds) == Gathered(start.header, start.styles, lines, fields);
    }

    /** `get_header`. */
    function GetHeader(): (r: string)
      reads this
      ensures r == HeaderFor(headerLines)
    {
      HeaderFor(headerLines)
    }
  }

  /** The header `get_header` gives after the header lines `lines` were read. */
  function HeaderFor(lines: seq<string>): string
  {
    if |lines| == 0 then DefaultHeader else Join(lines, "\n") + "\n\n" + EventsSection
  }

  /** The header is the default one when no header line was read, and otherwise the lines joined by newlines
      followed by a blank line; either way it ends with `[Events]` and its `Format:` line. */
  lemma HeaderForShape(lines: seq<string>)
    ensures EndsWith(HeaderFor(lines), EventsSection)
    ensures |lines| == 0 ==> HeaderFor(lines) == DefaultHeader
    ensures |lines| > 0 ==> StartsWith(HeaderFor(lines), Join(lines, "\n") + "\n\n")
  {
    if |lines| == 0 {
      EndsWithAppend(DefaultPrelude + "\n", EventsSection);
    } else {
      EndsWithAppend(Join(lines, "\n") + "\n\n", EventsSection);
      StartsWithAppend(Join(lines, "\n") + "\n\n", EventsSection);
    }
  }

  /** What `parse` has gathered so far: whether `[Events]` was seen, the header lines, the styles and the
      dialogues. */
  datatype ParseState = ParseState(inEvents: bool, header: seq<string>, styles: map<string, string>, dialogues: seq<Dialogue>)

  /** One turn of the loop of `parse`. */
  function StepLine(st: ParseState, raw: string, fields: string -> Option<Dialogue>): ParseState
  {
    var line := Strip(raw);
    if StartsWith(line, "[Events]") then st.(inEvents := true)
    else if !st.inEvents then
      st.(header := st.header + [line],
          styles := if IsStyleLine(line) then st.styles[StyleName(line) := line] else st.styles)
    else if StartsWith(line, "Dialogue:") then
      match fields(line[9..])
      case None => st
      case Some(d) => st.(dialogues := st.dialogues + [d])
    else st
  }

  /** The loop of `parse` over `lines` from `st`. */
  function RunLines(st: ParseState, lines: seq<string>, fields: string -> Option<Dialogue>): ParseState
  {
    if |lines| == 0 then st else StepLine(RunLines(st, lines[..|lines| - 1], fields), lines[|lines| - 1], fields)
  }

  /** The loop gathers exactly the header before the first `[Events]`, the styles of its `Style:` lines and the
      dialogues after it. */
  lemma {:induction false} RunLinesSpec(h: seq<string>, m: map<string, string>, lines: seq<string>, fields: string -> Option<Dialogue>)
    ensures RunLines(ParseState(false, h, m, []), lines, fields) == Gathered(h, m, lines, fields)
  {
    var st := ParseState(false, h, m, []);
    if |lines| == 0 {
      assert Gathered(h, m, lines, fields) == st;
    } else {
      var n := |lines| - 1;
      var init, last := lines[..n], lines[n];
      RunLinesSpec(h, m, init, fields);
      assert RunLines(st, lines, fields) == StepLine(RunLines(st, init, fields), last, fields);
      assert lines == init + [last];
      EventsAtSnoc(init, last);
      var k := EventsAt(init);
      if k < n {
        GatheredInEvents(h, m, init, last, fields);
      } else if IsEventsMarker(last) {
        GatheredOpens(h, m, init, last, fields);
      } else {
        GatheredHeader(h, m, init, last, fields);
      }
    }
  }

  /** The declarative result of the loop of `parse` from header `h` and styles `m`. */
  function Gathered(h: seq<string>, m: map<string, string>, lines: seq<string>, fields: string -> Option<Dialogue>): ParseState
  {
    ParseState(EventsAt(lines) < |lines|, h + HeaderOf(lines), StylesOf(m, HeaderOf(lines)), Dialogues(EventLines(lines), fields))
  }

  lemma GatheredInEvents(h: seq<string>, m: map<string, string>, init: seq<string>, last: string, fields: string -> Option<Dialogue>)
    requires EventsAt(init) < |init| && EventsAt(init + [last]) == EventsAt(init)
    ensures Gathered(h, m, init + [last], fields) == StepLine(Gathered(h, m, init, fields), last, fields)
  {
    var k := EventsAt(init);
    HeaderKept(init, last, k);
    EventLinesSnoc(init, last, k);
    DialoguesAppend(init[k + 1..], last, fields);
    StepInEvents(Gathered(h, m, init, fields), last, fields);
  }

  /** Once `[Events]` was seen the header does not grow. */
  lemma HeaderKept(init: seq<string>, last: string, k: nat)
    requires k == EventsAt(init) == EventsAt(init + [last]) < |init|
    ensures HeaderOf(init + [last]) == HeaderOf(init)
  {
    assert (init + [last])[..k] == init[..k];
  }

  /** Once `[Events]` was seen a further line joins the events lines. */
  lemma EventLinesSnoc(init: seq<string>, last: string, k: nat)
    requires k == EventsAt(init) == EventsAt(init + [last]) < |init|
    ensures EventLines(init + [last]) == EventLines(init) + [last]
  {
    assert (init + [last])[k + 1..] == init[k + 1..] + [last];
  }

  /** The dialogues of one more line. */
  lemma DialoguesAppend(lines: seq<string>, x: string, fields: string -> Option<Dialogue>)
    ensures var line := Strip(x);
      Dialogues(lines + [x], fields) ==
        if StartsWith(line, "[Events]") || !StartsWith(line, "Dialogue:") then Dialogues(lines, fields)
        else match fields(line[9..])
          case None => Dialogues(lines, fields)
          case Some(d) => Dialogues(lines, fields) + [d]
  {
    assert (lines + [x])[..|lines|] == lines;
  }

  /** After `[Events]` a line can only add a dialogue. */
  lemma StepInEvents(g: ParseState, last: string, fields: string -> Option<Dialogue>)
    requires g.inEvents
    ensures var line := Strip(last);
      StepLine(g, last, fields) ==
        if StartsWith(line, "[Events]") || !StartsWith(line, "Dialogue:") then g
        else match fields(line[9..])
          case None => g
          case Some(d) => g.(dialogues := g.dialogues + [d])
  {
  }

  lemma GatheredOpens(h: seq<string>, m: map<string, string>, init: seq<string>, last: string, fields: string -> Option<Dialogue>)
    requires EventsAt(init) == |init| && EventsAt(init + [last]) == |init| && IsEventsMarker(last)
    ensures Gathered(h, m, init + [last], fields) == StepLine(Gathered(h, m, init, fields), last, fields)
  {
    HeaderWhole(init, last, |init|);
    assert EventLines(init) == [];
    EventLinesOpen(init, last);
  }

  /** The header up to line `k` of `init` is the same with a line added after it. */
  lemma HeaderWhole(init: seq<string>, last: string, k: nat)
    requires k == EventsAt(init + [last]) <= |init|
    ensures HeaderOf(init + [last]) == Stripped(init[..k])
  {
    assert (init + [last])[..k] == init[..k];
  }

  /** The `[Events]` line that ends the lines is followed by no events lines. */
  lemma EventLinesOpen(init: seq<string>, last: string)
    requires EventsAt(init + [last]) == |init|
    ensures EventLines(init + [last]) == []
  {
  }

  lemma GatheredHeader(h: seq<string>, m: map<string, string>, init: seq<string>, last: string, fields: string -> Option<Dialogue>)
    requires EventsAt(init) == |init| && EventsAt(init + [last]) == |init| + 1 && !IsEventsMarker(last)
    ensures Gathered(h, m, init + [last], fields) == StepLine(Gathered(h, m, init, fields), last, fields)
  {
    var g, g' := Gathered(h, m, init, fields), Gathered(h, m, init + [last], fields);
    var line := Strip(last);
    HeaderGrows(init, last);
    AppendAssoc(h, HeaderOf(init), [line]);
    StylesStep(m, HeaderOf(init), line);
    assert g'.styles == if IsStyleLine(line) then g.styles[StyleName(line) := line] else g.styles;
    assert g.dialogues == [] == g'.dialogues;
    StepInHeader(g, last, fields);
  }

  /** Before `[Events]` the header grows by the stripped line. */
  lemma HeaderGrows(init: seq<string>, last: string)
    requires EventsAt(init) == |init| && EventsAt(init + [last]) == |init| + 1
    ensures HeaderOf(init + [last]) == HeaderOf(init) + [Strip(last)]
  {
    var lines := init + [last];
    assert lines[..|init| + 1] == lines && lines[..|init|] == init && init[..|init|] == init;
    HeaderStep(lines, |init|);
  }

  /** Before `[Events]` a line other than `[Events]` is a header line. */
  lemma StepInHeader(g: ParseState, last: string, fields: string -> Option<Dialogue>)
    requires !g.inEvents && !IsEventsMarker(last)
    ensures var line := Strip(last);
      StepLine(g, last, fields) == g.(header := g.header + [line],
        styles := if IsStyleLine(line) then g.styles[StyleName(line) := line] else g.styles)
  {
  }

  /** Where the first `[Events]` line is once one more line is added. */
  lemma {:induction false} EventsAtSnoc(lines: seq<string>, x: string)
    ensures EventsAt(lines + [x])
      == if EventsAt(lines) < |lines| then EventsAt(lines) else if IsEventsMarker(x) then |lines| else |lines| + 1
  {
    var s := lines + [x];
    if |lines| == 0 {
      assert s == [x];
    } else {
      assert s[0] == lines[0];
      assert s[1..] == lines[1..] + [x];
      EventsAtSnoc(lines[1..], x);
    }
  }

  lemma AppendAssoc(a: seq<string>, b: seq<string>, c: seq<string>)
    ensures a + (b + c) == a + b + c
  {
  }

  lemma StartsWithAppend(x: string, s: string)
    ensures StartsWith(x + s, x)
  {
    assert (x + s)[..|x|] == x;
  }

  lemma EndsWithAppend(x: string, s: string)
    ensures EndsWith(x + s, s)
  {
    assert (x + s)[|x|..] == s;
  }

  lemma HeaderStep(lines: seq<string>, i: nat)
    requires i < |lines|
    ensures Stripped(lines[..i + 1]) == Stripped(lines[..i]) + [Strip(lines[i])]
  {
    assert lines[..i + 1][..i] == lines[..i];
  }

  lemma StylesStep(m: map<string, string>, header: seq<string>, line: string)
    ensures StylesOf(m, header + [line])
      == if IsStyleLine(line) then StylesOf(m, header)[StyleName(line) := line] else StylesOf(m, header)
  {
    assert (header + [line])[..|header|] == header;
  }

  lemma NumberedSnoc(ds: seq<Dialogue>, d: Dialogue, first: int)
    ensures Numbered(ds + [d], first)
      == Numbered(ds, first) + [SubtitleEntry(first + |ds|, d.start, d.end, d.text, Some(d.style))]
  {
  }
}
