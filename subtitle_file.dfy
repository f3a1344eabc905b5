// `SubtitleFile` of subtitle.py: the cues of one subtitle file with its format
// and the parser that read it, chosen by the file's extension; saving writes
// the parser's header and every cue; `shift_all` moves every cue in time.
module SubtitleFiles {
  import opened Results
  import opened Text
  import opened Paths
  import opened Models
  import opened Subtitle
  import opened AssSubtitle

  /**
   * The parser a file was read with. An ASS parser is kept as the header lines and styles its `parse` left in
   * its fields; nothing changes them once the file is read.
   */
  datatype Parser = SrtParser | AssParserOf(headerLines: seq<string>, styles: map<string, string>)

  datatype SubtitleFile = SubtitleFile(entries: seq<SubtitleEntry>, format: SubtitleFormat, parser: Parser)

  /** `file_path.suffix.lower()`. */
  function Extension(path: Path): string
  {
    Lower(Suffix(Name(path)))
  }

  /** The format an extension selects: `.srt` and `.ass` only. */
  function FormatOfExtension(ext: string): (r: Option<SubtitleFormat>)
    ensures r == Some(Srt) <==> ext == ".srt"
    ensures r == Some(Ass) <==> ext == ".ass"
    ensures r.None? <==> ext != ".srt" && ext != ".ass"
  {
    if ext == ".srt" then Some(Srt) else if ext == ".ass" then Some(Ass) else None
  }

  /** The message of the ValueError for any other extension. */
  function UnsupportedFormat(ext: string): string
  {
    "不支持的字幕格式: " + ext + "，仅支持 .srt 和 .ass"
  }

  /** The cues a parser of the given format reads from `content`. */
  function ParsedAs(format: SubtitleFormat, content: string): seq<SubtitleEntry>
  {
    match format
    case Srt => Accepted(SrtBlocks(content), ParseSrtBlock)
    case Ass => ParsedEntries(content)
  }

  /** What `SubtitleFile.parse` makes of the file at `path` whose text is `content`: the cues, or the error. */
  function ParsedFile(path: Path, content: string): (r: Result<seq<SubtitleEntry>>)
    ensures r.Err? <==> FormatOfExtension(Extension(path)).None?
    ensures r.Err? ==> r.error == UnsupportedFormat(Extension(path))
    ensures r.Ok? ==> r.value == ParsedAs(FormatOfExtension(Extension(path)).value, content)
  {
    match FormatOfExtension(Extension(path))
    case None => Err(UnsupportedFormat(Extension(path)))
    case Some(format) => Ok(ParsedAs(format, content))
  }

  /**
   * `SubtitleFile.parse`: the parser is chosen by the lower-cased extension, and any extension other than `.srt`
   * and `.ass` is an error. A new ASS parser keeps the header lines and styles of the file.
   */
  method ParseFile(path: Path, content: string) returns (r: Result<SubtitleFile>)
    ensures r.Err? <==> ParsedFile(path, content).Err?
    ensures r.Err? ==> r.error == ParsedFile(path, content).error
    ensures r.Ok? ==> (Some(r.value.format) == FormatOfExtension(Extension(path))
      && r.value.entries == ParsedFile(path, content).value)
    ensures r.Ok? ==> r.value.parser == ParserFor(r.value.format, content)
  {
    var ext := Extension(path);
    if ext == ".srt" {
      var entries := ParseSrt(content);
      r := Ok(SubtitleFile(entries, Srt, SrtParser));
    } else if ext == ".ass" {
      var parser := new AssParser();
      var entries := parser.Parse(content);
      r := Ok(SubtitleFile(entries, Ass, AssParserOf(parser.headerLines, parser.styles)));
    } else {
      r := Err(UnsupportedFormat(ext));
    }
  }

  /**
   * The parser `parse` leaves with a file: an SRT parser has no state; an ASS
   * parser holds the lines before `[Events]` and the styles named there.
   */
  function ParserFor(format: SubtitleFormat, content: string): (p: Parser)
    ensures format == Srt <==> p == SrtParser
  {
    match format
    case Srt => SrtParser
    case Ass => AssParserOf(HeaderOf(ReadLines(content)), StylesOf(map[], HeaderOf(ReadLines(content))))
  }

  /** `parser.get_header()`: nothing for SRT. */
  function HeaderText(p: Parser): string
  {
    match p
    case SrtParser => ""
    case AssParserOf(lines, _) => HeaderFor(lines)
  }

  /** `parser.format_entry`. */
  function LineWriter(p: Parser): SubtitleEntry -> string
  {
    if p.SrtParser? then FormatSrtEntry else FormatAssEntry
  }

  /** What `save` writes for one cue: the parser's line, and an extra newline when `srt`. */
  function Writer(line: SubtitleEntry -> string, srt: bool): SubtitleEntry -> string
  {
    e => line(e) + (if srt then "\n" else "")
  }

  /** The text `save` writes: the header, then every cue; the extra newline follows the file's format. */
  function SavedText(f: SubtitleFile): string
  {
    HeaderText(f.parser) + Written(f.entries, Writer(LineWriter(f.parser), f.format == Srt))
  }

  /** `save`: the header when there is one, then each cue; the result is the file's text. */
  method Save(f: SubtitleFile) returns (text: string)
    ensures text == SavedText(f)
  {
    text := SaveWith(HeaderText(f.parser), f.entries, LineWriter(f.parser), f.format == Srt);
  }

  /** The body of `save` for a given header and cue writer. */
  method SaveWith(header: string, es: seq<SubtitleEntry>, line: SubtitleEntry -> string, srt: bool)
    returns (text: string)
    ensures text == header + Written(es, Writer(line, srt))
  {
    text := "";
    if header != "" {
      text := text + header;
    }
    text := WriteCues(text, es, line, srt);
  }

  /** The loop of `save` after the header: the line of each cue, and a newline after it when `srt`. */
  method WriteCues(header: string, es: seq<SubtitleEntry>, line: SubtitleEntry -> string, srt: bool)
    returns (text: string)
    ensures text == header + Written(es, Writer(line, srt))
  {
    text := header;
    var i := 0;
    while i < |es|
      invariant 0 <= i <= |es|
      invariant text == header + Written(es[..i], Writer(line, srt))
    {
      assert es[..i + 1][..i] == es[..i];
      text := text + line(es[i]);
      if srt {
        text := text + "\n";
      }
      i := i + 1;
    }
    assert es[..i] == es;
  }

  /** Reading back a saved SRT file gives its cues, in order, with their own indices and without style. */
  lemma SrtSaveRoundTrip(es: seq<SubtitleEntry>)
    requires forall i :: 0 <= i < |es| ==> SrtWritable(es[i])
    ensures ParsedAs(Srt, SavedText(SubtitleFile(es, Srt, SrtParser))) == Unstyled(es)
  {
    SrtSavedText(es);
    SrtFileRoundTrip(es);
  }

  /** A saved SRT file has no header: it is each cue's block followed by a blank line. */
  lemma SrtSavedText(es: seq<SubtitleEntry>)
    ensures SavedText(SubtitleFile(es, Srt, SrtParser)) == Written(es, SrtSaved)
  {
    var w := Writer(FormatSrtEntry, true);
    forall e
      ensures w(e) == SrtSaved(e)
    {
    }
    WrittenAlike(es, w, SrtSaved);
  }

  /** A saved ASS file starts with the header its parser read and ends with the cue lines. */
  lemma AssSaveShape(es: seq<SubtitleEntry>, lines: seq<string>, styles: map<string, string>)
    ensures SavedText(SubtitleFile(es, Ass, AssParserOf(lines, styles))) == HeaderFor(lines) + Written(es, FormatAssEntry)
  {
    var w := Writer(FormatAssEntry, false);
    forall e
      ensures w(e) == FormatAssEntry(e)
    {
    }
    WrittenAlike(es, w, FormatAssEntry);
  }

  /** Writers that agree on every cue write the same text. */
  lemma {:induction false} WrittenAlike(es: seq<SubtitleEntry>, w: SubtitleEntry -> string, v: SubtitleEntry -> string)
    requires forall e :: w(e) == v(e)
    ensures Written(es, w) == Written(es, v)
  {
    if |es| > 0 {
      WrittenAlike(es[..|es| - 1], w, v);
    }
  }

  /** `shift_all`: a new file with every cue moved by `offset`, the same format and the same parser. */
  function ShiftAll(f: SubtitleFile, offset: real): (r: SubtitleFile)
    ensures |r.entries| == |f.entries| && r.format == f.format && r.parser == f.parser
    ensures forall i :: 0 <= i < |f.entries| ==> r.entries[i] == f.entries[i].ShiftTime(offset)
  {
    SubtitleFile(ShiftEntries(f.entries, offset), f.format, f.parser)
  }

  function ShiftEntries(es: seq<SubtitleEntry>, offset: real): (r: seq<SubtitleEntry>)
    ensures |r| == |es| && forall i :: 0 <= i < |es| ==> r[i] == es[i].ShiftTime(offset)
  {
    seq(|es|, i requires 0 <= i < |es| => es[i].ShiftTime(offset))
  }

  /** Shifting by `a` then by `b` is shifting by `a + b`; shifting by 0 changes nothing; shifting back undoes a
      shift. */
  lemma ShiftAllCompose(f: SubtitleFile, a: real, b: real)
    ensures ShiftAll(ShiftAll(f, a), b) == ShiftAll(f, a + b)
    ensures ShiftAll(f, 0.0) == f
    ensures ShiftAll(ShiftAll(f, a), -a) == f
  {
    assert ShiftAll(ShiftAll(f, a), b).entries == ShiftAll(f, a + b).entries;
    assert ShiftAll(f, 0.0).entries == f.entries;
    assert ShiftAll(ShiftAll(f, a), -a).entries == f.entries;
  }
}
