# drama_processor in Dafny

This project models the core of `drama_processor`, a batch tool for short-drama
production directories. The tool runs three stages on each unit directory
(`drama-NNNN`):

- **merge**: the numbered video segments under `video/` (or `original/video/`)
  are joined into `merged/merged.mp4`. Their subtitles under `srt/` are shifted
  onto one timeline and renumbered.
- **separate**: the audio of the merged video is extracted. Spleeter separates
  it into vocals and accompaniment, cutting long audio into segments. The vocals,
  optionally mixed with some accompaniment, are put back into a copy of the video
  under `cleared/`.
- **transcode**: the cleared video is encoded to every configured resolution
  under `encoded/`. Targets taller than the input are skipped, and the subtitles
  are copied alongside.

Around the stages the model covers:

- the directory scanner and its name rule;
- natural sorting and sequence validation;
- SRT and ASS parsing and writing;
- the ffmpeg command builders;
- the free-name rule for output files;
- the resume state store;
- the retry/skip error strategies;
- the progress tracker and the processing report;
- the sequential, concurrent, resumable and reporting orchestrators;
- the entry points that wire them together;
- the command-line validators.

The shape of the model follows the source:

- Value records are datatypes.
- Objects the source mutates are classes:
  - `AssParser`
  - `StateManager`
  - `ErrorHandler` and `RecoveryContext`
  - `ProgressTracker`
  - `DetailedProcessingReport`
  - the orchestrators
  - `ReportingWrapper`
  - `AudioSeparator` and its progress throttle
- Loops become methods whose `ensures` ties the result to a specification function.
- The properties the tool promises are proved as lemmas about those functions.

The filesystem is modelled as a value `FileSystem`: a set of files, a set of
directories and the listing order of each directory. Each external program is
a function parameter:

- ffmpeg and ffprobe;
- Spleeter;
- the GPU probes;
- the clock.

Each external program is given by what it returns for the arguments it is handed.

The orchestrators are modelled apart from the three stages. They take the
stage processors as a parameter, `Orchestration.Stages`, which gives each
unit's callback calls and its result or exception. Each stage module is
modelled with its own batch driver. "## Left out" says what this separation
does not capture.

Python's floats are exact reals. Its integers are unbounded, which matches Dafny.
Where the source truncates (`int(x)`) or floors (`//`, `%`), the model writes that
operation out.

## Model

| member | source | states |
|---|---|---|
| Models.StatusFromValue | drama_processor/models.py:17-33 | A status found for a value string has that value; anything else is None, the ValueError case |
| Models.StatusValueRoundTrip | drama_processor/models.py:29-33 | Reading back the value of any status gives that status |
| Models.FailedResult | drama_processor/models.py:50-66 | The result is FAILED for the input, with no output path and the given message |
| Models.PercentageBounds | drama_processor/models.py:70-84 | While the count stays within a positive total, the percentage `current / total * 100` lies in [0, 100] |
| Models.FullPercentage | drama_processor/models.py:70-84 | A count equal to a non-zero total is exactly 100 percent |
| Models.ShiftTime | drama_processor/models.py:138-155 | A shifted cue starts `offset` later, keeps its length, and keeps its index, text and style |
| Models.ShiftTimeCompose | drama_processor/models.py:138-155 | Shifting twice equals shifting once by the sum; shifting by `-d` undoes a shift by `d` |
| Models.Spec | drama_processor/models.py:181-196 | A target built from a size has that width and height and the default codecs |
| Models.ResolutionNameInjective | drama_processor/models.py:198-204 | Two targets share a resolution name (`<height>p`) exactly when they share a height |
| Models.DefaultSpecs | drama_processor/models.py:244-255 | The preset targets are three, of heights 1080, 720 and 480, in that order |
| Models.PostInit | drama_processor/models.py:244-255 | Post-initialisation fills the state file, report directory and targets only where they are unset and changes nothing else |
| Models.PostInitIdempotent | drama_processor/models.py:244-255 | Post-initialising twice is post-initialising once |
| FileManager.GetUniquePath | drama_processor/file_manager.py:45-68 | The loop returns the unique path of the specification, whose properties UniquePathFacts states |
| FileManager.UniquePathFacts | drama_processor/file_manager.py:56-68 | The unique path does not exist, has the requested parent, equals the request when that is free, and otherwise is numbered with every smaller candidate taken |
| FileManager.NumberedInjective | drama_processor/file_manager.py:59-65 | Distinct counters give distinct candidates, so the loop always ends |
| FileManager.CandidatesCounted | drama_processor/file_manager.py:59-68 | At most as many candidates are taken as the filesystem has entries, which bounds the counter |
| FileManager.NumberedKeepsSuffix | drama_processor/file_manager.py:59-65 | A numbered candidate keeps the parent and suffix, and its stem is the old stem plus `_k` |
| Sorter.RunsFacts | drama_processor/sorter.py:80 | The digit/non-digit runs of a stem cover it exactly, each run is non-empty and of one kind, and neighbouring runs differ in kind |
| Sorter.StemKey | drama_processor/sorter.py:79-86 | The run-by-run loop yields the key parts of the stem's runs: an int per digit run, the lower-cased text per other run |
| Sorter.NaturalSortKey | drama_processor/sorter.py:51-86 | The key of a path is the key of its stem, with the parts in run order |
| Sorter.NaturalKeyAlternates | drama_processor/sorter.py:79-86 | Neighbouring key parts alternate between numbers and words, and the first part is a number exactly when the stem starts with a digit |
| Sorter.NaturalKeyIgnoresCase | drama_processor/sorter.py:84 | A stem and its lower-cased form have the same key |
| Sorter.ExtractNumber | drama_processor/sorter.py:26-48 | The result is never empty: `(0,)` stands in when the stem has no digit run |
| Sorter.ExtractNumberMatchesKey | drama_processor/sorter.py:26-48 | The numbers `extract_number` reads are exactly the number parts of the natural key, in order, with `(0,)` standing for none |
| Sorter.KeyLessStrict | drama_processor/sorter.py:107 | Comparability is symmetric; on comparable keys the order is asymmetric, irreflexive and total |
| Sorter.KeyLessTrans | drama_processor/sorter.py:107 | Key comparison is transitive |
| Sorter.StemsComparable | drama_processor/sorter.py:80-86 | Two stems' keys compare without a TypeError exactly when both start with a digit or neither does |
| Sorter.SortByKey | drama_processor/sorter.py:89-107 | The stable insertion sort returns a permutation of its input |
| Sorter.SortByKeySorted | drama_processor/sorter.py:89-107 | The sort returns a permutation of the input that is ordered by key |
| Sorter.SortByKeyStable | drama_processor/sorter.py:107 | Elements with equal keys keep their input order |
| Sorter.SortFilesFails | drama_processor/sorter.py:89-107 | `sort_files` fails exactly when one stem starts with a digit and another does not |
| Sorter.SortNats | drama_processor/sorter.py:159 | `sorted()` of ints is ascending and a permutation |
| Sorter.RangeSetMembers | drama_processor/sorter.py:158-168 | `range(start, start+n)` holds exactly the numbers from start below start+n, in increasing order |
| Sorter.CollectDuplicates | drama_processor/sorter.py:145-153 | After the loop `seen` is the set of all numbers, and the duplicates are exactly the repeated numbers, each listed once |
| Sorter.CheckNumbers | drama_processor/sorter.py:145-168 | Duplicates are reported exactly when a number repeats, sorted and exactly the repeated ones; missing numbers come sorted and are exactly those of `min .. min+n-1` absent from the list; the list passes exactly when its numbers are distinct and fill that range |
| Sorter.ValidateSequence | drama_processor/sorter.py:110-168 | An empty list is reported exactly when there are no files; otherwise duplicates, then gaps, as CheckNumbers states for the leading numbers; the files pass exactly when their leading numbers are distinct and fill `min .. min+n-1` |
| Sorter.MissingEmpty | drama_processor/sorter.py:160-168 | Distinct numbers with nothing of `min .. min+n-1` missing fill that range exactly, so the branch where nothing is missing cannot be taken |
| Subtitle.FloorMod | drama_processor/subtitle.py:149-171 | Float `%` by a positive divisor gives a remainder in [0, m) that restores the dividend with the floor quotient |
| Subtitle.ClockFields | drama_processor/subtitle.py:149-171 | Milliseconds split into hours, minutes below 60, seconds below 60 and milliseconds below 1000 that add back to the total |
| Subtitle.SrtTimeFields | drama_processor/subtitle.py:149-171 | An SRT time on the millisecond grid prints as `HH:MM:SS,mmm` of its clock fields |
| Subtitle.SrtClockValue | drama_processor/subtitle.py:122-147 | The SRT clock text of given fields parses to h*3600+m*60+s+ms/1000 |
| Subtitle.SrtTimeRoundTrip | drama_processor/subtitle.py:122-171 | A non-negative SRT time on the millisecond grid parses back to itself after formatting |
| Subtitle.AssTimeFields | drama_processor/subtitle.py:329-350 | An ASS time on the centisecond grid prints as `H:MM:SS.cc` of its clock fields |
| Subtitle.AssClockValue | drama_processor/subtitle.py:304-327 | The ASS clock text of given fields parses to h*3600+m*60+s+cs/100 |
| Subtitle.AssTimeRoundTrip | drama_processor/subtitle.py:304-350 | A non-negative ASS time on the centisecond grid parses back to itself after formatting |
| Subtitle.TimingSplit | drama_processor/subtitle.py:100-105 | A timing line of two clocks contains ` --> ` and splits back into the two clocks |
| Subtitle.CueOfClocks | drama_processor/subtitle.py:89-118 | A block of an index line, a timing line and text parses to the cue with those times and that text |
| Subtitle.SrtCueParses | drama_processor/subtitle.py:89-118 | A written cue without its trailing newline parses back to the entry, minus its style |
| Subtitle.EntryIsCue | drama_processor/subtitle.py:173-190 | `format_entry` writes the cue block followed by a newline |
| Subtitle.SrtBlockRules | drama_processor/subtitle.py:89-118 | A block with fewer than three lines, a non-integer index or no ` --> ` is dropped; a kept cue has the index of the first line, the remaining lines joined as text, and no style |
| Subtitle.SrtEntryRoundTrip | drama_processor/subtitle.py:173-190 | A cue on the millisecond grid whose text does not end in whitespace parses back to itself, minus its style |
| Subtitle.ParseSrt | drama_processor/subtitle.py:69-120 | Parsing keeps exactly the cues of the accepted blocks, in block order |
| Subtitle.SrtFileRoundTrip | drama_processor/subtitle.py:69-120 | Reading back a saved SRT file gives the saved entries, in order, with their own indices and without style |
| Subtitle.SrtEmptyTextDropped | drama_processor/subtitle.py:92-93 | A cue with empty text is written as two lines and is dropped when read back |
| AssSubtitle.EventsAtFirst | drama_processor/subtitle.py:253-256 | The position found is the first `[Events]` line: none comes before it, and it is one unless there is none |
| AssSubtitle.StylesOfKeys | drama_processor/subtitle.py:263-267 | Reading header lines adds exactly their style names to the styles table |
| AssSubtitle.StylesOfLast | drama_processor/subtitle.py:263-267 | Under each style name is the last `Style:` line with that name |
| AssSubtitle.StylesOfOther | drama_processor/subtitle.py:263-267 | A key that no `Style:` line names keeps its old entry, or stays absent |
| AssSubtitle.Numbered | drama_processor/subtitle.py:290-297 | Dialogues become cues numbered from 1 in order, keeping times, text and style |
| AssSubtitle.AssEntryRoundTrip | drama_processor/subtitle.py:271-297 | A cue on the centisecond grid, with a trimmed comma-free style and trimmed text, written by `format_entry` reads back once stripped as a dialogue with the same times, the written style and the same text |
| AssSubtitle.StyleOrDefault | drama_processor/subtitle.py:352-372 | The style written is never empty, and is the cue's own whenever that is non-empty |
| AssSubtitle.AssTimeNoComma | drama_processor/subtitle.py:329-350 | An ASS clock holds no comma, so the ten-field split of a dialogue line is unaffected by times |
| AssSubtitle.AssParser.constructor | drama_processor/subtitle.py:219-227 | A new parser has no header lines and no styles |
| AssSubtitle.AssParser.ParseLines | drama_processor/subtitle.py:250-300 | The loop appends the stripped lines before the first `[Events]` to the header, adds their styles, and yields the dialogues after it numbered from 1 |
| AssSubtitle.AssParser.Parse | drama_processor/subtitle.py:229-302 | Parsing appends the stripped lines before the first `[Events]` to the header, adds their styles, and returns the dialogues after it numbered from 1 |
| AssSubtitle.AssParser.GetHeader | drama_processor/subtitle.py:374-389 | The header is the one built from the lines read, whose shape HeaderForShape states |
| AssSubtitle.HeaderForShape | drama_processor/subtitle.py:374-407 | The header always ends with the events section; with no lines read it is the default header, otherwise it starts with the read lines and a blank line |
| AssSubtitle.HeaderKept | drama_processor/subtitle.py:253-262 | Once `[Events]` was seen the header does not grow |
| AssSubtitle.HeaderGrows | drama_processor/subtitle.py:258-260 | Before `[Events]` every other line joins the header, stripped |
| SubtitleFiles.FormatOfExtension | drama_processor/subtitle.py:448-459 | Exactly `.srt` selects SRT and exactly `.ass` selects ASS (the extension is lower-cased first); anything else selects none |
| SubtitleFiles.ParsedFile | drama_processor/subtitle.py:427-465 | The parse fails exactly when the extension selects no format, with the unsupported-format message; otherwise it is the parse of the content in the selected format |
| SubtitleFiles.ParseFile | drama_processor/subtitle.py:427-465 | The method fails exactly when ParsedFile does, with its error; otherwise the file has the selected format, the parsed cues and the parser ParserFor gives |
| SubtitleFiles.ParserFor | drama_processor/subtitle.py:448-465 | A file keeps the SRT parser exactly when its format is SRT, and an ASS parser otherwise |
| SubtitleFiles.WriteCues | drama_processor/subtitle.py:489-496 | The save loop writes each cue's line in order, with a blank line after each when SRT |
| SubtitleFiles.Save | drama_processor/subtitle.py:467-496 | The text written is the file's saved text, whose shape SrtSavedText and AssSaveShape state |
| SubtitleFiles.SrtSaveRoundTrip | drama_processor/subtitle.py:467-496 | Reading back a saved SRT file gives its cues in order, with their indices, without style |
| SubtitleFiles.SrtSavedText | drama_processor/subtitle.py:467-496 | A saved SRT file has no header: it is each cue's block followed by a blank line |
| SubtitleFiles.AssSaveShape | drama_processor/subtitle.py:467-496 | A saved ASS file starts with the header its parser read and ends with the cue lines |
| SubtitleFiles.ShiftAll | drama_processor/subtitle.py:498-524 | The new file keeps format and parser and has every cue moved by the offset, in order |
| SubtitleFiles.ShiftAllCompose | drama_processor/subtitle.py:498-524 | Shifting a file twice is shifting it once by the sum; a zero shift changes nothing; shifting back undoes a shift |
| Ffmpeg.BuildCommand | drama_processor/ffmpeg_wrapper.py:109-130 | The loop's list is the command line whose layout CommandLineShape states |
| Ffmpeg.CommandLineShape | drama_processor/ffmpeg_wrapper.py:109-130 | The command line has length 2+2n+|options|, with each input after its `-i` in order, the options unchanged, and the output last |
| Ffmpeg.ParseProgress | drama_processor/ffmpeg_wrapper.py:132-159 | A percentage, when one comes back, lies within 0..100 |
| Ffmpeg.ParseProgressValue | drama_processor/ffmpeg_wrapper.py:146-157 | The percentage equals time/total*100 while the time is within the total, and 100 once it passes it |
| Ffmpeg.ParseProgressDefined | drama_processor/ffmpeg_wrapper.py:132-159 | A percentage comes back exactly when the line has a time field and the total is positive |
| Ffmpeg.DetectGpuEncoder | drama_processor/ffmpeg_wrapper.py:486-529 | With GPU use off or no encoder list, none; otherwise NVENC when listed and an NVIDIA GPU was found, else Quick Sync when listed and an Intel GPU was found, else VideoToolbox when listed, else none |
| Ffmpeg.NewOptimizedWrapper | drama_processor/ffmpeg_wrapper.py:362-378 | The wrapper keeps the GPU flag and the preset, and has no hardware encoder when GPU use is off |
| Ffmpeg.NvencPreset | drama_processor/ffmpeg_wrapper.py:557-569 | Any preset outside the table maps to p4, and every result is one of p1 to p7 |
| Ffmpeg.BuildTranscodeCommand | drama_processor/ffmpeg_wrapper.py:531-612 | The loop's list is the transcode arguments whose layout TranscodeArgsShape states; the output path is not part of it |
| Ffmpeg.TranscodeArgsShape | drama_processor/ffmpeg_wrapper.py:531-612 | A transcode command starts with `ffmpeg -i <input> -c:v` and ends with the eleven common options (scale filter, audio codec and bitrate, pixel format, faststart), the last being `-y` |
| Ffmpeg.TranscodeArgsCpu | drama_processor/ffmpeg_wrapper.py:583-589 | Without a hardware encoder the spec's codec, the preset and CRF 23 are used |
| Ffmpeg.TranscodeArgsNvenc | drama_processor/ffmpeg_wrapper.py:552-571 | With NVENC the preset goes through the NVENC table and the quality is CQ 23 |
| Ffmpeg.BuildMergeCommand | drama_processor/ffmpeg_wrapper.py:614-654 | The list file is `concat_list.txt` next to the output and holds one line per segment; the command copies the listed streams and ends with the output path |
| Ffmpeg.ConcatListAt | drama_processor/ffmpeg_wrapper.py:633-640 | Segment k's line sits between those of the segments before and after it |
| Merger.CollectVideoSegments | drama_processor/merger.py:88-103 | The loop's result is the specification's list of segments, whose properties VideoSegmentsFacts states |
| Merger.ScanVideoSegments | drama_processor/merger.py:52-103 | A missing directory, one without `.mp4` files and names that cannot be ordered each give their own error; a success is non-empty and is the scan VideoScanOk describes |
| Merger.VideoScanOk | drama_processor/merger.py:52-103 | A successful scan holds one segment per `.mp4` file, in natural order, with its duration and position |
| Merger.VideoErrorKept | drama_processor/merger.py:88-103 | Once a duration fails, the scan fails with that error whatever follows |
| Merger.VideoSegmentsFacts | drama_processor/merger.py:88-103 | The segments succeed exactly when every duration can be read; then segment i is file i with its duration and index i+1; otherwise the error is that of the first file whose duration fails |
| Merger.ScanSubtitleSegments | drama_processor/merger.py:105-156 | The method returns the specification's subtitle scan, whose segments KeptIndexed, KeptIncreasing, KeptComplete and KeptAll describe |
| Merger.KeepSubtitleSegments | drama_processor/merger.py:138-156 | The loop's result is the specification's kept segments: files without a format are skipped, but their position is still used up |
| Merger.KeptIndexed | drama_processor/merger.py:138-156 | Every kept segment is the sorted file at its index minus one, with its detected format |
| Merger.KeptIncreasing | drama_processor/merger.py:138-156 | Kept indices strictly increase and never exceed the number of files |
| Merger.KeptComplete | drama_processor/merger.py:138-156 | Every file with a format is kept, under its position from 1 |
| Merger.KeptAll | drama_processor/merger.py:138-156 | When every file has a format, segment i is file i, numbered i+1 |
| Merger.MergeVideos | drama_processor/merger.py:158-242 | No segments is an error; one segment is copied; several are joined by the concat command over `concat_list.txt` next to the output, failing exactly when ffmpeg fails, with its message |
| Merger.MergeSubtitles | drama_processor/merger.py:244-322 | No segments is an error; segments of mixed formats are an error naming the first format and the other; a single file is kept as it is; several are joined |
| Merger.MergeEntries | drama_processor/merger.py:287-311 | The loop's result is the specification's merged cues, whose placement MergedPlacement states |
| Merger.ParsedErrorKept | drama_processor/merger.py:287-311 | Once a file cannot be parsed, the merge fails with its error whatever follows |
| Merger.TimelineLength | drama_processor/merger.py:287-311 | The merged timeline holds as many cues as all files together |
| Merger.TimelinePlacement | drama_processor/merger.py:287-311 | Cue p of file k sits after the cues of earlier files, shifted by that file's offset |
| Merger.MergedPlacement | drama_processor/merger.py:244-322 | In the merged file, cue p of file k comes after the earlier files' cues, moved by the sum of the earlier videos' durations, and numbered by its position |
| Merger.MergedSrtText | drama_processor/merger.py:314-321 | A merged SRT file (first file `.srt`) has no header: it is every merged cue's block followed by a blank line, in order |
| Merger.MergedAssText | drama_processor/merger.py:314-321 | A merged ASS file starts with the first file's header and goes on with the merged cue lines |
| Merger.Processed | drama_processor/merger.py:352-502 | Every outcome is for the unit and takes `elapsed`; it is COMPLETED with output `merged/` and no message, or FAILED with no output and a message; the callback sees the start, then the completion, which every success reports |
| Merger.Process | drama_processor/merger.py:352-502 | The method's result, events and filesystem are those of the specification |
| Merger.ProcessEarlyFailures | drama_processor/merger.py:389-426 | A missing video directory, a failed video scan or a failed subtitle scan fails with its message, leaves the filesystem unchanged and reports only the start |
| Merger.ProcessedMerges | drama_processor/merger.py:426-483 | Once both scans succeed, processing goes on to make `merged/` and merge what they found, and there is at least one video |
| Merger.MergedBlocked | drama_processor/merger.py:485-502 | A regular file named `merged` makes `mkdir` raise FileExistsError: the run is FAILED with `处理失败: [Errno 17] File exists: '<path>'`, reports its completion, and writes nothing |
| Merger.MergedCompletes | drama_processor/merger.py:429-483 | After the scans, the run completes exactly when `merged` is not a regular file and there is one video or the concat command succeeds; a failed merge carries ffmpeg's message; subtitles are written exactly when the run completes, subtitles exist and their merge succeeds |
| Merger.MergedOutputs | drama_processor/merger.py:429-453 | The merged video goes to a free path in `merged/` (`merged.mp4` when free); the subtitles to a free `merged.<ext>` path there |
| Merger.ProcessKeeps | drama_processor/merger.py:352-502 | Processing never removes anything from the filesystem |
| Merger.ProcessBatch | drama_processor/merger.py:504-545 | Every directory is processed in order, whatever happened to the ones before |
| Merger.BatchResults | drama_processor/merger.py:504-545 | One result per directory, in order, the i-th being the result for the i-th directory on what the earlier ones left |
| Merger.BatchResultFor | drama_processor/merger.py:526-538 | The i-th result is for the i-th directory and took `clock(i)` |
| Merger.BatchReports | drama_processor/merger.py:528-534 | The progress reports count the directories from 1 to the total, one before each |
| Merger.BatchKeeps | drama_processor/merger.py:504-545 | A batch never removes anything from the filesystem |
| Merger.BatchEndsComplete | drama_processor/merger.py:528-534 | The last progress report of a whole batch is at 100 percent |
| Scanner.MatchesAsWrittenCases | drama_processor/scanner.py:55-64 | The pattern as written accepts a unit name and also a unit name followed by one newline |
| Scanner.TrailingNewlineAccepted | drama_processor/scanner.py:22 | `drama-0001` followed by a newline passes the pattern but is not a unit name |
| Scanner.DramaNames | drama_processor/scanner.py:22 | The unit names are exactly `drama-0000` to `drama-9999`, one per number |
| Scanner.DramaNameOf | drama_processor/scanner.py:22 | `drama-` followed by the number zero-padded to four digits is a unit name carrying that number |
| Scanner.CheckSubdirectory | drama_processor/scanner.py:66-87 | A sub-folder is found exactly when `<unit>/original/<sub>` or `<unit>/<sub>` is a directory |
| Scanner.BuildUnits | drama_processor/scanner.py:89-107 | The loop builds one record per path, in order, each with the path's name and its four sub-folder flags |
| Scanner.CollectUnitPaths | drama_processor/scanner.py:136-144 | The loop keeps exactly the listed entries that are directories whose name the pattern as written matches (a unit name, or one followed by a newline), in listing order |
| Scanner.ScanDramaRoot | drama_processor/scanner.py:109-149 | The method returns the specification's scan: an error for a missing or non-directory root, otherwise the units ScanFinds describes |
| Scanner.SortedUnitsOrdered | drama_processor/scanner.py:146-147 | The records built from sorted paths are in name order |
| Scanner.NewlineNameScanned | drama_processor/scanner.py:136-144 | A directory named `drama-0001` followed by a newline is listed by the scan, although it is not a unit name |
| Scanner.ScanFinds | drama_processor/scanner.py:109-149 | Each unit of a successful scan is a directory below the root whose name the pattern as written matches (a unit name, or one followed by a newline), built from its path; every such directory is listed; there is one record per qualifying listing entry; the names are in order |
| Scanner.ValidDirs | drama_processor/scanner.py:198-238 | The filter never lengthens the list; ValidDirsMembers states which units it keeps |
| Scanner.ValidDirsMembers | drama_processor/scanner.py:198-238 | A unit is kept exactly when the stage accepts it |
| Scanner.ValidDirsAppend | drama_processor/scanner.py:198-238 | Filtering a concatenation filters each part |
| Scanner.StageNamed | drama_processor/scanner.py:263-273 | Exactly `merge`, `separation` and `transcode` name a stage; anything else is the invalid-operation error naming it |
| Scanner.ScanAndValidate | drama_processor/scanner.py:240-273 | The root is scanned first, so its errors come before an unknown operation's; a known operation gives its valid units |
| State.Put | drama_processor/state.py:138-188 | After `d[key] = record` the key maps to the record and every other key keeps its own; a valid table stays valid |
| State.StateKeyIgnoresParent | drama_processor/state.py:98-108 | Units with one name under different parents share their records |
| State.RecordFrom | drama_processor/state.py:64-72 | A stored record is read exactly when its five required fields are present and its status is a known value |
| State.RecordRoundTrip | drama_processor/state.py:64-96 | A record saved and read back is the same record |
| State.LoadCorrupt | drama_processor/state.py:60-75 | A stored record missing a required field or carrying an unknown status makes the whole load an empty store, not just that record |
| State.LoadRaises | drama_processor/state.py:60-75 | A top level that is not a JSON object raises the AttributeError of `items()`; an item that is not an object, reached before any bad record, raises the TypeError of its first field; neither is caught |
| State.LoadStops | drama_processor/state.py:64-72 | Once reading stops on an error, later items change nothing |
| State.SaveLoadRoundTrip | drama_processor/state.py:52-96 | Loading after saving gives back every record, field for field, in the same order |
| State.SummaryFacts | drama_processor/state.py:212-233 | The total is the number of records and is split exactly by the completed, failed and in-progress counts |
| State.PendingMembers | drama_processor/state.py:190-210 | The pending units are exactly the units not done, in input order |
| State.StateManager.constructor | drama_processor/state.py:42-50 | A new manager has an empty store over the given file |
| State.StateManager.LoadState | drama_processor/state.py:52-75 | The store becomes the restored table when loading succeeds (an empty one for a missing or corrupt file); an error that escapes is returned; the file is untouched |
| State.StateManager.SaveState | drama_processor/state.py:77-96 | The store is unchanged and the file now holds its saved form |
| State.StateManager.IsCompleted | drama_processor/state.py:110-136 | A task is done exactly when its key has a COMPLETED record and every recorded output exists |
| State.StateManager.MarkCompleted | drama_processor/state.py:138-162 | The key's record is replaced by a COMPLETED one with the outputs, then the store is saved |
| State.StateManager.MarkFailed | drama_processor/state.py:164-188 | The key's record is replaced by a FAILED one with the error and no outputs, then the store is saved |
| State.StateManager.GetPendingTasks | drama_processor/state.py:190-210 | The result is exactly the units that are not done, in order |
| State.StateManager.GetSummary | drama_processor/state.py:212-233 | The summary is the tally of the table, which SummaryFacts splits |
| State.DoneAfterCompleted | drama_processor/state.py:110-162 | After marking completed, the task is done exactly while all its outputs exist; other keys keep their records |
| State.NotDoneAfterFailed | drama_processor/state.py:164-188 | After marking failed the task is not done, and other keys keep their records |
| ErrorHandling.ClaimsDisjoint | drama_processor/error_handler.py:72-120 | No error is claimed by both the retry and the skip strategy, and the skip strategy claims exactly ValidationErrors |
| ErrorHandling.SkipRecovers | drama_processor/error_handler.py:122-139 | Skipping always succeeds and leaves the context alone |
| ErrorHandling.RetryExhausted | drama_processor/error_handler.py:81-109 | A count already at the limit gives False with no wait and no call |
| ErrorHandling.RetryBadCount | drama_processor/error_handler.py:91-93 | A count that is not an int raises before anything happens |
| ErrorHandling.RetryWithoutOperation | drama_processor/error_handler.py:96-109 | Without a callable operation there is one wait, then False, with the count untouched |
| ErrorHandling.RetryAttempts | drama_processor/error_handler.py:81-109 | With an operation and an int or absent count nothing raises; at most `maxRetries - count` calls are made; the result is True exactly when one of those calls would succeed, and then the last call made is the first success; otherwise the whole budget is spent |
| ErrorHandling.RetryWaits | drama_processor/error_handler.py:96-97 | The earlier waits are kept and one wait is added per call, the j-th being `delay * (count + j + 1)`: linear growth |
| ErrorHandling.TriedStops | drama_processor/error_handler.py:171-182 | Once a strategy has handled the error, later ones are never consulted |
| ErrorHandling.HandledIff | drama_processor/error_handler.py:159-185 | The handler returns True exactly when some strategy claims the error and recovers, from the context earlier strategies left behind |
| ErrorHandling.NoneClaims | drama_processor/error_handler.py:159-185 | When no strategy claims the error, the result is False and the context is untouched |
| ErrorHandling.SkipHandlesValidation | drama_processor/error_handler.py:112-139 | A registered skip strategy handles every ValidationError |
| ErrorHandling.RecoveryContext.RetryRecover | drama_processor/error_handler.py:81-109 | The method's result and context are those of the retry specification, which RetryAttempts and RetryWaits characterise |
| ErrorHandling.RecoveryContext.RecoverWith | drama_processor/error_handler.py:52-62 | The method dispatches to the strategy's recovery |
| ErrorHandling.ErrorHandler.constructor | drama_processor/error_handler.py:148-149 | A new handler has no strategies |
| ErrorHandling.ErrorHandler.AddStrategy | drama_processor/error_handler.py:151-157 | The strategy is appended last |
| ErrorHandling.ErrorHandler.Handle | drama_processor/error_handler.py:159-185 | The result and the final context are those of trying the strategies in order, which HandledIff characterises |
| Progress.PercentageOf | drama_processor/progress.py:66-74 | The percentage lies in [0, 100] while the count stays within the total, and is exactly 100 at a full non-zero total |
| Progress.ReplayAfterReport | drama_processor/progress.py:30-64 | The tracker's state depends only on the last progress report and the file starts after it |
| Progress.ProgressTracker.constructor | drama_processor/progress.py:19-28 | A new tracker keeps the display flag and is at 0 of 0 with no file |
| Progress.ProgressTracker.OnProgress | drama_processor/progress.py:30-42 | The three fields of the report are copied |
| Progress.ProgressTracker.OnFileStart | drama_processor/progress.py:44-52 | Only the current file changes |
| Progress.ProgressTracker.GetProgressPercentage | drama_processor/progress.py:66-74 | 0 for a zero total; within [0, 100] while the count stays within the total; exactly 100 at a full total |
| Progress.ProgressTracker.Reset | drama_processor/progress.py:76-80 | The tracker is back at 0 of 0 with no file |
| Progress.ProgressTracker.Notify | drama_processor/progress.py:30-64 | The state after a callback is the specification's step for that event, so a run of callbacks is the replay ReplayAfterReport describes |
| Report.FailedEntries | drama_processor/report.py:62-65 | One `{path, error}` entry per failed pair, in order |
| Report.SkippedEntries | drama_processor/report.py:66-69 | One `{path, reason}` entry per skipped pair, in order |
| Report.DetailedProcessingReport.constructor | drama_processor/report.py:15-33 | A new report has the operation, start time and total given, no end time and three empty lists |
| Report.DetailedProcessingReport.DurationSeconds | drama_processor/report.py:36-40 | 0 until the end time is set; afterwards the start plus the duration is the end time |
| Report.DetailedProcessingReport.SuccessRate | drama_processor/report.py:43-47 | 0 for no tasks; within [0, 100] while the successes do not exceed the total; exactly 100 when every task succeeded |
| Report.DetailedProcessingReport.ToDict | drama_processor/report.py:49-70 | The dictionary carries the operation, the end time, the total, the three counts, the successful paths and one entry per failed and skipped pair, in order |
| Orchestration.OperationNamed | drama_processor/orchestrator.py:215-224 | The three operation names map to their stages, and anything else is the ValueError |
| Orchestration.OperationNameRoundTrip | drama_processor/orchestrator.py:215-224 | Looking up an operation's name gives the operation back |
| Orchestration.FirstMatchBuilt | drama_processor/orchestrator.py:73-78 | The first unit at a path is the record built from that path |
| Orchestration.FoundWhenNamed | drama_processor/orchestrator.py:73-78 | Scanning the parent of a directory whose name the pattern as written matches finds it |
| Orchestration.NamedWhenFound | drama_processor/orchestrator.py:73-78 | Whatever the scan finds at a path is a directory whose name the pattern as written matches (a unit name, or one followed by a newline) |
| Orchestration.StageAdmits | drama_processor/orchestrator.py:54-99 | An admitted unit goes to the processor, whose result is returned, and a raised exception becomes a FAILED result |
| Orchestration.StageRefuses | drama_processor/orchestrator.py:54-99 | A unit that is not admitted is never processed, gets no callback and returns FAILED with no output |
| Orchestration.StageRejections | drama_processor/orchestrator.py:54-193 | The three ways a stage turns a unit away each carry their own message |
| Orchestration.SequentialResults | drama_processor/orchestrator.py:226-245 | One result per unit, in input order, each the step's result for that unit |
| Orchestration.SequentialAnnounces | drama_processor/orchestrator.py:228-237 | With a callback, every unit's progress report and its start are among the events |
| Orchestration.SequentialEnds | drama_processor/orchestrator.py:247-255 | A successful batch with a callback ends with the report of total of total, after which a progress tracker shows total of total and no file, at 100% when there were units |
| Orchestration.MessageOr | drama_processor/orchestrator.py:473 | An absent or empty message gives way to the fallback |
| Orchestration.WriteBackRecords | drama_processor/orchestrator.py:461-474 | Each recorded (COMPLETED or FAILED) result whose key no later recorded result shares ends up as its key's record, built from the result |
| Orchestration.WriteBackKeeps | drama_processor/orchestrator.py:461-474 | Keys that no recorded result has are left as they were |
| Orchestration.PartitionCounts | drama_processor/orchestrator.py:546-560 | The successful, failed and skipped lists together with the PENDING and IN_PROGRESS results account for every result exactly once |
| Orchestration.PartitionAppend | drama_processor/orchestrator.py:546-560 | Partitioning a concatenation partitions each part, in order |
| Orchestration.SuccessfulMembers | drama_processor/orchestrator.py:546-548 | A path is listed as successful exactly when some COMPLETED result has it |
| Orchestration.Collect | drama_processor/orchestrator.py:546-560 | The loop appends the results' successful paths, failed pairs and skipped pairs to the report's lists, in order, leaving the end time alone |
| Orchestration.Orchestrator.RunOperation | drama_processor/orchestrator.py:54-193 | The result and events are those of the stage, which StageAdmits, StageRefuses and StageRejections describe |
| Orchestration.Orchestrator.ProcessBatch | drama_processor/orchestrator.py:195-262 | The result is the sequential batch: an unknown operation is the ValueError, otherwise the run SequentialResults and SequentialAnnounces describe |
| Orchestration.Orchestrator.ProcessBatchConcurrently | drama_processor/orchestrator.py:302-392 | For any order in which all tasks finish, the result is the concurrent batch: one result per unit, and a unit whose task raised gets a FAILED result with that error; with a callback the calls are those ConcurrentReports describes |
| Orchestration.Orchestrator.RunTask | drama_processor/orchestrator.py:336-358 | One task: its result is the unit's stage result, or FAILED with the escaping error; the count rises exactly when the operation returned; with a callback its calls extend the concurrent events of the tasks finished before it |
| Orchestration.Orchestrator.CollectTasks | drama_processor/orchestrator.py:336-375 | Whatever the completion order, slot `i` holds the result of unit `i`; with a callback the calls made are the concurrent events of that order, the count rising only for tasks that returned |
| Orchestration.CountedBounds | drama_processor/orchestrator.py:321-347 | The shared count never exceeds the tasks finished, and equals it when no task raised |
| Orchestration.ConcurrentEventsLength | drama_processor/orchestrator.py:336-356 | Each finished task makes one start call, and a task that returned makes two more |
| Orchestration.ConcurrentAnnounces | drama_processor/orchestrator.py:336-356 | Every finished task announced its unit, and every task that returned handed its own result to `on_file_complete` |
| Orchestration.ConcurrentEnds | drama_processor/orchestrator.py:345-356 | When no task raised, the last report is the whole batch of the whole batch, so a tracker ends at 100% on the last unit to finish |
| Orchestration.ConcurrentReports | drama_processor/orchestrator.py:302-392 | For any completion order, with a callback: every unit is announced, every unit whose task returned has its result completed, and with no task raising the tracker ends at the whole batch and 100% |
| Orchestration.ResumedAligns | drama_processor/orchestrator.py:425-476 | A resumable batch returns one result per pending unit, aligned with that list |
| Orchestration.ResumableOrchestrator.ProcessBatch | drama_processor/orchestrator.py:425-476 | The result is the resumed batch (ResumedAligns); on success the store becomes the write-back of its results and is saved when anything was recorded, otherwise the file is untouched |
| Orchestration.ResumableOrchestrator.RecordResults | drama_processor/orchestrator.py:461-474 | The store becomes the write-back of the results, saved when any result was recorded, the file untouched otherwise |
| Orchestration.ResumableOrchestrator.RecordOne | drama_processor/orchestrator.py:462-474 | A COMPLETED or FAILED result is put under its key and the store saved; any other result changes nothing |
| Orchestration.ReportingOrchestrator.ProcessBatch | drama_processor/orchestrator.py:517-574 | A fresh report with the operation, start time and number of units given; the results are the sequential batch's; on success the report's lists are the results partitioned in order and the end time is set |
| Entry.ScanPathsSound | drama_processor/main.py:265-266 | Every path the scan lists is a directory directly below the root whose name the pattern as written matches (a unit name, or one followed by a newline) |
| Entry.ScanPathsComplete | drama_processor/main.py:265-266 | Every directory directly below the root whose name the pattern as written matches (a unit name, or one followed by a newline) is listed |
| Entry.ScanListed | drama_processor/main.py:246-266 | Without the `drama-` shortcut, the list is the scan's unit paths |
| Entry.ScanPathsExact | drama_processor/main.py:265-266 | The paths are exactly the directories below the root whose name the pattern as written matches (a unit name, or one followed by a newline) |
| Entry.ScannedDirectories | drama_processor/main.py:246-266 | Without the shortcut, the list holds every directory below the root whose name the pattern as written matches (a unit name, or one followed by a newline), and nothing else |
| Entry.ShortcutIgnoresPattern | drama_processor/main.py:261-262 | A root named `drama-x` is processed although the scanner's pattern does not match it |
| Entry.CompletedCount | drama_processor/main.py:304-309 | The number of COMPLETED results never exceeds the number of results |
| Entry.AllCompleted | drama_processor/main.py:304-309 | The count equals the length exactly when every result is COMPLETED |
| Entry.Setup | drama_processor/main.py:72-158 | `create_orchestrator` fails exactly when resume is on and the state file raises on loading, or reports are on and `report_dir` or one of its ancestors is a regular file (NotADirectoryError for an ancestor, FileExistsError for `report_dir` itself); otherwise the resumable orchestrator holds the loaded store and `report_dir` is created with its missing parents |
| Entry.SetupKeepsValid | drama_processor/main.py:156-158 | After `create_orchestrator` the filesystem is well formed and, with reports on, `report_dir` and all its ancestors are directories |
| Entry.FileAboveReportDirFails | drama_processor/main.py:156-158 | A `report_dir` of `x/reports` with `x` a regular file raises NotADirectoryError and the run fails |
| Paths.FileSystem.MkDirs | drama_processor/main.py:158 | `mkdir(parents=True, exist_ok=True)` fails exactly when the path or one of its ancestors is a regular file, with NotADirectoryError for an ancestor and FileExistsError for the path itself |
| Paths.MkDirsFacts | drama_processor/main.py:158 | A successful `mkdir(parents=True)` keeps the filesystem well formed, makes the path and every ancestor a directory, adds only those, and changes no existing entry's kind |
| Paths.MkDirUnderDir | drama_processor/merger.py:429 | Under a parent that is a directory, as for `merged/`, `cleared/` and `encoded/`, creating the parents is creating the directory alone |
| Entry.RunSucceeds | drama_processor/main.py:269-315 | With the keyword fixed, a run succeeds exactly when `create_orchestrator` returned, units were found on the filesystem it left, and every batch result is COMPLETED |
| Entry.SetupFailureFails | drama_processor/main.py:269-315 | A state file that raises on loading under resume, or a regular file at `report_dir` or above it under reports, makes the run fail, as written and as intended |
| Entry.NotAMappingFails | drama_processor/main.py:72-90 | A state file whose top level is not a JSON object fails every resumed run |
| Entry.RunAsWrittenWithWrapper | drama_processor/main.py:269-315 | The run as written agrees with the fixed run whenever the outer orchestrator is a wrapper |
| Entry.RunWithoutWrappersFails | drama_processor/main.py:294-301 | As written, without resume and report wrappers every run fails, even when all units merge |
| Entry.ReportingWrapper.constructor | drama_processor/main.py:162-174 | The wrapper holds the orchestrator it was given |
| Entry.ReportingWrapper.ProcessBatch | drama_processor/main.py:185-239 | A fresh report with the operation and the number of units; the inner orchestrator's results are returned unchanged (the resume store written back on success), and the report partitions them in order |
| Cli.ParseTranscodeSpecs | drama_processor/cli.py:16-72 | The loop gives one target per argument, or the first argument's error |
| Cli.PrefixErrSticks | drama_processor/cli.py:45-72 | Once a prefix of the arguments fails, the whole list fails with the same error |
| Cli.ParsedInOrder | drama_processor/cli.py:45-72 | On success there is exactly one target per argument, each its parse, in order |
| Cli.ParsedFailsAtFirst | drama_processor/cli.py:45-72 | A failed parse carries the message of the first failing argument |
| Cli.SpecsParsedMeaning | drama_processor/cli.py:16-72 | No argument gives the three defaults; otherwise one target per argument in order, or the first error |
| Cli.PresetNames | drama_processor/cli.py:37-48 | The presets are recognised whatever the case and surrounding blanks |
| Cli.SizeRoundTrip | drama_processor/cli.py:51-62 | `WxH` parses back to the target when both sides are positive, and to the "must be > 0" error otherwise |
| Cli.SizeTextSplits | drama_processor/cli.py:51-56 | A printed `WxH` contains `x` and splits at it into the two printed numbers |
| Cli.SpecErrors | drama_processor/cli.py:51-70 | No preset and no `x` gives the unknown-format error; an `x` text that does not split into exactly two integers gives the bad-format error |
| Cli.ParsedPositive | drama_processor/cli.py:16-72 | Every target parsed has both sides positive |
| Cli.ValidateWorkers | drama_processor/cli.py:100-120 | The value passes unchanged when in 1..32; otherwise the error names the bound it breaks |
| Cli.ValidateLogLevel | drama_processor/cli.py:123-145 | The upper-cased name is accepted when it is one of the five levels; otherwise the error names the value |
| Cli.LogLevelIdempotent | drama_processor/cli.py:123-145 | An accepted level validates to itself |
| Transcoder.NewTranscoder | drama_processor/transcoder.py:32-50 | The presets are used only when no list is given; an empty list stays empty |
| Transcoder.SkipIgnoresWidth | drama_processor/transcoder.py:107-127 | The input's width plays no part in skipping, and no target is ever upscaled in height |
| Transcoder.Transcode | drama_processor/transcoder.py:67-105 | The command run is the encoder's argument list for the target followed by the output path |
| Transcoder.TranscodeArgvIsBuiltList | drama_processor/transcoder.py:88-97 | The command run is exactly the built list followed by the output path |
| Transcoder.TranscodeAll | drama_processor/transcoder.py:186-212 | The loop's outputs, skipped names, filesystem and error are those of the specification, which stops at the first failed encode |
| Transcoder.StoppedRunSticks | drama_processor/transcoder.py:189-209 | Once an encode fails, later targets change nothing |
| Transcoder.SpecsRunAligned | drama_processor/transcoder.py:189-209 | Every target, in order, is either skipped under its name or encoded by its command, never both |
| Transcoder.SpecsRunFresh | drama_processor/transcoder.py:199-209 | Encodes go to distinct paths that did not exist and do afterwards, and nothing existing is lost |
| Transcoder.StepFresh | drama_processor/transcoder.py:199-209 | One pass of the loop keeps the writes fresh: a skipped or failed target writes nothing, an encoded one writes a path that did not exist |
| Transcoder.SkippedNamesMatch | drama_processor/transcoder.py:189-197 | A completed loop records exactly the names of the targets taller than the input and encodes the others |
| Transcoder.CopySubtitles | drama_processor/transcoder.py:216-219 | The copy loop's paths and filesystem are those of the specification |
| Transcoder.CopiedFresh | drama_processor/transcoder.py:216-219 | Every copy lands in the target directory at a new path, no two share one, and nothing is lost |
| Transcoder.CopiedKeepsFreeName | drama_processor/transcoder.py:218 | The first copy keeps its name when that is free |
| Transcoder.CopiedPrefix | drama_processor/transcoder.py:216-219 | Copying a prefix copies it the same way |
| Transcoder.Processed | drama_processor/transcoder.py:129-260 | The result is COMPLETED with `encoded/` or FAILED with its message, for the unit, taking `elapsed` |
| Transcoder.Process | drama_processor/transcoder.py:129-260 | The method's result and filesystem are those of the specification |
| Transcoder.ProcessGuards | drama_processor/transcoder.py:146-172 | Without `cleared/`, or with no `.mp4` in it, the result is the FAILED result naming what is missing, with no encode and the filesystem unchanged |
| Transcoder.ProcessBlocked | drama_processor/transcoder.py:182-260 | A regular file named `encoded` makes `mkdir` raise FileExistsError after the probe: the run is FAILED with `转码失败: [Errno 17] File exists: '<path>'`, before any encode |
| Transcoder.ProcessCompletes | drama_processor/transcoder.py:129-260 | Processing completes exactly when there is a video whose probe succeeds, `encoded` is not a regular file, and no encode fails |
| Transcoder.CompletedRan | drama_processor/transcoder.py:183-219 | A completed run made `encoded/`, ran every target on it without error, and then copied the subtitles |
| Transcoder.CompletedCoversSpecs | drama_processor/transcoder.py:189-209 | A completed run has one fate per target, the skipped ones exactly those taller than the input |
| Transcoder.CompletedWritesFresh | drama_processor/transcoder.py:186-219 | Nothing is lost, and every encode and copy is a new, distinct file |
| Transcoder.ProcessBatch | drama_processor/transcoder.py:262-296 | The loop's results, events and filesystem are those of the batch specification, which processes every directory whatever happened to the ones before |
| Transcoder.BatchResults | drama_processor/transcoder.py:262-296 | For any step whose results are well formed, as processing one directory is, the batch gives one well-formed result per directory, in order, in its time |
| Transcoder.BatchEvents | drama_processor/transcoder.py:279-290 | With a callback, each directory's start and completion in turn, the completion carrying its result; none without one |
| Separator.Clamp01 | drama_processor/separator.py:70 | The volume is held within [0, 1] and kept when already inside |
| Separator.ClampIdempotent | drama_processor/separator.py:70 | Clamping twice is clamping once |
| Separator.SeparatorCheck | drama_processor/separator.py:73-94 | Spleeter is available exactly when `spleeter --help` exits 0 or times out; a missing program and a non-zero exit are each their own error |
| Separator.LongPathChoice | drama_processor/separator.py:153-170 | The segmented path is taken exactly when a duration was measured and it exceeds 600 seconds |
| Separator.SpleeterDuration | drama_processor/separator.py:194-202 | With a non-negative duration d, Spleeter is told to process `int(d) + 1` seconds, just before the audio path |
| Separator.SpleeterError | drama_processor/separator.py:236-251 | A run succeeds exactly when Spleeter exits 0 and wrote both stems; a kill (-9) and a missing vocals file give their own errors |
| Separator.WithSpleeterHolds | drama_processor/separator.py:180-285 | A successful run returns the mix (or bare vocals at volume 0) and the accompaniment stem |
| Separator.MixedLevel | drama_processor/separator.py:279-285 | Mixing vocals at level a with a full accompaniment at volume v gives level a + v |
| Separator.JoinedLevel | drama_processor/separator.py:356-357 | Concatenating segments that all carry level x carries level x |
| Separator.SegmentPlan | drama_processor/separator.py:305-319 | Long audio is cut into at least two segments, each starting where the previous ended and the last lasting at least 1 and under 481 seconds, together covering the whole duration |
| Separator.SeparateSegments | drama_processor/separator.py:319-351 | The segment loop separates each segment in order and stops at the first failure |
| Separator.SegmentErrorSticks | drama_processor/separator.py:319-351 | Once a segment fails, later rounds change nothing |
| Separator.SegmentsAligned | drama_processor/separator.py:319-351 | Without an error, round i contributed the i-th entry of every list |
| Separator.JoinSegmentsHolds | drama_processor/separator.py:356-366 | A successful long separation returns the joined vocals, mixed again with the joined accompaniments when the volume is positive |
| Separator.SegmentsMixedTwice | drama_processor/separator.py:279-285 | As written, long audio with volume v > 0 carries the accompaniment at level 2v |
| Separator.SegmentsMixedOnce | drama_processor/separator.py:356-366 | With segments separated unmixed, the long path carries exactly level v |
| Separator.SeparateVocalsLevel | drama_processor/separator.py:134-178 | As written, the returned vocals carry the accompaniment at the configured level v for audio of at most 600 seconds and at 2v for longer audio, whose segments are each mixed before the joined result is mixed again |
| Separator.SeparatedLevel | drama_processor/separator.py:134-178 | With the segments separated unmixed, as intended, the returned vocals carry the accompaniment at exactly the configured level on both paths |
| Separator.LongStepsCarry | drama_processor/separator.py:336-345 | Each segment separated by `_separate_with_spleeter` carries the accompaniment at the configured volume, and a segment separated unmixed carries none |
| Separator.AudioCommands | drama_processor/separator.py:96-132 | The extract, replace, mix and segment commands read their inputs after `-i`, then their options, and write the output last |
| Separator.ReplaceProgress.OnProgress | drama_processor/separator.py:535-540 | A report is logged when its 5% bucket passes the last logged one or it is past 95%, and the bucket is then remembered |
| Separator.ThrottledSteps | drama_processor/separator.py:535-540 | Up to 95%, the last logged bucket is a multiple of 5 between 0 and 95 and at least five times the number of reports logged |
| Separator.ThrottleBound | drama_processor/separator.py:535-540 | At most 19 reports up to 95% are logged; every report past 95% is |
| Separator.CopySubtitles | drama_processor/separator.py:647-654 | The copy loop's paths and filesystem are those of the specification |
| Separator.SubtitlesCopiedFacts | drama_processor/separator.py:647-654 | One copy per subtitle present, in `cleared/`, at a path free before, with nothing lost |
| Separator.Separate | drama_processor/separator.py:584-654 | A success's output is in `cleared/` |
| Separator.SeparateVideo | drama_processor/separator.py:616-654 | The new video is in `cleared/` |
| Separator.SeparateVideoFacts | drama_processor/separator.py:616-654 | A video is done exactly when extraction, separation and replacement succeed; it is then at a free path, with subtitles only on success |
| Separator.Processed | drama_processor/separator.py:546-688 | Every result is well formed: COMPLETED with an output in `cleared/`, or FAILED with an error |
| Separator.ProcessGuards | drama_processor/separator.py:584-620 | Every result is COMPLETED or FAILED for the unit in its time, with start and completion events under a callback; without `merged/`, without a video in it, or with a regular file named `cleared` (FileExistsError from `ensure_directory`), processing fails with its message and creates nothing |
| Separator.ProcessCompletes | drama_processor/separator.py:546-688 | Processing completes exactly when there is a video, `cleared` is not a regular file, and its audio is extracted, separated and put back; the output is then a new file |
| Separator.SeparateFacts | drama_processor/separator.py:584-654 | The body of the `try` succeeds exactly when the checks pass, `cleared/` can be made and the video's steps succeed; its output is then a new file in `cleared/`, and a failure copies nothing |
| Separator.ProcessedLevel | drama_processor/separator.py:546-688 | As written, a completed video carries the accompaniment at the configured volume v when its audio lasts at most 600 seconds, and at 2v when it is longer |
| Separator.IntendedProcessedLevel | drama_processor/separator.py:546-688 | Processing with the intended separation gives every completed video the accompaniment at the configured volume, whatever its length |
| Separator.BatchResults | drama_processor/separator.py:690-729 | One well-formed result per directory, in order, in its time |
| Separator.BatchEvents | drama_processor/separator.py:710-722 | With a callback, each directory has a progress report numbered from 1, its start, and its completion; none without one |
| Separator.AudioSeparator.constructor | drama_processor/separator.py:44-71 | The volume is clamped and the check has not run |
| Separator.AudioSeparator.CheckOnce | drama_processor/separator.py:570-572 | The check runs only until it has passed |
| Separator.AudioSeparator.Process | drama_processor/separator.py:546-688 | A failed first check is the error; otherwise the result is that of processing the one directory, and the check is remembered once passed |
| Separator.AudioSeparator.ProcessBatch | drama_processor/separator.py:690-729 | An empty batch never checks; a failed first check is the error; otherwise the result is the batch run over every directory, and the check is remembered once passed |

## Left out

- Logging and printed summaries are not modelled. Nothing they do feeds back into a result.
- Entry.RunSucceeds: the writes of `report.save_to_file` (main.py:229, report.py:78-80) and of `StateManager.save_state` are not modelled. Any exception from them, such as a directory standing where the report or state file goes, also makes `run_*` return False (main.py:311-315), and the model does not capture that. The state-file load and the `report_dir` mkdir of `create_orchestrator` are modelled (Entry.Setup).
- Merger.ProcessKeeps: `concat_list.txt` is neither written nor deleted in the model. The source writes it beside the output and unlinks it in `finally` (merger.py:212-216, 239-242), so a `merged/concat_list.txt` that existed before the run is gone afterwards. The lemma does not hold for that one path.
- Merger.BatchKeeps: the same gap as Merger.ProcessKeeps. Each merge in the batch unlinks `merged/concat_list.txt` if it existed before.
- Text.ParseFloat: accepts only an optional sign and digits with at most one `.`. Python's `float()` also accepts an exponent (`1e1`), `inf`, `infinity`, `nan` and `_` between digits. So an ASS time `0:00:1e1`, which the source reads as 10 s, is dropped by the model. An SRT time `00:00:01,5e2`, which the source reads as 150 s, is rejected. Text.ParseUnsignedDecimal shares this limit.
- Orchestration.Stages: the orchestrators call `merge`, `separate` and `transcode` through the `Stages` parameter. Each stage is a function from the unit to its callback calls and to the result it returns or the exception it raises. Merger.Processed, Separator.Processed and Transcoder.Processed are not plugged into it. Every unit of a batch sees the same filesystem. What one unit's processing writes is not passed to the next unit, and the stages do not interact, in sequence or under concurrency. The `Sequential*`, `Concurrent*` and `Resumed*` lemmas hold for any stage functions. The per-stage batches (Merger.ProcessBatch, Separator.AudioSeparator.ProcessBatch, Transcoder.ProcessBatch) do pass the filesystem from one unit to the next.
- Threads, locks and the thread pool are not modelled. `ConcurrentOrchestrator` is modelled by the order in which tasks finish, which is a parameter.
- Orchestration.ConcurrentBatch: each task's callback calls are modelled together, in the order the tasks finish. A pool thread's `on_file_start` made while another task is still running is not placed between that task's calls. The resumable and entry paths fix the completion order as the submission order.
- The wall clock is a parameter: each unit's duration is given as `clock(i)` or `elapsed`.
- ffmpeg, ffprobe, Spleeter and the GPU probes are function parameters giving what each returns for its arguments. Their error texts are opaque strings.
- A partial output that ffmpeg leaves behind on failure is not modelled.
- The click wiring of the command-line commands (cli.py:197-710) is not modelled; only the validators and the target parser are.
- cli.py:539 passes `enable_gpu` and `preset` keywords that `run_transcode` does not take. This is command-line wiring and is not modelled.
- Temporary directories, `shutil.rmtree` and `unlink` cleanup are not modelled. The temporary directory is a parameter.
- `FileManager.copy_file`, `get_file_size`, `get_directory_size` and `clean_directory` are plain I/O and are not modelled. A copy is modelled as adding a file.
- Scanner.IsDramaName: ASCII digits only. Python's `\d` also matches other Unicode decimal digits, so a name such as `drama-١٢٣٤` is a unit for the source but not for the model. Scanner.MatchesAsWritten and Scanner.DramaNames share this limit.
- DramaNames: the ten thousand names proved are the ASCII ones; see Scanner.IsDramaName.
- Sorter.NaturalSortKey: ASCII only. `\d` runs of other Unicode digits and `str.lower()` of non-ASCII letters (`Äb` against `äa`) are not modelled.
- NaturalSortKey: see Sorter.NaturalSortKey.
- Sorter.ExtractNumber: ASCII digits only. `re.findall(r'\d+')` and `int()` also read other Unicode decimal digits.
- ExtractNumber: see Sorter.ExtractNumber.
- Cli.ValidateLogLevel: `str.upper()` is modelled on ASCII letters. Python also maps some other letters onto the level names, so `ınfo` (dotless i) is accepted by the source and rejected by the model.
- ValidateLogLevel: see Cli.ValidateLogLevel.
- Text.Strip: strips ASCII whitespace only. Python's `str.strip()` also strips other Unicode whitespace.
- ScanVideoSegments: when the stems cannot be ordered, the TypeError message always names `'int' and 'str'`. CPython names the operands in the order its sort compares them, so a listing such as `1.mp4`, `a.mp4` gives `'str' and 'int'`. Merger.VideoScan shares this.
- Sorter.ValidateSequence: the branch with no missing number is proved unreachable (Sorter.MissingEmpty), so its message is not modelled.
- Text.ParseIntDigits: `int()` of text with underscores or non-ASCII digits is not modelled.
- Floats are printed through a `showFloat` parameter rather than Python's `str()` of a float.
- Subtitle.AssTimeFields: `%05.2f` is modelled as half-up rounding on exact reals. Binary float ties are not modelled.
- State.LoadCorrupt: covers only the errors `load_state` catches. The JSON decoder is not modelled: a state file is given already parsed, as missing, unreadable, an object or another JSON value. Values that are not objects raise, as State.LoadRaises states.
- Orchestration.ResumableOrchestrator.ProcessBatch: it returns an empty list when nothing is pending, before the operation name is checked. This is modelled as written.
- Report: `total_tasks` is fixed by the units given to the batch, even when a resumed batch returns fewer results. This is modelled as written.
- ErrorHandling: the error handler is never called by the orchestrators or stages. It is modelled on its own.
- ErrorHandling.RetryWaits: the back-off is linear, as written, not exponential.
- Transcoder: `glob` order is the listing order of the filesystem model. A failed subtitle copy and a probe result without `width`/`height` keys are not modelled.
- Separator.AudioSeparator.Process: `_check_separator_available` is called outside the `try` of `process`. Its error escapes as an `Err`; no FAILED result is produced.
- Separator: the existence checks inside `extract_audio`, `separate_vocals` and `replace_audio` are not modelled. Their inputs are always the files the previous step wrote.
- Separator: the duration warnings are not modelled.
- Separator: the content of the concat list used to join audio segments is not modelled.
- Separator: the sample-level content of audio is not modelled. Only the accompaniment level a track carries is tracked.
- Separator: amix normalisation is not modelled.
- Separator.BatchEvents: when the check fails on the first unit, the progress report the callback received before it is not part of the `Err` result.
- Separator.ReplaceProgress.OnProgress: the throttle is attached only when the video's duration is known. It only logs, so whether it is attached is not modelled.
- Entry.ScanListed: the shortcut that takes a root named `drama-...` as the only unit (main.py:261-262) is modelled, but no property beyond Entry.ShortcutIgnoresPattern is proved about it.
- AssSubtitle.AssParser.Parse: a file keeps a snapshot of its parser's header and styles, not a reference to the parser object. Nothing mutates the parser after parsing, so the two agree.

## Findings

| source | as written | input that shows it | evidently intended | confidence | as-written member | corrected member |
|---|---|---|---|---|---|---|
| drama_processor/scanner.py:22 | `re.match` with a pattern ending in `$` also accepts a unit name followed by a newline | a directory named `drama-0001` followed by `\n` | only `drama-` and four digits (`\Z` or `fullmatch`) | not executed | Scanner.NewlineNameScanned | Scanner.DramaNames |
| drama_processor/main.py:294-301 | `run_merge`, `run_separate` and `run_transcode` pass `skip_completed=` to `process_batch`, which the plain orchestrators do not accept; the TypeError is caught and the run returns False | `enable_resume=False` and `generate_report=False`, with every unit merging successfully | the keyword passed only to orchestrators that take it, and success when every result is COMPLETED | not executed | Entry.RunWithoutWrappersFails | Entry.RunSucceeds |
| drama_processor/separator.py:279-285 | long audio is cut into segments whose Spleeter runs already mix in the accompaniment; the joined vocals are then mixed with the joined accompaniment again (separator.py:360-366) | accompaniment volume 0.2 and audio longer than 600 seconds: level 0.4 | the configured level on both paths | not executed | Separator.SeparateVocalsLevel | Separator.SeparatedLevel |
