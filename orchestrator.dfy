// orchestrator.py: running one stage on one unit without ever raising, and
// the batch drivers built on it: sequential, concurrent (results placed by
// submission index), resumable (pending filter and state write-back) and
// reporting (results partitioned into the report's lists).
//
// The three stage processors (merger, separator, transcoder) are oracles
// here: for a unit they give the callback calls they make and either the
// result they return or the text of the exception they raise. Their effects
// on the filesystem are not threaded from one unit to the next.
module Orchestration {
  import opened Results
  import opened Paths
  import opened Models
  import Scanner
  import State
  import Report
  import Progress

  /** The keys of `operation_map`. */
  datatype Operation = MergeOp | SeparateOp | TranscodeOp

  function OperationName(o: Operation): string
  {
    match o
    case MergeOp => "merge"
    case SeparateOp => "separate"
    case TranscodeOp => "transcode"
  }

  function UnsupportedOperation(name: string): string
  {
    "不支持的操作类型: " + name
  }

  /** `operation_map[operation]`, or the ValueError raised for an unknown name. */
  function OperationNamed(name: string): (r: Result<Operation>)
    ensures r.Ok? <==> name == "merge" || name == "separate" || name == "transcode"
    ensures r.Ok? ==> OperationName(r.value) == name
    ensures r.Err? ==> r.error == UnsupportedOperation(name)
  {
    if name == "merge" then Ok(MergeOp)
    else if name == "separate" then Ok(SeparateOp)
    else if name == "transcode" then Ok(TranscodeOp)
    else Err(UnsupportedOperation(name))
  }

  lemma OperationNameRoundTrip(o: Operation)
    ensures OperationNamed(OperationName(o)) == Ok(o)
  {
  }

  /** The eligibility check each operation applies. */
  function StageOf(o: Operation): Scanner.Stage
  {
    match o
    case MergeOp => Scanner.Merge
    case SeparateOp => Scanner.Separation
    case TranscodeOp => Scanner.Transcode
  }

  function NotADramaUnit(drama: Path): string
  {
    "目录不符合 drama-XXXX 命名模式: " + ToString(drama)
  }

  function Unsuitable(o: Operation, drama: Path): string
  {
    match o
    case MergeOp => "目录结构不适合合并操作: " + ToString(drama)
    case SeparateOp => "目录结构不适合音频分离操作: " + ToString(drama)
    case TranscodeOp => "目录结构不适合转码操作: " + ToString(drama)
  }

  // ---------------------------------------------------------------------
  // One unit

  datatype HandlerOutcome = Returned(result: ProcessingResult) | Raised(message: string)

  /** What a stage processor does for a unit: its callback calls, then its outcome. */
  datatype HandlerRun = HandlerRun(events: seq<ProgressEvent>, outcome: HandlerOutcome)

  /** `merger.process`, `separator.process` and `transcoder.process`. */
  datatype Stages = Stages(merger: Path -> HandlerRun, separator: Path -> HandlerRun, transcoder: Path -> HandlerRun)

  function Handler(stages: Stages, o: Operation): Path -> HandlerRun
  {
    match o
    case MergeOp => stages.merger
    case SeparateOp => stages.separator
    case TranscodeOp => stages.transcoder
  }

  /** The callback calls made for a unit and the result returned for it. */
  datatype StageRun = StageRun(events: seq<ProgressEvent>, result: ProcessingResult)

  /** `[d for d in drama_info if d.path == drama_dir]`, first element. */
  function FirstMatch(units: seq<DramaDirectory>, drama: Path): (r: Option<DramaDirectory>)
    ensures r.Some? <==> exists i :: 0 <= i < |units| && units[i].path == drama
    ensures r.Some? ==> r.value in units && r.value.path == drama
  {
    if units == [] then None
    else if units[0].path == drama then Some(units[0])
    else
      var rest := FirstMatch(units[1..], drama);
      assert forall i :: 1 <= i < |units| ==> units[i] == units[1..][i - 1];
      rest
  }

  /**
   * `merge` / `separate` / `transcode`: scan the unit's parent, find the unit
   * among the results, check the stage's eligibility, then hand over to the
   * processor. Every exception on the way, the processor's included, becomes
   * a FAILED result for the unit; `elapsed` is the time since the start.
   */
  function RunStage(fs: FileSystem, stages: Stages, o: Operation, drama: Path, elapsed: real): StageRun
  {
    match Scanner.DramaScan(fs, Parent(drama))
    case Err(e) => StageRun([], FailedResult(drama, e, elapsed))
    case Ok(units) =>
      match FirstMatch(units, drama)
      case None => StageRun([], FailedResult(drama, NotADramaUnit(drama), elapsed))
      case Some(d) =>
        if !Scanner.ValidFor(StageOf(o), d) then StageRun([], FailedResult(drama, Unsuitable(o, drama), elapsed))
        else
          var run := Handler(stages, o)(drama);
          match run.outcome
          case Returned(r) => StageRun(run.events, r)
          case Raised(m) => StageRun(run.events, FailedResult(drama, m, elapsed))
  }

  /** A unit the stage accepts: a unit directory by name, eligible for the operation. */
  predicate Admitted(fs: FileSystem, o: Operation, drama: Path)
  {
    |drama| > 0 && fs.IsDir(drama) && Scanner.MatchesAsWritten(Name(drama))
    && Scanner.ValidFor(StageOf(o), Scanner.CreateDramaDirectory(fs, drama))
  }

  /** The first unit at a path is the record built from it, when every unit is built from its path. */
  lemma FirstMatchBuilt(fs: FileSystem, units: seq<DramaDirectory>, drama: Path)
    requires forall i :: 0 <= i < |units| ==> units[i] == Scanner.CreateDramaDirectory(fs, units[i].path)
    requires exists i :: 0 <= i < |units| && units[i].path == drama
    ensures FirstMatch(units, drama) == Some(Scanner.CreateDramaDirectory(fs, drama))
  {
  }

  /** The scan of a directory unit's parent finds it, as the record built from its path. */
  lemma FoundWhenNamed(fs: FileSystem, drama: Path)
    requires fs.Valid() && |drama| > 0 && fs.IsDir(drama) && Scanner.MatchesAsWritten(Name(drama))
    ensures Scanner.DramaScan(fs, Parent(drama)).Ok?
    ensures FirstMatch(Scanner.DramaScan(fs, Parent(drama)).value, drama) == Some(Scanner.CreateDramaDirectory(fs, drama))
  {
    var root := Parent(drama);
    assert fs.IsDir(root) by {
      assert drama in fs.listing;
      if |drama| > 1 {
        assert root in fs.isDir && fs.isDir[root];
      }
    }
    var units := Scanner.DramaScan(fs, root).value;
    Scanner.ScanFinds(fs, root, units);
    assert drama in fs.Children(root);
    FirstMatchBuilt(fs, units, drama);
  }

  /** Whatever the scan of a path's parent finds at that path is a directory whose name the scanner's pattern, as written, matches. */
  lemma NamedWhenFound(fs: FileSystem, drama: Path)
    requires Scanner.DramaScan(fs, Parent(drama)).Ok? && FirstMatch(Scanner.DramaScan(fs, Parent(drama)).value, drama).Some?
    ensures |drama| > 0 && fs.IsDir(drama) && Scanner.MatchesAsWritten(Name(drama))
  {
    var units := Scanner.DramaScan(fs, Parent(drama)).value;
    Scanner.ScanFinds(fs, Parent(drama), units);
    var i :| 0 <= i < |units| && units[i] == FirstMatch(units, drama).value;
    assert units[i] == Scanner.CreateDramaDirectory(fs, drama);
    assert Scanner.MatchesAsWritten(Name(drama));
  }

  /**
   * A stage hands an admitted unit to its processor and returns what the
   * processor returned, a raised exception becoming a FAILED result.
   */
  lemma StageAdmits(fs: FileSystem, stages: Stages, o: Operation, drama: Path, elapsed: real, s: StageRun)
    requires fs.Valid() && s == RunStage(fs, stages, o, drama, elapsed) && Admitted(fs, o, drama)
    ensures var run := Handler(stages, o)(drama);
      s.events == run.events
      && s.result == (match run.outcome
                      case Returned(r) => r
                      case Raised(m) => FailedResult(drama, m, elapsed))
  {
    FoundWhenNamed(fs, drama);
  }

  /**
   * A stage never raises: a unit that is not admitted is never handed over,
   * gets no callback, and comes back as a FAILED result with no output.
   */
  lemma StageRefuses(fs: FileSystem, stages: Stages, o: Operation, drama: Path, elapsed: real, s: StageRun)
    requires fs.Valid() && s == RunStage(fs, stages, o, drama, elapsed) && !Admitted(fs, o, drama)
    ensures s.events == [] && s.result.status == Failed && s.result.inputPath == drama
            && s.result.outputPath.None? && s.result.errorMessage.Some? && s.result.durationSeconds == elapsed
  {
    if |drama| > 0 && fs.IsDir(drama) && Scanner.MatchesAsWritten(Name(drama)) {
      FoundWhenNamed(fs, drama);
    } else if Scanner.DramaScan(fs, Parent(drama)).Ok? && FirstMatch(Scanner.DramaScan(fs, Parent(drama)).value, drama).Some? {
      NamedWhenFound(fs, drama);
    }
  }

  /** The three ways a stage turns a unit away, each with its own message. */
  lemma StageRejections(fs: FileSystem, stages: Stages, o: Operation, drama: Path, elapsed: real)
    ensures Scanner.DramaScan(fs, Parent(drama)).Err?
            ==> RunStage(fs, stages, o, drama, elapsed).result.errorMessage == Some(Scanner.DramaScan(fs, Parent(drama)).error)
    ensures Scanner.DramaScan(fs, Parent(drama)).Ok? && FirstMatch(Scanner.DramaScan(fs, Parent(drama)).value, drama).None?
            ==> RunStage(fs, stages, o, drama, elapsed).result.errorMessage == Some(NotADramaUnit(drama))
    ensures Scanner.DramaScan(fs, Parent(drama)).Ok? && FirstMatch(Scanner.DramaScan(fs, Parent(drama)).value, drama).Some?
            && !Scanner.ValidFor(StageOf(o), FirstMatch(Scanner.DramaScan(fs, Parent(drama)).value, drama).value)
            ==> RunStage(fs, stages, o, drama, elapsed).result.errorMessage == Some(Unsuitable(o, drama))
  {
  }

  /** A stage as a step of a batch. */
  function StageStep(fs: FileSystem, stages: Stages, o: Operation): (Path, real) -> StageRun
  {
    (drama: Path, elapsed: real) => RunStage(fs, stages, o, drama, elapsed)
  }

  // ---------------------------------------------------------------------
  // The sequential batch

  datatype BatchRun = BatchRun(results: seq<ProcessingResult>, events: seq<ProgressEvent>)

  /** The report made before unit `i` of `total`. */
  function UnitProgress(i: nat, total: nat, drama: Path): ProgressEvent
    requires i < total
  {
    OnProgress(ProgressInfo(i, total, Name(drama), Percentage(i, total)))
  }

  /** The report made after the last unit. */
  function FinalProgress(total: nat): ProgressEvent
  {
    OnProgress(ProgressInfo(total, total, "", 100.0))
  }

  /** The callback calls around unit `i`: report, start, the processor's own calls, completion. */
  function UnitEvents(i: nat, total: nat, drama: Path, run: StageRun): seq<ProgressEvent>
    requires i < total
  {
    [UnitProgress(i, total, drama), OnFileStart(Name(drama))] + run.events + [OnFileComplete(run.result)]
  }

  /**
   * The loop of `process_batch` over the first units of a batch of `total`;
   * without a callback nothing is reported and the processors get none.
   */
  function Sequential(dramas: seq<Path>, total: nat, step: (Path, real) -> StageRun, clock: nat -> real, callback: bool): BatchRun
    requires |dramas| <= total
  {
    if dramas == [] then BatchRun([], [])
    else
      var i := |dramas| - 1;
      var before := Sequential(dramas[..i], total, step, clock, callback);
      var run := step(dramas[i], clock(i));
      BatchRun(before.results + [run.result], before.events + (if callback then UnitEvents(i, total, dramas[i], run) else []))
  }

  /** `Orchestrator.process_batch`: the operation is checked before any unit is touched. */
  function SequentialBatch(fs: FileSystem, stages: Stages, dramas: seq<Path>, operation: string, callback: bool, clock: nat -> real): Result<BatchRun>
  {
    match OperationNamed(operation)
    case Err(e) => Err(e)
    case Ok(o) =>
      var b := Sequential(dramas, |dramas|, StageStep(fs, stages, o), clock, callback);
      Ok(if callback then b.(events := b.events + [FinalProgress(|dramas|)]) else b)
  }

  /** One more unit of the loop. */
  lemma SequentialSnoc(dramas: seq<Path>, total: nat, step: (Path, real) -> StageRun, clock: nat -> real, callback: bool, i: nat, run: StageRun)
    requires i < |dramas| <= total && run == step(dramas[i], clock(i))
    ensures var before := Sequential(dramas[..i], total, step, clock, callback);
      Sequential(dramas[..i + 1], total, step, clock, callback)
      == BatchRun(before.results + [run.result], before.events + (if callback then UnitEvents(i, total, dramas[i], run) else []))
  {
    assert dramas[..i + 1][..i] == dramas[..i];
  }

  /** One result per unit, in input order, each the step's result for that unit. */
  lemma {:induction false} SequentialResults(dramas: seq<Path>, total: nat, step: (Path, real) -> StageRun, clock: nat -> real, callback: bool, i: nat)
    requires |dramas| <= total && i < |dramas|
    ensures |Sequential(dramas, total, step, clock, callback).results| == |dramas|
    ensures Sequential(dramas, total, step, clock, callback).results[i] == step(dramas[i], clock(i)).result
  {
    var n := |dramas| - 1;
    assert dramas[..n][..n] == dramas[..n];
    if i < n {
      assert dramas[..n][i] == dramas[i];
      SequentialResults(dramas[..n], total, step, clock, callback, i);
    } else if n > 0 {
      SequentialResults(dramas[..n], total, step, clock, callback, n - 1);
    }
  }

  /** Every unit is announced to the callback, with its position and share, before it starts. */
  lemma {:induction false} SequentialAnnounces(dramas: seq<Path>, total: nat, step: (Path, real) -> StageRun, clock: nat -> real, i: nat)
    requires |dramas| <= total && i < |dramas|
    ensures UnitProgress(i, total, dramas[i]) in Sequential(dramas, total, step, clock, true).events
    ensures OnFileStart(Name(dramas[i])) in Sequential(dramas, total, step, clock, true).events
  {
    var n := |dramas| - 1;
    var before := Sequential(dramas[..n], total, step, clock, true);
    var unit := UnitEvents(n, total, dramas[n], step(dramas[n], clock(n)));
    assert Sequential(dramas, total, step, clock, true).events == before.events + unit;
    if i < n {
      assert dramas[..n][i] == dramas[i];
      SequentialAnnounces(dramas[..n], total, step, clock, i);
    } else {
      assert unit[0] == UnitProgress(i, total, dramas[i]) && unit[1] == OnFileStart(Name(dramas[i]));
    }
  }

  /**
   * A batch run with a callback ends with a report of `total` of `total` at
   * 100%, which a progress tracker then shows whatever it showed before.
   */
  lemma SequentialEnds(fs: FileSystem, stages: Stages, dramas: seq<Path>, operation: string, clock: nat -> real, s: Progress.TrackerState)
    requires SequentialBatch(fs, stages, dramas, operation, true, clock).Ok?
    ensures var events := SequentialBatch(fs, stages, dramas, operation, true, clock).value.events;
      && |events| > 0 && events[|events| - 1] == FinalProgress(|dramas|)
      && Progress.Replay(s, events) == Progress.TrackerState(|dramas|, |dramas|, "")
      && (|dramas| > 0 ==> Progress.PercentageOf(Progress.Replay(s, events)) == 100.0)
  {
    var events := SequentialBatch(fs, stages, dramas, operation, true, clock).value.events;
    Progress.ReplayAfterReport(s, events[..|events| - 1], ProgressInfo(|dramas|, |dramas|, "", 100.0), []);
    assert events[..|events| - 1] + [FinalProgress(|dramas|)] + [] == events;
  }

  // ---------------------------------------------------------------------
  // The concurrent batch

  /**
   * The result stored for the unit submitted at index `i`: what the stage
   * returned, or, when an exception escaped the worker (`escaped(i)`), a
   * FAILED result with duration 0.
   */
  function TaskResult(fs: FileSystem, stages: Stages, o: Operation, dramas: seq<Path>, escaped: nat -> Option<string>, clock: nat -> real, i: nat): ProcessingResult
    requires i < |dramas|
  {
    if escaped(i).Some? then FailedResult(dramas[i], escaped(i).value, 0.0)
    else RunStage(fs, stages, o, dramas[i], clock(i)).result
  }

  /** Every index in `order` names a unit of a batch of `n`. */
  predicate InBatch(order: seq<nat>, n: nat)
  {
    forall k :: 0 <= k < |order| ==> order[k] < n
  }

  /**
   * `completed_count` after the tasks in `order` have finished: a task whose
   * operation raised never reaches the locked update, so it is not counted.
   */
  function Counted(order: seq<nat>, escaped: nat -> Option<string>): nat
  {
    if order == [] then 0
    else Counted(order[..|order| - 1], escaped) + (if escaped(order[|order| - 1]).None? then 1 else 0)
  }

  /**
   * The callback calls of the last task in `order`: `on_file_start` before
   * the operation, then, if the operation returned, the count is raised and
   * `on_progress` and `on_file_complete` are made together under the lock.
   */
  function TaskEvents(dramas: seq<Path>, results: seq<ProcessingResult>, escaped: nat -> Option<string>, order: seq<nat>): seq<ProgressEvent>
    requires |order| > 0 && order[|order| - 1] < |dramas| == |results|
  {
    var i := order[|order| - 1];
    var c := Counted(order, escaped);
    [OnFileStart(Name(dramas[i]))]
    + if escaped(i).Some? then []
      else [OnProgress(ProgressInfo(c, |dramas|, Name(dramas[i]), Percentage(c, |dramas|))),
            OnFileComplete(results[i])]
  }

  /**
   * The callback calls of the tasks in `order`, each task's calls together,
   * in the order the tasks finish.
   */
  function ConcurrentEvents(dramas: seq<Path>, results: seq<ProcessingResult>, escaped: nat -> Option<string>, order: seq<nat>): seq<ProgressEvent>
    requires InBatch(order, |dramas|) && |results| == |dramas|
  {
    if order == [] then []
    else ConcurrentEvents(dramas, results, escaped, order[..|order| - 1]) + TaskEvents(dramas, results, escaped, order)
  }

  /** The result stored for each submitted unit, in submission order. */
  function TaskResults(fs: FileSystem, stages: Stages, o: Operation, dramas: seq<Path>, escaped: nat -> Option<string>, clock: nat -> real): (r: seq<ProcessingResult>)
    ensures |r| == |dramas|
  {
    seq(|dramas|, i requires 0 <= i < |dramas| => TaskResult(fs, stages, o, dramas, escaped, clock, i))
  }

  /**
   * `ConcurrentOrchestrator.process_batch` when the tasks finish in `order`:
   * the results, whatever that order, and with a callback the calls each
   * task makes on it (the operations themselves get no callback).
   */
  function ConcurrentBatch(fs: FileSystem, stages: Stages, dramas: seq<Path>, operation: string, order: seq<nat>, callback: bool,
                           escaped: nat -> Option<string>, clock: nat -> real): Result<BatchRun>
    requires InBatch(order, |dramas|)
  {
    match OperationNamed(operation)
    case Err(e) => Err(e)
    case Ok(o) =>
      var results := TaskResults(fs, stages, o, dramas, escaped, clock);
      Ok(BatchRun(results, if callback then ConcurrentEvents(dramas, results, escaped, order) else []))
  }

  /** An order in which `as_completed` can yield the futures: each index, none outside. */
  predicate CompletionOrder(order: seq<nat>, n: nat)
  {
    |order| == n && (forall k :: 0 <= k < |order| ==> order[k] < n) && forall i :: 0 <= i < n ==> i in order
  }

  /** The tasks finished after `k + 1` completions are those after `k` and the next one. */
  lemma CompletedNext(order: seq<nat>, k: nat)
    requires k < |order|
    ensures forall i :: i in order[..k + 1] <==> i in order[..k] || i == order[k]
  {
    assert order[..k + 1] == order[..k] + [order[k]];
  }

  function Indices(n: nat): (r: seq<nat>)
    ensures |r| == n && forall i :: 0 <= i < n ==> r[i] == i
  {
    if n == 0 then [] else Indices(n - 1) + [n - 1]
  }

  lemma IndicesComplete(n: nat)
    ensures CompletionOrder(Indices(n), n)
  {
    var r := Indices(n);
    forall i | 0 <= i < n
      ensures i in r
    {
      assert r[i] == i;
    }
  }

  /** One more finished task: its calls follow those of the tasks before it. */
  lemma NextTask(dramas: seq<Path>, results: seq<ProcessingResult>, escaped: nat -> Option<string>, order: seq<nat>, k: nat)
    requires InBatch(order, |dramas|) && |results| == |dramas| && k < |order|
    ensures InBatch(order[..k], |dramas|) && InBatch(order[..k + 1], |dramas|)
    ensures Counted(order[..k + 1], escaped) == Counted(order[..k], escaped) + (if escaped(order[k]).None? then 1 else 0)
    ensures var c := Counted(order[..k + 1], escaped);
      var name := Name(dramas[order[k]]);
      ConcurrentEvents(dramas, results, escaped, order[..k + 1])
      == ConcurrentEvents(dramas, results, escaped, order[..k]) + [OnFileStart(name)]
         + if escaped(order[k]).Some? then []
           else [OnProgress(ProgressInfo(c, |dramas|, name, Percentage(c, |dramas|))), OnFileComplete(results[order[k]])]
  {
    assert order[..k + 1][..k] == order[..k];
  }

  /** The count never exceeds the tasks finished, and equals it when none raised. */
  lemma {:induction false} CountedBounds(order: seq<nat>, escaped: nat -> Option<string>)
    ensures Counted(order, escaped) <= |order|
    ensures (forall k :: 0 <= k < |order| ==> escaped(order[k]).None?) ==> Counted(order, escaped) == |order|
  {
    if order != [] {
      var n := |order| - 1;
      CountedBounds(order[..n], escaped);
      if forall k :: 0 <= k < |order| ==> escaped(order[k]).None? {
        assert forall k :: 0 <= k < n ==> order[..n][k] == order[k];
      }
    }
  }

  /** One start call per finished task, and two more calls per task that returned. */
  lemma {:induction false} ConcurrentEventsLength(dramas: seq<Path>, results: seq<ProcessingResult>, escaped: nat -> Option<string>, order: seq<nat>)
    requires InBatch(order, |dramas|) && |results| == |dramas|
    ensures |ConcurrentEvents(dramas, results, escaped, order)| == |order| + 2 * Counted(order, escaped)
  {
    if order != [] {
      ConcurrentEventsLength(dramas, results, escaped, order[..|order| - 1]);
    }
  }

  /**
   * Every finished task announced its unit, and every task whose operation
   * returned handed its result to `on_file_complete`.
   */
  lemma {:induction false} ConcurrentAnnounces(dramas: seq<Path>, results: seq<ProcessingResult>, escaped: nat -> Option<string>, order: seq<nat>, k: nat)
    requires InBatch(order, |dramas|) && |results| == |dramas| && k < |order|
    ensures OnFileStart(Name(dramas[order[k]])) in ConcurrentEvents(dramas, results, escaped, order)
    ensures escaped(order[k]).None? ==>
              OnFileComplete(results[order[k]]) in ConcurrentEvents(dramas, results, escaped, order)
  {
    var n := |order| - 1;
    var before := ConcurrentEvents(dramas, results, escaped, order[..n]);
    var last := TaskEvents(dramas, results, escaped, order);
    assert ConcurrentEvents(dramas, results, escaped, order) == before + last;
    if k < n {
      assert order[..n][k] == order[k];
      ConcurrentAnnounces(dramas, results, escaped, order[..n], k);
    } else {
      assert last[0] == OnFileStart(Name(dramas[order[k]]));
      if escaped(order[k]).None? {
        assert last[2] == OnFileComplete(results[order[k]]);
      }
    }
  }

  /**
   * When no task raised, the last calls are the final task's report of
   * `total` of `total` and its completion, so a progress tracker ends at
   * the whole batch and 100%, on the last unit to finish.
   */
  lemma ConcurrentEnds(dramas: seq<Path>, results: seq<ProcessingResult>, escaped: nat -> Option<string>, order: seq<nat>, s: Progress.TrackerState)
    requires CompletionOrder(order, |dramas|) && |results| == |dramas| && |dramas| > 0
    requires forall i :: 0 <= i < |dramas| ==> escaped(i).None?
    ensures var last := dramas[order[|order| - 1]];
      Progress.Replay(s, ConcurrentEvents(dramas, results, escaped, order)) == Progress.TrackerState(|dramas|, |dramas|, Name(last))
      && Progress.PercentageOf(Progress.Replay(s, ConcurrentEvents(dramas, results, escaped, order))) == 100.0
  {
    var n := |order| - 1;
    var i := order[n];
    CountedBounds(order, escaped);
    FullPercentage(|dramas|);
    var info := ProgressInfo(|dramas|, |dramas|, Name(dramas[i]), 100.0);
    var before := ConcurrentEvents(dramas, results, escaped, order[..n]) + [OnFileStart(Name(dramas[i]))];
    var done := OnFileComplete(results[i]);
    assert ConcurrentEvents(dramas, results, escaped, order) == before + [OnProgress(info)] + [done];
    Progress.ReplayAfterReport(s, before, info, [done]);
  }

  /**
   * A concurrent batch run with a callback, whatever the order the tasks
   * finish in: every unit is announced, every unit whose task returned has
   * its result handed to `on_file_complete`, and when no task raised the
   * tracker ends at the whole batch and 100%.
   */
  lemma ConcurrentReports(fs: FileSystem, stages: Stages, dramas: seq<Path>, operation: string, order: seq<nat>,
                          escaped: nat -> Option<string>, clock: nat -> real, s: Progress.TrackerState, i: nat)
    requires CompletionOrder(order, |dramas|) && i < |dramas|
    requires ConcurrentBatch(fs, stages, dramas, operation, order, true, escaped, clock).Ok?
    ensures var b := ConcurrentBatch(fs, stages, dramas, operation, order, true, escaped, clock).value;
      && OnFileStart(Name(dramas[i])) in b.events
      && (escaped(i).None? ==> OnFileComplete(b.results[i]) in b.events)
      && ((forall j :: 0 <= j < |dramas| ==> escaped(j).None?) ==>
            Progress.Replay(s, b.events).current == Progress.Replay(s, b.events).total == |dramas|
            && Progress.PercentageOf(Progress.Replay(s, b.events)) == 100.0)
  {
    var b := ConcurrentBatch(fs, stages, dramas, operation, order, true, escaped, clock).value;
    assert b.events == ConcurrentEvents(dramas, b.results, escaped, order) && |b.results| == |dramas|;
    assert i in order;
    var k :| 0 <= k < |order| && order[k] == i;
    ConcurrentAnnounces(dramas, b.results, escaped, order, k);
    if forall j :: 0 <= j < |dramas| ==> escaped(j).None? {
      ConcurrentEnds(dramas, b.results, escaped, order, s);
    }
  }

  // ---------------------------------------------------------------------
  // The resumable batch's write-back

  /** `[result.output_path] if result.output_path else []`. */
  function Outputs(r: ProcessingResult): seq<Path>
  {
    if r.outputPath.Some? then [r.outputPath.value] else []
  }

  const UnknownError := "未知错误"

  /** `message or fallback`: an absent or empty message gives way to the fallback. */
  function MessageOr(message: Option<string>, fallback: string): (r: string)
    ensures message.Some? && message.value != "" ==> r == message.value
    ensures message.None? || message.value == "" ==> r == fallback
  {
    if message.Some? && message.value != "" then message.value else fallback
  }

  /** Whether a result is recorded in the state store. */
  predicate Recorded(r: ProcessingResult)
  {
    r.status == Completed || r.status == Failed
  }

  /** The store's records after the loop over the results, timestamps from `now`. */
  function WriteBack(t: State.StateTable, results: seq<ProcessingResult>, operation: string, now: nat -> string): (w: State.StateTable)
    ensures t.Valid() ==> w.Valid()
  {
    if results == [] then t
    else
      var i := |results| - 1;
      var before := WriteBack(t, results[..i], operation, now);
      var r := results[i];
      if r.status == Completed then
        before.Put(State.StateKey(r.inputPath, operation), State.CompletedRecord(r.inputPath, operation, Outputs(r), now(i)))
      else if r.status == Failed then
        before.Put(State.StateKey(r.inputPath, operation), State.FailedRecord(r.inputPath, operation, MessageOr(r.errorMessage, UnknownError), now(i)))
      else before
  }

  /** The record a result leaves behind. */
  function RecordOf(r: ProcessingResult, operation: string, stamp: string): State.ProcessingState
    requires Recorded(r)
  {
    if r.status == Completed then State.CompletedRecord(r.inputPath, operation, Outputs(r), stamp)
    else State.FailedRecord(r.inputPath, operation, MessageOr(r.errorMessage, UnknownError), stamp)
  }

  /**
   * Each recorded result whose key no later recorded result shares ends up
   * as its key's record: COMPLETED with its output, or FAILED with its
   * message (or the stock text when it has none).
   */
  lemma {:induction false} WriteBackRecords(t: State.StateTable, results: seq<ProcessingResult>, operation: string, now: nat -> string, i: nat)
    requires i < |results| && Recorded(results[i])
    requires forall j :: i < j < |results| && Recorded(results[j])
               ==> State.StateKey(results[j].inputPath, operation) != State.StateKey(results[i].inputPath, operation)
    ensures State.StateKey(results[i].inputPath, operation) in WriteBack(t, results, operation, now).records
    ensures WriteBack(t, results, operation, now).records[State.StateKey(results[i].inputPath, operation)]
         == RecordOf(results[i], operation, now(i))
  {
    var n := |results| - 1;
    if i < n {
      assert results[..n][i] == results[i];
      WriteBackRecords(t, results[..n], operation, now, i);
    }
  }

  /** Keys that no recorded result has are left as they were. */
  lemma {:induction false} WriteBackKeeps(t: State.StateTable, results: seq<ProcessingResult>, operation: string, now: nat -> string, key: string)
    requires forall j :: 0 <= j < |results| && Recorded(results[j]) ==> State.StateKey(results[j].inputPath, operation) != key
    ensures (key in WriteBack(t, results, operation, now).records) == (key in t.records)
    ensures key in t.records ==> WriteBack(t, results, operation, now).records[key] == t.records[key]
  {
    if results != [] {
      WriteBackKeeps(t, results[..|results| - 1], operation, now, key);
    }
  }

  /** Whether any of the results is recorded. */
  predicate AnyRecorded(results: seq<ProcessingResult>)
  {
    exists j :: 0 <= j < |results| && Recorded(results[j])
  }

  lemma WriteBackSnoc(t: State.StateTable, results: seq<ProcessingResult>, operation: string, now: nat -> string, i: nat)
    requires i < |results|
    ensures WriteBack(t, results[..i + 1], operation, now)
         == if Recorded(results[i])
            then WriteBack(t, results[..i], operation, now).Put(State.StateKey(results[i].inputPath, operation), RecordOf(results[i], operation, now(i)))
            else WriteBack(t, results[..i], operation, now)
  {
    assert results[..i + 1][..i] == results[..i];
  }

  lemma AnyRecordedSnoc(results: seq<ProcessingResult>, i: nat)
    requires i < |results|
    ensures AnyRecorded(results[..i + 1]) <==> AnyRecorded(results[..i]) || Recorded(results[i])
  {
    if AnyRecorded(results[..i + 1]) && !Recorded(results[i]) {
      var j :| 0 <= j < i + 1 && Recorded(results[..i + 1][j]);
      assert results[..i + 1][j] == results[..i][j];
    }
    if Recorded(results[i]) {
      assert results[..i + 1][i] == results[i];
    }
    if AnyRecorded(results[..i]) {
      var j :| 0 <= j < i && Recorded(results[..i][j]);
      assert results[..i + 1][j] == results[..i][j];
    }
  }

  // ---------------------------------------------------------------------
  // The reporting batch's partition

  function SuccessfulPaths(results: seq<ProcessingResult>): (r: seq<string>)
    ensures |r| <= |results|
  {
    if results == [] then []
    else
      var last := results[|results| - 1];
      SuccessfulPaths(results[..|results| - 1]) + (if last.status == Completed then [ToString(last.inputPath)] else [])
  }

  function FailedPairs(results: seq<ProcessingResult>): (r: seq<(string, string)>)
    ensures |r| <= |results|
  {
    if results == [] then []
    else
      var last := results[|results| - 1];
      FailedPairs(results[..|results| - 1])
      + (if last.status == Failed then [(ToString(last.inputPath), MessageOr(last.errorMessage, UnknownError))] else [])
  }

  const AlreadySkipped := "已跳过"

  function SkippedPairs(results: seq<ProcessingResult>): (r: seq<(string, string)>)
    ensures |r| <= |results|
  {
    if results == [] then []
    else
      var last := results[|results| - 1];
      SkippedPairs(results[..|results| - 1])
      + (if last.status == Skipped then [(ToString(last.inputPath), MessageOr(last.errorMessage, AlreadySkipped))] else [])
  }

  /** How many results have a status none of the three lists takes. */
  function Unlisted(results: seq<ProcessingResult>): nat
  {
    if results == [] then 0
    else
      var last := results[|results| - 1];
      Unlisted(results[..|results| - 1]) + (if last.status == Pending || last.status == InProgress then 1 else 0)
  }

  /** Every result lands in at most one list; only PENDING and IN_PROGRESS ones land in none. */
  lemma {:induction false} PartitionCounts(results: seq<ProcessingResult>)
    ensures |SuccessfulPaths(results)| + |FailedPairs(results)| + |SkippedPairs(results)| + Unlisted(results) == |results|
  {
    if results != [] {
      PartitionCounts(results[..|results| - 1]);
    }
  }

  /** The lists keep input order: partitioning a concatenation partitions each part. */
  lemma {:induction false} PartitionAppend(a: seq<ProcessingResult>, b: seq<ProcessingResult>)
    ensures SuccessfulPaths(a + b) == SuccessfulPaths(a) + SuccessfulPaths(b)
    ensures FailedPairs(a + b) == FailedPairs(a) + FailedPairs(b)
    ensures SkippedPairs(a + b) == SkippedPairs(a) + SkippedPairs(b)
  {
    SuccessfulAppend(a, b);
    FailedAppend(a, b);
    SkippedAppend(a, b);
  }

  lemma {:induction false} SuccessfulAppend(a: seq<ProcessingResult>, b: seq<ProcessingResult>)
    ensures SuccessfulPaths(a + b) == SuccessfulPaths(a) + SuccessfulPaths(b)
    decreases |b|
  {
    if b == [] {
      assert a + b == a;
    } else {
      assert (a + b)[..|a + b| - 1] == a + b[..|b| - 1];
      SuccessfulAppend(a, b[..|b| - 1]);
    }
  }

  lemma {:induction false} FailedAppend(a: seq<ProcessingResult>, b: seq<ProcessingResult>)
    ensures FailedPairs(a + b) == FailedPairs(a) + FailedPairs(b)
    decreases |b|
  {
    if b == [] {
      assert a + b == a;
    } else {
      assert (a + b)[..|a + b| - 1] == a + b[..|b| - 1];
      FailedAppend(a, b[..|b| - 1]);
    }
  }

  lemma {:induction false} SkippedAppend(a: seq<ProcessingResult>, b: seq<ProcessingResult>)
    ensures SkippedPairs(a + b) == SkippedPairs(a) + SkippedPairs(b)
    decreases |b|
  {
    if b == [] {
      assert a + b == a;
    } else {
      assert (a + b)[..|a + b| - 1] == a + b[..|b| - 1];
      SkippedAppend(a, b[..|b| - 1]);
    }
  }

  /** A path is listed as successful exactly when some COMPLETED result has it. */
  lemma {:induction false} SuccessfulMembers(results: seq<ProcessingResult>, path: string)
    ensures path in SuccessfulPaths(results)
        <==> exists j :: 0 <= j < |results| && results[j].status == Completed && ToString(results[j].inputPath) == path
  {
    if results != [] {
      var n := |results| - 1;
      SuccessfulMembers(results[..n], path);
      if exists j :: 0 <= j < |results| && results[j].status == Completed && ToString(results[j].inputPath) == path {
        var j :| 0 <= j < |results| && results[j].status == Completed && ToString(results[j].inputPath) == path;
        if j < n {
          assert results[..n][j] == results[j];
        }
      }
    }
  }

  /** The report after the collection loop over `results`. */
  method Collect(report: Report.DetailedProcessingReport, results: seq<ProcessingResult>)
    modifies report
    ensures report.successfulTasks == old(report.successfulTasks) + SuccessfulPaths(results)
    ensures report.failedTasks == old(report.failedTasks) + FailedPairs(results)
    ensures report.skippedTasks == old(report.skippedTasks) + SkippedPairs(results)
    ensures report.endTime == old(report.endTime)
  {
    var i := 0;
    while i < |results|
      invariant i <= |results|
      invariant report.successfulTasks == old(report.successfulTasks) + SuccessfulPaths(results[..i])
      invariant report.failedTasks == old(report.failedTasks) + FailedPairs(results[..i])
      invariant report.skippedTasks == old(report.skippedTasks) + SkippedPairs(results[..i])
      invariant report.endTime == old(report.endTime)
    {
      assert results[..i + 1][..i] == results[..i];
      var r := results[i];
      if r.status == Completed {
        report.successfulTasks := report.successfulTasks + [ToString(r.inputPath)];
      } else if r.status == Failed {
        report.failedTasks := report.failedTasks + [(ToString(r.inputPath), MessageOr(r.errorMessage, UnknownError))];
      } else if r.status == Skipped {
        report.skippedTasks := report.skippedTasks + [(ToString(r.inputPath), MessageOr(r.errorMessage, AlreadySkipped))];
      }
      i := i + 1;
    }
    assert results[..i] == results;
  }

  // ---------------------------------------------------------------------
  // The orchestrators

  /** `Orchestrator` and `ConcurrentOrchestrator`: the processors and the filesystem they scan. */
  class Orchestrator {
    const fs: FileSystem
    const stages: Stages

    constructor(fs: FileSystem, stages: Stages)
      ensures this.fs == fs && this.stages == stages
    {
      this.fs := fs;
      this.stages := stages;
    }

    /** `merge` / `separate` / `transcode`. */
    method RunOperation(o: Operation, drama: Path, elapsed: real) returns (run: StageRun)
      ensures run == RunStage(fs, stages, o, drama, elapsed)
    {
      var scan := Scanner.ScanDramaRoot(fs, Parent(drama));
      if scan.Err? {
        return StageRun([], FailedResult(drama, scan.error, elapsed));
      }
      var found := FirstMatch(scan.value, drama);
      if found.None? {
        return StageRun([], FailedResult(drama, NotADramaUnit(drama), elapsed));
      }
      if !Scanner.ValidFor(StageOf(o), found.value) {
        return StageRun([], FailedResult(drama, Unsuitable(o, drama), elapsed));
      }
      var handled := Handler(stages, o)(drama);
      match handled.outcome {
        case Returned(r) => run := StageRun(handled.events, r);
        case Raised(m) => run := StageRun(handled.events, FailedResult(drama, m, elapsed));
      }
    }

    /** `Orchestrator.process_batch`; `clock(i)` is the time unit `i` took. */
    method ProcessBatch(dramas: seq<Path>, operation: string, callback: bool, clock: nat -> real) returns (r: Result<BatchRun>)
      ensures r == SequentialBatch(fs, stages, dramas, operation, callback, clock)
    {
      var found := OperationNamed(operation);
      if found.Err? {
        return Err(found.error);
      }
      var o := found.value;
      var total := |dramas|;
      var results: seq<ProcessingResult> := [];
      var events: seq<ProgressEvent> := [];
      var i := 0;
      while i < total
        invariant i <= total
        invariant BatchRun(results, events) == Sequential(dramas[..i], total, StageStep(fs, stages, o), clock, callback)
      {
        var run := RunOperation(o, dramas[i], clock(i));
        results := results + [run.result];
        if callback {
          // on_progress and on_file_start before the unit, the processor's own calls, on_file_complete
          events := events + UnitEvents(i, total, dramas[i], run);
        }
        SequentialSnoc(dramas, total, StageStep(fs, stages, o), clock, callback, i, run);
        i := i + 1;
      }
      assert dramas[..total] == dramas;
      if callback {
        events := events + [FinalProgress(total)];
      }
      return Ok(BatchRun(results, events));
    }

    /**
     * `process_single` for the task finishing `k`-th: with a callback it
     * announces the unit, runs the operation (or meets the exception that
     * escapes it), and, if the operation returned, raises the shared count
     * and reports it with the result. `count` is the count before.
     */
    method RunTask(o: Operation, dramas: seq<Path>, order: seq<nat>, k: nat, callback: bool, count: nat,
                   escaped: nat -> Option<string>, clock: nat -> real)
      returns (result: ProcessingResult, calls: seq<ProgressEvent>, counted: nat)
      requires InBatch(order, |dramas|) && k < |order| && count == Counted(order[..k], escaped)
      ensures result == TaskResult(fs, stages, o, dramas, escaped, clock, order[k])
      ensures counted == Counted(order[..k + 1], escaped)
      ensures ghost var results := TaskResults(fs, stages, o, dramas, escaped, clock);
        InBatch(order[..k], |dramas|)
        && (if callback then ConcurrentEvents(dramas, results, escaped, order[..k]) + calls == ConcurrentEvents(dramas, results, escaped, order[..k + 1])
            else calls == [])
    {
      ghost var results := TaskResults(fs, stages, o, dramas, escaped, clock);
      NextTask(dramas, results, escaped, order, k);
      var index := order[k];
      var name := Name(dramas[index]);
      calls := [];
      counted := count;
      if callback {
        calls := [OnFileStart(name)];
      }
      if escaped(index).Some? {
        result := FailedResult(dramas[index], escaped(index).value, 0.0);
      } else {
        var run := RunOperation(o, dramas[index], clock(index));
        result := run.result;
        counted := counted + 1;
        if callback {
          calls := calls + [OnProgress(ProgressInfo(counted, |dramas|, name, Percentage(counted, |dramas|))), OnFileComplete(result)];
        }
      }
      assert result == results[index];
    }

    /**
     * The futures of `ConcurrentOrchestrator.process_batch`: the results list
     * is allocated up front and each finished task's result is stored at the
     * index it was submitted with, in the order `order` the tasks finish.
     * Whatever that order, slot `i` ends up holding the result of `dramas[i]`,
     * and the callback hears of the tasks in that order.
     */
    method CollectTasks(o: Operation, dramas: seq<Path>, order: seq<nat>, callback: bool, escaped: nat -> Option<string>, clock: nat -> real)
      returns (filled: seq<Option<ProcessingResult>>, events: seq<ProgressEvent>)
      requires CompletionOrder(order, |dramas|)
      ensures |filled| == |dramas|
      ensures forall i :: 0 <= i < |dramas| ==> filled[i] == Some(TaskResult(fs, stages, o, dramas, escaped, clock, i))
      ensures events == if callback then ConcurrentEvents(dramas, TaskResults(fs, stages, o, dramas, escaped, clock), escaped, order) else []
    {
      var n := |dramas|;
      var slots := new Option<ProcessingResult>[n](_ => None);
      var completedCount := 0;
      events := [];
      ghost var results := TaskResults(fs, stages, o, dramas, escaped, clock);
      var k := 0;
      while k < n
        invariant k <= n
        invariant forall i :: 0 <= i < n ==>
                    slots[i] == (if i in order[..k] then Some(TaskResult(fs, stages, o, dramas, escaped, clock, i)) else None)
        invariant completedCount == Counted(order[..k], escaped)
        invariant events == if callback then ConcurrentEvents(dramas, results, escaped, order[..k]) else []
      {
        var result, calls;
        result, calls, completedCount := RunTask(o, dramas, order, k, callback, completedCount, escaped, clock);
        events := events + calls;
        CompletedNext(order, k);
        slots[order[k]] := Some(result);
        k := k + 1;
      }
      assert order[..n] == order;
      filled := slots[..];
    }

    /**
     * `ConcurrentOrchestrator.process_batch`: `results[i]` belongs to
     * `dramas[i]`, whatever the completion order, and the callback hears
     * of each task as it finishes.
     */
    method ProcessBatchConcurrently(dramas: seq<Path>, operation: string, order: seq<nat>, callback: bool, escaped: nat -> Option<string>, clock: nat -> real)
      returns (r: Result<BatchRun>)
      requires CompletionOrder(order, |dramas|)
      ensures r == ConcurrentBatch(fs, stages, dramas, operation, order, callback, escaped, clock)
      ensures r.Ok? ==> |r.value.results| == |dramas|
                        && forall i :: 0 <= i < |dramas| && escaped(i).Some? ==>
                             r.value.results[i] == FailedResult(dramas[i], escaped(i).value, 0.0)
    {
      var found := OperationNamed(operation);
      if found.Err? {
        return Err(found.error);
      }
      var o := found.value;
      var n := |dramas|;
      var filled, events := CollectTasks(o, dramas, order, callback, escaped, clock);
      var results: seq<ProcessingResult> := [];
      var i := 0;
      while i < n
        invariant i <= n
        invariant |results| == i && forall j :: 0 <= j < i ==> filled[j] == Some(results[j])
      {
        results := results + [filled[i].value];
        i := i + 1;
      }
      r := Ok(BatchRun(results, events));
      assert r.value.results == seq(n, i requires 0 <= i < n => TaskResult(fs, stages, o, dramas, escaped, clock, i));
    }
  }

  /**
   * The batch the resumable orchestrators run on the pending units: the
   * concurrent path when `workers` is known and above 1 (the orchestrator
   * `create_orchestrator` builds on a ConcurrentOrchestrator), the sequential
   * one otherwise (`ResumableOrchestrator`, which has no worker count).
   */
  function InnerBatch(fs: FileSystem, stages: Stages, workers: Option<int>, dramas: seq<Path>, operation: string,
                      callback: bool, escaped: nat -> Option<string>, clock: nat -> real): Result<BatchRun>
  {
    if workers.Some? && workers.value > 1 then ConcurrentBatch(fs, stages, dramas, operation, Indices(|dramas|), callback, escaped, clock)
    else SequentialBatch(fs, stages, dramas, operation, callback, clock)
  }

  /** The units a resumable batch processes. */
  function Todo(t: State.StateTable, fs: FileSystem, dramas: seq<Path>, operation: string, skipCompleted: bool): seq<Path>
  {
    if skipCompleted then State.PendingUnits(t, fs, dramas, operation) else dramas
  }

  /**
   * The results of a resumable batch: nothing when no unit is left to do
   * (whatever the operation name), otherwise the inner batch on those units.
   */
  function ResumedBatch(t: State.StateTable, fs: FileSystem, stages: Stages, workers: Option<int>, dramas: seq<Path>, operation: string,
                        callback: bool, skipCompleted: bool, escaped: nat -> Option<string>, clock: nat -> real): Result<BatchRun>
  {
    var todo := Todo(t, fs, dramas, operation, skipCompleted);
    if todo == [] then Ok(BatchRun([], [])) else InnerBatch(fs, stages, workers, todo, operation, callback, escaped, clock)
  }

  /**
   * A resumable batch returns one result per unit still to do, aligned with
   * that list rather than with the units it was given.
   */
  lemma ResumedAligns(t: State.StateTable, fs: FileSystem, stages: Stages, workers: Option<int>, dramas: seq<Path>, operation: string,
                      callback: bool, skipCompleted: bool, escaped: nat -> Option<string>, clock: nat -> real, b: BatchRun, i: nat)
    requires ResumedBatch(t, fs, stages, workers, dramas, operation, callback, skipCompleted, escaped, clock) == Ok(b)
    requires i < |Todo(t, fs, dramas, operation, skipCompleted)|
    ensures OperationNamed(operation).Ok?
    ensures var todo := Todo(t, fs, dramas, operation, skipCompleted);
      var o := OperationNamed(operation).value;
      |b.results| == |todo|
      && b.results[i] == (if workers.Some? && workers.value > 1 then TaskResult(fs, stages, o, todo, escaped, clock, i)
                          else RunStage(fs, stages, o, todo[i], clock(i)).result)
  {
    var todo := Todo(t, fs, dramas, operation, skipCompleted);
    var o := OperationNamed(operation).value;
    if !(workers.Some? && workers.value > 1) {
      SequentialResults(todo, |todo|, StageStep(fs, stages, o), clock, callback, i);
    }
  }

  /** `ResumableOrchestrator`, and the one `create_orchestrator` builds when resume is enabled. */
  class ResumableOrchestrator {
    const base: Orchestrator
    const stateManager: State.StateManager
    const workers: Option<int>

    constructor(base: Orchestrator, stateManager: State.StateManager, workers: Option<int>)
      ensures this.base == base && this.stateManager == stateManager && this.workers == workers
    {
      this.base := base;
      this.stateManager := stateManager;
      this.workers := workers;
    }

    /**
     * `process_batch` with resume: drop the units already done, return
     * nothing if none is left (before the operation name is checked), run
     * the batch on the rest, then record every COMPLETED and FAILED result.
     * The results align with the pending units, not with `dramas`.
     */
    method ProcessBatch(dramas: seq<Path>, operation: string, callback: bool, skipCompleted: bool,
                        escaped: nat -> Option<string>, clock: nat -> real, now: nat -> string)
      returns (r: Result<BatchRun>)
      requires stateManager.Valid()
      modifies stateManager
      ensures stateManager.Valid()
      ensures r == ResumedBatch(old(stateManager.table), base.fs, base.stages, workers, dramas, operation, callback, skipCompleted, escaped, clock)
      ensures r.Ok? ==> stateManager.table == WriteBack(old(stateManager.table), r.value.results, operation, now)
      ensures r.Ok? && AnyRecorded(r.value.results) ==> stateManager.disk == State.Saved(stateManager.table)
      ensures r.Err? || !AnyRecorded(r.value.results) ==> stateManager.disk == old(stateManager.disk)
    {
      var todo := dramas;
      if skipCompleted {
        todo := stateManager.GetPendingTasks(base.fs, dramas, operation);
      }
      if todo == [] {
        return Ok(BatchRun([], []));
      }
      if workers.Some? && workers.value > 1 {
        IndicesComplete(|todo|);
        r := base.ProcessBatchConcurrently(todo, operation, Indices(|todo|), callback, escaped, clock);
      } else {
        r := base.ProcessBatch(todo, operation, callback, clock);
      }
      if r.Err? {
        return;
      }
      RecordResults(r.value.results, operation, now);
    }

    /** The loop recording each COMPLETED and FAILED result, saving the store on each. */
    method RecordResults(results: seq<ProcessingResult>, operation: string, now: nat -> string)
      requires stateManager.Valid()
      modifies stateManager
      ensures stateManager.Valid()
      ensures stateManager.table == WriteBack(old(stateManager.table), results, operation, now)
      ensures AnyRecorded(results) ==> stateManager.disk == State.Saved(stateManager.table)
      ensures !AnyRecorded(results) ==> stateManager.disk == old(stateManager.disk)
    {
      var i := 0;
      while i < |results|
        invariant i <= |results| && stateManager.Valid()
        invariant stateManager.table == WriteBack(old(stateManager.table), results[..i], operation, now)
        invariant AnyRecorded(results[..i]) ==> stateManager.disk == State.Saved(stateManager.table)
        invariant !AnyRecorded(results[..i]) ==> stateManager.disk == old(stateManager.disk)
      {
        AnyRecordedSnoc(results, i);
        WriteBackSnoc(old(stateManager.table), results, operation, now, i);
        RecordOne(results[i], operation, now(i));
        i := i + 1;
      }
      assert results[..i] == results;
    }

    /** One turn of the loop: `mark_completed` or `mark_failed`, or nothing. */
    method RecordOne(result: ProcessingResult, operation: string, stamp: string)
      requires stateManager.Valid()
      modifies stateManager
      ensures stateManager.Valid()
      ensures Recorded(result) ==> stateManager.table == old(stateManager.table).Put(State.StateKey(result.inputPath, operation), RecordOf(result, operation, stamp))
                                   && stateManager.disk == State.Saved(stateManager.table)
      ensures !Recorded(result) ==> stateManager.table == old(stateManager.table) && stateManager.disk == old(stateManager.disk)
    {
      if result.status == Completed {
        stateManager.MarkCompleted(result.inputPath, operation, Outputs(result), stamp);
      } else if result.status == Failed {
        stateManager.MarkFailed(result.inputPath, operation, MessageOr(result.errorMessage, UnknownError), stamp);
      }
    }
  }

  /** `ReportingOrchestrator`. */
  class ReportingOrchestrator {
    const base: Orchestrator

    constructor(base: Orchestrator)
      ensures this.base == base
    {
      this.base := base;
    }

    /**
     * `process_batch` with a report: created before the batch with the
     * number of units given, filled from the results in order, and closed
     * with `endTime`. An unknown operation escapes before the report is filled.
     */
    method ProcessBatch(dramas: seq<Path>, operation: string, callback: bool, clock: nat -> real, startTime: real, endTime: real)
      returns (r: Result<BatchRun>, report: Report.DetailedProcessingReport)
      ensures fresh(report)
      ensures r == SequentialBatch(base.fs, base.stages, dramas, operation, callback, clock)
      ensures report.operation == operation && report.startTime == startTime && report.totalTasks == |dramas|
      ensures r.Ok? ==> report.successfulTasks == SuccessfulPaths(r.value.results)
                        && report.failedTasks == FailedPairs(r.value.results)
                        && report.skippedTasks == SkippedPairs(r.value.results)
                        && report.endTime == Some(endTime)
    {
      report := new Report.DetailedProcessingReport(operation, startTime, |dramas|);
      r := base.ProcessBatch(dramas, operation, callback, clock);
      if r.Ok? {
        Collect(report, r.value.results);
        report.endTime := Some(endTime);
      }
    }
  }
}
