// main.py: the orchestrator `create_orchestrator` composes from the
// configuration, the report wrapper it may put around it, the directory
// list `scan_drama_directories` hands to it, and the verdict of `run_merge`,
// `run_separate` and `run_transcode`. The three run functions differ only in
// the operation name and log texts, so one definition serves them all.
module Entry {
  import opened Results
  import opened Paths
  import opened Models
  import opened Text
  import Scanner
  import State
  import Report
  import opened Orchestration

  /** What `create_orchestrator` builds: the worker count when concurrent, and the two wrappers. */
  datatype Shape = Shape(workers: Option<int>, resumable: bool, reporting: bool)

  function CreateOrchestrator(config: ProcessingConfig): Shape
  {
    Shape(if config.maxWorkers > 1 then Some(config.maxWorkers) else None, config.enableResume, config.generateReport)
  }

  /**
   * Whether the outermost `process_batch` declares `skip_completed`: the
   * resumable and reporting wrappers do, the plain orchestrators do not.
   */
  predicate AcceptsSkipCompleted(shape: Shape)
  {
    shape.resumable || shape.reporting
  }

  /** The TypeError a call with an undeclared keyword raises. */
  const UnexpectedSkipCompleted := "process_batch() got an unexpected keyword argument 'skip_completed'"

  /** The results of the orchestrator under the wrappers: resumable or plain. */
  function WrappedBatch(shape: Shape, t: State.StateTable, fs: FileSystem, stages: Stages, dramas: seq<Path>, operation: string,
                        callback: bool, skipCompleted: bool, escaped: nat -> Option<string>, clock: nat -> real): Result<BatchRun>
  {
    if shape.resumable then ResumedBatch(t, fs, stages, shape.workers, dramas, operation, callback, skipCompleted, escaped, clock)
    else InnerBatch(fs, stages, shape.workers, dramas, operation, callback, escaped, clock)
  }

  /**
   * `orchestrator.process_batch(dramas, operation=…, progress_callback=…,
   * skip_completed=…)` as the run functions call it: the keyword is an
   * error for an orchestrator without either wrapper.
   */
  function CalledBatch(shape: Shape, t: State.StateTable, fs: FileSystem, stages: Stages, dramas: seq<Path>, operation: string,
                       callback: bool, skipCompleted: bool, escaped: nat -> Option<string>, clock: nat -> real): Result<BatchRun>
  {
    if !AcceptsSkipCompleted(shape) then Err(UnexpectedSkipCompleted)
    else WrappedBatch(shape, t, fs, stages, dramas, operation, callback, skipCompleted, escaped, clock)
  }

  /**
   * `scan_drama_directories`: a root whose name merely starts with
   * "drama-" is taken as the only unit; otherwise the unit paths the scan
   * finds, in its order. A failing scan raises.
   */
  function ScanDramaDirectories(config: ProcessingConfig, fs: FileSystem): Result<seq<Path>>
  {
    var root := config.dramaRoot;
    if StartsWith(Name(root), "drama-") then Ok([root])
    else
      match Scanner.DramaScan(fs, root)
      case Err(e) => Err(e)
      case Ok(units) => Ok(seq(|units|, i requires 0 <= i < |units| => units[i].path))
  }

  /** Each path a scan found is a directory below `root` whose name the scanner's pattern, as written, matches. */
  lemma FoundPathsQualify(fs: FileSystem, root: Path, units: seq<DramaDirectory>, dramas: seq<Path>, p: Path)
    requires fs.Valid() && p in dramas
    requires |dramas| == |units| && forall i :: 0 <= i < |units| ==> dramas[i] == units[i].path
    requires forall i :: 0 <= i < |units| ==>
      fs.IsDir(units[i].path) && Parent(units[i].path) == root && Scanner.MatchesAsWritten(Name(units[i].path))
    ensures p in fs.Children(root) && fs.IsDir(p) && Scanner.MatchesAsWritten(Name(p))
  {
    var i :| 0 <= i < |dramas| && dramas[i] == p;
    assert units[i].path == p;
    assert p in fs.isDir;
  }

  /** A found path is a unit below the root. */
  lemma ScanPathsSound(fs: FileSystem, root: Path, dramas: seq<Path>, p: Path)
    requires fs.Valid() && Scanner.DramaScan(fs, root).Ok? && p in dramas
    requires var units := Scanner.DramaScan(fs, root).value;
      |dramas| == |units| && forall i :: 0 <= i < |units| ==> dramas[i] == units[i].path
    ensures p in fs.Children(root) && fs.IsDir(p) && Scanner.MatchesAsWritten(Name(p))
  {
    var units := Scanner.DramaScan(fs, root).value;
    Scanner.ScanFinds(fs, root, units);
    FoundPathsQualify(fs, root, units, dramas, p);
  }

  /** Every unit below the root is found. */
  lemma ScanPathsComplete(fs: FileSystem, root: Path, dramas: seq<Path>, p: Path)
    requires Scanner.DramaScan(fs, root).Ok? && p in fs.Children(root) && fs.IsDir(p) && Scanner.MatchesAsWritten(Name(p))
    requires var units := Scanner.DramaScan(fs, root).value;
      |dramas| == |units| && forall i :: 0 <= i < |units| ==> dramas[i] == units[i].path
    ensures p in dramas
  {
    var units := Scanner.DramaScan(fs, root).value;
    Scanner.ScanFinds(fs, root, units);
    var i :| 0 <= i < |units| && units[i].path == p;
    assert dramas[i] == p;
  }

  /** Without the shortcut, the list is the scan's unit paths. */
  lemma ScanListed(config: ProcessingConfig, fs: FileSystem, dramas: seq<Path>)
    requires !StartsWith(Name(config.dramaRoot), "drama-") && ScanDramaDirectories(config, fs) == Ok(dramas)
    ensures Scanner.DramaScan(fs, config.dramaRoot).Ok?
    ensures var units := Scanner.DramaScan(fs, config.dramaRoot).value;
      |dramas| == |units| && forall i :: 0 <= i < |units| ==> dramas[i] == units[i].path
  {
  }

  /** The unit paths of a scan are the directories below the root whose name the scanner's pattern, as written, matches. */
  lemma ScanPathsExact(fs: FileSystem, root: Path, dramas: seq<Path>)
    requires fs.Valid() && Scanner.DramaScan(fs, root).Ok?
    requires var units := Scanner.DramaScan(fs, root).value;
      |dramas| == |units| && forall i :: 0 <= i < |units| ==> dramas[i] == units[i].path
    ensures forall p :: p in dramas <==> p in fs.Children(root) && fs.IsDir(p) && Scanner.MatchesAsWritten(Name(p))
  {
    forall p | p in dramas
      ensures p in fs.Children(root) && fs.IsDir(p) && Scanner.MatchesAsWritten(Name(p))
    {
      ScanPathsSound(fs, root, dramas, p);
    }
    forall p | p in fs.Children(root) && fs.IsDir(p) && Scanner.MatchesAsWritten(Name(p))
      ensures p in dramas
    {
      ScanPathsComplete(fs, root, dramas, p);
    }
  }

  /** Without the shortcut, the list holds every directory below the root whose name the scanner's pattern, as written, matches, and nothing else. */
  lemma ScannedDirectories(config: ProcessingConfig, fs: FileSystem, dramas: seq<Path>)
    requires fs.Valid()
    requires !StartsWith(Name(config.dramaRoot), "drama-") && ScanDramaDirectories(config, fs) == Ok(dramas)
    ensures forall p :: p in dramas <==> p in fs.Children(config.dramaRoot) && fs.IsDir(p) && Scanner.MatchesAsWritten(Name(p))
  {
    ScanListed(config, fs, dramas);
    ScanPathsExact(fs, config.dramaRoot, dramas);
  }

  /** The shortcut takes a root the scanner would not: "drama-x" is not a unit name, yet it is processed. */
  lemma ShortcutIgnoresPattern(config: ProcessingConfig, fs: FileSystem)
    requires config.dramaRoot == ["drama-x"]
    ensures ScanDramaDirectories(config, fs) == Ok([config.dramaRoot])
    ensures !Scanner.MatchesAsWritten(Name(config.dramaRoot))
  {
    assert Name(config.dramaRoot) == "drama-x";
    assert StartsWith("drama-x", "drama-") by {
      assert "drama-x"[..6] == "drama-";
    }
  }

  /** `sum(1 for r in results if r.status == COMPLETED)`. */
  function CompletedCount(results: seq<ProcessingResult>): (n: nat)
    ensures n <= |results|
  {
    if results == [] then 0
    else CompletedCount(results[..|results| - 1]) + (if results[|results| - 1].status == Completed then 1 else 0)
  }

  /** The success rule counts: every result is COMPLETED exactly when the count reaches the length. */
  lemma {:induction false} AllCompleted(results: seq<ProcessingResult>)
    ensures CompletedCount(results) == |results| <==> forall i :: 0 <= i < |results| ==> results[i].status == Completed
  {
    if results != [] {
      var n := |results| - 1;
      AllCompleted(results[..n]);
      if forall i :: 0 <= i < |results| ==> results[i].status == Completed {
        forall i | 0 <= i < n
          ensures results[..n][i].status == Completed
        {
          assert results[..n][i] == results[i];
        }
      }
      if CompletedCount(results) == |results| {
        forall i | 0 <= i < |results|
          ensures results[i].status == Completed
        {
          if i < n {
            assert results[..n][i] == results[i];
          }
        }
      }
    }
  }

  /** `report_dir` after `ProcessingConfig.__post_init__`: `reports` unless configured. */
  function ReportDir(config: ProcessingConfig): Path
  {
    config.reportDir.UnwrapOr(["reports"])
  }

  /**
   * What `create_orchestrator` does besides composing the orchestrator. With
   * resume on, each of the two `StateManager`s it builds loads the state
   * file; both read the same file, so the first load decides whether an
   * error escapes. With reports on, `report_dir` is created with its
   * missing parents. The result is the store the resumable orchestrator
   * holds and the filesystem after.
   */
  function Setup(config: ProcessingConfig, disk: State.StateFile, fs: FileSystem): (r: Result<(State.StateTable, FileSystem)>)
    ensures r.Err? <==> (config.enableResume && State.Restored(disk).Err?) || (config.generateReport && ReportDirBlocked(config, fs))
    ensures config.enableResume && State.Restored(disk).Err? ==> r == Err(State.Restored(disk).error)
    ensures !(config.enableResume && State.Restored(disk).Err?) && config.generateReport && fs.FileAbove(ReportDir(config))
            ==> r == Err(NotADirectory(ReportDir(config)))
    ensures r.Ok? && config.enableResume ==> r.value.0 == State.Restored(disk).value
    ensures r.Ok? ==> r.value.1 == if config.generateReport then fs.AddDirs(ReportDir(config)) else fs
  {
    var loaded := if config.enableResume then State.Restored(disk) else Ok(State.EmptyTable);
    match loaded
    case Err(e) => Err(e)
    case Ok(t) =>
      if !config.generateReport then Ok((t, fs))
      else
        match fs.MkDirs(ReportDir(config))
        case Err(e) => Err(e)
        case Ok(fs') => Ok((t, fs'))
  }

  /** `report_dir.mkdir(parents=True, exist_ok=True)` raises: it or one of its ancestors is a regular file. */
  predicate ReportDirBlocked(config: ProcessingConfig, fs: FileSystem)
  {
    fs.FileAbove(ReportDir(config)) || fs.IsFile(ReportDir(config))
  }

  /**
   * When `create_orchestrator` returns, the filesystem is still well formed
   * and, with reports on, `report_dir` and all its ancestors are directories.
   */
  lemma SetupKeepsValid(config: ProcessingConfig, disk: State.StateFile, fs: FileSystem)
    requires fs.Valid() && Setup(config, disk, fs).Ok?
    ensures Setup(config, disk, fs).value.1.Valid()
    ensures config.generateReport ==>
      forall k :: 0 < k <= |ReportDir(config)| ==> Setup(config, disk, fs).value.1.IsDir(ReportDir(config)[..k])
  {
    if config.generateReport {
      MkDirsFacts(fs, ReportDir(config));
    }
  }

  /**
   * The verdict of a run function as written. `create_orchestrator` runs
   * first, inside the `try`: a state file that raises on loading, or a
   * regular file at `report_dir` or above it, makes the verdict false. Then
   * no units, an exception from the scan or from the batch, or any result
   * not COMPLETED make it false. The callback is always a tracker, and
   * `skip_completed` follows `enable_resume`.
   */
  function RunAsWritten(config: ProcessingConfig, disk: State.StateFile, fs: FileSystem, stages: Stages, operation: string,
                        escaped: nat -> Option<string>, clock: nat -> real): bool
  {
    match Setup(config, disk, fs)
    case Err(_) => false
    case Ok(loaded) =>
      var (t, fs') := loaded;
      match ScanDramaDirectories(config, fs')
      case Err(_) => false
      case Ok(dramas) =>
        if dramas == [] then false
        else
          match CalledBatch(CreateOrchestrator(config), t, fs', stages, dramas, operation, true, config.enableResume, escaped, clock)
          case Err(_) => false
          case Ok(b) => CompletedCount(b.results) == |b.results|
  }

  /**
   * The verdict as intended: `skip_completed` reaches only an orchestrator
   * that declares it, so a configuration without either wrapper runs its
   * batch instead of failing on the call.
   */
  function Run(config: ProcessingConfig, disk: State.StateFile, fs: FileSystem, stages: Stages, operation: string,
               escaped: nat -> Option<string>, clock: nat -> real): bool
  {
    match Setup(config, disk, fs)
    case Err(_) => false
    case Ok(loaded) =>
      var (t, fs') := loaded;
      match ScanDramaDirectories(config, fs')
      case Err(_) => false
      case Ok(dramas) =>
        if dramas == [] then false
        else
          match WrappedBatch(CreateOrchestrator(config), t, fs', stages, dramas, operation, true, config.enableResume, escaped, clock)
          case Err(_) => false
          case Ok(b) => CompletedCount(b.results) == |b.results|
  }

  /**
   * A run succeeds exactly when `create_orchestrator` returned, units were
   * found on the filesystem it left, and the batch returned with every
   * result COMPLETED; with resume on and every unit already done, the batch
   * returns nothing and the run succeeds.
   */
  lemma RunSucceeds(config: ProcessingConfig, disk: State.StateFile, fs: FileSystem, stages: Stages, operation: string,
                    escaped: nat -> Option<string>, clock: nat -> real)
    ensures Run(config, disk, fs, stages, operation, escaped, clock)
        <==> (Setup(config, disk, fs).Ok?
              && var fs' := Setup(config, disk, fs).value.1;
                 ScanDramaDirectories(config, fs').Ok? && ScanDramaDirectories(config, fs').value != []
                 && var b := WrappedBatch(CreateOrchestrator(config), Setup(config, disk, fs).value.0, fs', stages,
                                          ScanDramaDirectories(config, fs').value, operation, true, config.enableResume, escaped, clock);
                    (b.Ok? && forall i :: 0 <= i < |b.value.results| ==> b.value.results[i].status == Completed))
    ensures (Setup(config, disk, fs).Ok? && config.enableResume
             && var fs' := Setup(config, disk, fs).value.1;
                ScanDramaDirectories(config, fs').Ok? && ScanDramaDirectories(config, fs').value != []
                && State.PendingUnits(Setup(config, disk, fs).value.0, fs', ScanDramaDirectories(config, fs').value, operation) == [])
            ==> Run(config, disk, fs, stages, operation, escaped, clock)
  {
    if Setup(config, disk, fs).Ok? {
      var t := Setup(config, disk, fs).value.0;
      var fs' := Setup(config, disk, fs).value.1;
      if ScanDramaDirectories(config, fs').Ok? && ScanDramaDirectories(config, fs').value != [] {
        var b := WrappedBatch(CreateOrchestrator(config), t, fs', stages, ScanDramaDirectories(config, fs').value,
                              operation, true, config.enableResume, escaped, clock);
        if b.Ok? {
          AllCompleted(b.value.results);
        }
      }
    }
  }

  /**
   * Whatever the units and stages, a run fails, as written and as intended,
   * when resume is on and the state file raises on loading (a top level
   * that is not a JSON object, or an item that is not one), or when reports
   * are on and `report_dir` or one of its ancestors is a regular file.
   */
  lemma SetupFailureFails(config: ProcessingConfig, disk: State.StateFile, fs: FileSystem, stages: Stages, operation: string,
                          escaped: nat -> Option<string>, clock: nat -> real)
    requires (config.enableResume && State.Restored(disk).Err?) || (config.generateReport && ReportDirBlocked(config, fs))
    ensures !Run(config, disk, fs, stages, operation, escaped, clock)
    ensures !RunAsWritten(config, disk, fs, stages, operation, escaped, clock)
  {
  }

  /** In particular a state file whose top level is not a JSON object fails every resumed run. */
  lemma NotAMappingFails(config: ProcessingConfig, typeName: string, fs: FileSystem, stages: Stages, operation: string,
                         escaped: nat -> Option<string>, clock: nat -> real)
    requires config.enableResume
    ensures !Run(config, State.NotAMapping(typeName), fs, stages, operation, escaped, clock)
  {
    SetupFailureFails(config, State.NotAMapping(typeName), fs, stages, operation, escaped, clock);
  }

  /**
   * A `report_dir` of `x/reports` where `x` is a regular file: `os.mkdir`
   * raises NotADirectoryError, which `exist_ok` does not cover, and the run
   * fails.
   */
  lemma FileAboveReportDirFails(config: ProcessingConfig, disk: State.StateFile, stages: Stages, operation: string,
                                escaped: nat -> Option<string>, clock: nat -> real)
    requires config.generateReport && !config.enableResume && config.reportDir == Some(["x", "reports"])
    ensures var fs := FileSystem([["x"]], map[["x"] := false]);
      && fs.Valid()
      && Setup(config, disk, fs) == Err(NotADirectory(["x", "reports"]))
      && !Run(config, disk, fs, stages, operation, escaped, clock)
  {
    var fs := FileSystem([["x"]], map[["x"] := false]);
    assert ["x", "reports"][..1] == ["x"];
    assert fs.FileAbove(["x", "reports"]);
  }

  /** The two verdicts agree whenever the outermost orchestrator has a wrapper. */
  lemma RunAsWrittenWithWrapper(config: ProcessingConfig, disk: State.StateFile, fs: FileSystem, stages: Stages, operation: string,
                                escaped: nat -> Option<string>, clock: nat -> real)
    requires config.enableResume || config.generateReport
    ensures RunAsWritten(config, disk, fs, stages, operation, escaped, clock) == Run(config, disk, fs, stages, operation, escaped, clock)
  {
  }

  /**
   * Without either wrapper every run fails, even when each unit is
   * processed to completion: with resume and reports switched off, a root
   * whose units all merge reports failure. Nothing is loaded or created
   * first in that configuration.
   */
  lemma RunWithoutWrappersFails(config: ProcessingConfig, disk: State.StateFile, fs: FileSystem, stages: Stages, operation: string,
                                escaped: nat -> Option<string>, clock: nat -> real)
    requires !config.enableResume && !config.generateReport
    ensures !RunAsWritten(config, disk, fs, stages, operation, escaped, clock)
    ensures ScanDramaDirectories(config, fs).Ok? && ScanDramaDirectories(config, fs).value != [] && config.maxWorkers <= 1
            && SequentialBatch(fs, stages, ScanDramaDirectories(config, fs).value, operation, true, clock).Ok?
            && (forall i :: 0 <= i < |SequentialBatch(fs, stages, ScanDramaDirectories(config, fs).value, operation, true, clock).value.results|
                  ==> SequentialBatch(fs, stages, ScanDramaDirectories(config, fs).value, operation, true, clock).value.results[i].status == Completed)
            ==> Run(config, disk, fs, stages, operation, escaped, clock)
  {
    assert Setup(config, disk, fs) == Ok((State.EmptyTable, fs));
    RunSucceeds(config, disk, fs, stages, operation, escaped, clock);
  }

  // ---------------------------------------------------------------------
  // The report wrapper

  /** What the report wrapper wraps: a plain orchestrator (with its worker count when concurrent) or a resumable one. */
  datatype Inner = Plain(orchestrator: Orchestrator, workers: Option<int>) | Resuming(resumable: ResumableOrchestrator)

  /** The results the wrapped orchestrator returns: the plain one is called without `skip_completed`. */
  function InnerResults(inner: Inner, t: State.StateTable, dramas: seq<Path>, operation: string, callback: bool, skipCompleted: bool,
                        escaped: nat -> Option<string>, clock: nat -> real): Result<BatchRun>
  {
    match inner
    case Plain(o, workers) => InnerBatch(o.fs, o.stages, workers, dramas, operation, callback, escaped, clock)
    case Resuming(r) => ResumedBatch(t, r.base.fs, r.base.stages, r.workers, dramas, operation, callback, skipCompleted, escaped, clock)
  }

  /** `ReportingWrapper`. */
  class ReportingWrapper {
    const inner: Inner

    constructor(inner: Inner)
      ensures this.inner == inner
    {
      this.inner := inner;
    }

    /** The state store the wrapped orchestrator writes, if any. */
    function Store(): set<object>
    {
      if inner.Resuming? then {inner.resumable.stateManager} else {}
    }

    /**
     * `process_batch`: a report over all the units given, the wrapped
     * orchestrator's results returned unchanged, and those results
     * partitioned into the report's lists in order. The report file and the
     * printed summary are not modelled.
     */
    method ProcessBatch(dramas: seq<Path>, operation: string, callback: bool, skipCompleted: bool,
                        escaped: nat -> Option<string>, clock: nat -> real, now: nat -> string, startTime: real, endTime: real)
      returns (r: Result<BatchRun>, report: Report.DetailedProcessingReport)
      requires inner.Resuming? ==> inner.resumable.stateManager.Valid()
      modifies Store()
      ensures fresh(report)
      ensures inner.Plain? ==> r == InnerResults(inner, State.StateTable([], map[]), dramas, operation, callback, skipCompleted, escaped, clock)
      ensures inner.Resuming? ==>
        r == InnerResults(inner, old(inner.resumable.stateManager.table), dramas, operation, callback, skipCompleted, escaped, clock)
        && inner.resumable.stateManager.Valid()
        && (r.Ok? ==> inner.resumable.stateManager.table == WriteBack(old(inner.resumable.stateManager.table), r.value.results, operation, now))
      ensures report.operation == operation && report.startTime == startTime && report.totalTasks == |dramas|
      ensures r.Ok? ==> report.successfulTasks == SuccessfulPaths(r.value.results)
                        && report.failedTasks == FailedPairs(r.value.results)
                        && report.skippedTasks == SkippedPairs(r.value.results)
                        && report.endTime == Some(endTime)
    {
      report := new Report.DetailedProcessingReport(operation, startTime, |dramas|);
      match inner {
        case Plain(o, workers) =>
          if workers.Some? && workers.value > 1 {
            IndicesComplete(|dramas|);
            r := o.ProcessBatchConcurrently(dramas, operation, Indices(|dramas|), callback, escaped, clock);
          } else {
            r := o.ProcessBatch(dramas, operation, callback, clock);
          }
        case Resuming(resumable) =>
          r := resumable.ProcessBatch(dramas, operation, callback, skipCompleted, escaped, clock, now);
      }
      if r.Ok? {
        Collect(report, r.value.results);
        report.endTime := Some(endTime);
      }
    }
  }
}
