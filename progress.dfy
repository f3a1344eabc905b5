// progress.py: the progress tracker the entry points hand to the
// orchestrator as its callback. Printing is not modelled; the tracker's
// fields are.
module Progress {
  import opened Models

  /** The fields `current`, `total` and `current_file`. */
  datatype TrackerState = TrackerState(current: int, total: int, currentFile: string)

  /** A new or reset tracker. */
  const Initial := TrackerState(0, 0, "")

  /** The tracker after one callback. */
  function Apply(s: TrackerState, e: ProgressEvent): TrackerState
  {
    match e
    case OnProgress(info) => TrackerState(info.current, info.total, info.currentFile)
    case OnFileStart(file) => s.(currentFile := file)
    case OnFileComplete(_) => s
  }

  /** The tracker after a sequence of callbacks, in order. */
  function Replay(s: TrackerState, events: seq<ProgressEvent>): TrackerState
  {
    if events == [] then s else Apply(Replay(s, events[..|events| - 1]), events[|events| - 1])
  }

  /** `get_progress_percentage`. */
  function PercentageOf(s: TrackerState): (r: real)
    ensures 0 <= s.current <= s.total ==> 0.0 <= r <= 100.0
    ensures s.total != 0 && s.current == s.total ==> r == 100.0
  {
    if s.total == 0 then 0.0
    else
      PercentageFacts(s.current, s.total);
      Percentage(s.current, s.total)
  }

  /**
   * The state after a run of callbacks depends only on the last progress
   * report and the file starts after it: completions change nothing.
   */
  lemma {:induction false} ReplayAfterReport(s: TrackerState, before: seq<ProgressEvent>, info: ProgressInfo, after: seq<ProgressEvent>)
    requires forall k :: 0 <= k < |after| ==> after[k].OnFileComplete?
    ensures Replay(s, before + [OnProgress(info)] + after) == TrackerState(info.current, info.total, info.currentFile)
    decreases |after|
  {
    var all := before + [OnProgress(info)] + after;
    if after == [] {
      assert all[..|all| - 1] == before;
    } else {
      var shorter := after[..|after| - 1];
      assert all[..|all| - 1] == before + [OnProgress(info)] + shorter;
      ReplayAfterReport(s, before, info, shorter);
    }
  }

  /** `ProgressTracker`. */
  class ProgressTracker {
    const showProgress: bool
    var current: int
    var total: int
    var currentFile: string

    function State(): TrackerState
      reads this
    {
      TrackerState(current, total, currentFile)
    }

    constructor(showProgress: bool)
      ensures this.showProgress == showProgress && State() == Initial
    {
      this.showProgress := showProgress;
      current := 0;
      total := 0;
      currentFile := "";
    }

    /** `on_progress`: copies the three fields of the report. */
    method OnProgress(info: ProgressInfo)
      modifies this
      ensures current == info.current && total == info.total && currentFile == info.currentFile
    {
      current := info.current;
      total := info.total;
      currentFile := info.currentFile;
    }

    /** `on_file_start`: only the current file changes. */
    method OnFileStart(filename: string)
      modifies this
      ensures currentFile == filename && current == old(current) && total == old(total)
    {
      currentFile := filename;
    }

    /** `on_file_complete` only prints, so it changes no field (it has no `modifies`). */
    method OnFileComplete(result: ProcessingResult)
    {
    }

    /** `get_progress_percentage`. */
    function GetProgressPercentage(): (r: real)
      reads this
      ensures total == 0 ==> r == 0.0
      ensures 0 <= current <= total ==> 0.0 <= r <= 100.0
      ensures total != 0 && current == total ==> r == 100.0
    {
      PercentageOf(State())
    }

    /** `reset`. */
    method Reset()
      modifies this
      ensures State() == Initial
    {
      current := 0;
      total := 0;
      currentFile := "";
    }

    /** A callback as the orchestrator makes it, dispatched to the method it names. */
    method Notify(e: ProgressEvent)
      modifies this
      ensures State() == Apply(old(State()), e)
    {
      match e {
        case OnProgress(info) => OnProgress(info);
        case OnFileStart(file) => OnFileStart(file);
        case OnFileComplete(result) => OnFileComplete(result);
      }
    }
  }
}
