// report.py: the detailed batch report. The orchestrators append to its
// three lists; the derived figures and the dictionary written to the report
// file are computed from them. Times are seconds on a real line; their ISO
// rendering, the "%.2f%%" rendering of the success rate and the file itself
// are not modelled.
module Report {
  import opened Results
  import opened Models

  datatype FailedEntry = FailedEntry(path: string, error: string)
  datatype SkippedEntry = SkippedEntry(path: string, reason: string)

  /** The dictionary `to_dict` builds. */
  datatype ReportDict = ReportDict(
    operation: string,
    startTime: real,
    endTime: Option<real>,
    durationSeconds: real,
    totalTasks: nat,
    successfulCount: nat,
    failedCount: nat,
    skippedCount: nat,
    successRate: real,
    successfulTasks: seq<string>,
    failedTasks: seq<FailedEntry>,
    skippedTasks: seq<SkippedEntry>)

  /** `{'path': path, 'error': error}` for each failed pair, in order. */
  function FailedEntries(pairs: seq<(string, string)>): (r: seq<FailedEntry>)
    ensures |r| == |pairs|
    ensures forall i :: 0 <= i < |pairs| ==> r[i] == FailedEntry(pairs[i].0, pairs[i].1)
  {
    if pairs == [] then []
    else FailedEntries(pairs[..|pairs| - 1]) + [FailedEntry(pairs[|pairs| - 1].0, pairs[|pairs| - 1].1)]
  }

  /** `{'path': path, 'reason': reason}` for each skipped pair, in order. */
  function SkippedEntries(pairs: seq<(string, string)>): (r: seq<SkippedEntry>)
    ensures |r| == |pairs|
    ensures forall i :: 0 <= i < |pairs| ==> r[i] == SkippedEntry(pairs[i].0, pairs[i].1)
  {
    if pairs == [] then []
    else SkippedEntries(pairs[..|pairs| - 1]) + [SkippedEntry(pairs[|pairs| - 1].0, pairs[|pairs| - 1].1)]
  }

  /** `DetailedProcessingReport`. */
  class DetailedProcessingReport {
    const operation: string
    const startTime: real
    var endTime: Option<real>
    const totalTasks: nat
    var successfulTasks: seq<string>
    var failedTasks: seq<(string, string)>
    var skippedTasks: seq<(string, string)>

    constructor(operation: string, startTime: real, totalTasks: nat)
      ensures this.operation == operation && this.startTime == startTime && this.totalTasks == totalTasks
      ensures endTime.None? && successfulTasks == [] && failedTasks == [] && skippedTasks == []
    {
      this.operation := operation;
      this.startTime := startTime;
      this.totalTasks := totalTasks;
      endTime := None;
      successfulTasks := [];
      failedTasks := [];
      skippedTasks := [];
    }

    /** `duration_seconds`: nothing until the end time is set. */
    function DurationSeconds(): (r: real)
      reads this
      ensures endTime.None? ==> r == 0.0
      ensures endTime.Some? ==> startTime + r == endTime.value
    {
      if endTime.Some? then endTime.value - startTime else 0.0
    }

    /** `success_rate`: the successful share of all tasks, as a percentage. */
    function SuccessRate(): (r: real)
      reads this
      ensures totalTasks == 0 ==> r == 0.0
      ensures |successfulTasks| <= totalTasks ==> 0.0 <= r <= 100.0
      ensures 0 < totalTasks == |successfulTasks| ==> r == 100.0
    {
      if totalTasks == 0 then 0.0
      else
        PercentageFacts(|successfulTasks|, totalTasks);
        Percentage(|successfulTasks|, totalTasks)
    }

    /** `to_dict`. */
    function ToDict(): (d: ReportDict)
      reads this
      ensures d.successfulCount == |successfulTasks| && d.failedCount == |failedTasks| && d.skippedCount == |skippedTasks|
      ensures d.successfulTasks == successfulTasks
      ensures |d.failedTasks| == |failedTasks|
              && forall i :: 0 <= i < |failedTasks| ==> d.failedTasks[i] == FailedEntry(failedTasks[i].0, failedTasks[i].1)
      ensures |d.skippedTasks| == |skippedTasks|
              && forall i :: 0 <= i < |skippedTasks| ==> d.skippedTasks[i] == SkippedEntry(skippedTasks[i].0, skippedTasks[i].1)
      ensures d.endTime == endTime && d.totalTasks == totalTasks && d.operation == operation
      ensures d.durationSeconds == DurationSeconds() && d.successRate == SuccessRate()
    {
      ReportDict(operation, startTime, endTime, DurationSeconds(), totalTasks,
                 |successfulTasks|, |failedTasks|, |skippedTasks|, SuccessRate(),
                 successfulTasks, FailedEntries(failedTasks), SkippedEntries(skippedTasks))
    }
  }
}
