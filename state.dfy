// state.py: the resumable state store. One record per "<unit name>:<operation>"
// key, overwritten by every mark and written back to the state file after
// each; a task counts as done only while every output it recorded still
// exists. The state file is modelled by its decoded JSON shape.
module State {
  import opened Results
  import opened Paths
  import opened Models

  /** `ProcessingState`. */
  datatype ProcessingState = ProcessingState(
    dramaDir: string,
    operation: string,
    status: ProcessingStatus,
    timestamp: string,
    outputFiles: seq<string>,
    errorMessage: Option<string>)

  /** A dict of records: its keys in insertion order, and the mapping. */
  datatype StateTable = StateTable(keys: seq<string>, records: map<string, ProcessingState>)
  {
    ghost predicate Valid()
    {
      (forall i, j :: 0 <= i < j < |keys| ==> keys[i] != keys[j])
      && forall k :: k in records <==> k in keys
    }

    /** `d[key] = record`: a new key goes last, an existing one keeps its place. */
    function Put(key: string, record: ProcessingState): (r: StateTable)
      ensures r.records == records[key := record]
      ensures Valid() ==> r.Valid()
    {
      StateTable(if key in records then keys else keys + [key], records[key := record])
    }
  }

  const EmptyTable := StateTable([], map[])

  /** `get_state_key`: only the last component of the unit's path is used. */
  function StateKey(drama: Path, operation: string): string
  {
    Name(drama) + ":" + operation
  }

  /** Units with one name under different parents share their records. */
  lemma StateKeyIgnoresParent(a: Path, b: Path, operation: string)
    requires Name(a) == Name(b)
    ensures StateKey(a, operation) == StateKey(b, operation)
  {
  }

  // ---------------------------------------------------------------------
  // Reading a table

  /** `is_completed`'s verdict: a COMPLETED record whose every output still exists. */
  predicate Done(t: StateTable, fs: FileSystem, key: string)
  {
    key in t.records && t.records[key].status == Completed
    && forall i :: 0 <= i < |t.records[key].outputFiles| ==> fs.Exists(FromString(t.records[key].outputFiles[i]))
  }

  /** `get_pending_tasks`: the units not done, in order. */
  function PendingUnits(t: StateTable, fs: FileSystem, dramas: seq<Path>, operation: string): (r: seq<Path>)
    ensures |r| <= |dramas|
  {
    if |dramas| == 0 then []
    else
      var last := dramas[|dramas| - 1];
      PendingUnits(t, fs, dramas[..|dramas| - 1], operation) + (if Done(t, fs, StateKey(last, operation)) then [] else [last])
  }

  /** The counts `get_summary` reports; every status other than COMPLETED and FAILED counts as pending. */
  datatype Summary = Summary(total: nat, completed: nat, failed: nat, pending: nat)

  function Tally(records: seq<ProcessingState>): (s: Summary)
  {
    if |records| == 0 then Summary(0, 0, 0, 0)
    else Counted(Tally(records[..|records| - 1]), records[|records| - 1].status)
  }

  /** One more record counted under its status. */
  function Counted(s: Summary, status: ProcessingStatus): Summary
  {
    match status
    case Completed => s.(completed := s.completed + 1)
    case Failed => s.(failed := s.failed + 1)
    case _ => s.(pending := s.pending + 1)
  }

  /** The records of a table in key order. */
  function Values(t: StateTable, keys: seq<string>): (r: seq<ProcessingState>)
    requires forall i :: 0 <= i < |keys| ==> keys[i] in t.records
    ensures |r| == |keys|
  {
    if |keys| == 0 then [] else Values(t, keys[..|keys| - 1]) + [t.records[keys[|keys| - 1]]]
  }

  /** Tallying one more key counts its record under its status. */
  lemma TallyNext(t: StateTable, keys: seq<string>, i: nat)
    requires i < |keys| && forall j :: 0 <= j < |keys| ==> keys[j] in t.records
    ensures Tally(Values(t, keys[..i + 1])) == Counted(Tally(Values(t, keys[..i])), t.records[keys[i]].status)
  {
    assert keys[..i + 1][..i] == keys[..i];
    var v := Values(t, keys[..i + 1]);
    assert v[..i] == Values(t, keys[..i]);
  }

  /** The counting loop of `get_summary` over the given keys. */
  method TallyKeys(t: StateTable, keys: seq<string>) returns (s: Summary)
    requires forall j :: 0 <= j < |keys| ==> keys[j] in t.records
    ensures s == Tally(Values(t, keys))
  {
    s := Summary(0, 0, 0, 0);
    var i := 0;
    while i < |keys|
      invariant 0 <= i <= |keys|
      invariant s == Tally(Values(t, keys[..i]))
    {
      TallyNext(t, keys, i);
      s := Counted(s, t.records[keys[i]].status);
      i := i + 1;
    }
    assert keys[..i] == keys;
  }

  function SummaryOf(t: StateTable): Summary
    requires t.Valid()
  {
    var s := Tally(Values(t, t.keys));
    s.(total := |t.records|)
  }

  /** The tallies split the records: every record is counted exactly once. */
  lemma {:induction false} TallySplits(records: seq<ProcessingState>)
    ensures var s := Tally(records); s.completed + s.failed + s.pending == |records|
    ensures Tally(records).completed == |CompletedAt(records)|
  {
    if |records| > 0 {
      TallySplits(records[..|records| - 1]);
      CompletedAtNext(records);
    }
  }

  /** The indices of the COMPLETED records. */
  function CompletedAt(records: seq<ProcessingState>): set<int>
  {
    set i | 0 <= i < |records| && records[i].status == Completed
  }

  lemma CompletedAtNext(records: seq<ProcessingState>)
    requires |records| > 0
    ensures var n := |records| - 1;
            CompletedAt(records) == CompletedAt(records[..n]) + (if records[n].status == Completed then {n} else {})
            && n !in CompletedAt(records[..n])
  {
    var n := |records| - 1;
    forall i
      ensures i in CompletedAt(records) <==> i in CompletedAt(records[..n]) || (i == n && records[n].status == Completed)
    {
      if 0 <= i < n {
        assert records[..n][i] == records[i];
      }
    }
  }

  /** `get_summary`: the total is the number of records and is split by the three counts. */
  lemma SummaryFacts(t: StateTable)
    requires t.Valid()
    ensures var s := SummaryOf(t); s.total == |t.records| && s.completed + s.failed + s.pending == s.total
  {
    TallySplits(Values(t, t.keys));
    KeysCount(t);
  }

  lemma KeysCount(t: StateTable)
    requires t.Valid()
    ensures |t.records| == |t.keys|
  {
    var ks := set i | 0 <= i < |t.keys| :: t.keys[i];
    assert t.records.Keys == ks;
    DistinctCard(t.keys);
  }

  lemma {:induction false} DistinctCard(keys: seq<string>)
    requires forall i, j :: 0 <= i < j < |keys| ==> keys[i] != keys[j]
    ensures |set i | 0 <= i < |keys| :: keys[i]| == |keys|
  {
    if |keys| > 0 {
      var n := |keys| - 1;
      DistinctCard(keys[..n]);
      var before := set i | 0 <= i < n :: keys[..n][i];
      var after := set i | 0 <= i < |keys| :: keys[i];
      assert after == before + {keys[n]};
      assert keys[n] !in before;
    }
  }

  /** The pending units are exactly the units not done, in their input order. */
  lemma {:induction false} PendingMembers(t: StateTable, fs: FileSystem, dramas: seq<Path>, operation: string)
    ensures forall p :: p in PendingUnits(t, fs, dramas, operation) <==> p in dramas && !Done(t, fs, StateKey(p, operation))
  {
    if |dramas| > 0 {
      PendingMembers(t, fs, dramas[..|dramas| - 1], operation);
      assert dramas == dramas[..|dramas| - 1] + [dramas[|dramas| - 1]];
    }
  }

  lemma {:induction false} PendingAppend(t: StateTable, fs: FileSystem, a: seq<Path>, b: seq<Path>, operation: string)
    ensures PendingUnits(t, fs, a + b, operation) == PendingUnits(t, fs, a, operation) + PendingUnits(t, fs, b, operation)
    decreases |b|
  {
    if |b| == 0 {
      assert a + b == a;
    } else {
      assert (a + b)[..|a + b| - 1] == a + b[..|b| - 1];
      PendingAppend(t, fs, a, b[..|b| - 1], operation);
    }
  }

  // ---------------------------------------------------------------------
  // The state file

  /** A record as stored; None for a field the JSON object lacks (a null error message reads as absent). */
  datatype StoredRecord = StoredRecord(
    dramaDir: Option<string>,
    operation: Option<string>,
    status: Option<string>,
    timestamp: Option<string>,
    outputFiles: Option<seq<string>>,
    errorMessage: Option<string>)

  /** A value of the top-level JSON object: a record, or a JSON value of another type (named as Python names it). */
  datatype StoredEntry = Record(record: StoredRecord) | NotAnObject(typeName: string)

  /** The state file: absent, not valid JSON, a JSON object (its items in order) or another JSON value. */
  datatype StateFile = Missing | Unreadable | Document(entries: seq<(string, StoredEntry)>) | NotAMapping(typeName: string)

  /** `str(e)` of the AttributeError `data.items()` raises on a JSON value that is not an object. */
  function NoItems(typeName: string): string
  {
    "'" + typeName + "' object has no attribute 'items'"
  }

  /** `str(e)` of the TypeError `state_dict['drama_dir']` raises on a JSON value that is not an object. */
  function NotSubscriptable(typeName: string): string
  {
    if typeName == "str" then "string indices must be integers, not 'str'"
    else if typeName == "list" then "list indices must be integers or slices, not str"
    else "'" + typeName + "' object is not subscriptable"
  }

  /** The record `load_state` builds from a stored one; None where it raises KeyError or ValueError. */
  function RecordFrom(r: StoredRecord): (s: Option<ProcessingState>)
    ensures s.Some? <==> r.dramaDir.Some? && r.operation.Some? && r.status.Some? && r.timestamp.Some?
                         && r.outputFiles.Some? && StatusFromValue(r.status.value).Some?
  {
    if r.dramaDir.None? || r.operation.None? || r.status.None? then None
    else
      match StatusFromValue(r.status.value)
      case None => None
      case Some(status) =>
        if r.timestamp.None? || r.outputFiles.None? then None
        else Some(ProcessingState(r.dramaDir.value, r.operation.value, status, r.timestamp.value, r.outputFiles.value, r.errorMessage))
  }

  /** How reading the items went: all read, a caught error (the store restarts empty), or an escaping one. */
  datatype Loading = Loaded(table: StateTable) | Corrupt | Raised(message: string)

  /** The loop of `load_state` over the items, in order. */
  function LoadEntries(entries: seq<(string, StoredEntry)>): Loading
  {
    if |entries| == 0 then Loaded(EmptyTable)
    else
      match LoadEntries(entries[..|entries| - 1])
      case Loaded(t) =>
        var (key, entry) := entries[|entries| - 1];
        (match entry
         case NotAnObject(typeName) => Raised(NotSubscriptable(typeName))
         case Record(r) =>
           match RecordFrom(r)
           case None => Corrupt
           case Some(s) => Loaded(t.Put(key, s)))
      case other => other
  }

  /** `load_state`: the table read from the file, or the error that escapes it. */
  function Restored(file: StateFile): Result<StateTable>
  {
    match file
    case Missing => Ok(EmptyTable)
    case Unreadable => Ok(EmptyTable)
    case NotAMapping(typeName) => Err(NoItems(typeName))
    case Document(entries) =>
      match LoadEntries(entries)
      case Loaded(t) => Ok(t)
      case Corrupt => Ok(EmptyTable)
      case Raised(m) => Err(m)
  }

  /** A missing, unreadable or corrupt state file gives an empty store: the whole table is dropped, not the bad record. */
  lemma LoadCorrupt(entries: seq<(string, StoredEntry)>, k: nat)
    requires k < |entries| && entries[k].1.Record? && RecordFrom(entries[k].1.record).None?
    requires forall i :: 0 <= i < k ==> entries[i].1.Record?
    ensures Restored(Document(entries)) == Ok(EmptyTable)
  {
    LoadStops(entries[..k + 1], entries, k);
    assert entries[..k + 1][..k] == entries[..k];
    LoadReachesItem(entries[..k]);
  }

  /**
   * Items that are not JSON objects are not caught: a top level that is
   * not an object raises from `items()`, and the first item that is not an
   * object, reached before any bad record, raises on its first field.
   */
  lemma LoadRaises(entries: seq<(string, StoredEntry)>, k: nat, typeName: string)
    requires k < |entries| && entries[k].1 == NotAnObject(typeName)
    requires forall i :: 0 <= i < k ==> entries[i].1.Record? && RecordFrom(entries[i].1.record).Some?
    ensures Restored(Document(entries)) == Err(NotSubscriptable(typeName))
    ensures Restored(NotAMapping(typeName)) == Err(NoItems(typeName))
  {
    LoadAllValid(entries[..k]);
    assert entries[..k + 1][..k] == entries[..k];
    LoadStops(entries[..k + 1], entries, k);
  }

  lemma {:induction false} LoadAllValid(entries: seq<(string, StoredEntry)>)
    requires forall i :: 0 <= i < |entries| ==> entries[i].1.Record? && RecordFrom(entries[i].1.record).Some?
    ensures LoadEntries(entries).Loaded?
  {
    if |entries| > 0 {
      LoadAllValid(entries[..|entries| - 1]);
    }
  }

  lemma {:induction false} LoadReachesItem(entries: seq<(string, StoredEntry)>)
    requires forall i :: 0 <= i < |entries| ==> entries[i].1.Record?
    ensures LoadEntries(entries).Loaded? || LoadEntries(entries).Corrupt?
  {
    if |entries| > 0 {
      LoadReachesItem(entries[..|entries| - 1]);
    }
  }

  /** Once reading stops, later items change nothing. */
  lemma {:induction false} LoadStops(prefix: seq<(string, StoredEntry)>, entries: seq<(string, StoredEntry)>, k: nat)
    requires k < |entries| && prefix == entries[..k + 1] && !LoadEntries(prefix).Loaded?
    ensures LoadEntries(entries) == LoadEntries(prefix)
    decreases |entries|
  {
    if |entries| > k + 1 {
      var n := |entries| - 1;
      assert entries[..n][..k + 1] == prefix;
      LoadStops(prefix, entries[..n], k);
    } else {
      assert entries == prefix;
    }
  }

  /** The stored form of a record. */
  function Stored(s: ProcessingState): StoredRecord
  {
    StoredRecord(Some(s.dramaDir), Some(s.operation), Some(s.status.Value()), Some(s.timestamp),
                 Some(s.outputFiles), s.errorMessage)
  }

  /** The items `save_state` writes for the given keys. */
  function StoredItems(t: StateTable, keys: seq<string>): (r: seq<(string, StoredEntry)>)
    requires forall i :: 0 <= i < |keys| ==> keys[i] in t.records
    ensures |r| == |keys|
  {
    if |keys| == 0 then []
    else
      var key := keys[|keys| - 1];
      StoredItems(t, keys[..|keys| - 1]) + [(key, Record(Stored(t.records[key])))]
  }

  /** `save_state`: the table as a JSON object, in key order. */
  function Saved(t: StateTable): StateFile
    requires t.Valid()
  {
    Document(StoredItems(t, t.keys))
  }

  lemma RecordRoundTrip(s: ProcessingState)
    ensures RecordFrom(Stored(s)) == Some(s)
  {
    StatusValueRoundTrip(s.status);
  }

  /** `load_state` after `save_state` gives back every record, field for field, in the same order. */
  lemma SaveLoadRoundTrip(t: StateTable)
    requires t.Valid()
    ensures Restored(Saved(t)) == Ok(t)
  {
    LoadStoredItems(t, |t.keys|);
    assert t.keys[..|t.keys|] == t.keys;
    assert t.records == Restrict(t, t.keys);
  }

  /** The part of a table's mapping for the given keys. */
  function Restrict(t: StateTable, keys: seq<string>): map<string, ProcessingState>
  {
    map k | k in keys && k in t.records :: t.records[k]
  }

  lemma {:induction false} LoadStoredItems(t: StateTable, n: nat)
    requires t.Valid() && n <= |t.keys|
    ensures LoadEntries(StoredItems(t, t.keys[..n])) == Loaded(StateTable(t.keys[..n], Restrict(t, t.keys[..n])))
  {
    if n > 0 {
      var keys := t.keys[..n];
      var key := keys[n - 1];
      assert keys[..n - 1] == t.keys[..n - 1];
      LoadStoredItems(t, n - 1);
      RecordRoundTrip(t.records[key]);
      var before := StateTable(t.keys[..n - 1], Restrict(t, t.keys[..n - 1]));
      LastKeyFresh(t, n);
      assert keys == t.keys[..n - 1] + [key];
      RestrictSnoc(t, t.keys[..n - 1], key);
    }
  }

  /** The `n`-th key of a valid table is not among the keys before it. */
  lemma LastKeyFresh(t: StateTable, n: nat)
    requires t.Valid() && 0 < n <= |t.keys|
    ensures t.keys[n - 1] !in Restrict(t, t.keys[..n - 1])
  {
    forall i | 0 <= i < n - 1
      ensures t.keys[i] != t.keys[n - 1]
    {
    }
  }

  lemma RestrictSnoc(t: StateTable, keys: seq<string>, key: string)
    requires key in t.records
    ensures Restrict(t, keys + [key]) == Restrict(t, keys)[key := t.records[key]]
  {
    var a := Restrict(t, keys + [key]);
    var b := Restrict(t, keys)[key := t.records[key]];
    assert a.Keys == b.Keys;
    forall k | k in a
      ensures a[k] == b[k]
    {
    }
  }

  // ---------------------------------------------------------------------
  // The store

  class StateManager {
    const stateFile: Path
    /** `states`. */
    var table: StateTable
    /** The contents of `state_file`. */
    var disk: StateFile

    ghost predicate Valid()
      reads this
    {
      table.Valid()
    }

    /** `__init__` up to the call of `load_state`: an empty store over the given file. */
    constructor(stateFile: Path, disk: StateFile)
      ensures this.stateFile == stateFile && this.disk == disk && table == EmptyTable && Valid()
    {
      this.stateFile := stateFile;
      this.disk := disk;
      table := EmptyTable;
    }

    /**
     * `load_state`. A caught error leaves the store empty; an escaping one
     * leaves the records read before it, as the loop had put them.
     */
    method LoadState() returns (r: Result<()>)
      requires Valid()
      modifies this
      ensures disk == old(disk) && Valid()
      ensures r.Ok? <==> Restored(disk).Ok?
      ensures r.Ok? ==> table == Restored(disk).value
      ensures r.Err? ==> r.error == Restored(disk).error
    {
      match disk
      case Missing =>
        table := EmptyTable;
        return Ok(());
      case Unreadable =>
        table := EmptyTable;
        return Ok(());
      case NotAMapping(typeName) =>
        return Err(NoItems(typeName));
      case Document(entries) =>
        table := EmptyTable;
        var i := 0;
        while i < |entries|
          invariant 0 <= i <= |entries| && table.Valid() && disk == old(disk)
          invariant LoadEntries(entries[..i]) == Loaded(table)
        {
          assert entries[..i + 1][..i] == entries[..i];
          var (key, entry) := entries[i];
          match entry {
            case NotAnObject(typeName) =>
              LoadStops(entries[..i + 1], entries, i);
              return Err(NotSubscriptable(typeName));
            case Record(stored) =>
              var record := RecordFrom(stored);
              if record.None? {
                LoadStops(entries[..i + 1], entries, i);
                table := EmptyTable;
                return Ok(());
              }
              table := table.Put(key, record.value);
          }
          i := i + 1;
        }
        assert entries[..i] == entries;
        return Ok(());
    }

    /** `save_state`: the file now holds the table. */
    method SaveState()
      requires Valid()
      modifies this
      ensures table == old(table) && disk == Saved(table)
    {
      disk := Saved(table);
    }

    /** `is_completed`. */
    method IsCompleted(fs: FileSystem, drama: Path, operation: string) returns (r: bool)
      ensures r == Done(table, fs, StateKey(drama, operation))
    {
      var key := StateKey(drama, operation);
      if key !in table.records {
        return false;
      }
      var state := table.records[key];
      if state.status != Completed {
        return false;
      }
      var i := 0;
      while i < |state.outputFiles|
        invariant 0 <= i <= |state.outputFiles|
        invariant forall j :: 0 <= j < i ==> fs.Exists(FromString(state.outputFiles[j]))
      {
        if !fs.Exists(FromString(state.outputFiles[i])) {
          return false;
        }
        i := i + 1;
      }
      return true;
    }

    /** `mark_completed`: the key's record is replaced by a COMPLETED one, then the store is saved. */
    method MarkCompleted(drama: Path, operation: string, outputs: seq<Path>, now: string)
      requires Valid()
      modifies this
      ensures Valid() && disk == Saved(table)
      ensures table == old(table).Put(StateKey(drama, operation), CompletedRecord(drama, operation, outputs, now))
    {
      table := table.Put(StateKey(drama, operation), CompletedRecord(drama, operation, outputs, now));
      SaveState();
    }

    /** `mark_failed`: the key's record is replaced by a FAILED one with no outputs, then the store is saved. */
    method MarkFailed(drama: Path, operation: string, message: string, now: string)
      requires Valid()
      modifies this
      ensures Valid() && disk == Saved(table)
      ensures table == old(table).Put(StateKey(drama, operation), FailedRecord(drama, operation, message, now))
    {
      table := table.Put(StateKey(drama, operation), FailedRecord(drama, operation, message, now));
      SaveState();
    }

    /** `get_pending_tasks`. */
    method GetPendingTasks(fs: FileSystem, dramas: seq<Path>, operation: string) returns (pending: seq<Path>)
      ensures pending == PendingUnits(table, fs, dramas, operation)
    {
      pending := [];
      var i := 0;
      while i < |dramas|
        invariant 0 <= i <= |dramas|
        invariant pending == PendingUnits(table, fs, dramas[..i], operation)
      {
        assert dramas[..i + 1][..i] == dramas[..i];
        var done := IsCompleted(fs, dramas[i], operation);
        if !done {
          pending := pending + [dramas[i]];
        }
        i := i + 1;
      }
      assert dramas[..i] == dramas;
    }

    /** `get_summary`. */
    method GetSummary() returns (s: Summary)
      requires Valid()
      ensures s == SummaryOf(table)
    {
      var t := table;
      assert forall j :: 0 <= j < |t.keys| ==> t.keys[j] in t.records;
      s := TallyKeys(t, t.keys);
      s := s.(total := |t.records|);
    }
  }

  /** `[str(f) for f in output_files]`. */
  function PathStrings(paths: seq<Path>): (r: seq<string>)
    ensures |r| == |paths| && forall i :: 0 <= i < |paths| ==> r[i] == ToString(paths[i])
  {
    if |paths| == 0 then [] else PathStrings(paths[..|paths| - 1]) + [ToString(paths[|paths| - 1])]
  }

  function CompletedRecord(drama: Path, operation: string, outputs: seq<Path>, now: string): ProcessingState
  {
    ProcessingState(ToString(drama), operation, Completed, now, PathStrings(outputs), None)
  }

  function FailedRecord(drama: Path, operation: string, message: string, now: string): ProcessingState
  {
    ProcessingState(ToString(drama), operation, Failed, now, [], Some(message))
  }

  /**
   * After `mark_completed`, the task is done exactly while all its outputs
   * exist: deleting one makes it pending again without any call on the store.
   * Every other key keeps its record.
   */
  lemma DoneAfterCompleted(t: StateTable, fs: FileSystem, drama: Path, operation: string, outputs: seq<Path>, now: string)
    requires forall i :: 0 <= i < |outputs| ==> WellFormed(outputs[i])
    ensures var t' := t.Put(StateKey(drama, operation), CompletedRecord(drama, operation, outputs, now));
      (Done(t', fs, StateKey(drama, operation)) <==> forall i :: 0 <= i < |outputs| ==> fs.Exists(outputs[i]))
      && forall k :: k != StateKey(drama, operation) ==> (k in t'.records <==> k in t.records) && (k in t.records ==> t'.records[k] == t.records[k])
  {
    var files := PathStrings(outputs);
    forall i | 0 <= i < |outputs|
      ensures FromString(files[i]) == outputs[i]
    {
      PathStringRoundTrip(outputs[i]);
    }
  }

  /** After `mark_failed` the task is not done, whatever was recorded before, and other keys keep their records. */
  lemma NotDoneAfterFailed(t: StateTable, fs: FileSystem, drama: Path, operation: string, message: string, now: string)
    ensures var t' := t.Put(StateKey(drama, operation), FailedRecord(drama, operation, message, now));
      !Done(t', fs, StateKey(drama, operation))
      && t'.records[StateKey(drama, operation)].errorMessage == Some(message)
      && forall k :: k != StateKey(drama, operation) ==> (k in t'.records <==> k in t.records) && (k in t.records ==> t'.records[k] == t.records[k])
  {
  }
}
