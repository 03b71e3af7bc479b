/**
 * The record loop of process_and_load_data: counting, de-duplication by trip
 * id, validation and the distance and speed gates, the data-quality log, the
 * pending batch and its flushes, and the cap on valid records.
 *
 * `Step`, `Run` and `Finish` state what one row, the whole loop and the work
 * after the loop do; `DataProcessor.ProcessAndLoadData` is the loop itself,
 * proved to leave the processor exactly as they say.
 */
module Pipeline {
  import opened TripRecord
  import opened Validator
  import opened Features

  /** `self.stats` */
  datatype Stats = Stats(total: nat, valid: nat, invalid: nat, duplicates: nat)

  /** One dictionary of `self.issues_log`. */
  datatype LogEntry = LogEntry(recordId: RowId, issueType: IssueKind, description: string, fieldName: string, value: string)

  /** A `{'row': row, 'features': features}` entry of `valid_records`. */
  datatype ValidRecord = ValidRecord(row: Row, features: TripFeatures)

  /**
   * What the trips and trip_metrics tables and the data_quality_log table
   * accept: whether `insert_batch` commits a batch (otherwise it rolls back
   * and raises) and whether `insert_issues_log` commits the log (otherwise it
   * reports the error and carries on).
   */
  datatype Database = Database(acceptsBatch: seq<ValidRecord> -> bool, acceptsLog: seq<LogEntry> -> bool)

  /** `str(value)[:100]` for a string value: its first 100 characters. */
  function Truncate(s: string): (t: string)
    ensures |t| == if |s| < 100 then |s| else 100
    ensures t <= s
  {
    if |s| <= 100 then s else s[..100]
  }

  /** `str(row['id'])`: the id text, or "None" for a row without one. */
  function IdText(id: RowId): string {
    match id
    case Some(s) => s
    case None => "None"
  }

  /** The entry log_issue appends. */
  function LogEntryOf(id: RowId, kind: IssueKind, description: string, fieldName: string, value: string): LogEntry {
    LogEntry(id, kind, description, fieldName, Truncate(value))
  }

  /** The entries for a rejected row's issues, in order. */
  function LogAll(id: RowId, issues: seq<Issue>): (r: seq<LogEntry>)
    ensures |r| == |issues|
  {
    if |issues| == 0 then []
    else
      var issue := issues[|issues| - 1];
      LogAll(id, issues[..|issues| - 1]) + [LogEntryOf(id, issue.kind, issue.description, issue.field, issue.value)]
  }

  /** The fate of a row whose id is new. */
  datatype Verdict = Rejected(issues: seq<Issue>) | Accepted(record: ValidRecord)

  /** The parsed coordinates and the haversine distance of a valid row. */
  function TripDistance(row: Row, b: Builtins): real
    requires Acceptable(row, b)
  {
    b.haversine(
      b.parseFloat(row["pickup_longitude"]).value,
      b.parseFloat(row["pickup_latitude"]).value,
      b.parseFloat(row["dropoff_longitude"]).value,
      b.parseFloat(row["dropoff_latitude"]).value)
  }

  /** validate_record, then the distance gate, then the speed gate. */
  function ClassifyRow(row: Row, b: Builtins): (v: Verdict)
    ensures v.Rejected? ==> |v.issues| == 1
  {
    var validation := ValidateRecord(row, b);
    if !validation.isValid then Rejected(validation.issues)
    else
      ValidIffAcceptable(row, b);
      ScreenValidRow(row, b)
  }

  /** The distance gate, then the speed gate, for a row validate_record accepted. */
  function ScreenValidRow(row: Row, b: Builtins): (v: Verdict)
    requires Acceptable(row, b)
    ensures v.Rejected? ==> |v.issues| == 1
  {
    var tripDistance := TripDistance(row, b);
    if tripDistance > MAX_TRIP_DISTANCE then
      Rejected([Issue(OutlierDistance, "Distance " + b.fixed2Text(tripDistance) + " miles exceeds maximum",
                      "distance", b.fixed2Text(tripDistance))])
    else
      var tripSpeed := AverageSpeed(tripDistance, b.parseInt(row["trip_duration"]).value);
      if tripSpeed < MIN_SPEED || tripSpeed > MAX_SPEED then
        Rejected([Issue(OutlierSpeed, "Speed " + b.fixed2Text(tripSpeed) + " mph is unrealistic",
                        "speed", b.fixed2Text(tripSpeed))])
      else
        Accepted(ValidRecord(row, ComputeDerivedFeatures(row, tripDistance, b)))
  }

  /**
   * A row is accepted exactly when it is valid, its trip is at most 100 miles
   * and its average speed lies in [0.5, 100] mph; the record kept is the row
   * with its derived features.
   */
  lemma AcceptedIff(row: Row, b: Builtins)
    ensures ClassifyRow(row, b).Accepted? <==>
              && Acceptable(row, b)
              && TripDistance(row, b) <= MAX_TRIP_DISTANCE
              && MIN_SPEED <= AverageSpeed(TripDistance(row, b), b.parseInt(row["trip_duration"]).value) <= MAX_SPEED
    ensures ClassifyRow(row, b).Accepted? ==>
              ClassifyRow(row, b).record == ValidRecord(row, ComputeDerivedFeatures(row, TripDistance(row, b), b))
  {
    ValidIffAcceptable(row, b);
  }

  /**
   * The state of the loop: `self.stats`, `self.issues_log`, `seen_ids`,
   * `valid_records`, the batches committed to the trips tables, the rows
   * committed to data_quality_log, and whether a batch insert raised.
   */
  datatype Progress = Progress(
    stats: Stats,
    log: seq<LogEntry>,
    seenIds: set<RowId>,
    pending: seq<ValidRecord>,
    trips: seq<seq<ValidRecord>>,
    qualityLog: seq<LogEntry>,
    failed: bool)

  /** insert_batch(valid_records), then `valid_records = []` once it commits. */
  function Flush(p: Progress, db: Database): Progress {
    if db.acceptsBatch(p.pending) then p.(trips := p.trips + [p.pending], pending := [])
    else p.(failed := true)
  }

  /** One row of the loop, once the cap check has let it through. */
  function Step(p: Progress, row: Row, b: Builtins, db: Database): Progress {
    var id := IdOf(row);
    var counted := p.stats.(total := p.stats.total + 1);
    if id in p.seenIds then
      p.(stats := counted.(duplicates := counted.duplicates + 1),
         log := p.log + [LogEntryOf(id, DuplicateRecord, "Duplicate trip ID", "id", IdText(id))])
    else
      Admit(p.(stats := counted, seenIds := p.seenIds + {id}), id, ClassifyRow(row, b), db)
  }

  /** A row with a new id, already counted and remembered: log its issue, or add its record to the batch and flush a full batch. */
  function Admit(p: Progress, id: RowId, verdict: Verdict, db: Database): Progress {
    match verdict
    case Rejected(issues) =>
      p.(stats := p.stats.(invalid := p.stats.invalid + 1), log := p.log + LogAll(id, issues))
    case Accepted(record) =>
      var q := p.(stats := p.stats.(valid := p.stats.valid + 1), pending := p.pending + [record]);
      if |q.pending| >= BATCH_SIZE then Flush(q, db) else q
  }

  /** The loop over the rows: it stops at the end of input, at a raised batch insert, or at the cap. */
  function Run(p: Progress, rows: seq<Row>, b: Builtins, db: Database): Progress
    decreases |rows|
  {
    if |rows| == 0 || p.failed || p.stats.valid >= MAX_VALID_RECORDS then p
    else Run(Step(p, rows[0], b, db), rows[1..], b, db)
  }

  /** After the loop: flush what is pending, then write the issues log, whose failure is swallowed. */
  function Finish(p: Progress, db: Database): Progress {
    if p.failed then p
    else
      var q := if |p.pending| > 0 then Flush(p, db) else p;
      if q.failed then q
      else if |q.log| > 0 && db.acceptsLog(q.log) then q.(qualityLog := q.qualityLog + q.log)
      else q
  }

  /** The counters and the log agree, the cap holds, and the batch is short. */
  ghost predicate Consistent(p: Progress) {
    && p.stats.total == p.stats.valid + p.stats.invalid + p.stats.duplicates
    && |p.log| == p.stats.duplicates + p.stats.invalid
    && p.stats.valid <= MAX_VALID_RECORDS
    && |p.pending| <= p.stats.valid
  }

  /**
   * One row keeps the counters consistent; with the cap of 300 below the
   * batch size of 1000, the pending batch never fills inside the loop, so
   * nothing is flushed and nothing fails there.
   */
  lemma StepKeepsConsistent(p: Progress, row: Row, b: Builtins, db: Database)
    requires Consistent(p) && !p.failed && p.stats.valid < MAX_VALID_RECORDS
    ensures Consistent(Step(p, row, b, db))
    ensures !Step(p, row, b, db).failed
    ensures Step(p, row, b, db).trips == p.trips && Step(p, row, b, db).qualityLog == p.qualityLog
    ensures |Step(p, row, b, db).pending| < BATCH_SIZE
  {
    if IdOf(row) !in p.seenIds {
      match ClassifyRow(row, b)
      case Rejected(issues) =>
      case Accepted(record) =>
        assert |p.pending + [record]| < BATCH_SIZE;
    }
  }

  /**
   * The whole loop keeps the counters consistent (total = valid + invalid +
   * duplicates, one log entry per duplicate or invalid row, valid <= 300),
   * and the pending batch stays below BATCH_SIZE.
   */
  lemma {:induction false} RunKeepsConsistent(p: Progress, rows: seq<Row>, b: Builtins, db: Database)
    requires Consistent(p) && !p.failed
    ensures Consistent(Run(p, rows, b, db))
    ensures !Run(p, rows, b, db).failed
    ensures Run(p, rows, b, db).trips == p.trips && Run(p, rows, b, db).qualityLog == p.qualityLog
    ensures |Run(p, rows, b, db).pending| < BATCH_SIZE
    decreases |rows|
  {
    if |rows| > 0 && p.stats.valid < MAX_VALID_RECORDS {
      StepKeepsConsistent(p, rows[0], b, db);
      RunKeepsConsistent(Step(p, rows[0], b, db), rows[1..], b, db);
    }
  }

  /**
   * Once `valid` reaches the cap, no further row is counted or processed: the
   * next row is fetched by the loop header, but the cap check breaks first.
   */
  lemma CapStopsProcessing(p: Progress, rows: seq<Row>, b: Builtins, db: Database)
    requires p.stats.valid >= MAX_VALID_RECORDS
    ensures Run(p, rows, b, db) == p
  {
  }

  /**
   * Every row the loop processes is counted once: `total` grows by at most
   * the number of rows, and by exactly that many unless the cap was reached
   * or a batch insert raised.
   */
  lemma {:induction false} RunCountsRows(p: Progress, rows: seq<Row>, b: Builtins, db: Database)
    ensures Run(p, rows, b, db).stats.total <= p.stats.total + |rows|
    ensures Run(p, rows, b, db).stats.valid < MAX_VALID_RECORDS && !Run(p, rows, b, db).failed
            && p.stats.valid < MAX_VALID_RECORDS && !p.failed
            ==> Run(p, rows, b, db).stats.total == p.stats.total + |rows|
    decreases |rows|
  {
    if |rows| > 0 && !p.failed && p.stats.valid < MAX_VALID_RECORDS {
      var q := Step(p, rows[0], b, db);
      RunCountsRows(q, rows[1..], b, db);
      if q.stats.valid >= MAX_VALID_RECORDS || q.failed {
        assert Run(q, rows[1..], b, db) == q;
      }
    }
  }

  /**
   * A repeated id is counted as a duplicate and logged, and nothing else
   * happens: the row is not validated, whatever it holds.
   */
  lemma DuplicateNotValidated(p: Progress, row: Row, b: Builtins, db: Database)
    requires IdOf(row) in p.seenIds
    ensures Step(p, row, b, db)
            == p.(stats := p.stats.(total := p.stats.total + 1, duplicates := p.stats.duplicates + 1),
                  log := p.log + [LogEntry(IdOf(row), DuplicateRecord, "Duplicate trip ID", "id", Truncate(IdText(IdOf(row))))])
  {
  }

  /** The batches one after the other. */
  function Flatten<T>(batches: seq<seq<T>>): seq<T> {
    if |batches| == 0 then [] else Flatten(batches[..|batches| - 1]) + batches[|batches| - 1]
  }

  lemma FlattenAppend<T>(batches: seq<seq<T>>, batch: seq<T>)
    ensures Flatten(batches + [batch]) == Flatten(batches) + batch
  {
    assert (batches + [batch])[..|batches|] == batches;
  }

  /** The records written or waiting have pairwise distinct ids, all of them seen. */
  ghost predicate DistinctSeenIds(records: seq<ValidRecord>, seen: set<RowId>) {
    && (forall i, j :: 0 <= i < j < |records| ==> IdOf(records[i].row) != IdOf(records[j].row))
    && (forall i :: 0 <= i < |records| ==> IdOf(records[i].row) in seen)
  }

  /** The records of a valid row carry the row's own id. */
  lemma AcceptedKeepsRow(row: Row, b: Builtins)
    requires ClassifyRow(row, b).Accepted?
    ensures ClassifyRow(row, b).record.row == row
  {
    AcceptedIff(row, b);
  }

  lemma StepKeepsIdsDistinct(p: Progress, row: Row, b: Builtins, db: Database)
    requires DistinctSeenIds(Flatten(p.trips) + p.pending, p.seenIds)
    ensures var q := Step(p, row, b, db); DistinctSeenIds(Flatten(q.trips) + q.pending, q.seenIds)
  {
    var id := IdOf(row);
    if id !in p.seenIds {
      var verdict := ClassifyRow(row, b);
      if verdict.Accepted? {
        AcceptedKeepsRow(row, b);
      }
      var counted := p.(stats := p.stats.(total := p.stats.total + 1), seenIds := p.seenIds + {id});
      assert counted.seenIds - {id} == p.seenIds;
      AdmitKeepsIdsDistinct(counted, id, verdict, db);
    }
  }

  /** Admitting the row whose id was just remembered keeps the written and waiting ids distinct. */
  lemma AdmitKeepsIdsDistinct(p: Progress, id: RowId, verdict: Verdict, db: Database)
    requires id in p.seenIds && DistinctSeenIds(Flatten(p.trips) + p.pending, p.seenIds - {id})
    requires verdict.Accepted? ==> IdOf(verdict.record.row) == id
    ensures var q := Admit(p, id, verdict, db); DistinctSeenIds(Flatten(q.trips) + q.pending, q.seenIds)
  {
    var before := Flatten(p.trips) + p.pending;
    match verdict
    case Rejected(_) =>
      MoreSeenKeepsDistinct(before, p.seenIds - {id}, p.seenIds);
    case Accepted(record) =>
      var pending := p.pending + [record];
      AppendKeepsDistinct(before, record, p.seenIds, id);
      assert Flatten(p.trips) + pending == before + [record];
      if |pending| >= BATCH_SIZE && db.acceptsBatch(pending) {
        FlattenAppend(p.trips, pending);
      }
  }

  lemma MoreSeenKeepsDistinct(records: seq<ValidRecord>, seen: set<RowId>, more: set<RowId>)
    requires DistinctSeenIds(records, seen) && seen <= more
    ensures DistinctSeenIds(records, more)
  {
  }

  lemma AppendKeepsDistinct(before: seq<ValidRecord>, record: ValidRecord, seen: set<RowId>, id: RowId)
    requires id in seen && IdOf(record.row) == id && DistinctSeenIds(before, seen - {id})
    ensures DistinctSeenIds(before + [record], seen)
  {
    var after := before + [record];
    forall i, j | 0 <= i < j < |after| ensures IdOf(after[i].row) != IdOf(after[j].row) {
      if j == |before| {
        assert IdOf(after[i].row) in seen - {id};
      }
    }
  }

  /** No trip id is ever kept twice: the de-duplication by `seen_ids` holds over the whole run. */
  lemma {:induction false} RunKeepsIdsDistinct(p: Progress, rows: seq<Row>, b: Builtins, db: Database)
    requires DistinctSeenIds(Flatten(p.trips) + p.pending, p.seenIds)
    ensures var q := Run(p, rows, b, db); DistinctSeenIds(Flatten(q.trips) + q.pending, q.seenIds)
    decreases |rows|
  {
    if |rows| > 0 && !p.failed && p.stats.valid < MAX_VALID_RECORDS {
      StepKeepsIdsDistinct(p, rows[0], b, db);
      RunKeepsIdsDistinct(Step(p, rows[0], b, db), rows[1..], b, db);
    }
  }

  /**
   * A run of a fresh processor writes at most 300 records, each trip id at
   * most once, all in the final flush; the issues log, if written, is the
   * whole of `issues_log`.
   */
  lemma FreshRunOutcome(rows: seq<Row>, b: Builtins, db: Database)
    ensures var r := Finish(Run(Progress(Stats(0, 0, 0, 0), [], {}, [], [], [], false), rows, b, db), db);
            && Consistent(r)
            && |Flatten(r.trips)| <= MAX_VALID_RECORDS
            && (forall i, j :: 0 <= i < j < |Flatten(r.trips)| ==> IdOf(Flatten(r.trips)[i].row) != IdOf(Flatten(r.trips)[j].row))
            && |r.trips| <= 1
            && (r.qualityLog == [] || r.qualityLog == r.log)
  {
    var p := Progress(Stats(0, 0, 0, 0), [], {}, [], [], [], false);
    var q := Run(p, rows, b, db);
    RunKeepsConsistent(p, rows, b, db);
    RunKeepsIdsDistinct(p, rows, b, db);
    assert q.trips == [];
    if |q.pending| > 0 && db.acceptsBatch(q.pending) {
      FlattenAppend(q.trips, q.pending);
      assert Flatten([] + [q.pending]) == q.pending;
    }
  }

  class DataProcessor {
    var stats: Stats
    var issuesLog: seq<LogEntry>
    /** The batches committed to the trips and trip_metrics tables. */
    var trips: seq<seq<ValidRecord>>
    /** The rows committed to the data_quality_log table. */
    var qualityLog: seq<LogEntry>

    constructor ()
      ensures stats == Stats(0, 0, 0, 0) && issuesLog == [] && trips == [] && qualityLog == []
    {
      stats := Stats(0, 0, 0, 0);
      issuesLog := [];
      trips := [];
      qualityLog := [];
    }

    /** The processor's state together with the loop's local `seen_ids` and `valid_records`. */
    function Snapshot(seenIds: set<RowId>, validRecords: seq<ValidRecord>, failed: bool): Progress
      reads this
    {
      Progress(stats, issuesLog, seenIds, validRecords, trips, qualityLog, failed)
    }

    /** log_issue: append one entry, its value cut to 100 characters. */
    method LogIssue(recordId: RowId, issueType: IssueKind, description: string, fieldName: string, value: string)
      modifies this
      ensures issuesLog == old(issuesLog) + [LogEntryOf(recordId, issueType, description, fieldName, value)]
      ensures |issuesLog[|issuesLog| - 1].value| <= 100
      ensures stats == old(stats) && trips == old(trips) && qualityLog == old(qualityLog)
    {
      issuesLog := issuesLog + [LogEntry(recordId, issueType, description, fieldName, Truncate(value))];
    }

    /** The `for issue in validation['issues']` loop: one log_issue call per issue, in order. */
    method LogIssues(id: RowId, issues: seq<Issue>)
      modifies this
      ensures issuesLog == old(issuesLog) + LogAll(id, issues)
      ensures stats == old(stats) && trips == old(trips) && qualityLog == old(qualityLog)
    {
      for k := 0 to |issues|
        invariant issuesLog == old(issuesLog) + LogAll(id, issues[..k])
        invariant stats == old(stats) && trips == old(trips) && qualityLog == old(qualityLog)
      {
        assert issues[..k + 1][..k] == issues[..k];
        var issue := issues[k];
        LogIssue(id, issue.kind, issue.description, issue.field, issue.value);
      }
      assert issues[..|issues|] == issues;
    }

    /** insert_batch: commit the batch, or roll back and report failure (the source re-raises). */
    method InsertBatch(records: seq<ValidRecord>, db: Database) returns (ok: bool)
      modifies this
      ensures ok == db.acceptsBatch(records)
      ensures trips == if ok then old(trips) + [records] else old(trips)
      ensures stats == old(stats) && issuesLog == old(issuesLog) && qualityLog == old(qualityLog)
    {
      ok := db.acceptsBatch(records);
      if ok {
        trips := trips + [records];
      }
    }

    /** insert_issues_log: write the whole log if there is one; a failure is swallowed. */
    method InsertIssuesLog(db: Database)
      modifies this
      ensures qualityLog == if |issuesLog| > 0 && db.acceptsLog(issuesLog) then old(qualityLog) + issuesLog else old(qualityLog)
      ensures stats == old(stats) && issuesLog == old(issuesLog) && trips == old(trips)
    {
      if |issuesLog| == 0 {
        return;
      }
      if db.acceptsLog(issuesLog) {
        qualityLog := qualityLog + issuesLog;
      }
    }

    /** The body of the `for row in reader` loop, after the cap check; `ok` is false when insert_batch raised. */
    method ProcessRow(row: Row, seenIds: set<RowId>, validRecords: seq<ValidRecord>, b: Builtins, db: Database)
      returns (seen: set<RowId>, pending: seq<ValidRecord>, ok: bool)
      modifies this
      ensures Snapshot(seen, pending, !ok) == Step(old(Snapshot(seenIds, validRecords, false)), row, b, db)
    {
      ghost var p0 := Snapshot(seenIds, validRecords, false);
      seen, pending, ok := seenIds, validRecords, true;
      stats := stats.(total := stats.total + 1);
      var id := IdOf(row);
      if id in seenIds {
        stats := stats.(duplicates := stats.duplicates + 1);
        LogIssue(id, DuplicateRecord, "Duplicate trip ID", "id", IdText(id));
        assert Step(p0, row, b, db) == Snapshot(seen, pending, !ok);
        return;
      }
      seen := seenIds + {id};
      ghost var p1 := Snapshot(seen, validRecords, false);
      assert Step(p0, row, b, db) == Admit(p1, id, ClassifyRow(row, b), db);
      ValidIffAcceptable(row, b);

      var validation := ValidateRecord(row, b);
      if !validation.isValid {
        stats := stats.(invalid := stats.invalid + 1);
        LogIssues(id, validation.issues);
        assert ClassifyRow(row, b) == Rejected(validation.issues);
        return;
      }
      assert ClassifyRow(row, b) == ScreenValidRow(row, b);
      pending, ok := AdmitValidRow(row, seen, validRecords, b, db);
    }

    /**
     * The rest of the loop body for a row validate_record accepted: the
     * distance and speed gates, then the derived features, the append to
     * `valid_records` and the flush of a full batch.
     */
    method AdmitValidRow(row: Row, ghost seen: set<RowId>, validRecords: seq<ValidRecord>, b: Builtins, db: Database)
      returns (pending: seq<ValidRecord>, ok: bool)
      requires Acceptable(row, b)
      modifies this
      ensures Snapshot(seen, pending, !ok) == Admit(old(Snapshot(seen, validRecords, false)), IdOf(row), ScreenValidRow(row, b), db)
    {
      pending, ok := validRecords, true;
      var id := IdOf(row);
      var tripDistance := b.haversine(
        b.parseFloat(row["pickup_longitude"]).value,
        b.parseFloat(row["pickup_latitude"]).value,
        b.parseFloat(row["dropoff_longitude"]).value,
        b.parseFloat(row["dropoff_latitude"]).value);
      assert tripDistance == TripDistance(row, b);
      if tripDistance > MAX_TRIP_DISTANCE {
        stats := stats.(invalid := stats.invalid + 1);
        var issue := Issue(OutlierDistance, "Distance " + b.fixed2Text(tripDistance) + " miles exceeds maximum",
                           "distance", b.fixed2Text(tripDistance));
        LogIssue(id, issue.kind, issue.description, issue.field, issue.value);
        assert ScreenValidRow(row, b) == Rejected([issue]);
        assert LogAll(id, [issue]) == [LogEntryOf(id, issue.kind, issue.description, issue.field, issue.value)];
        return;
      }

      var durationHours := b.parseInt(row["trip_duration"]).value as real / 3600.0;
      var tripSpeed := if durationHours > 0.0 then tripDistance / durationHours else 0.0;
      assert tripSpeed == AverageSpeed(tripDistance, b.parseInt(row["trip_duration"]).value);
      if tripSpeed < MIN_SPEED || tripSpeed > MAX_SPEED {
        stats := stats.(invalid := stats.invalid + 1);
        var issue := Issue(OutlierSpeed, "Speed " + b.fixed2Text(tripSpeed) + " mph is unrealistic",
                           "speed", b.fixed2Text(tripSpeed));
        LogIssue(id, issue.kind, issue.description, issue.field, issue.value);
        assert ScreenValidRow(row, b) == Rejected([issue]);
        assert LogAll(id, [issue]) == [LogEntryOf(id, issue.kind, issue.description, issue.field, issue.value)];
        return;
      }

      var features := ComputeDerivedFeatures(row, tripDistance, b);
      assert ScreenValidRow(row, b) == Accepted(ValidRecord(row, features));
      pending := validRecords + [ValidRecord(row, features)];
      stats := stats.(valid := stats.valid + 1);
      if |pending| >= BATCH_SIZE {
        ok := InsertBatch(pending, db);
        if ok {
          pending := [];
        }
      }
    }

    /**
     * process_and_load_data over the rows of the CSV file: the loop, the
     * final flush and the issues log. `completed` is false when insert_batch
     * raised, which ends the run at once.
     */
    method ProcessAndLoadData(rows: seq<Row>, b: Builtins, db: Database) returns (completed: bool)
      modifies this
      ensures var r := Finish(Run(old(Snapshot({}, [], false)), rows, b, db), db);
              && stats == r.stats && issuesLog == r.log && trips == r.trips && qualityLog == r.qualityLog
              && completed == !r.failed
    {
      ghost var final := Finish(Run(Snapshot({}, [], false), rows, b, db), db);
      var seenIds: set<RowId> := {};
      var validRecords: seq<ValidRecord> := [];
      var i := 0;
      while i < |rows|
        invariant 0 <= i <= |rows|
        invariant Finish(Run(Snapshot(seenIds, validRecords, false), rows[i..], b, db), db) == final
      {
        if stats.valid >= MAX_VALID_RECORDS {
          break;
        }
        ghost var before := Snapshot(seenIds, validRecords, false);
        assert Run(before, rows[i..], b, db) == Run(Step(before, rows[i], b, db), rows[i + 1..], b, db) by {
          assert rows[i..][0] == rows[i] && rows[i..][1..] == rows[i + 1..];
        }
        var ok;
        seenIds, validRecords, ok := ProcessRow(rows[i], seenIds, validRecords, b, db);
        if !ok {
          return false;
        }
        i := i + 1;
      }
      assert Run(Snapshot(seenIds, validRecords, false), rows[i..], b, db) == Snapshot(seenIds, validRecords, false);

      if |validRecords| > 0 {
        var ok := InsertBatch(validRecords, db);
        if !ok {
          return false;
        }
      }
      InsertIssuesLog(db);
      completed := true;
    }
  }
}
