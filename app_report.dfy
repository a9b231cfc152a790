/** The report engine and job registry of app/report.py: `generate_report`
    (range defaults, store filter, one record per store with three window
    counts), `process_report_task` and `trigger_report` over the maps
    `report_status` and `report_file`. */
module AppReport {
  import opened Outcomes
  import opened Uptime

  /** The exceptions a report job can end with; `Message` gives `str(e)`. */
  datatype Failure =
    | InvalidTimeRange             // the ValueError that wraps a failed ISO parse
    | MissingMergeKey              // KeyError('store_id'): merge with a column-less timezone frame
    | UnknownZone(name: string)    // the timezone library rejects the store's zone name
    | EmptyReport                  // IndexError: `df[0]` on an empty report
    | SinkError(message: string)   // creating or writing the CSV file failed
    | AwareNaiveComparison         // TypeError: naive stored `ts` compared with an offset-bearing bound

  /** The text of the ValueError raised for a malformed time argument. */
  const IsoFormatMessage: string := "start_time/end_time must be ISO format, e.g., 'YYYY-MM-DDTHH:MM:SS'"

  /** pandas' text for comparing naive datetime64 values with an aware datetime. */
  const AwareNaiveMessage: string := "Invalid comparison between dtype=datetime64[ns] and datetime"

  function Message(f: Failure): string
  {
    match f
    case InvalidTimeRange => IsoFormatMessage
    case MissingMergeKey => "'store_id'"
    case UnknownZone(name) => "'" + name + "'"
    case EmptyReport => "list index out of range"
    case SinkError(message) => message
    case AwareNaiveComparison => AwareNaiveMessage
  }

  /** The optional arguments of `generate_report` and `trigger_report`. */
  datatype ReportRequest = ReportRequest(storeId: Option<string>, startTime: TimeArg, endTime: TimeArg)

  /** The range with its defaults: end is now, start is one day before now
      (not before end); a supplied text that does not parse fails the range. */
  function ResolveRange(now: int, startArg: TimeArg, endArg: TimeArg, parse: string -> Option<Instant>)
    : (r: Result<Range, Failure>)
    ensures r.Err? <==> (Supplied(startArg) && parse(startArg.text).None?) || (Supplied(endArg) && parse(endArg.text).None?)
    ensures r.Err? ==> r.error == InvalidTimeRange
    ensures r.Ok? && Supplied(startArg) ==> parse(startArg.text).Some? && parse(startArg.text).value.secs == r.value.start
    ensures r.Ok? && !Supplied(startArg) ==> r.value.start == now - DaySecs
    ensures r.Ok? && Supplied(endArg) ==> parse(endArg.text).Some? && parse(endArg.text).value.secs == r.value.end
    ensures r.Ok? && !Supplied(endArg) ==> r.value.end == now
  {
    var start := if Supplied(startArg) then parse(startArg.text) else Some(Instant(now - DaySecs, false));
    var end := if Supplied(endArg) then parse(endArg.text) else Some(Instant(now, false));
    if start.None? || end.None? then Err(InvalidTimeRange) else Ok(Range(start.value.secs, end.value.secs))
  }

  /** A supplied time text that parses to an aware datetime. The defaults come
      from `utcnow()` and are naive, like the stored `ts`. */
  predicate OffsetGiven(arg: TimeArg, parse: string -> Option<Instant>)
  {
    Supplied(arg) && parse(arg.text).Some? && parse(arg.text).value.aware
  }

  /** Whether the range bounds mix an aware datetime with the naive stored
      timestamps, so that `group["ts"] >= start` or `<= end` raises. */
  predicate MixedRange(req: ReportRequest, parse: string -> Option<Instant>)
  {
    OffsetGiven(req.startTime, parse) || OffsetGiven(req.endTime, parse)
  }

  /** A store filter is applied only when the store id is truthy. */
  predicate Filters(storeArg: Option<string>)
  {
    storeArg.Some? && storeArg.value != ""
  }

  /** The status rows the query returns: all of them, or those of one store. */
  function Fetch(rows: seq<Obs>, storeArg: Option<string>): (r: seq<Obs>)
    ensures |r| <= |rows|
    ensures !Filters(storeArg) ==> r == rows
  {
    if rows == [] then []
    else if Filters(storeArg) && rows[0].storeId != storeArg.value then Fetch(rows[1..], storeArg)
    else [rows[0]] + Fetch(rows[1..], storeArg)
  }

  /** With a filter, a store's counts are its own, and other stores have none. */
  lemma {:induction false} FetchCounts(rows: seq<Obs>, storeArg: Option<string>, sid: string, lo: int, hi: int, st: string)
    ensures Count(Fetch(rows, storeArg), sid, lo, hi, st)
            == if Filters(storeArg) && sid != storeArg.value then 0 else Count(rows, sid, lo, hi, st)
  {
    if rows != [] {
      FetchCounts(rows[1..], storeArg, sid, lo, hi, st);
      if !(Filters(storeArg) && rows[0].storeId != storeArg.value) {
        assert ([rows[0]] + Fetch(rows[1..], storeArg))[1..] == Fetch(rows[1..], storeArg);
      }
    }
  }

  /** With a filter, the query keeps exactly the rows of that store. */
  lemma {:induction false} FetchKeeps(rows: seq<Obs>, storeArg: Option<string>)
    ensures forall o :: o in Fetch(rows, storeArg) <==> o in rows && (Filters(storeArg) ==> o.storeId == storeArg.value)
  {
    if rows != [] {
      FetchKeeps(rows[1..], storeArg);
      assert rows == [rows[0]] + rows[1..];
    }
  }

  /** The zone of a store: its timezone row, or "UTC" when the left merge
      found none. */
  function ZoneName(zones: map<string, string>, sid: string): string
  {
    if sid in zones then zones[sid] else "UTC"
  }

  /** Lower bound of window `w`: rows must also lie in the range, so
      `filtered[filtered["ts"] >= end - size]` is [max(start, end - size), end]. */
  function WindowStart(range: Range, w: Window): (lo: int)
    ensures range.start <= lo && range.end - Size(w) <= lo
    ensures lo == range.start || lo == range.end - Size(w)
  {
    if range.start < range.end - Size(w) then range.end - Size(w) else range.start
  }

  function WindowStatsOf(rows: seq<Obs>, sid: string, range: Range, w: Window): WindowStats
  {
    var up := Count(rows, sid, WindowStart(range, w), range.end, Active);
    var down := Count(rows, sid, WindowStart(range, w), range.end, Inactive);
    WindowStats(up, down, Availability(up, down))
  }

  /** The record of one store, built from all its fetched rows. */
  function StoreRecordOf(rows: seq<Obs>, sid: string, range: Range): StoreRecord
  {
    StoreRecord(sid, WindowStatsOf(rows, sid, range, LastHour), WindowStatsOf(rows, sid, range, LastDay),
                WindowStatsOf(rows, sid, range, LastWeek))
  }

  /** What raises while one store's group is processed, if anything: first
      `pytz.timezone` on its zone, then the range filter when the bounds mix
      aware and naive datetimes. */
  function StoreFailure(zones: map<string, string>, sid: string, known: string -> bool, mixed: bool): (f: Option<Failure>)
    ensures f.None? <==> ZoneResolves(ZoneName(zones, sid), known) && !mixed
    ensures !ZoneResolves(ZoneName(zones, sid), known) ==> f == Some(UnknownZone(ZoneName(zones, sid)))
    ensures ZoneResolves(ZoneName(zones, sid), known) && mixed ==> f == Some(AwareNaiveComparison)
  {
    if !ZoneResolves(ZoneName(zones, sid), known) then Some(UnknownZone(ZoneName(zones, sid)))
    else if mixed then Some(AwareNaiveComparison)
    else None
  }

  /** The records of the stores `ids`, in order, or the error of the first
      store whose processing raises. */
  function Records(rows: seq<Obs>, ids: seq<string>, zones: map<string, string>, known: string -> bool,
                   range: Range, mixed: bool)
    : (r: Result<seq<StoreRecord>, Failure>)
    ensures r.Ok? <==> forall i :: 0 <= i < |ids| ==> ZoneResolves(ZoneName(zones, ids[i]), known) && !mixed
    ensures r.Ok? ==> |r.value| == |ids| && forall i :: 0 <= i < |ids| ==> r.value[i] == StoreRecordOf(rows, ids[i], range)
    ensures r.Err? ==> || (r.error.UnknownZone? && !ZoneResolves(r.error.name, known))
                       || (r.error == AwareNaiveComparison && mixed)
  {
    if ids == [] then Ok([])
    else
      var front := ids[..|ids| - 1];
      var sid := ids[|ids| - 1];
      assert forall i :: 0 <= i < |front| ==> front[i] == ids[i];
      match Records(rows, front, zones, known, range, mixed)
      case Err(e) => Err(e)
      case Ok(prefix) =>
        if !ZoneResolves(ZoneName(zones, sid), known) then Err(UnknownZone(ZoneName(zones, sid)))
        else if mixed then Err(AwareNaiveComparison)
        else Ok(prefix + [StoreRecordOf(rows, sid, range)])
  }

  /** The prefix of length i + 1 is the prefix of length i followed by ids[i]. */
  lemma PrefixStep(ids: seq<string>, i: nat)
    requires i < |ids|
    ensures |ids[..i + 1]| == i + 1 && ids[..i + 1][..i] == ids[..i] && ids[..i + 1][i] == ids[i]
  {
  }

  /** A store that raises nothing extends the records of the stores before it. */
  lemma {:induction false} RecordsExtend(rows: seq<Obs>, ids: seq<string>, i: nat, zones: map<string, string>,
                                         known: string -> bool, range: Range, mixed: bool, report: seq<StoreRecord>)
    requires i < |ids| && Records(rows, ids[..i], zones, known, range, mixed) == Ok(report)
    requires StoreFailure(zones, ids[i], known, mixed).None?
    ensures Records(rows, ids[..i + 1], zones, known, range, mixed) == Ok(report + [StoreRecordOf(rows, ids[i], range)])
  {
    PrefixStep(ids, i);
  }

  /** The first store that raises decides the error of the whole pass. */
  lemma {:induction false} RecordsFail(rows: seq<Obs>, ids: seq<string>, i: nat, zones: map<string, string>,
                                       known: string -> bool, range: Range, mixed: bool)
    requires i < |ids| && Records(rows, ids[..i], zones, known, range, mixed).Ok?
    requires StoreFailure(zones, ids[i], known, mixed).Some?
    ensures Records(rows, ids, zones, known, range, mixed) == Err(StoreFailure(zones, ids[i], known, mixed).value)
    decreases |ids|
  {
    var front := ids[..|ids| - 1];
    if i == |ids| - 1 {
      assert front == ids[..i];
    } else {
      assert front[..i] == ids[..i] && front[i] == ids[i];
      RecordsFail(rows, front, i, zones, known, range, mixed);
    }
  }

  /** What `generate_report` returns or raises, on a snapshot of the tables. */
  function ReportSpec(now: int, req: ReportRequest, statuses: seq<Obs>, zones: map<string, string>,
                      parse: string -> Option<Instant>, known: string -> bool): Result<seq<StoreRecord>, Failure>
  {
    match ResolveRange(now, req.startTime, req.endTime, parse)
    case Err(e) => Err(e)
    case Ok(range) =>
      var rows := Fetch(statuses, req.storeId);
      if rows == [] then Ok([])
      else if |zones| == 0 then Err(MissingMergeKey)
      else Records(rows, DistinctIds(rows), zones, known, range, MixedRange(req, parse))
  }

  /** `generate_report`: resolve the range, fetch, then one pass over the store
      groups, appending each store's record or raising on its zone. */
  method GenerateReport(now: int, req: ReportRequest, statuses: seq<Obs>, zones: map<string, string>,
                        parse: string -> Option<Instant>, known: string -> bool)
    returns (r: Result<seq<StoreRecord>, Failure>)
    ensures r == ReportSpec(now, req, statuses, zones, parse, known)
  {
    var resolved := ResolveRange(now, req.startTime, req.endTime, parse);
    if resolved.Err? {
      return Err(resolved.error);
    }
    var range := resolved.value;
    var rows := Fetch(statuses, req.storeId);
    if rows == [] {
      return Ok([]);
    }
    if |zones| == 0 {
      return Err(MissingMergeKey);
    }
    var mixed := MixedRange(req, parse);
    var ids := DistinctIds(rows);
    var report: seq<StoreRecord> := [];
    var i := 0;
    while i < |ids|
      invariant 0 <= i <= |ids|
      invariant Records(rows, ids[..i], zones, known, range, mixed) == Ok(report)
    {
      var sid := ids[i];
      var zone := ZoneName(zones, sid);
      if !ZoneResolves(zone, known) {
        RecordsFail(rows, ids, i, zones, known, range, mixed);
        return Err(UnknownZone(zone));
      }
      if mixed {
        RecordsFail(rows, ids, i, zones, known, range, mixed);
        return Err(AwareNaiveComparison);
      }
      RecordsExtend(rows, ids, i, zones, known, range, mixed, report);
      report := report + [StoreRecordOf(rows, sid, range)];
      i := i + 1;
    }
    assert ids[..i] == ids;
    r := Ok(report);
  }

  /** The store ids of a report, row by row. */
  function IdsOf(recs: seq<StoreRecord>): (ids: seq<string>)
    ensures |ids| == |recs| && forall i :: 0 <= i < |recs| ==> ids[i] == recs[i].storeId
  {
    seq(|recs|, i requires 0 <= i < |recs| => recs[i].storeId)
  }

  /** One record per distinct store among the fetched rows, in the order of
      DistinctIds, each built from that store's rows whether or not any of
      them lies in the range. */
  lemma {:induction false} ReportOnePerStore(now: int, req: ReportRequest, statuses: seq<Obs>, zones: map<string, string>,
                                             parse: string -> Option<Instant>, known: string -> bool)
    requires ReportSpec(now, req, statuses, zones, parse, known).Ok?
    ensures var recs := ReportSpec(now, req, statuses, zones, parse, known).value;
            var rows := Fetch(statuses, req.storeId);
            && IdsOf(recs) == DistinctIds(rows)
            && (forall i :: 0 <= i < |recs| ==>
                  recs[i] == StoreRecordOf(rows, recs[i].storeId, ResolveRange(now, req.startTime, req.endTime, parse).value))
  {
    var range := ResolveRange(now, req.startTime, req.endTime, parse).value;
    var rows := Fetch(statuses, req.storeId);
    var recs := ReportSpec(now, req, statuses, zones, parse, known).value;
    if rows != [] {
      var ids := DistinctIds(rows);
      assert recs == Records(rows, ids, zones, known, range, MixedRange(req, parse)).value;
      assert |IdsOf(recs)| == |ids|;
      assert forall i :: 0 <= i < |ids| ==> IdsOf(recs)[i] == ids[i];
    }
  }

  /** A failed report is a bad time argument, a missing timezone table, a
      store (among those with rows) whose zone does not resolve, or an
      offset-bearing time text once there are rows to compare it with. */
  lemma {:induction false} ReportFailsExactly(now: int, req: ReportRequest, statuses: seq<Obs>, zones: map<string, string>,
                                              parse: string -> Option<Instant>, known: string -> bool)
    ensures var rows := Fetch(statuses, req.storeId);
            ReportSpec(now, req, statuses, zones, parse, known).Err?
            <==> || (Supplied(req.startTime) && parse(req.startTime.text).None?)
                 || (Supplied(req.endTime) && parse(req.endTime.text).None?)
                 || (rows != [] && |zones| == 0)
                 || (exists o :: o in rows && !ZoneResolves(ZoneName(zones, o.storeId), known))
                 || (rows != [] && (OffsetGiven(req.startTime, parse) || OffsetGiven(req.endTime, parse)))
  {
    var rows := Fetch(statuses, req.storeId);
    var ids := DistinctIds(rows);
    var range := ResolveRange(now, req.startTime, req.endTime, parse);
    var mixed := MixedRange(req, parse);
    DistinctIdsCover(rows);
    if exists o :: o in rows && !ZoneResolves(ZoneName(zones, o.storeId), known) {
      var o :| o in rows && !ZoneResolves(ZoneName(zones, o.storeId), known);
      assert o.storeId in ids;
    }
    if range.Ok? && rows != [] && |zones| > 0 && Records(rows, ids, zones, known, range.value, mixed).Err? {
      var k :| 0 <= k < |ids| && !(ZoneResolves(ZoneName(zones, ids[k]), known) && !mixed);
      assert ids[k] in ids;
    }
  }

  /** Once a time text carries a UTC offset, a report with rows fails at its
      smallest store: on that store's zone if the timezone library rejects it,
      otherwise on comparing the offset-bearing bound with the naive stored
      timestamps. */
  lemma {:induction false} OffsetTimeFails(now: int, req: ReportRequest, statuses: seq<Obs>, zones: map<string, string>,
                                           parse: string -> Option<Instant>, known: string -> bool)
    requires ResolveRange(now, req.startTime, req.endTime, parse).Ok?
    requires OffsetGiven(req.startTime, parse) || OffsetGiven(req.endTime, parse)
    requires Fetch(statuses, req.storeId) != [] && |zones| > 0
    ensures var first := DistinctIds(Fetch(statuses, req.storeId))[0];
            ReportSpec(now, req, statuses, zones, parse, known)
            == Err(if ZoneResolves(ZoneName(zones, first), known) then AwareNaiveComparison
                   else UnknownZone(ZoneName(zones, first)))
  {
    var rows := Fetch(statuses, req.storeId);
    var ids := DistinctIds(rows);
    var range := ResolveRange(now, req.startTime, req.endTime, parse).value;
    assert ids[..0] == [];
    RecordsFail(rows, ids, 0, zones, known, range, true);
  }

  /** A truthy store id leaves only records of that store. */
  lemma {:induction false} StoreFilterRestricts(now: int, req: ReportRequest, statuses: seq<Obs>, zones: map<string, string>,
                                                parse: string -> Option<Instant>, known: string -> bool)
    requires Filters(req.storeId)
    requires ReportSpec(now, req, statuses, zones, parse, known).Ok?
    ensures var recs := ReportSpec(now, req, statuses, zones, parse, known).value;
            forall i :: 0 <= i < |recs| ==> recs[i].storeId == req.storeId.value
  {
    var recs := ReportSpec(now, req, statuses, zones, parse, known).value;
    var rows := Fetch(statuses, req.storeId);
    ReportOnePerStore(now, req, statuses, zones, parse, known);
    DistinctIdsCover(rows);
    FetchKeeps(statuses, req.storeId);
    forall i | 0 <= i < |recs|
      ensures recs[i].storeId == req.storeId.value
    {
      assert IdsOf(recs)[i] in DistinctIds(rows);
    }
  }

  /** A store all of whose rows lie outside [start, end] still has a record,
      with zero counts and no percentage in every window. */
  lemma {:induction false} OutOfRangeStoreIsZero(rows: seq<Obs>, sid: string, range: Range, w: Window)
    requires forall o :: o in rows && o.storeId == sid ==> o.ts < range.start || o.ts > range.end
    ensures StatsOf(StoreRecordOf(rows, sid, range), w) == WindowStats(0, 0, None)
  {
    var lo := WindowStart(range, w);
    CountPositive(rows, sid, lo, range.end, Active);
    CountPositive(rows, sid, lo, range.end, Inactive);
  }

  /** Window membership: uptime in window `w` is positive exactly when some
      active row of the store lies in [start, end], no earlier than end minus
      the window size. */
  lemma {:induction false} UptimeWitness(rows: seq<Obs>, sid: string, range: Range, w: Window)
    ensures StatsOf(StoreRecordOf(rows, sid, range), w).uptime > 0
        <==> exists i :: 0 <= i < |rows| && rows[i].storeId == sid && rows[i].status == Active
                         && range.start <= rows[i].ts && range.end - Size(w) <= rows[i].ts && rows[i].ts <= range.end
  {
    CountPositive(rows, sid, WindowStart(range, w), range.end, Active);
  }

  /** The trailing windows nest, so hour <= day <= week for both counts. */
  lemma {:induction false} WindowsNested(rows: seq<Obs>, sid: string, range: Range)
    ensures var r := StoreRecordOf(rows, sid, range);
            && r.lastHour.uptime <= r.lastDay.uptime <= r.lastWeek.uptime
            && r.lastHour.downtime <= r.lastDay.downtime <= r.lastWeek.downtime
  {
    var hour, day, week := WindowStart(range, LastHour), WindowStart(range, LastDay), WindowStart(range, LastWeek);
    CountMonotone(rows, sid, hour, range.end, day, range.end, Active);
    CountMonotone(rows, sid, day, range.end, week, range.end, Active);
    CountMonotone(rows, sid, hour, range.end, day, range.end, Inactive);
    CountMonotone(rows, sid, day, range.end, week, range.end, Inactive);
  }

  /** Under the default range (start one day before end), the week's figures
      are the day's. */
  lemma {:induction false} DefaultRangeWeekIsDay(now: int, req: ReportRequest, statuses: seq<Obs>, zones: map<string, string>,
                                                 parse: string -> Option<Instant>, known: string -> bool)
    requires !Supplied(req.startTime) && !Supplied(req.endTime)
    requires ReportSpec(now, req, statuses, zones, parse, known).Ok?
    ensures var recs := ReportSpec(now, req, statuses, zones, parse, known).value;
            forall i :: 0 <= i < |recs| ==> recs[i].lastWeek == recs[i].lastDay
  {
    var range := Range(now - DaySecs, now);
    assert ResolveRange(now, req.startTime, req.endTime, parse).value == range;
    assert WindowStart(range, LastWeek) == WindowStart(range, LastDay);
    ReportOnePerStore(now, req, statuses, zones, parse, known);
  }

  /** How creating and writing the CSV file goes: `os.makedirs` or `open` may
      fail before `df[0]` is read, `writerows` after it. */
  datatype SinkOutcome = Written | OpenFails(message: string) | WriteFails(message: string)

  /** What the background task sees when it runs: the clock, a snapshot of
      the status and timezone tables, the ISO parser, the zone database and
      the file system's verdict. */
  datatype Environment = Environment(now: int, statuses: seq<Obs>, zones: map<string, string>,
                                     parse: string -> Option<Instant>, known: string -> bool, sink: SinkOutcome)

  function ReportPath(id: string): string
  {
    "generated_reports/report_" + id + ".csv"
  }

  predicate IsFailed(s: string)
  {
    |s| >= 8 && s[..8] == "FAILED: "
  }

  /** The status values the registry ever writes. */
  predicate InLifecycle(s: string)
  {
    s == "QUEUED" || s == "IN_PROGRESS" || s == "COMPLETED" || IsFailed(s)
  }

  /** The final status of a job and the file path it records, if any. */
  datatype JobEnd = JobEnd(status: string, file: Option<string>)

  function Failed(f: Failure): (j: JobEnd)
    ensures IsFailed(j.status) && j.file.None? && j.status != "COMPLETED"
  {
    var s := "FAILED: " + Message(f);
    assert s[..8] == "FAILED: " && s[0] == 'F';
    assert "COMPLETED"[0] == 'C';
    JobEnd(s, None)
  }

  /** How `process_report_task` ends, given what `generate_report` returned
      or raised: COMPLETED with the file path, or "FAILED: <message>" with no
      path; never IN_PROGRESS. */
  function JobResult(id: string, report: Result<seq<StoreRecord>, Failure>, sink: SinkOutcome): (j: JobEnd)
    ensures j.status == "COMPLETED" || IsFailed(j.status)
    ensures j.file.Some? <==> j.status == "COMPLETED"
    ensures j.file.Some? ==> j.file.value == ReportPath(id)
    ensures j.status == "COMPLETED" <==> report.Ok? && report.value != [] && sink.Written?
    ensures report.Err? ==> j == Failed(report.error)
    ensures report.Ok? && sink.OpenFails? ==> j == Failed(SinkError(sink.message))
    ensures report.Ok? && !sink.OpenFails? && report.value == [] ==> j == Failed(EmptyReport)
    ensures report.Ok? && report.value != [] && sink.WriteFails? ==> j == Failed(SinkError(sink.message))
  {
    match report
    case Err(f) => Failed(f)
    case Ok(recs) =>
      if sink.OpenFails? then Failed(SinkError(sink.message))
      else if recs == [] then Failed(EmptyReport)
      else if sink.WriteFails? then Failed(SinkError(sink.message))
      else JobEnd("COMPLETED", Some(ReportPath(id)))
  }

  /** The job's end in terms of the request and what the background task reads. */
  function JobOutcome(id: string, req: ReportRequest, env: Environment): JobEnd
  {
    JobResult(id, ReportSpec(env.now, req, env.statuses, env.zones, env.parse, env.known), env.sink)
  }

  /** A time argument that does not parse is accepted at trigger time and
      fails the job only when its task runs. */
  lemma {:induction false} MalformedTimeFailsInTask(id: string, req: ReportRequest, env: Environment)
    requires || (Supplied(req.startTime) && env.parse(req.startTime.text).None?)
             || (Supplied(req.endTime) && env.parse(req.endTime.text).None?)
    ensures JobOutcome(id, req, env) == Failed(InvalidTimeRange)
  {
  }

  /** An empty report (no status rows, or none of the requested store) fails
      at `df[0]` unless opening the file failed first. */
  lemma {:induction false} EmptyReportFails(id: string, req: ReportRequest, env: Environment)
    requires ResolveRange(env.now, req.startTime, req.endTime, env.parse).Ok?
    requires Fetch(env.statuses, req.storeId) == [] && !env.sink.OpenFails?
    ensures JobOutcome(id, req, env) == Failed(EmptyReport)
  {
  }

  /** The invariant `report_status` and `report_file` keep; `tasks` stands
      for the scheduled tasks that have not finished, with the request each
      captured. */
  ghost predicate Consistent(status: map<string, string>, file: map<string, string>, tasks: map<string, ReportRequest>)
  {
    && (forall id :: id in status ==> InLifecycle(status[id]))
    && (forall id :: id in file ==> id in status && status[id] == "COMPLETED" && file[id] == ReportPath(id))
    && (forall id :: id in status && status[id] == "COMPLETED" ==> id in file)
    && (forall id :: id in tasks <==> id in status && (status[id] == "QUEUED" || status[id] == "IN_PROGRESS"))
  }

  lemma {:induction false} FailedIsNoOtherState(s: string)
    requires IsFailed(s)
    ensures s != "QUEUED" && s != "IN_PROGRESS" && s != "COMPLETED"
  {
    assert s[0] == 'F';
    assert "QUEUED"[0] == 'Q' && "IN_PROGRESS"[0] == 'I' && "COMPLETED"[0] == 'C';
  }

  /** Ending a running job keeps the invariant. */
  lemma {:induction false} ConsistentAfterFinish(status: map<string, string>, file: map<string, string>,
                                                 tasks: map<string, ReportRequest>, id: string, j: JobEnd)
    requires Consistent(status, file, tasks) && id in tasks && status[id] == "IN_PROGRESS"
    requires j.status == "COMPLETED" || IsFailed(j.status)
    requires j.file.Some? <==> j.status == "COMPLETED"
    requires j.file.Some? ==> j.file.value == ReportPath(id)
    ensures Consistent(status[id := j.status], if j.file.Some? then file[id := ReportPath(id)] else file, tasks - {id})
  {
    if IsFailed(j.status) {
      FailedIsNoOtherState(j.status);
    }
  }

  /** The module-level maps of app/report.py, with the event loop's
      unfinished tasks. */
  class Registry {
    var status: map<string, string>
    var file: map<string, string>
    var tasks: map<string, ReportRequest>

    ghost predicate Valid()
      reads this
    {
      Consistent(status, file, tasks)
    }

    constructor ()
      ensures Valid() && status == map[] && file == map[] && tasks == map[]
    {
      status, file, tasks := map[], map[], map[];
    }

    /** `trigger_report`: the background task is scheduled first (which may raise), then
        the fresh id is recorded as QUEUED; the time arguments are not looked at. */
    method Trigger(freshId: string, req: ReportRequest, scheduleError: Option<string>) returns (r: Result<string, string>)
      requires Valid() && freshId !in status
      modifies this
      ensures Valid() && file == old(file)
      ensures scheduleError.Some? ==> r == Err(scheduleError.value) && status == old(status) && tasks == old(tasks)
      ensures scheduleError.None? ==> && r == Ok(freshId)
                                      && status == old(status)[freshId := "QUEUED"]
                                      && tasks == old(tasks)[freshId := req]
    {
      if scheduleError.Some? {
        return Err(scheduleError.value);
      }
      tasks := tasks[freshId := req];
      status := status[freshId := "QUEUED"];
      r := Ok(freshId);
    }

    /** The first step of `process_report_task`. */
    method Start(id: string)
      requires Valid() && id in tasks && status[id] == "QUEUED"
      modifies this
      ensures Valid() && status == old(status)[id := "IN_PROGRESS"] && file == old(file) && tasks == old(tasks)
    {
      status := status[id := "IN_PROGRESS"];
    }

    /** The rest of `process_report_task`: generate, write the file, then
        record the path and COMPLETED, or record "FAILED: <message>". */
    method Finish(id: string, env: Environment)
      requires Valid() && id in tasks && status[id] == "IN_PROGRESS"
      modifies this
      ensures Valid() && tasks == old(tasks) - {id}
      ensures status == old(status)[id := JobOutcome(id, old(tasks)[id], env).status]
      ensures status[id] == "COMPLETED" || IsFailed(status[id])
      ensures file == if status[id] == "COMPLETED" then old(file)[id := ReportPath(id)] else old(file)
    {
      var report := GenerateReport(env.now, tasks[id], env.statuses, env.zones, env.parse, env.known);
      var outcome := JobResult(id, report, env.sink);
      var newFile := if outcome.file.Some? then file[id := ReportPath(id)] else file;
      ConsistentAfterFinish(status, file, tasks, id, outcome);
      status, file, tasks := status[id := outcome.status], newFile, tasks - {id};
    }
  }
}
