/** The older report generator of report.py: `generate_report`, which ignores
    the store filter and the start time, `_run_report_task` and
    `trigger_report` over "pending" / "complete" / "failed" states. */
module LegacyReport {
  import opened Outcomes
  import opened Uptime
  import AppReport

  /** The exceptions this generator can raise. */
  datatype Failure =
    | BadIsoFormat(text: string)   // `datetime.fromisoformat` rejects the text; not wrapped
    | MissingMergeKey              // KeyError('store_id'): merge with a column-less timezone frame
    | ZoneNotText                  // the store has no timezone row: NaN is truthy, so `or "UTC"` keeps it and pytz fails on it
    | UnknownZone(name: string)    // the timezone library rejects the zone name
    | NaiveEndComparison           // TypeError: the UTC-aware `ts` compared with a naive window bound

  /** The end instant: the start text is parsed first (its value is never
      used), then the end text; end defaults to the naive `utcnow()`. */
  function ParseTimes(now: int, startArg: TimeArg, endArg: TimeArg, parse: string -> Option<Instant>)
    : (r: Result<Instant, Failure>)
    ensures r.Err? <==> (Supplied(startArg) && parse(startArg.text).None?) || (Supplied(endArg) && parse(endArg.text).None?)
    ensures Supplied(startArg) && parse(startArg.text).None? ==> r == Err(BadIsoFormat(startArg.text))
    ensures r.Err? && !(Supplied(startArg) && parse(startArg.text).None?) ==> r == Err(BadIsoFormat(endArg.text))
    ensures r.Ok? && Supplied(endArg) ==> parse(endArg.text) == Some(r.value)
    ensures r.Ok? && !Supplied(endArg) ==> r.value == Instant(now, false)
  {
    if Supplied(startArg) && parse(startArg.text).None? then Err(BadIsoFormat(startArg.text))
    else if Supplied(endArg) && parse(endArg.text).None? then Err(BadIsoFormat(endArg.text))
    else Ok(if Supplied(endArg) then parse(endArg.text).value else Instant(now, false))
  }

  /** The zone a store's group is converted to: an empty name falls back to
      "UTC", a missing timezone row does not. */
  function ZoneOf(zones: map<string, string>, sid: string, known: string -> bool): (r: Result<string, Failure>)
    ensures sid !in zones ==> r == Err(ZoneNotText)
    ensures sid in zones && zones[sid] == "" ==> r == Ok("UTC")
    ensures r.Ok? ==> ZoneResolves(r.value, known)
    ensures sid in zones && zones[sid] != "" ==> (r.Ok? <==> ZoneResolves(zones[sid], known))
  {
    if sid !in zones then Err(ZoneNotText)
    else
      var name := if zones[sid] == "" then "UTC" else zones[sid];
      if ZoneResolves(name, known) then Ok(name) else Err(UnknownZone(name))
  }

  /** `round(pct, 2) if pct else None`: a 0.0 percentage is falsy, so a
      window with downtime and no uptime has no percentage either. */
  function LegacyAvailability(up: nat, down: nat): (p: Option<Percent>)
    ensures p.None? <==> up == 0
    ensures p.Some? ==> p == Availability(up, down)
    ensures p.Some? ==> 0 < p.value.num <= 100 * p.value.den
  {
    if up == 0 then None else Some(Percent(100 * up, up + down))
  }

  /** A window is [end - size, end]; the start of the range plays no part. */
  function LegacyStatsOf(rows: seq<Obs>, sid: string, end: int, w: Window): WindowStats
  {
    var up := Count(rows, sid, end - Size(w), end, Active);
    var down := Count(rows, sid, end - Size(w), end, Inactive);
    WindowStats(up, down, LegacyAvailability(up, down))
  }

  function LegacyRecordOf(rows: seq<Obs>, sid: string, end: int): StoreRecord
  {
    StoreRecord(sid, LegacyStatsOf(rows, sid, end, LastHour), LegacyStatsOf(rows, sid, end, LastDay),
                LegacyStatsOf(rows, sid, end, LastWeek))
  }

  /** What raises while one store's group is processed, if anything: first
      `pytz.timezone` on its zone, then the window filter, which compares the
      UTC-aware `ts` with bounds derived from `end` and so needs an aware end. */
  function LegacyStoreFailure(zones: map<string, string>, sid: string, known: string -> bool, end: Instant)
    : (f: Option<Failure>)
    ensures f.None? <==> ZoneOf(zones, sid, known).Ok? && end.aware
    ensures ZoneOf(zones, sid, known).Err? ==> f == Some(ZoneOf(zones, sid, known).error)
    ensures ZoneOf(zones, sid, known).Ok? && !end.aware ==> f == Some(NaiveEndComparison)
  {
    match ZoneOf(zones, sid, known)
    case Err(e) => Some(e)
    case Ok(_) => if end.aware then None else Some(NaiveEndComparison)
  }

  /** The records of the stores `ids`, in order, or the error of the first
      store whose processing raises. */
  function LegacyRecords(rows: seq<Obs>, ids: seq<string>, zones: map<string, string>, known: string -> bool, end: Instant)
    : (r: Result<seq<StoreRecord>, Failure>)
    ensures r.Ok? <==> forall i :: 0 <= i < |ids| ==> ZoneOf(zones, ids[i], known).Ok? && end.aware
    ensures r.Ok? ==> |r.value| == |ids| && forall i :: 0 <= i < |ids| ==> r.value[i] == LegacyRecordOf(rows, ids[i], end.secs)
    ensures r.Err? ==> r.error.ZoneNotText? || r.error.UnknownZone? || (r.error.NaiveEndComparison? && !end.aware)
  {
    if ids == [] then Ok([])
    else
      var front := ids[..|ids| - 1];
      var sid := ids[|ids| - 1];
      assert forall i :: 0 <= i < |front| ==> front[i] == ids[i];
      match LegacyRecords(rows, front, zones, known, end)
      case Err(e) => Err(e)
      case Ok(prefix) =>
        match ZoneOf(zones, sid, known)
        case Err(e) => Err(e)
        case Ok(_) => if end.aware then Ok(prefix + [LegacyRecordOf(rows, sid, end.secs)]) else Err(NaiveEndComparison)
  }

  lemma {:induction false} LegacyRecordsExtend(rows: seq<Obs>, ids: seq<string>, i: nat, zones: map<string, string>,
                                               known: string -> bool, end: Instant, report: seq<StoreRecord>)
    requires i < |ids| && LegacyRecords(rows, ids[..i], zones, known, end) == Ok(report)
    requires LegacyStoreFailure(zones, ids[i], known, end).None?
    ensures LegacyRecords(rows, ids[..i + 1], zones, known, end) == Ok(report + [LegacyRecordOf(rows, ids[i], end.secs)])
  {
    AppReport.PrefixStep(ids, i);
  }

  /** The first store that raises decides the error of the whole pass. */
  lemma {:induction false} LegacyRecordsFail(rows: seq<Obs>, ids: seq<string>, i: nat, zones: map<string, string>,
                                             known: string -> bool, end: Instant)
    requires i < |ids| && LegacyRecords(rows, ids[..i], zones, known, end).Ok?
    requires LegacyStoreFailure(zones, ids[i], known, end).Some?
    ensures LegacyRecords(rows, ids, zones, known, end) == Err(LegacyStoreFailure(zones, ids[i], known, end).value)
    decreases |ids|
  {
    var front := ids[..|ids| - 1];
    if i == |ids| - 1 {
      assert front == ids[..i];
    } else {
      assert front[..i] == ids[..i] && front[i] == ids[i];
      LegacyRecordsFail(rows, front, i, zones, known, end);
    }
  }

  /** What this `generate_report` returns or raises; `req.storeId` is
      accepted but never read, so every store's rows are used. */
  function LegacySpec(now: int, req: AppReport.ReportRequest, statuses: seq<Obs>, zones: map<string, string>,
                      parse: string -> Option<Instant>, known: string -> bool): Result<seq<StoreRecord>, Failure>
  {
    match ParseTimes(now, req.startTime, req.endTime, parse)
    case Err(e) => Err(e)
    case Ok(end) =>
      if statuses == [] then Ok([])
      else if |zones| == 0 then Err(MissingMergeKey)
      else LegacyRecords(statuses, DistinctIds(statuses), zones, known, end)
  }

  /** `generate_report` of report.py: one pass over the store groups. */
  method GenerateLegacyReport(now: int, req: AppReport.ReportRequest, statuses: seq<Obs>, zones: map<string, string>,
                              parse: string -> Option<Instant>, known: string -> bool)
    returns (r: Result<seq<StoreRecord>, Failure>)
    ensures r == LegacySpec(now, req, statuses, zones, parse, known)
  {
    var parsed := ParseTimes(now, req.startTime, req.endTime, parse);
    if parsed.Err? {
      return Err(parsed.error);
    }
    var end := parsed.value;
    if statuses == [] {
      return Ok([]);
    }
    if |zones| == 0 {
      return Err(MissingMergeKey);
    }
    var ids := DistinctIds(statuses);
    var report: seq<StoreRecord> := [];
    var i := 0;
    while i < |ids|
      invariant 0 <= i <= |ids|
      invariant LegacyRecords(statuses, ids[..i], zones, known, end) == Ok(report)
    {
      var zone := ZoneOf(zones, ids[i], known);
      if zone.Err? {
        LegacyRecordsFail(statuses, ids, i, zones, known, end);
        return Err(zone.error);
      }
      if !end.aware {
        LegacyRecordsFail(statuses, ids, i, zones, known, end);
        return Err(NaiveEndComparison);
      }
      LegacyRecordsExtend(statuses, ids, i, zones, known, end, report);
      report := report + [LegacyRecordOf(statuses, ids[i], end.secs)];
      i := i + 1;
    }
    assert ids[..i] == ids;
    r := Ok(report);
  }

  /** One record per store with status rows, whatever store was asked for,
      each built from that store's rows and the end instant alone. */
  lemma {:induction false} LegacyOnePerStore(now: int, req: AppReport.ReportRequest, statuses: seq<Obs>, zones: map<string, string>,
                                             parse: string -> Option<Instant>, known: string -> bool)
    requires LegacySpec(now, req, statuses, zones, parse, known).Ok?
    ensures var recs := LegacySpec(now, req, statuses, zones, parse, known).value;
            && AppReport.IdsOf(recs) == DistinctIds(statuses)
            && (forall i :: 0 <= i < |recs| ==>
                  recs[i] == LegacyRecordOf(statuses, recs[i].storeId, ParseTimes(now, req.startTime, req.endTime, parse).value.secs))
  {
    var end := ParseTimes(now, req.startTime, req.endTime, parse).value;
    var recs := LegacySpec(now, req, statuses, zones, parse, known).value;
    if statuses != [] {
      var ids := DistinctIds(statuses);
      assert recs == LegacyRecords(statuses, ids, zones, known, end).value;
      assert |AppReport.IdsOf(recs)| == |ids|;
      assert forall i :: 0 <= i < |ids| ==> AppReport.IdsOf(recs)[i] == ids[i];
    }
  }

  /** A failed report is a bad time text, a missing timezone table, a store
      with rows whose timezone row is missing or names an unknown zone, or an
      end without a UTC offset once there are rows to compare it with. */
  lemma {:induction false} LegacyFailsExactly(now: int, req: AppReport.ReportRequest, statuses: seq<Obs>, zones: map<string, string>,
                                              parse: string -> Option<Instant>, known: string -> bool)
    ensures LegacySpec(now, req, statuses, zones, parse, known).Err?
            <==> || (Supplied(req.startTime) && parse(req.startTime.text).None?)
                 || (Supplied(req.endTime) && parse(req.endTime.text).None?)
                 || (statuses != [] && |zones| == 0)
                 || (exists o :: o in statuses && ZoneOf(zones, o.storeId, known).Err?)
                 || (statuses != [] && !AppReport.OffsetGiven(req.endTime, parse))
  {
    var ids := DistinctIds(statuses);
    var parsed := ParseTimes(now, req.startTime, req.endTime, parse);
    DistinctIdsCover(statuses);
    if exists o :: o in statuses && ZoneOf(zones, o.storeId, known).Err? {
      var o :| o in statuses && ZoneOf(zones, o.storeId, known).Err?;
      assert o.storeId in ids;
    }
    if parsed.Ok? && statuses != [] && |zones| > 0 && LegacyRecords(statuses, ids, zones, known, parsed.value).Err? {
      var k :| 0 <= k < |ids| && !(ZoneOf(zones, ids[k], known).Ok? && parsed.value.aware);
      assert ids[k] in ids;
    }
  }

  /** With status rows and an end without a UTC offset (in particular the
      default end), the report fails at its smallest store: on that store's
      zone if it is unusable, otherwise on the aware/naive comparison. */
  lemma {:induction false} LegacyNaiveEndFails(now: int, req: AppReport.ReportRequest, statuses: seq<Obs>,
                                               zones: map<string, string>, parse: string -> Option<Instant>,
                                               known: string -> bool)
    requires ParseTimes(now, req.startTime, req.endTime, parse).Ok?
    requires statuses != [] && |zones| > 0 && !AppReport.OffsetGiven(req.endTime, parse)
    ensures var first := DistinctIds(statuses)[0];
            LegacySpec(now, req, statuses, zones, parse, known)
            == Err(if ZoneOf(zones, first, known).Ok? then NaiveEndComparison else ZoneOf(zones, first, known).error)
  {
    var ids := DistinctIds(statuses);
    var end := ParseTimes(now, req.startTime, req.endTime, parse).value;
    assert ids[..0] == [];
    LegacyRecordsFail(statuses, ids, 0, zones, known, end);
  }

  /** For one request on one snapshot, the two generators never both return
      records: if both succeed, app/report.py's report is empty. */
  lemma {:induction false} EnginesNeverBothReport(now: int, req: AppReport.ReportRequest, statuses: seq<Obs>,
                                                  zones: map<string, string>, parse: string -> Option<Instant>,
                                                  known: string -> bool)
    requires AppReport.ReportSpec(now, req, statuses, zones, parse, known).Ok?
    requires LegacySpec(now, req, statuses, zones, parse, known).Ok?
    ensures AppReport.ReportSpec(now, req, statuses, zones, parse, known).value == []
  {
    var rows := AppReport.Fetch(statuses, req.storeId);
    if rows != [] {
      var end := ParseTimes(now, req.startTime, req.endTime, parse).value;
      var ids := DistinctIds(statuses);
      assert LegacyRecords(statuses, ids, zones, known, end).Ok?;
      assert ZoneOf(zones, ids[0], known).Ok? && end.aware;
      var appIds := DistinctIds(rows);
      var range := AppReport.ResolveRange(now, req.startTime, req.endTime, parse).value;
      assert AppReport.MixedRange(req, parse);
    }
  }

  /** Uptime in window `w` is positive exactly when some active row of the
      store lies in [end - size, end], however early the start was. */
  lemma {:induction false} LegacyUptimeWitness(rows: seq<Obs>, sid: string, end: int, w: Window)
    ensures StatsOf(LegacyRecordOf(rows, sid, end), w).uptime > 0
        <==> exists i :: 0 <= i < |rows| && rows[i].storeId == sid && rows[i].status == Active
                         && end - Size(w) <= rows[i].ts <= end
  {
    CountPositive(rows, sid, end - Size(w), end, Active);
  }

  /** The trailing windows nest, so hour <= day <= week for both counts. */
  lemma {:induction false} LegacyWindowsNested(rows: seq<Obs>, sid: string, end: int)
    ensures var r := LegacyRecordOf(rows, sid, end);
            && r.lastHour.uptime <= r.lastDay.uptime <= r.lastWeek.uptime
            && r.lastHour.downtime <= r.lastDay.downtime <= r.lastWeek.downtime
  {
    CountMonotone(rows, sid, end - HourSecs, end, end - DaySecs, end, Active);
    CountMonotone(rows, sid, end - DaySecs, end, end - WeekSecs, end, Active);
    CountMonotone(rows, sid, end - HourSecs, end, end - DaySecs, end, Inactive);
    CountMonotone(rows, sid, end - DaySecs, end, end - WeekSecs, end, Inactive);
  }

  /** Against app/report.py: when the range reaches back at least a week the
      two generators count the same rows, and their percentages differ only
      for a window with downtime and no uptime (0 there, none here). */
  lemma {:induction false} LegacyAgreesWithApp(rows: seq<Obs>, sid: string, start: int, end: int, w: Window)
    requires start <= end - WeekSecs
    ensures var legacy := StatsOf(LegacyRecordOf(rows, sid, end), w);
            var app := StatsOf(AppReport.StoreRecordOf(rows, sid, Range(start, end)), w);
            && legacy.uptime == app.uptime && legacy.downtime == app.downtime
            && (legacy.availability == app.availability <==> legacy.uptime > 0 || legacy.downtime == 0)
  {
    assert AppReport.WindowStart(Range(start, end), w) == end - Size(w);
  }

  /** The end of `_run_report_task`: the status and the CSV text it stores. */
  datatype LegacyJobEnd = LegacyJobEnd(status: string, csv: Option<string>)

  /** "complete" with the CSV of the records, or "failed" with None. */
  function LegacyJobResult(report: Result<seq<StoreRecord>, Failure>, toCsv: seq<StoreRecord> -> string): (j: LegacyJobEnd)
    ensures j.status == "complete" || j.status == "failed"
    ensures j.status == "complete" <==> report.Ok?
    ensures j.csv.Some? <==> j.status == "complete"
    ensures report.Ok? ==> j.csv == Some(toCsv(report.value))
  {
    match report
    case Ok(recs) => LegacyJobEnd("complete", Some(toCsv(recs)))
    case Err(_) => LegacyJobEnd("failed", None)
  }

  /** What the background task reads when it runs; `toCsv` stands for
      `pd.DataFrame(data).to_csv(index=False)`. */
  datatype LegacyEnvironment = LegacyEnvironment(now: int, statuses: seq<Obs>, zones: map<string, string>,
                                                 parse: string -> Option<Instant>, known: string -> bool,
                                                 toCsv: seq<StoreRecord> -> string)

  function LegacyJobOutcome(req: AppReport.ReportRequest, env: LegacyEnvironment): LegacyJobEnd
  {
    LegacyJobResult(LegacySpec(env.now, req, env.statuses, env.zones, env.parse, env.known), env.toCsv)
  }

  /** A run over a snapshot with status rows and no end text, as when
      `trigger_report` is called with its defaults, always ends "failed". */
  lemma {:induction false} LegacyDefaultRunFails(req: AppReport.ReportRequest, env: LegacyEnvironment)
    requires env.statuses != [] && !Supplied(req.endTime)
    ensures LegacyJobOutcome(req, env) == LegacyJobEnd("failed", None)
  {
    if ParseTimes(env.now, req.startTime, req.endTime, env.parse).Ok? && |env.zones| > 0 {
      LegacyNaiveEndFails(env.now, req, env.statuses, env.zones, env.parse, env.known);
    }
  }

  /** Unlike app/report.py, an empty report is a success: no status rows at
      all gives "complete" with the CSV of no records. */
  lemma {:induction false} LegacyEmptyReportCompletes(req: AppReport.ReportRequest, env: LegacyEnvironment)
    requires ParseTimes(env.now, req.startTime, req.endTime, env.parse).Ok? && env.statuses == []
    ensures LegacyJobOutcome(req, env) == LegacyJobEnd("complete", Some(env.toCsv([])))
  {
  }

  predicate LegacyState(s: string)
  {
    s == "pending" || s == "complete" || s == "failed"
  }

  /** The invariant of the maps of report.py: every finished job has a
      `report_file` entry holding text exactly when it completed; a pending
      id may have no task left (its scheduling failed). */
  ghost predicate LegacyConsistent(status: map<string, string>, file: map<string, Option<string>>,
                                   tasks: map<string, AppReport.ReportRequest>)
  {
    && (forall id :: id in status ==> LegacyState(status[id]))
    && (forall id :: id in file ==> id in status && status[id] != "pending" && (file[id].Some? <==> status[id] == "complete"))
    && (forall id :: id in status && status[id] != "pending" ==> id in file)
    && (forall id :: id in tasks ==> id in status && status[id] == "pending")
  }

  /** The module-level maps of report.py, with the unfinished tasks. */
  class LegacyRegistry {
    var status: map<string, string>
    var file: map<string, Option<string>>
    var tasks: map<string, AppReport.ReportRequest>

    ghost predicate Valid()
      reads this
    {
      LegacyConsistent(status, file, tasks)
    }

    constructor ()
      ensures Valid() && status == map[] && file == map[] && tasks == map[]
    {
      status, file, tasks := map[], map[], map[];
    }

    /** `trigger_report`: "pending" is written before the background task is scheduled,
        so a scheduling error leaves the id pending with no task to run. */
    method Trigger(freshId: string, req: AppReport.ReportRequest, scheduleError: Option<string>)
      returns (r: Result<string, string>)
      requires Valid() && freshId !in status
      modifies this
      ensures Valid() && status == old(status)[freshId := "pending"] && file == old(file)
      ensures scheduleError.Some? ==> r == Err(scheduleError.value) && tasks == old(tasks)
      ensures scheduleError.None? ==> r == Ok(freshId) && tasks == old(tasks)[freshId := req]
    {
      status := status[freshId := "pending"];
      if scheduleError.Some? {
        return Err(scheduleError.value);
      }
      tasks := tasks[freshId := req];
      r := Ok(freshId);
    }

    /** `_run_report_task`: generate, then record "complete" and the CSV
        text, or "failed" and None. */
    method Run(id: string, env: LegacyEnvironment)
      requires Valid() && id in tasks
      modifies this
      ensures Valid() && tasks == old(tasks) - {id}
      ensures status == old(status)[id := LegacyJobOutcome(old(tasks)[id], env).status]
      ensures file == old(file)[id := LegacyJobOutcome(old(tasks)[id], env).csv]
      ensures status[id] == "complete" || status[id] == "failed"
    {
      var report := GenerateLegacyReport(env.now, tasks[id], env.statuses, env.zones, env.parse, env.known);
      var outcome := LegacyJobResult(report, env.toCsv);
      status, file, tasks := status[id := outcome.status], file[id := outcome.csv], tasks - {id};
    }
  }
}
