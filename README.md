# Store uptime reports: a verified model

This project models the uptime-report service of a store-monitoring backend. It covers four parts:

- **The aggregation engine** (`generate_report` in `app/report.py`). From status observations `(store_id, ts, status)` and a timezone table, it builds one record per store. Each record has uptime and downtime counts and an availability percentage over three trailing windows of one hour, one day and one week, all ending at the report's end instant.
- **An older variant of the engine** (`report.py`).
- **The report job registry.** Two module-level maps hold each job's status and its file. `trigger_report` creates a job and a background task runs it, moving the job from QUEUED to IN_PROGRESS and then to COMPLETED or "FAILED: message". The variant uses the states "pending", "complete" and "failed" instead.
- **The HTTP layer** (`app/main.py`). `get` classifies what a poller sees; `trigger` starts a job.

Modules:

- `Outcomes` (outcomes.dfy): `Option` and `Result`.
- `Uptime` (uptime.dfy): what both engines share.
  - Status rows, windows, counting rows in an interval by status, the exact availability percentage and the per-store record.
  - The store groups: the distinct store ids in ascending code-point order, as `groupby` sorts them, with Python's string order `Below`.
- `AppReport` (app_report.dfy): the engine of `app/report.py` and its job registry.
  - `ReportSpec` is the specification function of `generate_report`; the method `GenerateReport` loops over the store groups and is proved equal to it.
  - `JobResult` gives the end state of `process_report_task`.
  - The class `Registry` holds `report_status`, `report_file` and the scheduled tasks. Its methods keep the lifecycle invariant `Consistent`.
- `LegacyReport` (legacy_report.dfy): the engine and registry of `report.py`. It includes a lemma comparing its counts with those of `app/report.py`.
- `Api` (api.dfy): `get` as the function `Poll`, with lemmas tying it to the registry's lifecycle, and `trigger` as a method.

Time is whole seconds, as an `int`. The ISO-8601 parser is the parameter `parse: string -> Option<Instant>`. An `Instant` holds the seconds and whether the text carried a UTC offset, so whether `fromisoformat` returned an aware or a naive datetime. The timezone database (`known: string -> bool`) and the file system's behaviour are parameters. The text "UTC" always resolves, as the timezone library special-cases it.

Behaviour of the code worth noting:

- **Default start.** `start_time` defaults to *now* minus one day, not *end* minus one day (app/report.py:26).
- **Unknown zone names.** An unknown zone name is fatal to the whole report; it is not treated as UTC (app/report.py:64).
- **Malformed times.** A malformed time fails the background job. It is not rejected when the job is triggered (`MalformedTimeFailsInTask`).
- **Empty reports.** In `app/report.py` an empty report fails the job at `df[0]` (app/report.py:99).
- **Empty timezone table.** If the timezone table is empty and there are status rows, the merge raises `KeyError('store_id')` (both engines).
- **Aware and naive datetimes.** The stored `timestamp_utc` is a plain `DateTime` column (app/models.py:17), read back naive, and `utcnow()` is naive too. In app/report.py a time text with a UTC offset meets the naive `ts` in the range filter (app/report.py:70), and pandas raises a TypeError there. So any report with rows and such a text fails. `report.py` does the opposite: it makes `ts` aware (report.py:40), and its window filter (report.py:50) raises unless the end text carried an offset. Its default run therefore fails whenever there are status rows (`LegacyDefaultRunFails`), and no single request lets both engines return records (`EnginesNeverBothReport`).
- **Missing timezone row in the variant.** In `report.py` a store with no timezone row gets NaN from the left merge. NaN is truthy, so `or "UTC"` keeps it, and the timezone library raises on it (report.py:39). Only an empty zone name falls back to UTC there.

## Model

| member | source | states |
|---|---|---|
| Uptime.Size | app/report.py:52-54 | the three trailing windows are one hour, one day and one week long, in seconds |
| Uptime.Supplied | app/report.py:26-27 | a time argument is used only when it is truthy: present and non-empty; otherwise the default applies |
| Uptime.ZoneResolves | app/report.py:64 | `pytz.timezone` accepts a name iff it is "UTC" or known to the zone database |
| Uptime.Count | app/report.py:74-76 | the rows of one store with one status whose time lies in [lo, hi]; never more than the rows |
| Uptime.CountPositive | app/report.py:74-76 | a window's count for a status is positive iff some row of that store in the interval has exactly that status |
| Uptime.CountMonotone | app/report.py:51-55 | widening the interval never lowers a count |
| Uptime.CountedAtMostTotal | app/report.py:75-77 | statuses other than "active"/"inactive" count in neither bucket: uptime + downtime never exceed the rows in the window |
| Uptime.Availability | app/report.py:77-81 | the percentage is absent iff up + down = 0; otherwise it is exactly 100·up/(up+down) and lies in [0, 100] |
| Uptime.Below | app/report.py:60 | Python's `<` on str, by which `groupby` sorts the store ids: code-point order of the first differing character, a proper prefix first |
| Uptime.BelowIrreflexive | app/report.py:60 | no store id sorts before itself under Python's string order |
| Uptime.BelowTransitive | app/report.py:60 | Python's string order is transitive |
| Uptime.BelowTotal | app/report.py:60 | any two different store ids are ordered one way or the other |
| Uptime.DistinctIds | app/report.py:60 | there are no more groups than rows, and at least one when there are rows |
| Uptime.DistinctIdsSorted | app/report.py:60 | the groups come in strictly ascending code-point order of store id, so each store once |
| Uptime.DistinctIdsCover | app/report.py:60 | a store has a group iff it has at least one row |
| AppReport.Message | app/report.py:29-110 | the `str(e)` each failure puts after "FAILED: ": the ISO-format ValueError text, `'store_id'`, the quoted zone name, "list index out of range", the file system's message, or pandas' comparison error |
| AppReport.ResolveRange | app/report.py:22-29 | fails (with the ISO-format ValueError) iff a supplied time text does not parse; end defaults to now, start to now minus one day; supplied texts give the parsed instants |
| AppReport.OffsetGiven | app/report.py:26-27 | a supplied time text that `fromisoformat` parses to an aware datetime; the defaults derived from `utcnow()` are naive |
| AppReport.MixedRange | app/report.py:70 | the range filter compares the naive stored `ts` with an aware bound, and so raises the TypeError, iff the start or the end text carried an offset |
| AppReport.Filters | app/report.py:33 | the store filter is applied only for a truthy store id: present and non-empty |
| AppReport.Fetch | app/report.py:32-35 | the query's rows, in order: all of them when the store id is falsy, otherwise those of that store; never more than the rows |
| AppReport.FetchCounts | app/report.py:33-35 | with a truthy store id, that store's counts are those of the whole table, duplicates included, and every other store counts 0; without one all counts are unchanged |
| AppReport.FetchKeeps | app/report.py:32-35 | with a truthy store id exactly that store's rows are fetched, otherwise all rows |
| AppReport.ZoneName | app/report.py:61-63 | a store's zone is its timezone row's text, or "UTC" when the left merge found no row |
| AppReport.WindowStart | app/report.py:69-74 | a window starts at the later of the range start and end minus the window size, since rows must pass both filters |
| AppReport.WindowStatsOf | app/report.py:69-81 | a window's uptime and downtime are the store's active and inactive rows from `WindowStart` to end, and its percentage is `Availability` of the two |
| AppReport.StoreRecordOf | app/report.py:69-83 | a store's record holds its hour, day and week figures, computed from all its fetched rows |
| AppReport.StoreFailure | app/report.py:61-70 | a store's group raises iff its zone is rejected (the unknown-zone error, checked first) or the range bounds carry an offset (the comparison TypeError) |
| AppReport.Records | app/report.py:60-83 | succeeds iff every store's zone resolves and no bound carries an offset, then yields one record per store in order, each built from that store's rows; otherwise an unknown-zone error naming a rejected zone or the comparison error |
| AppReport.RecordsExtend | app/report.py:59-83 | a store whose group raises nothing appends its record to those of the stores before it |
| AppReport.RecordsFail | app/report.py:60-70 | the first store, in ascending id order, whose group raises decides the error of the whole report |
| AppReport.ReportSpec | app/report.py:21-85 | `generate_report`: a range error first, then no rows gives an empty report, rows with an empty timezone table give the merge KeyError, otherwise the records of the sorted store groups |
| AppReport.GenerateReport | app/report.py:21-85 | the loop over store groups returns exactly what `generate_report` returns or raises (`ReportSpec`) |
| AppReport.ReportOnePerStore | app/report.py:60-83 | a successful report has one record per distinct fetched store, in ascending id order, each computed from all of that store's rows and the resolved range |
| AppReport.ReportFailsExactly | app/report.py:25-70 | the report fails iff a time text does not parse, or there are rows but no timezone table, or some fetched store's zone does not resolve, or there are rows and a time text carries a UTC offset |
| AppReport.OffsetTimeFails | app/report.py:64-70 | with rows, a timezone table and an offset-bearing time text, the report fails at the smallest store: its unknown zone, else the comparison TypeError |
| AppReport.StoreFilterRestricts | app/report.py:33-35 | with a truthy store id every record belongs to that store |
| AppReport.OutOfRangeStoreIsZero | app/report.py:69-83 | a store whose rows all lie outside [start, end] still gets a record, with zero counts and no percentage |
| AppReport.UptimeWitness | app/report.py:70-76 | uptime in a window is positive iff an "active" row of the store lies in [max(start, end − size), end] |
| AppReport.WindowsNested | app/report.py:51-76 | hour ≤ day ≤ week for uptime and for downtime |
| AppReport.DefaultRangeWeekIsDay | app/report.py:26-76 | under the default range every record's last-week figures equal its last-day figures |
| AppReport.ReportPath | app/report.py:95 | the report file of a job is generated_reports/report_<id>.csv |
| AppReport.IsFailed | app/report.py:110 | a status written on failure: it begins with "FAILED: " |
| AppReport.Failed | app/report.py:106-110 | a failure writes a status starting with "FAILED: " and no file path |
| AppReport.JobResult | app/report.py:88-110 | the background task ends COMPLETED or "FAILED: …", never IN_PROGRESS; a path is recorded iff it completed, and it is generated_reports/report_<id>.csv; it completes iff the report succeeded, is non-empty and the file was written; otherwise the recorded text is that of the first exception met: the report's, opening the file, `df[0]`, writing |
| AppReport.JobOutcome | app/report.py:88-110 | the job's end is `JobResult` applied to what `generate_report` returns or raises on the snapshot the task reads |
| AppReport.MalformedTimeFailsInTask | app/report.py:25-29 | a time text that does not parse fails the job with the ISO-format message when the background task runs |
| AppReport.EmptyReportFails | app/report.py:95-110 | an empty report (no rows, or none for the requested store) fails the job at `df[0]` unless opening the file failed first |
| AppReport.Consistent | app/report.py:14-18 | the maps' invariant: every status is QUEUED, IN_PROGRESS, COMPLETED or "FAILED: …"; a file path exists exactly for COMPLETED jobs and is their report path; a task is pending exactly for QUEUED and IN_PROGRESS jobs |
| AppReport.FailedIsNoOtherState | app/report.py:110 | a "FAILED: …" status is none of QUEUED, IN_PROGRESS, COMPLETED |
| AppReport.ConsistentAfterFinish | app/report.py:103-110 | finishing a running job keeps the registry invariant |
| AppReport.Registry.constructor | app/report.py:14-18 | both maps start empty |
| AppReport.Registry.Trigger | app/report.py:113-123 | a fresh id is scheduled and recorded as QUEUED, no other entry changes; if scheduling raises, nothing is recorded |
| AppReport.Registry.Start | app/report.py:90 | the job moves from QUEUED to IN_PROGRESS |
| AppReport.Registry.Finish | app/report.py:91-110 | the job's status becomes its `JobOutcome`, COMPLETED or "FAILED: …"; a file path is recorded exactly on completion; the invariant is kept |
| LegacyReport.ParseTimes | report.py:20-22 | start is parsed first, then end, and the first text that does not parse is the unwrapped error; end defaults to the naive now |
| LegacyReport.ZoneOf | report.py:35-39 | a store without a timezone row fails, an empty zone name becomes "UTC", and a resolved zone is accepted by the timezone library |
| LegacyReport.LegacyAvailability | report.py:54-57 | no percentage iff uptime is 0 (a 0.0 percentage is falsy); otherwise the same exact percentage as `Availability`, in (0, 100] |
| LegacyReport.LegacyStatsOf | report.py:44-57 | a window is [end − size, end] whatever the start; its percentage is `LegacyAvailability` of its counts |
| LegacyReport.LegacyRecordOf | report.py:43-59 | a store's record holds its hour, day and week figures from the end instant alone |
| LegacyReport.LegacyStoreFailure | report.py:39-50 | a store's group raises iff its zone is unusable (checked first) or the end carries no UTC offset (the comparison TypeError) |
| LegacyReport.LegacyRecords | report.py:38-59 | succeeds iff every store's zone is usable and the end is aware, then one record per store in order; otherwise a zone error or the comparison error |
| LegacyReport.LegacyRecordsExtend | report.py:38-59 | a store whose group raises nothing appends its record |
| LegacyReport.LegacyRecordsFail | report.py:38-50 | the first store, in ascending id order, whose group raises decides the error |
| LegacyReport.LegacySpec | report.py:19-61 | this `generate_report`: a parse error first, then no rows gives an empty report, rows with an empty timezone table give the merge KeyError, otherwise the records of the sorted groups of all stores; the store id is ignored |
| LegacyReport.GenerateLegacyReport | report.py:19-61 | the loop returns exactly what this `generate_report` returns or raises (`LegacySpec`) |
| LegacyReport.LegacyOnePerStore | report.py:24-61 | a successful report has one record per store among all status rows, whatever store was requested, each computed from the end instant alone |
| LegacyReport.LegacyFailsExactly | report.py:21-50 | the report fails iff a time text does not parse, or there are rows but no timezone table, or some store's timezone row is missing or names an unknown zone, or there are rows and the end carries no UTC offset |
| LegacyReport.LegacyNaiveEndFails | report.py:40-50 | with rows, a timezone table and an end without offset, the report fails at the smallest store: its zone error, else the comparison TypeError |
| LegacyReport.EnginesNeverBothReport | report.py:40-50 | when both generators succeed on the same request and snapshot, app/report.py's report is empty |
| LegacyReport.LegacyUptimeWitness | report.py:49-51 | uptime in a window is positive iff an "active" row of the store lies in [end − size, end], whatever the start |
| LegacyReport.LegacyWindowsNested | report.py:44-53 | hour ≤ day ≤ week for uptime and for downtime |
| LegacyReport.LegacyAgreesWithApp | report.py:49-57 | compares the per-store record functions, since no single request lets both engines return records: when the range reaches back at least a week, the counts equal those of app/report.py, and the percentages agree except for a window with downtime and no uptime |
| LegacyReport.LegacyJobResult | report.py:64-74 | the background task ends "complete" with the CSV text iff the report succeeded, otherwise "failed" with None |
| LegacyReport.LegacyJobOutcome | report.py:64-74 | the end of `_run_report_task` is `LegacyJobResult` applied to what this `generate_report` returns or raises on the snapshot the task reads |
| LegacyReport.LegacyDefaultRunFails | report.py:64-74 | with status rows and no end text the background task always ends "failed" with None |
| LegacyReport.LegacyEmptyReportCompletes | report.py:64-71 | with no status rows the job completes with the CSV of no records |
| LegacyReport.LegacyState | report.py:15 | the only statuses report.py writes: "pending", "complete" and "failed" |
| LegacyReport.LegacyConsistent | report.py:15-16 | the maps' invariant: every status is "pending", "complete" or "failed"; a finished job has a `report_file` entry holding text exactly when complete; a pending task's id is pending |
| LegacyReport.LegacyRegistry.constructor | report.py:15-16 | both maps start empty |
| LegacyReport.LegacyRegistry.Trigger | report.py:77-84 | "pending" is recorded before scheduling, so a scheduling error leaves the id pending with no task |
| LegacyReport.LegacyRegistry.Run | report.py:64-74 | the job's status becomes "complete" or "failed" with the matching `report_file` entry; the invariant is kept |
| Api.StartsWithFailed | app/main.py:50 | `status.startswith("FAILED")`: the status is at least six characters long and begins with "FAILED" |
| Api.FailedPrefixIsNoOtherState | app/main.py:33-50 | a status starting with "FAILED" is none of COMPLETED, IN_PROGRESS, QUEUED, so the branches of `get` do not overlap |
| Api.Poll | app/main.py:30-56 | 404 iff the id is unknown or its status is none of COMPLETED, IN_PROGRESS, QUEUED, "FAILED…"; QUEUED/IN_PROGRESS always show the status; a "FAILED…" status is always a 500 carrying it; COMPLETED serves the file, named <id>.csv, iff the path is set, non-empty and exists, and otherwise "Report file not found." |
| Api.PollFollowsLifecycle | app/main.py:32-52 | for every state the registry can hold, a known id is never a 404: QUEUED/IN_PROGRESS show the status, COMPLETED serves the recorded file exactly when it exists, a failure is a 500 with its text |
| Api.LegacyStatesNotFound | app/main.py:54-56 | "pending", "complete" and "failed" all fall through to 404 |
| Api.Trigger | app/main.py:15-27 | returns the new id and leaves it QUEUED, or a 500 "Error: <message>" with the registry unchanged when scheduling raises |

## Left out

- Scheduling: `asyncio.create_task` is modelled as an entry in the registry's `tasks` map, and a scheduling failure as an optional error message. Interleaving of tasks is not modelled; a task runs as `Start` followed by `Finish` (or `LegacyRegistry.Run`), and other operations may run between `Start` and `Finish`.
- Database sessions, queries and their failures: the tables are snapshots passed in, and an error raised by the database is not modelled.
- ISO-8601 parsing and the pytz database are the abstract parameters `parse` and `known`; of a parsed datetime the model keeps its instant and whether it is aware. The local timestamp `ts_local` and the business-hours table are read by the source but never affect a count, so they are not modelled.
- Sub-second precision: time is whole seconds. `utcnow()` and the stored timestamps carry microseconds, so a row within a second of a window boundary may fall on the other side of it in the source.
- Datetime range: instants are unbounded integers, while Python datetimes start at year 1. With an end within a week of year 1, the source raises OverflowError ("date value out of range") when it computes the window bounds. That happens before any store is processed (app/report.py:51-55) or at the first store's window (report.py:49), so the job fails. The model instead returns records, or the first store's zone or comparison error, so the job's outcome or its message differs.
- Traceback logging: the `traceback.format_exc()` print of a failed job (app/report.py:108-109) is output only and is not modelled.
- Floating point: the percentage is the exact rational `Percent(num, den)`. Rounding to two places is not modelled.
- CSV contents: the file write is an outcome (`SinkOutcome`: written, open failed, write failed), and the variant's `to_csv` is the parameter `toCsv`. The exact text of exception messages beyond those the code spells out is not modelled; the pandas comparison error is given a representative text (`AwareNaiveMessage`).
- `health` in app/main.py returns a constant and is not modelled. FastAPI's own 422 for a missing `report_id` query parameter is not modelled.
- app/report_task.py is not part of this model.
- Report ids: `uuid4` is modelled as a `freshId` argument that is not yet in the registry.
