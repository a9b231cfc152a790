/** The HTTP layer of app/main.py: `get` classifies what a poller sees from
    the registry's maps, `trigger` starts a job and wraps its id or error. */
module Api {
  import opened Outcomes
  import AppReport
  import LegacyReport

  /** The responses of the two endpoints: a JSON body with the id or the
      status, the CSV file, or a JSON error with its HTTP code. */
  datatype Response =
    | Accepted(reportId: string)
    | StatusBody(status: string)
    | FileBody(path: string, filename: string)
    | ErrorBody(code: int, detail: string)

  const NotFound: Response := ErrorBody(404, "Invalid report_id")
  const FileMissing: Response := ErrorBody(500, "Report file not found.")

  predicate StartsWithFailed(s: string)
  {
    |s| >= 6 && s[..6] == "FAILED"
  }

  /** A status starting with "FAILED" is none of the other states `get` knows. */
  lemma FailedPrefixIsNoOtherState()
    ensures forall s :: StartsWithFailed(s) ==> s != "COMPLETED" && s != "IN_PROGRESS" && s != "QUEUED"
  {
    forall s | StartsWithFailed(s)
      ensures s != "COMPLETED" && s != "IN_PROGRESS" && s != "QUEUED"
    {
      assert s[0] == s[..6][0] == 'F';
    }
  }

  /** `get`: a COMPLETED job is served from its recorded path when that path
      is set, non-empty and on disk; a queued or running job shows its status;
      a status starting with "FAILED" is a 500 carrying it; anything else,
      including an unknown id, is a 404. */
  function Poll(id: string, status: map<string, string>, file: map<string, string>, onDisk: string -> bool): (r: Response)
    ensures r == NotFound <==> id !in status || (status[id] != "COMPLETED" && status[id] != "IN_PROGRESS"
                                                && status[id] != "QUEUED" && !StartsWithFailed(status[id]))
    ensures r.FileBody? ==> && id in status && status[id] == "COMPLETED" && id in file
                            && r.path == file[id] && r.path != "" && onDisk(r.path) && r.filename == id + ".csv"
    ensures r.StatusBody? ==> id in status && r.status == status[id] && (r.status == "IN_PROGRESS" || r.status == "QUEUED")
    ensures r.ErrorBody? && r.code == 500 ==> id in status && (r == FileMissing || (StartsWithFailed(r.detail) && r.detail == status[id]))
    ensures !r.Accepted?
    ensures id in status && (status[id] == "QUEUED" || status[id] == "IN_PROGRESS") ==> r == StatusBody(status[id])
    ensures id in status && StartsWithFailed(status[id]) ==> r == ErrorBody(500, status[id])
    ensures id in status && status[id] == "COMPLETED" ==> && (r.FileBody? <==> id in file && file[id] != "" && onDisk(file[id]))
                                                          && (!r.FileBody? ==> r == FileMissing)
  {
    FailedPrefixIsNoOtherState();
    if id in status && status[id] == "COMPLETED" then
      if id in file && file[id] != "" && onDisk(file[id]) then FileBody(file[id], id + ".csv") else FileMissing
    else if id in status && (status[id] == "IN_PROGRESS" || status[id] == "QUEUED") then StatusBody(status[id])
    else if id in status && StartsWithFailed(status[id]) then ErrorBody(500, status[id])
    else NotFound
  }

  /** What a poller sees for each state a registry that keeps its invariant
      can hold: never a 404 for an id it knows, the file exactly when it is
      on disk, and the full failure text. */
  lemma {:induction false} PollFollowsLifecycle(id: string, status: map<string, string>, file: map<string, string>,
                                                tasks: map<string, AppReport.ReportRequest>, onDisk: string -> bool)
    requires AppReport.Consistent(status, file, tasks) && id in status
    ensures var r := Poll(id, status, file, onDisk);
            && r != NotFound
            && (status[id] == "QUEUED" || status[id] == "IN_PROGRESS" ==> r == StatusBody(status[id]))
            && (status[id] == "COMPLETED" && onDisk(AppReport.ReportPath(id)) ==> r == FileBody(AppReport.ReportPath(id), id + ".csv"))
            && (status[id] == "COMPLETED" && !onDisk(AppReport.ReportPath(id)) ==> r == FileMissing)
            && (AppReport.IsFailed(status[id]) ==> r == ErrorBody(500, status[id]))
  {
    var s := status[id];
    if AppReport.IsFailed(s) {
      AppReport.FailedIsNoOtherState(s);
      assert s[..8][..6] == s[..6];
    }
    if s == "COMPLETED" {
      assert AppReport.ReportPath(id)[0] == 'g';
    }
  }

  /** The states of report.py are not understood here: each one is a 404. */
  lemma {:induction false} LegacyStatesNotFound(id: string, status: map<string, string>, file: map<string, string>,
                                                onDisk: string -> bool)
    requires id in status && LegacyReport.LegacyState(status[id])
    ensures Poll(id, status, file, onDisk) == NotFound
  {
    var s := status[id];
    assert s[0] == 'p' || s[0] == 'c' || s[0] == 'f';
    if |s| >= 6 {
      assert s[..6][0] == s[0];
    }
  }

  /** `trigger`: the time texts are passed on unparsed; the new id is
      returned, or a 500 "Error: <message>" when scheduling raised. */
  method Trigger(reg: AppReport.Registry, freshId: string, req: AppReport.ReportRequest, scheduleError: Option<string>)
    returns (resp: Response)
    requires reg.Valid() && freshId !in reg.status
    modifies reg
    ensures reg.Valid() && reg.file == old(reg.file)
    ensures scheduleError.None? ==> && resp == Accepted(freshId)
                                    && reg.status == old(reg.status)[freshId := "QUEUED"]
                                    && reg.tasks == old(reg.tasks)[freshId := req]
    ensures scheduleError.Some? ==> && resp == ErrorBody(500, "Error: " + scheduleError.value)
                                    && reg.status == old(reg.status) && reg.tasks == old(reg.tasks)
  {
    var r := reg.Trigger(freshId, req, scheduleError);
    match r
    case Ok(id) => resp := Accepted(id);
    case Err(message) => resp := ErrorBody(500, "Error: " + message);
  }
}
