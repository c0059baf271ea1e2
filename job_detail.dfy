/** The detail modal of one job (`JobDetailModal`): the overview tab with
    its optional rows, the payload tabs, the error tab, the logs tab and
    the title. */
module JobDetail {
  import opened JsValues
  import opened Text
  import opened Jobs
  import Formatters
  import JobList

  /** `replace(/^bull:/, '')`: drops one leading "bull:". */
  function StripBullPrefix(s: string): (r: string)
    ensures StartsWith(s, "bull:") ==> s == "bull:" + r
    ensures !StartsWith(s, "bull:") ==> r == s
    ensures |r| <= |s|
  {
    if StartsWith(s, "bull:") then s[5..] else s
  }

  /** Only a leading prefix is removed, and only once. */
  lemma StripBullPrefixOnce(rest: string)
    ensures StripBullPrefix("bull:" + rest) == rest
    ensures StripBullPrefix("bull:bull:" + rest) == "bull:" + rest
  {
    assert ("bull:" + rest)[..5] == "bull:";
    assert ("bull:bull:" + rest)[5..] == "bull:" + rest;
  }

  /** The text of the overview's "Queue" row. */
  function QueueLabel(x: Row): (text: string)
    ensures x.queueName != "" && x.queueName != "unknown" ==> text == x.queueName
    ensures !(x.queueName != "" && x.queueName != "unknown") ==>
              if x.originalJob.Some? && TruthyStr(x.originalJob.value.queueQualifiedName)
              then text == StripBullPrefix(x.originalJob.value.queueQualifiedName.value)
              else text == "unknown"
    ensures text == "" ==> x.originalJob.Some? && x.originalJob.value.queueQualifiedName == Some("bull:")
  {
    if x.queueName != "" && x.queueName != "unknown" then x.queueName
    else if x.originalJob.Some? && TruthyStr(x.originalJob.value.queueQualifiedName) then
      var q := x.originalJob.value.queueQualifiedName.value;
      assert q != "bull:" ==> StripBullPrefix(q) != "" by {
        if StartsWith(q, "bull:") && q != "bull:" {
          assert q == "bull:" + StripBullPrefix(q);
        }
      }
      StripBullPrefix(q)
    else "unknown"
  }

  /** The "?" hint beside the queue: shown for the placeholder queue name
      when the raw job is at hand. */
  function ShowQueueTooltip(x: Row): (shown: bool)
    ensures shown <==> x.queueName == "unknown" && x.originalJob.Some?
    ensures shown ==> x.originalJob.Some?
    ensures shown && TruthyStr(x.originalJob.value.queueQualifiedName) ==>
              QueueLabel(x) == StripBullPrefix(x.originalJob.value.queueQualifiedName.value)
    ensures shown && !TruthyStr(x.originalJob.value.queueQualifiedName) ==> QueueLabel(x) == "unknown"
    ensures x.queueName != "" && x.queueName != "unknown" ==> !shown
  {
    x.queueName == "unknown" && x.originalJob.Some?
  }

  /** For a row of the job table the label is the job's own queue name
      unless that is missing or "unknown", in which case the qualified name
      without its "bull:" prefix is used; the hint shows exactly then. */
  lemma ProjectedRowQueueLabel(job: RawJob, jobStates: map<string, string>, now: int)
    ensures var x := JobList.ToRow(job, jobStates, now);
            && (ShowQueueTooltip(x) <==> !TruthyStr(job.queueName) || job.queueName.value == "unknown")
            && (TruthyStr(job.queueName) && job.queueName.value != "unknown" ==> QueueLabel(x) == job.queueName.value)
            && (!(TruthyStr(job.queueName) && job.queueName.value != "unknown") ==>
                  QueueLabel(x) == (if TruthyStr(job.queueQualifiedName) then StripBullPrefix(job.queueQualifiedName.value) else "unknown"))
  {
  }

  /** The rows of the overview tab. Optional rows are `None` when hidden. */
  datatype Overview = Overview(
    id: Option<string>,
    name: string,
    queue: string,
    queueTooltip: bool,
    statusColor: string,
    statusText: string,
    createdAt: string,
    processedAt: Option<string>,
    finishedAt: Option<string>,
    attemptsMade: Option<int>,
    progress: Option<JsValue>)

  /** `renderJobData`: nothing without a job; otherwise the fixed rows and
      the rows whose guard holds. */
  function RenderOverview(job: Option<Row>, jobStatus: string, toLocale: int -> string): (r: Option<Overview>)
    ensures job.None? <==> r.None?
    ensures r.Some? ==> var x := job.value; var o := r.value;
              && o.id == x.id && o.name == x.name && o.queue == QueueLabel(x)
              && o.queueTooltip == ShowQueueTooltip(x)
              && o.statusColor == Formatters.StatusColor(jobStatus) && o.statusText == Upper(jobStatus)
              && o.createdAt == toLocale(x.timestamp)
              && (o.processedAt.Some? <==> TruthyNum(x.processedOn))
              && (o.processedAt.Some? ==> o.processedAt.value == toLocale(x.processedOn.value))
              && (o.finishedAt.Some? <==> TruthyNum(x.finishedOn))
              && (o.finishedAt.Some? ==> o.finishedAt.value == toLocale(x.finishedOn.value))
              && (o.attemptsMade.Some? <==> x.attemptsMade > 0)
              && (o.attemptsMade.Some? ==> o.attemptsMade.value == x.attemptsMade)
              && (o.progress.Some? <==> x.progress != Undefined)
              && (o.progress.Some? ==> o.progress.value == x.progress)
  {
    match job
    case None => None
    case Some(x) =>
      Some(Overview(
        id := x.id,
        name := x.name,
        queue := QueueLabel(x),
        queueTooltip := ShowQueueTooltip(x),
        statusColor := Formatters.StatusColor(jobStatus),
        statusText := Upper(jobStatus),
        createdAt := Formatters.FormatTimestamp(Some(x.timestamp), toLocale),
        processedAt := if TruthyNum(x.processedOn) then Some(Formatters.FormatTimestamp(x.processedOn, toLocale)) else None,
        finishedAt := if TruthyNum(x.finishedOn) then Some(Formatters.FormatTimestamp(x.finishedOn, toLocale)) else None,
        attemptsMade := if x.attemptsMade > 0 then Some(x.attemptsMade) else None,
        progress := if x.progress != Undefined then Some(x.progress) else None))
  }

  /** A timestamp of 0 hides the "Processed At" row, although
      `formatTimestamp` itself would render it. */
  lemma ZeroProcessedOnHidden(x: Row, jobStatus: string, toLocale: int -> string)
    requires x.processedOn == Some(0)
    ensures RenderOverview(Some(x), jobStatus, toLocale).value.processedAt.None?
    ensures Formatters.FormatTimestamp(x.processedOn, toLocale) == toLocale(0)
  {
  }

  /** A tab showing a JSON payload, or a placeholder text. */
  datatype PayloadView = NotAvailable(message: string) | Json(value: JsValue)

  function PayloadTab(job: Option<Row>, value: JsValue, message: string): (v: PayloadView)
    ensures v.Json? <==> job.Some? && Truthy(value)
    ensures v.Json? ==> v.value == value
    ensures v.NotAvailable? ==> v.message == message
  {
    if job.None? || !Truthy(value) then NotAvailable(message) else Json(value)
  }

  /** The "Data", "Options" and "Return Value" tabs. */
  function DataTab(job: Option<Row>): (v: PayloadView)
    ensures v.Json? <==> job.Some? && Truthy(job.value.data)
    ensures v.NotAvailable? ==> v.message == "No data available"
  {
    PayloadTab(job, if job.Some? then job.value.data else Undefined, "No data available")
  }

  function OptionsTab(job: Option<Row>): (v: PayloadView)
    ensures v.Json? <==> job.Some? && Truthy(job.value.opts)
    ensures v.NotAvailable? ==> v.message == "No options available"
  {
    PayloadTab(job, if job.Some? then job.value.opts else Undefined, "No options available")
  }

  function ReturnValueTab(job: Option<Row>): (v: PayloadView)
    ensures v.Json? <==> job.Some? && Truthy(job.value.returnvalue)
    ensures v.NotAvailable? ==> v.message == "No return value available"
  {
    PayloadTab(job, if job.Some? then job.value.returnvalue else Undefined, "No return value available")
  }

  /** For a row of the job table the return value shows exactly when the
      raw job has a truthy `returnvalue` or a truthy `returnValue`. */
  lemma ReturnValueOfProjectedRow(job: RawJob, jobStates: map<string, string>, now: int)
    ensures var v := ReturnValueTab(Some(JobList.ToRow(job, jobStates, now)));
            && (v.Json? <==> Truthy(job.returnvalue) || Truthy(job.returnValue))
            && (v.Json? && Truthy(job.returnvalue) ==> v.value == job.returnvalue)
  {
  }

  /** The error tab. */
  datatype ErrorView =
    | NoErrorInformation
    | ErrorDetails(message: Option<string>, stackTrace: Option<string>)

  function HasStackTrace(x: Row): bool
  {
    x.stacktrace.Some? && |x.stacktrace.value| > 0
  }

  /** `renderJobError`: nothing without a job; a placeholder when there is
      neither a truthy reason nor a non-empty trace; otherwise the reason
      and the trace lines joined by newlines, each when present. */
  function ErrorTab(job: Option<Row>): (r: Option<ErrorView>)
    ensures job.None? <==> r.None?
    ensures r.Some? ==>
              (r.value == NoErrorInformation <==> !TruthyStr(job.value.failedReason) && !HasStackTrace(job.value))
    ensures r.Some? && r.value.ErrorDetails? ==>
              && (r.value.message.Some? <==> TruthyStr(job.value.failedReason))
              && (r.value.message.Some? ==> r.value.message == job.value.failedReason)
              && (r.value.stackTrace.Some? <==> HasStackTrace(job.value))
              && (r.value.stackTrace.Some? ==> r.value.stackTrace == Some(Join(job.value.stacktrace.value, "\n")))
              && (r.value.stackTrace.Some? ==> StartsWith(r.value.stackTrace.value, job.value.stacktrace.value[0]))
              && (r.value.message.Some? || r.value.stackTrace.Some?)
  {
    match job
    case None => None
    case Some(x) =>
      if !TruthyStr(x.failedReason) && !HasStackTrace(x) then Some(NoErrorInformation)
      else
        Some(ErrorDetails(
          if TruthyStr(x.failedReason) then x.failedReason else None,
          if HasStackTrace(x) then Some(Join(x.stacktrace.value, "\n")) else None))
  }

  /** The logs tab. */
  datatype LogsView = LoadingLogs | LogsError(message: string) | NoLogs | LogList(lines: seq<string>)

  /** `renderJobLogs`: loading first, then a truthy error, then the
      placeholder for no lines, then one item per line. */
  function LogsTab(isLoadingLogs: bool, modalError: Option<string>, logs: seq<string>): (v: LogsView)
    ensures isLoadingLogs <==> v == LoadingLogs
    ensures v.LogsError? <==> !isLoadingLogs && TruthyStr(modalError)
    ensures v.LogsError? ==> v.message == modalError.value
    ensures v == NoLogs <==> !isLoadingLogs && !TruthyStr(modalError) && |logs| == 0
    ensures v.LogList? ==> v.lines == logs && |logs| > 0
  {
    if isLoadingLogs then LoadingLogs
    else if TruthyStr(modalError) then LogsError(modalError.value)
    else if |logs| == 0 then NoLogs
    else LogList(logs)
  }

  /** The modal title, `Job Details: <name> (<id>)` with empty text for a
      missing job, name or id. */
  function Title(job: Option<Row>): (t: string)
    ensures StartsWith(t, "Job Details: ")
    ensures job.None? ==> t == "Job Details:  ()"
    ensures job.Some? && TruthyStr(job.value.id) ==>
              t == "Job Details: " + job.value.name + " (" + job.value.id.value + ")"
    ensures job.Some? && !TruthyStr(job.value.id) ==> t == "Job Details: " + job.value.name + " ()"
  {
    var name := if job.Some? then job.value.name else "";
    var id := if job.Some? then StrOr(job.value.id, "") else "";
    var t := "Job Details: " + name + " (" + id + ")";
    assert t[..13] == "Job Details: ";
    t
  }
}
