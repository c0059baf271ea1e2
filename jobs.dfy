/** The shapes of the data the dashboard works on: raw job records as
    supplied by the caller, and the table rows derived from them. */
module Jobs {
  import opened JsValues

  /** A raw job record: every field may be missing (`None`). */
  datatype RawJob = RawJob(
    id: Option<string>,
    name: Option<string>,
    timestamp: Option<int>,
    processedOn: Option<int>,
    finishedOn: Option<int>,
    status: Option<string>,
    queueName: Option<string>,
    queueQualifiedName: Option<string>,
    data: JsValue,
    opts: JsValue,
    failedReason: Option<string>,
    stacktrace: Option<seq<string>>,
    attemptsMade: Option<int>,
    delay: Option<int>,
    progress: JsValue,
    returnvalue: JsValue,
    returnValue: JsValue)

  /** A table row. `key` is the job id (the table's row key);
      `originalJob` is the record the row was built from. */
  datatype Row = Row(
    key: Option<string>,
    id: Option<string>,
    name: string,
    timestamp: int,
    processedOn: Option<int>,
    finishedOn: Option<int>,
    currentStatus: string,
    queueName: string,
    data: JsValue,
    opts: JsValue,
    failedReason: Option<string>,
    stacktrace: Option<seq<string>>,
    attemptsMade: int,
    delay: Option<int>,
    progress: JsValue,
    returnvalue: JsValue,
    originalJob: Option<RawJob>)
}
