/** The add-job form (`AddJobModal.handleSubmit`): the job data read as
    JSON or kept as text, and the BullMQ job options collected from the
    advanced section. */
module AddJob {
  import opened JsValues

  /** The validated form values. A missing or cleared field is `None`;
      `repeatEndDate` is the chosen date's epoch milliseconds. */
  datatype FormValues = FormValues(
    queueName: string,
    jobName: string,
    jobData: string,
    delay: Option<int>,
    attempts: Option<int>,
    jobId: Option<string>,
    lifo: Option<bool>,
    timeout: Option<int>,
    priority: Option<int>,
    stackTraceLimit: Option<int>,
    backoffEnabled: Option<bool>,
    backoffDelay: Option<int>,
    removeOnComplete: Option<bool>,
    removeOnCompleteCount: Option<int>,
    removeOnCompleteObjectCount: Option<int>,
    removeOnCompleteObjectAge: Option<int>,
    removeOnFail: Option<bool>,
    removeOnFailCount: Option<int>,
    removeOnFailObjectCount: Option<int>,
    removeOnFailObjectAge: Option<int>,
    repeatEvery: Option<int>,
    repeatCron: Option<string>,
    repeatLimit: Option<int>,
    repeatTz: Option<string>,
    repeatEndDate: Option<int>)

  datatype BackoffKind = FixedKind | ExponentialKind
  datatype RemovalKind = BooleanKind | CountKind | ObjectKind
  datatype RepeatKind = EveryKind | CronKind

  /** The modal's own state: the advanced switch and the radio choices. */
  datatype Settings = Settings(
    advancedOptions: bool,
    backoffType: BackoffKind,
    removeOnCompleteType: RemovalKind,
    removeOnFailType: RemovalKind,
    repeatEnabled: bool,
    repeatType: RepeatKind)

  /** `backoff`: a bare delay for the fixed kind, an object otherwise. */
  datatype Backoff = FixedDelay(ms: int) | Exponential(delay: int)

  /** `removeOnComplete` / `removeOnFail`: a flag, a count to keep, or a
      count and an age in seconds. */
  datatype Removal = Flag(remove: bool) | KeepCount(count: int) | KeepRecent(count: int, age: int)

  datatype Repeat = Repeat(
    every: Option<int>,
    cron: Option<string>,
    limit: Option<int>,
    tz: Option<string>,
    endDate: Option<int>)

  /** The options object; an absent property is `None`. */
  datatype JobOptions = JobOptions(
    delay: Option<int>,
    attempts: Option<int>,
    jobId: Option<string>,
    lifo: Option<bool>,
    timeout: Option<int>,
    priority: Option<int>,
    stackTraceLimit: Option<int>,
    backoff: Option<Backoff>,
    removeOnComplete: Option<Removal>,
    removeOnFail: Option<Removal>,
    repeat: Option<Repeat>)

  const NoOptions := JobOptions(None, None, None, None, None, None, None, None, None, None, None)

  const DefaultBackoffDelay := 1000
  const DefaultKeepCount := 1000
  const DefaultKeepAge := 3600

  /** A number field kept only when truthy (present and non-zero). */
  function IfTruthy(o: Option<int>): (r: Option<int>)
    ensures r.Some? <==> TruthyNum(o)
    ensures r.Some? ==> r == o && r.value != 0
  {
    if TruthyNum(o) then o else None
  }

  function IfTruthyStr(o: Option<string>): (r: Option<string>)
    ensures r.Some? <==> TruthyStr(o)
    ensures r.Some? ==> r == o && r.value != ""
  {
    if TruthyStr(o) then o else None
  }

  /** The removal rule shared by `removeOnComplete` and `removeOnFail`:
      falsy counts and ages fall back to 1000 jobs and 3600 seconds. */
  function RemovalFor(kind: RemovalKind, flag: Option<bool>, count: Option<int>,
                      objectCount: Option<int>, objectAge: Option<int>): (r: Removal)
    ensures kind == BooleanKind <==> r.Flag?
    ensures kind == CountKind <==> r.KeepCount?
    ensures kind == ObjectKind <==> r.KeepRecent?
    ensures r.Flag? ==> (r.remove <==> flag == Some(true))
    ensures r.KeepCount? ==> r.count == NumOr(count, 1000) && r.count != 0
    ensures r.KeepRecent? ==> r.count == NumOr(objectCount, 1000) && r.age == NumOr(objectAge, 3600)
    ensures r.KeepRecent? ==> r.count != 0 && r.age != 0
  {
    match kind
    case BooleanKind => Flag(flag == Some(true))
    case CountKind => KeepCount(NumOr(count, DefaultKeepCount))
    case ObjectKind => KeepRecent(NumOr(objectCount, DefaultKeepCount), NumOr(objectAge, DefaultKeepAge))
  }

  /** A falsy count (absent or zero) keeps 1000 jobs, in both count
      kinds, and a falsy age keeps an hour, whatever the other fields hold. */
  lemma EmptyCountsKeepThousand(kind: RemovalKind, flag: Option<bool>, count: Option<int>,
                                objectCount: Option<int>, objectAge: Option<int>)
    requires kind != BooleanKind
    ensures kind == CountKind && (count.None? || count == Some(0)) ==>
              RemovalFor(kind, flag, count, objectCount, objectAge).count == 1000
    ensures kind == ObjectKind && (objectCount.None? || objectCount == Some(0)) ==>
              RemovalFor(kind, flag, count, objectCount, objectAge).count == 1000
    ensures kind == ObjectKind && (objectAge.None? || objectAge == Some(0)) ==>
              RemovalFor(kind, flag, count, objectCount, objectAge).age == 3600
  {
  }

  /** `JSON.parse(values.jobData)`, falling back to the text itself when
      the text is not JSON; `parse` stands for the host's parser. */
  function ParseJobData(text: string, parse: string -> Option<JsValue>): (v: JsValue)
    ensures parse(text).Some? ==> v == parse(text).value
    ensures parse(text).None? ==> v == Str(text)
  {
    match parse(text)
    case Some(value) => value
    case None => Str(text)
  }

  /** The plain fields of the advanced section, each kept when truthy
      (`lifo` whenever it is defined). */
  method PlainOptions(values: FormValues) returns (opts: JobOptions)
    ensures opts.delay == IfTruthy(values.delay)
    ensures opts.attempts == IfTruthy(values.attempts)
    ensures opts.jobId == IfTruthyStr(values.jobId)
    ensures opts.lifo == values.lifo
    ensures opts.timeout == IfTruthy(values.timeout)
    ensures opts.priority == IfTruthy(values.priority)
    ensures opts.stackTraceLimit == IfTruthy(values.stackTraceLimit)
    ensures opts.backoff.None? && opts.removeOnComplete.None? && opts.removeOnFail.None? && opts.repeat.None?
  {
    opts := NoOptions;
    if TruthyNum(values.delay) { opts := opts.(delay := values.delay); }
    if TruthyNum(values.attempts) { opts := opts.(attempts := values.attempts); }
    if TruthyStr(values.jobId) { opts := opts.(jobId := values.jobId); }
    if values.lifo.Some? { opts := opts.(lifo := values.lifo); }
    if TruthyNum(values.timeout) { opts := opts.(timeout := values.timeout); }
    if TruthyNum(values.priority) { opts := opts.(priority := values.priority); }
    if TruthyNum(values.stackTraceLimit) { opts := opts.(stackTraceLimit := values.stackTraceLimit); }
  }

  /** The repeat object: `every` or `cron` as the chosen kind says and
      only when that field is truthy, plus the optional limit, time zone
      and end date. */
  method RepeatOptions(values: FormValues, kind: RepeatKind) returns (r: Repeat)
    ensures r.every.Some? <==> kind == EveryKind && TruthyNum(values.repeatEvery)
    ensures r.cron.Some? <==> kind == CronKind && TruthyStr(values.repeatCron)
    ensures r.every.None? || r.cron.None?
    ensures r.every.Some? ==> r.every == values.repeatEvery
    ensures r.cron.Some? ==> r.cron == values.repeatCron
    ensures r.limit == IfTruthy(values.repeatLimit)
    ensures r.tz == IfTruthyStr(values.repeatTz)
    ensures r.endDate == values.repeatEndDate
  {
    r := Repeat(None, None, None, None, None);
    if kind == EveryKind && TruthyNum(values.repeatEvery) {
      r := r.(every := values.repeatEvery);
    } else if kind == CronKind && TruthyStr(values.repeatCron) {
      r := r.(cron := values.repeatCron);
    }
    if TruthyNum(values.repeatLimit) { r := r.(limit := values.repeatLimit); }
    if TruthyStr(values.repeatTz) { r := r.(tz := values.repeatTz); }
    if values.repeatEndDate.Some? { r := r.(endDate := values.repeatEndDate); }
  }

  /** The options `handleSubmit` collects from `values`: nothing without
      the advanced section; otherwise the plain fields, the backoff when
      enabled (a falsy delay becoming 1000 ms), both removal rules, and the
      repeat object when repeating is on. */
  predicate OptionsFor(values: FormValues, settings: Settings, opts: JobOptions)
  {
    && (!settings.advancedOptions ==> opts == NoOptions)
    && (settings.advancedOptions ==>
          && opts.delay == IfTruthy(values.delay)
          && opts.attempts == IfTruthy(values.attempts)
          && opts.jobId == IfTruthyStr(values.jobId)
          && opts.lifo == values.lifo
          && opts.timeout == IfTruthy(values.timeout)
          && opts.priority == IfTruthy(values.priority)
          && opts.stackTraceLimit == IfTruthy(values.stackTraceLimit))
    && (opts.backoff.Some? <==> settings.advancedOptions && values.backoffEnabled == Some(true))
    && (opts.backoff.Some? ==>
          opts.backoff.value == (if settings.backoffType == FixedKind
                                 then FixedDelay(NumOr(values.backoffDelay, DefaultBackoffDelay))
                                 else Exponential(NumOr(values.backoffDelay, DefaultBackoffDelay))))
    && (settings.advancedOptions ==>
          && opts.removeOnComplete == Some(RemovalFor(settings.removeOnCompleteType, values.removeOnComplete,
               values.removeOnCompleteCount, values.removeOnCompleteObjectCount, values.removeOnCompleteObjectAge))
          && opts.removeOnFail == Some(RemovalFor(settings.removeOnFailType, values.removeOnFail,
               values.removeOnFailCount, values.removeOnFailObjectCount, values.removeOnFailObjectAge)))
    && (opts.repeat.Some? <==> settings.advancedOptions && settings.repeatEnabled)
    && (opts.repeat.Some? ==>
          var r := opts.repeat.value;
          && (r.every.Some? <==> settings.repeatType == EveryKind && TruthyNum(values.repeatEvery))
          && (r.cron.Some? <==> settings.repeatType == CronKind && TruthyStr(values.repeatCron))
          && (r.every.None? || r.cron.None?)
          && (r.every.Some? ==> r.every == values.repeatEvery)
          && (r.cron.Some? ==> r.cron == values.repeatCron)
          && r.limit == IfTruthy(values.repeatLimit)
          && r.tz == IfTruthyStr(values.repeatTz)
          && r.endDate == values.repeatEndDate)
  }

  /** The rules leave nothing open: at most one options object satisfies
      them for given values and settings. */
  lemma OptionsForDeterminesOptions(values: FormValues, settings: Settings, a: JobOptions, b: JobOptions)
    requires OptionsFor(values, settings, a) && OptionsFor(values, settings, b)
    ensures a == b
  {
    if settings.advancedOptions && settings.repeatEnabled {
      assert a.repeat.value == b.repeat.value;
    }
  }

  /** `handleSubmit`'s option building. */
  method BuildJobOptions(values: FormValues, settings: Settings) returns (opts: JobOptions)
    ensures OptionsFor(values, settings, opts)
  {
    if !settings.advancedOptions {
      return NoOptions;
    }
    opts := PlainOptions(values);
    if values.backoffEnabled == Some(true) {
      var delay := NumOr(values.backoffDelay, DefaultBackoffDelay);
      if settings.backoffType == FixedKind {
        opts := opts.(backoff := Some(FixedDelay(delay)));
      } else {
        opts := opts.(backoff := Some(Exponential(delay)));
      }
    }
    opts := opts.(removeOnComplete := Some(RemovalFor(settings.removeOnCompleteType, values.removeOnComplete,
      values.removeOnCompleteCount, values.removeOnCompleteObjectCount, values.removeOnCompleteObjectAge)));
    opts := opts.(removeOnFail := Some(RemovalFor(settings.removeOnFailType, values.removeOnFail,
      values.removeOnFailCount, values.removeOnFailObjectCount, values.removeOnFailObjectAge)));
    if settings.repeatEnabled {
      var repeat := RepeatOptions(values, settings.repeatType);
      opts := opts.(repeat := Some(repeat));
    }
  }

  /** What `handleSubmit` hands to `onAdd`. */
  datatype Submission = Submission(queueName: string, jobName: string, data: JsValue, options: JobOptions)

  /** `handleSubmit`: nothing is submitted when a required field (queue,
      job name, job data) is empty; otherwise the parsed data and the
      collected options go out with the queue and job names. */
  method HandleSubmit(values: FormValues, settings: Settings, parse: string -> Option<JsValue>)
    returns (submission: Option<Submission>)
    ensures submission.None? <==> values.queueName == "" || values.jobName == "" || values.jobData == ""
    ensures submission.Some? ==>
              && submission.value.queueName == values.queueName
              && submission.value.jobName == values.jobName
              && submission.value.data == ParseJobData(values.jobData, parse)
              && OptionsFor(values, settings, submission.value.options)
              && (!settings.advancedOptions ==> submission.value.options == NoOptions)
              && (submission.value.options.backoff.Some? ==>
                    match submission.value.options.backoff.value
                    case FixedDelay(ms) => ms != 0
                    case Exponential(delay) => delay != 0)
              && (submission.value.options.repeat.Some? ==>
                    submission.value.options.repeat.value.every.None? || submission.value.options.repeat.value.cron.None?)
  {
    if values.queueName == "" || values.jobName == "" || values.jobData == "" {
      return None;
    }
    var data := ParseJobData(values.jobData, parse);
    var options := BuildJobOptions(values, settings);
    submission := Some(Submission(values.queueName, values.jobName, data, options));
  }
}
