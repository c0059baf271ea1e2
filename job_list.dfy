/** The derivations of the job table (`BullMQJobList`): status detection,
    the queue filter's options, the row projection, the three filter
    stages, the retry rule and the status handed to the detail modal. */
module JobList {
  import opened JsValues
  import opened Text
  import opened Seqs
  import opened Jobs
  import opened JobSort
  import Formatters

  /** The "no filtering" values of the queue filter (`ALL_QUEUES`) and of
      the status filter (`ALL_STATES`). */
  datatype Sentinels = Sentinels(allQueues: string, allStates: string)

  /** The statuses always offered by the status filter, in this order. */
  const DefaultStates: seq<string> :=
    ["waiting", "active", "completed", "failed", "delayed", "paused", "waiting-children"]

  /** A job that contributes to status detection: truthy id and status. */
  predicate HasExplicitStatus(job: RawJob)
  {
    TruthyStr(job.id) && TruthyStr(job.status)
  }

  /** `newJobStates` after the detection loop: id to status, later jobs
      overwriting earlier ones with the same id. */
  function StatusMap(jobs: seq<RawJob>): (m: map<string, string>)
    ensures forall k :: k in m ==> k != "" && m[k] != ""
    decreases |jobs|
  {
    if jobs == [] then map[]
    else
      var m := StatusMap(jobs[..|jobs| - 1]);
      var job := jobs[|jobs| - 1];
      if HasExplicitStatus(job) then m[job.id.value := job.status.value] else m
  }

  /** The ids in the status map are exactly those of jobs with an explicit status. */
  lemma {:induction false} StatusMapDomain(jobs: seq<RawJob>, k: string)
    ensures k in StatusMap(jobs) <==> exists i :: 0 <= i < |jobs| && HasExplicitStatus(jobs[i]) && jobs[i].id.value == k
    decreases |jobs|
  {
    if jobs != [] {
      var init := jobs[..|jobs| - 1];
      StatusMapDomain(init, k);
      if exists i :: 0 <= i < |init| && HasExplicitStatus(init[i]) && init[i].id.value == k {
        var i :| 0 <= i < |init| && HasExplicitStatus(init[i]) && init[i].id.value == k;
        assert jobs[i] == init[i];
      }
      if exists i :: 0 <= i < |jobs| && HasExplicitStatus(jobs[i]) && jobs[i].id.value == k {
        var i :| 0 <= i < |jobs| && HasExplicitStatus(jobs[i]) && jobs[i].id.value == k;
        if i < |init| {
          assert init[i] == jobs[i];
        }
      }
    }
  }

  /** Last write wins: a job with an explicit status that no later job with
      the same id overrides determines the entry for its id. */
  lemma {:induction false} StatusMapLastWins(jobs: seq<RawJob>, i: int)
    requires 0 <= i < |jobs| && HasExplicitStatus(jobs[i])
    requires forall j :: i < j < |jobs| && HasExplicitStatus(jobs[j]) ==> jobs[j].id != jobs[i].id
    ensures jobs[i].id.value in StatusMap(jobs)
    ensures StatusMap(jobs)[jobs[i].id.value] == jobs[i].status.value
    decreases |jobs|
  {
    var init := jobs[..|jobs| - 1];
    if i < |jobs| - 1 {
      assert init[i] == jobs[i];
      forall j | i < j < |init| && HasExplicitStatus(init[j])
        ensures init[j].id != init[i].id
      {
        assert init[j] == jobs[j];
      }
      StatusMapLastWins(init, i);
    }
  }

  /** The explicit statuses of the jobs, in job order. */
  function ExplicitStatuses(jobs: seq<RawJob>): (r: seq<string>)
    ensures forall s :: s in r ==> s != ""
    decreases |jobs|
  {
    if jobs == [] then []
    else
      var job := jobs[|jobs| - 1];
      ExplicitStatuses(jobs[..|jobs| - 1]) + (if HasExplicitStatus(job) then [job.status.value] else [])
  }

  lemma {:induction false} ExplicitStatusesMembership(jobs: seq<RawJob>, s: string)
    ensures s in ExplicitStatuses(jobs) <==> exists i :: 0 <= i < |jobs| && HasExplicitStatus(jobs[i]) && jobs[i].status.value == s
    decreases |jobs|
  {
    if jobs != [] {
      var init := jobs[..|jobs| - 1];
      ExplicitStatusesMembership(init, s);
      if exists i :: 0 <= i < |init| && HasExplicitStatus(init[i]) && init[i].status.value == s {
        var i :| 0 <= i < |init| && HasExplicitStatus(init[i]) && init[i].status.value == s;
        assert jobs[i] == init[i];
      }
      if exists i :: 0 <= i < |jobs| && HasExplicitStatus(jobs[i]) && jobs[i].status.value == s {
        var i :| 0 <= i < |jobs| && HasExplicitStatus(jobs[i]) && jobs[i].status.value == s;
        if i < |init| {
          assert init[i] == jobs[i];
        }
      }
    }
  }

  /** The status filter's options after detection: the seven defaults in
      their fixed order, then each new explicit status in first-seen order. */
  function AvailableStates(jobs: seq<RawJob>): (r: seq<string>)
    ensures DefaultStates <= r
    ensures NoDuplicates(r)
    ensures forall s :: s in r ==> s != ""
  {
    InsertAll(DefaultStates, ExplicitStatuses(jobs))
  }

  /** The explicit statuses of a prefix of the jobs are a prefix of all of them. */
  lemma {:induction false} ExplicitStatusesPrefix(jobs: seq<RawJob>, n: nat)
    requires n <= |jobs|
    ensures ExplicitStatuses(jobs[..n]) <= ExplicitStatuses(jobs)
    decreases |jobs|
  {
    if n < |jobs| {
      assert jobs[..|jobs| - 1][..n] == jobs[..n];
      ExplicitStatusesPrefix(jobs[..|jobs| - 1], n);
    } else {
      assert jobs[..n] == jobs;
    }
  }

  /** New statuses are appended in first-seen order: the options derived
      from a prefix of the jobs are a prefix of those derived from all. */
  lemma AvailableStatesFirstSeen(jobs: seq<RawJob>, n: nat)
    requires n <= |jobs|
    ensures AvailableStates(jobs[..n]) <= AvailableStates(jobs)
  {
    var a := ExplicitStatuses(jobs[..n]);
    var all := ExplicitStatuses(jobs);
    ExplicitStatusesPrefix(jobs, n);
    assert all == a + all[|a|..];
    InsertAllExtends(DefaultStates, a, all[|a|..]);
  }

  /** The options are exactly the defaults and the explicit statuses. */
  lemma AvailableStatesShape(jobs: seq<RawJob>, s: string)
    ensures s in AvailableStates(jobs) <==>
              s in DefaultStates || exists i :: 0 <= i < |jobs| && HasExplicitStatus(jobs[i]) && jobs[i].status.value == s
  {
    ExplicitStatusesMembership(jobs, s);
  }

  /** The truthy `queueName`s of the jobs, in job order. */
  function QueueNamesOf(jobs: seq<RawJob>): (r: seq<string>)
    ensures forall q :: q in r ==> q != ""
    decreases |jobs|
  {
    if jobs == [] then []
    else
      var job := jobs[|jobs| - 1];
      QueueNamesOf(jobs[..|jobs| - 1]) + (if TruthyStr(job.queueName) then [job.queueName.value] else [])
  }

  /** The distinct truthy queue names in order of first occurrence. */
  function DistinctQueueNames(jobs: seq<RawJob>): (r: seq<string>)
    ensures NoDuplicates(r)
    ensures forall q :: q in r ==> q != ""
  {
    InsertAll([], QueueNamesOf(jobs))
  }

  lemma {:induction false} QueueNamesOfMembership(jobs: seq<RawJob>, q: string)
    ensures q in QueueNamesOf(jobs) <==> exists i :: 0 <= i < |jobs| && TruthyStr(jobs[i].queueName) && jobs[i].queueName.value == q
    decreases |jobs|
  {
    if jobs != [] {
      var init := jobs[..|jobs| - 1];
      QueueNamesOfMembership(init, q);
      if exists i :: 0 <= i < |init| && TruthyStr(init[i].queueName) && init[i].queueName.value == q {
        var i :| 0 <= i < |init| && TruthyStr(init[i].queueName) && init[i].queueName.value == q;
        assert jobs[i] == init[i];
      }
      if exists i :: 0 <= i < |jobs| && TruthyStr(jobs[i].queueName) && jobs[i].queueName.value == q {
        var i :| 0 <= i < |jobs| && TruthyStr(jobs[i].queueName) && jobs[i].queueName.value == q;
        if i < |init| {
          assert init[i] == jobs[i];
        }
      }
    }
  }

  /** The derived queue options are exactly the truthy queue names of the jobs. */
  lemma DistinctQueueNamesMembership(jobs: seq<RawJob>, q: string)
    ensures q in DistinctQueueNames(jobs) <==>
              exists i :: 0 <= i < |jobs| && TruthyStr(jobs[i].queueName) && jobs[i].queueName.value == q
  {
    QueueNamesOfMembership(jobs, q);
  }

  /** Options keep the order of first occurrence: the options derived from
      a prefix of the jobs are a prefix of those derived from all of them. */
  lemma DistinctQueueNamesFirstSeen(jobs: seq<RawJob>, n: nat)
    requires n <= |jobs|
    ensures DistinctQueueNames(jobs[..n]) <= DistinctQueueNames(jobs)
  {
    var a := QueueNamesOf(jobs[..n]);
    var all := QueueNamesOf(jobs);
    QueueNamesOfPrefix(jobs, n);
    assert all == a + all[|a|..];
    InsertAllExtends([], a, all[|a|..]);
  }

  lemma {:induction false} QueueNamesOfPrefix(jobs: seq<RawJob>, n: nat)
    requires n <= |jobs|
    ensures QueueNamesOf(jobs[..n]) <= QueueNamesOf(jobs)
    decreases |jobs|
  {
    if n < |jobs| {
      assert jobs[..|jobs| - 1][..n] == jobs[..n];
      QueueNamesOfPrefix(jobs[..|jobs| - 1], n);
    } else {
      assert jobs[..n] == jobs;
    }
  }

  /** `allQueueNamesForFilter`: the provided list when it is non-empty,
      otherwise the queue names collected from the jobs into a `Set`. */
  method QueueNamesForFilter(provided: Option<seq<string>>, jobs: seq<RawJob>) returns (names: seq<string>)
    ensures provided.Some? && |provided.value| > 0 ==> names == provided.value
    ensures !(provided.Some? && |provided.value| > 0) ==> names == DistinctQueueNames(jobs)
  {
    if provided.Some? && |provided.value| > 0 {
      return provided.value;
    }
    names := [];
    for i := 0 to |jobs|
      invariant names == InsertAll([], QueueNamesOf(jobs[..i]))
    {
      assert jobs[..i + 1][..i] == jobs[..i];
      var queueName := jobs[i].queueName;
      if TruthyStr(queueName) {
        assert QueueNamesOf(jobs[..i + 1]) == QueueNamesOf(jobs[..i]) + [queueName.value];
        InsertAllSnoc([], QueueNamesOf(jobs[..i]), queueName.value);
        names := Insert(names, queueName.value);
      } else {
        assert QueueNamesOf(jobs[..i + 1]) == QueueNamesOf(jobs[..i]);
      }
    }
    assert jobs[..|jobs|] == jobs;
  }

  /** The property key under which `jobStates[job.id]` is looked up: a
      missing id is coerced to the text "undefined". */
  function StateKey(id: Option<string>): string
  {
    match id
    case None => "undefined"
    case Some(s) => s
  }

  /** `jobStates[job.id] || job.status || "unknown"`. */
  function CurrentStatus(job: RawJob, jobStates: map<string, string>): (status: string)
    ensures status != ""
    ensures StateKey(job.id) in jobStates && jobStates[StateKey(job.id)] != "" ==> status == jobStates[StateKey(job.id)]
    ensures !(StateKey(job.id) in jobStates && jobStates[StateKey(job.id)] != "") ==> status == StrOr(job.status, "unknown")
  {
    var key := StateKey(job.id);
    if key in jobStates && jobStates[key] != "" then jobStates[key] else StrOr(job.status, "unknown")
  }

  /** One table row built from a raw job, with its defaults. `now` stands
      for `Date.now()`. */
  function ToRow(job: RawJob, jobStates: map<string, string>, now: int): (r: Row)
    ensures r.key == job.id && r.id == job.id && r.originalJob == Some(job)
    ensures r.name == (if TruthyStr(job.name) then job.name.value else "")
    ensures r.queueName == (if TruthyStr(job.queueName) then job.queueName.value else "unknown")
    ensures r.timestamp == (if TruthyNum(job.timestamp) then job.timestamp.value else now)
    ensures r.attemptsMade == (if TruthyNum(job.attemptsMade) then job.attemptsMade.value else 0)
    ensures r.returnvalue == (if Truthy(job.returnvalue) then job.returnvalue else job.returnValue)
    ensures r.currentStatus == CurrentStatus(job, jobStates) && r.currentStatus != "" && r.queueName != ""
    ensures r.processedOn == job.processedOn && r.finishedOn == job.finishedOn
    ensures r.failedReason == job.failedReason && r.stacktrace == job.stacktrace && r.delay == job.delay
    ensures r.data == job.data && r.opts == job.opts && r.progress == job.progress
  {
    Row(
      key := job.id,
      id := job.id,
      name := StrOr(job.name, ""),
      timestamp := NumOr(job.timestamp, now),
      processedOn := job.processedOn,
      finishedOn := job.finishedOn,
      currentStatus := CurrentStatus(job, jobStates),
      queueName := StrOr(job.queueName, "unknown"),
      data := job.data,
      opts := job.opts,
      failedReason := job.failedReason,
      stacktrace := job.stacktrace,
      attemptsMade := NumOr(job.attemptsMade, 0),
      delay := job.delay,
      progress := job.progress,
      returnvalue := ValueOr(job.returnvalue, job.returnValue),
      originalJob := Some(job))
  }

  /** `initialJobs.map(...)`: one row per job, in job order. */
  function Project(jobs: seq<RawJob>, jobStates: map<string, string>, now: int): (rows: seq<Row>)
    ensures |rows| == |jobs|
    ensures forall i :: 0 <= i < |jobs| ==> rows[i] == ToRow(jobs[i], jobStates, now)
  {
    seq(|jobs|, i requires 0 <= i < |jobs| => ToRow(jobs[i], jobStates, now))
  }

  /** After detection, jobs sharing an id all show the status of the last
      job with that id that has an explicit status. */
  lemma SharedIdShowsLastStatus(jobs: seq<RawJob>, now: int, i: int, j: int)
    requires 0 <= i < |jobs| && 0 <= j < |jobs|
    requires HasExplicitStatus(jobs[j]) && jobs[i].id == jobs[j].id
    requires forall k :: j < k < |jobs| && HasExplicitStatus(jobs[k]) ==> jobs[k].id != jobs[j].id
    ensures Project(jobs, StatusMap(jobs), now)[i].currentStatus == jobs[j].status.value
  {
    StatusMapLastWins(jobs, j);
  }

  /** A job whose lookup key no job gives an explicit status shows its own
      status, or "unknown". */
  lemma UndetectedJobShowsOwnStatus(jobs: seq<RawJob>, now: int, i: int)
    requires 0 <= i < |jobs|
    requires forall k :: 0 <= k < |jobs| && HasExplicitStatus(jobs[k]) ==> jobs[k].id.value != StateKey(jobs[i].id)
    ensures Project(jobs, StatusMap(jobs), now)[i].currentStatus == StrOr(jobs[i].status, "unknown")
  {
    StatusMapDomain(jobs, StateKey(jobs[i].id));
  }

  /** Whether a row passes the queue filter. The selection is `None` once
      it has been cleared, and then no row passes: every row carries a
      queue name, never `undefined`. */
  predicate QueueMatches(x: Row, queueFilter: Option<string>)
  {
    queueFilter == Some(x.queueName)
  }

  /** The queue stage, skipped for the all-queues sentinel. */
  function QueueStage(rows: seq<Row>, queueFilter: Option<string>, sentinels: Sentinels): (r: seq<Row>)
    ensures queueFilter == Some(sentinels.allQueues) ==> r == rows
    ensures queueFilter.None? ==> r == []
    ensures queueFilter != Some(sentinels.allQueues) ==> forall x :: x in r <==> x in rows && QueueMatches(x, queueFilter)
    ensures queueFilter != Some(sentinels.allQueues) ==>
              forall x :: multiset(r)[x] == if QueueMatches(x, queueFilter) then multiset(rows)[x] else 0
    ensures IsSubsequence(r, rows)
  {
    if queueFilter != Some(sentinels.allQueues) then
      var keep := (x: Row) => QueueMatches(x, queueFilter);
      FilterIsSubsequence(rows, keep);
      FilterMultiplicity(rows, keep);
      Filter(rows, keep)
    else
      SubsequenceReflexive(rows);
      rows
  }

  /** A row matches the search text when its truthy id or its truthy name
      contains the text, ignoring case. */
  predicate SearchMatches(x: Row, text: string)
  {
    || (TruthyStr(x.id) && Contains(Lower(x.id.value), Lower(text)))
    || (x.name != "" && Contains(Lower(x.name), Lower(text)))
  }

  /** The search stage, skipped for an empty text. */
  function SearchStage(rows: seq<Row>, text: string): (r: seq<Row>)
    ensures text == "" ==> r == rows
    ensures text != "" ==> forall x :: x in r <==> x in rows && SearchMatches(x, text)
    ensures text != "" ==> forall x :: multiset(r)[x] == if SearchMatches(x, text) then multiset(rows)[x] else 0
    ensures IsSubsequence(r, rows)
  {
    if text != "" then
      FilterIsSubsequence(rows, (x: Row) => SearchMatches(x, text));
      FilterMultiplicity(rows, (x: Row) => SearchMatches(x, text));
      Filter(rows, (x: Row) => SearchMatches(x, text))
    else
      SubsequenceReflexive(rows);
      rows
  }

  /** The search ignores the case of the search text. */
  lemma SearchIgnoresCase(rows: seq<Row>, text: string)
    ensures SearchStage(rows, text) == SearchStage(rows, Lower(text))
    ensures SearchStage(rows, text) == SearchStage(rows, Upper(text))
  {
    LowerIdempotent(text);
    LowerOfUpper(text);
    FilterCongruent(rows, (x: Row) => SearchMatches(x, text), (x: Row) => SearchMatches(x, Lower(text)));
    FilterCongruent(rows, (x: Row) => SearchMatches(x, text), (x: Row) => SearchMatches(x, Upper(text)));
  }

  /** Whether the status stage filters at all. */
  predicate StatusFilterActive(statusFilters: seq<string>, sentinels: Sentinels)
  {
    |statusFilters| > 0 && sentinels.allStates !in statusFilters
  }

  /** The status stage, skipped for an empty selection or one holding the sentinel. */
  function StatusStage(rows: seq<Row>, statusFilters: seq<string>, sentinels: Sentinels): (r: seq<Row>)
    ensures !StatusFilterActive(statusFilters, sentinels) ==> r == rows
    ensures StatusFilterActive(statusFilters, sentinels) ==> forall x :: x in r <==> x in rows && x.currentStatus in statusFilters
    ensures StatusFilterActive(statusFilters, sentinels) ==>
              forall x :: multiset(r)[x] == if x.currentStatus in statusFilters then multiset(rows)[x] else 0
    ensures IsSubsequence(r, rows)
  {
    if StatusFilterActive(statusFilters, sentinels) then
      FilterIsSubsequence(rows, (x: Row) => x.currentStatus in statusFilters);
      FilterMultiplicity(rows, (x: Row) => x.currentStatus in statusFilters);
      Filter(rows, (x: Row) => x.currentStatus in statusFilters)
    else
      SubsequenceReflexive(rows);
      rows
  }

  /** The queue and status stages can be applied in either order. */
  lemma QueueAndStatusCommute(rows: seq<Row>, queueFilter: Option<string>, statusFilters: seq<string>, sentinels: Sentinels)
    ensures QueueStage(StatusStage(rows, statusFilters, sentinels), queueFilter, sentinels)
         == StatusStage(QueueStage(rows, queueFilter, sentinels), statusFilters, sentinels)
  {
    if queueFilter != Some(sentinels.allQueues) && StatusFilterActive(statusFilters, sentinels) {
      FilterCommutes(rows, (x: Row) => QueueMatches(x, queueFilter), (x: Row) => x.currentStatus in statusFilters);
    }
  }

  /** Whether a row passes every active stage. */
  predicate PassesFilters(x: Row, searchText: string, statusFilters: seq<string>, queueFilter: Option<string>, sentinels: Sentinels)
  {
    && (queueFilter == Some(sentinels.allQueues) || QueueMatches(x, queueFilter))
    && (searchText == "" || SearchMatches(x, searchText))
    && (!StatusFilterActive(statusFilters, sentinels) || x.currentStatus in statusFilters)
  }

  /** `processedAndFormattedJobs`: rows, then queue, search and status
      stages. The result keeps the projected rows' order and keeps every
      copy of a passing row and no copy of any other. */
  function ProcessedRows(jobs: seq<RawJob>, jobStates: map<string, string>, now: int, searchText: string,
                         statusFilters: seq<string>, queueFilter: Option<string>, sentinels: Sentinels): (r: seq<Row>)
    ensures IsSubsequence(r, Project(jobs, jobStates, now))
    ensures forall x :: multiset(r)[x] ==
              if PassesFilters(x, searchText, statusFilters, queueFilter, sentinels) then multiset(Project(jobs, jobStates, now))[x] else 0
  {
    var rows := Project(jobs, jobStates, now);
    var r1 := QueueStage(rows, queueFilter, sentinels);
    var r2 := SearchStage(r1, searchText);
    var r3 := StatusStage(r2, statusFilters, sentinels);
    SubsequenceTransitive(r2, r1, rows);
    SubsequenceTransitive(r3, r2, rows);
    r3
  }

  /** A row is among the filtered rows exactly when it is a projected row
      that passes every active stage. */
  lemma ProcessedRowsFilter(jobs: seq<RawJob>, jobStates: map<string, string>, now: int, searchText: string,
                            statusFilters: seq<string>, queueFilter: Option<string>, sentinels: Sentinels, x: Row)
    ensures x in ProcessedRows(jobs, jobStates, now, searchText, statusFilters, queueFilter, sentinels) <==>
              x in Project(jobs, jobStates, now) && PassesFilters(x, searchText, statusFilters, queueFilter, sentinels)
  {
    var r := ProcessedRows(jobs, jobStates, now, searchText, statusFilters, queueFilter, sentinels);
    var rows := Project(jobs, jobStates, now);
    assert x in r <==> multiset(r)[x] > 0;
    assert x in rows <==> multiset(rows)[x] > 0;
  }

  /** The retry button is disabled for completed and active jobs, which
      carry a "success" or "processing" tag. */
  function RetryDisabled(x: Row): (disabled: bool)
    ensures disabled <==> x.currentStatus == "completed" || x.currentStatus == "active"
    ensures disabled ==> Formatters.StatusColor(x.currentStatus) in {"success", "processing"}
    ensures x.currentStatus == "failed" ==> !disabled
  {
    if x.currentStatus == "completed" || x.currentStatus == "active" then
      LowerKeepsLowercase(x.currentStatus);
      true
    else false
  }

  /** The converse does not hold: the tag colour ignores case, the retry
      rule does not, so an upper-case "ACTIVE" row gets the
      "processing" tag and an enabled retry button. */
  lemma RetryRuleIsCaseSensitive(x: Row)
    requires x.currentStatus == "ACTIVE"
    ensures Formatters.StatusColor(x.currentStatus) == "processing" && !RetryDisabled(x)
  {
    LowerCharwise(x.currentStatus, "active");
  }

  /** `showDetailModal`: the modal's status, `currentStatus || "unknown"`. */
  function ModalStatus(x: Row): (status: string)
    ensures status != ""
    ensures x.currentStatus != "" ==> status == x.currentStatus
    ensures x.currentStatus == "" ==> status == "unknown"
  {
    if x.currentStatus != "" then x.currentStatus else "unknown"
  }

  /** What the job list shows instead of, or around, the table. */
  datatype Screen = LoadingScreen | ErrorScreen(message: string) | TableScreen(tableLoading: bool)

  /** A spinner while loading with no jobs yet, then a truthy error, then
      the table, itself marked loading while a refresh is under way. */
  function ScreenFor(isLoading: bool, error: Option<string>, jobCount: nat): (v: Screen)
    ensures v == LoadingScreen <==> isLoading && jobCount == 0
    ensures v.ErrorScreen? <==> !(isLoading && jobCount == 0) && TruthyStr(error)
    ensures v.ErrorScreen? ==> v.message == error.value
    ensures v.TableScreen? ==> (v.tableLoading <==> isLoading)
  {
    if isLoading && jobCount == 0 then LoadingScreen
    else if TruthyStr(error) then ErrorScreen(error.value)
    else TableScreen(isLoading && jobCount > 0)
  }

  /** The view state of the job list: detected statuses, the status
      filter's options, and the filter and sort selections. */
  class JobListView {
    const sentinels: Sentinels
    var jobStates: map<string, string>
    var availableJobStates: seq<string>
    var searchText: string
    var statusFilters: seq<string>
    var selectedQueueFilter: Option<string>
    var tableSortInfo: SortInfo
    var currentPage: int
    var pageSize: int

    /** The initial state: nothing detected, every status and queue shown,
        sorted by creation time, newest first, on the first page. */
    constructor (sentinels: Sentinels, defaultPageSize: int)
      ensures this.sentinels == sentinels
      ensures currentPage == 1 && pageSize == defaultPageSize
      ensures jobStates == map[] && availableJobStates == DefaultStates
      ensures searchText == "" && statusFilters == [sentinels.allStates]
      ensures selectedQueueFilter == Some(sentinels.allQueues)
      ensures tableSortInfo == SortInfo(Some(CreatedColumn), Some(Descend))
    {
      this.sentinels := sentinels;
      jobStates := map[];
      availableJobStates := DefaultStates;
      searchText := "";
      statusFilters := [sentinels.allStates];
      selectedQueueFilter := Some(sentinels.allQueues);
      tableSortInfo := SortInfo(Some(CreatedColumn), Some(Descend));
      currentPage := 1;
      pageSize := defaultPageSize;
    }

    /** `detectJobStates`: for a non-empty job list, rebuild the id-to-status
        record and the status options; an empty list changes nothing. */
    method DetectJobStates(jobs: seq<RawJob>)
      modifies this
      ensures |jobs| == 0 ==> jobStates == old(jobStates) && availableJobStates == old(availableJobStates)
      ensures |jobs| > 0 ==> jobStates == StatusMap(jobs) && availableJobStates == AvailableStates(jobs)
      ensures searchText == old(searchText) && statusFilters == old(statusFilters)
      ensures selectedQueueFilter == old(selectedQueueFilter) && tableSortInfo == old(tableSortInfo)
      ensures currentPage == old(currentPage) && pageSize == old(pageSize)
    {
      if |jobs| > 0 {
        var newJobStates: map<string, string> := map[];
        var stateSet := DefaultStates;
        for i := 0 to |jobs|
          invariant newJobStates == StatusMap(jobs[..i])
          invariant stateSet == InsertAll(DefaultStates, ExplicitStatuses(jobs[..i]))
          modifies {}
        {
          assert jobs[..i + 1][..i] == jobs[..i];
          var job := jobs[i];
          if TruthyStr(job.id) && TruthyStr(job.status) {
            assert ExplicitStatuses(jobs[..i + 1]) == ExplicitStatuses(jobs[..i]) + [job.status.value];
            InsertAllSnoc(DefaultStates, ExplicitStatuses(jobs[..i]), job.status.value);
            newJobStates := newJobStates[job.id.value := job.status.value];
            stateSet := Insert(stateSet, job.status.value);
          } else {
            assert ExplicitStatuses(jobs[..i + 1]) == ExplicitStatuses(jobs[..i]);
          }
        }
        assert jobs[..|jobs|] == jobs;
        jobStates := newJobStates;
        availableJobStates := stateSet;
      }
    }

    /** The table's `onChange`: only a sort action replaces the sort state. */
    method OnTableChange(action: string, field: Option<Column>, order: Option<Order>)
      modifies this
      ensures action == "sort" ==> tableSortInfo == SortInfo(field, order)
      ensures action != "sort" ==> tableSortInfo == old(tableSortInfo)
      ensures jobStates == old(jobStates) && availableJobStates == old(availableJobStates)
      ensures searchText == old(searchText) && statusFilters == old(statusFilters)
      ensures selectedQueueFilter == old(selectedQueueFilter)
      ensures currentPage == old(currentPage) && pageSize == old(pageSize)
    {
      if action == "sort" {
        tableSortInfo := SortInfo(field, order);
      }
    }

    /** The queue select's `onChange`: store the chosen queue, or `None`
        when the selection is cleared. */
    method OnQueueFilterChange(value: Option<string>)
      modifies this
      ensures selectedQueueFilter == value
      ensures jobStates == old(jobStates) && availableJobStates == old(availableJobStates)
      ensures searchText == old(searchText) && statusFilters == old(statusFilters)
      ensures tableSortInfo == old(tableSortInfo)
      ensures currentPage == old(currentPage) && pageSize == old(pageSize)
    {
      selectedQueueFilter := value;
    }

    /** The pager's `onChange`: go to the page, and take the new page size
        when one is given (a falsy size keeps the old one). */
    method OnPageChange(page: int, newPageSize: Option<int>)
      modifies this
      ensures currentPage == page
      ensures pageSize == NumOr(newPageSize, old(pageSize))
      ensures jobStates == old(jobStates) && availableJobStates == old(availableJobStates)
      ensures searchText == old(searchText) && statusFilters == old(statusFilters)
      ensures selectedQueueFilter == old(selectedQueueFilter) && tableSortInfo == old(tableSortInfo)
    {
      currentPage := page;
      if TruthyNum(newPageSize) {
        pageSize := newPageSize.value;
      }
    }

    /** The rows the table shows, before paging: filtered rows, sorted as
        the sort state says. Their number is the pagination total. */
    method TableRows(jobs: seq<RawJob>, now: int, lc: (string, string) -> int, numeric: string -> bool) returns (rows: seq<Row>)
      ensures multiset(rows) == multiset(ProcessedRows(jobs, jobStates, now, searchText, statusFilters, selectedQueueFilter, sentinels))
      ensures |rows| == |ProcessedRows(jobs, jobStates, now, searchText, statusFilters, selectedQueueFilter, sentinels)|
      ensures !(tableSortInfo.columnKey.Some? && tableSortInfo.order.Some?) ==>
                rows == ProcessedRows(jobs, jobStates, now, searchText, statusFilters, selectedQueueFilter, sentinels)
      ensures var info := tableSortInfo;
              info.columnKey.Some? && info.order.Some? && Asymmetric(info.columnKey.value, info.order.value, lc, numeric) ==>
                Sorted(rows, info.columnKey.value, info.order.value, lc, numeric)
    {
      var filtered := ProcessedRows(jobs, jobStates, now, searchText, statusFilters, selectedQueueFilter, sentinels);
      rows := SortedData(filtered, tableSortInfo, lc, numeric);
    }
  }
}
