# react-bullmq-ui: a verified model of the job dashboard's logic

`react-bullmq-ui` is a React/antd dashboard for BullMQ jobs. Most of it is
markup. Under the markup is a small amount of logic, and this project models
that logic in Dafny and proves properties about it:

- **Job list (`BullMQJobList`).** It detects each job's status from the job
  list, derives the options of the queue and status filters, and projects raw
  jobs into table rows with defaults. The rows pass through three filters
  (queue, case-insensitive search, status). The filtered rows are sorted on a
  copy with a comparator that maps missing cells to ±infinity.
- **Status colours and timestamps (`getStatusColor`, `formatTimestamp`).**
- **Job detail modal.** This covers the queue label with its `bull:` fallback
  and hint, the optional overview rows, the payload, error and logs tabs, and
  the title.
- **Insights modal.** Per-status cards with a rounded percentage and a
  pluralised count.
- **Add-job form.** The submit handler builds a BullMQ `JobOptions` record
  from the form.
- **`extractQueueName`.** The qualified-name parser that the job-list tests
  define and check.

Modules:

- `JsValues`: JavaScript truthiness and `||` defaulting.
- `Text`: ASCII case mapping, `includes`, `join`, number to text.
- `Seqs`: filtering, subsequences and insertion-ordered sets.
- `Formatters`, `Jobs`, `JobSort`, `JobList`, `JobDetail`, `Insights`,
  `AddJob` and `QueueNameExtraction`: one each for the pieces above.

The code follows the source's own form:

- `detectJobStates` and the queue-name `forEach` are loops with invariants.
  They are proved equal to recursive specification functions (`StatusMap`,
  `AvailableStates`, `DistinctQueueNames`).
- The list's state (detected statuses, filter selections, sort, page) is the
  class `JobList.JobListView`.
- The sort runs in place on an `array` copy of the filtered rows.
- `handleSubmit` builds its options record by successive updates.

Host facilities are parameters:

- `now` stands for `Date.now()`.
- `lc` stands for `String.prototype.localeCompare`.
- `numeric` says whether a string converts to a finite number under JavaScript's `<`.
- `toLocale` stands for `Date.prototype.toLocaleString`.
- `parse` stands for `JSON.parse`, returning `None` when it throws.

The `ALL_QUEUES` / `ALL_STATES` sentinels live in `src/constants`, which is
not part of this model. They are carried as the `JobList.Sentinels`
parameter.

## Model

| member | source | states |
|---|---|---|
| Formatters.ColorOfKey | src/utils/formatters.ts:2-23 | the switch always yields one of the nine listed colours, and yields "default" exactly for "waiting" and for keys outside the known statuses |
| Formatters.StatusColor | src/utils/formatters.ts:1-24 | `getStatusColor` is total: the colour is always one of the listed colours |
| Formatters.StatusColorCaseInsensitive | src/utils/formatters.ts:2 | the colour of a status equals the colour of its lower-case and of its upper-case spelling |
| Formatters.StatusColorOfLowercase | src/utils/formatters.ts:2 | a status with no upper-case letter is looked up unchanged |
| Formatters.StatusColorTable | src/utils/formatters.ts:3-20 | completed→success, failed→error, active→processing, waiting→default, delayed→warning, paused→purple, waiting-children→cyan, unknown→grey, error→magenta, ""→default |
| Formatters.StatusColorUpperCase | __tests__/utils/formatters.test.ts:6-8 | "COMPLETED" gets "success", like "completed" |
| Formatters.StatusColorDefault | src/utils/formatters.ts:9-22 | "default" exactly for "waiting" and unknown statuses, so the colour map is not injective |
| Formatters.FormatTimestamp | src/utils/formatters.ts:26-33 | "N/A" for null/undefined; otherwise the locale rendering of the value itself, 0 and negatives included |
| Formatters.FormatTimestampNotAvailable | src/utils/formatters.ts:28-30 | if no locale rendering is "N/A", the result is "N/A" if and only if the timestamp is missing |
| JobList.StatusMap | src/components/BullMQJobList.tsx:97-118 | the detected id→status record has only non-empty keys and non-empty statuses |
| JobList.StatusMapDomain | src/components/BullMQJobList.tsx:109-118 | an id is in the record if and only if some job with that truthy id has a truthy status |
| JobList.StatusMapLastWins | src/components/BullMQJobList.tsx:114 | the entry for an id is the status of the last job with that id that has a status |
| JobList.ExplicitStatuses | src/components/BullMQJobList.tsx:113-116 | the collected statuses are all non-empty |
| JobList.ExplicitStatusesMembership | src/components/BullMQJobList.tsx:113-116 | a status is collected if and only if some job with a truthy id carries it |
| JobList.AvailableStatesShape | src/components/BullMQJobList.tsx:98-121 | the status options are exactly the defaults plus the jobs' explicit statuses |
| JobList.AvailableStates | src/components/BullMQJobList.tsx:98-121 | the status options start with the seven defaults in order, have no duplicates and no empty entry |
| JobList.ExplicitStatusesPrefix | src/components/BullMQJobList.tsx:108-117 | the explicit statuses of a prefix of the jobs are a prefix of all explicit statuses |
| JobList.AvailableStatesFirstSeen | src/components/BullMQJobList.tsx:98-121 | new statuses are appended in first-seen order: the options for a prefix of the jobs are a prefix of the options for all of them |
| JobList.QueueNamesOf | src/components/BullMQJobList.tsx:200-205 | only truthy queue names are collected |
| JobList.QueueNamesOfMembership | src/components/BullMQJobList.tsx:200-205 | a name is collected if and only if some job has it as truthy `queueName` |
| JobList.QueueNamesOfPrefix | src/components/BullMQJobList.tsx:200-205 | the names collected from a prefix of the jobs are a prefix of those collected from all jobs |
| JobList.DistinctQueueNamesMembership | src/components/BullMQJobList.tsx:199-206 | the derived queue options are exactly the jobs' truthy queue names |
| JobList.DistinctQueueNames | src/components/BullMQJobList.tsx:199-206 | the derived queue options have no duplicates and no empty name |
| JobList.DistinctQueueNamesFirstSeen | src/components/BullMQJobList.tsx:199-206 | the options keep first-occurrence order: more jobs only append |
| JobList.QueueNamesForFilter | src/components/BullMQJobList.tsx:194-207 | the provided list verbatim when non-empty, otherwise the distinct truthy queue names in first-seen order (loop proved against `DistinctQueueNames`) |
| JobList.CurrentStatus | src/components/BullMQJobList.tsx:221 | the detected status if truthy, else the job's truthy status, else "unknown"; never empty; a missing id is looked up as "undefined" |
| JobList.ToRow | src/components/BullMQJobList.tsx:210-252 | the row defaults: name "" when falsy, queue "unknown" when falsy, creation time `now` when falsy, attempts 0 when falsy, `returnvalue` falling back to `returnValue`; all other fields copied; key is the id |
| JobList.Project | src/components/BullMQJobList.tsx:210 | one row per job, in job order |
| JobList.SharedIdShowsLastStatus | src/components/BullMQJobList.tsx:109-118 | after detection, every job sharing an id shows the status of the last job with that id that has a status |
| JobList.UndetectedJobShowsOwnStatus | src/components/BullMQJobList.tsx:221 | a job whose lookup key was never detected shows its own status, or "unknown" |
| JobList.QueueStage | src/components/BullMQJobList.tsx:254-256 | identity for the all-queues sentinel; nothing for a cleared (undefined) selection; otherwise keeps exactly the rows whose queue equals the selection, every copy of each, in order |
| JobList.SearchStage | src/components/BullMQJobList.tsx:258-264 | identity for empty text; otherwise keeps exactly the rows whose truthy id or truthy name contains the text ignoring case, every copy of each, in order |
| JobList.SearchIgnoresCase | src/components/BullMQJobList.tsx:261-262 | searching for a text, its lower-case or its upper-case form keeps the same rows |
| JobList.StatusStage | src/components/BullMQJobList.tsx:265-267 | identity for an empty selection or one containing the all-states sentinel; otherwise keeps exactly the rows whose status is selected, every copy of each, in order |
| JobList.QueueAndStatusCommute | src/components/BullMQJobList.tsx:254-267 | applying the queue and status stages in either order gives the same rows |
| JobList.ProcessedRows | src/components/BullMQJobList.tsx:209-269 | the filtered rows are a subsequence of the projected rows, holding every copy of a row that passes every active stage and no copy of any other |
| JobList.ProcessedRowsFilter | src/components/BullMQJobList.tsx:209-269 | a row is among the filtered rows if and only if it is a projected row that passes every active stage |
| JobList.RetryDisabled | src/components/BullMQJobList.tsx:368 | retry is disabled exactly for the statuses "completed" and "active" (case-sensitive), which always carry a "success" or "processing" tag |
| JobList.RetryRuleIsCaseSensitive | src/components/BullMQJobList.tsx:368 | the converse fails: an "ACTIVE" row has the "processing" tag but retry enabled |
| JobList.ModalStatus | src/components/BullMQJobList.tsx:151 | the modal's status is the row's status when non-empty, else "unknown"; never empty |
| JobList.ScreenFor | src/components/BullMQJobList.tsx:393-413 | spinner exactly when loading with no jobs; otherwise the error when truthy; otherwise the table, marked loading exactly while loading |
| JobList.JobListView.constructor | src/components/BullMQJobList.tsx:54-91 | initial state: all states and all queues selected, empty search, sort by creation time descending, page 1, nothing detected, the seven default statuses |
| JobList.JobListView.DetectJobStates | src/components/BullMQJobList.tsx:94-126 | for a non-empty list the record becomes `StatusMap` and the options `AvailableStates` (loop invariants); for an empty list nothing changes; other state untouched |
| JobList.JobListView.OnTableChange | src/components/BullMQJobList.tsx:550-557 | only a "sort" action replaces the sort state, with the sorter's field and order |
| JobList.JobListView.OnQueueFilterChange | src/components/BullMQJobList.tsx:457-461 | the queue select stores the chosen queue, or nothing when cleared; the rest of the state is untouched |
| JobList.JobListView.OnPageChange | src/components/BullMQJobList.tsx:543-546 | the page becomes the chosen page; the size changes only to a truthy new size |
| JobList.JobListView.TableRows | src/components/BullMQJobList.tsx:415-539 | the table's rows are a permutation of the filtered rows, so the pagination total is the filtered count; exactly the filtered rows, in their order, unless both column and order are set; sorted when they are and the comparator is asymmetric |
| JobSort.CellOf | src/components/BullMQJobList.tsx:419-420 | numeric columns never yield text, text columns never numbers |
| JobSort.CompareCells | src/components/BullMQJobList.tsx:421-435 | two missing cells tie; a missing cell against a number is greater ascending and smaller descending; against a string it is smaller only when the string is numeric and the order puts the missing side first; numbers compare by the order and tie exactly when equal; strings use `localeCompare` in the order's direction |
| JobSort.RowCompare | src/components/BullMQJobList.tsx:419-435 | on a timestamp column rows tie exactly on equal cells, present values compare by the order, a missing value is after a present one ascending; on name, queue and status it is `localeCompare` in the order's direction |
| JobSort.MissingCellOrder | src/components/BullMQJobList.tsx:422-430 | two missing cells tie; a missing cell is after any number ascending and before it descending, from both sides |
| JobSort.PresentNumberOrder | src/components/BullMQJobList.tsx:435 | present numbers compare antisymmetrically, first-before-second exactly when smaller (ascending) or larger (descending) |
| JobSort.NumericColumnsAsymmetric | src/components/BullMQJobList.tsx:419-435 | on the timestamp columns the comparator never calls both x>y and y>x |
| JobSort.TextColumnsAsymmetric | src/components/BullMQJobList.tsx:432-434 | on name, queue and status the comparator is asymmetric whenever `localeCompare` is |
| JobSort.IdColumnNotAsymmetric | src/components/BullMQJobList.tsx:427-430 | on the id column a missing id and a non-numeric id each compare greater than the other |
| JobSort.MissingLastWhenAscending | src/components/BullMQJobList.tsx:422-430 | in an ascending numeric sort, missing values form a suffix |
| JobSort.MissingFirstWhenDescending | src/components/BullMQJobList.tsx:422-430 | in a descending numeric sort, missing values form a prefix |
| JobSort.NumbersAscending | src/components/BullMQJobList.tsx:435 | in an ascending numeric sort, present values never decrease |
| JobSort.NumbersDescending | src/components/BullMQJobList.tsx:435 | in a descending numeric sort, present values never increase |
| JobSort.SortBy | src/components/BullMQJobList.tsx:418-436 | the in-place sort permutes the array and, for an asymmetric comparator, leaves every adjacent pair in order |
| JobSort.SortedData | src/components/BullMQJobList.tsx:415-437 | a copy of the rows, same length and multiset; unchanged unless both column and order are set; sorted when they are and the comparator is asymmetric |
| JobDetail.StripBullPrefix | src/components/JobDetailModal.tsx:47 | removes one leading "bull:", and only a leading one |
| JobDetail.StripBullPrefixOnce | src/components/JobDetailModal.tsx:47 | "bull:" + r gives r, and "bull:bull:" + r gives "bull:" + r |
| JobDetail.QueueLabel | src/components/JobDetailModal.tsx:45-48 | the queue name unless falsy or "unknown"; else the truthy qualified name with one leading "bull:" removed; else "unknown"; empty only for the qualified name "bull:" |
| JobDetail.ShowQueueTooltip | src/components/JobDetailModal.tsx:49-53 | the hint shows exactly for the "unknown" queue name with the raw job at hand, and the label is then the stripped qualified name or "unknown" |
| JobDetail.ProjectedRowQueueLabel | src/components/JobDetailModal.tsx:45-53 | for a table row: the hint shows exactly when the job's queue is missing or "unknown", and the label follows the fallback chain on the raw job |
| JobDetail.RenderOverview | src/components/JobDetailModal.tsx:35-83 | no overview without a job; processed/finished rows exactly for truthy timestamps, attempts exactly when > 0, progress exactly when defined; status tag coloured and upper-cased |
| JobDetail.ZeroProcessedOnHidden | src/components/JobDetailModal.tsx:61-65 | a processing time of 0 hides the row, although `formatTimestamp` would render it |
| JobDetail.PayloadTab | src/components/JobDetailModal.tsx:85-97 | the JSON shows exactly for a job with a truthy value, else the placeholder |
| JobDetail.DataTab | src/components/JobDetailModal.tsx:85-97 | the data shows exactly when truthy, else "No data available" |
| JobDetail.OptionsTab | src/components/JobDetailModal.tsx:99-111 | the options show exactly when truthy, else "No options available" |
| JobDetail.ReturnValueTab | src/components/JobDetailModal.tsx:113-125 | the return value shows exactly when truthy, else "No return value available" |
| JobDetail.ReturnValueOfProjectedRow | src/components/JobDetailModal.tsx:113-114 | for a table row the return value shows exactly when the raw job has a truthy `returnvalue` or `returnValue` |
| JobDetail.ErrorTab | src/components/JobDetailModal.tsx:127-157 | "No error information" exactly when the reason is falsy and the trace absent or empty; otherwise the truthy reason and the trace lines joined by newlines, at least one present |
| JobDetail.LogsTab | src/components/JobDetailModal.tsx:159-192 | loading first, then a truthy error, then "No logs" for an empty list, then the list itself |
| JobDetail.Title | src/components/JobDetailModal.tsx:229 | "Job Details: name (id)" with empty text for a missing job or falsy id; "Job Details:  ()" without a job |
| Insights.Percentage | src/components/InsightsModal.tsx:38 | 0 for a non-positive total; otherwise the integer nearest 100·count/total, halves rounded up |
| Insights.PercentageBounds | src/components/InsightsModal.tsx:38 | a count between 0 and the total gives 0..100 |
| Insights.PercentageOfTotal | src/components/InsightsModal.tsx:38 | the whole is 100% |
| Insights.PercentageMonotonic | src/components/InsightsModal.tsx:38 | a larger count never shows a smaller share |
| Insights.PercentageExamples | src/components/InsightsModal.tsx:38 | 1/3→33, 2/3→67, 1/8→13, 10/20→50, 5/20→25, 3/20→15, 2/20→10, x/0→0 |
| Insights.JobsWord | src/components/InsightsModal.tsx:45 | "job" exactly for a count of 1, "jobs" otherwise, 0 included |
| Insights.CountText | src/components/InsightsModal.tsx:44-46 | "1 job (p%)" for a count of one, "N jobs (p%)" for every other count, p being the rounded percentage |
| Insights.CountTextExamples | src/components/InsightsModal.tsx:45 | "10 jobs (50%)" for 10 of 20, "1 job (100%)" for 1 of 1, "0 jobs (0%)" for 0 of 0 |
| Insights.CountTextSplitExamples | src/components/InsightsModal.tsx:44-46 | "5 jobs (25%)", "3 jobs (15%)" and "2 jobs (10%)" for 5, 3 and 2 of 20 |
| Insights.CardOf | src/components/InsightsModal.tsx:37-57 | a card's key is the status, its caption the upper-cased status, its bar the percentage, its colour the status colour |
| Insights.Cards | src/components/InsightsModal.tsx:37 | exactly one card per entry, in entry order |
| Insights.CardsWithinRange | src/components/InsightsModal.tsx:38-49 | with counts between 0 and the total, every bar lies in 0..100 |
| Insights.NoDataNote | src/components/InsightsModal.tsx:60-64 | the no-data note shows exactly for a total of 0 |
| Insights.NoDataCards | src/components/InsightsModal.tsx:38 | with a total of 0 the note shows and every card is at 0% |
| AddJob.IfTruthy | src/components/AddJobModal.tsx:65-71 | a number field is kept exactly when present and non-zero |
| AddJob.IfTruthyStr | src/components/AddJobModal.tsx:67 | a text field is kept exactly when present and non-empty |
| AddJob.RemovalFor | src/components/AddJobModal.tsx:86-95 | boolean kind gives a flag true only for a checked box; count kind the count, or 1000 when falsy; object kind the count or 1000 and the age or 3600; counts and ages are never 0 |
| AddJob.EmptyCountsKeepThousand | src/components/AddJobModal.tsx:89-94 | an absent or zero count keeps 1000 jobs and an absent or zero age is 3600 seconds, whatever the other fields hold |
| AddJob.ParseJobData | src/components/AddJobModal.tsx:53-58 | the parsed JSON when parsing succeeds, the raw text otherwise |
| AddJob.PlainOptions | src/components/AddJobModal.tsx:65-71 | delay, attempts, job id, timeout, priority and trace limit copied only when truthy; lifo whenever defined |
| AddJob.RepeatOptions | src/components/AddJobModal.tsx:110-129 | at most one of every/cron, each only for its kind and a truthy value; limit and time zone when truthy; end date when chosen |
| AddJob.BuildJobOptions | src/components/AddJobModal.tsx:61-130 | the options satisfy `OptionsFor`: the empty record without the advanced section; otherwise the truthy plain fields, backoff exactly when enabled (fixed or exponential; a falsy delay is 1000), both removal rules, repeat exactly when enabled with at most one of every/cron |
| AddJob.OptionsForDeterminesOptions | src/components/AddJobModal.tsx:61-130 | the option rules leave nothing open: one options record at most satisfies them |
| AddJob.HandleSubmit | src/components/AddJobModal.tsx:48-134 | nothing submitted when a required field is empty; otherwise the names, the parsed data and options satisfying `OptionsFor`, so with a non-zero backoff delay and at most one of every/cron |
| QueueNameExtraction.ExtractQueueName | __tests__/components/BullMQJobList.test.js:45-53 | "unknown" for a falsy name; the rest after "bull:" when the whole rest has no line terminator; otherwise the name; empty exactly for "bull:" |
| QueueNameExtraction.ExtractQueueNameExamples | __tests__/components/BullMQJobList.test.js:316-324 | "bull:test-queue"→"test-queue", undefined→"unknown", "bull:"→"", ""→"unknown" |
| QueueNameExtraction.ExtractKeepsUnprefixedName | __tests__/components/BullMQJobList.test.js:317 | "no-prefix-queue" is kept |
| QueueNameExtraction.ExtractKeepsColons | __tests__/components/BullMQJobList.test.js:324 | "bull:queue:with:colons"→"queue:with:colons" |
| QueueNameExtraction.ExtractRemovesOnePrefix | __tests__/components/BullMQJobList.test.js:51-52 | only the first "bull:" is removed |
| QueueNameExtraction.AgreesWithStripBullPrefix | __tests__/components/BullMQJobList.test.js:51-52 | on truthy names without line terminators the extraction equals the detail modal's prefix stripping |
| QueueNameExtraction.LineBreakKeepsPrefix | __tests__/components/BullMQJobList.test.js:51 | "bull:a\nb" does not match the pattern and is kept whole, unlike the modal's stripping |
| QueueNameExtraction.ExtractedNames | __tests__/components/BullMQJobList.test.js:55-59 | one entry per job in job order, keeping id and qualified name beside the extracted name |

## Left out

- Rendering, layout, modal visibility, the detail modal's active tab, and antd's own pagination slicing are not modelled. The Table pages the rows itself.
- Async work and timers are not modelled: fetching logs, add/retry/delete callbacks, `onRefresh`, and the auto-refresh interval. Errors raised by `onAdd` inside `handleSubmit` are not modelled either.
- `src/constants` is not part of this model. The two sentinel strings are therefore a parameter.
- `Date.now()`, `localeCompare`, `toLocaleString`, `JSON.parse` and JavaScript's string-to-number conversion are parameters, not models.
- Text.Lower: `toLowerCase`/`toUpperCase` are modelled for ASCII letters only. Search and the colour lookup therefore ignore non-ASCII case.
- JavaScript numbers (timestamps, `attemptsMade`, `progress`, counts, delays, page sizes) are integers in the model, so NaN, fractions and ±Infinity never occur in a numeric field.
- Insights.Percentage: computed in exact arithmetic. `Math.round(count / total * 100)` in floating point can differ where the float product lands just beside a half.
- JobSort.SortBy: an insertion sort stands in for the engine's `Array.prototype.sort`. Order is proved only for comparators that are asymmetric (never both x>y and y>x). Two things stay open:
  - which of several equal rows comes first (stability);
  - the order on the id column, where the comparator is inconsistent.
- JobSort.Rank: a numeric id string whose value is ±Infinity (the text "Infinity") is treated as finite.
- JobList.CurrentStatus: an id is a string or missing. A `null` id and numeric ids are not distinguished from the text the lookup coerces them to. Prototype property names (`constructor`, …) are treated as ordinary keys.
- AddJob.HandleSubmit: form validation is reduced to "required text fields are non-empty". The date picker's value is given as its epoch milliseconds.
- The form setters, the search input and the status select are plain assignments of the view state and are not modelled as separate operations. The queue select is (`OnQueueFilterChange`), because clearing it stores `undefined`.
- The payload tabs show `JSON.stringify` output. The model returns the value to be shown, not its text.
- The retry test in `__tests__/components/RetryButton.test.tsx` checks a rule of its own (`status === 'failed'`) that is not the component's. The component's rule is the one modelled.

## Notes on the code

- A descending sort puts rows missing the value first. Missing cells become `-Infinity` and are then compared ascending.
- The row builder takes the status from the detected record or the job, and from nowhere else.
- The row builder takes `queueName || "unknown"` without parsing `bull:` names. Only the detail modal strips the prefix.
- `extractQueueName("bull:")` is the empty text, as the tests expect.
- Clearing the queue select stores `undefined`, which is neither the all-queues sentinel nor any row's queue name, so the table then shows no rows.
