# Tasques: task protocol, leader lock and recurring tasks

Tasques is a task queue whose servers share nothing but Elasticsearch. This project models the three
protocols that its correctness rests on and proves what they guarantee, over every interleaving of any
number of servers, with requests that are lost, answered with errors, or applied with the answer lost.

All three stand on one primitive, `VersionedStore`: documents under keys, an append-only log of writes, and
writes conditional on a version. A version is a position in the log, so it stands for the pair `_seq_no` and
`_primary_term` and is never used again, not even after a delete and a re-creation.

**Tasks** (`Tasks`, `Backoff`, `TaskPersistence`, `TaskRecord`, `TaskProtocol`, `TaskRuns`, `TaskMaintenance`,
`TaskCommits`, `TaskService`, `TaskRetries`, `TaskSweeps`, `ClaimService`). The state machine QUEUED / CLAIMED /
FAILED / DONE / DEAD is given once as functions on values and once as a class whose methods update it in place.
The protocol lets anybody hold any version ever written, so stale searches and slow callers need no special
treatment. The service methods are imperative and proved to perform nothing but steps of that protocol. Attempt
counts are 64-bit and wrap around where the code's do; a task with the largest retry count, 2^64 - 1, has no
attempt left from the start and is never claimed. One assumption bounds the numbers: no task is retried so
often, about 3 * 10^8 times, that its back-off no longer fits into the int64 nanoseconds of a time.Duration,
which end at 9223372036 seconds.

**Leader lock** (`LeaderLock`, `LeaderTiming`, `LeaderPromptness`, `EsLocks`). N processes and one lock document,
as a state machine whose steps are the start of a pass, the handling of its one request, and its end. The loop
itself is a class with the fields `state` and `stashedDoc`, and a turn of it is proved to be such steps.

**Recurring tasks** (`RecurringStore`, `RecurringSync`, `RecurringListings`, `RecurringTheorems`,
`RecurringRuns`, `RecurringMarking`, `RecurringQuiescence`, `RecurringEnforcer`, `RecurringFailures`,
`RecurringExpressions`, `RecurringCalls`, `RecurringService`, `CronScheduler`, `RecurringManager`). The manager's
map, the cron table and the store, which API users change at any moment, between two items of one bulk request
too. The manager, the service and the scheduler are classes; every method of the manager is proved to do what
a function of `RecurringSync` says, and the theorems are about those functions. A full reload is the simple
specification that incremental sync refines. A string id is represented by its rank in the sort order.

Clock readings, random numbers, search results, the actions of others and the fate of each request are
parameters.

## Where the code and its description differ

- The back-off is called exponential, but Go's `^` is exclusive or: the wait is `((15 + r) xor 4) + jitter * (r + 1)`.
  `Backoff` gives its exact bounds and exactly when a retry waits longer than the one before.
- The retry after a version conflict is an `if`: one retry, whatever larger number is configured.
  `TaskRetries.OneRetrySufficesExactlyWhen` says when that makes a difference, and
  `TaskRetries.SecondRetryWouldCommit` is a run in which it does.
- The reaper and the archiver ignore the results of single bulk items. The archive insert carries no version, so
  archiving a copy that is no longer live duplicates it; `TaskMaintenance.ArchivalConservesExactlyWhen` says when,
  and `TaskMaintenance.ArchivedTwice` is a run in which it happens.
- An even share of the block time, rounded down, allows one wait more than the configured maximum, if nearly
  nothing but the waits takes time (`ClaimService.RetriesBoundedExactlyWhen`, `ClaimService.OneWaitTooMany`).
- What one window of a claim call has claimed stays claimed, and is not returned, when a later window's request
  fails (`ClaimService.Claimer.Claim` says what becomes of every accepted claim). The error return for a search hit
  that cannot be claimed is dead code (`ClaimService.Claimer.ClaimInPlace`).
- The configuration asks for a lease "longer than" the loop interval. Exclusion needs more: the lease must exceed
  the interval, or the delay of an answer if that is longer, plus the delays of a start and of two requests
  (`LeaderPromptness.PromptLeadersExclude`).
- When `MarkLoaded` fails outright the jobs stay scheduled although the map does not list them, so losing
  leadership does not stop them (`RecurringFailures.LeftScheduledAfterReload`, `LeftScheduledAfterSync` and
  `LeftScheduledAfterEnforce`; `OrphanedJob` is such a run). If their documents are deleted as well, not even the
  enforcer stops them (`RecurringEnforcer.EnforceConverges`).
- After a failed reload the map is empty while documents may be marked as seen
  (`RecurringFailures.FailedReloadAgreesExactlyWhen`; `FailedReloadDisagrees` is such a run), and incremental sync
  will not notice (`RecurringQuiescence.SyncRepairsNothing`).
- An item of `MarkLoaded` that is written with its answer lost leaves the replaced version in memory
  (`RecurringFailures.MarkAgreesExactlyWhen`, `ReloadAgreesExactlyWhen` and `SyncAgreesDespiteErrors`;
  `LostAnswerDisagrees` is such a run).
- `All` refreshes the index before it searches and `NotLoaded` does not. A stale copy displaces a newer one in
  memory until the enforcer runs (`RecurringQuiescence.SyncAgreesExactlyWhen`; `RecurringFailures.StaleSearchDisagrees`
  is such a run).
- An undeleted definition that does not parse makes the enforcer reload, and rewrite, everything each time
  (`RecurringEnforcer.EnforcerIsIdleExactlyWhen`; `RecurringExpressions.OneBadDefinition` is such a run). Only a
  document written past the API brings it about: creation and update validate the expression
  (internal/api/models/task/recurring/models.go:45 and 60), with the parser that the scheduler uses. As long as
  every definition comes through the API the enforcer comes to rest (`RecurringExpressions.EnforcerComesToRest`).

## Model

| member | source | states |
|---|---|---|
| `VersionedStore.IndexOutcome` | internal/infra/elasticsearch/task/service.go:534-565 | an accepted conditional write is live under its new version; 409 and 404 mean that nothing was written and the version was not live |
| `VersionedStore.SingleWinner` | internal/infra/elasticsearch/task/service.go:534-565 | of all writers that hold one version, at most one ever commits |
| `Backoff.WaitBounds` | internal/domain/task/models.go:246-260 | after r earlier retries the wait is between 11 + r and 19 + r + 29(r + 1) seconds, for every jitter |
| `Backoff.JitterStretches` | internal/domain/task/models.go:246-260 | each unit of jitter adds r + 1 seconds to the wait that the exclusive or gives |
| `Backoff.WaitBoundsTight` | internal/domain/task/models.go:246-260 | both bounds are reached |
| `Backoff.WaitGrowsExactlyWhen` | internal/domain/task/models.go:246-260 | with equal jitter the next wait is longer if and only if r mod 8 is not 4 or the jitter exceeds 7 |
| `Backoff.WaitShrinksOnce` | internal/domain/task/models.go:246-260 | a concrete retry that waits less than the one before it |
| `Backoff.NeverTheIntendedWait` | internal/domain/task/models.go:246-260 | the formula that the comment points to, with a fourth power, gives another wait |
| `Tasks.ApplyKeepsWellFormed` | internal/domain/task/models.go:126-293 | every transition keeps the attempt bounds of each state, the deadline rule, the shape of results and the back-off window; a claim adds one attempt and an unclaim takes one back without wrapping; identity fields never change |
| `Tasks.ApplySucceedsExactlyWhen` | internal/domain/task/models.go:126-293 | each transition succeeds if and only if the state, the owner and, for reports, the report time allow it |
| `Tasks.RefusalSays` | internal/domain/task/models.go:126-293 | which error a refused transition answers with, and what it names |
| `Tasks.FailureKillsExactlyAtLastAttempt` | internal/domain/task/models.go:212-275 | a failure or a reap leads to DEAD if and only if it was attempt number RetryTimes + 1, and to FAILED otherwise |
| `Tasks.UnclaimUndoesClaim` | internal/domain/task/models.go:126-144 | a claim followed by its unclaim changes only the claim record and the enqueuing time, and turns FAILED into QUEUED |
| `Tasks.LaterReportSupersedes` | internal/domain/task/models.go:151-178 | a later report leaves no trace of an earlier one, and an earlier one is refused after a later one |
| `Tasks.CompletionEndsClaim` | internal/domain/task/models.go:184-275 | a completion changes nothing of the claim but its result, which carries the right data, and nothing but a claim of a FAILED task succeeds after it |
| `TaskRecords.TaskRecord.IntoClaimed` | internal/domain/task/models.go:126-144 | in place: the object becomes the claimed task with a claim record of its own, or stays as it was with the error |
| `TaskRecords.TaskRecord.ReportIn` | internal/domain/task/models.go:151-178 | in place: the claim record holds exactly the report's time and data and the deadline a processing timeout after it, and is otherwise as it was; an older report is refused |
| `TaskRecords.TaskRecord.IntoDone` | internal/domain/task/models.go:184-207 | in place: the owner's claim gets a success result and the task is DONE, or nothing changes |
| `TaskRecords.TaskRecord.IntoFailed` | internal/domain/task/models.go:212-275 | in place: FAILED with a new RunAt, or DEAD with RunAt untouched, and the result in the claim record |
| `TaskRecords.TaskRecord.IntoUnClaimed` | internal/domain/task/models.go:277-293 | in place: QUEUED with one attempt less, the old claim record kept |
| `TaskPersistence.PersistThenReload` | internal/infra/elasticsearch/task/service.go:938-1046 | persisting a task and loading it is the identity for every task, wrap-around included |
| `TaskPersistence.LoadThenPersist` | internal/infra/elasticsearch/task/service.go:938-1046 | loading a document and persisting it is the identity for every document |
| `TaskPersistence.FilterHidesNoLiveTask` | internal/infra/elasticsearch/task/service.go:1056-1119 | the remaining_attempts filter of the claim search hides no task that is QUEUED or FAILED and due, but those with the largest retry count |
| `TaskPersistence.FiltersMean` | internal/infra/elasticsearch/task/service.go:1185-1315 | the searches of reaper, archiver and recurring jobs select exactly the claims past their deadline, the finished tasks old enough, and the unfinished tasks of a recurring id |
| `TaskPersistence.NewTaskClaimableExactlyWhen` | internal/infra/elasticsearch/task/service.go:65-96 | a new task can be claimed once due, if and only if its retry count is not the largest uint |
| `TaskProtocol.AttemptKeepsInv` | internal/infra/elasticsearch/task/service.go:512-567 | writing back one transition of any copy ever stored keeps every stored document one transition of the one it replaced |
| `TaskProtocol.ReachableInv` | internal/infra/elasticsearch/task/service.go:65-287 | that holds after every sequence of creations, attempts and archivals |
| `TaskRuns.StoreRefinesAtomicMachine` | internal/infra/elasticsearch/task/service.go:192-287 | refinement: in every interleaving each stored version is what the atomic machine reaches from a fresh task by the operations committed on it, in commit order |
| `TaskRuns.EachCommitIsOneTransition` | internal/infra/elasticsearch/task/service.go:512-567 | each write is one transition of the document it replaced, which was the latest of its key |
| `TaskRuns.AtMostOneSuccessor` | internal/infra/elasticsearch/task/service.go:693-727 | of all operations attempted on one version, rival claims included, at most one commits |
| `TaskRuns.AttemptAccounting` | internal/domain/task/models.go:126-293 | over any run of one task whose retry count leaves room for an attempt: claims minus unclaims is Attempted, at most RetryTimes + 1 claims beyond the unclaims, and DEAD if and only if there were RetryTimes + 1 failures |
| `TaskRuns.StoredAttemptAccounting` | internal/infra/elasticsearch/task/service.go:192-287 | the same for every version that any run of the store writes, whatever its retry count |
| `TaskRuns.TerminalIsNeverReplaced` | internal/domain/task/models.go:126-293 | no write ever replaces a DONE or DEAD document |
| `TaskRuns.NoEarlyRun` | internal/infra/elasticsearch/task/service.go:644-727 | a committed claim is stamped no earlier than the RunAt it found, and after a failure no earlier than the back-off's lower bound; that RunAt has the stated upper bound |
| `TaskRuns.ReapOnlyPastDeadline` | internal/infra/elasticsearch/task/service.go:237-263 | a committed reap replaced a CLAIMED document whose deadline, counted from its last report, had passed by the reaper's clock |
| `TaskRuns.ReportsMoveForward` | internal/domain/task/models.go:151-178 | a committed report is by the claim's owner, within one claim, and never earlier than the previous report |
| `TaskCommits.ClaimStores` | internal/domain/task/models.go:126-144 | a committed claim takes one of the remaining attempts of a QUEUED or FAILED document and starts a claim record of its own, with its deadline; nothing else changes |
| `TaskCommits.ReportStores` | internal/domain/task/models.go:151-178 | a committed report stores its own time and data, sets the deadline to a processing timeout after it, and leaves everything else of task and claim but ModifiedAt as in the document that it replaced |
| `TaskCommits.DoneStores` | internal/domain/task/models.go:184-207 | a committed success is stored as the claim's result with its time and data; only state and ModifiedAt change besides |
| `TaskCommits.FailureStores` | internal/domain/task/models.go:212-275 | a committed failure or reap is stored as the claim's result; with attempts left the task is FAILED and due exactly after the wait for its retries and the jitter drawn, with none it is DEAD and RunAt and LastEnqueuedAt stay |
| `TaskCommits.UnclaimStores` | internal/domain/task/models.go:277-293 | a committed unclaim gives the attempt back and queues the task anew; claim record and RunAt stay |
| `TaskCommits.CreationStores` | internal/infra/elasticsearch/task/service.go:65-96 | a created document carries everything that was asked for, is QUEUED and unclaimed, and has one attempt more than the retries asked for if there is room |
| `TaskRuns.VersionsNeverReturn` | internal/infra/elasticsearch/task/service.go:534-565 | a version that is no longer live never is again |
| `TaskRuns.CommitDefeatsStaleAttempt` | internal/infra/elasticsearch/task/service.go:237-263 | after anything commits on a scanned document, a later write from the scanned copy is a no-op: a report after the scan defeats the reap |
| `TaskMaintenance.ReapEffect` | internal/infra/elasticsearch/task/service.go:237-263 | one reap changes nothing or replaces one live document by one that is not CLAIMED; on a live timed-out copy it does the latter |
| `TaskMaintenance.ReapPassCatchesAll` | internal/infra/elasticsearch/task/service.go:237-263 | a pass whose scan saw every timed-out task leaves none, even with out-of-date copies among the hits, and among any actions of others that set no deadline already past |
| `TaskMaintenance.SecondReapPassChangesNothing` | internal/infra/elasticsearch/task/service.go:237-263 | a second pass with the same `now` changes nothing, whatever its scan returns: the outcome is what the actions of others bring about alone |
| `TaskMaintenance.FutureDeadlinesAreHarmless` | internal/domain/task/models.go:126-178 | creations, completions, unclaims, archivals, and claims and reports whose deadline is still to come, set no deadline already past |
| `TaskMaintenance.ArchivalConservesExactlyWhen` | internal/infra/elasticsearch/task/service.go:824-894 | an archival keeps the multiset of queue and archive documents if and only if its delete takes effect exactly when its insert does |
| `TaskMaintenance.FreshArchivePassConserves` | internal/infra/elasticsearch/task/service.go:265-287 | an undisturbed batch of live DONE or DEAD copies moves exactly those documents and keeps the multiset |
| `TaskMaintenance.ArchivePassConserves` | internal/infra/elasticsearch/task/service.go:265-287 | among any creations, claims, reports, completions, unclaims and reaps of others, each archival of such a batch keeps the multiset when its turn comes |
| `TaskMaintenance.ArchivedTwice` | internal/infra/elasticsearch/task/service.go:824-894 | a run in which two archivals of one scanned copy leave it twice in the archive |
| `TaskMaintenance.NothingIsLost` | internal/infra/elasticsearch/task/service.go:265-287 | if archive inserts take effect, then in every run the last state of every task is live or archived |
| `TaskMaintenance.OutstandingOnlyShrinks` | internal/infra/elasticsearch/task/service.go:1276-1315 | only a creation adds to the outstanding tasks of a recurring id |
| `TaskMaintenance.AtMostOneOutstanding` | internal/infra/cron/task/recurring/scheduler.go:60-122 | with the skip flag, at most one unfinished task of a recurring id is ever in its queue, whatever happens between and during firings |
| `TaskMaintenance.JobEnqueuesExactlyWhen` | internal/infra/cron/task/recurring/scheduler.go:60-117 | a firing, whatever others do between count and creation, enqueues if and only if the flag is not set, or the count succeeds and every task of the id in the queue is finished; what it enqueues is as defined, due at once, under the recurring id; otherwise only the actions of others remain |
| `TaskService.UpdateOnceIsProtocol` | internal/infra/elasticsearch/task/service.go:512-567 | one read-mutate-write is a protocol run with at most one write; a returned task is the live document at the returned version; a 404, a 409 or a rejection means nothing was written |
| `TaskService.CallCommitsAtMostOnce` | internal/infra/elasticsearch/task/service.go:192-235 | a whole call with its retry commits at most one write, and exactly one when it succeeds |
| `TaskService.RetrySurvivesConflict` | internal/infra/elasticsearch/task/service.go:494-510 | one lost race does not fail a call: an undisturbed retry commits the transition on the document that is live by then |
| `TaskRetries.ConflictsExactlyWhen` | internal/infra/elasticsearch/task/service.go:512-567 | a try is answered with a version conflict if and only if it loses a race: its transition was accepted, and the version that it read was no longer live when its write was served |
| `TaskRetries.AnswersExactlyWhen` | internal/infra/elasticsearch/task/service.go:494-567 | what every other answer of a try means, both ways: success, each rejection, not found, store error; and exactly when its write takes effect |
| `TaskRetries.OneRetrySufficesExactlyWhen` | internal/infra/elasticsearch/task/service.go:192-235 | a call answers with a version conflict if and only if every try that it makes loses a race; and it answers as the configured number of retries would if and only if that number is at most one, or one of its two tries does not lose, or all the later ones would have lost too |
| `TaskRetries.SecondRetryWouldCommit` | internal/infra/elasticsearch/task/service.go:494-510 | a run with two retries configured in which a third try would commit and the call answers with a version conflict |
| `TaskService.EsService.Create` | internal/infra/elasticsearch/task/service.go:65-122 | a fresh task that says what was asked for is stored if and only if its id is free, and AlreadyExists is answered if and only if it is not |
| `TaskService.EsService.GetAndUpdate` | internal/infra/elasticsearch/task/service.go:512-567 | the method, on an object mutated in place between two moments at which others act, has the specified effect and answer |
| `TaskService.EsService.RunUpdate` | internal/infra/elasticsearch/task/service.go:494-510 | at most one retry, after a version conflict and only then |
| `TaskService.EsService.ReportIn` | internal/infra/elasticsearch/task/service.go:192-207 | a retried report keeps the time of the first try; the task returned carries the report's time and data and the new deadline |
| `TaskService.EsService.MarkDone` | internal/infra/elasticsearch/task/service.go:209-213 | a retried completion is stamped with the later clock reading; the task returned carries the result |
| `TaskService.EsService.MarkFailed` | internal/infra/elasticsearch/task/service.go:215-219 | a retried failure takes a new clock reading and a new jitter; the task returned carries the failure |
| `TaskService.EsService.UnClaim` | internal/infra/elasticsearch/task/service.go:221-235 | a retried unclaim takes a new clock reading |
| `TaskSweeps.BulkUpdateTasks` | internal/infra/elasticsearch/task/service.go:729-764 | items are handled in order, each on its own, with others acting in between; an accepted item replaced exactly the copy it was computed from; the versions accepted from this server grow by those of the accepted items, also when the answer is lost |
| `TaskSweeps.ReapTimedOutTasks` | internal/infra/elasticsearch/task/service.go:237-321 | the sweep sends one failure per hit, in order, at one clock reading, with the jitter and fate of its own position, and does nothing else; on an error, reported if and only if there is one, it stops early. If the scan was complete, all items arrived and nobody set a deadline already past, nothing is timed out afterwards |
| `TaskSweeps.ReapedAll` | internal/infra/elasticsearch/task/service.go:237-263 | whatever happened around the items sent: attempts on every hit of a complete scan, all of which arrive, among harmless actions of others leave no task timed out |
| `TaskSweeps.ArchiveOldTasks` | internal/infra/elasticsearch/task/service.go:265-321 | the sweep sends per hit a delete and an insert, with the outcomes of its own position. Every copy whose insert takes effect is in the archive afterwards; if the copies were live and different, all arrive and nobody else archives, each archival loses and duplicates nothing at its turn, and the documents have left the queues |
| `TaskSweeps.HitsExactly` | internal/infra/elasticsearch/task/service.go:1185-1275 | a search hides nothing: its hits are exactly the candidates that are claimed past their deadline, or finished long enough ago |
| `TaskSweeps.HitsInOrder` | internal/infra/elasticsearch/task/service.go:1185-1275 | and keeps their order |
| `TaskSweeps.ScrollsToEmptyPage` | internal/infra/elasticsearch/task/service.go:289-321 | a scroll returns what any of its pages does, up to the first page without hits |
| `TaskSweeps.ItemsAreOfTheirPages` | internal/infra/elasticsearch/task/service.go:824-894 | each item is that of one hit of one page, with the fate, the jitter or the insert of that position |
| `TaskSweeps.ArchivedAll` | internal/infra/elasticsearch/task/service.go:265-287 | whatever happened around the items sent, they achieve what the archiving sweep promises |
| `ClaimService.RetryWaitMeaning` | internal/infra/elasticsearch/task/service.go:181-190 | through the unsigned and signed conversions, the wait is the larger of the minimum and an even share of the block time, or the minimum if no maximum number of retries is set |
| `ClaimService.RetriesBoundedExactlyWhen` | internal/infra/elasticsearch/task/service.go:150-190 | the longest possible number of waits, which `Claim` reaches when there is nothing to claim and nothing else takes time, is within the configured maximum if and only if the wait times that maximum covers the block time |
| `ClaimService.OneWaitTooMany` | internal/infra/elasticsearch/task/service.go:181-190 | a call that makes 21 waits with a configured maximum of 20 |
| `ClaimService.WonKeepsSearchOrder` | internal/infra/elasticsearch/task/service.go:693-727 | the claimed tasks are exactly the accepted hits with their new versions, in search order |
| `ClaimService.SearchExactly` | internal/infra/elasticsearch/task/service.go:644-690 | a search returns, as stored, candidates that are QUEUED or FAILED, due and with attempts left, no others, and all of them if it returns fewer than it may |
| `ClaimService.SearchInOrder` | internal/infra/elasticsearch/task/service.go:644-690 | it looks at the candidates in order and stops when it has as many as it may return |
| `ClaimService.DueExactlyWhen` | internal/infra/elasticsearch/task/service.go:1056-1119 | in the task's terms: queued or failed, due, with a retry count that leaves room |
| `ClaimService.OfferedIsTaken` | internal/infra/elasticsearch/task/service.go:581-642 | if every live hit of a search that may return all it is offered is claimed, so is every live task that is due |
| `ClaimService.Claimer.ClaimInPlace` | internal/infra/elasticsearch/task/service.go:693-709 | the first loop of makeClaim claims every element of the window in place, and no other; IntoClaimed refuses none of them |
| `ClaimService.Claimer.MakeClaim` | internal/infra/elasticsearch/task/service.go:693-727 | one attempt per element of the window; the result is the accepted ones, each stored at the returned version as this worker's claim; stamped with a reading of the clock during the call; if nobody else acts and all requests are served, every hit that was live is among them, and no version outside the window is taken |
| `ClaimService.ReturnsMore` | internal/infra/elasticsearch/task/service.go:616-642 | the parts of a claim call add up: if each returns exactly what was accepted from it, so does the whole, and a part that fails keeps what earlier ones claimed |
| `ClaimService.ReturnedInOrder` | internal/infra/elasticsearch/task/service.go:627-640 | a call that returns exactly what was accepted returns no claim twice |
| `ClaimService.Claimer.SearchUntilFound` | internal/infra/elasticsearch/task/service.go:581-616 | every wait begins before blockFor has passed, at most one search more than waits, and hits match the search |
| `ClaimService.Claimer.ClaimThroughWindow` | internal/infra/elasticsearch/task/service.go:616-642 | windows are contiguous and disjoint, each hit is attempted at most once and in order, never more than desired are claimed, and without an error either the quota is met or every hit was attempted |
| `ClaimService.Claimer.Claim` | internal/infra/elasticsearch/task/service.go:150-179 | the call ends: at most ceil(blockFor / wait) waits over both loops and one search more, and exactly as many when there is nothing to claim and only the waits take time; at most the desired number, all stored claims of this worker; fewer only after blockFor has passed; on success the call returns exactly the claims that the store accepted from it, each once, in the order of their versions; on an error those accepted before it stay with the worker; a calm call that returns fewer than desired has claimed every live task that is due of those its first search was offered, if that search may return so many |
| `LeaderLock.StepKeepsInv` | internal/infra/elasticsearch/leader/lock.go:270-396 | every step keeps every stash genuine and every LEADER's stash naming it |
| `LeaderLock.PassLeadsTo` | internal/infra/elasticsearch/leader/lock.go:277-376 | in terms of the store, exactly when a pass leads to LEADER, USURPER or PRETENDER; a leader that cannot renew steps down, and whoever becomes LEADER or USURPER holds the live version; an accepted write carries the process, the time and the lease |
| `LeaderLock.WakesWhen` | internal/infra/elasticsearch/leader/lock.go:270-396 | when the next pass begins, for every state a pass can start and end in: at once without a document, after finding itself named and after usurping; after the lease on finding another's; after the interval otherwise, renewals included; a copy is stashed exactly by LEADER and USURPER |
| `LeaderLock.Fencing` | internal/infra/elasticsearch/leader/lock.go:277-376 | in every run, with lost requests and answers and outside deletion or rewriting: LEADER and USURPER hold a stash, so the impossible branches are dead, and of two LEADERs at most one can still renew |
| `LeaderTiming.UsurperComesTooLate` | internal/infra/elasticsearch/leader/lock.go:350-396 | in a timely run a usurper's conditional write finds another version while anyone still counts as leader |
| `LeaderTiming.TimelyRunKeeps` | internal/infra/elasticsearch/leader/lock.go:270-396 | every timely run keeps the timed invariant: a leader holds the live version and whoever waits to usurp it acts only after its renewal is due |
| `LeaderTiming.AtMostOneLeader` | internal/infra/elasticsearch/leader/lock.go:270-396 | mutual exclusion: if leaders renew within a time that, with the read latency, stays below every lease, at most one process is LEADER at any moment |
| `LeaderPromptness.PromptIsTimely` | internal/infra/elasticsearch/leader/lock.go:270-298 | a leader that begins, asks and finishes within its delays renews in time |
| `LeaderPromptness.PromptLeadersExclude` | config/tasques.example.yaml:82-88 | mutual exclusion from interval, delays and leases alone, with no assumption on renewals |
| `LeaderTiming.LeaseBoundIsTight` | internal/infra/elasticsearch/leader/lock.go:270-396 | a renewal time equal to the lease, with no latency, admits a run with two LEADERs |
| `EsLocks.EsLock.GetLeaderDoc` | internal/infra/elasticsearch/leader/lock.go:135-161 | answers with a genuine copy of the live lock document if and only if the request is served and there is one, and says that there is none only if there is none |
| `EsLocks.EsLock.SubmitNameForLeader` | internal/infra/elasticsearch/leader/lock.go:163-211 | if no lock document was live and the request arrives, exactly one is written, it names this process and is live, and otherwise the store is unchanged; the answer carries it if and only if it was written and the answer arrives |
| `EsLocks.EsLock.JostleForLeader` | internal/infra/elasticsearch/leader/lock.go:213-268 | if the stashed version was live and the request arrives, exactly one document is written, which names this process, replaces that version and is live, and otherwise the store is unchanged; a 404 or a 409 means that nothing was written |
| `EsLocks.EsLock.Pass` | internal/infra/elasticsearch/leader/lock.go:277-396 | one pass of the loop: new state, stash, store and wake-up time, whose meaning PassLeadsTo and WakesWhen give |
| `EsLocks.EsLock.Loop` | internal/infra/elasticsearch/leader/lock.go:270-396 | any number of passes, ended by Stop |
| `EsLocks.TurnIsPass` | internal/infra/elasticsearch/leader/lock.go:270-396 | a turn of the loop, with a Stop before it or with writes and deletions by others in it, is the corresponding run of the N-process machine |
| `RecurringStore.ApiAllOnlyDirties` | internal/infra/elasticsearch/task/recurring/service.go:44-230 | however many API writes happen, no id goes and every changed document has its LoadedAt cleared |
| `RecurringStore.ListingsAreCurrent` | internal/infra/elasticsearch/task/recurring/service.go:161-191 | All, which refreshes the index, and NotLoaded on a refreshed index return one current copy of each document they select and of no other, sorted by id |
| `RecurringStore.StaleHitsArePast` | internal/infra/elasticsearch/task/recurring/service.go:179-191 | without a refresh NotLoaded returns, for an id at most one, copies that once were stored and had not been seen |
| `RecurringStore.StaleHitsHideNothing` | internal/infra/elasticsearch/task/recurring/service.go:179-191 | and hides no change: each candidate that had not been seen, deleted or not, has its id among the hits |
| `RecurringSync.MarkItemsOutcome` | internal/infra/elasticsearch/task/recurring/service.go:232-280 | with API writes between the items: a document is as before and its item failed, or dirtied last by an API user, or last written by an accepted item |
| `RecurringSync.ListedByReply` | internal/infra/elasticsearch/task/recurring/service.go:232-280 | which of the four lists an item ends up in, by its reply, with a new version only if it was accepted |
| `RecurringMarking.MarkedDocument` | internal/infra/elasticsearch/task/recurring/service.go:232-280 | undisturbed, the document of a current copy whose item arrives is stamped with the clock reading and keeps body and deletion mark; any other stays as it is |
| `RecurringSync.RememberedItem` | internal/domain/task/recurring/manager.go:284-333 | the map then holds each item with its new version, unless it was not found or is deleted |
| `RecurringTheorems.MarkKeepsGenuine` | internal/domain/task/recurring/manager.go:284-333 | memory keeps holding copies of versions that were stored, conflicts and errors included |
| `RecurringTheorems.MarkAgrees` | internal/domain/task/recurring/manager.go:284-333 | marking current copies makes memory agree with every clean document, given that it agreed with those outside the list |
| `RecurringTheorems.SyncReady` | internal/domain/task/recurring/manager.go:164-197 | what syncNotLoaded has unscheduled and scheduled before it marks |
| `RecurringTheorems.RepairReady` | internal/domain/task/recurring/manager.go:207-222 | the same for the repairing half of enforceSync |
| `RecurringListings.NeedsResyncExactlyWhen` | internal/domain/task/recurring/manager.go:335-395 | checkSync finds something if and only if an undeleted id is missing or at another version in memory, or memory has an id too many |
| `RecurringRuns.ReloadKeeps` | internal/domain/task/recurring/manager.go:144-158 | a reload keeps what holds whatever fails, and establishes agreement with every clean document when read and mark succeed |
| `RecurringRuns.SyncKeeps` | internal/domain/task/recurring/manager.go:164-197 | incremental sync keeps what holds whatever fails, for any search result; with a refreshed index it keeps agreement under API writes in mid-call, also when the read fails, or MarkLoaded fails without effect |
| `RecurringRuns.EnforceKeeps` | internal/domain/task/recurring/manager.go:199-241 | the enforcer establishes agreement from any memory of genuine copies |
| `RecurringRuns.MemoryIsAlwaysScheduled` | internal/domain/task/recurring/manager.go:81-118 | in every run, whatever fails, however stale the searches are and while other managers mark too, each id in memory is scheduled with the definition in memory, and memory holds genuine copies |
| `RecurringRuns.JobsStayMatched` | internal/domain/task/recurring/manager.go:284-333 | unless a MarkLoaded fails outright, jobs and memory have the same ids and definitions throughout |
| `RecurringRuns.LosingLeadershipStopsEverything` | internal/domain/task/recurring/manager.go:101-107 | then the call that observes the loss of leadership leaves nothing scheduled |
| `RecurringRuns.CleanDocumentsAgree` | internal/domain/task/recurring/manager.go:144-197 | in every undisturbed run, while this manager leads, every clean undeleted document is in memory at its version and every clean deleted one is absent |
| `RecurringFailures.LeftScheduledAfterReload` | internal/domain/task/recurring/manager.go:284-292 | what stays scheduled when leadership is lost right after a reload, from any state: everything runnable if its MarkLoaded failed outright, and of what an earlier failure had left, what has no undeleted document |
| `RecurringFailures.LeftScheduledAfterSync` | internal/domain/task/recurring/manager.go:164-197 | the same after an incremental sync: what it scheduled if its MarkLoaded failed outright, and of what had been left before, what its search did not return |
| `RecurringFailures.LeftScheduledAfterEnforce` | internal/domain/task/recurring/manager.go:199-241 | the same after the enforcer: what its repair scheduled if that MarkLoaded failed outright, everything runnable if the one of its reload did, and of what had been left before, what has no undeleted document |
| `RecurringFailures.OrphanedJob` | internal/domain/task/recurring/manager.go:101-107 | a run in which a job goes on after leadership is lost |
| `RecurringFailures.FailedReloadAgreesExactlyWhen` | internal/domain/task/recurring/manager.go:144-158 | with API writes before the read but none between the items, a reload that fails leaves agreement if and only if no undeleted document was clean when it read and none of its items was written |
| `RecurringFailures.FailedReloadDisagrees` | internal/domain/task/recurring/manager.go:144-158 | a run in which a manager leads, loses leadership, leads again with a read that fails, and does not know a clean document |
| `RecurringQuiescence.QuietReloadSyncsExactlyWhen` | internal/domain/task/recurring/manager.go:144-158 | on a quiet store a reload puts memory, scheduler and store in step, definitions included, if and only if each job was accounted for by memory or an undeleted document |
| `RecurringQuiescence.QuietSyncSyncsExactlyWhen` | internal/domain/task/recurring/manager.go:164-197 | on a quiet store incremental sync puts memory, scheduler and store in step, definitions included, if and only if memory agreed with every clean document and jobs and memory had the same clean ids; nothing is left unseen but what does not parse |
| `RecurringQuiescence.SyncRepairsNothing` | internal/domain/task/recurring/manager.go:164-197 | on a quiet store incremental sync leaves agreement if and only if there was agreement, so it never notices what a failed reload left |
| `RecurringQuiescence.SyncAgreesExactlyWhen` | internal/infra/elasticsearch/task/recurring/service.go:179-191 | the same for any result of an unrefreshed search: also each clean document of which it returned an old copy must be deleted, and that copy not be scheduled |
| `RecurringQuiescence.SyncReachesWhatReloadReaches` | internal/domain/task/recurring/manager.go:144-197 | incremental sync refines the full reload: both end in step, with the same ids and definitions in memory and running |
| `RecurringEnforcer.EnforceConverges` | internal/domain/task/recurring/manager.go:199-241 | on a quiet store, from any memory of genuine copies, the enforcer completes memory, and puts memory, scheduler and store in step, each job with the definition in the store, if and only if each job was accounted for by memory or an undeleted document; a failed MarkLoaded may have come before |
| `RecurringEnforcer.EnforcerIsIdleExactlyWhen` | internal/domain/task/recurring/manager.go:199-241 | once in step, a further run changes and writes nothing if and only if all undeleted expressions parse or none does |
| `RecurringExpressions.ValidatedRunsStayRunnable` | internal/api/models/task/recurring/models.go:40-68 | in every run whose API writes carry only expressions that parse, whatever fails and whoever marks, every undeleted definition can run |
| `RecurringExpressions.EnforcerComesToRest` | internal/domain/task/recurring/manager.go:199-241 | so in every such run from an empty store one quiet run of the enforcer is enough: the next one changes and writes nothing |
| `RecurringExpressions.RewritesEachTime` | internal/domain/task/recurring/manager.go:199-241 | once in step, with some but not all definitions parsing, any number of further runs of the enforcer write each time |
| `RecurringExpressions.OneBadDefinition` | internal/domain/task/recurring/manager.go:199-241 | a run with one definition that parses and one that does not, after which the enforcer never comes to rest |
| `RecurringCalls.EnforceCallConverges` | internal/domain/task/recurring/manager.go:81-118 | a call of the enforcer by a continuing leader puts memory in step, from any memory of genuine copies, and all three exactly when each job was accounted for |
| `RecurringCalls.EnforceCallIdleExactlyWhen` | internal/domain/task/recurring/manager.go:81-118 | from a view in step such a call changes and writes nothing if and only if all undeleted expressions parse or none does |
| `RecurringCalls.EnforceCallWrites` | internal/domain/task/recurring/manager.go:199-241 | if all undeleted expressions parse it writes exactly the documents that were out of step |
| `RecurringCalls.SyncCallWrites` | internal/domain/task/recurring/manager.go:81-118 | a call of incremental sync by a continuing leader writes exactly the documents changed since they were last seen, but for definitions that do not parse, and leaves every other id alone |
| `RecurringCalls.GainingCallReloads` | internal/domain/task/recurring/manager.go:81-118 | the call that gains leadership, of either function, puts memory in step and writes what can run |
| `RecurringCalls.FollowingCallStops` | internal/domain/task/recurring/manager.go:81-118 | a call that no longer leads unschedules what memory lists and forgets it; one that did not lead either changes nothing |
| `RecurringCalls.EnforceFailsExactlyWhen` | internal/domain/task/recurring/manager.go:199-241 | the enforcer fails if and only if a read that it gets to fails, or a MarkLoaded that it gets to with something to mark |
| `RecurringCalls.CallFailsExactlyWhen` | internal/domain/task/recurring/manager.go:144-197 | a call that gains leadership, or syncs, fails if and only if its read does, or its MarkLoaded with something to mark |
| `RecurringFailures.ItemAgreesExactlyWhen` | internal/domain/task/recurring/manager.go:284-333 | memory agrees with what becomes of one item's document if and only if the item was not written with the answer lost, or its task is deleted |
| `RecurringFailures.MarkAgreesExactlyWhen` | internal/domain/task/recurring/manager.go:284-333 | marking a list of current copies, undisturbed, leaves agreement if and only if there was agreement outside the list and every item written with its answer lost is of a deleted task |
| `RecurringFailures.ReloadAgreesExactlyWhen` | internal/domain/task/recurring/manager.go:144-158 | a reload whose items nobody disturbs leaves agreement if and only if none of them is written with its answer lost |
| `RecurringFailures.SyncAgreesDespiteErrors` | internal/domain/task/recurring/manager.go:164-197 | an incremental sync of a refreshed index whose items nobody disturbs leaves agreement if and only if there was agreement after its read and no item of an undeleted task is written with its answer lost |
| `RecurringFailures.LostAnswerDisagrees` | internal/domain/task/recurring/manager.go:284-333 | a run in which an item is written with its answer lost and memory keeps the replaced version |
| `RecurringFailures.StaleCopyAgreesExactlyWhen` | internal/infra/elasticsearch/task/recurring/service.go:179-191 | marking a copy that NotLoaded returned keeps agreement if and only if the copy was current or its document has been dirtied since |
| `RecurringFailures.StaleSearchDisagrees` | internal/infra/elasticsearch/task/recurring/service.go:179-191 | a run in which an unrefreshed search makes memory disagree with a clean document |
| `RecurringService.RecurringIndex.MarkLoaded` | internal/infra/elasticsearch/task/recurring/service.go:232-280 | stamps the given tasks in place, sends them in order, and sorts each into the list its reply belongs to, successes with their new version |
| `RecurringService.RecurringIndex.Update` | internal/infra/elasticsearch/task/recurring/service.go:193-230 | clears LoadedAt and writes if and only if the copy's version is live; a 404 or 409 becomes an error |
| `RecurringService.RecurringIndex.Delete` | internal/infra/elasticsearch/task/recurring/service.go:146-159 | not found if absent or soft-deleted; otherwise one versioned write that marks it deleted and unseen with its body kept, refused if the document changed in between |
| `RecurringService.RecurringIndex.Create` | internal/infra/elasticsearch/task/recurring/service.go:44-111 | creates, or reindexes over a soft-deleted document, or reports that it exists, or that the read after the conflict failed; the result is stored clean of LoadedAt |
| `CronScheduler.Scheduler.Schedule` | internal/infra/cron/task/recurring/scheduler.go:45-131 | an upsert: the id's one job runs the new definition, or the id has no job if its expression does not parse; all others are untouched |
| `CronScheduler.Scheduler.Unschedule` | internal/infra/cron/task/recurring/scheduler.go:133-148 | the id has no job; true if and only if the id was recorded |
| `CronScheduler.EntriesAreJobs` | internal/infra/cron/task/recurring/scheduler.go:45-148 | no leaked or doubled entries: live cron entries and jobs are one to one |
| `CronScheduler.Serve` | internal/infra/cron/task/recurring/scheduler.go:45-148 | any sequence of Schedule and Unschedule, failures included, keeps that |
| `CronScheduler.LastRequestDecides` | internal/infra/cron/task/recurring/scheduler.go:45-148 | after any sequence, an id runs what the last request about it says |
| `RecurringManager.Manager.StopEverything` | internal/domain/task/recurring/manager.go:135-139 | removing while walking the map: the map is empty and its ids have no jobs |
| `RecurringManager.Manager.MarkAndRemember` | internal/domain/task/recurring/manager.go:284-333 | the four result lists move map and scheduler as specified |
| `RecurringManager.Manager.Reload` | internal/domain/task/recurring/manager.go:144-158 | the method does what CompleteReload says, failures included |
| `RecurringManager.Manager.SyncUnseen` | internal/domain/task/recurring/manager.go:164-197 | the method does what SyncNotLoaded says |
| `RecurringManager.Manager.CheckAgainstStore` | internal/domain/task/recurring/manager.go:335-362 | finds what CheckSync finds, in whatever order the map is walked |
| `RecurringManager.Manager.Enforce` | internal/domain/task/recurring/manager.go:199-241 | the method does what EnforceSync says: check, repair, check again, reload if that was not enough |
| `RecurringManager.Manager.RecurringFunc` | internal/domain/task/recurring/manager.go:81-118 | the four combinations of leadership before and now; what each comes to is proved in RecurringCalls |

## Left out

- HTTP, JSON and NDJSON, response decoding, logging and tracing: only the outcome of a request remains.
- The internals of Elasticsearch and of robfig/cron: a versioned store and a table of entries under fresh ids.
- RefreshAsNeeded and its LRU cache of touched queues: search freshness is a parameter instead.
- The sort order of task searches, and paging of recurring listings: search results arrive in an arbitrary order, which claiming keeps.
- Uniqueness of a recurring Create over a soft-deleted id: the reindex carries no version, so two may both succeed.
- Worker loops, generated clients, controllers, configuration, index templates, ILM and Kibana set-up.
- Queue-name validation, the string tables of states, CreatedAt and ModifiedAt of recurring tasks: easy members.
- Repeated Start on one lock object, outside its intended use.
- The job body as a method: TaskMaintenance.FireJob gives it on values, since what it calls is the task service.
- Panic recovery and delaying of overlapping cron jobs.
- ClaimService.Claimer.Claim: assumes a positive wait, since with a wait of zero the loops end only with the clock, and a request below 2^63, since int(desiredTasks) is negative for a larger one and slicing the search hits with it panics.
- Backoff.WaitBounds: on unbounded integers; neither the overflow of the back-off in nanoseconds nor the conversion of attempt counts beyond 2^63 to int is modelled.
- LeaderTiming.AtMostOneLeader: assumes one common clock for the passes of all processes and reads answered within the latency.
- RecurringRuns.CleanDocumentsAgree: assumes searches of a refreshed index, and that an item answered with an error was not written (LostNothing); SyncAgreesExactlyWhen says what other searches do, and MarkAgreesExactlyWhen what lost answers do.
- RecurringFailures.FailedReloadAgreesExactlyWhen: assumes no API writes between the items; those only make documents dirty, which needs no agreement.
- RecurringService.RecurringIndex.MarkLoaded: one bulk reply per item is taken for granted, as in the code.
