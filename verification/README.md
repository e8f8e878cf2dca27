# Agent ImageFlow: a verified model of its stateful core

This project models the Go server of Agent ImageFlow in Dafny and proves what its concurrent and
stateful parts promise. Five parts are covered.

* **Task execution.** `WorkQueue` is the Redis queue (ready list, scheduled set, locks) as a class.
  `TaskProtocol` is the whole protocol as a transition system with one step per store statement,
  Redis command or local decision: creators, workers and repairs run in any interleaving and any
  number. `TaskInvariant` and `TaskSteps` prove its inductive invariant, `TaskSafety` what every
  reachable state satisfies, `TaskDrive` and `TaskProgress` that every task can be settled,
  `TaskWork` that the work on it ends, `TaskRetry` when retries are decided and fall due and what
  repairs restore, and `TaskTiming` which runs break what is not promised.
  `Retry` is the backoff arithmetic on 64-bit integers, `TaskOutcome` the conclusion of an attempt
  and the error summary read back from it, `ProviderSplit` the parallel split of one request, and
  `ProviderPermits` the counting semaphores around the adapters.
* **The relational store.** `Database` holds the tables, their foreign keys and the agreement of
  scope columns that no foreign key enforces. `StoreOps`, `Cascade`, `StoreInvariants` and `Store`
  model the cascade deletes, inserts, reviews, the review log and best-of selection, the last as a
  class whose methods run statement by statement. `StoreEffects` says what each operation does to
  the rows, column by column. `BestOf` chooses among candidates and applies the choice. `Cleanup` is
  the storage cleanup as a transition system, interleaved with every other store operation and with
  running stores, `CleanupTiming` shows which runs break it; `CleanupReport` is one execution from
  beginning to end and its accounting.
* **Summary and delivery.** `StoryOrder`, `Sorting`, `StorySummary` and `BatchSummary` are the
  one-pass batch summary with its running maxima, its map of scenes, the sort and the regrouping
  into stories. `SummaryMeaning` says what its response means in terms of the query's rows alone.
  `Delivery` is the delivery-role enrichment, in place, and the final delivery view;
  `SummaryDelivery` composes the two and proves that the delivery matches the summary.
* **Event streams.** `EventStream` reads the event-stream format of sections 9.2.5 and 9.2.6 of the
  WHATWG HTML Living Standard, with the reader's two departures (a last block without its blank
  line is dispatched; a carriage return alone ends no line). `EventPrinter` writes such streams and
  proves the round trip.
* **Two smaller protocols.** `StoryChain` is the sequential story-panel chain, `RateLimiter` the
  fixed-window rate limiter.

`Text` and `Options` are shared helpers.

## How to read the results

Where the code works by steps on shared state, the model is a `State`, a `Step` datatype, an
`Enabled` predicate and a `Do` function; results are about every state that `Executable` steps
reach. Where it updates an object or a slice, the model is a class or a method proved against a
specification function or predicate, and the lemmas are about that specification.

Functions that a method and its contract share are given a meaning of their own, in terms of columns,
rows, characters or files and without those functions: in `StoreEffects`, `SummaryMeaning` and
`TaskRetry`, and beside the functions elsewhere (`TaskOutcome.Explained`, `StoryChain.Answers`,
`CleanupReport.Treated`, `SummaryDelivery.FinalsAre`, `ProviderSplit.CombinedSays`).

Some properties hold only under an assumption that the code does not enforce. The assumption is a
predicate of its own beside `Enabled` (`Timely`, `Quiet`, `Disciplined`), it is required only where
it is used, and each is shown to be needed by a run that breaks it:

* A worker that scheduled a retry deletes its lock before that retry falls due. Without it a task
  can be lost, from every state where the two race (`TaskTiming.LateUnlockLosesTask`) and by a run
  from the empty system with a single clock step (`TaskTiming.OneLateTickSuffices`). Only the
  results about lost tasks and progress need it; one processor per task, the attempt rows, the retry
  budget, the accounting of settled tasks and termination hold in every run, and a repair brings a
  lost task back in every run (`TaskRetry.RepairRecovers`).
* No file store is in flight while cleanup reads the known paths and walks the files. Without it an
  asset can lose a file, from every state with such a store in place (`CleanupTiming.StoreInFlightLosesFile`)
  and by a run from the empty system (`CleanupTiming.OneStoreInFlightSuffices`).
* The predecessors of story panels come from panel tasks (`StoryChain.UnrecordedPanelSlipsThrough`).
  `StoryChain.ChainIsWholeIff` gives the exact condition for all runs, with or without it.

Five findings where the code is subtler than it reads:

* A task row can still say `running` after its attempt row has been closed, because
  `FinishAttempt` and `UpdateTaskStatus` are two statements. `TaskSafety.RunningAttempts` states
  exactly when an attempt row is open, and `TaskTiming.RunningWithoutRunningAttempt` reaches a task
  that is running without a running attempt.
* The retry backoff doubles exactly as long as base * 2^(k-1) fits a 64-bit integer, and is
  something else from there on (`Retry.BackoffIsExactIffItFits`).
* The previous-panel check of a story compares story, scene and panel index only as far as the
  previous asset's task recorded them (`StoryChain.LinkPinsPanel`). A task that recorded none passes
  for the predecessor of any panel. The chain of an accepted panel n above 1 visits the panels n to 1
  if and only if the predecessor's task recorded a story and an index and its own chain is whole;
  unrolled, every task on that chain was checked itself or recorded its story, index and link
  (`StoryChain.ChainIsWholeIff`).
* The rate limiter admits exactly the first calls of each window if and only if the window is a
  whole number of milliseconds (`RateLimiter.ExactIffWholeMilliseconds`): the expiry is rounded
  down, so otherwise the counter starts again in the last fraction of a millisecond, and even twice
  the limit per window length is exceeded (`RateLimiter.AtMostTwiceTheLimit`). The server configures
  whole seconds.
* No operation ever publishes an asset (`StoreInvariants.LogsOfRuns`), although a status for it
  exists and is checked in several places. A published asset would count as delivered but not as
  selected, which is the only way in which summary and delivery can disagree
  (`SummaryDelivery.DeliveryMatchesSummary`).

## Model

| member | source | states |
|---|---|---|
| WorkQueue.RedisQueue.Enqueue | internal/queue/redis.go:36-38 | appends the task to the ready list and touches nothing else |
| WorkQueue.RedisQueue.EnqueueAfter | internal/queue/redis.go:40-49 | a positive delay sets the task's one scheduled entry to now plus delay in whole milliseconds, any other delay goes straight to the ready list |
| WorkQueue.RedisQueue.PromoteScheduled | internal/queue/redis.go:51-85 | some answer of the range query (due members, lowest scores first) moves from the scheduled set to the end of the ready list: all that are due, or as many as the limit, at least one |
| WorkQueue.RedisQueue.Dequeue | internal/queue/redis.go:87-96 | takes the oldest ready task, or nothing exactly if the list is empty |
| WorkQueue.RedisQueue.LockTask | internal/queue/redis.go:98-100 | succeeds exactly if the lock was free, and then holds it |
| WorkQueue.RedisQueue.UnlockTask | internal/queue/redis.go:102-104 | frees that lock and no other |
| WorkQueue.PromotionConservesTokens | internal/queue/redis.go:51-85 | promotion keeps the number of queued copies of every task |
| Retry.RetryAfter | internal/app/retry.go:40-56 | the doubling loop with 64-bit wrap-around computes the wait, from a base of 15 seconds if none is configured, and refuses exactly the attempts beyond the budget |
| Retry.BackoffIsExactIffItFits | internal/app/retry.go:40-56 | the wait after attempt k is base * 2^(k-1) if and only if that fits an int64 |
| Retry.TotalBackoffIsGeometric | internal/app/retry.go:40-56 | all waits of R retries add up to base * (2^R - 1) |
| TaskSteps.RunKeepsSound | cmd/worker/main.go:62-113 | every step of every creator, worker and repair keeps the protocol invariant (locks, attempts, assets, budget), in every interleaving and with any timing |
| TaskSteps.RunKeepsInv | internal/app/retry.go:14-38 | with timely unlocks it also keeps a trace of every task that is not settled |
| TaskSafety.NoTaskIsLost | cmd/worker/main.go:62-113 | in every state that a timely run reaches, a task that is not settled is in the ready list, in the scheduled set, with its creator, with a worker that has popped it, or with its lock holder |
| TaskSteps.DropLosesNothing | cmd/worker/main.go:98-106 | dropping a popped task because its lock is held never drops the last trace of any task |
| TaskTiming.LateUnlockLosesTask | internal/app/retry.go:22-37 | in every timely reachable state where a worker has scheduled a retry but not yet unlocked, nothing else has the task and another worker polls, one late tick opens a run after which the task is queued and in nobody's hands |
| TaskTiming.OneLateTickSuffices | cmd/worker/main.go:98-111 | with two workers and a retry such a run exists from the empty system, its only clock step being the late one |
| TaskProgress.EveryTaskCanSettle | cmd/worker/main.go:62-113 | from every timely reachable state every task can be brought to a final status |
| TaskProgress.WorkDescends | internal/app/service.go:796-915 | in every run, repairs included, no step of any process adds to the work left on a task and every step of a worker on it takes some away |
| TaskRetry.RetryDecision | internal/app/service.go:826-843 | in every reachable state an answer with an error and no files is postponed by the backoff of its attempt if and only if it is retryable and the task has at most R attempts, and fails otherwise; every other answer is registered |
| TaskRetry.VerdictIsConclusion | internal/app/service.go:845-899 | registering any files one by one and deciding gives the status that `TaskOutcome.Conclude` computes for them |
| TaskRetry.RetryIsNotEarly | internal/app/retry.go:29-33 | in every run a scheduled retry's score is not before the due time on the last attempt's row, nor less than a second after the clock |
| TaskRetry.RetryIsOnTime | internal/app/retry.go:29-33 | without a clock step between measuring and scheduling, the score is the later of the due time and one second from now, in whole milliseconds |
| TaskRetry.RepairRequeues | internal/app/repair.go:161-190 | a task can be repaired if and only if it is queued, running or failed to be enqueued; the repair sets it queued, pushes it, and changes nothing else |
| TaskRetry.RepairRecovers | internal/app/repair.go:161-190 | from every reachable state, however late its locks were deleted and also if the task has been lost, a run without any clock step settles the task |
| TaskRetry.RequestNeverChanges | internal/app/service.go:99-164 | a task is created queued for its requested number of images, and no step changes that number |
| TaskWork.WorkIsBounded | internal/app/retry.go:14-38 | in every run, of any length and with any number of repairs, workers take at most (15(R + 1) + 14)(F + 1) + F steps on a task before it is settled, for R retries and at most F files per answer |
| TaskSafety.OneProcessorPerTask | cmd/worker/main.go:98-111 | no two workers are inside the processing of one task, and the lock is held exactly while one is |
| TaskSafety.AttemptsMatchTheHolder | internal/store/postgres.go:935-948 | attempt numbers are 1..k although the maximum is read and the row inserted separately; a row is running exactly while the lock holder has it open; a running task has a holder |
| TaskSafety.RunningAttempts | internal/app/service.go:826-910 | a running task has exactly one running attempt if and only if its holder has not closed it yet, and none otherwise |
| TaskTiming.RunningWithoutRunningAttempt | internal/app/retry.go:14-38 | a run from the empty system reaches a running task without a running attempt |
| TaskSafety.RetryBudget | internal/app/retry.go:14-38 | with any number of repairs a task gets at most R retries and R + 1 attempts, each retry set one backoff after its decision, all waits within base * (2^R - 1) |
| TaskSafety.SettledTasksAreAccounted | internal/app/service.go:826-910 | completed means at least the requested number of assets, partially completed at least one, failed none; all come from the last attempt, and an unsettled unlocked task has none |
| TaskSafety.SettledAttempts | internal/app/service.go:901-910 | all attempts of a settled task but the last failed with a retry; the last one has none, and failed if and only if the task did |
| TaskSafety.SettledForever | internal/app/repair.go:161-190 | no step of any process changes a settled task, its attempts or its assets |
| TaskOutcome.RegisterFiles | internal/app/service.go:845-899 | counts the registered files and keeps the last loss; completed exactly if no file was lost, the request was met and no provider call failed, failed exactly if no file was registered; code and message as `TaskOutcome.ConclusionIsExplained` says |
| TaskOutcome.OutcomeAccounting | internal/app/service.go:873-899 | completed if and only if nothing was lost, nothing failed and the request was met; failed if and only if nothing was registered; completed if and only if there is no message |
| TaskOutcome.ConclusionIsExplained | internal/app/service.go:873-899 | code and message by cases: the last lost file's error outweighs the provider's, a failure is an asset failure unless only the provider failed, a partial result says how many of how many images are ready and why not all |
| TaskOutcome.SummaryRecoversPartialError | internal/app/service.go:1204-1224 | reading the summary back from a partial-success message gives the trimmed error text for every error, and nothing if there was none |
| ProviderSplit.SplitCounts | internal/app/service.go:970-988 | the shares add up to the request, each within 1..max, full ones first |
| ProviderSplit.AdapterTakesEveryShare | internal/provider/parameters.go:147-165 | service and adapter compute the same bound, so no share is cut short |
| ProviderSplit.BoundsAre | internal/provider/parameters.go:147-165 | the bound is a configured one from 1 to 10, else that of an enabled profile of the provider up to 10, else the provider's default of 1 or 4; the adapter asks for the request cut to that bound |
| ProviderSplit.GenerateSplit | internal/app/service.go:925-968 | whatever the order in which the goroutines complete, the answer is the same function of the individual answers, with the status, texts and error of `ProviderSplit.CombinedMeans` |
| ProviderSplit.CombinedMeans | internal/app/service.go:1023-1047 | succeeded if and only if no call failed, partially succeeded if one failed but there are files; code and message are the last that were given, the error is the first |
| ProviderSplit.MergeIsLossless | internal/app/service.go:1023-1047 | the merge keeps every file in call order and numbers slots 0..total-1 if each call numbers its own |
| ProviderSplit.SplitDeliversTheRequest | internal/app/service.go:917-968 | when every call returns what it was asked for, exactly the requested number of images comes back, in slots 0..n-1 |
| ProviderSplit.FirstErrorIsFirst | internal/app/service.go:925-968 | the reported error is the first in call order, and there is none only if no call failed |
| ProviderPermits.ConcurrencyBound | internal/app/service.go:990-1021 | in every interleaving at most the configured number of adapter calls is in flight, and all permits come back on every path |
| ProviderPermits.PermitIffBelowLimit | internal/app/service.go:86-95 | in every reachable state a waiting call can take a permit if and only if its provider has no positive limit or fewer running calls than the limit; it can give up if and only if there is a limit |
| ProviderPermits.NeverStuck | internal/app/service.go:990-1021 | from every reachable state all unfinished calls can be answered without a cancellation, and the others stay as they are |
| ProviderPermits.EveryCallCanFinish | internal/app/service.go:990-1021 | they do so within a bounded number of steps |
| Cascade.CascadeRemovesExactlyTheScope | internal/store/postgres.go:455-497 | on a consistent database the delete statements of a scope run in their order without a foreign-key violation and remove exactly the rows of that scope: those whose workspace, project and campaign columns name it, with the attempts, versions, events and deliveries of its tasks and assets, and no other workspace, project, campaign, task or asset |
| Cascade.AssetsBeforeVersionsFails | internal/store/postgres.go:486-497 | deleting assets before their versions is refused |
| StoreEffects.DeleteScopeRemoves | internal/store/postgres.go:464-497 | deleting a workspace, project or campaign succeeds if and only if its row is there, and then leaves exactly the rows of every table whose scope columns do not name it, as they were |
| StoreEffects.CleanupRemoves | internal/store/postgres.go:2350-2401 | an asset is cleaned up if and only if it is there, in that scope, with an allowed status; then it is gone with its versions, events and deliveries, and nothing else is |
| StoreEffects.ReviewCommits | internal/store/postgres.go:2680-2774 | an action commits if and only if the asset is there in one of the statuses listed for it |
| StoreEffects.ReviewWrites | internal/store/postgres.go:2680-2774 | it sets the action's status, and logs one event with the current version if and only if that changed the status |
| StoreEffects.InsertEffects | internal/store/postgres.go:2429-2494 | an asset is inserted if and only if its ids are new and its task and scope are there, as a draft with one version, its current one; an attempt, if its id is new and its task is there |
| StoreEffects.TaskInsertEffect | internal/app/service.go:99-164 | a creation whose key the project knows answers with that task or reports a conflict by its input; any other one inserts its row if the scope agrees |
| StoreInvariants.OperationKeepsConsistency | internal/store/postgres.go:146-215 | every create, insert, review, selection, cleanup and delete keeps all foreign keys, the agreement of scope columns and key uniqueness, or changes nothing |
| StoreInvariants.OperationKeepsVersions | internal/store/postgres.go:2429-2494 | no operation leaves an asset with two version rows, so version numbers are unique per asset |
| StoreInvariants.OperationKeepsLog | internal/store/postgres.go:2680-2774 | replaying an asset's review log from draft stays legal at each event and ends in the stored status, after every operation |
| StoreInvariants.LegalLogs | internal/store/postgres.go:2706-2774 | a log is legal exactly if each action may follow the one before it, and its last action alone determines the status |
| StoreInvariants.LogsOfRuns | internal/store/postgres.go:2680-2774 | in every run from an empty store each asset's log has that shape and ends in its stored status, which is never published |
| StoreInvariants.EveryRunKeepsIntegrity | internal/db/migrations.go:16-152 | all of this holds after every run |
| Store.PostgresStore.DeleteCascade | internal/store/postgres.go:368-462 | the transaction commits the removal of exactly the rows whose columns name the scope if its row is there, and otherwise reports it missing and changes nothing |
| Store.PostgresStore.DeleteCleanupAssetCandidate | internal/store/postgres.go:2350-2401 | removes the asset with all that hangs on it, and nothing else, if it is in that scope with an allowed status; otherwise says which of the two fails and changes nothing |
| Store.PostgresStore.ReviewAsset | internal/store/postgres.go:2680-2774 | status and event change together if the current status allows the action, or neither does |
| Store.PostgresStore.ApplyBestOfSelection | internal/store/postgres.go:2542-2590 | approves one asset and rejects the others in one transaction, all or nothing; it commits if and only if the chosen one can be approved and every other listed one is in its task and can be rejected |
| Store.BestOfCommits | internal/store/postgres.go:2542-2590 | that condition, in terms of presence, task and status of the listed assets |
| Store.BestOfEndsWithOneApproved | internal/store/postgres.go:2542-2590 | a committed selection leaves the chosen asset approved, every listed one rejected and all others as they were |
| Store.BestOfOnDraftsCommits | internal/store/postgres.go:2542-2590 | on fresh drafts of one task it always commits |
| Store.RepeatedCreationAddsNothing | internal/app/service.go:99-164 | a creation repeated with its key and input finds its task and adds nothing |
| Store.TaskRowsNeverChange | internal/store/postgres.go:2429-2494 | a task's scope, read once by a worker, stays true until the task is deleted |
| BestOf.ScoreBestOfCandidate | internal/app/bestof.go:175-189 | no candidate has a higher score than the chosen one, and none with the same score a smaller id |
| BestOf.ChoiceIgnoresOrder | internal/app/bestof.go:175-189 | the choice does not depend on the order of the candidates |
| BestOf.OtherCandidateIds | internal/app/bestof.go:257-272 | exactly the ids of the other candidates, in their order and as often as they occur |
| BestOf.SelectBestOfCandidate | internal/app/bestof.go:117-154 | a strategy that fails or chooses nothing is replaced by the built-in one, which chooses the best candidate whenever there is one |
| BestOf.DecisionMeans | internal/app/bestof.go:117-154 | some candidate is chosen whenever there is one; another strategy decides unless it fails or chooses nothing |
| BestOf.AutoSelectBestAsset | internal/app/bestof.go:59-115 | carries out that decision: with auto-reject on fresh drafts exactly the chosen asset ends approved and the other candidates rejected; a failure changes nothing |
| BestOf.OutcomeIgnoresOrder | internal/app/bestof.go:59-115 | the resulting assets do not depend on the order of the candidates either |
| Cleanup.PreviewAgreesWithDeletion | internal/app/storage_governance.go:219-241 | the preview and the deletion protect the same statuses |
| Cleanup.PreviewLists | internal/app/storage_governance.go:48-83 | a preview records assets of its scope that are rejected, draft or, if asked for, deprecated, each with its status at that time |
| Cleanup.ListedFiles | internal/storage/governance.go:125-200 | the scan lists exactly the temporary files and the final files of assets without a version |
| Cleanup.RunKeepsInv | internal/app/storage_governance.go:48-165 | every step of every cleanup, store, review and delete keeps the cleanup invariant |
| Cleanup.SurvivorsAreWhole | internal/storage/governance.go:125-200 | in every reachable state every asset with a row has its original, thumbnail and metadata file |
| Cleanup.ProtectedAssetsSurvive | internal/app/storage_governance.go:282-304 | an asset that is approved or published when its turn comes keeps its row and its files |
| Cleanup.OnlyPreviewedAssetsGo | internal/app/storage_governance.go:282-304 | over every run, cleanup removes only an asset that it previewed in that scope with an unprotected status, and whose status still is one that this preview admits |
| Cleanup.RowsGoFirst | internal/app/storage_governance.go:282-304 | a final file is deleted only when its asset has no row, version or review event left |
| Cleanup.DeadStaysDead | internal/app/storage_governance.go:282-304 | and that asset never gets a row again |
| CleanupTiming.StoreInFlightLosesFile | internal/app/storage_governance.go:84-104 | from every state in which a store has its three files in place but no row yet, a new cleanup that reads the known paths now deletes the original of that asset once it has its row |
| CleanupTiming.OneStoreInFlightSuffices | internal/app/storage_governance.go:84-104 | for every scope, task and asset such a run exists from the empty system; up to the scan it keeps the assumption |
| CleanupReport.Cleaning.DeleteStorageKey | internal/storage/governance.go:214-252 | deletes the file and reports its bytes, or reports it missing or undeletable |
| CleanupReport.Cleaning.DeleteFiles | internal/app/storage_governance.go:316-341 | each result says what happened to its file, and together they account for the files and bytes that disappeared |
| CleanupReport.Cleaning.ExecuteOne | internal/app/storage_governance.go:251-304 | an asset candidate is skipped, and changes nothing, exactly if it was previewed as approved or published, is not in that scope any more, or is not rejected, draft or, if previewed so, deprecated; otherwise its rows go and nothing else, then exactly its files; failed exactly if one of them is left |
| CleanupReport.CandidateIsTreated | internal/app/storage_governance.go:251-304 | the same of the specification that the steps of the cleanup protocol use |
| CleanupReport.Cleaning.Execute | internal/app/storage_governance.go:132-154 | the report gives each candidate's ending in order, its counters count the endings of each kind, it accounts for every file and every byte, and each candidate is treated in its turn as `CleanupReport.Cleaning.ExecuteOne` says |
| CleanupReport.CleanerFinishes | internal/app/storage_governance.go:132-154 | a cleaner of the protocol that runs alone leaves exactly the rows and files that this execution leaves |
| CleanupReport.ReportHoldsAtTheEnd | internal/app/storage_governance.go:282-304 | what it says of a candidate still holds after the whole execution: deleted means that row and files are gone, failed that one of its files is left |
| CleanupReport.OnlyListedFilesGo | internal/app/storage_governance.go:251-304 | every file that is gone belongs to a listed candidate, and if that is an asset, the asset has no row any more |
| CleanupReport.ProtectedRowsStay | internal/app/storage_governance.go:282-304 | an approved or published asset survives every execution |
| StoryOrder.BeforeIsLexicographic | internal/store/postgres.go:1480-1495 | one text is before another exactly if at the first difference it ends or has the smaller character |
| StoryOrder.LatestOfMore | internal/store/postgres.go:1434-1436 | the running update keeps the argmax by time and id |
| StoryOrder.PrecedesIsTotal | internal/store/postgres.go:1480-1495 | the scene comparison orders any two different scenes |
| StoryOrder.PrecedesIsTransitive | internal/store/postgres.go:1480-1495 | and is transitive, with unknown orders last |
| Sorting.AscendingIsUnique | internal/store/postgres.go:1480-1495 | there is only one sorted arrangement |
| StorySummary.KeyIsInjective | internal/store/postgres.go:1390-1391 | the map key tells scenes apart |
| StorySummary.WithTaskFits | internal/store/postgres.go:1406-1446 | adding a task keeps the latest task id the argmax of all tasks and the counters their sums |
| StorySummary.WithAssetFits | internal/store/postgres.go:1447-1470 | adding an asset keeps the primary asset the argmax of the selected ones and the counters their sums |
| StorySummary.FoldRows | internal/store/postgres.go:1380-1471 | the pass over the rows yields exactly the scenes, tasks, assets, maxima and totals that the rows define |
| BatchSummary.DeriveStatus | internal/store/postgres.go:1642-1698 | the flag loop computes the first status that applies to the set of tasks |
| BatchSummary.BuildStories | internal/store/postgres.go:1618-1640 | one story per story id, sorted, each with exactly its scenes in order |
| BatchSummary.Summarize | internal/store/postgres.go:1333-1500 | the response is the one that the rows define |
| BatchSummary.SummaryIsUnique | internal/store/postgres.go:1476-1499 | and does not depend on the iteration order of the maps |
| BatchSummary.SummaryAddsUp | internal/store/postgres.go:1562-1616 | every counter of the response is the sum of its scenes' own counters, or for the four states that scenes do not count of their tasks in that state; the stories' counters add up to the response's |
| SummaryMeaning.SummaryMeans | internal/store/postgres.go:1333-1500 | one scene per story and scene id of the rows, in order, each as `SummaryMeaning.SceneMeans` says; one story per story id with its scenes; every counter is the number of distinct tasks in its state, or of rows whose asset has its status: draft, approved, rejected |
| SummaryMeaning.SceneMeans | internal/store/postgres.go:1406-1470 | a scene lists each task once at its first row and each asset of its rows with its status by its public name, names the task updated last and the approved asset created last (greatest id among several, none if and only if no asset is approved), and counts its tasks and assets |
| SummaryMeaning.CountersCount | internal/store/postgres.go:1562-1598 | a counter of a scene or of all rows is the number of distinct tasks, or of assets, that it counts |
| SummaryMeaning.StatusMeans | internal/store/postgres.go:1642-1698 | each scene status by the set of task statuses, retries and assets; the cases exclude each other and leave nothing out |
| Delivery.EnrichScene | internal/app/service.go:494-512 | every asset gets the role its scene gives it, in place, and nothing else changes |
| Delivery.EnrichIsIdempotent | internal/app/service.go:208-209 | enriching again changes nothing |
| Delivery.SceneDelivers | internal/app/service.go:494-557 | a scene has a final asset if and only if one of its assets is selected |
| Delivery.BuildFinalDelivery | internal/app/service.go:373-446 | final assets are the scenes' final assets in order, the stories are those listed followed by those that only scenes mention, each holds exactly its scenes, all counters match |
| Delivery.StoriesHoldTheirScenes | internal/app/service.go:387-440 | with distinct story ids each story holds the subsequence of scenes with its id |
| Delivery.RegroupingAddsUp | internal/app/service.go:416-445 | the stories' counters add up to the manifest's |
| Delivery.DeliveredIffSelected | internal/app/service.go:396-417 | from the raw scene to the manifest: delivered if and only if something is selected |
| SummaryDelivery.DeliveryMatchesSummary | internal/app/service.go:196-209 | the delivery of every summary has the summary's stories in their order, none started by a scene, each with the scenes listed for it, and all its counters; scenes with something to deliver are those with a primary asset plus those with only published ones |
| SummaryDelivery.DeliverSummary | internal/app/service.go:199-209 | from the rows of the query to a manifest that matches the summary of those rows; the final assets of each scene are, in row order, exactly its approved and published ones, without an original that has such an edit in the scene |
| SummaryDelivery.FinalsAreRows | internal/app/service.go:494-557 | that statement for one scene |
| SummaryDelivery.RoleOfRow | internal/app/service.go:514-557 | the role of an asset in terms of the rows: delivered, or else an edit, or else an original |
| EventStream.ReadEvents | internal/provider/openai_compatible.go:963-989 | the buffering loop hands over exactly the events that the stream defines, up to the first bad one or a read error |
| EventStream.ProcessBlock | internal/provider/openai_compatible.go:991-1010 | a block's data is its data values joined and trimmed |
| EventPrinter.StreamIsDispatched | internal/provider/openai_compatible.go:963-1010 | reading a printed stream dispatches the data of its blocks in order, and that of an unfinished last block if the input just ends |
| EventPrinter.RoundTrip | internal/provider/openai_compatible.go:963-1010 | printing payloads in any of the permitted ways and reading them back gives exactly those payloads in order; a payload is any trimmed text without carriage returns other than the empty one and the closing marker that the consumer accepts |
| EventPrinter.RefusedEventStops | internal/provider/openai_compatible.go:1001-1010 | for every input: a consumer that refuses some event gets exactly those before the first one it refuses, and the reading fails |
| EventPrinter.ReaderKeepsPayloads | internal/provider/openai_compatible.go:963-1010 | the two together, also for a stream that breaks off: all complete blocks are handed over in order up to the first refused one, and the unfinished one is lost |
| EventPrinter.PayloadLinesArePrintable | internal/provider/openai_compatible.go:991-1010 | every payload without carriage returns can be printed |
| StoryChain.SelectsNamedPanel | internal/app/story_continuity.go:389-416 | the selected panel is the first one with the named scene, else with the named index, and selection fails only if the plan has none |
| StoryChain.LinkPinsPanel | internal/app/story_continuity.go:482-508 | the link check accepts a previous asset if and only if what its task recorded can be completed to the metadata of the panel right before |
| StoryChain.ChainIsWholeIff | internal/app/story_continuity.go:482-508 | in every run, disciplined or not, the chain of an accepted panel n visits panels n, n-1, ..., 1 of one story and project and ends if and only if n is 1 or the predecessor's task recorded a story and an index and has such a chain; equivalently, every task on the predecessor's chain was checked at its own creation or recorded story, index and a fitting link |
| StoryChain.UnrecordedPanelSlipsThrough | internal/app/story_continuity.go:482-508 | for every n above 1 a run accepts panel n after a task that is no panel, so that its chain does not visit n, ..., 1 |
| StoryChain.PrepareStoryContext | internal/app/story_continuity.go:119-225 | accepts exactly the fitting requests and records story, scene, panel and, above panel 1 only, the previous asset; the reason of a refusal is true of the request |
| StoryChain.AcceptedIff | internal/app/story_continuity.go:135-186 | a request is accepted if and only if it names a story and a panel and, where panels go one after the other, selects manually, asks for few enough candidates and names, in the order binding, metadata, image, a selected asset in scope that may be the panel before; that story, panel and asset are recorded |
| StoryChain.LinksAreSelected | internal/app/story_continuity.go:158-186 | every recorded link was approved or published and in scope when it was accepted |
| StoryChain.PanelsChain | internal/app/story_continuity.go:119-225 | over every disciplined run, the links of panel n visit panels n, n-1, ..., 1 of the same story and project, all of them checked, and end there |
| StoryChain.ChainNeverChanges | internal/app/story_continuity.go:190-218 | no later step changes the chain of an accepted panel |
| RateLimiter.BucketKeyIsInjective | internal/httpapi/ratelimit.go:63-63 | a bucket's key determines the limited key and the window |
| RateLimiter.RedisRateLimiter.Allow | internal/httpapi/ratelimit.go:50-74 | without a limit or a window every call passes; otherwise the counter decides, and in windows of whole milliseconds a call passes exactly if fewer than the limit were made with its key in its window |
| RateLimiter.ExactIffWholeMilliseconds | internal/httpapi/ratelimit.go:27-33 | the counters admit exactly the first calls of each window, for every history and limit, if and only if the window is a whole number of milliseconds |
| RateLimiter.WindowAdmitsExactlyTheLimit | internal/httpapi/ratelimit.go:27-33 | each window admits as many of its calls as the limit allows, in every history, if and only if the window is a whole number of milliseconds |
| RateLimiter.AtMostTwiceTheLimit | internal/httpapi/ratelimit.go:50-74 | no interval as long as a window admits more than twice the limit, in any history, if and only if the window is a whole number of milliseconds |
| RateLimiter.WaitingHelps | internal/httpapi/server.go:1477-1486 | waiting the advertised whole seconds always ends in a later window, less than a second late |

## Left out

- TaskSafety.NoTaskIsLost: assumes, with all results about the task protocol, that processes do not stop half way, store and Redis calls do not fail, a held lock does not expire, a repair's read and write are one step and tasks are not deleted while being processed; and, with `TaskProgress.EveryTaskCanSettle`, that a worker that scheduled a retry unlocks before it falls due. The due time is the millisecond score, which truncation can place up to a millisecond early.
- TaskSteps.RunKeepsInv: the worker loop and the processing of a task are steps of a transition system instead of methods, because their interleaving is the point; metrics, log lines and idle waiting are not modelled, and whether a provider error is retryable is an arbitrary input.
- WorkQueue.RedisQueue.LockTask: a lock never expires, where Redis drops it after ten minutes.
- WorkQueue.RedisQueue.PromoteScheduled: leaves ties between equal scores open, where Redis orders by member.
- Store.RepeatedCreationAddsNothing: takes the scope check, the key look-up and the insert as one step, so the race that the unique index resolves is not modelled; nor is the path that marks a task whose enqueue failed.
- Store.PostgresStore.ReviewAsset: takes the read before a review and the transaction that follows as one step.
- Store.PostgresStore.ApplyBestOfSelection: takes the read of the chosen asset and the transaction that follows as one step, too.
- StoreInvariants.OperationKeepsConsistency: does not model version numbers, as only first versions are inserted (`StoreInvariants.OperationKeepsVersions` shows that there is only one per asset), nor seed data, whose inserts can mix scopes. Random ids are fresh and distinct, hashes are not modelled.
- ProviderSplit.GenerateSplit: adapters are arbitrary answers; metrics, raw payloads and the joining of request ids, which drops ids that occur within others, are not modelled.
- ProviderSplit.AdapterTakesEveryShare: service and adapter see the same decoded limits; an input on which only one of the two parses fails is not modelled.
- Cleanup.SurvivorsAreWhole: assumes that no file store is in flight from reading the known paths to the end of the walk. Removing whole scope directories and the final-delivery mirror are not modelled, and previewed candidates are any permitted subset, so limits and filters are not.
- CleanupReport.Cleaning.DeleteStorageKey: takes keys as files below the root; resolving and rejecting unsafe keys is not modelled.
- BestOf.ScoreBestOfCandidate: scores are arbitrary integers, thousandths of the rounded score; image area, aspect ratio and the hash tie-breaker are not computed.
- StorySummary.FoldRows: target paths, continuity, visual context, regeneration fields and URLs of a scene are not modelled, scene orders are the derived ones, times count from Go's zero time, and counters are multisets of counter names instead of records of integers.
- BatchSummary.Summarize: leaves out the same fields.
- Delivery.BuildFinalDelivery: copied descriptive fields of scenes and assets are not modelled, nor are the engineering view of the manifest and the task fields that enrichment fills, except for the provider error summary.
- EventStream.ReadEvents: whether a payload is a valid JSON object, and whether its consumer accepts it, is an abstract predicate.
- StoryChain.PanelsChain: assumes that the predecessors of chained panels come from panel tasks with an index of at least 1 that require theirs.
- StoryChain.PrepareStoryContext: other reference bindings, warnings, prompts and other metadata keys are not modelled, and the keys that are form a record whose empty fields stand for absent ones.
- RateLimiter.RedisRateLimiter.Allow: the backend does not fail, reading the clock and running the script are one step, and one limiter is used with one window.
- StoryOrder.PrecedesIsTotal: strings are ordered by character, which agrees with Go's order on valid UTF-8.
- HTTP routing, authentication, audit, the MCP and command-line tools, configuration and the web front end are input and output or would add only easy members.
- Image encoding, thumbnails, provider protocols and multipart bodies are foreign code.
- Access-key and profile normalisation, query limits, percentile helpers, storage usage scans and the batch progress view would add only easy members.
