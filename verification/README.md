# Agnivo, modelled in Dafny

A model of the stateful parts of Agnivo: the durable job queue and its worker,
the worker pool, the event bus and its retries, the generic SQL repository, the
circuit breaker, the cache, the in-memory rate limiter, the deployment record
and pipeline, password hashes, server-sent events, slugs and usage metering.

`dafny verify dfyconfig.toml` checks all of it.

How the pieces are modelled:

- A SQL statement is one atomic transition on a table held as a map or a
  sequence. Time, random identifiers, row locks held by others and every outside
  answer are parameters, so each theorem holds whatever they are.
- Code that changes an object step by step is a class whose methods are proved
  against step functions; the theorems are about runs of those functions.
- Concurrency is a state machine over the atomic steps (critical sections,
  channel operations, single statements), and the theorems are about every
  interleaving.
- What rows hold is told twice. Beside the step functions of the job queue, its
  fake, the repository and the deployment record stands an account made from the
  operations alone, field by field, and every run is proved to agree with it
  (`JobHistory`, `FakeJobs.FakeAsTold`, `RepositoryHistory`, `DeploymentHistory`);
  the cache and the breaker are likewise tied to what the calls made so far, and
  their times, say (`Cache.AnswersExactly`, `CircuitBreaker.RefusedExactly`).
- SQL text, hash strings and event streams are real strings, read back by
  independent readers: a SQL reader with three-valued evaluation, the parser the
  code itself uses for hashes, and the reader of sections 9.2.5 and 9.2.6 of the
  WHATWG HTML standard.

## What holds only under a condition

Each of these is proved, with the condition or a concrete run.

- Leases. As long as only live claims finish or abort, at most one claim per job
  is live throughout a run exactly when every heartbeat was alone when made: it
  missed, or no other claim on its job was live (`JobLeases.ExclusiveExactly`). The
  heartbeat statement compares only the worker's name, so a worker that reclaims
  its own expired job gets two live claims from the empty table
  (`JobLeases.TwoLiveClaims`); one that heartbeats only its newest claims is always
  alone (`JobLeases.NewestIsAlone`). Complete and Fail carry no guard, so claims
  that are no longer live move terminal jobs (`JobLeases.UnguardedOnTerminal`).
- Worker. A claimed job can wait for a slot, its lease running, without a
  heartbeat (`JobWorker.ClaimedJobsWait`). A stopped worker has made one settling
  call for every job it claimed, but the call uses the worker's own context: it
  lands exactly when it is made, and answered, before cancellation
  (`JobWorker.LandsExactly`, `JobWorker.SuccessUnrecorded`). Exactly the other rows
  are left running under its name and come back when their leases run out
  (`JobShutdown.LeftRunningExactly`, `JobShutdown.OrphansComeBack`).
- Pool. A Close returns without waiting exactly when it finds the channel closed
  under the lock (`Pool.EarlyReturnExactly`), and a run from any new pool has a
  task accepted and still running by then (`Pool.SecondCloseOverRunningTask`).
  When nothing more can happen an accepted task has not run exactly when it is
  still queued, all workers having left after a cancellation from outside
  (`Pool.UnrunExactly`); after Stop a Submit can still say nil to such a task
  (`Pool.AcceptedAfterStop`).
- Conditions. A `?` in a column name shifts every later placeholder
  (`ConditionRoundTrip.OneMarkPerArgument` counts them).
- Optimistic locking. A plain Update in between, or deleting and re-inserting
  the key, goes unnoticed (`Repository.PlainUpdateIsLost`,
  `Repository.ReinsertIsLost`). A foreign write is harmless exactly when it changes
  no row whose current version a client still holds, and gives a row no version a
  client holds with other fields (`Repository.SafeExactly`,
  `Repository.UnsafeLosesUpdate`). An UpdateOptimistic with no values, or naming
  the version column, is text the database refuses.
- Cursor pages. Repetition needs an empty key, the limit 1 and ascending order
  (`Pagination.RestartExactly`); every other walk is complete
  (`Pagination.WalkComplete`).
- Rate limiter. The bound over any closed window is 2 * limit - 1, which is
  reached (`RateLimit.AnyWindow`, `RateLimit.WindowBoundMet`).
- Breaker. halfOpenMax + 1 probes, reached (`CircuitBreaker.ProbeBoundTight`); a
  late success closes an open breaker early (`CircuitBreaker.OpenLeftEarly`), and
  only that admits anybody before the open period is over
  (`CircuitBreaker.OpenPeriod`).
- Cache. The lazy delete loses an entry set in between
  (`Cache.FreshEntryLost`), and the cache is exact throughout a run exactly when no
  lazy delete in it does (`Cache.ExactThroughout`); callers share results with other keys exactly when
  two keys print alike (`SingleFlight.OwnResultsIffInjective`).
- Fake queue. It picks what the durable queue could pick exactly when insertion
  order puts the right jobs first (`FakeJobs.PickValidExactly`).
- Event bus. A cancelled context dead-letters handlers that were never called
  (`EventBus.CalledUnlessCancelled`). An event published under the name `*`
  finds each wildcard handler twice (`EventBus.InMemory.Matching`).
- Server-sent events. Exactly the events without carriage return, without line
  breaks in id and type and without NUL in the id survive (`Sse.RoundTripExactly`).
- Passwords. Verify ends on every input exactly when the dummy hash decodes
  (`Password.TotalExactly`). The key derivation may panic for some parameters a
  stored hash can carry; that shows as the outcome `Panics`.
- Slugs. A name without letters and digits gives "" and then "-1"
  (`Slug.SlugExactly`, `Slug.CandidateGrammar`).
- Deployment record. A terminal row without a finish time is exactly one created
  terminal and never touched (`DeploymentRecord.UnfinishedExactly`). Timeline
  entries carry the start of their transaction, so the listing can end with a
  status the row no longer has (`DeploymentRecord.ListedOutOfOrder`); it cannot
  exactly when every entry with the latest time carries the row's status
  (`DeploymentRecord.ListedLastExactly`). Cancelled
  is left by UpdateStatus and MarkRolledBack (`DeploymentRecord.CancelledLeftExactly`).
- Pipeline. With no call failing, nobody else writing, no cancellation and a
  container that becomes healthy, every startable job succeeds and leaves only its
  own containers standing (`PipelineTrace.OnlyOwnStands`), provided the driver gave
  the new container an id not in use. A deploy attempt that recorded any status is never retried to the
  point of creating a container; a rollback job is not held back by readiness.
  A finished rollback ends live, not rolled_back, unless its last update failed.
  A deployment cancelled by RunCancel has its containers marked removed even
  when the driver failed to remove them.
- Usage. Rollups equal raw usage while raw rows are only added; after
  `gc.go:145-153` has deleted raw rows, stale rollups stay in the total
  (`Usage.UsageAfterRollup`). A quota check sees usage as of the last rollup
  (`Quota.UnrolledUsageUnseen`).

Two assumptions stand behind results above. Guarded functions of the breaker do
not panic: a panicking one skips `afterCall`, and a half-open breaker would wait
for it for ever. And while a pipeline run lasts nobody else adds, removes or marks
containers of its project, so the drain result is silent about two deploys of one
project at once; the deployment record, by contrast, may change at every call.

Where code and comments disagree the code is followed: RunCancel is described as
marking the deployment cancelled, and it does not write the record; the pool's
Close is described as waiting, and a repeated Close does not.

## Model

| member | source | states |
|---|---|---|
| Jobs.Queue.Enqueue | packages/platform/jobs/queue.go:34-63 | under a key already present in the queue the table is unchanged and the present row is returned; otherwise exactly the new row is added; every table stays well formed |
| Jobs.Queue.Dequeue | packages/platform/jobs/queue.go:70-107 | given any legal choice of the claiming subselect (JobHistory.ClaimsMostUrgent says which are), exactly those rows become running, leased and one attempt older, and they are what is returned |
| Jobs.Queue.Complete | packages/platform/jobs/queue.go:111-122 | the row, whatever its state, becomes succeeded with lease and error cleared; a missing row is NotFound |
| Jobs.Queue.Fail | packages/platform/jobs/queue.go:128-157 | the row, whatever its state, becomes dead when attempts are used up and pending after the backoff otherwise |
| Jobs.Queue.Heartbeat | packages/platform/jobs/queue.go:162-174 | extends the lease iff the row is running and leased under the worker's name, Conflict otherwise |
| Jobs.Queue.PurgeCompleted | packages/platform/jobs/queue.go:178-185 | deletes exactly the succeeded rows older than the age and counts them |
| Jobs.PickExists | packages/platform/jobs/queue.go:80-92 | whatever rows others have locked, some choice satisfies the claim's order, limit and eligibility |
| Jobs.ReachableTable | packages/platform/jobs/queue.go:34-184 | in every run with no discipline at all: running iff leased, pending below max attempts, dead at or above, one row per queue and key |
| Jobs.ClaimsBounded | packages/platform/jobs/queue.go:74-92 | per job, claims from pending plus attempts left never exceed the attempts granted; reclaims add none |
| Jobs.TotalClaimsBounded | packages/platform/jobs/queue.go:74-92 | the sum of max_attempts - attempts over any jobs bounds all their non-reclaim claims together |
| Jobs.KeyDedupes | packages/platform/jobs/queue.go:46-62 | until a purge, a keyed row stays and every later enqueue under its key changes nothing, over whole runs |
| JobHistory.ClaimsMostUrgent | packages/platform/jobs/queue.go:74-92 | in every run, whatever rows are locked, a claim takes only due jobs, at most the limit and fewer only if it takes all; a due unlocked job left behind has no higher priority than any taken, and at equal priority became available no earlier |
| JobHistory.ElderFirst | packages/platform/jobs/queue.go:88 | of two due jobs of equal priority a claim of one can only take the elder |
| JobHistory.RowsAsTold | packages/platform/jobs/queue.go:34-185 | in every run each row is there, and each of its columns is, exactly what the inserts, claims, extensions, settlements and purges of that job and their times say: attempts counted, lease and retry times to the tick, type and payload as enqueued |
| JobLeases.ExclusiveExactly | packages/platform/jobs/queue.go:70-174 | in every interleaving of claims, heartbeats, settlements by live claims, enqueues, purges and ticks, at most one claim per job is live at every point iff every heartbeat, when made, missed or found no other live claim on its job |
| JobLeases.ExclusiveLease | packages/platform/jobs/queue.go:70-174 | corollary: in every such run from the empty table two live claims on one job are the same claim |
| JobLeases.StepExactly | packages/platform/jobs/queue.go:70-174 | one step of it: among steps by live claims exactly a crowded heartbeat ends exclusivity, and every other step keeps all that later steps need |
| JobLeases.HeartbeatGuardExact | packages/platform/jobs/queue.go:162-174 | its heartbeat case: no two live claims share a job afterwards iff it missed or no other claim on its job was live |
| JobLeases.StrictStep | packages/platform/jobs/queue.go:70-174 | workers that heartbeat only their newest claims meet that condition at every step, and go on meeting it |
| JobLeases.HeartbeatBooksExact | packages/platform/jobs/queue.go:162-174 | that every live claim is its job's newest survives a heartbeat iff it comes from the newest claim |
| JobLeases.SelfReclaimBreaksLease | packages/platform/jobs/queue.go:162-174 | a superseded heartbeat of the same worker makes two claims live at once |
| JobLeases.SelfReclaimReachable | packages/platform/jobs/queue.go:70-174 | that situation, both claims on one job, is reached by a disciplined run: enqueue, claim, expiry, claim |
| JobLeases.TwoLiveClaims | packages/platform/jobs/queue.go:70-174 | from the empty table, that run and one heartbeat of the old claim end with two live claims on one job |
| JobLeases.TerminalForever | packages/platform/jobs/queue.go:111-157 | in every run with live settlements and uncrowded heartbeats a succeeded or dead row never changes, and a dead one is never purged |
| JobLeases.UnguardedOnTerminal | packages/platform/jobs/queue.go:111-157 | what undisciplined Complete and Fail do to terminal rows, and when Fail makes a succeeded job claimable again |
| JobWorker.Worker.Process | packages/platform/jobs/worker.go:148-192 | a job is settled by Complete iff its type has a handler that returned nil; missing handlers, errors and panics settle by Fail after the configured backoff, an error with its own cause and a panic with its value |
| JobWorker.DefaultBackoffBounded | packages/platform/jobs/worker.go:57-59 | the backoff used when none is configured stays between zero and ten minutes |
| JobWorker.DefaultBackoff | packages/platform/jobs/worker.go:57-59 | it is a random share of one second doubled with every attempt, capped at ten minutes |
| JobWorker.OneSettlingCall | packages/platform/jobs/worker.go:94-143 | in every interleaving at most concurrency jobs run at once, none gets two settling calls, and a stopped worker has made exactly one for every claimed job |
| JobWorker.LandsExactly | packages/platform/jobs/worker.go:148-182 | in every run a settling call lands iff it was made before cancellation and answered |
| JobWorker.SuccessUnrecorded | packages/platform/jobs/worker.go:94-182 | a run whose only job succeeds after cancellation and is recorded nowhere |
| JobShutdown.LeftRunningExactly | packages/platform/jobs/worker.go:94-182 | in every run of worker, table and other clients, who may retry every job this worker is not busy with, its newest claim on a job still holds the row iff its settling call was not made and answered before cancellation |
| JobShutdown.OrphansComeBack | packages/platform/jobs/worker.go:94-182 | such a row of a stopped worker is still leased to it and becomes eligible exactly when the lease has run out |
| JobWorker.ShutdownProgress | packages/platform/jobs/worker.go:94-143 | after cancellation some step of the worker or its jobs is always enabled until it has stopped |
| JobWorker.ShutdownEnds | packages/platform/jobs/worker.go:94-143 | every schedule after cancellation is finite and, run as far as it goes, ends stopped |
| JobWorker.ClaimedJobsWait | packages/platform/jobs/worker.go:125-141 | even with one slot and batches of one a claimed job can wait for the slot while another runs |
| FakeJobs.FakeJobQueue.Enqueue | packages/platform/testkit/fakejobs.go:28-75 | the same table change as the durable Enqueue, and the insertion order grows exactly when a row is added |
| FakeJobs.FakeJobQueue.Dequeue | packages/platform/testkit/fakejobs.go:78-114 | claims exactly the first limit eligible jobs in insertion order and returns them by descending priority and then ascending availability |
| FakeJobs.TakesOldest | packages/platform/testkit/fakejobs.go:83-112 | the jobs taken are due, none is taken while one inserted earlier and due is left, and they are fewer than a positive limit only when no due job is left |
| FakeJobs.FakeAsTold | packages/platform/testkit/fakejobs.go:28-156 | in every run of the fake each row is what its job's events say, by the durable queue's account but for two rules: negative durations count as given, and a completed job keeps its last error |
| FakeJobs.PickValidExactly | packages/platform/testkit/fakejobs.go:83-112 | that choice is legal for the durable queue iff the limit is positive (or nothing is eligible) and no job left out precedes one taken |
| FakeJobs.RoomForAll | packages/platform/testkit/fakejobs.go:83-112 | with room for all eligible jobs the choice is always legal for the durable queue |
| FakeJobs.TakesLessUrgent | packages/platform/testkit/fakejobs.go:83-112 | with limit 1 the fake takes the less urgent job inserted first, which the durable queue never does |
| FakeJobs.Simulates | packages/platform/testkit/fakejobs.go:28-156 | every tame run of the fake is a legal run of the durable queue ending in the same table, last errors aside |
| Pool.NoPanic | packages/platform/pool/pool.go:45-120 | no interleaving of Submit, Close, Stop and workers sends on or closes the closed channel |
| Pool.AtMostOnce | packages/platform/pool/pool.go:64-97 | no task runs twice and none runs whose Submit was refused, even after Stop |
| Pool.ExactlyOnce | packages/platform/pool/pool.go:45-113 | without outside cancellation, when the draining Close has returned every accepted task has run exactly once |
| Pool.EarlyReturnExactly | packages/platform/pool/pool.go:101-113 | in every run a Close has returned without draining iff it found the channel closed when it held the lock |
| Pool.UnfinishedExactly | packages/platform/pool/pool.go:64-97 | in every run an accepted task has not run iff it is queued or in a worker's hands |
| Pool.SecondCloseOverRunningTask | packages/platform/pool/pool.go:85-113 | from any new pool, a run in which a second Close is back while an accepted task is still running |
| Pool.SecondCloseReturnsEarly | packages/platform/pool/pool.go:101-113 | one Close on a closed channel, step by step: it changes nothing but itself |
| Pool.Progress | packages/platform/pool/pool.go:64-113 | while a Submit or Close is open some step of the pool is enabled |
| Pool.SchedulesEnd | packages/platform/pool/pool.go:64-113 | every schedule of the calls already made is bounded by a rank |
| Pool.EveryCallReturns | packages/platform/pool/pool.go:64-113 | a schedule that cannot go on has every Submit and Close returned |
| Pool.UnrunExactly | packages/platform/pool/pool.go:64-120 | when a schedule cannot go on, an accepted task has not run iff it is still in the channel, and then every worker left after an outside cancellation |
| Pool.AcceptedAfterStop | packages/platform/pool/pool.go:85-120 | from any new pool with room, a run that stops it, lets every worker leave and then accepts a task nobody can take |
| Pool.SubmitAfterStopCanBeLost | packages/platform/pool/pool.go:85-97 | one step of it: with the workers gone both outcomes of the select are open, and the send is lost |
| Retry.Do | packages/platform/retry/retry.go:79-110 | calls exactly the attempts up to the first that ends the run and reports that attempt's outcome; a cancelled context ends it before or between calls |
| Retry.SucceedsExactly | packages/platform/retry/retry.go:93-109 | success is reported iff some allowed attempt, three by default, succeeded while every one before it failed in a retryable way, undisturbed |
| Retry.DecidedBy | packages/platform/retry/retry.go:79-126 | the first attempt not followed by another decides: cancellation before the call or during the pause is reported as such, anything else is the outcome of the call, and the number of calls is exact |
| Retry.GrownIsCapped | packages/platform/retry/retry.go:36-57 | capping base * factor^n equals growing by the factor and capping at every step |
| Retry.DelaysCappedAndMonotone | packages/platform/retry/retry.go:36-57 | delays are non-negative, never above a set maximum, and without jitter never shrink |
| Retry.MaxIsReached | packages/platform/retry/retry.go:36-57 | for every factor a set maximum is reached after finitely many attempts and kept |
| Retry.GrowsByFactor | packages/platform/retry/retry.go:40-48 | before capping the delay is the base, fifty milliseconds by default, times the factor, two by default, per attempt |
| Retry.DoublingDelays | packages/platform/retry/retry.go:36-57 | with the factor two every delay is the base doubled that often, capped, and under jitter a share of it |
| EventBus.InMemory.Matching | packages/platform/events/bus.go:108-117 | the handlers of the name in subscription order, then those of the wildcard |
| EventBus.InMemory.Subscribe | packages/platform/events/bus.go:101-105 | appends the handler under its name and leaves every other name alone |
| EventBus.InMemory.Publish | packages/platform/events/bus.go:122-134 | every matching handler is delivered to regardless of the others; dead letters and joined errors are those of the failed deliveries, in order |
| EventBus.InMemory.PublishAsync | packages/platform/events/bus.go:140-154 | the deliveries enqueued are the longest prefix the pool accepts, and an error is returned iff it is not all |
| EventBus.DeadLettersExactly | packages/platform/events/bus.go:122-172 | dead letters correspond one to one, in order, to exactly the handlers that finally failed, each with event, handler name and error |
| EventBus.CalledUnlessCancelled | packages/platform/events/bus.go:157-172 | corollary of Retry.Do: at most MaxAttempts calls; at least one iff the context was alive; otherwise the handler fails uncalled |
| EventBus.StopsForGood | packages/platform/events/bus.go:157-172 | after a success or an invalid-argument error there is no further call, and that outcome is final |
| EventBus.RetriesTheRest | packages/platform/events/bus.go:157-172 | every other error is retried until an attempt succeeds or MaxAttempts, three by default, are used up |
| Conditions.Combine | packages/platform/repository/condition.go:52-66 | the loop drops empty operands, parenthesises and joins the rest and concatenates their arguments |
| Conditions.Build | packages/platform/repository/condition.go:72-89 | every mark is replaced by the next number from start, arguments unchanged, and an empty condition gives nothing |
| WhereReader.ThreeValued | packages/platform/repository/condition.go:45-66 | the AND and OR the reader evaluates are those of SQL: a no, or a yes, decides, otherwise an unknown does |
| WhereReader.OneOfExactly | packages/platform/repository/condition.go:33-42 | the IN the reader evaluates is yes iff some member equals and no iff every member differs |
| ConditionMeaning.CompilePruned | packages/platform/repository/condition.go:24-66 | a tree compiles as its pruned form, and to nothing iff pruning leaves nothing |
| ConditionRoundTrip.OneMarkPerArgument | packages/platform/repository/condition.go:24-89 | the clause has one mark per argument plus one for each stray mark in a column name |
| ConditionRoundTrip.MarksInOrder | packages/platform/repository/condition.go:72-89 | the placeholders are start, start+1, and so on, in argument order |
| ConditionRoundTrip.BuildMeansTree | packages/platform/repository/condition.go:24-89 | the text read back as SQL with its arguments bound evaluates, in three-valued logic and on every row, as the tree with empty operands dropped |
| Statements.SortedKeys | packages/platform/repository/repository.go:284-313 | the columns are the map's keys in ascending order |
| Order.AscendingUnique | packages/platform/repository/repository.go:284-313 | so the column order does not depend on map iteration |
| Order.LessExactly | packages/platform/repository/repository.go:284-313 | that order is byte-wise: the proper beginning, or the string with the smaller character at the first difference, comes first |
| Statements.BuildSet | packages/platform/repository/repository.go:300-313 | one assignment per column, numbered after the offset and lined up with its value |
| Statements.SplitValues | packages/platform/repository/repository.go:284-297 | columns, placeholders and arguments of an INSERT line up |
| Queries.Update | packages/platform/repository/repository.go:187-207 | the text read back assigns exactly the given values, restricts to the named live row, and uses placeholders 1..n once each in order |
| Queries.UpdateOptimistic | packages/platform/repository/repository.go:212-244 | likewise with the expected version tested and the version bumped; with no values or the version column among them the text is refused |
| Queries.BumpedSetMeans | packages/platform/repository/repository.go:216-229 | a SET list with the version bump is accepted iff the values do not name the version column |
| Queries.BulkUpdateByIDs | packages/platform/repository/bulk.go:93-111 | every live row with a listed key gets exactly the values, each placeholder once; nothing is sent for no ids or no values |
| Queries.PaginateSql | packages/platform/repository/pagination.go:32-56 | the page query's WHERE means the condition and liveness, its last two arguments are page size and offset |
| Queries.CursorSql | packages/platform/repository/pagination.go:96-121 | the cursor query's WHERE means the condition, the cursor comparison and liveness, ordered by the key, with the limit plus one as last argument |
| Queries.CursorRows | packages/platform/repository/pagination.go:101-116 | a row qualifies iff it meets the condition, lies strictly past the cursor in the chosen direction and is live |
| BulkUpsert.Upsert | packages/platform/repository/bulk.go:36-88 | the nested loops produce one tuple per row, the arguments row by row, and the conflict action |
| BulkUpsert.UpsertLayout | packages/platform/repository/bulk.go:36-88 | the VALUES list reads back as one tuple per row whose mark in each column is bound to that row's value |
| Repository.Repository.UpdateOptimistic | packages/platform/repository/repository.go:212-244 | commits iff the live row still has the expected version, Conflict otherwise |
| Repository.Repository.SoftDelete | packages/platform/repository/repository.go:258-269 | marks exactly a live row, and says whether there was one |
| Repository.NoLostUpdate | packages/platform/repository/repository.go:168-269 | in every interleaving of readers, committers, inserts and soft deletes, for every key present or inserted on the way, the version counts the successes, each success replaced exactly the state its client had read, and the row holds all of them in order |
| Repository.SafeExactly | packages/platform/repository/repository.go:168-269 | from any state where readers and rows agree, any operation keeps the agreement iff a check made beforehand passes: no version held by a reader is left on, or given to, a row with other fields |
| Repository.UnsafeLosesUpdate | packages/platform/repository/repository.go:187-244 | that check fails iff afterwards some client could commit over a state it never read |
| Repository.SafeWritersLoseNothing | packages/platform/repository/repository.go:168-269 | in every run of safe operations, plain updates and deletes included, each success replaced what its client had read |
| Repository.PlainUpdateIsLost | packages/platform/repository/repository.go:187-244 | a plain update between read and commit is overwritten unnoticed |
| Repository.ReinsertIsLost | packages/platform/repository/repository.go:168-254 | deleting and re-inserting the key lets an old read commit onto the new row |
| RepositoryHistory.RowsAsTold | packages/platform/repository/repository.go:168-269 | in every run mixing inserts, commits, plain updates, soft and hard deletes, each row is there, visible, at its version and with every column exactly as the last write that went through says |
| RepositoryHistory.StaysDeleted | packages/platform/repository/repository.go:258-269 | a soft-deleted row is out of sight and unchanged by any later write until deleted for good |
| Pagination.PaginateCursor | packages/platform/repository/pagination.go:121-133 | the sentinel row is trimmed and becomes HasMore, the cursor is the last key kept |
| Pagination.PageExists | packages/platform/repository/pagination.go:96-134 | every table and cursor has a page |
| Pagination.NeverRepeats | packages/platform/repository/pagination.go:96-134 | no key is returned twice though rows come and go between pages |
| Pagination.NothingSkipped | packages/platform/repository/pagination.go:96-134 | a key present throughout a finished walk is returned |
| Pagination.FixedTableExact | packages/platform/repository/pagination.go:96-134 | over a fixed table a finished walk returns every row exactly once, in order, either direction |
| Pagination.WalkEnds | packages/platform/repository/pagination.go:96-134 | pages that promise more fit into the table, so the walk ends |
| Pagination.RestartExactly | packages/platform/repository/pagination.go:101-133 | a page's cursor is empty iff the walk is ascending with limit 1 and an empty key, on the first page |
| Pagination.WalkComplete | packages/platform/repository/pagination.go:96-134 | end to end: a walk that descends, takes two or more rows a page or meets no empty key returns keys strictly rising, or falling when descending, ends over a fixed table and then has returned every row |
| CircuitBreaker.CircuitBreaker.BeforeCall | packages/platform/resilience/circuitbreaker.go:75-96 | admission and new state, the step from open to half-open admitting without counting |
| CircuitBreaker.CircuitBreaker.AfterCall | packages/platform/resilience/circuitbreaker.go:98-114 | success closes; a half-open failure or the maxFailures-th failure opens, until openDuration later |
| CircuitBreaker.NeverStuck | packages/platform/resilience/circuitbreaker.go:75-114 | in every interleaving failures stay below the threshold, and a half-open breaker has a call in flight whose end leaves half-open |
| CircuitBreaker.ProbeBound | packages/platform/resilience/circuitbreaker.go:75-96 | a half-open period admits at most halfOpenMax + 1 calls |
| CircuitBreaker.ProbeBoundTight | packages/platform/resilience/circuitbreaker.go:84-93 | that many are admitted when they arrive together |
| CircuitBreaker.OpenLeftEarly | packages/platform/resilience/circuitbreaker.go:98-104 | one step: before its time an open breaker is left iff an earlier admitted call succeeds |
| CircuitBreaker.OpenPeriod | packages/platform/resilience/circuitbreaker.go:75-114 | in every interleaving after a trip at time T nobody is admitted before T + openDuration unless a call admitted earlier succeeds; without outcomes in between the first arrival from then on is admitted |
| CircuitBreaker.SequentialMeaning | packages/platform/resilience/circuitbreaker.go:66-114 | for sequential callers the breaker is open, until openDuration after the trip, iff the log of what callers saw says it tripped, and counts the failure streak otherwise |
| CircuitBreaker.TripsExactly | packages/platform/resilience/circuitbreaker.go:66-114 | a sequential call leaves it open iff it fails and is the probe made openDuration or later after the trip, or completes the streak |
| CircuitBreaker.RefusedExactly | packages/platform/resilience/circuitbreaker.go:75-114 | after any sequential calls the next is refused iff the log says the breaker tripped less than openDuration before it |
| CircuitBreaker.OpensAfterFailures | packages/platform/resilience/circuitbreaker.go:98-114 | exactly maxFailures consecutive failures open a fresh breaker, and then every call is refused for exactly openDuration |
| CircuitBreaker.AsConfigured | packages/platform/resilience/circuitbreaker.go:46-63 | five failures, thirty seconds and one further probe stand in, each on its own, for what the configuration leaves out |
| Cache.Cache.Get | packages/platform/cachex/cachex.go:48-62 | the unexpired value or nothing, and an expired entry is dropped |
| Cache.Cache.Purge | packages/platform/cachex/cachex.go:80-89 | drops exactly the expired entries |
| Cache.SequentialGetExact | packages/platform/cachex/cachex.go:36-89 | called one at a time, every Get agrees with a map that never evicts |
| Cache.AnswersExactly | packages/platform/cachex/cachex.go:36-89 | in every run a Get answers with the value of the last Set of its key, unless deleted since, exactly while ttl <= 0 or the clock is at most the time of that Set plus ttl, and misses otherwise |
| Cache.FoundExactly | packages/platform/cachex/cachex.go:36-62 | a value set at time a and read at time b, its key neither set nor deleted since, is found iff ttl <= 0 or b <= a + ttl |
| Cache.EvictsExactly | packages/platform/cachex/cachex.go:48-89 | after a Get of it, or a Purge, an entry is stored iff it is still good |
| Cache.HitsAreLatest | packages/platform/cachex/cachex.go:36-89 | with Get split into its steps and interleaved, a returned value is that of the latest Set before its read and unexpired at its check |
| Cache.ExactThroughout | packages/platform/cachex/cachex.go:36-89 | in every interleaved run the cache agrees with a never-evicting map at every point iff every lazy delete was harmless when made |
| Cache.ExactIffHarmless | packages/platform/cachex/cachex.go:48-62 | one step of it: only a lazy delete of a live entry ends the agreement |
| Cache.UnreplacedIsHarmless | packages/platform/cachex/cachex.go:48-62 | a lazy delete is harmless while the entry it read has not been replaced |
| Cache.FreshEntryLost | packages/platform/cachex/cachex.go:48-62 | a value set right after an expired read is lost to that read's delete |
| SingleFlight.OneLoadPerKey | packages/platform/cachex/cachex.go:94-116 | at most one load is in flight per key |
| SingleFlight.OwnResultsIffInjective | packages/platform/cachex/cachex.go:94-116 | every caller gets a value loaded for its own key, in all runs, iff no two keys print alike |
| SingleFlight.ResultsAreProduced | packages/platform/cachex/cachex.go:94-116 | every result handed to a caller came from a load, or a second look in the cache, of the same run |
| SingleFlight.CrossedKeys | packages/platform/cachex/cachex.go:94-116 | two keys printing alike share one load |
| RateLimit.RateLimiter.Allow | packages/application/proxy/middleware/edge.go:152-178 | the bucket is restarted after its expiry, counts the request, and passes it iff within the limit |
| RateLimit.BucketBound | packages/application/proxy/middleware/edge.go:152-178 | exactly min(count, limit) requests pass per bucket |
| RateLimit.AnyWindow | packages/application/proxy/middleware/edge.go:152-178 | for every monotone arrival sequence at most 2 * limit - 1 requests of one address pass in any closed interval as long as the window |
| RateLimit.WindowBoundMet | packages/application/proxy/middleware/edge.go:152-178 | an arrival sequence reaches that bound |
| DeploymentRecord.Repository.Create | packages/application/controlplane/deployment/repository.go:21-53 | inserts the row with the given or pending status, no times but creation, and its first timeline entry |
| DeploymentRecord.Repository.UpdateStatus | packages/application/controlplane/deployment/repository.go:98-120 | unguarded change of status with its started, finished and reason rules, and one entry |
| DeploymentRecord.Repository.UpdateBuildComplete | packages/application/controlplane/deployment/repository_build.go:23-49 | built with image and merged metadata unless cancelled or failed, and one entry |
| DeploymentRecord.Repository.MarkBuildFailed | packages/application/controlplane/deployment/repository_build.go:52-72 | failed unless cancelled or live, and one entry |
| DeploymentRecord.Repository.UpdateDeployComplete | packages/application/controlplane/deployment/repository_deploy.go:23-51 | live unless cancelled or failed, an empty image tag keeping the old one, and one entry |
| DeploymentRecord.Repository.MarkDeployFailed | packages/application/controlplane/deployment/repository_deploy.go:54-75 | failed unless cancelled or live, and one entry |
| DeploymentRecord.Repository.MarkRolledBack | packages/application/controlplane/deployment/repository_deploy.go:78-97 | unguarded rolled_back, and one entry |
| DeploymentRecord.Repository.IsReadyToDeploy | packages/application/controlplane/deployment/repository_deploy.go:111-124 | built or rolling_back with an image |
| DeploymentRecord.ReachableConsistent | packages/application/controlplane/deployment/repository.go:21-140 | in every run of the seven operations the last timeline entry has the row's status, and started_at is set iff a later entry is queued or building |
| DeploymentHistory.AsTold | packages/application/controlplane/deployment/repository.go:21-140 | in every run the operations that went through, and only they, make up the row and the timeline: image, runtime, failure reason, durations, finish time and each metadata key are those of the last operation that writes them, the start time that of the first, and each entry carries its operation's time, status and words |
| DeploymentHistory.AcceptedWhen | packages/application/controlplane/deployment/repository_deploy.go:23-97 | an operation goes through iff row and organisation match, completions not after cancelled or failed, failures not after cancelled or live |
| DeploymentHistory.ReadyExactly | packages/application/controlplane/deployment/repository_deploy.go:111-124 | in every run a deployment is ready iff its last operation completed the build or set built or rolling_back, and the last image written is not empty |
| DeploymentHistory.BuiltIsReady | packages/application/controlplane/deployment/repository_build.go:23-49 | after a completed build with an image, on a deployment neither cancelled nor failed, it is ready with that image until next touched |
| DeploymentRecord.UnfinishedExactly | packages/application/controlplane/deployment/repository.go:98-106 | a terminal row lacks finished_at iff it was created terminal and has a single entry |
| DeploymentRecord.StartedOnce | packages/application/controlplane/deployment/repository.go:101-106 | once set, started_at never changes, and rows are never lost |
| DeploymentRecord.CancelledLeftExactly | packages/application/controlplane/deployment/repository.go:98-115 | one step: a cancelled deployment changes status iff the operation is an UpdateStatus to another status or MarkRolledBack |
| DeploymentRecord.FailedLeftExactly | packages/application/controlplane/deployment/repository_deploy.go:23-97 | one step: the same two operations, and no others, leave failed |
| DeploymentRecord.StaysSpent | packages/application/controlplane/deployment/repository_deploy.go:111-124 | once past built and rolling_back a deployment is never ready again without a completed build or an explicit update back |
| DeploymentRecord.ListedLastExactly | packages/application/controlplane/deployment/repository.go:123-141 | in every run, every listing ListEvents may return ends with the row's status iff all entries with the latest time carry it |
| DeploymentRecord.ListedInOrder | packages/application/controlplane/deployment/repository.go:123-141 | corollary: when transactions start in commit order the listing is the commit order |
| DeploymentRecord.ListedOutOfOrder | packages/application/controlplane/deployment/repository.go:123-141 | a run whose listing ends with a status the row no longer has |
| DeploymentRecord.ReopenedKeepsFinish | packages/application/controlplane/deployment/repository_build.go:29-43 | one step: which operations make a finished row non-terminal again while its finish time stays |
| Health.CheckOnce | packages/application/deploy/health/checker.go:87-122 | a probe succeeds iff the dial does and no HTTP answer outside 200..399 came |
| Health.Checker.WaitUntilHealthy | packages/application/deploy/health/checker.go:33-85 | writes the defaults into its configuration and ends after the first deciding probe, cancellation or deadline |
| Health.Poll | packages/application/deploy/health/checker.go:55-84 | the loop's counters, doubling pauses and clock decide exactly as the streaks of the results do |
| Health.HealthyExactly | packages/application/deploy/health/checker.go:50-84 | healthy is reported iff, in time and uncancelled, the results end in SuccessThreshold successes with no earlier run of either threshold |
| Health.EndsOnce | packages/application/deploy/health/checker.go:50-84 | number of probes and outcome are determined by the world |
| Health.JudgedAfter | packages/application/deploy/health/checker.go:33-84 | a container that always answers alike is judged healthy or unhealthy after exactly the configured number of probes, one and three by default, time permitting |
| Health.TimesOutExactly | packages/application/deploy/health/checker.go:44-84 | time is up iff the probes decide nothing and the startup timeout, five minutes by default, has passed |
| Health.ProbesBounded | packages/application/deploy/health/checker.go:44-83 | the pauses bound the number of probes, at most fourteen under the default timeout |
| Pipeline.Pipeline.Launch | packages/application/deploy/strategy/strategies.go:9-24 | exactly one container is created, only it is started or removed, a failed start removes it, and a failure is recorded against the deployment |
| Pipeline.Pipeline.DrainContainers | packages/application/deploy/rollback/engine.go:60-69 | only the given containers are stopped and removed, each is reported drained or its removal failed, and when nothing fails all are, in order |
| Pipeline.Pipeline.SwitchAndDrain | packages/application/deploy/executor/pipeline.go:269-291 | success means traffic was switched and the project's containers were listed; after a listing every standing container of the project is this deployment's, or its removal or its mark failed; when nothing fails exactly the other deployments' standing containers are stopped, removed and marked |
| Pipeline.Pipeline.Finish | packages/application/deploy/executor/pipeline.go:293-323 | when nobody else writes, success leaves the deployment live; a rollback rolled_back only when its last update failed; when nothing fails it succeeds, live and with its own image |
| Pipeline.Pipeline.Admit | packages/application/deploy/executor/pipeline.go:108-159 | nothing is done for a missing id, a missing row, a cancelled deployment or a deploy that is not ready; when nothing fails every startable job is let in with its own image, or the artifact's if it has none |
| Pipeline.Pipeline.Run | packages/application/deploy/executor/pipeline.go:98-323 | in every run and on every exit: foreign containers are touched only after a passed health check, one release ends a successful reservation, at most one container is created, success means every stage was passed in order and the superseded containers were listed and drained, every failed outside step is followed by marking the deployment failed for it, a failed precondition past admission is reported iff that happened, and a cancelled context creates nothing; a startable job whose container becomes healthy with no call failing succeeds and ends live with its image |
| PipelineTrace.OnlyOwnStands | packages/application/deploy/executor/pipeline.go:177-323 | after such an undisturbed run the new container stands, no other deployment's container of the project does, and each of those was stopped, removed and marked |
| PipelineTrace.SmoothWhen | packages/application/deploy/executor/pipeline.go:244-267 | such a run needs only calls that do not fail and a container answering well from the first probe on |
| PipelineTrace.FailureCat | packages/application/deploy/executor/pipeline.go:166-267 | explanations compose over the stages: where every stage marks the deployment failed for the reservation, pull, configuration, launch or health check that failed in it, so does the whole run |
| Pipeline.Pipeline.RunRepeatedly | packages/application/deploy/executor/pipeline.go:88-129 | a deploy job retried any number of times creates at most one container unless somebody else makes the deployment ready again |
| Pipeline.Pipeline.RunCancel | packages/application/deploy/executor/pipeline.go:326-338 | touches only containers of the deployment, stops and removes every one it finds standing, leaves standing only those whose mark failed, writes no status, and always reports cancellation |
| Pipeline.Pipeline.RunSleep | packages/application/deploy/executor/pipeline.go:341-351 | stops and marks exactly the standing containers of the project and removes none; fails only when the listing does |
| PipelineTrace.GuardedCat | packages/application/deploy/executor/pipeline.go:244-291 | guardedness composes over the stages, a passed health check opening everything after it |
| PipelineTrace.OneRelease | packages/application/deploy/executor/pipeline.go:171-177 | a balanced trace has as many releases as successful reservations, at most one, and no prefix releases more than it reserved |
| Base64.RoundTrip | packages/application/identity/password/argon2.go:63-64 | unpadded base64 decodes to the bytes encoded, for all byte strings |
| Base64.Standard | packages/application/identity/password/argon2.go:63-64 | the alphabet is the standard one and four letters are three bytes, most significant bits first |
| Base64.ShortGroups | packages/application/identity/password/argon2.go:63-64 | a last group of one or two bytes is written as if zero bits followed |
| Base64.BreaksSkipped | packages/application/identity/password/argon2.go:100-107 | line breaks in a stored hash make no difference |
| Password.ScanHeaderOf | packages/application/identity/password/argon2.go:95-97 | the parameter field printed is the parameter field scanned |
| Password.DecodeOfHash | packages/application/identity/password/argon2.go:57-109 | decode recovers memory, iterations, parallelism, salt and key from every printed hash |
| Password.HashFields | packages/application/identity/password/argon2.go:57-68 | a printed hash is argon2id, v=19, m, t and p in that order, then salt and key, between dollar signs |
| Password.DecodesOnly | packages/application/identity/password/argon2.go:86-109 | only text in six such fields decodes, salt and key from the last two |
| Password.VerifiesExactly | packages/application/identity/password/argon2.go:57-84 | a hash verifies a password iff both derive the same key under the hash's own parameters, its own password among them |
| Password.MalformedNeverVerifies | packages/application/identity/password/argon2.go:76-81 | a malformed stored hash verifies nothing, though the dummy is derived |
| Password.TotalExactly | packages/application/identity/password/argon2.go:72-84 | Verify ends on every input iff the dummy hash decodes |
| Password.NewHasher | packages/application/identity/password/argon2.go:42-54 | every hasher constructed has a dummy hash that decodes |
| Password.ProductionParameters | packages/application/identity/password/argon2.go:24-46 | without a salt length the parameters are 64 MiB, three passes, four lanes, 16 and 32 bytes |
| Password.EmptyMeansDummy | packages/application/identity/password/argon2.go:72-75 | an empty stored hash is verified against the dummy |
| Password.Hasher.Verify | packages/application/identity/password/argon2.go:72-84 | with such a dummy the recursive method ends and gives the specified verdict |
| Sse.SplitLines | packages/platform/httpx/stream.go:135-149 | the pieces between line feeds, one empty piece for no data |
| Sse.SSEWriter.Event | packages/platform/httpx/stream.go:99-124 | appends id and type lines when set, one data line per piece, and a blank line |
| Sse.ReadEvent | packages/platform/httpx/stream.go:99-124 | at an event boundary, an event the format can carry is read as exactly that event whatever follows |
| Sse.StreamReadsBack | packages/platform/httpx/stream.go:99-133 | a whole stream of events and pings is read as the events in order, ids carried over, pings leaving no trace |
| Sse.OnlyCarried | packages/platform/httpx/stream.go:99-124 | no stream whatever makes a reader see values the format cannot carry |
| Sse.RoundTripExactly | packages/platform/httpx/stream.go:99-149 | an event survives iff its data has no carriage return, its id and type no line break, its id no NUL |
| Slug.Slugify | packages/platform/strx/strx.go:13-30 | the builder loop yields the maximal runs of letters and digits, lowered, joined by single hyphens |
| Slug.SlugExactly | packages/platform/validation/validators.go:16 | the result matches the slug grammar iff the name has a letter or digit and all of them fold into the grammar |
| Slug.AsciiNames | packages/platform/strx/strx.go:13-30 | for ASCII names one letter or digit is enough |
| Slug.SlugsAreFixed | packages/platform/strx/strx.go:13-30 | slugs are fixed points |
| Slug.Idempotent | packages/platform/strx/strx.go:13-30 | slugifying twice is slugifying once for every name whose letters and digits fold into the grammar, so for every ASCII name |
| Slug.FreeSlug | packages/application/controlplane/project/service.go:280-294 | the search ends within one try more than there are taken slugs, with the first candidate not taken, or with the first lookup error |
| Slug.CandidatesDiffer | packages/application/controlplane/project/service.go:281-284 | no two tries ask for the same slug |
| Slug.CandidateNames | packages/application/controlplane/project/service.go:281-284 | the first candidate is the slug, later ones carry -1, -2 and so on |
| Slug.CandidateGrammar | packages/application/controlplane/project/service.go:281-284 | a suffixed candidate is in the grammar iff the slug is |
| Slug.Duplicate | packages/application/controlplane/project/service.go:277-294 | the copy's slug is the first free candidate for the new name, or for the old one with " Copy", and well formed iff that name's slug is |
| Usage.Store.RollupUsage | packages/application/ops/store/repository.go:193-204 | one upsert per project, dimension and period group with the group's sum, an existing row keeping its unit |
| Usage.Store.GetCurrentUsage | packages/application/ops/store/repository.go:207-213 | the sum over the organisation's rollup rows, in whatever order they come |
| Usage.UsageAfterRollup | packages/application/ops/store/repository.go:193-213 | from any state, usage read after a rollup is the raw total over all projects plus what stale rows keep |
| Usage.AppendOnlyExact | packages/application/ops/store/repository.go:179-213 | in every run that only adds raw records, usage read after a rollup equals the raw total |
| Usage.RollUpTwice | packages/application/ops/store/repository.go:193-204 | rolling up again changes nothing |
| Usage.UnitIsFirstLeast | packages/application/ops/store/repository.go:193-204 | a group's first rollup takes the least of its records' units, and no later operation changes it |
| Usage.OtherPeriods | packages/application/ops/store/repository.go:193-213 | rolling up one period leaves what is read for another |
| Quota.Check | packages/application/ops/quota/enforcer.go:35-100 | allowed iff a lookup fails, the limit is negative, or usage plus the request fits a positive limit; a warning iff the warning share is reached; every refusal carries a hard violation |
| Quota.EachDimension | packages/application/ops/quota/enforcer.go:158-180 | each of the eight dimensions is held to its own limit of the subscribed or else the free plan, an unknown one to none |
| Quota.WarnsAtEighty | packages/application/ops/quota/enforcer.go:87-97 | without a share configured the warning comes at eighty percent |
| Quota.Enforce | packages/application/ops/quota/enforcer.go:103-117 | an error iff the request is not admitted |
| Quota.AllowedExactly | packages/application/ops/quota/enforcer.go:47-99 | after a rollup, with lookups answering and a positive limit, allowed iff the raw total plus the request is within the limit |
| Quota.UnrolledUsageUnseen | packages/application/ops/quota/enforcer.go:62-99 | usage recorded after the rollup is not seen by the check |

## Left out

- Pool: modelled as interleaved steps over values rather than as a class, since its point is concurrency; goroutine scheduling and the operating system are not modelled.
- Jobs.Queue.Dequeue: the SKIP LOCKED subselect is any choice meeting its order, limit and lock conditions; the database's row locking itself is not modelled.
- JobWorker.Worker.Process: the heartbeat goroutine appears only as heartbeats of JobLeases and JobShutdown; poll intervals and logging are not modelled, and what RetryBackoff answers is a parameter.
- JobShutdown.LeftRunningExactly: while this worker's newest claim on a job is not durably settled no other client touches that job, so the account of an abandoned row ends where somebody else claims it; a claim whose answer is lost on the way back, leaving rows leased to nobody's batch, is not modelled.
- JobWorker.LandsExactly: an answered settling call is one that took effect; a statement the database committed though its answer never came is not modelled.
- Queue.Stats, job payload encoding and metrics: read-only or opaque.
- BulkUpsert.Upsert: rows shorter than the column list make the source panic and are excluded.
- BulkInsert: PostgreSQL's COPY protocol.
- ConditionRoundTrip.BuildMeansTree: a column is one operand without blanks, parentheses or commas (plain, qualified, quoted, subscripted or cast); text with operators of its own would be parsed into something else by any SQL reader, so for other '?'-free columns only the number of marks is proved (OneMarkPerArgument).
- Queries.Update: column, table and key names are such operands too.
- Pagination.PaginateCursor: keys are byte-ordered strings, though the source accepts any column the database can order; the order of other types is not modelled.
- Queries.PaginateSql: the count query and the page arithmetic of Page.
- Raw conditions: their text is arbitrary SQL, so only trees built from the other constructors are given a meaning.
- Retry.DelaysCappedAndMonotone: reals stand for float64, so rounding and the overflow of uncapped delays into time.Duration are not modelled.
- Password.VerifiesExactly: Argon2id is an uninterpreted function that may also panic; constant-time comparison is equality.
- Password.DecodeOfHash: strings are sequences of Unicode characters, so hash strings that are not valid UTF-8 are not covered.
- Sse.RoundTripExactly: text is characters after UTF-8 decoding; the retry field of the standard sets a delay no event shows.
- Slug.SlugExactly: the Unicode tables are parameters that agree with ASCII; ToLower maps character by character.
- Slug.FreeSlug: the set of taken slugs does not change during the search; two concurrent duplications can still race to the unique index.
- Usage.UsageAfterRollup: quantities are reals, not NUMERIC(20,6); updated_at is not modelled.
- Quota.AllowedExactly: check and record are separate calls, so concurrent requests may each be allowed; the period is the current day while some limits are monthly.
- Pipeline.Pipeline.SwitchAndDrain: the container table changes only through the run itself, so concurrent deploys of one project are not covered.
- CircuitBreaker.NeverStuck: guarded functions that panic are not modelled; they skip afterCall.
- Pipeline.Pipeline.Run: the same assumption on the container table; event publication, metrics, health records, secrets, labels and annotations, the execution row and the cancellation registry are calls without a modelled effect; phases carry no from value.
- RunWake: it calls RunDeploy.
- Event bus workers: PublishAsync hands deliveries to the pool, whose guarantees are those of Pool.
- GetPreviousLive, GetLatest and ListByProject: read-only ordering queries.
- Redis rate limiting, HTTP routing and handlers, configuration, cryptographic primitives, RBAC, billing periods, cron, scheduler placement and the proxy: outside systems or no hard invariant.
