# Job manager of cron-lib, modelled in Dafny

`pkg/job-manager.go` runs cron jobs for many tenants across several instances
of a service. It keeps an in-process registry of jobs, and each job's cron
entry is keyed by `jobKey` ("tenant:name"). On every tick a job runs through
`executeJobWithLock`, which works in this order:

1. It writes a "started" audit-log row.
2. It takes a PostgreSQL advisory lock whose id is a djb2 hash of `jobKey(lock, tenant)`, i.e. "tenant:lock", where `lock` is the job's lock string (not its name).
3. It claims the job's row in the database.
4. It runs the job, with a heartbeat for long-running jobs.
5. It requests an update of the job row's status and an update of the audit log with the outcome; it ignores both answers.
6. It sometimes runs maintenance cleanups.
7. It releases the advisory lock. The release is deferred once the lock is held, so it happens on every later path, including a panic; the paths that return before holding the lock release nothing.

The model has four modules:

- `Types` (types.dfy) holds the value types shared by the others. The `Job` interface is a datatype of the values the manager reads from a job. Go's `uint32`, `int64` and `uuid.UUID` are newtypes.
- `JobKeys` (keys.dfy) models `jobKey` and `jobLockToLockID`. The hash is an imperative loop over the key's characters with explicit 32-bit wrap-around. It is proved equal to a left fold (`Djb`). The key's layout, its injectivity within one tenant, and its non-injectivity across tenants are proved too.
- `Registry` (registry.dfy) has the `JobManager` class: its `jobs`, `entryIds` and `isRunning` fields, whether the cleanup routine was started and whether its stop channel was made, and the methods that change them. Two collaborators are represented inside the class:
  - Cron's parser is a predicate `scheduleAccepted`. Its entry ids come from a counter.
  - The store calls are recorded in a ghost log, and so are the `AddFunc` attempts.

  The registry invariant `Valid` says that keys are distinct, that every entry belongs to a registered job, that there are no entries while stopped, that a running scheduler has started its cleanup routine, and that entry ids are fresh and distinct. Every method the package exports (`RegisterJob`, `UnregisterJob`, `StartScheduler`, `StopScheduler`) preserves it; the internal steps they call are specified by their effect on the fields instead. `cleanupStaleJobs` returns nothing in Go and only logs its total; the model's `CleanupStaleJobs` returns the tenants it called, in the order it chose, and the total, which stands for the logged value. The total is proved independent of that order.
  `StopScheduler` is modelled as written: it closes a stop channel that nothing ever makes, so on a started manager it panics before stopping anything (see "## Findings"). `StopSchedulerIntended` is the stop the code evidently means.
- `Execution` (execution.dfy) models one run of `executeJobWithLock` as the ordered list of its calls to the store and to the heartbeat routine. The list depends on the store's and the job's answers (`Outcomes`). The methods follow the Go code step by step: early returns, and deferred calls kept on a list that runs newest first. They are proved equal to the specification function `Trace`. The facts the code promises are lemmas about `Trace`, stated with a filter `OfKind` that keeps the calls of one kind:
  - the audit status and texts written on each path;
  - the advisory lock is released exactly when it was acquired, and released last;
  - the heartbeat runs only for long-running jobs, and brackets the job;
  - cleanup runs only after `Run` returned, for the cleanup job or on the hour.

The answers of collaborators are inputs, not behaviour:
- the store (creating the audit log, the advisory lock, the database lock and the maintenance calls);
- `Run` (it returns an error, returns none, or panics);
- cron's parser;
- the clock (the start time and its minute);
- uuid generation (the request id and the instance id).

## Model

| member | source | states |
|---|---|---|
| JobKeys.JobKey | pkg/job-manager.go:591-593 | the key is one longer than tenant and name together, with ':' right after the tenant (full layout in `JobKeyLayout`) |
| JobKeys.JobKeyLayout | pkg/job-manager.go:591-593 | the key is the tenant, one ':' and the name, at known positions |
| JobKeys.JobKeySameTenant | pkg/job-manager.go:591-593 | within one tenant, equal keys mean equal names |
| JobKeys.JobKeyInjectiveWithoutColon | pkg/job-manager.go:591-593 | when tenants contain no ':', the key determines both name and tenant |
| JobKeys.JobKeyCollision | pkg/job-manager.go:591-593 | moving a ':'-separated part from the tenant to the name keeps the key |
| JobKeys.JobKeyNotInjective | pkg/job-manager.go:591-593 | two distinct (name, tenant) pairs share a key |
| JobKeys.Djb | pkg/job-manager.go:600-605 | the djb2 fold of a string stays within uint32 |
| JobKeys.JobLockToLockID | pkg/job-manager.go:596-606 | the loop `hash = (hash << 5) + hash + c` over the key, with uint32 wrap-around, yields the djb2 fold of the key from 5381 |
| JobKeys.DjbAppend | pkg/job-manager.go:600-605 | the hash of a concatenation continues from the hash of the first part |
| JobKeys.LockId | pkg/job-manager.go:403 | the advisory-lock id is the hash of `jobKey(lock, tenant)` widened to `int64`, so it is never negative and below 2^32 |
| JobKeys.LockIdSplits | pkg/job-manager.go:596-606 | the lock id hashes the tenant, then ':', then the lock string |
| Registry.JobManager.Valid | pkg/job-manager.go:101-267 | the registry invariant: distinct keys; every entry belongs to a registered job; no entries while stopped; a running scheduler has started its cleanup routine; entry ids are distinct and below the next id |
| Registry.JobManager.constructor | pkg/job-manager.go:87-98 | a new manager has no jobs and no entries, is not running, has no cleanup ticker and no stop channel, and satisfies the invariant |
| Registry.JobManager.AddFunc | pkg/job-manager.go:152-154 | cron returns a fresh, increasing entry id when it accepts the schedule, and an error otherwise |
| Registry.JobManager.ScheduleJob | pkg/job-manager.go:150-165 | on success the job's key maps to the new entry id; on a parse error nothing changes |
| Registry.ContainsKey | pkg/job-manager.go:106-112 | the search is true exactly when some registered job has the key |
| Registry.AppendNewKey | pkg/job-manager.go:115 | appending a job with a new key keeps keys distinct and adds exactly that key |
| Registry.JobManager.RegisterJob | pkg/job-manager.go:101-147 | a duplicate key changes nothing. Otherwise the job is appended and upserted as enabled for this instance, and it is scheduled only while running. The invariant is kept |
| Registry.FirstMatch | pkg/job-manager.go:184-190 | the index found is the first job with exactly that name and tenant, or no job matches |
| Registry.FirstMatchUnique | pkg/job-manager.go:184-190 | the first match is unique |
| Registry.RemoveAtKeepsDistinct | pkg/job-manager.go:186 | removing one job keeps keys distinct |
| Registry.RemoveAtKeys | pkg/job-manager.go:186 | removing a job removes exactly its key from the key set |
| Registry.NoMatchLeftAfterRemoval | pkg/job-manager.go:184-190 | after the first match is removed, no job with that name and tenant remains |
| Registry.JobManager.RemoveFirstMatch | pkg/job-manager.go:184-190 | the first exact match is removed and the others keep their order; with no match the list is unchanged |
| Registry.JobManager.UnregisterJob | pkg/job-manager.go:168-208 | the entry under the key is dropped only while running; the first exact match is removed; the delete is always sent to the store; the invariant is kept |
| Registry.KeyCollisionScenario | pkg/job-manager.go:172-190 | unregistering ("b:c", "a") removes the cron entry of the job ("c", "a:b") but keeps that job registered |
| Registry.JobManager.AcceptedKeysSnoc | pkg/job-manager.go:222-224 | one more scheduled job adds its key exactly when cron accepts its schedule |
| Registry.FreshIdKeepsDistinct | pkg/job-manager.go:163 | storing an id above all present ids keeps entry ids distinct |
| Registry.JobManager.ScheduleAll | pkg/job-manager.go:221-224 | starting from no entries, every job gets one `AddFunc` attempt in order; the entries are exactly the accepted jobs' keys, with fresh distinct ids |
| Registry.JobManager.StartScheduler | pkg/job-manager.go:211-234 | a no-op while running. Otherwise every job gets one `AddFunc` attempt, in order; the entries are exactly the accepted jobs' keys, with fresh ids; the scheduler then runs and the cleanup ticker is set |
| Registry.JobManager.StopScheduler | pkg/job-manager.go:237-267 | as written: a no-op while stopped; on a running manager whose cleanup routine was started and whose stop channel was never made, it panics and changes nothing; only with the channel made does it clear all entries and stop |
| Registry.StopSchedulerPanicsScenario | pkg/job-manager.go:294-298 | stopping a freshly started manager panics, and the scheduler keeps running with its entries |
| Registry.JobManager.StopSchedulerIntended | pkg/job-manager.go:237-267 | the intended stop: a no-op while stopped; otherwise all entries are cleared and the scheduler stops, the jobs are kept, and the invariant holds |
| Registry.IntendedStopScenario | pkg/job-manager.go:237-267 | the intended stop of a freshly started manager leaves it stopped with no entries |
| Registry.JobManager.CleanupStaleJobs | pkg/job-manager.go:304-334 | one call per distinct tenant of the registered jobs, no more; the total is the sum of the positive counts of the successful calls |
| Registry.Gain | pkg/job-manager.go:318-328 | what one call adds to the total: never negative, and nothing for a failed call |
| Registry.Cleaned | pkg/job-manager.go:317-330 | the total of a sequence of calls, summing the positive row counts of the successful ones, is never negative and is zero for no calls |
| Registry.CleanedAppend | pkg/job-manager.go:317-330 | the total over concatenated call lists is the sum of their totals |
| Registry.CleanedPermutation | pkg/job-manager.go:318-330 | the total does not depend on the order of the calls |
| Registry.NoDuplicatesMultiset | pkg/job-manager.go:309-313 | a list of distinct tenants holds each tenant once |
| Registry.CleanupTotalIndependentOfOrder | pkg/job-manager.go:318-330 | any two iteration orders over the same tenants give the same total |
| Execution.ToText | pkg/job-manager.go:562-572 | the column is valid exactly when a string is given, and then holds it; otherwise it is the zero value |
| Execution.TextRoundTrip | pkg/job-manager.go:562-572 | writing an optional string to a nullable column and reading it back loses nothing |
| Execution.UpdateAuditLogStatus | pkg/job-manager.go:556-588 | id, status and tenant pass through; output and error are valid exactly when supplied, and read back as supplied |
| Execution.RunAudit | pkg/job-manager.go:494-527 | the audit update after `Run` goes to the run's audit log and tenant; its status is "completed" and its output is set exactly when `Run` returned no error, and its error is set otherwise |
| Execution.StatusUpdateFor | pkg/job-manager.go:504-528 | after `Run`, an update of the job row to completed is requested exactly when `Run` returned no error, and to failed otherwise (the store's answer is ignored) |
| Execution.MaintenanceCalls | pkg/job-manager.go:531-551 | the maintenance calls for the job's tenant: old tasks, then stale locks, then stale registered jobs |
| Execution.CleanupDue | pkg/job-manager.go:531 | maintenance is due after `Run` returned (a panic unwinds past it) for the job named "system.cleanup" or at minute 0 |
| Execution.LockedRun | pkg/job-manager.go:466-552 | the calls under both locks: heartbeat start, status and audit record, due maintenance, deferred heartbeat stop |
| Execution.StartedEntry | pkg/job-manager.go:384-396 | the "started" audit log of the run: the system user, the instance, the request id, the job's name and tenant, and the start time as both scheduled and start time |
| Execution.AdvisoryLockId | pkg/job-manager.go:403 | the run's advisory-lock id, `LockId` of the job's lock string and tenant |
| Execution.DbLockRequest | pkg/job-manager.go:441-450 | the database-lock request: the job's tenant, lock and name, the start time, the next run time and the instance |
| Execution.DbLockRefusal | pkg/job-manager.go:451-462 | the refusal audit: "skipped" with "Job already locked in database" for the "no rows" message, "failed" with the message otherwise |
| Execution.AfterDbLock | pkg/job-manager.go:450-552 | after the database answered: the refusal audit, or the locked run |
| Execution.UnderAdvisoryLock | pkg/job-manager.go:425-552 | under the advisory lock: the database-lock request, what follows, and the deferred release |
| Execution.AfterAdvisoryTry | pkg/job-manager.go:410-552 | after the attempt: the failed or skipped audit, or the run under the lock |
| Execution.Trace | pkg/job-manager.go:368-553 | everything one run does: the started audit log, the advisory-lock attempt, and the rest |
| Execution.LockedRunHeartbeatStart | pkg/job-manager.go:466-471 | under both locks the heartbeat is started once for a long-running job, and never otherwise |
| Execution.LockedRunHeartbeatStop | pkg/job-manager.go:474-478 | the heartbeat is stopped once for a long-running job, and never otherwise |
| Execution.LockedRunHeartbeatBrackets | pkg/job-manager.go:466-478 | for a long-running job the heartbeat start comes first and the stop comes last |
| Execution.LockedRunStatus | pkg/job-manager.go:481-528 | exactly one status update of the job row is requested: completed or failed, as `Run` ended |
| Execution.LockedRunAudit | pkg/job-manager.go:481-528 | exactly one audit update is requested, with the outcome of `Run` |
| Execution.LockedRunOldTasksCleanup | pkg/job-manager.go:531-536 | old tasks of the tenant are cleaned once when cleanup is due, and never otherwise |
| Execution.LockedRunStaleLocksCleanup | pkg/job-manager.go:538-543 | stale locks of the tenant are cleaned once when cleanup is due, and never otherwise |
| Execution.LockedRunStaleJobsCleanup | pkg/job-manager.go:546-551 | stale registered jobs of the tenant are cleaned once when cleanup is due, and never otherwise |
| Execution.LockedRunContents | pkg/job-manager.go:466-552 | under both locks only heartbeat, status, audit-update and maintenance calls happen |
| Execution.LockedRunNoLocking | pkg/job-manager.go:466-552 | nothing under both locks creates an audit log or touches either lock |
| Execution.AfterDbLockContents | pkg/job-manager.go:450-552 | after the database answered, no audit log is created and no lock is touched |
| Execution.AfterAdvisoryTryContents | pkg/job-manager.go:410-552 | after the advisory-lock attempt, no audit log is created and no further attempt is made |
| Execution.TraceOpening | pkg/job-manager.go:384-410 | every run starts by creating the "started" audit log and then tries the advisory lock derived from its lock and tenant |
| Execution.TraceCreatesOneAuditLog | pkg/job-manager.go:384-400 | exactly one audit log is created per run |
| Execution.TraceTriesOnce | pkg/job-manager.go:403-410 | the advisory lock is tried exactly once per run |
| Execution.TraceWhenAcquired | pkg/job-manager.go:425-553 | once the advisory lock is held, the run is the database-lock request, what follows it, and finally the release |
| Execution.TraceReleasesIffAcquired | pkg/job-manager.go:410-435 | the advisory lock is released exactly once if it was acquired, and never otherwise |
| Execution.TraceEndsWithRelease | pkg/job-manager.go:425-435 | when acquired, the release is the last call of the run, a panic included |
| Execution.TraceDbLockUnderAdvisoryLock | pkg/job-manager.go:437-450 | the database lock is requested once, and only under the advisory lock |
| Execution.TraceWhenRan | pkg/job-manager.go:368-553 | when both locks were obtained, the run is the opening, the database-lock request, the locked part, and the release |
| Execution.TraceWithoutRun | pkg/job-manager.go:410-463 | when the job did not run, only audit, lock and release calls happen |
| Execution.TraceHeartbeat | pkg/job-manager.go:466-478 | the heartbeat is started and stopped once exactly when the job ran and is long-running |
| Execution.TraceStatusUpdate | pkg/job-manager.go:481-528 | a status update of the job row is requested only when the job ran: completed on success, failed on an error or a panic |
| Execution.TraceOldTasksCleanup | pkg/job-manager.go:531-536 | old tasks are cleaned once exactly when the job ran, `Run` returned, and it is the cleanup job or minute 0 |
| Execution.TraceStaleLocksCleanup | pkg/job-manager.go:538-543 | stale locks are cleaned under the same condition |
| Execution.TraceStaleJobsCleanup | pkg/job-manager.go:546-551 | stale registered jobs are cleaned under the same condition |
| Execution.TraceAuditBeforeLock | pkg/job-manager.go:410-423 | without the advisory lock, the only audit update is the refusal, right after the attempt |
| Execution.TraceAuditAdvisoryError | pkg/job-manager.go:410-416 | a lock error is audited as "failed" with the error text and no output |
| Execution.TraceAuditAlreadyRunning | pkg/job-manager.go:418-423 | a lock held elsewhere is audited as "skipped" with "Job already running in another instance" |
| Execution.TraceAuditDbLockRefused | pkg/job-manager.go:450-463 | a refused database lock gives exactly one audit update, the refusal |
| Execution.TraceAuditAlreadyLocked | pkg/job-manager.go:453-456 | the "no rows" answer is audited as "skipped" with "Job already locked in database" |
| Execution.TraceAuditDbLockError | pkg/job-manager.go:457-461 | any other database error is audited as "failed" with its text |
| Execution.TraceAuditAfterRun | pkg/job-manager.go:481-528 | when the job ran, exactly one audit update records how `Run` ended |
| Execution.TraceAuditCompleted | pkg/job-manager.go:525-527 | success is audited as "completed" with output "Job completed successfully" and no error |
| Execution.TraceAuditRunError | pkg/job-manager.go:504-515 | an error from `Run` is audited as "failed" with its text and no output |
| Execution.TraceAuditPanicked | pkg/job-manager.go:481-498 | a panic is audited as "failed" with "Panic: " and the value's text |
| Execution.RunLocked | pkg/job-manager.go:466-552 | the heartbeat, the outcome record, the due cleanup and the deferred stop, in that order, equal `LockedRun` |
| Execution.RunUnderAdvisoryLock | pkg/job-manager.go:425-463 | the database-lock request, then the refusal or the locked run, then the deferred release, equal `UnderAdvisoryLock` |
| Execution.ExecuteJobWithLock | pkg/job-manager.go:368-553 | the calls a run makes, with the lock id computed by `JobLockToLockID`, equal `Trace` for every combination of answers |

## Findings

| source | as written | input that shows it | evidently intended | confidence | as-written member | corrected member |
|---|---|---|---|---|---|---|
| pkg/job-manager.go:297 | `stopCleanupRoutine` closes `stopCleanup`, which neither the struct's zero value nor `newJobManager` (87-98) ever makes; its only assignment (298) follows the close, so `StopScheduler` on a started manager panics before `cron.Stop`, the entry reset and `isRunning = false` | `newJobManager`, `RegisterJob` of any job with an accepted schedule, `StartScheduler()`, then `StopScheduler()` | the channel is made when the manager is created, so the stop signals the cleanup routine, clears the entries and stops the scheduler | high (not executed) | Registry.StopSchedulerPanicsScenario | Registry.JobManager.StopSchedulerIntended |

## Left out

- The mutex, the singleton (`GetJobManager`, `InitJobManager`) and goroutines are not modelled. Every method is modelled as running alone.
- The heartbeat goroutine's body (`startHeartbeat`, `updateJobHeartbeat`) is not modelled: the model records only its start and its stop.
- The cleanup routine is modelled only by two facts: whether its ticker was created (`cleanupStarted`) and whether its stop channel was ever made (`stopCleanupMade`). The ticker's ticks and `Stop`, and the goroutine's loop, are not modelled; `cleanupStaleJobs` is modelled as called directly.
- Registry.JobManager.StopScheduler: the panic is returned as a flag. Its propagation to the caller, with the mutex released by the deferred unlock, is not modelled.
- The 30-second wait for running jobs in `StopScheduler` is not modelled.
- Cron's parser is an oracle, `scheduleAccepted`. `cron.Start`, `cron.Stop` and `cron.Remove` leave no trace beyond the registry fields.
- SQL and the `store` are not modelled: each call is recorded with its arguments, and its answer is an input. Answers the code ignores are not inputs: the upsert, the delete, the release, the status updates, the audit update, and `CleanupOldTasks`.
- The rows-affected logging after the maintenance cleanups does not change behaviour and is left out. So is all logging.
- Contexts and timeouts are not modelled. One consequence is lost: after a `Run` longer than 60 seconds, the status update and the three maintenance calls go out on the advisory-lock context made at pkg/job-manager.go:406, which has expired by then. The model records them as issued, but they cannot succeed. Long-running jobs typically run longer than 5 minutes, so this affects every one of them. The panic path's status update and every audit update use fresh contexts and are not affected.
- `time.Now` is not modelled: a run receives its start time and minute as inputs. The audit update's end time is not part of `AuditLogUpdate`.
- `uuid.New` is not modelled: the request id and the instance id are inputs.
- A key is a sequence of Unicode scalar values. Invalid UTF-8, which Go's range loop decodes as U+FFFD, is not modelled.
- A panic's `%v` text is the input string `Panicked.value`; Go's formatting of arbitrary values is not modelled.
- Registry.JobManager.CleanupStaleJobs: the `int64` total is an unbounded integer; overflow past 2^63 - 1 is not modelled.
- The `api`, frontend, seed, store and schedule-utility files of the repository are not part of this model.
