/** One run of a scheduled job: `executeJobWithLock` and the audit-log
    update it finishes with, `updateAuditLogStatus`. */
module Execution {
  import opened Types
  import opened JobKeys

  /** The text of pgx's "no rows" error, which the DB-lock step recognises by
      comparing error messages. */
  const ErrNoRowsMessage: string := "no rows in result set"

  /** The job whose runs always trigger the maintenance cleanup. */
  const CleanupJobName: string := "system.cleanup"

  // The statuses and texts the run writes to its audit log.
  const SystemUser: string := "system"
  const StatusStarted: string := "started"
  const StatusFailed: string := "failed"
  const StatusSkipped: string := "skipped"
  const StatusCompleted: string := "completed"
  const AlreadyRunningMessage: string := "Job already running in another instance"
  const AlreadyLockedMessage: string := "Job already locked in database"
  const CompletedOutput: string := "Job completed successfully"
  /** A recovered panic is reported as "Panic: " followed by its `%v` text. */
  const PanicPrefix: string := "Panic: "

  /** A nullable text column (`pgtype.Text`); the zero value is ("", false). */
  datatype Text = Text(text: string, valid: bool)

  /** An optional Go string as a nullable text column. */
  function ToText(s: Option<string>): (t: Text)
    ensures t.valid <==> s.Some?
    ensures s.Some? ==> t.text == s.value
    ensures s.None? ==> t == Text("", false)
  {
    match s
    case Some(v) => Text(v, true)
    case None => Text("", false)
  }

  /** Reading a nullable text column back. */
  function FromText(t: Text): Option<string>
  {
    if t.valid then Some(t.text) else None
  }

  /** Writing an optional string and reading it back loses nothing. */
  lemma TextRoundTrip(s: Option<string>)
    ensures FromText(ToText(s)) == s
  {
  }

  /** The parameters of the store's `UpdateJobAuditLog` (the end time, taken
      from the clock, is not modelled). */
  datatype AuditLogUpdate = AuditLogUpdate(
    id: Uuid,
    status: string,
    output: Text,
    error: Text,
    tenantId: string)

  /** updateAuditLogStatus: the output column is valid exactly when an
      output is given, the error column exactly when an error message is
      given; the id, status and tenant are passed through. */
  function UpdateAuditLogStatus(auditLogId: Uuid, status: string, output: Option<string>,
                                errorMsg: Option<string>, tenantId: string): (u: AuditLogUpdate)
    ensures u.id == auditLogId && u.status == status && u.tenantId == tenantId
    ensures u.output.valid <==> output.Some?
    ensures u.error.valid <==> errorMsg.Some?
    ensures FromText(u.output) == output && FromText(u.error) == errorMsg
  {
    AuditLogUpdate(auditLogId, status, ToText(output), ToText(errorMsg), tenantId)
  }

  /** Everything a run does outside the process, in order: calls to the
      store, and starting or stopping the heartbeat routine. */
  datatype Effect =
    | CreateJobAuditLog(userId: string, appId: string, requestId: string, jobName: string,
                        scheduledTime: Timestamp, startTime: Timestamp, status: string, tenantId: string)
    | TryAdvisoryLock(lockId: int64)
    | ReleaseAdvisoryLock(lockId: int64)
    | AcquireJobLockInDB(tenantId: string, lock: string, jobName: string, now: Timestamp,
                         nextRunTime: Timestamp, instanceId: string)
    | StartHeartbeat(jobId: Uuid)
    | StopHeartbeat(jobId: Uuid)
    | UpdateJobStatusToFailed(jobId: Uuid)
    | UpdateJobStatusToCompleted(jobId: Uuid)
    | UpdateJobAuditLog(update: AuditLogUpdate)
    | CleanupOldTasks(tenantId: string)
    | CleanupStaleLocks(tenantId: string)
    | CleanupStaleRegisteredJobs(tenantId: string)

  /** How the job's `Run` ended: it returned (with an error message or
      none) or it panicked with a value, shown here as its `%v` text. */
  datatype RunOutcome = Returned(err: Option<string>) | Panicked(value: string)

  /** The answers of the collaborators of one run: the store's answers to
      `CreateJobAuditLog`, `TryAdvisoryLock` and `AcquireJobLockInDB`, and
      the outcome of `Run`. The answers to the remaining calls are ignored
      by the code and so are not inputs. */
  datatype Outcomes = Outcomes(
    auditLog: Result<Uuid>,
    advisoryLock: Result<bool>,
    dbLock: Result<Uuid>,
    run: RunOutcome)

  /** The audit-log id the final update goes to: the zero id when creating
      the audit log failed. */
  function AuditId(o: Outcomes): Uuid
  {
    if o.auditLog.Ok? then o.auditLog.value else NilUuid
  }

  /** The advisory lock was granted. */
  predicate LockAcquired(o: Outcomes)
  {
    o.advisoryLock == Ok(true)
  }

  /** Both locks were obtained, so the job ran (or panicked). */
  predicate JobRan(o: Outcomes)
  {
    LockAcquired(o) && o.dbLock.Ok?
  }

  /** The kinds of effect, one per store call or heartbeat action; the
      two job-status updates form one kind. */
  datatype EffectKind =
    | AuditCreate | AdvisoryTry | AdvisoryRelease | DbLock | HeartbeatStart | HeartbeatStop
    | StatusUpdate | AuditUpdate | OldTasksCleanup | StaleLocksCleanup | StaleJobsCleanup

  /** `e` is an effect of kind `k`. */
  predicate HasKind(e: Effect, k: EffectKind)
  {
    match k
    case AuditCreate => e.CreateJobAuditLog?
    case AdvisoryTry => e.TryAdvisoryLock?
    case AdvisoryRelease => e.ReleaseAdvisoryLock?
    case DbLock => e.AcquireJobLockInDB?
    case HeartbeatStart => e.StartHeartbeat?
    case HeartbeatStop => e.StopHeartbeat?
    case StatusUpdate => e.UpdateJobStatusToFailed? || e.UpdateJobStatusToCompleted?
    case AuditUpdate => e.UpdateJobAuditLog?
    case OldTasksCleanup => e.CleanupOldTasks?
    case StaleLocksCleanup => e.CleanupStaleLocks?
    case StaleJobsCleanup => e.CleanupStaleRegisteredJobs?
  }

  /** The effects of kind `k` in `es`, in order. */
  function OfKind(es: seq<Effect>, k: EffectKind): seq<Effect>
  {
    if es == [] then [] else (if HasKind(es[0], k) then [es[0]] else []) + OfKind(es[1..], k)
  }

  /** Filtering by kind distributes over concatenation. */
  lemma {:induction false} OfKindAppend(a: seq<Effect>, b: seq<Effect>, k: EffectKind)
    ensures OfKind(a + b, k) == OfKind(a, k) + OfKind(b, k)
  {
    if a == [] {
      assert a + b == b;
    } else {
      var head := if HasKind(a[0], k) then [a[0]] else [];
      assert (a + b)[0] == a[0];
      assert (a + b)[1..] == a[1..] + b;
      OfKindAppend(a[1..], b, k);
      assert OfKind(a + b, k) == head + (OfKind(a[1..], k) + OfKind(b, k));
    }
  }

  /** The maintenance calls, in the order the run makes them. */
  function MaintenanceCalls(tenantId: string): seq<Effect>
  {
    [CleanupOldTasks(tenantId), CleanupStaleLocks(tenantId), CleanupStaleRegisteredJobs(tenantId)]
  }

  /** The update of the job's row once `Run` has finished: completed when it
      returned no error, failed when it returned one or panicked. */
  function StatusUpdateFor(jobId: Uuid, run: RunOutcome): (e: Effect)
    ensures HasKind(e, StatusUpdate) && e.jobId == jobId
    ensures e.UpdateJobStatusToCompleted? <==> run == Returned(None)
  {
    if run == Returned(None) then UpdateJobStatusToCompleted(jobId) else UpdateJobStatusToFailed(jobId)
  }

  /** The final audit update after `Run`: completed with the success text,
      failed with the returned error's text, or failed with the panic text. */
  function RunAudit(auditId: Uuid, tenantId: string, run: RunOutcome): (u: AuditLogUpdate)
    ensures u.id == auditId && u.tenantId == tenantId
    ensures u.status == StatusCompleted <==> run == Returned(None)
    ensures u.output.valid <==> run == Returned(None)
    ensures u.error.valid <==> run != Returned(None)
  {
    match run
    case Returned(None) => UpdateAuditLogStatus(auditId, StatusCompleted, Some(CompletedOutput), None, tenantId)
    case Returned(Some(message)) => UpdateAuditLogStatus(auditId, StatusFailed, None, Some(message), tenantId)
    case Panicked(value) => UpdateAuditLogStatus(auditId, StatusFailed, None, Some(PanicPrefix + value), tenantId)
  }

  /** What the run records once `Run` has finished or panicked (in the
      latter case from the deferred recovery): the job row's status, then
      the audit update. */
  function RunRecord(jobId: Uuid, auditId: Uuid, tenantId: string, run: RunOutcome): seq<Effect>
  {
    [StatusUpdateFor(jobId, run), UpdateJobAuditLog(RunAudit(auditId, tenantId, run))]
  }

  /** The maintenance cleanup is due after `Run` returned (a panic unwinds
      past it) for the dedicated cleanup job or on the hour. */
  predicate CleanupDue(job: Job, minute: int, run: RunOutcome): (due: bool)
    ensures run.Panicked? ==> !due
    ensures run.Returned? && job.name == CleanupJobName ==> due
  {
    run.Returned? && (job.name == CleanupJobName || minute == 0)
  }

  /** The part of a run under both locks: the heartbeat start for a
      long-running job, `Run` and its record, the maintenance cleanup when
      due, and the deferred heartbeat stop. */
  function LockedRun(job: Job, jobId: Uuid, auditId: Uuid, minute: int, run: RunOutcome): (es: seq<Effect>)
    ensures 2 <= |es|
    ensures job.isLongRunning ==> es[0] == StartHeartbeat(jobId) && es[|es| - 1] == StopHeartbeat(jobId)
  {
    (if job.isLongRunning then [StartHeartbeat(jobId)] else [])
    + RunRecord(jobId, auditId, job.tenantId, run)
    + (if CleanupDue(job, minute, run) then MaintenanceCalls(job.tenantId) else [])
    + (if job.isLongRunning then [StopHeartbeat(jobId)] else [])
  }

  /** The audit update when the job lock in the database is refused: the
      "no rows" answer means another instance holds it. */
  function DbLockRefusal(auditId: Uuid, tenantId: string, message: string): (u: AuditLogUpdate)
    ensures u.id == auditId && u.tenantId == tenantId
    ensures !u.output.valid && u.error.valid
    ensures u.status == StatusSkipped <==> message == ErrNoRowsMessage
  {
    if message == ErrNoRowsMessage then
      UpdateAuditLogStatus(auditId, StatusSkipped, None, Some(AlreadyLockedMessage), tenantId)
    else
      UpdateAuditLogStatus(auditId, StatusFailed, None, Some(message), tenantId)
  }

  /** The inputs of one run besides the collaborators' answers: the
      instance, the job, the request id, the start time, the minute of the
      hour it falls in, and the job's next run time. */
  datatype Invocation = Invocation(
    instanceId: string,
    job: Job,
    requestId: string,
    now: Timestamp,
    minute: int,
    nextRunTime: Timestamp)

  /** The first store call of every run: the audit log entry saying it started. */
  function StartedEntry(c: Invocation): Effect
  {
    CreateJobAuditLog(SystemUser, c.instanceId, c.requestId, c.job.name, c.now, c.now, StatusStarted, c.job.tenantId)
  }

  /** The advisory lock a run takes: derived from the job's lock string and tenant. */
  function AdvisoryLockId(c: Invocation): int64
  {
    LockId(c.job.lock, c.job.tenantId)
  }

  /** The job-lock request in the database. */
  function DbLockRequest(c: Invocation): Effect
  {
    AcquireJobLockInDB(c.job.tenantId, c.job.lock, c.job.name, c.now, c.nextRunTime, c.instanceId)
  }

  /** After the database answered the job-lock request: the refusal is
      recorded, or the job runs. */
  function AfterDbLock(c: Invocation, auditId: Uuid, o: Outcomes): seq<Effect>
  {
    if o.dbLock.Err? then [UpdateJobAuditLog(DbLockRefusal(auditId, c.job.tenantId, o.dbLock.message))]
    else LockedRun(c.job, o.dbLock.value, auditId, c.minute, o.run)
  }

  /** What the run does while it holds the advisory lock: ask for the job
      lock in the database, go on as `AfterDbLock`, and finally (deferred)
      release the advisory lock. */
  function UnderAdvisoryLock(c: Invocation, auditId: Uuid, o: Outcomes): seq<Effect>
  {
    [DbLockRequest(c)] + AfterDbLock(c, auditId, o) + [ReleaseAdvisoryLock(AdvisoryLockId(c))]
  }

  /** After the advisory-lock attempt: a failed attempt or a lock held
      elsewhere is recorded in the audit log; otherwise the run goes on
      under the lock. */
  function AfterAdvisoryTry(c: Invocation, auditId: Uuid, o: Outcomes): seq<Effect>
  {
    if o.advisoryLock.Err? then
      [UpdateJobAuditLog(UpdateAuditLogStatus(auditId, StatusFailed, None, Some(o.advisoryLock.message), c.job.tenantId))]
    else if !o.advisoryLock.value then
      [UpdateJobAuditLog(UpdateAuditLogStatus(auditId, StatusSkipped, None, Some(AlreadyRunningMessage), c.job.tenantId))]
    else
      UnderAdvisoryLock(c, auditId, o)
  }

  /** Everything one run of `executeJobWithLock` does outside the process,
      in order, given the collaborators' answers `o`. */
  function Trace(c: Invocation, o: Outcomes): seq<Effect>
  {
    [StartedEntry(c), TryAdvisoryLock(AdvisoryLockId(c))] + AfterAdvisoryTry(c, AuditId(o), o)
  }

  /** Filtering a one-element trace. */
  lemma OfKindSingleton(x: Effect, k: EffectKind)
    ensures OfKind([x], k) == if HasKind(x, k) then [x] else []
  {
    assert [x][1..] == [];
  }

  /** A trace with no effect of kind `k` filters to nothing. */
  lemma {:induction false} OfKindNone(es: seq<Effect>, k: EffectKind)
    requires forall e | e in es :: !HasKind(e, k)
    ensures OfKind(es, k) == []
  {
    if es != [] {
      assert es[0] in es;
      assert forall e | e in es[1..] :: e in es;
      OfKindNone(es[1..], k);
    }
  }

  /** Surroundings without effects of kind `k` do not change the filter. */
  lemma OfKindAround(before: seq<Effect>, middle: seq<Effect>, after: seq<Effect>, k: EffectKind)
    requires forall e | e in before + after :: !HasKind(e, k)
    ensures OfKind(before + middle + after, k) == OfKind(middle, k)
  {
    OfKindAppend(before + middle, after, k);
    OfKindAppend(before, middle, k);
    OfKindNone(before, k);
    OfKindNone(after, k);
  }

  /** A long-running job's heartbeat is started once under both locks, and
      no other job's is. */
  lemma LockedRunHeartbeatStart(job: Job, jobId: Uuid, auditId: Uuid, minute: int, run: RunOutcome)
    ensures OfKind(LockedRun(job, jobId, auditId, minute, run), HeartbeatStart) ==
      if job.isLongRunning then [StartHeartbeat(jobId)] else []
  {
    var segment := LockedRun(job, jobId, auditId, minute, run);
    if job.isLongRunning {
      OfKindAround([], [StartHeartbeat(jobId)], segment[1..], HeartbeatStart);
      OfKindSingleton(StartHeartbeat(jobId), HeartbeatStart);
      assert segment == [] + [StartHeartbeat(jobId)] + segment[1..];
    } else {
      OfKindNone(segment, HeartbeatStart);
    }
  }

  /** A long-running job's heartbeat is stopped once under both locks, and
      no other job's is. */
  lemma LockedRunHeartbeatStop(job: Job, jobId: Uuid, auditId: Uuid, minute: int, run: RunOutcome)
    ensures OfKind(LockedRun(job, jobId, auditId, minute, run), HeartbeatStop) ==
      if job.isLongRunning then [StopHeartbeat(jobId)] else []
  {
    var segment := LockedRun(job, jobId, auditId, minute, run);
    if job.isLongRunning {
      var n := |segment| - 1;
      OfKindAround(segment[..n], [StopHeartbeat(jobId)], [], HeartbeatStop);
      OfKindSingleton(StopHeartbeat(jobId), HeartbeatStop);
      assert segment == segment[..n] + [StopHeartbeat(jobId)] + [];
    } else {
      OfKindNone(segment, HeartbeatStop);
    }
  }

  /** Under both locks one status update of the job row is requested:
      completed when `Run` returned no error, failed otherwise. */
  lemma LockedRunStatus(job: Job, jobId: Uuid, auditId: Uuid, minute: int, run: RunOutcome)
    ensures OfKind(LockedRun(job, jobId, auditId, minute, run), StatusUpdate) == [StatusUpdateFor(jobId, run)]
  {
    var start := if job.isLongRunning then [StartHeartbeat(jobId)] else [];
    var status := StatusUpdateFor(jobId, run);
    var rest := [UpdateJobAuditLog(RunAudit(auditId, job.tenantId, run))]
      + (if CleanupDue(job, minute, run) then MaintenanceCalls(job.tenantId) else [])
      + (if job.isLongRunning then [StopHeartbeat(jobId)] else []);
    assert LockedRun(job, jobId, auditId, minute, run) == start + [status] + rest;
    OfKindAround(start, [status], rest, StatusUpdate);
    OfKindSingleton(status, StatusUpdate);
  }

  /** Under both locks one audit update is requested, with the outcome of `Run`. */
  lemma LockedRunAudit(job: Job, jobId: Uuid, auditId: Uuid, minute: int, run: RunOutcome)
    ensures OfKind(LockedRun(job, jobId, auditId, minute, run), AuditUpdate) ==
      [UpdateJobAuditLog(RunAudit(auditId, job.tenantId, run))]
  {
    var before := (if job.isLongRunning then [StartHeartbeat(jobId)] else []) + [StatusUpdateFor(jobId, run)];
    var audit := UpdateJobAuditLog(RunAudit(auditId, job.tenantId, run));
    var after := (if CleanupDue(job, minute, run) then MaintenanceCalls(job.tenantId) else [])
      + (if job.isLongRunning then [StopHeartbeat(jobId)] else []);
    assert LockedRun(job, jobId, auditId, minute, run) == before + [audit] + after;
    OfKindAround(before, [audit], after, AuditUpdate);
    OfKindSingleton(audit, AuditUpdate);
  }

  /** Under both locks old tasks are cleaned up once, for the job's tenant, when
      the maintenance step is due, and never otherwise. */
  lemma LockedRunOldTasksCleanup(job: Job, jobId: Uuid, auditId: Uuid, minute: int, run: RunOutcome)
    ensures OfKind(LockedRun(job, jobId, auditId, minute, run), OldTasksCleanup) ==
      if CleanupDue(job, minute, run) then [CleanupOldTasks(job.tenantId)] else []
  {
    var segment := LockedRun(job, jobId, auditId, minute, run);
    var t := job.tenantId;
    if CleanupDue(job, minute, run) {
      var before := (if job.isLongRunning then [StartHeartbeat(jobId)] else [])
        + RunRecord(jobId, auditId, t, run);
      var after := [CleanupStaleLocks(t), CleanupStaleRegisteredJobs(t)] + (if job.isLongRunning then [StopHeartbeat(jobId)] else []);
      assert segment == before + [CleanupOldTasks(t)] + after;
      OfKindAround(before, [CleanupOldTasks(t)], after, OldTasksCleanup);
      OfKindSingleton(CleanupOldTasks(t), OldTasksCleanup);
    } else {
      OfKindNone(segment, OldTasksCleanup);
    }
  }

  /** Under both locks stale job locks are cleaned up once, for the job's
      tenant, when the maintenance step is due, and never otherwise. */
  lemma LockedRunStaleLocksCleanup(job: Job, jobId: Uuid, auditId: Uuid, minute: int, run: RunOutcome)
    ensures OfKind(LockedRun(job, jobId, auditId, minute, run), StaleLocksCleanup) ==
      if CleanupDue(job, minute, run) then [CleanupStaleLocks(job.tenantId)] else []
  {
    var segment := LockedRun(job, jobId, auditId, minute, run);
    var t := job.tenantId;
    if CleanupDue(job, minute, run) {
      var before := (if job.isLongRunning then [StartHeartbeat(jobId)] else [])
        + RunRecord(jobId, auditId, t, run) + [CleanupOldTasks(t)];
      var after := [CleanupStaleRegisteredJobs(t)] + (if job.isLongRunning then [StopHeartbeat(jobId)] else []);
      assert segment == before + [CleanupStaleLocks(t)] + after;
      OfKindAround(before, [CleanupStaleLocks(t)], after, StaleLocksCleanup);
      OfKindSingleton(CleanupStaleLocks(t), StaleLocksCleanup);
    } else {
      OfKindNone(segment, StaleLocksCleanup);
    }
  }

  /** Under both locks stale registered jobs are cleaned up once, for the
      job's tenant, when the maintenance step is due, and never otherwise. */
  lemma LockedRunStaleJobsCleanup(job: Job, jobId: Uuid, auditId: Uuid, minute: int, run: RunOutcome)
    ensures OfKind(LockedRun(job, jobId, auditId, minute, run), StaleJobsCleanup) ==
      if CleanupDue(job, minute, run) then [CleanupStaleRegisteredJobs(job.tenantId)] else []
  {
    var segment := LockedRun(job, jobId, auditId, minute, run);
    var t := job.tenantId;
    if CleanupDue(job, minute, run) {
      var before := (if job.isLongRunning then [StartHeartbeat(jobId)] else [])
        + RunRecord(jobId, auditId, t, run) + [CleanupOldTasks(t), CleanupStaleLocks(t)];
      var after := (if job.isLongRunning then [StopHeartbeat(jobId)] else []);
      assert segment == before + [CleanupStaleRegisteredJobs(t)] + after;
      OfKindAround(before, [CleanupStaleRegisteredJobs(t)], after, StaleJobsCleanup);
      OfKindSingleton(CleanupStaleRegisteredJobs(t), StaleJobsCleanup);
    } else {
      OfKindNone(segment, StaleJobsCleanup);
    }
  }

  /** Everything done under both locks is a heartbeat action, a status or
      audit update, or a maintenance call. */
  lemma LockedRunContents(job: Job, jobId: Uuid, auditId: Uuid, minute: int, run: RunOutcome)
    ensures forall e | e in LockedRun(job, jobId, auditId, minute, run) ::
      || e.StartHeartbeat? || e.StopHeartbeat?
      || e.UpdateJobStatusToFailed? || e.UpdateJobStatusToCompleted? || e.UpdateJobAuditLog?
      || e.CleanupOldTasks? || e.CleanupStaleLocks? || e.CleanupStaleRegisteredJobs?
  {
    var start := if job.isLongRunning then [StartHeartbeat(jobId)] else [];
    var record := RunRecord(jobId, auditId, job.tenantId, run);
    var maintenance := if CleanupDue(job, minute, run) then MaintenanceCalls(job.tenantId) else [];
    var stop := if job.isLongRunning then [StopHeartbeat(jobId)] else [];
    assert LockedRun(job, jobId, auditId, minute, run) == start + record + maintenance + stop;
  }

  /** Nothing under both locks creates an audit log or touches either lock. */
  lemma LockedRunNoLocking(job: Job, jobId: Uuid, auditId: Uuid, minute: int, run: RunOutcome)
    ensures var segment := LockedRun(job, jobId, auditId, minute, run);
      && OfKind(segment, AuditCreate) == []
      && OfKind(segment, AdvisoryTry) == []
      && OfKind(segment, AdvisoryRelease) == []
      && OfKind(segment, DbLock) == []
  {
    var segment := LockedRun(job, jobId, auditId, minute, run);
    LockedRunContents(job, jobId, auditId, minute, run);
    OfKindNone(segment, AuditCreate);
    OfKindNone(segment, AdvisoryTry);
    OfKindNone(segment, AdvisoryRelease);
    OfKindNone(segment, DbLock);
  }

  /** The heartbeat of a long-running job brackets everything else done
      under both locks: it is started first and stopped last. */
  lemma LockedRunHeartbeatBrackets(job: Job, jobId: Uuid, auditId: Uuid, minute: int, run: RunOutcome)
    requires job.isLongRunning
    ensures var segment := LockedRun(job, jobId, auditId, minute, run);
      segment[0] == StartHeartbeat(jobId) && segment[|segment| - 1] == StopHeartbeat(jobId)
  {
    var middle := RunRecord(jobId, auditId, job.tenantId, run)
      + (if CleanupDue(job, minute, run) then MaintenanceCalls(job.tenantId) else []);
    assert LockedRun(job, jobId, auditId, minute, run) == [StartHeartbeat(jobId)] + middle + [StopHeartbeat(jobId)];
  }

  /** After the database answered, the run neither creates audit logs nor
      touches either lock. */
  lemma AfterDbLockContents(c: Invocation, auditId: Uuid, o: Outcomes)
    ensures forall e | e in AfterDbLock(c, auditId, o) ::
      !e.CreateJobAuditLog? && !e.TryAdvisoryLock? && !e.AcquireJobLockInDB? && !e.ReleaseAdvisoryLock?
  {
    if o.dbLock.Ok? {
      LockedRunContents(c.job, o.dbLock.value, auditId, c.minute, o.run);
    }
  }

  /** After the advisory-lock attempt, the run creates no audit log and
      makes no further attempt. */
  lemma AfterAdvisoryTryContents(c: Invocation, auditId: Uuid, o: Outcomes)
    ensures forall e | e in AfterAdvisoryTry(c, auditId, o) :: !e.CreateJobAuditLog? && !e.TryAdvisoryLock?
  {
    AfterDbLockContents(c, auditId, o);
  }

  /** Every run first records that it started and then tries the advisory
      lock derived from the job's lock string and tenant. */
  lemma TraceOpening(c: Invocation, o: Outcomes)
    ensures var trace := Trace(c, o);
      |trace| >= 3 && trace[0] == StartedEntry(c) && trace[1] == TryAdvisoryLock(AdvisoryLockId(c))
  {
  }

  /** Every run creates exactly one audit log entry, the one saying it started. */
  lemma TraceCreatesOneAuditLog(c: Invocation, o: Outcomes)
    ensures OfKind(Trace(c, o), AuditCreate) == [StartedEntry(c)]
  {
    var started, attempt := StartedEntry(c), TryAdvisoryLock(AdvisoryLockId(c));
    var rest := AfterAdvisoryTry(c, AuditId(o), o);
    AfterAdvisoryTryContents(c, AuditId(o), o);
    assert Trace(c, o) == [] + [started] + ([attempt] + rest);
    OfKindAround([], [started], [attempt] + rest, AuditCreate);
    OfKindSingleton(started, AuditCreate);
  }

  /** Every run tries the advisory lock exactly once. */
  lemma TraceTriesOnce(c: Invocation, o: Outcomes)
    ensures OfKind(Trace(c, o), AdvisoryTry) == [TryAdvisoryLock(AdvisoryLockId(c))]
  {
    var started, attempt := StartedEntry(c), TryAdvisoryLock(AdvisoryLockId(c));
    var rest := AfterAdvisoryTry(c, AuditId(o), o);
    AfterAdvisoryTryContents(c, AuditId(o), o);
    assert Trace(c, o) == [started] + [attempt] + rest;
    OfKindAround([started], [attempt], rest, AdvisoryTry);
    OfKindSingleton(attempt, AdvisoryTry);
  }

  /** When the advisory lock was granted, the trace is the opening, the
      database-lock request, what follows it, and the release. */
  lemma TraceWhenAcquired(c: Invocation, o: Outcomes)
    requires LockAcquired(o)
    ensures Trace(c, o) ==
      [StartedEntry(c), TryAdvisoryLock(AdvisoryLockId(c))] + [DbLockRequest(c)]
      + (AfterDbLock(c, AuditId(o), o) + [ReleaseAdvisoryLock(AdvisoryLockId(c))])
  {
  }

  /** The advisory lock is released exactly when it was acquired: then
      once, and never otherwise. */
  lemma TraceReleasesIffAcquired(c: Invocation, o: Outcomes)
    ensures OfKind(Trace(c, o), AdvisoryRelease) ==
      if LockAcquired(o) then [ReleaseAdvisoryLock(AdvisoryLockId(c))] else []
  {
    if !LockAcquired(o) {
      TraceWithoutRun(c, o);
      OfKindNone(Trace(c, o), AdvisoryRelease);
    } else {
      var release := ReleaseAdvisoryLock(AdvisoryLockId(c));
      var before := [StartedEntry(c), TryAdvisoryLock(AdvisoryLockId(c))] + [DbLockRequest(c)]
        + AfterDbLock(c, AuditId(o), o);
      AfterDbLockContents(c, AuditId(o), o);
      TraceWhenAcquired(c, o);
      assert Trace(c, o) == before + [release] + [];
      OfKindAround(before, [release], [], AdvisoryRelease);
      OfKindSingleton(release, AdvisoryRelease);
    }
  }

  /** The deferred release is the very last step of a run that acquired the
      advisory lock, whichever path the run took afterwards (a panic too). */
  lemma TraceEndsWithRelease(c: Invocation, o: Outcomes)
    requires LockAcquired(o)
    ensures var trace := Trace(c, o); trace[|trace| - 1] == ReleaseAdvisoryLock(AdvisoryLockId(c))
  {
    TraceWhenAcquired(c, o);
  }

  /** The job lock in the database is asked for once, and only while the
      advisory lock is held. */
  lemma TraceDbLockUnderAdvisoryLock(c: Invocation, o: Outcomes)
    ensures OfKind(Trace(c, o), DbLock) == if LockAcquired(o) then [DbLockRequest(c)] else []
  {
    var trace := Trace(c, o);
    if !LockAcquired(o) {
      TraceWithoutRun(c, o);
      OfKindNone(trace, DbLock);
    } else {
      var opening, request := [StartedEntry(c), TryAdvisoryLock(AdvisoryLockId(c))], DbLockRequest(c);
      var after := AfterDbLock(c, AuditId(o), o) + [ReleaseAdvisoryLock(AdvisoryLockId(c))];
      AfterDbLockContents(c, AuditId(o), o);
      TraceWhenAcquired(c, o);
      OfKindAround(opening, [request], after, DbLock);
      OfKindSingleton(request, DbLock);
    }
  }

  /** When the job ran, the trace is the opening, the database-lock request,
      the locked run and the release. */
  lemma TraceWhenRan(c: Invocation, o: Outcomes)
    requires JobRan(o)
    ensures Trace(c, o) ==
      [StartedEntry(c), TryAdvisoryLock(AdvisoryLockId(c)), DbLockRequest(c)]
      + LockedRun(c.job, o.dbLock.value, AuditId(o), c.minute, o.run)
      + [ReleaseAdvisoryLock(AdvisoryLockId(c))]
  {
  }

  /** When the job did not run, the trace holds only audit-log writes and
      lock requests and releases. */
  lemma TraceWithoutRun(c: Invocation, o: Outcomes)
    requires !JobRan(o)
    ensures forall e | e in Trace(c, o) ::
      || e.CreateJobAuditLog? || e.TryAdvisoryLock? || e.UpdateJobAuditLog?
      || e.AcquireJobLockInDB? || e.ReleaseAdvisoryLock?
  {
  }

  /** A heartbeat is started and stopped, once each, exactly for a
      long-running job that obtained both locks. */
  lemma TraceHeartbeat(c: Invocation, o: Outcomes)
    ensures OfKind(Trace(c, o), HeartbeatStart) ==
      if JobRan(o) && c.job.isLongRunning then [StartHeartbeat(o.dbLock.value)] else []
    ensures OfKind(Trace(c, o), HeartbeatStop) ==
      if JobRan(o) && c.job.isLongRunning then [StopHeartbeat(o.dbLock.value)] else []
  {
    if JobRan(o) {
      TraceHeartbeatWhenRan(c, o, HeartbeatStart);
      TraceHeartbeatWhenRan(c, o, HeartbeatStop);
      LockedRunHeartbeatStart(c.job, o.dbLock.value, AuditId(o), c.minute, o.run);
      LockedRunHeartbeatStop(c.job, o.dbLock.value, AuditId(o), c.minute, o.run);
    } else {
      TraceWithoutRun(c, o);
      OfKindNone(Trace(c, o), HeartbeatStart);
      OfKindNone(Trace(c, o), HeartbeatStop);
    }
  }

  /** The heartbeat calls of a run that got both locks are those of its
      locked part. */
  lemma TraceHeartbeatWhenRan(c: Invocation, o: Outcomes, k: EffectKind)
    requires JobRan(o)
    requires k == HeartbeatStart || k == HeartbeatStop
    ensures OfKind(Trace(c, o), k) == OfKind(LockedRun(c.job, o.dbLock.value, AuditId(o), c.minute, o.run), k)
  {
    var opening := [StartedEntry(c), TryAdvisoryLock(AdvisoryLockId(c)), DbLockRequest(c)];
    var segment := LockedRun(c.job, o.dbLock.value, AuditId(o), c.minute, o.run);
    var release := [ReleaseAdvisoryLock(AdvisoryLockId(c))];
    TraceWhenRan(c, o);
    OfKindAround(opening, segment, release, k);
  }

  /** One status update of the job's row is requested, to completed (when
      `Run` returned no error) or failed (an error or a panic), exactly when
      the job ran. */
  lemma TraceStatusUpdate(c: Invocation, o: Outcomes)
    ensures OfKind(Trace(c, o), StatusUpdate) ==
      if !JobRan(o) then []
      else if o.run == Returned(None) then [UpdateJobStatusToCompleted(o.dbLock.value)]
      else [UpdateJobStatusToFailed(o.dbLock.value)]
  {
    if JobRan(o) {
      var opening := [StartedEntry(c), TryAdvisoryLock(AdvisoryLockId(c)), DbLockRequest(c)];
      var segment := LockedRun(c.job, o.dbLock.value, AuditId(o), c.minute, o.run);
      TraceWhenRan(c, o);
      OfKindAround(opening, segment, [ReleaseAdvisoryLock(AdvisoryLockId(c))], StatusUpdate);
      LockedRunStatus(c.job, o.dbLock.value, AuditId(o), c.minute, o.run);
    } else {
      TraceWithoutRun(c, o);
      OfKindNone(Trace(c, o), StatusUpdate);
    }
  }

  /** Old tasks of the job's tenant are cleaned up once exactly when the job
      ran, `Run` returned rather than panicked, and the job is the dedicated
      cleanup job or the run falls on the hour; never otherwise. */
  lemma TraceOldTasksCleanup(c: Invocation, o: Outcomes)
    ensures var due := JobRan(o) && o.run.Returned? && (c.job.name == CleanupJobName || c.minute == 0);
      OfKind(Trace(c, o), OldTasksCleanup) == if due then [CleanupOldTasks(c.job.tenantId)] else []
  {
    if JobRan(o) {
      var opening := [StartedEntry(c), TryAdvisoryLock(AdvisoryLockId(c)), DbLockRequest(c)];
      var segment := LockedRun(c.job, o.dbLock.value, AuditId(o), c.minute, o.run);
      TraceWhenRan(c, o);
      OfKindAround(opening, segment, [ReleaseAdvisoryLock(AdvisoryLockId(c))], OldTasksCleanup);
      LockedRunOldTasksCleanup(c.job, o.dbLock.value, AuditId(o), c.minute, o.run);
    } else {
      TraceWithoutRun(c, o);
      OfKindNone(Trace(c, o), OldTasksCleanup);
    }
  }

  /** Stale job locks of the job's tenant are cleaned up once under the same
      condition as old tasks, and never otherwise. */
  lemma TraceStaleLocksCleanup(c: Invocation, o: Outcomes)
    ensures var due := JobRan(o) && o.run.Returned? && (c.job.name == CleanupJobName || c.minute == 0);
      OfKind(Trace(c, o), StaleLocksCleanup) == if due then [CleanupStaleLocks(c.job.tenantId)] else []
  {
    if JobRan(o) {
      var opening := [StartedEntry(c), TryAdvisoryLock(AdvisoryLockId(c)), DbLockRequest(c)];
      var segment := LockedRun(c.job, o.dbLock.value, AuditId(o), c.minute, o.run);
      TraceWhenRan(c, o);
      OfKindAround(opening, segment, [ReleaseAdvisoryLock(AdvisoryLockId(c))], StaleLocksCleanup);
      LockedRunStaleLocksCleanup(c.job, o.dbLock.value, AuditId(o), c.minute, o.run);
    } else {
      TraceWithoutRun(c, o);
      OfKindNone(Trace(c, o), StaleLocksCleanup);
    }
  }

  /** Stale registered jobs of the job's tenant are cleaned up once under the
      same condition as old tasks, and never otherwise. */
  lemma TraceStaleJobsCleanup(c: Invocation, o: Outcomes)
    ensures var due := JobRan(o) && o.run.Returned? && (c.job.name == CleanupJobName || c.minute == 0);
      OfKind(Trace(c, o), StaleJobsCleanup) == if due then [CleanupStaleRegisteredJobs(c.job.tenantId)] else []
  {
    if JobRan(o) {
      var opening := [StartedEntry(c), TryAdvisoryLock(AdvisoryLockId(c)), DbLockRequest(c)];
      var segment := LockedRun(c.job, o.dbLock.value, AuditId(o), c.minute, o.run);
      TraceWhenRan(c, o);
      OfKindAround(opening, segment, [ReleaseAdvisoryLock(AdvisoryLockId(c))], StaleJobsCleanup);
      LockedRunStaleJobsCleanup(c.job, o.dbLock.value, AuditId(o), c.minute, o.run);
    } else {
      TraceWithoutRun(c, o);
      OfKindNone(Trace(c, o), StaleJobsCleanup);
    }
  }

  // One update of a run's audit log entry is requested; which status,
  // output and error it receives depends on the path the run took.

  /** The single audit update of a run that ended before taking the
      advisory lock, and the prefix it follows. */
  lemma TraceAuditBeforeLock(c: Invocation, o: Outcomes)
    requires !LockAcquired(o)
    ensures Trace(c, o) == [StartedEntry(c), TryAdvisoryLock(AdvisoryLockId(c))] + AfterAdvisoryTry(c, AuditId(o), o)
    ensures OfKind(Trace(c, o), AuditUpdate) == AfterAdvisoryTry(c, AuditId(o), o)
  {
    var opening := [StartedEntry(c), TryAdvisoryLock(AdvisoryLockId(c))];
    var audit := AfterAdvisoryTry(c, AuditId(o), o);
    assert |audit| == 1 && audit[0].UpdateJobAuditLog?;
    assert Trace(c, o) == opening + audit + [];
    OfKindAround(opening, audit, [], AuditUpdate);
    OfKindSingleton(audit[0], AuditUpdate);
  }

  /** Asking for the advisory lock failed: the run is audited as failed with
      the database's error. */
  lemma TraceAuditAdvisoryError(c: Invocation, o: Outcomes)
    requires o.advisoryLock.Err?
    ensures OfKind(Trace(c, o), AuditUpdate) ==
      [UpdateJobAuditLog(UpdateAuditLogStatus(AuditId(o), StatusFailed, None, Some(o.advisoryLock.message), c.job.tenantId))]
  {
    TraceAuditBeforeLock(c, o);
  }

  /** Another instance holds the advisory lock: the run is audited as
      skipped because the job is already running. */
  lemma TraceAuditAlreadyRunning(c: Invocation, o: Outcomes)
    requires o.advisoryLock == Ok(false)
    ensures OfKind(Trace(c, o), AuditUpdate) ==
      [UpdateJobAuditLog(UpdateAuditLogStatus(AuditId(o), StatusSkipped, None, Some(AlreadyRunningMessage), c.job.tenantId))]
  {
    TraceAuditBeforeLock(c, o);
  }

  /** The single audit update of a run whose database lock was refused, and
      where it sits: between the request and the release. */
  lemma TraceAuditDbLockRefused(c: Invocation, o: Outcomes)
    requires LockAcquired(o) && o.dbLock.Err?
    ensures OfKind(Trace(c, o), AuditUpdate) ==
      [UpdateJobAuditLog(DbLockRefusal(AuditId(o), c.job.tenantId, o.dbLock.message))]
  {
    var opening := [StartedEntry(c), TryAdvisoryLock(AdvisoryLockId(c))] + [DbLockRequest(c)];
    var audit := UpdateJobAuditLog(DbLockRefusal(AuditId(o), c.job.tenantId, o.dbLock.message));
    var release := [ReleaseAdvisoryLock(AdvisoryLockId(c))];
    TraceWhenAcquired(c, o);
    assert Trace(c, o) == opening + [audit] + release;
    OfKindAround(opening, [audit], release, AuditUpdate);
    OfKindSingleton(audit, AuditUpdate);
  }

  /** The database reports no row to lock (another instance has the job):
      the run is audited as skipped because the job is already locked. */
  lemma TraceAuditAlreadyLocked(c: Invocation, o: Outcomes)
    requires LockAcquired(o) && o.dbLock == Err(ErrNoRowsMessage)
    ensures OfKind(Trace(c, o), AuditUpdate) ==
      [UpdateJobAuditLog(UpdateAuditLogStatus(AuditId(o), StatusSkipped, None, Some(AlreadyLockedMessage), c.job.tenantId))]
  {
    TraceAuditDbLockRefused(c, o);
  }

  /** Any other database error: the run is audited as failed with that error. */
  lemma TraceAuditDbLockError(c: Invocation, o: Outcomes)
    requires LockAcquired(o) && o.dbLock.Err? && o.dbLock.message != ErrNoRowsMessage
    ensures OfKind(Trace(c, o), AuditUpdate) ==
      [UpdateJobAuditLog(UpdateAuditLogStatus(AuditId(o), StatusFailed, None, Some(o.dbLock.message), c.job.tenantId))]
  {
    TraceAuditDbLockRefused(c, o);
  }

  /** The single audit update of a run that ran the job records how `Run`
      ended. */
  lemma TraceAuditAfterRun(c: Invocation, o: Outcomes)
    requires JobRan(o)
    ensures OfKind(Trace(c, o), AuditUpdate) ==
      [UpdateJobAuditLog(RunAudit(AuditId(o), c.job.tenantId, o.run))]
  {
    var opening := [StartedEntry(c), TryAdvisoryLock(AdvisoryLockId(c)), DbLockRequest(c)];
    var segment := LockedRun(c.job, o.dbLock.value, AuditId(o), c.minute, o.run);
    TraceWhenRan(c, o);
    OfKindAround(opening, segment, [ReleaseAdvisoryLock(AdvisoryLockId(c))], AuditUpdate);
    LockedRunAudit(c.job, o.dbLock.value, AuditId(o), c.minute, o.run);
  }

  /** `Run` returned no error: the run is audited as completed, with the
      success output and no error. */
  lemma TraceAuditCompleted(c: Invocation, o: Outcomes)
    requires JobRan(o) && o.run == Returned(None)
    ensures OfKind(Trace(c, o), AuditUpdate) ==
      [UpdateJobAuditLog(UpdateAuditLogStatus(AuditId(o), StatusCompleted, Some(CompletedOutput), None, c.job.tenantId))]
  {
    TraceAuditAfterRun(c, o);
  }

  /** `Run` returned an error: the run is audited as failed with that error. */
  lemma TraceAuditRunError(c: Invocation, o: Outcomes)
    requires JobRan(o) && o.run.Returned? && o.run.err.Some?
    ensures OfKind(Trace(c, o), AuditUpdate) ==
      [UpdateJobAuditLog(UpdateAuditLogStatus(AuditId(o), StatusFailed, None, o.run.err, c.job.tenantId))]
  {
    TraceAuditAfterRun(c, o);
  }

  /** `Run` panicked: the recovered value is audited as a failure, prefixed
      with "Panic: ". */
  lemma TraceAuditPanicked(c: Invocation, o: Outcomes)
    requires JobRan(o) && o.run.Panicked?
    ensures OfKind(Trace(c, o), AuditUpdate) ==
      [UpdateJobAuditLog(UpdateAuditLogStatus(AuditId(o), StatusFailed, None, Some(PanicPrefix + o.run.value), c.job.tenantId))]
  {
    TraceAuditAfterRun(c, o);
  }

  /** The part of executeJobWithLock under both locks: start the heartbeat
      of a long-running job (its stop is deferred), run the job and record
      how it ended, and run the maintenance cleanup when it is due. */
  method RunLocked(job: Job, jobId: Uuid, auditId: Uuid, minute: int, run: RunOutcome)
    returns (effects: seq<Effect>)
    ensures effects == LockedRun(job, jobId, auditId, minute, run)
  {
    var tenantId := job.tenantId;
    var deferred := [];
    effects := [];
    if job.isLongRunning {
      effects := [StartHeartbeat(jobId)];
      deferred := [StopHeartbeat(jobId)] + deferred;
    }

    match run {
      case Panicked(value) =>
        // The deferred recovery requests the failed status and the panic's audit;
        // the cleanup below is skipped by the unwinding.
        effects := effects + [UpdateJobStatusToFailed(jobId)];
        effects := effects + [UpdateJobAuditLog(UpdateAuditLogStatus(auditId, StatusFailed, None, Some(PanicPrefix + value), tenantId))];
        effects := effects + deferred;
        return;
      case Returned(Some(message)) =>
        effects := effects + [UpdateJobStatusToFailed(jobId)];
        effects := effects + [UpdateJobAuditLog(UpdateAuditLogStatus(auditId, StatusFailed, None, Some(message), tenantId))];
      case Returned(None) =>
        effects := effects + [UpdateJobStatusToCompleted(jobId)];
        effects := effects + [UpdateJobAuditLog(UpdateAuditLogStatus(auditId, StatusCompleted, Some(CompletedOutput), None, tenantId))];
    }
    ghost var recorded := effects;
    assert recorded == (if job.isLongRunning then [StartHeartbeat(jobId)] else []) + RunRecord(jobId, auditId, tenantId, run);

    if job.name == CleanupJobName || minute == 0 {
      effects := effects + [CleanupOldTasks(tenantId)];
      effects := effects + [CleanupStaleLocks(tenantId)];
      effects := effects + [CleanupStaleRegisteredJobs(tenantId)];
    }
    assert effects == recorded + (if CleanupDue(job, minute, run) then MaintenanceCalls(tenantId) else []);
    effects := effects + deferred;
  }

  /** The part of executeJobWithLock once the advisory lock `lockId` is
      held: its release is deferred, the job lock in the database is asked
      for, and a refusal is recorded or the job runs. */
  method RunUnderAdvisoryLock(c: Invocation, auditId: Uuid, lockId: int64, o: Outcomes)
    returns (effects: seq<Effect>)
    requires lockId == AdvisoryLockId(c)
    ensures effects == UnderAdvisoryLock(c, auditId, o)
  {
    var job, tenantId := c.job, c.job.tenantId;
    var deferred := [ReleaseAdvisoryLock(lockId)];
    effects := [AcquireJobLockInDB(tenantId, job.lock, job.name, c.now, c.nextRunTime, c.instanceId)];
    if o.dbLock.Err? {
      if o.dbLock.message == ErrNoRowsMessage {
        effects := effects + [UpdateJobAuditLog(UpdateAuditLogStatus(auditId, StatusSkipped, None, Some(AlreadyLockedMessage), tenantId))];
      } else {
        effects := effects + [UpdateJobAuditLog(UpdateAuditLogStatus(auditId, StatusFailed, None, Some(o.dbLock.message), tenantId))];
      }
      effects := effects + deferred;
      return;
    }
    var locked := RunLocked(job, o.dbLock.value, auditId, c.minute, o.run);
    effects := effects + locked + deferred;
  }

  /** executeJobWithLock: one run of a scheduled job, as the sequence of
      store calls it makes given the collaborators' answers `o`. */
  method ExecuteJobWithLock(instanceId: string, job: Job, requestId: string, now: Timestamp,
                            minute: int, nextRunTime: Timestamp, o: Outcomes)
    returns (effects: seq<Effect>)
    ensures effects == Trace(Invocation(instanceId, job, requestId, now, minute, nextRunTime), o)
  {
    var c := Invocation(instanceId, job, requestId, now, minute, nextRunTime);
    var tenantId := job.tenantId;
    effects := [CreateJobAuditLog(SystemUser, instanceId, requestId, job.name, now, now, StatusStarted, tenantId)];
    // A failed creation leaves the zero audit-log id; the run goes on.
    var auditId := if o.auditLog.Ok? then o.auditLog.value else NilUuid;

    var hash := JobLockToLockID(job.lock, tenantId);
    var lockId := hash as int as int64;
    effects := effects + [TryAdvisoryLock(lockId)];
    if o.advisoryLock.Err? {
      effects := effects + [UpdateJobAuditLog(UpdateAuditLogStatus(auditId, StatusFailed, None, Some(o.advisoryLock.message), tenantId))];
      return;
    }
    if !o.advisoryLock.value {
      effects := effects + [UpdateJobAuditLog(UpdateAuditLogStatus(auditId, StatusSkipped, None, Some(AlreadyRunningMessage), tenantId))];
      return;
    }
    var held := RunUnderAdvisoryLock(c, auditId, lockId, o);
    effects := effects + held;
  }
}
