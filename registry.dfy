/** The in-process job registry: which jobs are registered, which of them
    hold a cron entry, and whether the scheduler runs. */
module Registry {
  import opened Types
  import opened JobKeys

  /** A cron entry id (`cron.EntryID`). */
  type EntryId = nat

  /** The row `RegisterJob` upserts into the registered-jobs table. */
  datatype UpsertRegisteredJobParams = UpsertRegisteredJobParams(
    jobName: string,
    schedule: string,
    isLongRunning: bool,
    isEnabled: bool,
    instanceId: string,
    tenantId: string)

  /** A call the registry issues to the store. */
  datatype RegistryCall =
    | UpsertRegisteredJob(params: UpsertRegisteredJobParams)
    | DeleteRegisteredJob(jobName: string, tenantId: string)

  /** No two jobs share a key. */
  ghost predicate DistinctKeys(jobs: seq<Job>)
  {
    forall i, j :: 0 <= i < j < |jobs| ==> KeyOf(jobs[i]) != KeyOf(jobs[j])
  }

  /** The keys of a list of jobs. */
  function KeysOf(jobs: seq<Job>): set<string>
  {
    set job | job in jobs :: KeyOf(job)
  }

  /** The tenants of a list of jobs. */
  function TenantsOf(jobs: seq<Job>): set<string>
  {
    set job | job in jobs :: job.tenantId
  }

  /** `job` has exactly this name and tenant (the test `UnregisterJob` uses). */
  predicate Matches(job: Job, name: string, tenantId: string)
  {
    job.name == name && job.tenantId == tenantId
  }

  /** `i` is the first position of a job with exactly this name and tenant. */
  predicate IsFirstMatch(jobs: seq<Job>, name: string, tenantId: string, i: int)
  {
    0 <= i < |jobs| && Matches(jobs[i], name, tenantId)
    && forall k :: 0 <= k < i ==> !Matches(jobs[k], name, tenantId)
  }

  /** The entry ids in a map are pairwise distinct. */
  ghost predicate DistinctIds(entryIds: map<string, EntryId>)
  {
    forall k1, k2 :: k1 in entryIds && k2 in entryIds && k1 != k2 ==> entryIds[k1] != entryIds[k2]
  }

  /** Storing an id above every id present keeps the ids distinct. */
  lemma FreshIdKeepsDistinct(entryIds: map<string, EntryId>, key: string, id: EntryId)
    requires DistinctIds(entryIds) && forall k :: k in entryIds ==> entryIds[k] < id
    ensures DistinctIds(entryIds[key := id])
  {
  }

  /** Removing one job from a list with distinct keys keeps the keys distinct. */
  lemma RemoveAtKeepsDistinct(jobs: seq<Job>, i: int)
    requires 0 <= i < |jobs| && DistinctKeys(jobs)
    ensures DistinctKeys(jobs[..i] + jobs[i + 1..])
  {
    var r := jobs[..i] + jobs[i + 1..];
    forall a, b | 0 <= a < b < |r|
      ensures KeyOf(r[a]) != KeyOf(r[b])
    {
      var a' := if a < i then a else a + 1;
      var b' := if b < i then b else b + 1;
      assert r[a] == jobs[a'] && r[b] == jobs[b'];
    }
  }

  /** Removing job `i` keeps every other key. */
  lemma RemoveAtKeepsOtherKeys(jobs: seq<Job>, i: int)
    requires 0 <= i < |jobs|
    ensures KeysOf(jobs) - {KeyOf(jobs[i])} <= KeysOf(jobs[..i] + jobs[i + 1..])
  {
    var r := jobs[..i] + jobs[i + 1..];
    forall key | key in KeysOf(jobs) - {KeyOf(jobs[i])}
      ensures key in KeysOf(r)
    {
      var k :| 0 <= k < |jobs| && KeyOf(jobs[k]) == key;
      if k < i {
        assert r[k] == jobs[k];
      } else {
        assert r[k - 1] == jobs[k];
      }
    }
  }

  /** Removing job `i` from a list with distinct keys removes its key. */
  lemma RemoveAtDropsKey(jobs: seq<Job>, i: int)
    requires 0 <= i < |jobs| && DistinctKeys(jobs)
    ensures KeysOf(jobs[..i] + jobs[i + 1..]) <= KeysOf(jobs) - {KeyOf(jobs[i])}
  {
    var r := jobs[..i] + jobs[i + 1..];
    forall key | key in KeysOf(r)
      ensures key in KeysOf(jobs) - {KeyOf(jobs[i])}
    {
      var k :| 0 <= k < |r| && KeyOf(r[k]) == key;
      var k' := if k < i then k else k + 1;
      assert r[k] == jobs[k'];
    }
  }

  /** Removing job `i` removes its key and keeps every other key. */
  lemma RemoveAtKeys(jobs: seq<Job>, i: int)
    requires 0 <= i < |jobs| && DistinctKeys(jobs)
    ensures KeysOf(jobs[..i] + jobs[i + 1..]) == KeysOf(jobs) - {KeyOf(jobs[i])}
  {
    RemoveAtKeepsOtherKeys(jobs, i);
    RemoveAtDropsKey(jobs, i);
  }

  /** Appending a job whose key is new keeps the keys distinct and adds its key. */
  lemma AppendNewKey(jobs: seq<Job>, job: Job)
    requires DistinctKeys(jobs) && KeyOf(job) !in KeysOf(jobs)
    ensures DistinctKeys(jobs + [job])
    ensures KeysOf(jobs + [job]) == KeysOf(jobs) + {KeyOf(job)}
  {
    var r := jobs + [job];
    forall a, b | 0 <= a < b < |r|
      ensures KeyOf(r[a]) != KeyOf(r[b])
    {
      assert r[a] == jobs[a];
      if b < |jobs| {
        assert r[b] == jobs[b];
      } else {
        assert r[a] in jobs;
      }
    }
    assert forall x | x in r :: x in jobs || x == job;
  }

  /** The first match is unique. */
  lemma FirstMatchUnique(jobs: seq<Job>, name: string, tenantId: string, i: int, j: int)
    requires IsFirstMatch(jobs, name, tenantId, i) && IsFirstMatch(jobs, name, tenantId, j)
    ensures i == j
  {
  }

  /** The search at the top of `RegisterJob`: is some job's key `key`? */
  method ContainsKey(jobs: seq<Job>, key: string) returns (found: bool)
    ensures found <==> key in KeysOf(jobs)
  {
    var i := 0;
    while i < |jobs|
      invariant 0 <= i <= |jobs|
      invariant forall k :: 0 <= k < i ==> KeyOf(jobs[k]) != key
    {
      if KeyOf(jobs[i]) == key {
        return true;
      }
      i := i + 1;
    }
    return false;
  }

  /** The search in `UnregisterJob`: the position of the first job with
      exactly this name and tenant, or `|jobs|` when there is none. */
  method FirstMatch(jobs: seq<Job>, name: string, tenantId: string) returns (i: int)
    ensures 0 <= i <= |jobs|
    ensures i < |jobs| ==> IsFirstMatch(jobs, name, tenantId, i)
    ensures i == |jobs| ==> forall k :: 0 <= k < |jobs| ==> !Matches(jobs[k], name, tenantId)
  {
    i := 0;
    while i < |jobs|
      invariant 0 <= i <= |jobs|
      invariant forall k :: 0 <= k < i ==> !Matches(jobs[k], name, tenantId)
    {
      if Matches(jobs[i], name, tenantId) {
        return;
      }
      i := i + 1;
    }
  }

  /** After `UnregisterJob` removes the first match, no job with that exact
      name and tenant is left: keys are distinct, so there was only one. */
  lemma {:induction false} NoMatchLeftAfterRemoval(jobs: seq<Job>, name: string, tenantId: string, i: int)
    requires DistinctKeys(jobs) && IsFirstMatch(jobs, name, tenantId, i)
    ensures forall job :: job in jobs[..i] + jobs[i + 1..] ==> !Matches(job, name, tenantId)
  {
    var r := jobs[..i] + jobs[i + 1..];
    forall job | job in r
      ensures !Matches(job, name, tenantId)
    {
      var k :| 0 <= k < |r| && r[k] == job;
      var k' := if k < i then k else k + 1;
      assert r[k] == jobs[k'];
    }
  }

  /** The job manager's registry (the `JobManager` fields `jobs`,
      `entryIDs` and `isRunning`) together with the two collaborators it
      calls: the cron scheduler, whose parser is the oracle
      `scheduleAccepted` and whose entry ids are handed out in increasing
      order from `nextEntryId`, and the store, whose calls are recorded in
      `storeLog`. */
  class JobManager {
    const instanceId: string
    const scheduleAccepted: string -> bool

    var jobs: seq<Job>
    var entryIds: map<string, EntryId>
    var isRunning: bool
    var nextEntryId: EntryId
    /** `cleanupTicker != nil`: the cleanup routine has been started. */
    var cleanupStarted: bool
    /** `stopCleanup != nil`: the channel that stops the cleanup routine has
        been made. Nothing makes it before it is first closed. */
    var stopCleanupMade: bool

    /** Every call made to the store, in order. */
    ghost var storeLog: seq<RegistryCall>
    /** Every job handed to cron's `AddFunc`, in order. */
    ghost var addAttempts: seq<Job>

    /** The registry invariant. */
    ghost predicate Valid()
      reads this
    {
      && DistinctKeys(jobs)
      && entryIds.Keys <= KeysOf(jobs)
      && (!isRunning ==> entryIds == map[])
      && (isRunning ==> cleanupStarted)
      && (forall k :: k in entryIds ==> entryIds[k] < nextEntryId)
      && DistinctIds(entryIds)
    }

    /** The keys of the jobs whose schedule cron accepts. */
    function AcceptedKeys(js: seq<Job>): (keys: set<string>)
      ensures keys <= KeysOf(js)
    {
      set job | job in js && scheduleAccepted(job.schedule) :: KeyOf(job)
    }

    /** One more job adds its key exactly when cron accepts its schedule. */
    lemma AcceptedKeysSnoc(js: seq<Job>, job: Job)
      ensures AcceptedKeys(js + [job]) ==
        AcceptedKeys(js) + (if scheduleAccepted(job.schedule) then {KeyOf(job)} else {})
    {
      assert forall x | x in js + [job] :: x in js || x == job;
    }

    /** newJobManager: no jobs, no entries, not running. */
    constructor (instanceId: string, scheduleAccepted: string -> bool)
      ensures Valid()
      ensures this.instanceId == instanceId && this.scheduleAccepted == scheduleAccepted
      ensures jobs == [] && entryIds == map[] && !isRunning
      ensures storeLog == [] && addAttempts == []
      ensures !cleanupStarted && !stopCleanupMade
    {
      this.instanceId := instanceId;
      this.scheduleAccepted := scheduleAccepted;
      jobs := [];
      entryIds := map[];
      isRunning := false;
      nextEntryId := 1;
      cleanupStarted := false;
      stopCleanupMade := false;
      storeLog := [];
      addAttempts := [];
    }

    /** cron's `AddFunc`: rejects a schedule it cannot parse, otherwise
        returns a fresh entry id. */
    method AddFunc(job: Job) returns (r: Result<EntryId>)
      modifies this`nextEntryId, this`addAttempts
      ensures addAttempts == old(addAttempts) + [job]
      ensures scheduleAccepted(job.schedule) ==>
        r == Ok(old(nextEntryId)) && nextEntryId == old(nextEntryId) + 1
      ensures !scheduleAccepted(job.schedule) ==> r.Err? && nextEntryId == old(nextEntryId)
    {
      addAttempts := addAttempts + [job];
      if scheduleAccepted(job.schedule) {
        r := Ok(nextEntryId);
        nextEntryId := nextEntryId + 1;
      } else {
        r := Err("failed to parse schedule");
      }
    }

    /** scheduleJob: one `AddFunc` attempt; on success the job's key maps
        to the new entry id. */
    method ScheduleJob(job: Job)
      modifies this`nextEntryId, this`addAttempts, this`entryIds
      ensures addAttempts == old(addAttempts) + [job]
      ensures scheduleAccepted(job.schedule) ==>
        entryIds == old(entryIds)[KeyOf(job) := old(nextEntryId)] && nextEntryId == old(nextEntryId) + 1
      ensures !scheduleAccepted(job.schedule) ==>
        entryIds == old(entryIds) && nextEntryId == old(nextEntryId)
    {
      var entry := AddFunc(job);
      if entry.Err? {
        return;
      }
      entryIds := entryIds[KeyOf(job) := entry.value];
    }

    /** RegisterJob: a job whose key is already registered changes nothing;
        a new job is appended, upserted as enabled for this instance, and
        scheduled at once when the scheduler runs. */
    method RegisterJob(job: Job)
      requires Valid()
      modifies this`jobs, this`storeLog, this`entryIds, this`nextEntryId, this`addAttempts
      ensures Valid()
      ensures KeyOf(job) in KeysOf(old(jobs)) ==> unchanged(this)
      ensures KeyOf(job) !in KeysOf(old(jobs)) ==>
        && jobs == old(jobs) + [job]
        && storeLog == old(storeLog) + [UpsertRegisteredJob(UpsertRegisteredJobParams(
             job.name, job.schedule, job.isLongRunning, true, instanceId, job.tenantId))]
        && isRunning == old(isRunning)
        && addAttempts == old(addAttempts) + (if old(isRunning) then [job] else [])
        && entryIds == (if old(isRunning) && scheduleAccepted(job.schedule)
                        then old(entryIds)[KeyOf(job) := old(nextEntryId)]
                        else old(entryIds))
    {
      var key := KeyOf(job);
      var registered := ContainsKey(jobs, key);
      if registered {
        return;
      }
      AppendNewKey(jobs, job);
      jobs := jobs + [job];
      storeLog := storeLog + [UpsertRegisteredJob(UpsertRegisteredJobParams(
        job.name, job.schedule, job.isLongRunning, true, instanceId, job.tenantId))];
      if isRunning {
        ScheduleJob(job);
      }
    }

    /** The removal from the job list in `UnregisterJob`: the first job
        with exactly this name and tenant goes, the others keep their order. */
    method RemoveFirstMatch(name: string, tenantId: string)
      requires DistinctKeys(jobs)
      modifies this`jobs
      ensures DistinctKeys(jobs)
      ensures KeysOf(old(jobs)) - {JobKey(name, tenantId)} <= KeysOf(jobs) <= KeysOf(old(jobs))
      ensures (forall k :: 0 <= k < |old(jobs)| ==> !Matches(old(jobs)[k], name, tenantId)) ==> jobs == old(jobs)
      ensures forall i :: IsFirstMatch(old(jobs), name, tenantId, i) ==>
        jobs == old(jobs)[..i] + old(jobs)[i + 1..]
    {
      var i := FirstMatch(jobs, name, tenantId);
      if i < |jobs| {
        RemoveAtKeepsDistinct(jobs, i);
        RemoveAtKeys(jobs, i);
        forall j | IsFirstMatch(jobs, name, tenantId, j)
          ensures j == i
        {
          FirstMatchUnique(jobs, name, tenantId, i, j);
        }
        jobs := jobs[..i] + jobs[i + 1..];
      }
    }

    /** UnregisterJob: while running, the cron entry under the job's key is
        dropped; the first job with exactly this name and tenant is removed,
        the others keep their order; the store delete is always issued. */
    method UnregisterJob(name: string, tenantId: string)
      requires Valid()
      modifies this`jobs, this`storeLog, this`entryIds
      ensures Valid()
      ensures isRunning == old(isRunning) && nextEntryId == old(nextEntryId)
      ensures addAttempts == old(addAttempts)
      ensures entryIds == old(entryIds) - {JobKey(name, tenantId)}
      ensures !old(isRunning) ==> entryIds == old(entryIds)
      ensures storeLog == old(storeLog) + [DeleteRegisteredJob(name, tenantId)]
      ensures (forall k :: 0 <= k < |old(jobs)| ==> !Matches(old(jobs)[k], name, tenantId)) ==> jobs == old(jobs)
      ensures forall i :: IsFirstMatch(old(jobs), name, tenantId, i) ==>
        jobs == old(jobs)[..i] + old(jobs)[i + 1..]
    {
      var key := JobKey(name, tenantId);
      if isRunning && key in entryIds {
        entryIds := entryIds - {key};
      }
      RemoveFirstMatch(name, tenantId);
      storeLog := storeLog + [DeleteRegisteredJob(name, tenantId)];
    }

    /** The loop of `StartScheduler`: every job gets one `AddFunc` attempt,
        in order, starting from no entries. */
    method ScheduleAll()
      requires entryIds == map[]
      modifies this`entryIds, this`nextEntryId, this`addAttempts
      ensures entryIds.Keys == AcceptedKeys(jobs)
      ensures addAttempts == old(addAttempts) + jobs
      ensures old(nextEntryId) <= nextEntryId
      ensures forall k :: k in entryIds ==> old(nextEntryId) <= entryIds[k] < nextEntryId
      ensures DistinctIds(entryIds)
    {
      var i := 0;
      while i < |jobs|
        invariant 0 <= i <= |jobs|
        invariant entryIds.Keys == AcceptedKeys(jobs[..i])
        invariant old(nextEntryId) <= nextEntryId
        invariant forall k :: k in entryIds ==> old(nextEntryId) <= entryIds[k] < nextEntryId
        invariant DistinctIds(entryIds)
        invariant addAttempts == old(addAttempts) + jobs[..i]
      {
        assert jobs[..i + 1] == jobs[..i] + [jobs[i]];
        AcceptedKeysSnoc(jobs[..i], jobs[i]);
        FreshIdKeepsDistinct(entryIds, KeyOf(jobs[i]), nextEntryId);
        ScheduleJob(jobs[i]);
        i := i + 1;
      }
      assert jobs[..i] == jobs;
    }

    /** StartScheduler: a no-op while running; otherwise every job gets one
        `AddFunc` attempt, in order, the scheduler runs and the cleanup
        routine is started. */
    method StartScheduler()
      requires Valid()
      modifies this`entryIds, this`nextEntryId, this`addAttempts, this`isRunning, this`cleanupStarted
      ensures Valid()
      ensures old(isRunning) ==> unchanged(this)
      ensures isRunning && jobs == old(jobs) && storeLog == old(storeLog)
      ensures !old(isRunning) ==>
        && entryIds.Keys == AcceptedKeys(jobs)
        && addAttempts == old(addAttempts) + jobs
        && (forall k :: k in entryIds ==> old(nextEntryId) <= entryIds[k])
        && cleanupStarted
    {
      if isRunning {
        return;
      }
      ScheduleAll();
      isRunning := true;
      // startCleanupRoutine: the ticker is created; its goroutine is not modelled.
      cleanupStarted := true;
    }

    /** StopScheduler, as written: a no-op while stopped. Otherwise
        `stopCleanupRoutine` runs first, and once the cleanup routine has
        been started it closes `stopCleanup`. Closing a channel that was
        never made panics, and the panic leaves every field as it was (the
        deferred unlock runs, `cron.Stop` and the reset do not). With the
        channel made, the entries are forgotten and the scheduler stops. */
    method StopScheduler() returns (panicked: bool)
      requires Valid()
      modifies this`entryIds, this`isRunning, this`stopCleanupMade
      ensures Valid()
      ensures panicked <==> old(isRunning) && cleanupStarted && !old(stopCleanupMade)
      ensures panicked || !old(isRunning) ==> unchanged(this)
      ensures !panicked && old(isRunning) ==> !isRunning && entryIds == map[]
      ensures !panicked && old(isRunning) && cleanupStarted ==> stopCleanupMade
    {
      if !isRunning {
        return false;
      }
      if cleanupStarted {
        if !stopCleanupMade {
          return true;
        }
        // The channel is closed and a fresh one made in its place.
        stopCleanupMade := true;
      }
      entryIds := map[];
      isRunning := false;
      return false;
    }

    /** StopScheduler as evidently intended, with `stopCleanup` made when the
        manager is created: a no-op while stopped; otherwise the cleanup
        routine is signalled, every entry id is forgotten and the scheduler
        stops. */
    method StopSchedulerIntended()
      requires Valid()
      modifies this`entryIds, this`isRunning
      ensures Valid()
      ensures !old(isRunning) ==> unchanged(this)
      ensures !isRunning && entryIds == map[]
      ensures jobs == old(jobs) && storeLog == old(storeLog) && addAttempts == old(addAttempts)
    {
      if !isRunning {
        return;
      }
      entryIds := map[];
      isRunning := false;
    }

    /** cleanupStaleJobs: one `CleanupStaleLocks` call per distinct tenant of
        the registered jobs, in no particular order (`staleLocks` gives the
        store's answer for a tenant); the total is the sum of the positive
        row counts of the calls that succeeded. */
    method CleanupStaleJobs(staleLocks: string -> Result<int>) returns (calls: seq<string>, totalCleaned: int)
      ensures NoDuplicates(calls)
      ensures forall t :: t in calls <==> t in TenantsOf(jobs)
      ensures totalCleaned == Cleaned(calls, staleLocks)
    {
      var tenantIds: set<string> := {};
      var i := 0;
      while i < |jobs|
        invariant 0 <= i <= |jobs|
        invariant tenantIds == TenantsOf(jobs[..i])
      {
        assert jobs[..i + 1] == jobs[..i] + [jobs[i]];
        tenantIds := tenantIds + {jobs[i].tenantId};
        i := i + 1;
      }
      assert jobs[..i] == jobs;

      calls := [];
      totalCleaned := 0;
      var remaining := tenantIds;
      while remaining != {}
        invariant remaining <= tenantIds
        invariant forall t :: t in calls <==> t in tenantIds - remaining
        invariant NoDuplicates(calls)
        invariant totalCleaned == Cleaned(calls, staleLocks)
        decreases remaining
      {
        var tenantId :| tenantId in remaining;
        var result := staleLocks(tenantId);
        assert tenantId !in calls;
        assert (calls + [tenantId])[..|calls|] == calls;
        calls := calls + [tenantId];
        if result.Ok? && result.value > 0 {
          totalCleaned := totalCleaned + result.value;
        }
        remaining := remaining - {tenantId};
      }
    }
  }

  /** No element occurs twice. */
  predicate NoDuplicates(s: seq<string>)
  {
    forall i, j :: 0 <= i < j < |s| ==> s[i] != s[j]
  }

  /** What one `CleanupStaleLocks` answer adds to the total. */
  function Gain(r: Result<int>): (g: int)
    ensures 0 <= g
    ensures r.Err? ==> g == 0
  {
    if r.Ok? && r.value > 0 then r.value else 0
  }

  /** The total of the calls `calls`, in order. */
  function Cleaned(calls: seq<string>, staleLocks: string -> Result<int>): (total: int)
    ensures 0 <= total
    ensures calls == [] ==> total == 0
  {
    if calls == [] then 0
    else Cleaned(calls[..|calls| - 1], staleLocks) + Gain(staleLocks(calls[|calls| - 1]))
  }

  lemma {:induction false} CleanedAppend(a: seq<string>, b: seq<string>, f: string -> Result<int>)
    ensures Cleaned(a + b, f) == Cleaned(a, f) + Cleaned(b, f)
    decreases |b|
  {
    if b != [] {
      var b' := b[..|b| - 1];
      assert (a + b)[..|a + b| - 1] == a + b';
      CleanedAppend(a, b', f);
    } else {
      assert a + b == a;
    }
  }

  /** Removing position `k` removes one occurrence of its element. */
  lemma {:induction false} MultisetRemoveAt(b: seq<string>, k: int)
    requires 0 <= k < |b|
    ensures multiset(b[..k] + b[k + 1..]) == multiset(b) - multiset{b[k]}
  {
    assert b == b[..k] + [b[k]] + b[k + 1..];
  }

  /** The total splits off the call at position `k`. */
  lemma {:induction false} CleanedRemoveAt(b: seq<string>, k: int, f: string -> Result<int>)
    requires 0 <= k < |b|
    ensures Cleaned(b, f) == Cleaned(b[..k] + b[k + 1..], f) + Gain(f(b[k]))
  {
    var before, x, after := b[..k], b[k], b[k + 1..];
    assert b == (before + [x]) + after;
    CleanedAppend(before + [x], after, f);
    CleanedAppend(before, [x], f);
    CleanedAppend(before, after, f);
    assert [x][..0] == [];
  }

  /** The total does not depend on the order of the calls. */
  lemma {:induction false} CleanedPermutation(a: seq<string>, b: seq<string>, f: string -> Result<int>)
    requires multiset(a) == multiset(b)
    ensures Cleaned(a, f) == Cleaned(b, f)
    decreases |a|
  {
    if a != [] {
      var x := a[|a| - 1];
      var a' := a[..|a| - 1];
      assert a == a' + [x];
      assert multiset(a') == multiset(a) - multiset{x};
      assert x in multiset(b);
      var k :| 0 <= k < |b| && b[k] == x;
      MultisetRemoveAt(b, k);
      CleanedPermutation(a', b[..k] + b[k + 1..], f);
      CleanedRemoveAt(b, k, f);
    } else {
      assert |b| == |multiset(b)| == 0;
    }
  }

  /** A duplicate-free sequence holds each element once. */
  lemma {:induction false} NoDuplicatesMultiset(s: seq<string>, x: string)
    requires NoDuplicates(s)
    ensures multiset(s)[x] == if x in s then 1 else 0
    decreases |s|
  {
    if s != [] {
      var s' := s[..|s| - 1];
      assert s == s' + [s[|s| - 1]];
      NoDuplicatesMultiset(s', x);
    }
  }

  /** Any two duplicate-free call orders over the same tenants give the
      same total: the total of `cleanupStaleJobs` is determined by the set
      of tenants and the store's answers. */
  lemma CleanupTotalIndependentOfOrder(a: seq<string>, b: seq<string>, f: string -> Result<int>)
    requires NoDuplicates(a) && NoDuplicates(b)
    requires forall t :: t in a <==> t in b
    ensures Cleaned(a, f) == Cleaned(b, f)
  {
    forall x
      ensures multiset(a)[x] == multiset(b)[x]
    {
      NoDuplicatesMultiset(a, x);
      NoDuplicatesMultiset(b, x);
    }
    assert multiset(a) == multiset(b);
    CleanedPermutation(a, b, f);
  }

  /** The job "c" of tenant "a:b" and the job "b:c" of tenant "a" differ
      but share the key "a:b:c". */
  lemma CollidingPair(job: Job)
    requires job.name == "c" && job.tenantId == "a:b"
    ensures KeyOf(job) == JobKey("b:c", "a") && !Matches(job, "b:c", "a")
  {
    JobKeyCollision("c", "a", "b");
    assert "a" + ":" + "b" == "a:b" && "b" + ":" + "c" == "b:c";
    assert |job.name| != |"b:c"|;
  }

  /** A fresh job manager with the job "c" of tenant "a:b" registered and
      scheduled. */
  method ScheduledJob() returns (manager: JobManager, job: Job)
    ensures fresh(manager) && manager.Valid()
    ensures job.name == "c" && job.tenantId == "a:b"
    ensures manager.jobs == [job] && KeyOf(job) in manager.entryIds
    ensures manager.isRunning && manager.cleanupStarted && !manager.stopCleanupMade
  {
    manager := new JobManager("instance", schedule => true);
    job := Job("c", "c", "a:b", "@hourly", false);
    manager.RegisterJob(job);
    assert manager.jobs == [job];
    manager.StartScheduler();
    assert KeyOf(job) in manager.AcceptedKeys([job]);
  }

  /** Unregistering one job can unschedule another: the cron entry is found
      by key, and the job "c" of tenant "a:b" shares the key "a:b:c" with
      the job "b:c" of tenant "a". The registered job is kept (its name and
      tenant do not match) while its entry is gone. */
  method KeyCollisionScenario() returns (stillRegistered: bool, stillScheduled: bool)
    ensures stillRegistered && !stillScheduled
  {
    var manager, job := ScheduledJob();
    CollidingPair(job);
    manager.UnregisterJob("b:c", "a");
    assert manager.jobs == [job];
    stillRegistered := job in manager.jobs;
    stillScheduled := KeyOf(job) in manager.entryIds;
  }

  /** As written, stopping a started scheduler panics: `stopCleanup` was
      never made, so closing it fails. The scheduler keeps running and keeps
      its cron entries. */
  method StopSchedulerPanicsScenario() returns (panicked: bool, stillRunning: bool, stillScheduled: bool)
    ensures panicked && stillRunning && stillScheduled
  {
    var manager, job := ScheduledJob();
    panicked := manager.StopScheduler();
    stillRunning := manager.isRunning;
    stillScheduled := KeyOf(job) in manager.entryIds;
  }

  /** The intended stop, on the same manager, stops the scheduler and
      forgets every entry. */
  method IntendedStopScenario() returns (stillRunning: bool, entries: nat)
    ensures !stillRunning && entries == 0
  {
    var manager, job := ScheduledJob();
    manager.StopSchedulerIntended();
    stillRunning := manager.isRunning;
    entries := |manager.entryIds|;
  }
}
