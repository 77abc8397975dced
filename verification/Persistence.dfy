/** The lock, claim and task tables of the local database, and the SQL statements that change them.
    Each statement is a function on its table; `PostgresAdapter` applies them to mutable tables. */
module Persistence {
  import opened Prelude

  // ---- project_run_locks -------------------------------------------------------------------

  datatype LockRow = LockRow(lockId: Id, acquiredAt: int, heartbeatAt: int, expiresAt: int)
  type LockTable = map<Id, LockRow>

  /** INSERT ... ON CONFLICT DO UPDATE ... WHERE the stored lease has run out. */
  function AcquireLock(t: LockTable, project: Id, lockId: Id, now: int, ttl: nat): (LockTable, bool) {
    if project !in t || t[project].expiresAt <= now
    then (t[project := LockRow(lockId, now, now, now + ttl)], true)
    else (t, false)
  }

  function RenewLock(t: LockTable, project: Id, lockId: Id, now: int, ttl: nat): (LockTable, bool) {
    if project in t && t[project].lockId == lockId && t[project].expiresAt > now
    then (t[project := t[project].(heartbeatAt := now, expiresAt := now + ttl)], true)
    else (t, false)
  }

  function ReleaseLock(t: LockTable, project: Id, lockId: Id): LockTable {
    if project in t && t[project].lockId == lockId then t - {project} else t
  }

  /** `lockId` holds `project`: its row is there and its lease has not run out. */
  predicate HoldsLock(t: LockTable, project: Id, lockId: Id, now: int) {
    project in t && t[project].lockId == lockId && now < t[project].expiresAt
  }

  // ---- idempotency_records (command local_run_codex) ---------------------------------------

  /** What the SHA-256 key of a run is computed from; the hash is taken to be injective. */
  datatype RunKey = RunKey(project: Id, task: Id, createdAt: string, repoRoot: string, branch: string)

  datatype ClaimStatus = InProgress | Completed | Failed

  /** `response_json`: empty until the claim is closed, then the result of the command. */
  datatype Verdict = ExecutionClosed | InvalidConfiguration | ExceptionThrown
  datatype Response = Empty | Result(ok: bool, verdict: Verdict)

  datatype ClaimRow = ClaimRow(status: ClaimStatus, response: Response, claimId: Id, leaseExpiresAt: Option<int>)
  type ClaimTable = map<RunKey, ClaimRow>

  predicate Expired(lease: Option<int>, now: int) { lease.Some? && lease.value <= now }
  predicate Live(lease: Option<int>, now: int) { lease.Some? && lease.value > now }

  /** INSERT ... ON CONFLICT DO NOTHING. */
  function InsertClaim(t: ClaimTable, key: RunKey, claimId: Id, now: int, ttl: nat): (ClaimTable, bool) {
    if key in t then (t, false) else (t[key := ClaimRow(InProgress, Empty, claimId, Some(now + ttl))], true)
  }

  /** UPDATE ... WHERE status = 'in_progress' AND the lease has run out. */
  function ReclaimClaim(t: ClaimTable, key: RunKey, claimId: Id, now: int, ttl: nat): (ClaimTable, bool) {
    if key in t && t[key].status == InProgress && Expired(t[key].leaseExpiresAt, now)
    then (t[key := t[key].(claimId := claimId, leaseExpiresAt := Some(now + ttl))], true)
    else (t, false)
  }

  /** The row a renew, complete or fail statement of `claimId` matches, before the lease test. */
  predicate OwnsClaim(t: ClaimTable, key: RunKey, claimId: Id) {
    key in t && t[key].claimId == claimId && t[key].status == InProgress
  }

  function RenewClaim(t: ClaimTable, key: RunKey, claimId: Id, now: int, ttl: nat): (ClaimTable, bool) {
    if OwnsClaim(t, key, claimId) && Live(t[key].leaseExpiresAt, now)
    then (t[key := t[key].(leaseExpiresAt := Some(now + ttl))], true)
    else (t, false)
  }

  /** completeIdempotencyClaim and failIdempotencyClaim: neither looks at the lease. */
  function CloseClaim(t: ClaimTable, key: RunKey, claimId: Id, status: ClaimStatus,
                      response: Response): (ClaimTable, bool) {
    if OwnsClaim(t, key, claimId)
    then (t[key := ClaimRow(status, response, claimId, None)], true)
    else (t, false)
  }

  datatype ClaimResult = Claimed | Reclaimed | Replay(response: Response) | Busy | Missing

  // ---- tasks -------------------------------------------------------------------------------

  datatype TaskState =
    | Draft | Prepared | Running | Reconciling
    | TaskCompleted | TaskPartial | TaskFailed | TaskTimeout | TaskCancelled | TaskBlocked

  datatype TaskRow = TaskRow(project: Id, state: TaskState)
  type TaskTable = map<Id, TaskRow>

  predicate Terminal(s: TaskState) {
    s.TaskCompleted? || s.TaskPartial? || s.TaskFailed? || s.TaskTimeout? || s.TaskCancelled? || s.TaskBlocked?
  }

  function LifecycleState(t: TaskTable, project: Id, task: Id): Option<TaskState> {
    if task in t && t[task].project == project then Some(t[task].state) else None
  }

  /** Compare-and-set; without `from` it is unconditional. */
  function TransitionTask(t: TaskTable, project: Id, task: Id, from: Option<TaskState>,
                          to: TaskState): (TaskTable, bool) {
    var current := LifecycleState(t, project, task);
    if current.Some? && (from.None? || from == current) then (t[task := TaskRow(project, to)], true) else (t, false)
  }

  /** A row of `task_state_transitions`. */
  datatype Transition = Transition(project: Id, task: Id, from: Option<TaskState>, to: TaskState)

  // ---- the adapter -------------------------------------------------------------------------

  class PostgresAdapter {
    var locks: LockTable
    var claims: ClaimTable
    var tasks: TaskTable
    var transitions: seq<Transition>

    constructor ()
      ensures locks == map[] && claims == map[] && tasks == map[] && transitions == []
    {
      locks, claims, tasks, transitions := map[], map[], map[], [];
    }

    method AcquireProjectRunLock(project: Id, lockId: Id, now: int, ttl: nat) returns (ok: bool)
      modifies this`locks
      ensures (locks, ok) == AcquireLock(old(locks), project, lockId, now, ttl)
      ensures ok <==> project !in old(locks) || old(locks)[project].expiresAt <= now
      ensures ok && ttl > 0 ==> HoldsLock(locks, project, lockId, now)
    {
      ok := true;
      if project in locks {
        ok := locks[project].expiresAt <= now;
      }
      if ok {
        locks := locks[project := LockRow(lockId, now, now, now + ttl)];
      }
    }

    method RenewProjectRunLock(project: Id, lockId: Id, now: int, ttl: nat) returns (ok: bool)
      modifies this`locks
      ensures (locks, ok) == RenewLock(old(locks), project, lockId, now, ttl)
      ensures ok <==> HoldsLock(old(locks), project, lockId, now)
    {
      ok := project in locks && locks[project].lockId == lockId && locks[project].expiresAt > now;
      if ok {
        var row := locks[project];
        locks := locks[project := row.(heartbeatAt := now, expiresAt := now + ttl)];
      }
    }

    method ReleaseProjectRunLock(project: Id, lockId: Id)
      modifies this`locks
      ensures locks == ReleaseLock(old(locks), project, lockId)
      ensures forall now :: !HoldsLock(locks, project, lockId, now)
      ensures project in old(locks) && old(locks)[project].lockId != lockId ==> locks == old(locks)
    {
      if project in locks && locks[project].lockId == lockId {
        locks := locks - {project};
      }
    }

    /** Insert, else read, else take over an expired lease: three statements, one timestamp. */
    method ClaimIdempotency(key: RunKey, claimId: Id, now: int, ttl: nat) returns (r: ClaimResult)
      modifies this`claims
      ensures r.Claimed? <==> key !in old(claims)
      ensures r.Claimed? ==> claims == InsertClaim(old(claims), key, claimId, now, ttl).0
      ensures r.Reclaimed? <==>
                key in old(claims) && old(claims)[key].status == InProgress
                  && Expired(old(claims)[key].leaseExpiresAt, now)
      ensures r.Reclaimed? ==> claims == ReclaimClaim(old(claims), key, claimId, now, ttl).0
      ensures r.Claimed? || r.Reclaimed? ==>
                OwnsClaim(claims, key, claimId) && claims[key].response ==
                  if r.Claimed? then Empty else old(claims)[key].response
      ensures r.Replay? <==> key in old(claims) && old(claims)[key].status != InProgress
      ensures r.Replay? ==> r.response == old(claims)[key].response
      ensures r.Replay? || r.Busy? ==> claims == old(claims)
      ensures !r.Missing?
    {
      if key !in claims {
        claims := claims[key := ClaimRow(InProgress, Empty, claimId, Some(now + ttl))];
        return Claimed;
      }
      var row := claims[key];
      if row.status == Completed || row.status == Failed {
        return Replay(row.response);
      }
      if Expired(row.leaseExpiresAt, now) {
        claims := claims[key := row.(claimId := claimId, leaseExpiresAt := Some(now + ttl))];
        return Reclaimed;
      }
      return Busy;
    }

    method RenewIdempotencyClaim(key: RunKey, claimId: Id, now: int, ttl: nat) returns (ok: bool)
      modifies this`claims
      ensures (claims, ok) == RenewClaim(old(claims), key, claimId, now, ttl)
      ensures ok <==> OwnsClaim(old(claims), key, claimId) && Live(old(claims)[key].leaseExpiresAt, now)
      ensures ok && ttl > 0 ==> OwnsClaim(claims, key, claimId) && Live(claims[key].leaseExpiresAt, now)
      ensures claims.Keys == old(claims).Keys && forall k | k in claims && k != key :: claims[k] == old(claims)[k]
    {
      ok := OwnsClaim(claims, key, claimId) && Live(claims[key].leaseExpiresAt, now);
      if ok {
        var row := claims[key];
        claims := claims[key := row.(leaseExpiresAt := Some(now + ttl))];
      }
    }

    method CompleteIdempotencyClaim(key: RunKey, claimId: Id, response: Response) returns (ok: bool)
      modifies this`claims
      ensures (claims, ok) == CloseClaim(old(claims), key, claimId, Completed, response)
      ensures ok <==> OwnsClaim(old(claims), key, claimId)
      ensures ok ==>
                key in claims && claims[key].status == Completed && claims[key].response == response
                  && !OwnsClaim(claims, key, claimId)
      ensures claims.Keys == old(claims).Keys && forall k | k in claims && k != key :: claims[k] == old(claims)[k]
    {
      ok := OwnsClaim(claims, key, claimId);
      if ok {
        claims := claims[key := ClaimRow(Completed, response, claimId, None)];
      }
    }

    method FailIdempotencyClaim(key: RunKey, claimId: Id, response: Response) returns (ok: bool)
      modifies this`claims
      ensures (claims, ok) == CloseClaim(old(claims), key, claimId, Failed, response)
      ensures ok <==> OwnsClaim(old(claims), key, claimId)
      ensures ok ==>
                key in claims && claims[key].status == Failed && claims[key].response == response
                  && !OwnsClaim(claims, key, claimId)
      ensures claims.Keys == old(claims).Keys && forall k | k in claims && k != key :: claims[k] == old(claims)[k]
    {
      ok := OwnsClaim(claims, key, claimId);
      if ok {
        claims := claims[key := ClaimRow(Failed, response, claimId, None)];
      }
    }

    /** The update, then the log row: `ok` is false where the source throws, which it also does when the task
        has been moved and its log row cannot be written. */
    method TransitionTaskState(project: Id, task: Id, from: Option<TaskState>, to: TaskState, logFails: bool)
      returns (ok: bool)
      modifies this`tasks, this`transitions
      ensures tasks == TransitionTask(old(tasks), project, task, from, to).0
      ensures ok <==> TransitionTask(old(tasks), project, task, from, to).1 && !logFails
      ensures ok ==> LifecycleState(tasks, project, task) == Some(to)
      ensures !ok && tasks != old(tasks) ==> logFails && LifecycleState(tasks, project, task) == Some(to)
      ensures transitions == if ok then old(transitions) + [Transition(project, task, from, to)] else old(transitions)
      ensures forall other | other != task && other in old(tasks) :: other in tasks && tasks[other] == old(tasks)[other]
    {
      ok := task in tasks && tasks[task].project == project && (from.None? || from.value == tasks[task].state);
      if !ok {
        return;
      }
      tasks := tasks[task := TaskRow(project, to)];
      if logFails {
        ok := false;
        return;
      }
      transitions := transitions + [Transition(project, task, from, to)];
    }
  }
}
