/** Any number of `localRunCodex` calls against one database, as a step machine: every SQL statement
    is one step, steps of different calls interleave freely, and one clock never goes back. */
module RunProtocol {
  import opened Prelude
  import opened Persistence
  import CodexRunner
  import opened Outcome

  const LOCK_TTL: nat := 180_000

  /** Where a call stands. `Catch...` is the catch block, `Finally` and `Release` the finally block. */
  datatype Pc =
    | Acquire | ClaimInsert | ClaimSelect | ClaimReclaim
    | BeatStart | BeatWait
    | Validate | FailInvalid
    | ReadState | Bootstrap | MarkRunning
    | SnapshotBefore | Healthcheck | CheckAbort | Launch | CodexRunning
    | MarkReconciling | Reconcile | Persist | CloseTask | CloseOwnClaim
    | CatchFail | CatchRead | CatchFix(seen: TaskState)
    | Finally | Release | Done

  /** A renewal in flight: the answers that have arrived. */
  datatype Beat = Beat(lockOk: Option<bool>, claimOk: Option<bool>)

  /** `late...`: a renewal whose sibling threw, so that its answer is no longer awaited. */
  datatype Heartbeat = Heartbeat(
    timer: bool, inFlight: Option<Beat>, lockLost: bool, claimLost: bool, lateLock: bool, lateClaim: bool)

  /** What a call fixes when it starts. */
  datatype Ids = Ids(key: RunKey, lockId: Id, claimId: Id)

  /** Observers: the lock was granted, and when each lease was last taken or its renewal attempted. */
  datatype Seen = Seen(acquired: bool, lockBeatAt: int, claimBeatAt: int)

  datatype Call = Call(
    pc: Pc, ids: Ids, hasClaim: bool, claimClosed: bool, transitionStarted: bool, aborted: bool, claimNow: int,
    exec: CodexRunner.ExecutionResult, final: TaskState, resultOk: bool, reply: Option<Response>,
    beat: Heartbeat, seen: Seen)

  type CallId = nat

  datatype Db = Db(now: int, locks: LockTable, claims: ClaimTable, tasks: TaskTable)

  /** `usedIds` holds every UUID drawn. `wins` counts the successful prepared-to-running updates per
      task and `winner` names the call that made one; `launches` counts the Codex processes per task. */
  datatype State = State(
    db: Db, calls: map<CallId, Call>,
    usedIds: set<Id>, wins: multiset<Id>, winner: map<Id, CallId>, launches: multiset<Id>)

  /** What a step does besides moving its call on. `Win` is the prepared-to-running update. */
  datatype Effect =
    | Nothing | SetLocks(locks: LockTable) | SetClaims(claims: ClaimTable) | SetTasks(tasks: TaskTable)
    | Win(tasks: TaskTable) | StartCodex

  datatype Moved = Moved(call: Call, effect: Effect)

  /** How a statement or an awaited operation ends: normally, by an exception with no effect, or by an
      exception after its effect was committed. */
  datatype Fault = NoFault | ThrowsBefore | ThrowsAfter

  /** What the outside decides at a step: configuration, the child process, the reconciliation. */
  datatype Input = Input(
    fault: Fault, commandValid: bool, spawnAborted: bool, events: seq<CodexRunner.Event>, review: ClassifierInput)

  datatype BeatStep = TimerFires | RenewLockRow | RenewClaimRow | TickEnds | LateLockRow | LateClaimRow

  datatype Step =
    | ClockTick(dt: nat)
    | PrepareTask(project: Id, task: Id)
    | Start(id: CallId, ids: Ids)
    | UserAbort(id: CallId)
    | Advance(id: CallId, input: Input)
    | Renew(id: CallId, beat: BeatStep, fault: Fault)

  const QUIET := Heartbeat(false, None, false, false, false, false)
  const NO_EXECUTION := CodexRunner.ExecutionResult(false, false, None, "", "", None)
  const CANCELLED_EXECUTION := CodexRunner.ExecutionResult(
    false, true, None, "", "", Some(CodexRunner.CancelledBeforeStart))

  const INIT := State(Db(0, map[], map[], map[]), map[], {}, multiset{}, map[], multiset{})

  // ---- the main program of a call --------------------------------------------------------------

  function Goto(c: Call, pc: Pc): Moved { Moved(c.(pc := pc), Nothing) }

  /** The catch block: fail an open claim first. */
  function Thrown(c: Call): Call { c.(pc := if c.hasClaim && !c.claimClosed then CatchFail else CatchRead) }
  function Throw(c: Call): Moved { Moved(Thrown(c), Nothing) }

  function Main(c: Call, db: Db, x: Input): Moved {
    match c.pc
    case Acquire => StepAcquire(c, db, x.fault)
    case ClaimInsert => StepClaimInsert(c, db, x.fault)
    case ClaimSelect => StepClaimSelect(c, db, x.fault)
    case ClaimReclaim => StepClaimReclaim(c, db, x.fault)
    case BeatStart => Moved(c.(pc := BeatWait, beat := c.beat.(inFlight := Some(Beat(None, None)))), Nothing)
    case BeatWait =>
      if c.beat.inFlight.Some? then Moved(c, Nothing)
      else Moved(c.(pc := Validate, beat := c.beat.(timer := !c.beat.lockLost && !c.beat.claimLost)), Nothing)
    case Validate => Goto(c, if x.commandValid then ReadState else FailInvalid)
    case FailInvalid => StepFailInvalid(c, db, x.fault)
    case ReadState => StepReadState(c, db, x.fault)
    case Bootstrap => StepCas(c, db, None, Prepared, MarkRunning, x.fault)
    case MarkRunning => StepMarkRunning(c, db, x.fault)
    case SnapshotBefore => if x.fault.NoFault? then Goto(c, Healthcheck) else Throw(c)
    case Healthcheck => StepHealthcheck(c, x.fault, CodexRunner.Settled(x.spawnAborted, x.events))
    case CheckAbort =>
      if c.aborted then Moved(c.(exec := CANCELLED_EXECUTION, pc := MarkReconciling), Nothing) else Goto(c, Launch)
    case Launch => Moved(c.(pc := CodexRunning), StartCodex)
    case CodexRunning => StepCodexRunning(c, x.fault, CodexRunner.Settled(x.spawnAborted, x.events))
    case MarkReconciling => StepCas(c, db, Some(Running), Reconciling, Reconcile, x.fault)
    case Reconcile => StepReconcile(c, x)
    case Persist => if x.fault.NoFault? then Goto(c, CloseTask) else Throw(c)
    case CloseTask => StepCas(c, db, Some(Reconciling), c.final, CloseOwnClaim, x.fault)
    case CloseOwnClaim => StepCloseClaim(c, db, x.fault)
    case CatchFail => StepCatchFail(c, db, x.fault)
    case CatchRead => StepCatchRead(c, db, x.fault)
    case CatchFix(state) => StepCatchFix(c, db, state, x.fault)
    case Finally =>
      Moved(c.(pc := if c.beat.inFlight.Some? then Finally else Release, beat := c.beat.(timer := false)), Nothing)
    case Release => StepRelease(c, db, x.fault)
    case Done => Moved(c, Nothing)
  }

  function StepAcquire(c: Call, db: Db, f: Fault): Moved {
    var (locks', ok) := AcquireLock(db.locks, c.ids.key.project, c.ids.lockId, db.now, LOCK_TTL);
    if f.ThrowsBefore? then Throw(c)
    else if f.ThrowsAfter? then Moved(Thrown(c), SetLocks(locks'))
    else if ok then Moved(c.(pc := ClaimInsert, seen := c.seen.(acquired := true, lockBeatAt := db.now)),
                          SetLocks(locks'))
    else Goto(c, Finally)
  }

  /** `claimIdempotency` takes its timestamp once, before its first statement. */
  function StepClaimInsert(c: Call, db: Db, f: Fault): Moved {
    var (claims', ok) := InsertClaim(db.claims, c.ids.key, c.ids.claimId, db.now, LOCK_TTL);
    if f.ThrowsBefore? then Throw(c)
    else if f.ThrowsAfter? then Moved(Thrown(c), SetClaims(claims'))
    else if ok then Moved(c.(pc := BeatStart, hasClaim := true, seen := c.seen.(claimBeatAt := db.now)),
                          SetClaims(claims'))
    else Moved(c.(pc := ClaimSelect, claimNow := db.now), Nothing)
  }

  function StepClaimSelect(c: Call, db: Db, f: Fault): Moved {
    if !f.NoFault? || c.ids.key !in db.claims then Throw(c)
    else if db.claims[c.ids.key].status.InProgress? then Goto(c, ClaimReclaim)
    else Moved(c.(pc := Finally, reply := Some(db.claims[c.ids.key].response)), Nothing)
  }

  function StepClaimReclaim(c: Call, db: Db, f: Fault): Moved {
    var (claims', ok) := ReclaimClaim(db.claims, c.ids.key, c.ids.claimId, c.claimNow, LOCK_TTL);
    if f.ThrowsBefore? then Throw(c)
    else if f.ThrowsAfter? then Moved(Thrown(c), SetClaims(claims'))
    else if ok then Moved(c.(pc := BeatStart, hasClaim := true, seen := c.seen.(claimBeatAt := c.claimNow)),
                          SetClaims(claims'))
    else Goto(c, Finally)
  }

  /** An invalid command configuration fails the claim and returns. */
  function StepFailInvalid(c: Call, db: Db, f: Fault): Moved {
    var claims' := CloseClaim(db.claims, c.ids.key, c.ids.claimId, Failed, Result(false, InvalidConfiguration)).0;
    if f.ThrowsBefore? then Throw(c)
    else if f.ThrowsAfter? then Moved(Thrown(c), SetClaims(claims'))
    else Moved(c.(pc := Finally, claimClosed := true), SetClaims(claims'))
  }

  /** A task in any state but prepared ends the call here, with its claim left in progress. */
  function StepReadState(c: Call, db: Db, f: Fault): Moved {
    if !f.NoFault? then Throw(c)
    else match LifecycleState(db.tasks, c.ids.key.project, c.ids.key.task)
      case None => Goto(c, Bootstrap)
      case Some(state) => Goto(c, if state.Prepared? then MarkRunning else Finally)
  }

  /** A compare-and-set that goes on at `next`, or throws when no row matched. */
  function StepCas(c: Call, db: Db, from: Option<TaskState>, to: TaskState, next: Pc, f: Fault): Moved {
    var (tasks', ok) := TransitionTask(db.tasks, c.ids.key.project, c.ids.key.task, from, to);
    if f.ThrowsBefore? || !ok then Throw(c)
    else Moved(if f.ThrowsAfter? then Thrown(c) else c.(pc := next), SetTasks(tasks'))
  }

  function StepMarkRunning(c: Call, db: Db, f: Fault): Moved {
    var (tasks', ok) := TransitionTask(db.tasks, c.ids.key.project, c.ids.key.task, Some(Prepared), Running);
    if f.ThrowsBefore? || !ok then Throw(c)
    else Moved(if f.ThrowsAfter? then Thrown(c) else c.(pc := SnapshotBefore, transitionStarted := true), Win(tasks'))
  }

  /** The health check runs `codex --version` in a child process of its own; while a child has not
      settled the call waits. */
  function StepHealthcheck(c: Call, f: Fault, settled: Option<CodexRunner.ExecutionResult>): Moved {
    if !f.NoFault? then Throw(c)
    else if settled.None? then Moved(c, Nothing)
    else if settled.value.ok then Goto(c, CheckAbort)
    else Moved(c.(exec := settled.value, pc := MarkReconciling), Nothing)
  }

  function StepCodexRunning(c: Call, f: Fault, settled: Option<CodexRunner.ExecutionResult>): Moved {
    if !f.NoFault? then Throw(c)
    else if settled.None? then Moved(c, Nothing)
    else Moved(c.(exec := settled.value, pc := MarkReconciling), Nothing)
  }

  /** A lost lease overrides the classified outcome. */
  function StepReconcile(c: Call, x: Input): Moved {
    if !x.fault.NoFault? then Throw(c)
    else
      var leaseLost := c.beat.lockLost || c.beat.claimLost;
      var outcome := if leaseLost then Blocked else Classify(c.exec, x.review.(blockedReason := None));
      Moved(c.(pc := Persist, final := FinalTaskState(outcome), resultOk := !leaseLost && c.exec.ok), Nothing)
  }

  function StepCloseClaim(c: Call, db: Db, f: Fault): Moved {
    var (claims', ok) :=
      CloseClaim(db.claims, c.ids.key, c.ids.claimId,
                 if c.resultOk then Completed else Failed, Result(c.resultOk, ExecutionClosed));
    if !c.hasClaim || c.claimClosed then Goto(c, Finally)
    else if f.ThrowsBefore? then Throw(c)
    else if f.ThrowsAfter? || (c.resultOk && !ok) then Moved(Thrown(c), SetClaims(claims'))
    else Moved(c.(pc := Finally, claimClosed := true), SetClaims(claims'))
  }

  /** `safeFailIdempotencyClaim` swallows its own exceptions. */
  function StepCatchFail(c: Call, db: Db, f: Fault): Moved {
    var claims' := CloseClaim(db.claims, c.ids.key, c.ids.claimId, Failed, Result(false, ExceptionThrown)).0;
    Moved(c.(pc := CatchRead, claimClosed := true), if f.ThrowsBefore? then Nothing else SetClaims(claims'))
  }

  /** `tryTransitionTaskToFailure`: read, then move a running or reconciling task to failed. */
  function StepCatchRead(c: Call, db: Db, f: Fault): Moved {
    if !c.transitionStarted || !f.NoFault? then Goto(c, Finally)
    else match LifecycleState(db.tasks, c.ids.key.project, c.ids.key.task)
      case None => Goto(c, Finally)
      case Some(state) => Goto(c, if state.Running? || state.Reconciling? then CatchFix(state) else Finally)
  }

  function StepCatchFix(c: Call, db: Db, state: TaskState, f: Fault): Moved {
    var (tasks', ok) := TransitionTask(db.tasks, c.ids.key.project, c.ids.key.task, Some(state), TaskFailed);
    Moved(c.(pc := Finally), if f.ThrowsBefore? || !ok then Nothing else SetTasks(tasks'))
  }

  function StepRelease(c: Call, db: Db, f: Fault): Moved {
    var locks' := ReleaseLock(db.locks, c.ids.key.project, c.ids.lockId);
    Moved(c.(pc := Done), if f.ThrowsBefore? then Nothing else SetLocks(locks'))
  }

  // ---- its heartbeat -----------------------------------------------------------------------

  function Tend(c: Call, db: Db, beat: BeatStep, f: Fault): Moved {
    match beat
    case TimerFires =>
      if c.beat.timer && c.beat.inFlight.None?
      then Moved(c.(beat := c.beat.(inFlight := Some(Beat(None, None)))), Nothing) else Moved(c, Nothing)
    case RenewLockRow => TendLock(c, db, f)
    case RenewClaimRow => TendClaim(c, db, f)
    case TickEnds =>
      if c.beat.inFlight.None? || c.beat.inFlight.value.lockOk.None? || c.beat.inFlight.value.claimOk.None?
      then Moved(c, Nothing)
      else
        var lockLost := c.beat.lockLost || !c.beat.inFlight.value.lockOk.value;
        var claimLost := c.beat.claimLost || !c.beat.inFlight.value.claimOk.value;
        Moved(c.(aborted := c.aborted || lockLost || claimLost,
                 beat := c.beat.(inFlight := None, lockLost := lockLost, claimLost := claimLost)), Nothing)
    case LateLockRow =>
      if !c.beat.lateLock then Moved(c, Nothing)
      else
        var locks' := RenewLock(db.locks, c.ids.key.project, c.ids.lockId, db.now, LOCK_TTL).0;
        Moved(c.(beat := c.beat.(lateLock := false)), if f.ThrowsBefore? then Nothing else SetLocks(locks'))
    case LateClaimRow =>
      if !c.beat.lateClaim then Moved(c, Nothing)
      else
        var claims' := RenewClaim(db.claims, c.ids.key, c.ids.claimId, db.now, LOCK_TTL).0;
        Moved(c.(beat := c.beat.(lateClaim := false)), if f.ThrowsBefore? then Nothing else SetClaims(claims'))
  }

  function TendLock(c: Call, db: Db, f: Fault): Moved {
    if c.beat.inFlight.None? || c.beat.inFlight.value.lockOk.Some? then Moved(c, Nothing)
    else
      var (locks', ok) := RenewLock(db.locks, c.ids.key.project, c.ids.lockId, db.now, LOCK_TTL);
      if f.NoFault?
      then Moved(c.(beat := c.beat.(inFlight := Some(c.beat.inFlight.value.(lockOk := Some(ok)))),
                    seen := c.seen.(lockBeatAt := db.now)), SetLocks(locks'))
      else
        var late := c.beat.lateClaim || c.beat.inFlight.value.claimOk.None?;
        Moved(LoseBoth(c.(beat := c.beat.(lateClaim := late))), if f.ThrowsBefore? then Nothing else SetLocks(locks'))
  }

  function TendClaim(c: Call, db: Db, f: Fault): Moved {
    if c.beat.inFlight.None? || c.beat.inFlight.value.claimOk.Some? then Moved(c, Nothing)
    else
      var (claims', ok) := RenewClaim(db.claims, c.ids.key, c.ids.claimId, db.now, LOCK_TTL);
      if f.NoFault?
      then Moved(c.(beat := c.beat.(inFlight := Some(c.beat.inFlight.value.(claimOk := Some(ok)))),
                    seen := c.seen.(claimBeatAt := db.now)), SetClaims(claims'))
      else
        var late := c.beat.lateLock || c.beat.inFlight.value.lockOk.None?;
        Moved(LoseBoth(c.(beat := c.beat.(lateLock := late))), if f.ThrowsBefore? then Nothing else SetClaims(claims'))
  }

  /** An exception in a tick sets both flags and aborts the run. */
  function LoseBoth(c: Call): Call {
    c.(aborted := true, beat := c.beat.(inFlight := None, lockLost := true, claimLost := true))
  }

  // ---- the system --------------------------------------------------------------------------

  function Commit(s: State, id: CallId, m: Moved): State {
    var s' := s.(calls := s.calls[id := m.call]);
    var task := m.call.ids.key.task;
    match m.effect
    case Nothing => s'
    case SetLocks(locks) => s'.(db := s.db.(locks := locks))
    case SetClaims(claims) => s'.(db := s.db.(claims := claims))
    case SetTasks(tasks) => s'.(db := s.db.(tasks := tasks))
    case Win(tasks) => s'.(db := s.db.(tasks := tasks), wins := s.wins + multiset{task}, winner := s.winner[task := id])
    case StartCodex => s'.(launches := s.launches + multiset{task})
  }

  /** A call starts with two fresh ids and a draft that was prepared before. */
  function Begin(s: State, id: CallId, ids: Ids): State {
    if id in s.calls || ids.key.task !in s.db.tasks || ids.lockId in s.usedIds || ids.claimId in s.usedIds
      || ids.lockId == ids.claimId then s
    else
      var c := Call(Acquire, ids, false, false, false, false, s.db.now, NO_EXECUTION, TaskBlocked, false, None,
                    QUIET, Seen(false, s.db.now, s.db.now));
      s.(calls := s.calls[id := c], usedIds := s.usedIds + {ids.lockId, ids.claimId})
  }

  /** A step that is not enabled changes nothing. */
  function Apply(s: State, step: Step): State {
    match step
    case ClockTick(dt) => s.(db := s.db.(now := s.db.now + dt))
    case PrepareTask(project, task) =>
      if task in s.db.tasks then s else s.(db := s.db.(tasks := s.db.tasks[task := TaskRow(project, Prepared)]))
    case Start(id, ids) => Begin(s, id, ids)
    case UserAbort(id) => if id in s.calls then Commit(s, id, Moved(s.calls[id].(aborted := true), Nothing)) else s
    case Advance(id, input) => if id in s.calls then Commit(s, id, Main(s.calls[id], s.db, input)) else s
    case Renew(id, beat, fault) => if id in s.calls then Commit(s, id, Tend(s.calls[id], s.db, beat, fault)) else s
  }

  /** The state after any sequence of steps. */
  function Exec(steps: seq<Step>): State {
    if steps == [] then INIT else Apply(Exec(steps[..|steps| - 1]), steps[|steps| - 1])
  }
}
