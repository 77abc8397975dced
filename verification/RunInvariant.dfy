/** The inductive invariant of the run protocol: what every step of every call keeps. */
module RunInvariant {
  import opened Prelude
  import opened Persistence
  import CodexRunner
  import opened Outcome
  import opened RunProtocol

  // ---- the invariant -----------------------------------------------------------------------

  predicate Claiming(pc: Pc) { pc.Acquire? || pc.ClaimInsert? || pc.ClaimSelect? || pc.ClaimReclaim? }

  /** Between winning the compare-and-set and starting Codex. */
  predicate Launching(pc: Pc) { pc.SnapshotBefore? || pc.Healthcheck? || pc.CheckAbort? || pc.Launch? }

  /** What a call may rely on about the tables, whatever the others do. */
  ghost predicate LocalOk(c: Call, db: Db) {
    && c.ids.key.task in db.tasks
    && c.claimNow <= db.now
    && (c.pc.Acquire? ==> forall p | p in db.locks :: db.locks[p].lockId != c.ids.lockId)
    && (Claiming(c.pc) ==> forall k | k in db.claims :: db.claims[k].claimId != c.ids.claimId)
    && (c.pc.Bootstrap? ==> db.tasks[c.ids.key.task].project != c.ids.key.project)
    && (c.pc.MarkReconciling? || c.pc.Reconcile? ==> Sound(c.exec))
    && (c.pc.Persist? || c.pc.CloseTask? || c.pc.CloseOwnClaim? ==>
      Terminal(c.final) && (c.resultOk ==> Succeeded(c.final)))
    && (c.pc.CloseOwnClaim? ==> db.tasks[c.ids.key.task].state == c.final)
    && (c.pc.CatchFix? ==> c.pc.seen.Running? || c.pc.seen.Reconciling?)
  }

  ghost predicate CallOk(s: State, id: CallId)
    requires id in s.calls
  {
    var c := s.calls[id];
    && LocalOk(c, s.db)
    && c.ids.lockId in s.usedIds && c.ids.claimId in s.usedIds
    && (Launching(c.pc) ==>
      c.ids.key.task in s.winner && s.winner[c.ids.key.task] == id && s.launches[c.ids.key.task] == 0)
  }

  ghost predicate IdsOk(s: State) {
    && (forall i, j | i in s.calls && j in s.calls && i != j ::
          s.calls[i].ids.lockId != s.calls[j].ids.lockId && s.calls[i].ids.claimId != s.calls[j].ids.claimId)
    && (forall p | p in s.db.locks :: s.db.locks[p].lockId in s.usedIds)
    && (forall k | k in s.db.claims :: s.db.claims[k].claimId in s.usedIds)
  }

  ghost predicate TaskOk(s: State, t: Id) {
    && s.wins[t] <= 1
    && s.launches[t] <= s.wins[t]
    && (t in s.winner <==> s.wins[t] == 1)
    && (s.wins[t] == 1 ==> t in s.db.tasks && !s.db.tasks[t].state.Prepared? && !s.db.tasks[t].state.Draft?)
    && (t in s.db.tasks && s.wins[t] == 0 ==> s.db.tasks[t].state.Prepared?)
  }

  ghost predicate ClaimOk(db: Db, k: RunKey)
    requires k in db.claims
  {
    && (db.claims[k].status.InProgress? <==> db.claims[k].leaseExpiresAt.Some?)
    && (db.claims[k].status.Completed? ==> k.task in db.tasks && Succeeded(db.tasks[k.task].state))
  }

  ghost predicate Inv(s: State) {
    && IdsOk(s)
    && (forall id | id in s.calls :: CallOk(s, id))
    && (forall t :: TaskOk(s, t))
    && (forall k | k in s.db.claims :: ClaimOk(s.db, k))
  }

  // ---- what one step of one call can do to the tables ----------------------------------------

  ghost predicate LocksBy(c: Call, db: Db, locks: LockTable) {
    || (c.pc.Acquire? && locks == AcquireLock(db.locks, c.ids.key.project, c.ids.lockId, db.now, LOCK_TTL).0)
    || locks == RenewLock(db.locks, c.ids.key.project, c.ids.lockId, db.now, LOCK_TTL).0
    || locks == ReleaseLock(db.locks, c.ids.key.project, c.ids.lockId)
  }

  ghost predicate ClaimsBy(c: Call, db: Db, claims: ClaimTable) {
    || (c.pc.ClaimInsert? && claims == InsertClaim(db.claims, c.ids.key, c.ids.claimId, db.now, LOCK_TTL).0)
    || (c.pc.ClaimReclaim? && claims == ReclaimClaim(db.claims, c.ids.key, c.ids.claimId, c.claimNow, LOCK_TTL).0)
    || claims == RenewClaim(db.claims, c.ids.key, c.ids.claimId, db.now, LOCK_TTL).0
    || ClosedBy(c, db, claims, Failed)
    || (c.pc.CloseOwnClaim? && c.resultOk && ClosedBy(c, db, claims, Completed))
  }

  /** The row is closed with some response, if `c` owns it. */
  ghost predicate ClosedBy(c: Call, db: Db, claims: ClaimTable, status: ClaimStatus) {
    if OwnsClaim(db.claims, c.ids.key, c.ids.claimId)
    then c.ids.key in claims
      && claims == CloseClaim(db.claims, c.ids.key, c.ids.claimId, status, claims[c.ids.key].response).0
    else claims == db.claims
  }

  /** The lifecycle edges of a run after its first. */
  predicate TaskEdge(from: TaskState, to: TaskState) {
    (from.Running? && to.Reconciling?) || ((from.Running? || from.Reconciling?) && Terminal(to))
  }

  ghost predicate TaskSet(db: Db, t: Id, tasks: TaskTable) {
    t in db.tasks && t in tasks && tasks == db.tasks[t := tasks[t]] && tasks[t].project == db.tasks[t].project
  }

  ghost predicate Bounded(c: Call, db: Db, m: Moved) {
    var t := c.ids.key.task;
    && m.call.ids == c.ids
    && (m.call.pc.Acquire? ==> c.pc.Acquire?)
    && (Claiming(m.call.pc) ==> Claiming(c.pc))
    && (Launching(m.call.pc) ==> m.effect.Win? || (Launching(c.pc) && !m.effect.StartCodex?))
    && match m.effect
       case Nothing => true
       case SetLocks(locks) => LocksBy(c, db, locks)
       case SetClaims(claims) => ClaimsBy(c, db, claims)
       case SetTasks(tasks) => TaskSet(db, t, tasks) && TaskEdge(db.tasks[t].state, tasks[t].state)
       case Win(tasks) => TaskSet(db, t, tasks) && db.tasks[t].state.Prepared? && tasks[t].state.Running?
       case StartCodex => c.pc.Launch?
  }

  function After(db: Db, e: Effect): Db {
    match e
    case SetLocks(locks) => db.(locks := locks)
    case SetClaims(claims) => db.(claims := claims)
    case SetTasks(tasks) => db.(tasks := tasks)
    case Win(tasks) => db.(tasks := tasks)
    case _ => db
  }

  // ---- each step stays within these bounds -----------------------------------------------------

  ghost predicate Kept(c: Call, db: Db, m: Moved) { Bounded(c, db, m) && LocalOk(m.call, After(db, m.effect)) }

  /** Points at which a call relies on nothing but its task's existence. */
  predicate Calm(pc: Pc) {
    && !Claiming(pc) && !Launching(pc)
    && !pc.Bootstrap? && !pc.MarkReconciling? && !pc.Reconcile? && !pc.Persist? && !pc.CloseTask? && !pc.CloseOwnClaim?
    && !pc.CatchFix?
  }

  lemma CalmKept(c: Call, db: Db, c': Call, e: Effect)
    requires LocalOk(c, db) && c'.ids == c.ids && c'.claimNow == c.claimNow && Calm(c'.pc)
    requires Bounded(c, db, Moved(c', e))
    ensures Kept(c, db, Moved(c', e))
  {
  }

  lemma CasMoves(c: Call, db: Db, from: Option<TaskState>, to: TaskState, next: Pc, f: Fault)
    requires LocalOk(c, db)
    requires (c.pc.MarkReconciling? && from == Some(Running) && to == Reconciling && next == Reconcile)
          || (c.pc.CloseTask? && from == Some(Reconciling) && to == c.final && next == CloseOwnClaim)
    requires var m := StepCas(c, db, from, to, next, f); m.effect.SetTasks? && m.call == c.(pc := next)
    ensures Kept(c, db, StepCas(c, db, from, to, next, f))
  {
  }

  lemma CasKept(c: Call, db: Db, from: Option<TaskState>, to: TaskState, next: Pc, f: Fault)
    requires LocalOk(c, db)
    requires (c.pc.Bootstrap? && from == None && next == MarkRunning)
          || (from == Some(Running) && to == Reconciling && next == Reconcile && c.pc.MarkReconciling?)
          || (from == Some(Reconciling) && to == c.final && c.pc.CloseTask? && next == CloseOwnClaim)
    ensures Kept(c, db, StepCas(c, db, from, to, next, f))
  {
    var m := StepCas(c, db, from, to, next, f);
    if m.effect.Nothing? {
      assert m == Throw(c);
      CalmKept(c, db, Thrown(c), Nothing);
    } else if f.ThrowsAfter? {
      assert m.call == Thrown(c);
      CalmKept(c, db, Thrown(c), m.effect);
    } else {
      CasMoves(c, db, from, to, next, f);
    }
  }

  lemma AcquireKept(c: Call, db: Db, f: Fault)
    requires LocalOk(c, db) && c.pc.Acquire?
    ensures Kept(c, db, StepAcquire(c, db, f))
  {
    if f.ThrowsBefore? {
      CalmKept(c, db, Thrown(c), Nothing);
    } else if f.ThrowsAfter? {
      CalmKept(c, db, Thrown(c), StepAcquire(c, db, f).effect);
    } else {
    }
  }

  lemma ClaimInsertKept(c: Call, db: Db, f: Fault)
    requires LocalOk(c, db) && c.pc.ClaimInsert?
    ensures Kept(c, db, StepClaimInsert(c, db, f))
  {
    if f.ThrowsBefore? {
      CalmKept(c, db, Thrown(c), Nothing);
    } else if f.ThrowsAfter? {
      CalmKept(c, db, Thrown(c), StepClaimInsert(c, db, f).effect);
    } else if c.ids.key in db.claims {
      assert StepClaimInsert(c, db, f) == Moved(c.(pc := ClaimSelect, claimNow := db.now), Nothing);
    } else {
      CalmKept(c, db, StepClaimInsert(c, db, f).call, StepClaimInsert(c, db, f).effect);
    }
  }

  lemma ClaimSelectKept(c: Call, db: Db, f: Fault)
    requires LocalOk(c, db) && c.pc.ClaimSelect?
    ensures Kept(c, db, StepClaimSelect(c, db, f))
  {
    if !f.NoFault? || c.ids.key !in db.claims {
      CalmKept(c, db, Thrown(c), Nothing);
    } else if db.claims[c.ids.key].status.InProgress? {
    } else {
      CalmKept(c, db, StepClaimSelect(c, db, f).call, Nothing);
    }
  }

  lemma ClaimReclaimKept(c: Call, db: Db, f: Fault)
    requires LocalOk(c, db) && c.pc.ClaimReclaim?
    ensures Kept(c, db, StepClaimReclaim(c, db, f))
  {
    var m := StepClaimReclaim(c, db, f);
    if f.ThrowsBefore? {
      CalmKept(c, db, Thrown(c), Nothing);
    } else if f.ThrowsAfter? {
      CalmKept(c, db, Thrown(c), m.effect);
    } else {
      assert m.call.pc.BeatStart? || m.call.pc.Finally?;
      CalmKept(c, db, m.call, m.effect);
    }
  }

  lemma FailInvalidKept(c: Call, db: Db, f: Fault)
    requires LocalOk(c, db) && c.pc.FailInvalid?
    ensures Kept(c, db, StepFailInvalid(c, db, f))
  {
  }

  lemma CloseOwnClaimKept(c: Call, db: Db, f: Fault)
    requires LocalOk(c, db) && c.pc.CloseOwnClaim?
    ensures Kept(c, db, StepCloseClaim(c, db, f))
  {
  }

  lemma CatchFailKept(c: Call, db: Db, f: Fault)
    requires LocalOk(c, db) && c.pc.CatchFail?
    ensures Kept(c, db, StepCatchFail(c, db, f))
  {
  }

  lemma ReleaseKept(c: Call, db: Db, f: Fault)
    requires LocalOk(c, db) && c.pc.Release?
    ensures Kept(c, db, StepRelease(c, db, f))
  {
  }

  lemma MarkRunningKept(c: Call, db: Db, f: Fault)
    requires LocalOk(c, db) && c.pc.MarkRunning?
    ensures Kept(c, db, StepMarkRunning(c, db, f))
  {
    var m := StepMarkRunning(c, db, f);
    if m.effect.Nothing? {
      CalmKept(c, db, Thrown(c), Nothing);
    } else {
      assert Bounded(c, db, m);
    }
  }

  lemma ReadStateKept(c: Call, db: Db, f: Fault)
    requires LocalOk(c, db) && c.pc.ReadState?
    ensures Kept(c, db, StepReadState(c, db, f))
  {
    var m := StepReadState(c, db, f);
    if !f.NoFault? {
      CalmKept(c, db, Thrown(c), Nothing);
    } else if LifecycleState(db.tasks, c.ids.key.project, c.ids.key.task) != None {
      assert m == Goto(c, m.call.pc);
      CalmKept(c, db, m.call, Nothing);
    } else {
      assert m == Goto(c, Bootstrap);
    }
  }

  lemma CatchReadKept(c: Call, db: Db, f: Fault)
    requires LocalOk(c, db) && c.pc.CatchRead?
    ensures Kept(c, db, StepCatchRead(c, db, f))
  {
  }

  lemma CatchFixKept(c: Call, db: Db, f: Fault)
    requires LocalOk(c, db) && c.pc.CatchFix?
    ensures Kept(c, db, StepCatchFix(c, db, c.pc.seen, f))
  {
  }

  /** A move that touches no table and promises nothing about them. */
  lemma QuietKept(c: Call, db: Db, c': Call)
    requires LocalOk(c, db) && c'.ids == c.ids && c'.claimNow == c.claimNow
    requires c'.pc == c.pc || c'.pc.BeatWait? || c'.pc.Validate? || c'.pc.FailInvalid? || c'.pc.ReadState?
             || c'.pc.CodexRunning?
          || c'.pc.CloseTask? || c'.pc.CatchFail? || c'.pc.CatchRead? || c'.pc.Finally? || c'.pc.Release? || c'.pc.Done?
          || (Launching(c'.pc) && Launching(c.pc))
          || ((c'.pc.MarkReconciling? || c'.pc.Persist?) && !Launching(c'.pc))
    requires c'.pc.MarkReconciling? || c'.pc.Reconcile? ==> Sound(c'.exec)
    requires c'.pc.Persist? || c'.pc.CloseTask? || c'.pc.CloseOwnClaim? ==>
               Terminal(c'.final) && (c'.resultOk ==> Succeeded(c'.final))
    requires c'.pc.CloseOwnClaim? ==> c'.final == c.final
    ensures Kept(c, db, Moved(c', Nothing))
  {
  }

  lemma HealthcheckKept(c: Call, db: Db, f: Fault, settled: Option<CodexRunner.ExecutionResult>)
    requires LocalOk(c, db) && c.pc.Healthcheck? && (settled.Some? ==> Sound(settled.value))
    ensures Kept(c, db, StepHealthcheck(c, f, settled))
  {
    QuietKept(c, db, StepHealthcheck(c, f, settled).call);
  }

  lemma CodexRunningKept(c: Call, db: Db, f: Fault, settled: Option<CodexRunner.ExecutionResult>)
    requires LocalOk(c, db) && c.pc.CodexRunning? && (settled.Some? ==> Sound(settled.value))
    ensures Kept(c, db, StepCodexRunning(c, f, settled))
  {
    QuietKept(c, db, StepCodexRunning(c, f, settled).call);
  }

  lemma ReconcileKept(c: Call, db: Db, x: Input)
    requires LocalOk(c, db) && c.pc.Reconcile?
    ensures Kept(c, db, StepReconcile(c, x))
  {
    SuccessIsOk(c.exec, x.review.(blockedReason := None));
    QuietKept(c, db, StepReconcile(c, x).call);
  }

  /** The points of the main program that run no statement. */
  lemma BeatPointsKept(c: Call, db: Db, x: Input)
    requires LocalOk(c, db) && (c.pc.BeatStart? || c.pc.BeatWait?)
    ensures Kept(c, db, Main(c, db, x))
  {
    match c.pc {
      case BeatStart =>
        QuietKept(c, db, c.(pc := BeatWait, beat := c.beat.(inFlight := Some(Beat(None, None)))));
      case BeatWait =>
        QuietKept(c, db, Main(c, db, x).call);
    }
  }

  lemma EarlyPlainKept(c: Call, db: Db, x: Input)
    requires LocalOk(c, db) && (c.pc.Validate? || c.pc.SnapshotBefore?)
    ensures Kept(c, db, Main(c, db, x))
  {
    match c.pc {
      case Validate =>
        QuietKept(c, db, c.(pc := if x.commandValid then ReadState else FailInvalid));
      case SnapshotBefore =>
        QuietKept(c, db, if x.fault.NoFault? then c.(pc := Healthcheck) else Thrown(c));
    }
  }

  lemma LaunchPointsKept(c: Call, db: Db, x: Input)
    requires LocalOk(c, db) && (c.pc.CheckAbort? || c.pc.Launch?)
    ensures Kept(c, db, Main(c, db, x))
  {
    if c.pc.CheckAbort? {
      QuietKept(c, db, if c.aborted then c.(exec := CANCELLED_EXECUTION, pc := MarkReconciling) else c.(pc := Launch));
    } else {
      assert Main(c, db, x) == Moved(c.(pc := CodexRunning), StartCodex);
    }
  }

  lemma LatePlainKept(c: Call, db: Db, x: Input)
    requires LocalOk(c, db) && (c.pc.Persist? || c.pc.Finally? || c.pc.Done?)
    ensures Kept(c, db, Main(c, db, x))
  {
    match c.pc {
      case Persist =>
        QuietKept(c, db, if x.fault.NoFault? then c.(pc := CloseTask) else Thrown(c));
      case Finally =>
        QuietKept(c, db, Main(c, db, x).call);
      case Done =>
        QuietKept(c, db, c);
    }
  }

  lemma MainKept(c: Call, db: Db, x: Input)
    requires LocalOk(c, db)
    ensures Kept(c, db, Main(c, db, x))
  {
    match c.pc {
      case Acquire => AcquireKept(c, db, x.fault);
      case ClaimInsert => ClaimInsertKept(c, db, x.fault);
      case ClaimSelect => ClaimSelectKept(c, db, x.fault);
      case ClaimReclaim => ClaimReclaimKept(c, db, x.fault);
      case FailInvalid => FailInvalidKept(c, db, x.fault);
      case CloseOwnClaim => CloseOwnClaimKept(c, db, x.fault);
      case CatchFail => CatchFailKept(c, db, x.fault);
      case Release => ReleaseKept(c, db, x.fault);
      case MarkRunning => MarkRunningKept(c, db, x.fault);
      case ReadState => ReadStateKept(c, db, x.fault);
      case CatchRead => CatchReadKept(c, db, x.fault);
      case CatchFix(_) => CatchFixKept(c, db, x.fault);
      case Bootstrap => CasKept(c, db, None, Prepared, MarkRunning, x.fault);
      case MarkReconciling => CasKept(c, db, Some(Running), Reconciling, Reconcile, x.fault);
      case CloseTask => CasKept(c, db, Some(Reconciling), c.final, CloseOwnClaim, x.fault);
      case Healthcheck =>
        CodexRunner.OkMeansCleanExit(x.spawnAborted, x.events);
        HealthcheckKept(c, db, x.fault, CodexRunner.Settled(x.spawnAborted, x.events));
      case CodexRunning =>
        CodexRunner.OkMeansCleanExit(x.spawnAborted, x.events);
        CodexRunningKept(c, db, x.fault, CodexRunner.Settled(x.spawnAborted, x.events));
      case Reconcile => ReconcileKept(c, db, x);
      case BeatStart => BeatPointsKept(c, db, x);
      case BeatWait => BeatPointsKept(c, db, x);
      case CheckAbort => LaunchPointsKept(c, db, x);
      case Launch => LaunchPointsKept(c, db, x);
      case Persist => LatePlainKept(c, db, x);
      case Finally => LatePlainKept(c, db, x);
      case Done => LatePlainKept(c, db, x);
      case _ => EarlyPlainKept(c, db, x);
    }
  }

  lemma TendLockKept(c: Call, db: Db, f: Fault)
    requires LocalOk(c, db)
    ensures Kept(c, db, TendLock(c, db, f))
  {
    var m := TendLock(c, db, f);
    assert m.call == c.(beat := m.call.beat, aborted := m.call.aborted, seen := m.call.seen);
    assert Bounded(c, db, m);
  }

  lemma TendClaimKept(c: Call, db: Db, f: Fault)
    requires LocalOk(c, db)
    ensures Kept(c, db, TendClaim(c, db, f))
  {
    var m := TendClaim(c, db, f);
    assert m.call == c.(beat := m.call.beat, aborted := m.call.aborted, seen := m.call.seen);
    assert Bounded(c, db, m);
  }

  lemma LateRowsKept(c: Call, db: Db, beat: BeatStep, f: Fault)
    requires LocalOk(c, db) && (beat.LateLockRow? || beat.LateClaimRow?)
    ensures Kept(c, db, Tend(c, db, beat, f))
  {
    var m := Tend(c, db, beat, f);
    assert m.call == c.(beat := m.call.beat);
    assert Bounded(c, db, m);
  }

  lemma TendKept(c: Call, db: Db, beat: BeatStep, f: Fault)
    requires LocalOk(c, db)
    ensures Kept(c, db, Tend(c, db, beat, f))
  {
    var m := Tend(c, db, beat, f);
    match beat {
      case RenewLockRow => TendLockKept(c, db, f);
      case RenewClaimRow => TendClaimKept(c, db, f);
      case LateLockRow => LateRowsKept(c, db, beat, f);
      case LateClaimRow => LateRowsKept(c, db, beat, f);
      case _ =>
        assert m.effect == Nothing && m.call == c.(beat := m.call.beat, aborted := m.call.aborted);
        QuietKept(c, db, m.call);
    }
  }

  // ---- so every step of the system keeps the invariant -------------------------------------------

  lemma OtherLocalOk(other: Call, c: Call, db: Db, m: Moved)
    requires LocalOk(other, db) && LocalOk(c, db) && Bounded(c, db, m)
    requires other.ids.lockId != c.ids.lockId && other.ids.claimId != c.ids.claimId
    ensures LocalOk(other, After(db, m.effect))
  {
  }

  lemma TasksStayOk(s: State, id: CallId, m: Moved, t: Id)
    requires Inv(s) && id in s.calls && Kept(s.calls[id], s.db, m)
    ensures TaskOk(Commit(s, id, m), t)
  {
    assert TaskOk(s, t) && CallOk(s, id);
    if m.effect.SetTasks? || m.effect.Win? {
      MovedTaskStaysOk(s, id, m, t);
    }
  }

  lemma MovedTaskStaysOk(s: State, id: CallId, m: Moved, t: Id)
    requires TaskOk(s, t) && id in s.calls && Bounded(s.calls[id], s.db, m) && (m.effect.SetTasks? || m.effect.Win?)
    ensures TaskOk(Commit(s, id, m), t)
  {
  }

  lemma ClaimStaysOk(c: Call, db: Db, m: Moved, k: RunKey)
    requires LocalOk(c, db) && Bounded(c, db, m) && (k in db.claims ==> ClaimOk(db, k))
    requires k in After(db, m.effect).claims
    ensures ClaimOk(After(db, m.effect), k)
  {
  }

  lemma CallsStayOk(s: State, id: CallId, m: Moved, i: CallId)
    requires Inv(s) && id in s.calls && i in s.calls && Kept(s.calls[id], s.db, m)
    ensures CallOk(Commit(s, id, m), i)
  {
    assert CallOk(s, id) && CallOk(s, i);
    assert TaskOk(s, s.calls[id].ids.key.task);
    assert Commit(s, id, m).db == After(s.db, m.effect);
    if i != id {
      OtherLocalOk(s.calls[i], s.calls[id], s.db, m);
    }
  }

  lemma RowIdsStayUsed(c: Call, db: Db, m: Moved, used: set<Id>)
    requires Bounded(c, db, m) && c.ids.lockId in used && c.ids.claimId in used
    requires forall p | p in db.locks :: db.locks[p].lockId in used
    requires forall k | k in db.claims :: db.claims[k].claimId in used
    ensures forall p | p in After(db, m.effect).locks :: After(db, m.effect).locks[p].lockId in used
    ensures forall k | k in After(db, m.effect).claims :: After(db, m.effect).claims[k].claimId in used
  {
  }

  lemma IdsStayOk(s: State, id: CallId, m: Moved)
    requires IdsOk(s) && id in s.calls && CallOk(s, id) && Kept(s.calls[id], s.db, m)
    ensures IdsOk(Commit(s, id, m))
  {
    RowIdsStayUsed(s.calls[id], s.db, m, s.usedIds);
    var s' := Commit(s, id, m);
    assert s'.db == After(s.db, m.effect) && s'.usedIds == s.usedIds && s'.calls == s.calls[id := m.call];
  }

  lemma CommitKeepsInv(s: State, id: CallId, m: Moved)
    requires Inv(s) && id in s.calls && Kept(s.calls[id], s.db, m)
    ensures Inv(Commit(s, id, m))
  {
    var s' := Commit(s, id, m);
    assert s'.db == After(s.db, m.effect) && s'.calls.Keys == s.calls.Keys;
    assert CallOk(s, id);
    IdsStayOk(s, id, m);
    forall i | i in s'.calls ensures CallOk(s', i) { CallsStayOk(s, id, m, i); }
    forall t ensures TaskOk(s', t) { TasksStayOk(s, id, m, t); }
    forall k | k in s'.db.claims ensures ClaimOk(s'.db, k) {
      assert k in s.db.claims ==> ClaimOk(s.db, k);
      ClaimStaysOk(s.calls[id], s.db, m, k);
    }
  }

  lemma PrepareKeepsInv(s: State, project: Id, task: Id)
    requires Inv(s) && task !in s.db.tasks
    ensures Inv(Apply(s, PrepareTask(project, task)))
  {
    var s' := Apply(s, PrepareTask(project, task));
    forall i | i in s'.calls ensures CallOk(s', i) { assert CallOk(s, i); }
    forall t ensures TaskOk(s', t) { assert TaskOk(s, t); }
    forall k | k in s'.db.claims ensures ClaimOk(s'.db, k) { assert ClaimOk(s.db, k); }
  }

  lemma StartKeepsInv(s: State, id: CallId, ids: Ids)
    requires Inv(s)
    ensures Inv(Begin(s, id, ids))
  {
    var s' := Begin(s, id, ids);
    forall i | i in s'.calls ensures CallOk(s', i) {
      if i in s.calls {
        assert CallOk(s, i);
      }
    }
    forall i | i in s.calls ensures s.calls[i].ids.lockId in s.usedIds && s.calls[i].ids.claimId in s.usedIds {
      assert CallOk(s, i);
    }
    forall t ensures TaskOk(s', t) { assert TaskOk(s, t); }
  }

  lemma TickKeepsInv(s: State, dt: nat)
    requires Inv(s)
    ensures Inv(Apply(s, ClockTick(dt)))
  {
    var s' := Apply(s, ClockTick(dt));
    forall i | i in s'.calls ensures CallOk(s', i) { assert CallOk(s, i); }
    forall t ensures TaskOk(s', t) { assert TaskOk(s, t); }
    forall k | k in s'.db.claims ensures ClaimOk(s'.db, k) { assert ClaimOk(s.db, k); }
  }

  /** What a step of call `id` does to it. */
  lemma OwnStepKept(s: State, id: CallId, step: Step) returns (m: Moved)
    requires Inv(s) && id in s.calls
    requires step == UserAbort(id) || (step.Advance? && step.id == id) || (step.Renew? && step.id == id)
    ensures Kept(s.calls[id], s.db, m) && Apply(s, step) == Commit(s, id, m)
  {
    assert CallOk(s, id);
    match step {
      case UserAbort(_) =>
        m := Moved(s.calls[id].(aborted := true), Nothing);
        QuietKept(s.calls[id], s.db, m.call);
      case Advance(_, input) =>
        m := Main(s.calls[id], s.db, input);
        MainKept(s.calls[id], s.db, input);
      case Renew(_, beat, fault) =>
        m := Tend(s.calls[id], s.db, beat, fault);
        TendKept(s.calls[id], s.db, beat, fault);
    }
  }

  lemma ApplyKeepsInv(s: State, step: Step)
    requires Inv(s)
    ensures Inv(Apply(s, step))
  {
    match step {
      case ClockTick(dt) => TickKeepsInv(s, dt);
      case PrepareTask(project, task) =>
        if task !in s.db.tasks {
          PrepareKeepsInv(s, project, task);
        }
      case Start(id, ids) => StartKeepsInv(s, id, ids);
      case _ =>
        if step.id in s.calls {
          var m := OwnStepKept(s, step.id, step);
          CommitKeepsInv(s, step.id, m);
        }
    }
  }

  lemma {:induction false} Reachable(steps: seq<Step>)
    ensures Inv(Exec(steps))
  {
    if steps != [] {
      Reachable(steps[..|steps| - 1]);
      ApplyKeepsInv(Exec(steps[..|steps| - 1]), steps[|steps| - 1]);
    }
  }
}
