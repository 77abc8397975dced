/** What a call leaves behind when it ends: its lock, its task and its claim. */
module Cleanup {
  import opened Prelude
  import opened Persistence
  import CodexRunner
  import opened Outcome
  import opened RunProtocol
  import opened RunInvariant
  import opened RunTheorems
  import opened TaskOwners
  import opened OpenClaims

  // ---- where a run stands ----------------------------------------------------------------------

  /** The state of the task of a run that was started. */
  predicate StateFits(pc: Pc, state: TaskState) {
    if Launching(pc) || pc.CodexRunning? || pc.MarkReconciling? then state.Running?
    else if pc.Reconcile? || pc.Persist? || pc.CloseTask? then state.Reconciling?
    else if pc.CloseOwnClaim? || Leaving(pc) then Terminal(state)
    else if pc.CatchFix? then state == pc.seen && (state.Running? || state.Reconciling?)
    else InCatch(pc) && !state.Draft? && !state.Prepared?
  }

  predicate LockGone(c: Call, db: Db) {
    c.ids.key.project !in db.locks || db.locks[c.ids.key.project].lockId != c.ids.lockId
  }

  /** An ended call has given up its lock, and the task of a run that was started fits the point of the run. */
  predicate Staged(c: Call, db: Db) {
    && (c.pc.Done? ==> LockGone(c, db))
    && (c.transitionStarted ==>
          && c.ids.key.task in db.tasks && db.tasks[c.ids.key.task].project == c.ids.key.project
          && StateFits(c.pc, db.tasks[c.ids.key.task].state))
  }

  lemma OthersLeaveStaged(c: Call, other: Call, db: Db, m: Moved)
    requires Staged(c, db) && Bounded(other, db, m) && Steady(other, m)
    requires other.ids.lockId != c.ids.lockId && other.ids.claimId != c.ids.claimId
    requires c.transitionStarted && other.transitionStarted ==> other.ids.key.task != c.ids.key.task
    ensures Staged(c, After(db, m.effect))
  {
  }

  // ---- each step of the call itself keeps it staged ----------------------------------------------

  /** Into the catch block, with the task as it was or moved on by one update of the run. */
  lemma ThrownIsStaged(c: Call, db: Db, tasks: TaskTable)
    requires Staged(c, db) && Started(c) && !Claiming(c.pc) && !InCatch(c.pc) && !Leaving(c.pc)
    requires tasks == db.tasks || (c.ids.key.task in tasks && tasks[c.ids.key.task].project == c.ids.key.project
                                   && !tasks[c.ids.key.task].state.Draft? && !tasks[c.ids.key.task].state.Prepared?)
    ensures Staged(Thrown(c), db.(tasks := tasks))
  {
  }

  lemma CasIsStaged(c: Call, db: Db, from: Option<TaskState>, to: TaskState, next: Pc, f: Fault)
    requires LocalOk(c, db) && Started(c) && Staged(c, db)
    requires (c.pc.Bootstrap? && from == None && next == MarkRunning)
          || (c.pc.MarkReconciling? && from == Some(Running) && to == Reconciling && next == Reconcile)
          || (c.pc.CloseTask? && from == Some(Reconciling) && to == c.final && next == CloseOwnClaim)
    ensures var m := StepCas(c, db, from, to, next, f); Staged(m.call, After(db, m.effect))
  {
    var m := StepCas(c, db, from, to, next, f);
    if m.effect.Nothing? {
      assert m == Throw(c);
      ThrownIsStaged(c, db, db.tasks);
    } else if f.ThrowsAfter? {
      assert m.call == Thrown(c) && m.effect.tasks == db.tasks[c.ids.key.task := TaskRow(c.ids.key.project, to)];
      ThrownIsStaged(c, db, m.effect.tasks);
    } else {
      assert m.call == c.(pc := next) && m.effect.tasks == db.tasks[c.ids.key.task := TaskRow(c.ids.key.project, to)];
    }
  }

  lemma MarkRunningIsStaged(c: Call, db: Db, f: Fault)
    requires LocalOk(c, db) && Staged(c, db) && c.pc.MarkRunning?
    ensures var m := StepMarkRunning(c, db, f); Staged(m.call, After(db, m.effect))
  {
    var m := StepMarkRunning(c, db, f);
    assert m.call == Thrown(c) || m.call == c.(pc := SnapshotBefore, transitionStarted := true);
  }

  lemma CloseOwnClaimIsStaged(c: Call, db: Db, f: Fault)
    requires LocalOk(c, db) && Staged(c, db) && c.pc.CloseOwnClaim?
    ensures var m := StepCloseClaim(c, db, f); Staged(m.call, After(db, m.effect))
  {
  }

  lemma CatchFailIsStaged(c: Call, db: Db)
    requires Staged(c, db) && c.pc.CatchFail?
    ensures var m := StepCatchFail(c, db, NoFault); Staged(m.call, After(db, m.effect))
  {
  }

  lemma CatchReadIsStaged(c: Call, db: Db)
    requires Staged(c, db) && c.pc.CatchRead?
    ensures var m := StepCatchRead(c, db, NoFault); Staged(m.call, After(db, m.effect))
  {
  }

  lemma CatchFixIsStaged(c: Call, db: Db)
    requires Staged(c, db) && c.pc.CatchFix? && Started(c)
    ensures var m := StepCatchFix(c, db, c.pc.seen, NoFault); Staged(m.call, After(db, m.effect))
  {
  }

  lemma ReleaseIsStaged(c: Call, db: Db)
    requires Staged(c, db) && c.pc.Release?
    ensures var m := StepRelease(c, db, NoFault); Staged(m.call, After(db, m.effect))
  {
  }

  lemma FailInvalidIsStaged(c: Call, db: Db, f: Fault)
    requires Staged(c, db) && c.pc.FailInvalid?
    ensures var m := StepFailInvalid(c, db, f); Staged(m.call, After(db, m.effect))
  {
  }

  lemma AcquireIsStaged(c: Call, db: Db, f: Fault)
    requires Staged(c, db) && c.pc.Acquire?
    ensures var m := StepAcquire(c, db, f); Staged(m.call, After(db, m.effect))
  {
  }

  lemma ClaimInsertIsStaged(c: Call, db: Db, f: Fault)
    requires Staged(c, db) && c.pc.ClaimInsert?
    ensures var m := StepClaimInsert(c, db, f); Staged(m.call, After(db, m.effect))
  {
  }

  lemma ClaimSelectIsStaged(c: Call, db: Db, f: Fault)
    requires Staged(c, db) && c.pc.ClaimSelect?
    ensures var m := StepClaimSelect(c, db, f); Staged(m.call, After(db, m.effect))
  {
  }

  lemma ClaimReclaimIsStaged(c: Call, db: Db, f: Fault)
    requires Staged(c, db) && c.pc.ClaimReclaim?
    ensures var m := StepClaimReclaim(c, db, f); Staged(m.call, After(db, m.effect))
  {
  }

  lemma ReadStateIsStaged(c: Call, db: Db, f: Fault)
    requires Staged(c, db) && c.pc.ReadState?
    ensures var m := StepReadState(c, db, f); Staged(m.call, After(db, m.effect))
  {
  }

  lemma ChildIsStaged(c: Call, db: Db, f: Fault, settled: Option<CodexRunner.ExecutionResult>)
    requires Staged(c, db) && Started(c)
    ensures c.pc.Healthcheck? ==> Staged(StepHealthcheck(c, f, settled).call, db)
    ensures c.pc.CodexRunning? ==> Staged(StepCodexRunning(c, f, settled).call, db)
  {
  }

  lemma ReconcileIsStaged(c: Call, db: Db, x: Input)
    requires Staged(c, db) && Started(c) && c.pc.Reconcile?
    ensures Staged(StepReconcile(c, x).call, db)
  {
  }

  /** The points that run no statement. */
  lemma BeatPointsAreStaged(c: Call, db: Db, x: Input)
    requires Staged(c, db) && (c.pc.BeatStart? || c.pc.BeatWait? || c.pc.Validate? || c.pc.Finally? || c.pc.Done?)
    ensures var m := Main(c, db, x); Staged(m.call, After(db, m.effect))
  {
  }

  lemma RunPointsAreStaged(c: Call, db: Db, x: Input)
    requires Staged(c, db) && Started(c) && (c.pc.SnapshotBefore? || c.pc.CheckAbort? || c.pc.Launch? || c.pc.Persist?)
    ensures var m := Main(c, db, x); Staged(m.call, After(db, m.effect))
  {
    var m := Main(c, db, x);
    if m.call == Thrown(c) {
      ThrownIsStaged(c, db, db.tasks);
    } else {
      assert m.call == c.(pc := m.call.pc, exec := m.call.exec);
    }
  }

  lemma MainIsStaged(c: Call, db: Db, x: Input)
    requires LocalOk(c, db) && Started(c) && Staged(c, db) && (CleansUp(c.pc) ==> x.fault.NoFault?)
    ensures var m := Main(c, db, x); Staged(m.call, After(db, m.effect))
  {
    match c.pc {
      case Acquire => AcquireIsStaged(c, db, x.fault);
      case ClaimInsert => ClaimInsertIsStaged(c, db, x.fault);
      case ClaimSelect => ClaimSelectIsStaged(c, db, x.fault);
      case ClaimReclaim => ClaimReclaimIsStaged(c, db, x.fault);
      case FailInvalid => FailInvalidIsStaged(c, db, x.fault);
      case ReadState => ReadStateIsStaged(c, db, x.fault);
      case Bootstrap => CasIsStaged(c, db, None, Prepared, MarkRunning, x.fault);
      case MarkRunning => MarkRunningIsStaged(c, db, x.fault);
      case Healthcheck => ChildIsStaged(c, db, x.fault, CodexRunner.Settled(x.spawnAborted, x.events));
      case CodexRunning => ChildIsStaged(c, db, x.fault, CodexRunner.Settled(x.spawnAborted, x.events));
      case MarkReconciling => CasIsStaged(c, db, Some(Running), Reconciling, Reconcile, x.fault);
      case Reconcile => ReconcileIsStaged(c, db, x);
      case CloseTask => CasIsStaged(c, db, Some(Reconciling), c.final, CloseOwnClaim, x.fault);
      case CloseOwnClaim => CloseOwnClaimIsStaged(c, db, x.fault);
      case CatchFail => CatchFailIsStaged(c, db);
      case CatchRead => CatchReadIsStaged(c, db);
      case CatchFix(_) => CatchFixIsStaged(c, db);
      case Release => ReleaseIsStaged(c, db);
      case SnapshotBefore => RunPointsAreStaged(c, db, x);
      case CheckAbort => RunPointsAreStaged(c, db, x);
      case Launch => RunPointsAreStaged(c, db, x);
      case Persist => RunPointsAreStaged(c, db, x);
      case _ => BeatPointsAreStaged(c, db, x);
    }
  }

  /** The heartbeat renews what is there: it opens no claim and takes no lock. */
  lemma TendIsStaged(c: Call, db: Db, beat: BeatStep, f: Fault)
    requires Staged(c, db)
    ensures var m := Tend(c, db, beat, f); Staged(m.call, After(db, m.effect))
  {
    TendTouches(c, db, beat, f);
  }

  // ---- over whole runs -------------------------------------------------------------------------

  ghost predicate StagedCall(s: State, id: CallId) { id in s.calls ==> Staged(s.calls[id], s.db) }

  lemma MoveKeepsStaged(s: State, mover: CallId, m: Moved, id: CallId)
    requires Inv(s) && Owners(s) && StagedCall(s, id) && mover in s.calls && mover != id
    requires Kept(s.calls[mover], s.db, m) && Steady(s.calls[mover], m)
    ensures StagedCall(Commit(s, mover, m), id)
  {
    if id in s.calls {
      OthersLeaveStaged(s.calls[id], s.calls[mover], s.db, m);
      assert Commit(s, mover, m).db == After(s.db, m.effect);
    }
  }

  lemma OwnStepKeepsStaged(s: State, step: Step, id: CallId)
    requires Inv(s) && Owners(s) && id in s.calls && Staged(s.calls[id], s.db) && StepOf(step, id)
    requires UndisturbedCleanup(s, step, id)
    ensures StagedCall(Apply(s, step), id)
  {
    var c := s.calls[id];
    assert CallOk(s, id);
    match step {
      case UserAbort(_) =>
      case Advance(_, x) =>
        MainIsStaged(c, s.db, x);
        CommitIs(s, id, Main(c, s.db, x));
      case Renew(_, beat, f) =>
        TendIsStaged(c, s.db, beat, f);
        CommitIs(s, id, Tend(c, s.db, beat, f));
    }
  }

  lemma StepKeepsStaged(s: State, step: Step, id: CallId)
    requires Inv(s) && Owners(s) && StagedCall(s, id) && UndisturbedCleanup(s, step, id)
    ensures StagedCall(Apply(s, step), id)
  {
    match step {
      case ClockTick(_) =>
      case PrepareTask(_, _) =>
      case Start(_, _) =>
      case _ =>
        if step.id in s.calls {
          if step.id == id {
            OwnStepKeepsStaged(s, step, id);
          } else {
            var m := OwnStepIsSteady(s, step.id, step);
            MoveKeepsStaged(s, step.id, m, id);
          }
        }
    }
  }

  lemma {:induction false} CallsAreStaged(steps: seq<Step>, id: CallId)
    requires CleanedUp(steps, id)
    ensures StagedCall(Exec(steps), id)
  {
    if steps != [] {
      var before := steps[..|steps| - 1];
      CleanedUpBefore(steps, id);
      CallsAreStaged(before, id);
      Reachable(before);
      OwnersReachable(before);
      StepKeepsStaged(Exec(before), steps[|steps| - 1], id);
    }
  }

  /** Whatever happened to a call, if its clean-up meets no database error then once it has ended it holds
      no lock. The task of the call that won it is then in a terminal state if the call knew that it had won,
      and is still running, for good, if it did not. */
  lemma EndedCallsAreCleanedUp(steps: seq<Step>, id: CallId)
    requires CleanedUp(steps, id) && id in Exec(steps).calls && Exec(steps).calls[id].pc.Done?
    ensures var (s, c) := (Exec(steps), Exec(steps).calls[id]);
            && !Holds(s, c.ids.key.project, id)
            && (c.transitionStarted ==> WonBy(s, c.ids.key.task, id) && !Owns(c, s.db))
            && (WonBy(s, c.ids.key.task, id) ==>
                  && c.ids.key.task in s.db.tasks
                  && var state := s.db.tasks[c.ids.key.task].state;
                     (if c.transitionStarted then Terminal(state) else state.Running?))
  {
    CallsAreStaged(steps, id);
    OwnersReachable(steps);
    UnawareReachable(steps);
    EndedCallsOwnWhatTheyLeft(steps, id);
    assert StuckIfUnaware(Exec(steps), id);
  }

  /** What decides is how the winning update was answered: the task ends in a terminal state exactly if that
      step met no exception, and stays running exactly if the exception came after the update was committed. */
  lemma WinnersEndTheirTask(steps: seq<Step>, id: CallId) returns (i: nat)
    requires CleanedUp(steps, id) && id in Exec(steps).calls && Exec(steps).calls[id].pc.Done?
    requires WonBy(Exec(steps), Exec(steps).calls[id].ids.key.task, id)
    ensures i < |steps| && WinsBy(steps, i, id)
    ensures Exec(steps).calls[id].ids.key.task in Exec(steps).db.tasks
    ensures var state := Exec(steps).db.tasks[Exec(steps).calls[id].ids.key.task].state;
            && (Terminal(state) <==> steps[i].input.fault.NoFault?)
            && (state.Running? <==> !steps[i].input.fault.NoFault?)
  {
    EndedCallsAreCleanedUp(steps, id);
    assert steps[..|steps|] == steps;
    i := WinningStep(steps, |steps|, id);
  }

  /** Such a task stops every later run of it: the call finds it running and takes the early return. */
  lemma StuckTasksStopLaterRuns(steps: seq<Step>, i: nat, j: nat, id: CallId, later: CallId, x: Input)
    requires i <= j <= |steps| && Stuck(At(steps, i), id) && later in At(steps, j).calls && x.fault.NoFault?
    requires var (s, c) := (At(steps, j), At(steps, j).calls[later]);
             && c.pc.ReadState? && c.ids.key.task == At(steps, i).calls[id].ids.key.task
             && (c.ids.key.task in s.db.tasks ==> s.db.tasks[c.ids.key.task].project == c.ids.key.project)
    ensures LeavesUnprepared(At(steps, j).calls[later], At(steps, j).db, x)
    ensures Apply(At(steps, j), Advance(later, x)).calls[later].pc.Finally?
  {
    StuckForever(steps, i, j, id);
  }
}
