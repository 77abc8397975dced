/** Which call owns a task: the one that moved it from prepared to running. */
module TaskOwners {
  import opened Prelude
  import opened Persistence
  import CodexRunner
  import opened Outcome
  import opened RunProtocol
  import opened RunInvariant
  import opened RunTheorems

  // ---- only the call that started a run moves its task -------------------------------------------

  /** From the winning update on, and in the catch block where it repairs the task. */
  predicate InRun(pc: Pc) {
    Launching(pc) || pc.CodexRunning? || pc.MarkReconciling? || pc.Reconcile? || pc.Persist? || pc.CloseTask?
      || pc.CloseOwnClaim? || pc.CatchFix?
  }

  predicate InCatch(pc: Pc) { pc.CatchFail? || pc.CatchRead? || pc.CatchFix? }
  predicate Leaving(pc: Pc) { pc.Finally? || pc.Release? || pc.Done? }

  predicate Started(c: Call) { InRun(c.pc) ==> c.transitionStarted }

  /** A step starts the run only by winning, and only a call that has started one moves a task. */
  predicate Steady(c: Call, m: Moved) {
    && Started(m.call) && (c.transitionStarted ==> m.call.transitionStarted)
    && (m.call.transitionStarted && !c.transitionStarted ==> m.effect.Win?)
    && (m.effect.SetTasks? ==> c.transitionStarted)
    && (m.effect.Win? ==> c.pc.MarkRunning?)
  }

  lemma CasIsSteady(c: Call, db: Db, from: Option<TaskState>, to: TaskState, next: Pc, f: Fault)
    requires Started(c) && (InRun(c.pc) || !TransitionTask(db.tasks, c.ids.key.project, c.ids.key.task, from, to).1)
    ensures Steady(c, StepCas(c, db, from, to, next, f))
  {
  }

  lemma AcquireIsSteady(c: Call, db: Db, x: Input)
    requires Started(c) && c.pc.Acquire?
    ensures Steady(c, StepAcquire(c, db, x.fault))
  {
  }

  lemma ClaimInsertIsSteady(c: Call, db: Db, x: Input)
    requires Started(c) && c.pc.ClaimInsert?
    ensures Steady(c, StepClaimInsert(c, db, x.fault))
  {
  }

  lemma ClaimSelectIsSteady(c: Call, db: Db, x: Input)
    requires Started(c) && c.pc.ClaimSelect?
    ensures Steady(c, StepClaimSelect(c, db, x.fault))
  {
  }

  lemma ClaimReclaimIsSteady(c: Call, db: Db, x: Input)
    requires Started(c) && c.pc.ClaimReclaim?
    ensures Steady(c, StepClaimReclaim(c, db, x.fault))
  {
  }

  lemma ClosingIsSteady(c: Call, db: Db, x: Input)
    requires Started(c)
    requires (c.pc.FailInvalid? || c.pc.CloseOwnClaim? || c.pc.CatchFail? || c.pc.Finally? || c.pc.Release?
             || c.pc.Done?)
    ensures Steady(c, Main(c, db, x))
  {
  }

  lemma RepairIsSteady(c: Call, db: Db, x: Input)
    requires Started(c) && (c.pc.CatchRead? || c.pc.CatchFix?)
    ensures Steady(c, Main(c, db, x))
  {
  }

  lemma EarlyIsSteady(c: Call, db: Db, x: Input)
    requires Started(c) && (c.pc.BeatStart? || c.pc.BeatWait? || c.pc.Validate? || c.pc.ReadState?)
    ensures Steady(c, Main(c, db, x))
  {
  }

  lemma MarkRunningIsSteady(c: Call, db: Db, f: Fault)
    requires Started(c) && c.pc.MarkRunning?
    ensures Steady(c, StepMarkRunning(c, db, f))
  {
  }

  lemma RunningIsSteady(c: Call, db: Db, x: Input)
    requires Started(c) && (Launching(c.pc) || c.pc.CodexRunning? || c.pc.Reconcile? || c.pc.Persist?)
    ensures Steady(c, Main(c, db, x))
  {
  }

  lemma MainIsSteady(c: Call, db: Db, x: Input)
    requires LocalOk(c, db) && Started(c)
    ensures Steady(c, Main(c, db, x))
  {
    match c.pc {
      case Bootstrap => CasIsSteady(c, db, None, Prepared, MarkRunning, x.fault);
      case MarkReconciling => CasIsSteady(c, db, Some(Running), Reconciling, Reconcile, x.fault);
      case CloseTask => CasIsSteady(c, db, Some(Reconciling), c.final, CloseOwnClaim, x.fault);
      case Acquire => AcquireIsSteady(c, db, x);
      case ClaimInsert => ClaimInsertIsSteady(c, db, x);
      case ClaimSelect => ClaimSelectIsSteady(c, db, x);
      case ClaimReclaim => ClaimReclaimIsSteady(c, db, x);
      case CatchRead => RepairIsSteady(c, db, x);
      case CatchFix(_) => RepairIsSteady(c, db, x);
      case FailInvalid => ClosingIsSteady(c, db, x);
      case CloseOwnClaim => ClosingIsSteady(c, db, x);
      case CatchFail => ClosingIsSteady(c, db, x);
      case Finally => ClosingIsSteady(c, db, x);
      case Release => ClosingIsSteady(c, db, x);
      case Done => ClosingIsSteady(c, db, x);
      case BeatStart => EarlyIsSteady(c, db, x);
      case BeatWait => EarlyIsSteady(c, db, x);
      case Validate => EarlyIsSteady(c, db, x);
      case ReadState => EarlyIsSteady(c, db, x);
      case MarkRunning => MarkRunningIsSteady(c, db, x.fault);
      case _ => RunningIsSteady(c, db, x);
    }
  }

  lemma TendIsSteady(c: Call, db: Db, beat: BeatStep, f: Fault)
    requires Started(c)
    ensures Steady(c, Tend(c, db, beat, f))
  {
  }

  /** A call that started the run of its task is the one that won it. */
  ghost predicate Owners(s: State) {
    forall id | id in s.calls ::
      Started(s.calls[id]) && (s.calls[id].transitionStarted ==> WonBy(s, s.calls[id].ids.key.task, id))
  }

  ghost predicate WonBy(s: State, t: Id, id: CallId) { t in s.winner && s.winner[t] == id }

  lemma OwnStepIsSteady(s: State, id: CallId, step: Step) returns (m: Moved)
    requires Inv(s) && Owners(s) && id in s.calls && StepOf(step, id)
    ensures Kept(s.calls[id], s.db, m) && Steady(s.calls[id], m) && Apply(s, step) == Commit(s, id, m)
    ensures step.Advance? ==> m == Main(s.calls[id], s.db, step.input)
    ensures step.Renew? ==> m == Tend(s.calls[id], s.db, step.beat, step.fault)
    ensures step.UserAbort? ==> m == Moved(s.calls[id].(aborted := true), Nothing)
  {
    var c := s.calls[id];
    assert CallOk(s, id);
    match step {
      case UserAbort(_) =>
        m := Moved(c.(aborted := true), Nothing);
        QuietKept(c, s.db, m.call);
      case Advance(_, input) =>
        m := Main(c, s.db, input);
        MainKept(c, s.db, input);
        MainIsSteady(c, s.db, input);
      case Renew(_, beat, fault) =>
        m := Tend(c, s.db, beat, fault);
        TendKept(c, s.db, beat, fault);
        TendIsSteady(c, s.db, beat, fault);
    }
  }

  lemma CommitKeepsOwners(s: State, id: CallId, m: Moved)
    requires Inv(s) && Owners(s) && id in s.calls && Kept(s.calls[id], s.db, m) && Steady(s.calls[id], m)
    ensures Owners(Commit(s, id, m))
  {
    var s' := Commit(s, id, m);
    assert s'.calls == s.calls[id := m.call];
    forall i | i in s'.calls
      ensures Started(s'.calls[i]) && (s'.calls[i].transitionStarted ==> WonBy(s', s'.calls[i].ids.key.task, i))
    {
      if i == id {
        if m.call.transitionStarted {
          OwnWinner(s, id, m);
        }
      } else if s.calls[i].transitionStarted {
        WinnerStays(s, id, m, s.calls[i].ids.key.task, i);
      }
    }
  }

  lemma OwnWinner(s: State, id: CallId, m: Moved)
    requires Owners(s) && id in s.calls && Kept(s.calls[id], s.db, m) && Steady(s.calls[id], m)
    requires m.call.transitionStarted
    ensures WonBy(Commit(s, id, m), m.call.ids.key.task, id)
  {
  }

  /** A task is won only while it is prepared, so only once. */
  lemma WinnerStays(s: State, id: CallId, m: Moved, t: Id, winner: CallId)
    requires TaskOk(s, t) && id in s.calls && Bounded(s.calls[id], s.db, m) && WonBy(s, t, winner)
    ensures WonBy(Commit(s, id, m), t, winner)
  {
  }

  lemma StepKeepsOwners(s: State, step: Step)
    requires Inv(s) && Owners(s)
    ensures Owners(Apply(s, step))
  {
    match step {
      case ClockTick(_) =>
      case PrepareTask(_, _) =>
      case Start(_, _) =>
      case _ =>
        if step.id in s.calls {
          var m := OwnStepIsSteady(s, step.id, step);
          CommitKeepsOwners(s, step.id, m);
        }
    }
  }

  lemma {:induction false} OwnersReachable(steps: seq<Step>)
    ensures Owners(Exec(steps))
  {
    if steps != [] {
      OwnersReachable(steps[..|steps| - 1]);
      Reachable(steps[..|steps| - 1]);
      StepKeepsOwners(Exec(steps[..|steps| - 1]), steps[|steps| - 1]);
    }
  }

  // ---- the statements that clean up ------------------------------------------------------------

  /** In the catch block, and the release of the lock. */
  predicate CleansUp(pc: Pc) { InCatch(pc) || pc.Release? }

  /** If the step is one of these for call `id`, it meets no database error. */
  predicate UndisturbedCleanup(s: State, step: Step, id: CallId) {
    step.Advance? && step.id == id && id in s.calls && CleansUp(s.calls[id].pc) ==> step.input.fault.NoFault?
  }

  ghost predicate CleanedUp(steps: seq<Step>, id: CallId) {
    forall i: nat | i < |steps| :: UndisturbedCleanup(At(steps, i), steps[i], id)
  }

  /** What held of every step of a run holds of every step of the run without its last step. */
  lemma CleanedUpBefore(steps: seq<Step>, id: CallId)
    requires steps != [] && CleanedUp(steps, id)
    ensures CleanedUp(steps[..|steps| - 1], id)
    ensures UndisturbedCleanup(Exec(steps[..|steps| - 1]), steps[|steps| - 1], id)
  {
    var before := steps[..|steps| - 1];
    forall i: nat | i < |before| ensures UndisturbedCleanup(At(before, i), before[i], id) {
      assert before[..i] == steps[..i];
      assert UndisturbedCleanup(At(steps, i), steps[i], id);
    }
    assert UndisturbedCleanup(At(steps, |before|), steps[|before|], id);
  }

  // ---- the winner that does not know it won ----------------------------------------------------

  /** A task won by a call that does not know it won stays running. */
  ghost predicate StuckIfUnaware(s: State, id: CallId)
    requires id in s.calls
  {
    var c := s.calls[id];
    WonBy(s, c.ids.key.task, id) && !c.transitionStarted ==> IsRunning(s, c.ids.key.task)
  }

  predicate IsRunning(s: State, t: Id) { t in s.db.tasks && s.db.tasks[t].state.Running? }

  ghost predicate Unaware(s: State) {
    (forall t | t in s.winner :: s.winner[t] in s.calls) && forall id | id in s.calls :: StuckIfUnaware(s, id)
  }

  /** Other calls leave a running task alone unless they started its run, and that is the winner. */
  lemma RunningStays(s: State, mover: CallId, m: Moved, id: CallId)
    requires Owners(s) && mover in s.calls && id in s.calls && Bounded(s.calls[mover], s.db, m)
    requires Steady(s.calls[mover], m)
    requires WonBy(s, s.calls[id].ids.key.task, id) && !s.calls[id].transitionStarted
    requires IsRunning(s, s.calls[id].ids.key.task)
    ensures IsRunning(Commit(s, mover, m), s.calls[id].ids.key.task)
  {
    assert Commit(s, mover, m).db == After(s.db, m.effect);
    assert m.effect.SetTasks? ==> WonBy(s, s.calls[mover].ids.key.task, mover);
  }

  lemma CommitKeepsUnaware(s: State, mover: CallId, m: Moved)
    requires Inv(s) && Owners(s) && Unaware(s) && mover in s.calls && Kept(s.calls[mover], s.db, m)
    requires Steady(s.calls[mover], m)
    ensures Unaware(Commit(s, mover, m))
  {
    var s' := Commit(s, mover, m);
    assert s'.calls == s.calls[mover := m.call];
    forall id | id in s'.calls ensures StuckIfUnaware(s', id) {
      MoveKeepsStuck(s, mover, m, id);
    }
  }

  lemma MoveKeepsStuck(s: State, mover: CallId, m: Moved, id: CallId)
    requires Owners(s) && Unaware(s) && mover in s.calls && id in s.calls
    requires Kept(s.calls[mover], s.db, m) && Steady(s.calls[mover], m)
    ensures Commit(s, mover, m).calls == s.calls[mover := m.call] && StuckIfUnaware(Commit(s, mover, m), id)
  {
    var (s', t) := (Commit(s, mover, m), s.calls[id].ids.key.task);
    assert StuckIfUnaware(s, id) && m.call.ids == s.calls[mover].ids;
    if WonBy(s', t, id) && !s'.calls[id].transitionStarted {
      if WonBy(s, t, id) {
        RunningStays(s, mover, m, id);
      } else {
        NewWinnerRuns(s, mover, m, t);
      }
    }
  }

  lemma NewWinnerRuns(s: State, mover: CallId, m: Moved, t: Id)
    requires mover in s.calls && Bounded(s.calls[mover], s.db, m) && Commit(s, mover, m).winner != s.winner
    requires t in Commit(s, mover, m).winner && (t in s.winner ==> s.winner[t] != Commit(s, mover, m).winner[t])
    ensures IsRunning(Commit(s, mover, m), t)
  {
  }

  lemma StepKeepsUnaware(s: State, step: Step)
    requires Inv(s) && Owners(s) && Unaware(s)
    ensures Unaware(Apply(s, step))
  {
    if step.ClockTick? || step.PrepareTask? || step.Start? {
      OutsideKeepsUnaware(s, step);
    } else if step.id in s.calls {
      var m := OwnStepIsSteady(s, step.id, step);
      CommitKeepsUnaware(s, step.id, m);
    }
  }

  lemma OutsideKeepsUnaware(s: State, step: Step)
    requires Inv(s) && Unaware(s) && (step.ClockTick? || step.PrepareTask? || step.Start?)
    ensures Unaware(Apply(s, step))
  {
    var s' := Apply(s, step);
    OutsideSteps(s, step);
    forall id | id in s'.calls ensures StuckIfUnaware(s', id) {
      if id in s.calls {
        assert StuckIfUnaware(s, id);
      } else {
        assert !WonBy(s, s'.calls[id].ids.key.task, id);
      }
    }
  }

  lemma {:induction false} UnawareReachable(steps: seq<Step>)
    ensures Unaware(Exec(steps))
  {
    if steps != [] {
      var before := steps[..|steps| - 1];
      UnawareReachable(before);
      OwnersReachable(before);
      Reachable(before);
      StepKeepsUnaware(Exec(before), steps[|steps| - 1]);
    }
  }

  // ---- the winning step ------------------------------------------------------------------------

  /** Step i is the one with which call `id` wins its task. */
  predicate WinsBy(steps: seq<Step>, i: nat, id: CallId)
    requires i < |steps|
  {
    var s := At(steps, i);
    steps[i].Advance? && steps[i].id == id && id in s.calls && s.calls[id].pc.MarkRunning?
    && WinsTask(steps, i, s.calls[id].ids.key.task)
  }

  /** The call knows that it won exactly if that step met no exception. */
  ghost predicate KnowsByAnswer(steps: seq<Step>, i: nat, s: State, id: CallId)
    requires i < |steps|
  {
    && WinsBy(steps, i, id) && id in s.calls
    && (s.calls[id].transitionStarted <==> steps[i].input.fault.NoFault?)
  }

  /** A call that won its task did so by its own prepared-to-running update, at one step of the run. */
  lemma {:induction false} WinningStep(steps: seq<Step>, j: nat, id: CallId) returns (i: nat)
    requires j <= |steps| && HasWon(At(steps, j), id)
    ensures i < j && KnowsByAnswer(steps, i, At(steps, j), id)
  {
    if j == 0 {
      NobodyWonYet(steps);
    } else if HasWon(At(steps, j - 1), id) {
      i := WinningStep(steps, j - 1, id);
      KnowledgeNext(steps, i, j - 1, id);
    } else {
      i := j - 1;
      FreshWinAt(steps, i, id);
    }
  }

  ghost predicate HasWon(s: State, id: CallId) { id in s.calls && WonBy(s, s.calls[id].ids.key.task, id) }

  lemma KnowledgeNext(steps: seq<Step>, i: nat, j: nat, id: CallId)
    requires i < j < |steps| && HasWon(At(steps, j), id) && KnowsByAnswer(steps, i, At(steps, j), id)
    ensures KnowsByAnswer(steps, i, At(steps, j + 1), id)
  {
    StaysWon(steps, j, id);
  }

  lemma StaysWon(steps: seq<Step>, j: nat, id: CallId)
    requires j < |steps| && HasWon(At(steps, j), id)
    ensures SameKnowledge(At(steps, j), At(steps, j + 1), id)
  {
    AtNext(steps, j);
    OwnersReachable(steps[..j]);
    KnowledgeStays(At(steps, j), steps[j], id);
  }

  lemma FreshWinAt(steps: seq<Step>, i: nat, id: CallId)
    requires i < |steps| && HasWon(At(steps, i + 1), id) && !HasWon(At(steps, i), id)
    ensures KnowsByAnswer(steps, i, At(steps, i + 1), id)
  {
    AtNext(steps, i);
    OwnersReachable(steps[..i]);
    UnawareReachable(steps[..i]);
    FreshWin(At(steps, i), steps[i], id);
  }

  lemma NobodyWonYet(steps: seq<Step>)
    ensures At(steps, 0).calls == map[]
  {
    assert steps[..0] == [];
  }

  /** The winner stays the winner, and keeps its ids and what it knows. */
  lemma KnowledgeStays(s: State, step: Step, id: CallId)
    requires Inv(s) && Owners(s) && id in s.calls && WonBy(s, s.calls[id].ids.key.task, id)
    ensures SameKnowledge(s, Apply(s, step), id)
  {
    if step.ClockTick? || step.PrepareTask? || step.Start? {
      OutsideSteps(s, step);
    } else if step.id in s.calls {
      var m := OwnStepIsSteady(s, step.id, step);
      MoveKeepsKnowledge(s, step.id, m, id);
    }
  }

  ghost predicate SameKnowledge(s: State, s': State, id: CallId)
    requires id in s.calls
  {
    && id in s'.calls && s'.calls[id].ids == s.calls[id].ids && WonBy(s', s.calls[id].ids.key.task, id)
    && s'.calls[id].transitionStarted == s.calls[id].transitionStarted
  }

  lemma MoveKeepsKnowledge(s: State, mover: CallId, m: Moved, id: CallId)
    requires Inv(s) && id in s.calls && WonBy(s, s.calls[id].ids.key.task, id)
    requires mover in s.calls && Kept(s.calls[mover], s.db, m) && Steady(s.calls[mover], m)
    ensures SameKnowledge(s, Commit(s, mover, m), id)
  {
    assert Commit(s, mover, m).calls == s.calls[mover := m.call];
    assert TaskOk(s, s.calls[id].ids.key.task);
    WinnerStays(s, mover, m, s.calls[id].ids.key.task, id);
  }

  /** The call won its task and does not know it. */
  ghost predicate Stuck(s: State, id: CallId) { HasWon(s, id) && !s.calls[id].transitionStarted }

  /** It never learns it, and the task stays running for good. */
  lemma StuckForever(steps: seq<Step>, i: nat, j: nat, id: CallId)
    requires i <= j <= |steps| && Stuck(At(steps, i), id)
    ensures Stuck(At(steps, j), id) && At(steps, j).calls[id].ids == At(steps, i).calls[id].ids
    ensures IsRunning(At(steps, j), At(steps, i).calls[id].ids.key.task)
  {
    KnowledgeLasts(steps, At(steps, i), i, j, id);
    UnawareReachable(steps[..j]);
    assert StuckIfUnaware(At(steps, j), id);
  }

  lemma {:induction false} KnowledgeLasts(steps: seq<Step>, s: State, i: nat, j: nat, id: CallId)
    requires i <= j <= |steps| && HasWon(s, id) && SameKnowledge(s, At(steps, i), id)
    ensures SameKnowledge(s, At(steps, j), id)
    decreases j - i
  {
    if i < j {
      KnowledgeLasts(steps, s, i, j - 1, id);
      StaysWon(steps, j - 1, id);
    }
  }

  lemma FreshWin(s: State, step: Step, id: CallId)
    requires Inv(s) && Owners(s) && Unaware(s)
    requires var s' := Apply(s, step); id in s'.calls && WonBy(s', s'.calls[id].ids.key.task, id)
    requires !(id in s.calls && WonBy(s, s.calls[id].ids.key.task, id))
    ensures step.Advance? && step.id == id && id in s.calls && s.calls[id].pc.MarkRunning?
    ensures var (s', t) := (Apply(s, step), s.calls[id].ids.key.task);
            && t in s.db.tasks && s.db.tasks[t].state.Prepared? && IsRunning(s', t)
            && (s'.calls[id].transitionStarted <==> step.input.fault.NoFault?)
  {
    var s' := Apply(s, step);
    if step.ClockTick? || step.PrepareTask? || step.Start? {
      OutsideSteps(s, step);
    } else {
      var m := OwnStepIsSteady(s, step.id, step);
      FreshWinIsOwn(s, step.id, m, id);
      FreshWinIsAdvance(s.calls[id], s.db, step, m);
    }
  }

  lemma FreshWinIsOwn(s: State, mover: CallId, m: Moved, id: CallId)
    requires Owners(s) && Unaware(s) && mover in s.calls && Kept(s.calls[mover], s.db, m)
    requires var s' := Commit(s, mover, m); id in s'.calls && WonBy(s', s'.calls[id].ids.key.task, id)
    requires !(id in s.calls && WonBy(s, s.calls[id].ids.key.task, id))
    ensures mover == id && m.effect.Win? && !s.calls[id].transitionStarted
    ensures var (s', t) := (Commit(s, mover, m), s.calls[id].ids.key.task);
            t in s.db.tasks && s.db.tasks[t].state.Prepared? && IsRunning(s', t) && s'.calls[id] == m.call
  {
    assert Commit(s, mover, m).calls == s.calls[mover := m.call];
  }

  lemma FreshWinIsAdvance(c: Call, db: Db, step: Step, m: Moved)
    requires m.effect.Win? && Steady(c, m) && (step.Advance? || step.Renew? || step.UserAbort?) && !c.transitionStarted
    requires step.Advance? ==> m == Main(c, db, step.input)
    requires step.Renew? ==> m == Tend(c, db, step.beat, step.fault)
    requires step.UserAbort? ==> m == Moved(c.(aborted := true), Nothing)
    ensures step.Advance? && c.pc.MarkRunning?
    ensures m.call.transitionStarted <==> step.input.fault.NoFault?
  {
  }
}
