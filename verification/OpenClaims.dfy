/** Which calls leave their claim open when they end, and for how long. */
module OpenClaims {
  import opened Prelude
  import opened Persistence
  import CodexRunner
  import opened Outcome
  import opened RunProtocol
  import opened RunInvariant
  import opened RunTheorems
  import opened TaskOwners

  // ---- the two ways to leave a claim behind ----------------------------------------------------

  predicate Owns(c: Call, db: Db) { OwnsClaim(db.claims, c.ids.key, c.ids.claimId) }

  /** The early return for a task that is not prepared. */
  predicate LeavesUnprepared(c: Call, db: Db, x: Input) {
    var state := LifecycleState(db.tasks, c.ids.key.project, c.ids.key.task);
    c.pc.ReadState? && x.fault.NoFault? && state.Some? && !state.value.Prepared?
  }

  /** The statement that claims takes effect, and is answered with an exception. */
  predicate LosesClaim(c: Call, db: Db, x: Input) {
    && x.fault.ThrowsAfter?
    && (|| (c.pc.ClaimInsert? && c.ids.key !in db.claims)
        || (c.pc.ClaimReclaim? && ReclaimClaim(db.claims, c.ids.key, c.ids.claimId, c.claimNow, LOCK_TTL).1))
  }

  predicate Abandons(c: Call, db: Db, x: Input) { LeavesUnprepared(c, db, x) || LosesClaim(c, db, x) }

  // ---- where the claim of a call stands --------------------------------------------------------

  /** Between the claim and the catch block or the end. */
  predicate Working(pc: Pc) { !Claiming(pc) && !InCatch(pc) && !Leaving(pc) }

  /** After the catch block's first statement, and on the way out: no statement closes a claim any more. */
  predicate PastClosing(pc: Pc) { pc.CatchRead? || pc.CatchFix? || Leaving(pc) }

  /** The key's row is there, and open if it is still the call's own. */
  predicate KeyRow(c: Call, db: Db) {
    c.ids.key in db.claims && (db.claims[c.ids.key].claimId == c.ids.claimId ==> Owns(c, db))
  }

  /** While it works, a call that has claimed has a claim to close; past closing it owns none. */
  predicate Accounted(c: Call, db: Db) {
    && (c.transitionStarted ==> InRun(c.pc) || InCatch(c.pc) || Leaving(c.pc))
    && (Claiming(c.pc) ==> !c.hasClaim && !c.claimClosed)
    && (Working(c.pc) ==> c.hasClaim && !c.claimClosed && KeyRow(c, db))
    && (PastClosing(c.pc) ==> !Owns(c, db))
  }

  /** The call is on its way out, with an open claim unless somebody took it over. */
  predicate Abandoned(c: Call, db: Db) { PastClosing(c.pc) && !c.transitionStarted && KeyRow(c, db) }

  ghost predicate Accounts(c: Call, db: Db, x: Input, m: Moved) {
    if Abandons(c, db, x) then Abandoned(m.call, After(db, m.effect)) else Accounted(m.call, After(db, m.effect))
  }

  // ---- the steps of the call itself ------------------------------------------------------------

  /** A step that leaves the claims alone and stays at work, or enters the catch block. */
  lemma WorkAccounts(c: Call, db: Db, m: Moved)
    requires Accounted(c, db) && Working(c.pc) && After(db, m.effect).claims == db.claims
    requires m.call.ids == c.ids && m.call.hasClaim == c.hasClaim && m.call.claimClosed == c.claimClosed
    requires Working(m.call.pc) || m.call.pc.CatchFail?
    requires m.call.transitionStarted ==> InRun(m.call.pc) || InCatch(m.call.pc)
    ensures Accounted(m.call, After(db, m.effect))
  {
  }

  /** A step past closing. */
  lemma PastAccounts(c: Call, db: Db, m: Moved)
    requires PastClosing(c.pc) && PastClosing(m.call.pc) && m.call.ids == c.ids
    requires After(db, m.effect).claims == db.claims && m.call.transitionStarted == c.transitionStarted
    ensures Accounted(c, db) ==> Accounted(m.call, After(db, m.effect))
    ensures Abandoned(c, db) ==> Abandoned(m.call, After(db, m.effect))
  {
  }

  lemma AcquireAccounts(c: Call, db: Db, x: Input)
    requires LocalOk(c, db) && Accounted(c, db) && c.pc.Acquire?
    ensures Accounts(c, db, x, StepAcquire(c, db, x.fault))
  {
  }

  lemma ClaimInsertAccounts(c: Call, db: Db, x: Input)
    requires LocalOk(c, db) && Accounted(c, db) && c.pc.ClaimInsert?
    ensures Accounts(c, db, x, StepClaimInsert(c, db, x.fault))
  {
  }

  lemma ClaimSelectAccounts(c: Call, db: Db, x: Input)
    requires LocalOk(c, db) && Accounted(c, db) && c.pc.ClaimSelect?
    ensures Accounts(c, db, x, StepClaimSelect(c, db, x.fault))
  {
  }

  lemma ClaimReclaimAccounts(c: Call, db: Db, x: Input)
    requires LocalOk(c, db) && Accounted(c, db) && c.pc.ClaimReclaim?
    ensures Accounts(c, db, x, StepClaimReclaim(c, db, x.fault))
  {
  }

  lemma ReadStateAccounts(c: Call, db: Db, x: Input)
    requires Accounted(c, db) && c.pc.ReadState?
    ensures Accounts(c, db, x, StepReadState(c, db, x.fault))
  {
    var m := StepReadState(c, db, x.fault);
    if !x.fault.NoFault? {
      assert m == Throw(c);
    } else {
      assert m == Goto(c, m.call.pc);
    }
    if !Abandons(c, db, x) {
      WorkAccounts(c, db, m);
    }
  }

  lemma FailInvalidAccounts(c: Call, db: Db, f: Fault)
    requires Accounted(c, db) && c.pc.FailInvalid?
    ensures var m := StepFailInvalid(c, db, f); Accounted(m.call, After(db, m.effect))
  {
  }

  lemma CloseOwnClaimAccounts(c: Call, db: Db, f: Fault)
    requires Accounted(c, db) && c.pc.CloseOwnClaim?
    ensures var m := StepCloseClaim(c, db, f); Accounted(m.call, After(db, m.effect))
  {
  }

  lemma CatchFailAccounts(c: Call, db: Db)
    requires Accounted(c, db) && c.pc.CatchFail?
    ensures var m := StepCatchFail(c, db, NoFault); Accounted(m.call, After(db, m.effect))
  {
  }

  lemma CasAccounts(c: Call, db: Db, from: Option<TaskState>, to: TaskState, next: Pc, f: Fault)
    requires Accounted(c, db)
    requires (c.pc.Bootstrap? && next == MarkRunning) || (c.pc.MarkReconciling? && next == Reconcile)
          || (c.pc.CloseTask? && next == CloseOwnClaim)
    ensures var m := StepCas(c, db, from, to, next, f); Accounted(m.call, After(db, m.effect))
  {
    var m := StepCas(c, db, from, to, next, f);
    assert m.call == Thrown(c) || m.call == c.(pc := next);
    WorkAccounts(c, db, m);
  }

  lemma MarkRunningAccounts(c: Call, db: Db, f: Fault)
    requires Accounted(c, db) && c.pc.MarkRunning?
    ensures var m := StepMarkRunning(c, db, f); Accounted(m.call, After(db, m.effect))
  {
    var m := StepMarkRunning(c, db, f);
    assert m.call == Thrown(c) || m.call == c.(pc := SnapshotBefore, transitionStarted := true);
    WorkAccounts(c, db, m);
  }

  lemma HealthcheckAccounts(c: Call, db: Db, f: Fault, settled: Option<CodexRunner.ExecutionResult>)
    requires Accounted(c, db) && c.pc.Healthcheck?
    ensures Accounted(StepHealthcheck(c, f, settled).call, db)
  {
    var m := StepHealthcheck(c, f, settled);
    assert m.call == Thrown(c) || m.call == c.(pc := m.call.pc, exec := m.call.exec);
    WorkAccounts(c, db, m);
  }

  lemma CodexRunningAccounts(c: Call, db: Db, f: Fault, settled: Option<CodexRunner.ExecutionResult>)
    requires Accounted(c, db) && c.pc.CodexRunning?
    ensures Accounted(StepCodexRunning(c, f, settled).call, db)
  {
    var m := StepCodexRunning(c, f, settled);
    assert m.call == Thrown(c) || m.call == c.(pc := m.call.pc, exec := m.call.exec);
    WorkAccounts(c, db, m);
  }

  lemma ReconcileAccounts(c: Call, db: Db, x: Input)
    requires Accounted(c, db) && c.pc.Reconcile?
    ensures var m := StepReconcile(c, x); Accounted(m.call, After(db, m.effect))
  {
    var m := StepReconcile(c, x);
    assert m.call == Thrown(c) || m.call == c.(pc := Persist, final := m.call.final, resultOk := m.call.resultOk);
    WorkAccounts(c, db, m);
  }

  /** The points that run no statement. */
  lemma BeatPointsAccount(c: Call, db: Db, x: Input)
    requires Accounted(c, db) && (c.pc.BeatStart? || c.pc.BeatWait? || c.pc.Validate?)
    ensures var m := Main(c, db, x); Accounted(m.call, After(db, m.effect))
  {
    var m := Main(c, db, x);
    assert m.call == c.(pc := m.call.pc, beat := m.call.beat);
    WorkAccounts(c, db, m);
  }

  lemma RunPointsAccount(c: Call, db: Db, x: Input)
    requires Accounted(c, db) && (c.pc.SnapshotBefore? || c.pc.CheckAbort? || c.pc.Launch? || c.pc.Persist?)
    ensures var m := Main(c, db, x); Accounted(m.call, After(db, m.effect))
  {
    var m := Main(c, db, x);
    assert m.call == Thrown(c) || m.call == c.(pc := m.call.pc, exec := m.call.exec);
    WorkAccounts(c, db, m);
  }

  lemma CatchEndAccounts(c: Call, db: Db, x: Input)
    requires c.pc.CatchRead? || c.pc.CatchFix?
    ensures var (m, db') := (Main(c, db, x), After(db, Main(c, db, x).effect));
            (Accounted(c, db) ==> Accounted(m.call, db')) && (Abandoned(c, db) ==> Abandoned(m.call, db'))
  {
    var m := Main(c, db, x);
    assert m.call == c.(pc := m.call.pc);
    PastAccounts(c, db, m);
  }

  lemma LeavingAccounts(c: Call, db: Db, x: Input)
    requires Leaving(c.pc)
    ensures var (m, db') := (Main(c, db, x), After(db, Main(c, db, x).effect));
            (Accounted(c, db) ==> Accounted(m.call, db')) && (Abandoned(c, db) ==> Abandoned(m.call, db'))
  {
    var m := Main(c, db, x);
    if c.pc.Release? {
      assert m == StepRelease(c, db, x.fault) && m.call == c.(pc := Done);
    } else if c.pc.Finally? {
      assert m.effect == Nothing && m.call == c.(pc := m.call.pc, beat := c.beat.(timer := false));
    } else {
      assert m == Moved(c, Nothing);
    }
    PastAccounts(c, db, m);
  }

  lemma ClaimingAccounts(c: Call, db: Db, x: Input)
    requires LocalOk(c, db) && Accounted(c, db) && Claiming(c.pc)
    ensures Accounts(c, db, x, Main(c, db, x))
  {
    match c.pc {
      case Acquire => AcquireAccounts(c, db, x);
      case ClaimInsert => ClaimInsertAccounts(c, db, x);
      case ClaimSelect => ClaimSelectAccounts(c, db, x);
      case _ => ClaimReclaimAccounts(c, db, x);
    }
  }

  lemma MainAccounts(c: Call, db: Db, x: Input)
    requires LocalOk(c, db) && Accounted(c, db) && (CleansUp(c.pc) ==> x.fault.NoFault?)
    ensures Accounts(c, db, x, Main(c, db, x))
  {
    match c.pc {
      case ReadState => ReadStateAccounts(c, db, x);
      case FailInvalid => FailInvalidAccounts(c, db, x.fault);
      case CloseOwnClaim => CloseOwnClaimAccounts(c, db, x.fault);
      case CatchFail => CatchFailAccounts(c, db);
      case Bootstrap => CasAccounts(c, db, None, Prepared, MarkRunning, x.fault);
      case MarkRunning => MarkRunningAccounts(c, db, x.fault);
      case MarkReconciling => CasAccounts(c, db, Some(Running), Reconciling, Reconcile, x.fault);
      case CloseTask => CasAccounts(c, db, Some(Reconciling), c.final, CloseOwnClaim, x.fault);
      case Healthcheck => HealthcheckAccounts(c, db, x.fault, CodexRunner.Settled(x.spawnAborted, x.events));
      case CodexRunning => CodexRunningAccounts(c, db, x.fault, CodexRunner.Settled(x.spawnAborted, x.events));
      case Reconcile => ReconcileAccounts(c, db, x);
      case BeatStart => BeatPointsAccount(c, db, x);
      case BeatWait => BeatPointsAccount(c, db, x);
      case Validate => BeatPointsAccount(c, db, x);
      case SnapshotBefore => RunPointsAccount(c, db, x);
      case CheckAbort => RunPointsAccount(c, db, x);
      case Launch => RunPointsAccount(c, db, x);
      case Persist => RunPointsAccount(c, db, x);
      case CatchRead => CatchEndAccounts(c, db, x);
      case CatchFix(_) => CatchEndAccounts(c, db, x);
      case Finally => LeavingAccounts(c, db, x);
      case Release => LeavingAccounts(c, db, x);
      case Done => LeavingAccounts(c, db, x);
      case _ => ClaimingAccounts(c, db, x);
    }
  }

  /** The statements of a heartbeat extend leases and close no claim. */
  lemma TendAccounts(c: Call, db: Db, beat: BeatStep, f: Fault)
    ensures var (m, db') := (Tend(c, db, beat, f), After(db, Tend(c, db, beat, f).effect));
            (Accounted(c, db) ==> Accounted(m.call, db')) && (Abandoned(c, db) ==> Abandoned(m.call, db'))
  {
    TendTouches(c, db, beat, f);
  }

  /** What a step of the heartbeat touches of the call and of the tables. */
  ghost predicate Touches(c: Call, db: Db, m: Moved) {
    && m.call == c.(aborted := m.call.aborted, beat := m.call.beat, seen := m.call.seen)
    && match m.effect
       case Nothing => true
       case SetLocks(locks) => locks == RenewLock(db.locks, c.ids.key.project, c.ids.lockId, db.now, LOCK_TTL).0
       case SetClaims(claims) => claims == RenewClaim(db.claims, c.ids.key, c.ids.claimId, db.now, LOCK_TTL).0
       case _ => false
  }

  lemma TendLockTouches(c: Call, db: Db, f: Fault)
    ensures Touches(c, db, TendLock(c, db, f))
  {
  }

  lemma TendClaimTouches(c: Call, db: Db, f: Fault)
    ensures Touches(c, db, TendClaim(c, db, f))
  {
  }

  lemma TendTouches(c: Call, db: Db, beat: BeatStep, f: Fault)
    ensures Touches(c, db, Tend(c, db, beat, f))
  {
    if beat.RenewLockRow? {
      TendLockTouches(c, db, f);
    } else if beat.RenewClaimRow? {
      TendClaimTouches(c, db, f);
    }
  }

  lemma OthersLeaveAccounts(c: Call, other: Call, db: Db, m: Moved)
    requires Bounded(other, db, m) && other.ids.claimId != c.ids.claimId
    ensures Accounted(c, db) ==> Accounted(c, After(db, m.effect))
    ensures Abandoned(c, db) ==> Abandoned(c, After(db, m.effect))
  {
  }

  // ---- over whole runs -------------------------------------------------------------------------

  /** The step leaves the claim of call `id` behind. */
  predicate AbandonsBy(s: State, step: Step, id: CallId) {
    step.Advance? && step.id == id && id in s.calls && Abandons(s.calls[id], s.db, step.input)
  }

  /** Some step of the run does. */
  predicate LeftOpen(steps: seq<Step>, id: CallId) {
    if steps == [] then false
    else
      var (before, last) := (steps[..|steps| - 1], steps[|steps| - 1]);
      LeftOpen(before, id) || AbandonsBy(Exec(before), last, id)
  }

  ghost predicate ClaimStands(s: State, id: CallId, left: bool) {
    if left then id in s.calls && Abandoned(s.calls[id], s.db) else id in s.calls ==> Accounted(s.calls[id], s.db)
  }

  lemma MoveKeepsClaimStanding(s: State, mover: CallId, m: Moved, id: CallId, left: bool)
    requires IdsOk(s) && ClaimStands(s, id, left) && mover in s.calls && mover != id && Bounded(s.calls[mover], s.db, m)
    ensures ClaimStands(Commit(s, mover, m), id, left)
  {
    if id in s.calls {
      OthersLeaveAccounts(s.calls[id], s.calls[mover], s.db, m);
      assert Commit(s, mover, m).db == After(s.db, m.effect);
    }
  }

  lemma OutsideKeepsClaimStanding(s: State, step: Step, id: CallId, left: bool)
    requires ClaimStands(s, id, left) && (step.ClockTick? || step.PrepareTask? || step.Start?)
    ensures ClaimStands(Apply(s, step), id, left)
  {
    var s' := Apply(s, step);
    OutsideSteps(s, step);
    if id in s.calls {
      assert s'.calls[id] == s.calls[id] && s'.db.claims == s.db.claims;
    }
  }

  lemma OwnStepKeepsClaimStanding(s: State, step: Step, id: CallId, left: bool)
    requires Inv(s) && ClaimStands(s, id, left) && id in s.calls && StepOf(step, id) && UndisturbedCleanup(s, step, id)
    ensures ClaimStands(Apply(s, step), id, left || AbandonsBy(s, step, id))
  {
    var c := s.calls[id];
    assert CallOk(s, id);
    match step {
      case UserAbort(_) =>
      case Advance(_, x) =>
        if left {
          AbandonedStays(c, s.db, x);
        } else {
          MainAccounts(c, s.db, x);
        }
        CommitIs(s, id, Main(c, s.db, x));
      case Renew(_, beat, f) =>
        TendAccounts(c, s.db, beat, f);
        CommitIs(s, id, Tend(c, s.db, beat, f));
    }
  }

  lemma CommitIs(s: State, id: CallId, m: Moved)
    ensures Commit(s, id, m).db == After(s.db, m.effect) && Commit(s, id, m).calls == s.calls[id := m.call]
  {
  }

  lemma AbandonedStays(c: Call, db: Db, x: Input)
    requires Abandoned(c, db)
    ensures var m := Main(c, db, x); Abandoned(m.call, After(db, m.effect))
  {
    if Leaving(c.pc) {
      LeavingAccounts(c, db, x);
    } else {
      CatchEndAccounts(c, db, x);
    }
  }

  lemma StepKeepsClaimStanding(s: State, step: Step, id: CallId, left: bool)
    requires Inv(s) && ClaimStands(s, id, left) && UndisturbedCleanup(s, step, id)
    ensures ClaimStands(Apply(s, step), id, left || AbandonsBy(s, step, id))
  {
    if step.ClockTick? || step.PrepareTask? || step.Start? {
      OutsideKeepsClaimStanding(s, step, id, left);
    } else if step.id in s.calls {
      if step.id == id {
        OwnStepKeepsClaimStanding(s, step, id, left);
      } else {
        var m := OwnStepKept(s, step.id, step);
        MoveKeepsClaimStanding(s, step.id, m, id, left);
      }
    }
  }

  lemma {:induction false} ClaimsStand(steps: seq<Step>, id: CallId)
    requires CleanedUp(steps, id)
    ensures ClaimStands(Exec(steps), id, LeftOpen(steps, id))
  {
    if steps != [] {
      var before := steps[..|steps| - 1];
      CleanedUpBefore(steps, id);
      ClaimsStand(before, id);
      Reachable(before);
      StepKeepsClaimStanding(Exec(before), steps[|steps| - 1], id, LeftOpen(before, id));
    }
  }

  /** Whatever happened to a call, if the statements of its catch block meet no database error then once it has
      ended it still owns an open claim exactly if it left the claim behind, by the early return for a task that
      is not prepared or by an exception from the statement that claimed, and nobody has taken it over since. */
  lemma EndedCallsOwnWhatTheyLeft(steps: seq<Step>, id: CallId)
    requires CleanedUp(steps, id) && id in Exec(steps).calls && Exec(steps).calls[id].pc.Done?
    ensures var (s, c) := (Exec(steps), Exec(steps).calls[id]);
            && (Owns(c, s.db) <==> LeftOpen(steps, id) && !ClaimedByOther(s, c.ids))
            && (c.transitionStarted ==> !LeftOpen(steps, id))
  {
    ClaimsStand(steps, id);
  }
}
