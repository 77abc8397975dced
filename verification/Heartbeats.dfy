/** While a call's renewals come less than one lease apart, nobody takes its lock or its claim, and
    its heartbeat reports a lost lease only when the call is on its way out and nobody reads the report. */
module Heartbeats {
  import opened Prelude
  import opened Persistence
  import CodexRunner
  import opened RunProtocol
  import opened RunInvariant
  import opened RunTheorems
  import opened TaskOwners

  /** From the moment the lock is granted until the heartbeat has stopped. */
  predicate Active(c: Call) { c.seen.acquired && !c.pc.Release? && !c.pc.Done? }

  /** Less than one lease has passed since each lease was taken or its renewal last attempted. The
      claim matters while it is open; a call closes its claim before its heartbeat stops. */
  predicate Punctual(c: Call, db: Db) {
    Active(c) ==>
      && db.now < c.seen.lockBeatAt + LOCK_TTL
      && (c.hasClaim && OwnsClaim(db.claims, c.ids.key, c.ids.claimId) ==> db.now < c.seen.claimBeatAt + LOCK_TTL)
  }

  predicate LockCovered(c: Call, db: Db) {
    c.ids.key.project in db.locks && db.locks[c.ids.key.project].lockId == c.ids.lockId
    && db.locks[c.ids.key.project].expiresAt == c.seen.lockBeatAt + LOCK_TTL
  }

  /** In the catch block or past it. */
  predicate Out(pc: Pc) { InCatch(pc) || Leaving(pc) }

  /** The call has its claim. It is closed only when the call is on its way out, and a heartbeat that
      finds it lost has found it closed. */
  predicate ClaimCovered(c: Call, db: Db) {
    c.ids.key in db.claims && db.claims[c.ids.key].claimId == c.ids.claimId
    && (if db.claims[c.ids.key].status.InProgress?
        then
          && db.claims[c.ids.key].leaseExpiresAt == Some(c.seen.claimBeatAt + LOCK_TTL)
          && !c.beat.claimLost && (c.beat.inFlight.Some? ==> c.beat.inFlight.value.claimOk != Some(false))
        else Out(c.pc))
  }

  ghost predicate Covered(c: Call, db: Db) {
    && (Claiming(c.pc) ==> !c.hasClaim && c.beat == QUIET && c.seen.acquired == !c.pc.Acquire?)
    && (c.hasClaim ==> c.seen.acquired)
    && (c.beat.inFlight.Some? || c.beat.timer || c.pc.BeatStart? || c.pc.BeatWait? ==> c.hasClaim)
    && (c.pc.Release? || c.pc.Done? ==> c.beat.inFlight.None? && !c.beat.timer)
    && !c.beat.lateLock && !c.beat.lateClaim && !c.beat.lockLost
    && (c.beat.inFlight.Some? ==> c.beat.inFlight.value.lockOk != Some(false))
    && (Active(c) ==> LockCovered(c, db) && (c.hasClaim ==> ClaimCovered(c, db)))
  }

  // ---- steps of the call itself --------------------------------------------------------------

  predicate SameLease(c: Call, c': Call) {
    c'.ids == c.ids && c'.seen == c.seen && c'.hasClaim == c.hasClaim && c'.beat == c.beat
  }

  ghost predicate Plain(c: Call, db: Db, m: Moved) {
    && SameLease(c, m.call) && !m.call.pc.BeatStart? && !m.call.pc.BeatWait? && !Claiming(m.call.pc)
    && (m.call.pc.Release? || m.call.pc.Done? <==> c.pc.Release? || c.pc.Done?)
    && (m.effect.SetLocks? ==> c.pc.Release?)
    && (Out(c.pc) || m.effect.SetClaims? ==> Out(m.call.pc))
    && (m.effect.SetClaims? ==> ClosedBy(c, db, m.effect.claims, Failed) || ClosedBy(c, db, m.effect.claims, Completed))
  }

  lemma PlainIsCovered(c: Call, db: Db, m: Moved)
    requires Covered(c, db) && Plain(c, db, m)
    ensures Covered(m.call, After(db, m.effect))
  {
  }

  lemma FailInvalidIsPlain(c: Call, db: Db, x: Input)
    requires c.pc.FailInvalid?
    ensures Plain(c, db, StepFailInvalid(c, db, x.fault))
  {
    var m := StepFailInvalid(c, db, x.fault);
    assert m.call == Thrown(c) || m.call == c.(pc := Finally, claimClosed := true);
  }

  lemma CloseOwnClaimIsPlain(c: Call, db: Db, x: Input)
    requires c.pc.CloseOwnClaim?
    ensures Plain(c, db, StepCloseClaim(c, db, x.fault))
  {
  }

  lemma CatchFailIsPlain(c: Call, db: Db, x: Input)
    requires c.pc.CatchFail?
    ensures Plain(c, db, StepCatchFail(c, db, x.fault))
  {
  }

  lemma ReleaseIsPlain(c: Call, db: Db, x: Input)
    requires c.pc.Release?
    ensures Plain(c, db, StepRelease(c, db, x.fault))
  {
  }

  lemma ReadStateIsPlain(c: Call, db: Db, x: Input)
    requires c.pc.ReadState?
    ensures Plain(c, db, StepReadState(c, db, x.fault))
  {
    var m := StepReadState(c, db, x.fault);
    assert m == if x.fault.NoFault? then Goto(c, m.call.pc) else Throw(c);
  }

  lemma MarkRunningIsPlain(c: Call, db: Db, x: Input)
    requires c.pc.MarkRunning?
    ensures Plain(c, db, StepMarkRunning(c, db, x.fault))
  {
    var m := StepMarkRunning(c, db, x.fault);
    assert m.call == Thrown(c) || m.call == c.(pc := SnapshotBefore, transitionStarted := true);
  }

  lemma CatchReadIsPlain(c: Call, db: Db, x: Input)
    requires c.pc.CatchRead?
    ensures Plain(c, db, StepCatchRead(c, db, x.fault))
  {
  }

  lemma HealthcheckIsPlain(c: Call, db: Db, f: Fault, settled: Option<CodexRunner.ExecutionResult>)
    requires c.pc.Healthcheck?
    ensures Plain(c, db, StepHealthcheck(c, f, settled))
  {
    var m := StepHealthcheck(c, f, settled);
    assert m.call == Thrown(c) || m.call == c.(pc := m.call.pc, exec := m.call.exec);
  }

  lemma CodexRunningIsPlain(c: Call, db: Db, f: Fault, settled: Option<CodexRunner.ExecutionResult>)
    requires c.pc.CodexRunning?
    ensures Plain(c, db, StepCodexRunning(c, f, settled))
  {
    var m := StepCodexRunning(c, f, settled);
    assert m.call == Thrown(c) || m.call == c.(pc := m.call.pc, exec := m.call.exec);
  }

  lemma ReconcileIsPlain(c: Call, db: Db, x: Input)
    requires c.pc.Reconcile?
    ensures Plain(c, db, StepReconcile(c, x))
  {
  }

  lemma CatchFixIsPlain(c: Call, db: Db, x: Input)
    requires c.pc.CatchFix?
    ensures Plain(c, db, StepCatchFix(c, db, c.pc.seen, x.fault))
  {
  }

  lemma AcquireIsCovered(c: Call, db: Db, f: Fault)
    requires Covered(c, db) && c.pc.Acquire?
    ensures var m := StepAcquire(c, db, f); Covered(m.call, After(db, m.effect))
  {
  }

  lemma ClaimInsertIsCovered(c: Call, db: Db, f: Fault)
    requires Covered(c, db) && c.pc.ClaimInsert?
    ensures var m := StepClaimInsert(c, db, f); Covered(m.call, After(db, m.effect))
  {
  }

  lemma ClaimSelectIsCovered(c: Call, db: Db, f: Fault)
    requires Covered(c, db) && c.pc.ClaimSelect?
    ensures var m := StepClaimSelect(c, db, f); Covered(m.call, After(db, m.effect))
  {
  }

  lemma ClaimReclaimIsCovered(c: Call, db: Db, f: Fault)
    requires Covered(c, db) && c.pc.ClaimReclaim?
    ensures var m := StepClaimReclaim(c, db, f); Covered(m.call, After(db, m.effect))
  {
  }

  /** The points of the main program that run no statement and leave the leases alone. */
  lemma CheckedPointsArePlain(c: Call, db: Db, x: Input)
    requires c.pc.Validate? || c.pc.SnapshotBefore? || c.pc.Persist?
    ensures Plain(c, db, Main(c, db, x))
  {
    var m := Main(c, db, x);
    assert m == Throw(c) || m == Goto(c, m.call.pc);
  }

  lemma QuietPointsArePlain(c: Call, db: Db, x: Input)
    requires c.pc.CheckAbort? || c.pc.Launch? || c.pc.Done?
    ensures Plain(c, db, Main(c, db, x))
  {
  }

  lemma CasIsPlain(c: Call, db: Db, from: Option<TaskState>, to: TaskState, next: Pc, f: Fault)
    requires c.pc.Bootstrap? || c.pc.MarkReconciling? || c.pc.CloseTask?
    requires next.MarkRunning? || next.Reconcile? || next.CloseOwnClaim?
    ensures Plain(c, db, StepCas(c, db, from, to, next, f))
  {
    var m := StepCas(c, db, from, to, next, f);
    assert m.call == Thrown(c) || m.call == c.(pc := next);
  }

  lemma MainIsPlain(c: Call, db: Db, x: Input)
    requires !Claiming(c.pc) && !c.pc.BeatStart? && !c.pc.BeatWait? && !c.pc.Finally?
    ensures Plain(c, db, Main(c, db, x))
  {
    match c.pc {
      case FailInvalid => FailInvalidIsPlain(c, db, x);
      case CloseOwnClaim => CloseOwnClaimIsPlain(c, db, x);
      case CatchFail => CatchFailIsPlain(c, db, x);
      case Release => ReleaseIsPlain(c, db, x);
      case ReadState => ReadStateIsPlain(c, db, x);
      case MarkRunning => MarkRunningIsPlain(c, db, x);
      case CatchRead => CatchReadIsPlain(c, db, x);
      case Healthcheck => HealthcheckIsPlain(c, db, x.fault, CodexRunner.Settled(x.spawnAborted, x.events));
      case CodexRunning => CodexRunningIsPlain(c, db, x.fault, CodexRunner.Settled(x.spawnAborted, x.events));
      case Reconcile => ReconcileIsPlain(c, db, x);
      case CatchFix(state) => CatchFixIsPlain(c, db, x);
      case Bootstrap => CasIsPlain(c, db, None, Prepared, MarkRunning, x.fault);
      case MarkReconciling => CasIsPlain(c, db, Some(Running), Reconciling, Reconcile, x.fault);
      case CloseTask => CasIsPlain(c, db, Some(Reconciling), c.final, CloseOwnClaim, x.fault);
      case Validate => CheckedPointsArePlain(c, db, x);
      case SnapshotBefore => CheckedPointsArePlain(c, db, x);
      case Persist => CheckedPointsArePlain(c, db, x);
      case _ => QuietPointsArePlain(c, db, x);
    }
  }

  lemma BeatPointsAreCovered(c: Call, db: Db, x: Input)
    requires Covered(c, db) && (c.pc.BeatStart? || c.pc.BeatWait? || c.pc.Finally?)
    ensures var m := Main(c, db, x); Covered(m.call, After(db, m.effect))
  {
  }

  lemma MainIsCovered(c: Call, db: Db, x: Input)
    requires Covered(c, db)
    ensures var m := Main(c, db, x); Covered(m.call, After(db, m.effect))
  {
    match c.pc {
      case Acquire => AcquireIsCovered(c, db, x.fault);
      case ClaimInsert => ClaimInsertIsCovered(c, db, x.fault);
      case ClaimSelect => ClaimSelectIsCovered(c, db, x.fault);
      case ClaimReclaim => ClaimReclaimIsCovered(c, db, x.fault);
      case BeatStart => BeatPointsAreCovered(c, db, x);
      case BeatWait => BeatPointsAreCovered(c, db, x);
      case Finally => BeatPointsAreCovered(c, db, x);
      case _ =>
        MainIsPlain(c, db, x);
        PlainIsCovered(c, db, Main(c, db, x));
    }
  }

  /** A renewal that arrives in time succeeds. */
  lemma TendIsCovered(c: Call, db: Db, beat: BeatStep)
    requires Covered(c, db) && Punctual(c, db)
    ensures var m := Tend(c, db, beat, NoFault); Covered(m.call, After(db, m.effect))
  {
  }

  // ---- steps of others, and whole runs -----------------------------------------------------------

  /** A punctual call's rows are out of reach for every other call. */
  lemma OthersLeaveCovered(c: Call, other: Call, db: Db, m: Moved)
    requires Covered(c, db) && Punctual(c, db) && LocalOk(other, db) && Bounded(other, db, m)
    requires other.ids.lockId != c.ids.lockId && other.ids.claimId != c.ids.claimId
    ensures Covered(c, After(db, m.effect))
  {
  }

  /** A step after which the call's heartbeat cannot have seen a database error. */
  predicate Undisturbed(step: Step, id: CallId) { step.Renew? && step.id == id ==> step.fault.NoFault? }

  ghost predicate CoveredCall(s: State, id: CallId) { id in s.calls ==> Covered(s.calls[id], s.db) }

  lemma StepKeepsCovered(s: State, step: Step, id: CallId)
    requires Inv(s) && CoveredCall(s, id) && Undisturbed(step, id)
    requires id in s.calls ==> Punctual(s.calls[id], s.db)
    ensures CoveredCall(Apply(s, step), id)
  {
    if step.ClockTick? || step.PrepareTask? || step.Start? {
      OutsideKeepsCovered(s, step, id);
    } else if step.id in s.calls {
      if step.id == id {
        OwnStepKeepsCovered(s, step, id);
      } else {
        assert CallOk(s, step.id);
        var m := OwnStepKept(s, step.id, step);
        MoveKeepsCovered(s, step.id, m, id);
      }
    }
  }

  /** The clock, a new task and a new call. */
  lemma OutsideKeepsCovered(s: State, step: Step, id: CallId)
    requires CoveredCall(s, id) && (step.ClockTick? || step.PrepareTask? || step.Start?)
    ensures CoveredCall(Apply(s, step), id)
  {
    if step.Start? {
      StartKeepsCovered(s, id, step.id, step.ids);
    } else {
      var s' := Apply(s, step);
      assert s'.calls == s.calls && s'.db.locks == s.db.locks && s'.db.claims == s.db.claims;
    }
  }

  lemma StartKeepsCovered(s: State, id: CallId, started: CallId, ids: Ids)
    requires CoveredCall(s, id)
    ensures CoveredCall(Begin(s, started, ids), id)
  {
  }

  lemma MoveKeepsCovered(s: State, mover: CallId, m: Moved, id: CallId)
    requires Inv(s) && CoveredCall(s, id) && mover in s.calls && mover != id && Kept(s.calls[mover], s.db, m)
    requires CallOk(s, mover)
    requires id in s.calls ==> Punctual(s.calls[id], s.db)
    ensures CoveredCall(Commit(s, mover, m), id)
  {
    if id in s.calls {
      OthersLeaveCovered(s.calls[id], s.calls[mover], s.db, m);
      assert Commit(s, mover, m).db == After(s.db, m.effect);
    }
  }

  lemma OwnStepKeepsCovered(s: State, step: Step, id: CallId)
    requires id in s.calls && Covered(s.calls[id], s.db) && Punctual(s.calls[id], s.db) && StepOf(step, id)
    requires Undisturbed(step, id)
    ensures CoveredCall(Apply(s, step), id)
  {
    match step {
      case UserAbort(_) =>
      case Advance(_, x) => MainIsCovered(s.calls[id], s.db, x);
      case Renew(_, beat, _) => TendIsCovered(s.calls[id], s.db, beat);
    }
  }

  predicate PunctualIn(s: State, id: CallId) { id in s.calls ==> Punctual(s.calls[id], s.db) }

  /** Over the whole run call `id` renews in time and its heartbeat meets no database error. */
  ghost predicate PunctualRun(steps: seq<Step>, id: CallId) {
    && (forall i | 0 <= i < |steps| :: Undisturbed(steps[i], id))
    && (forall i: nat | i <= |steps| :: PunctualIn(At(steps, i), id))
  }

  /** However long the run, the call keeps its lock and its claim throughout. */
  lemma {:induction false} PunctualCallsKeepTheirLeases(steps: seq<Step>, id: CallId)
    requires PunctualRun(steps, id)
    ensures CoveredCall(Exec(steps), id)
  {
    if steps != [] {
      var before := steps[..|steps| - 1];
      forall i: nat | i <= |before| ensures At(before, i) == At(steps, i) {
        assert before[..i] == steps[..i];
      }
      assert before[..|before|] == before;
      assert At(steps, |before|) == Exec(before);
      PunctualCallsKeepTheirLeases(before, id);
      Reachable(before);
      StepKeepsCovered(Exec(before), steps[|steps| - 1], id);
    }
  }

  /** In particular no other call takes either lease, and the run is not reported as having lost one
      before it is in its catch block or past it. */
  lemma PunctualCallsAreNotInterrupted(steps: seq<Step>, id: CallId, other: CallId)
    requires PunctualRun(steps, id) && id in Exec(steps).calls && Active(Exec(steps).calls[id])
    ensures var (s, c) := (Exec(steps), Exec(steps).calls[id]);
            && Holds(s, c.ids.key.project, id) && !c.beat.lockLost
            && (Holds(s, c.ids.key.project, other) ==> other == id)
            && (c.hasClaim ==> c.ids.key in s.db.claims && s.db.claims[c.ids.key].claimId == c.ids.claimId)
            && (c.hasClaim && s.db.claims[c.ids.key].status.InProgress? ==>
                  Live(s.db.claims[c.ids.key].leaseExpiresAt, s.db.now) && !c.beat.claimLost)
            && (c.hasClaim && c.beat.claimLost ==> Out(c.pc))
  {
    PunctualCallsKeepTheirLeases(steps, id);
    Reachable(steps);
    assert steps[..|steps|] == steps;
    assert Punctual(At(steps, |steps|).calls[id], At(steps, |steps|).db);
  }

  // ---- what a tick reports ---------------------------------------------------------------------

  /** A punctual call's lock renewal succeeds, and its claim renewal succeeds exactly if the claim is open. */
  lemma RenewalsAnswer(steps: seq<Step>, id: CallId)
    requires PunctualRun(steps, id) && id in Exec(steps).calls && Exec(steps).calls[id].beat.inFlight.Some?
    ensures var (s, c) := (Exec(steps), Exec(steps).calls[id]);
            && (c.beat.inFlight.value.lockOk.None? ==>
                  Tend(c, s.db, RenewLockRow, NoFault).call.beat.inFlight
                    == Some(c.beat.inFlight.value.(lockOk := Some(true))))
            && (c.beat.inFlight.value.claimOk.None? ==>
                  && c.ids.key in s.db.claims
                  && var open := s.db.claims[c.ids.key].status.InProgress?;
                     Tend(c, s.db, RenewClaimRow, NoFault).call.beat.inFlight
                       == Some(c.beat.inFlight.value.(claimOk := Some(open))))
  {
    PunctualCallsKeepTheirLeases(steps, id);
    assert steps[..|steps|] == steps;
    assert Punctual(At(steps, |steps|).calls[id], At(steps, |steps|).db);
    RenewalAnswers(Exec(steps).calls[id], Exec(steps).db);
  }

  lemma RenewalAnswers(c: Call, db: Db)
    requires Covered(c, db) && Punctual(c, db) && c.beat.inFlight.Some?
    ensures c.beat.inFlight.value.lockOk.None? ==>
              TendLock(c, db, NoFault).call.beat.inFlight == Some(c.beat.inFlight.value.(lockOk := Some(true)))
    ensures c.ids.key in db.claims
    ensures c.beat.inFlight.value.claimOk.None? ==>
              var open := db.claims[c.ids.key].status.InProgress?;
              TendClaim(c, db, NoFault).call.beat.inFlight == Some(c.beat.inFlight.value.(claimOk := Some(open)))
  {
  }

  /** The three steps of a tick, one after the other. */
  function WholeTick(s: State, id: CallId): State {
    Apply(Apply(Apply(s, Renew(id, RenewLockRow, NoFault)), Renew(id, RenewClaimRow, NoFault)),
          Renew(id, TickEnds, NoFault))
  }

  /** So a tick that begins while the claim is open reports nothing, and one that begins after the call closed
      it reports the claim as lost and aborts the call. */
  lemma TicksReportTheClose(steps: seq<Step>, id: CallId)
    requires PunctualRun(steps, id) && id in Exec(steps).calls
    requires Exec(steps).calls[id].beat.inFlight == Some(Beat(None, None))
    ensures var (s, s', c) := (Exec(steps), WholeTick(Exec(steps), id), Exec(steps).calls[id]);
            && id in s'.calls && c.ids.key in s.db.claims
            && var closed := !s.db.claims[c.ids.key].status.InProgress?;
               && (s'.calls[id].beat.claimLost <==> c.beat.claimLost || closed)
               && (s'.calls[id].aborted <==> c.aborted || c.beat.claimLost || closed)
               && !s'.calls[id].beat.lockLost && s'.calls[id].pc == c.pc
               && (closed ==> Out(c.pc))
  {
    PunctualCallsKeepTheirLeases(steps, id);
    assert steps[..|steps|] == steps;
    assert Punctual(At(steps, |steps|).calls[id], At(steps, |steps|).db);
    TickReports(Exec(steps), id);
  }

  lemma TickReports(s: State, id: CallId)
    requires id in s.calls && Covered(s.calls[id], s.db) && Punctual(s.calls[id], s.db)
    requires s.calls[id].beat.inFlight == Some(Beat(None, None))
    ensures var (s', c) := (WholeTick(s, id), s.calls[id]);
            && id in s'.calls && c.ids.key in s.db.claims
            && var closed := !s.db.claims[c.ids.key].status.InProgress?;
               && (s'.calls[id].beat.claimLost <==> c.beat.claimLost || closed)
               && (s'.calls[id].aborted <==> c.aborted || c.beat.claimLost || closed)
               && !s'.calls[id].beat.lockLost && s'.calls[id].pc == c.pc
               && (closed ==> Out(c.pc))
  {
    var s1 := Apply(s, Renew(id, RenewLockRow, NoFault));
    LockRowOnly(s, id);
    ClaimRowOnly(s1, id);
    TickEndsOnly(Apply(s1, Renew(id, RenewClaimRow, NoFault)), id, s.db.claims[s.calls[id].ids.key].status.InProgress?);
  }

  lemma LockRowOnly(s: State, id: CallId)
    requires id in s.calls && Covered(s.calls[id], s.db) && Punctual(s.calls[id], s.db)
    requires s.calls[id].beat.inFlight == Some(Beat(None, None))
    ensures var (s1, c) := (Apply(s, Renew(id, RenewLockRow, NoFault)), s.calls[id]);
            && s1.db.claims == s.db.claims && s1.db.now == s.db.now && id in s1.calls
            && s1.calls[id]
              == c.(beat := c.beat.(inFlight := Some(Beat(Some(true), None))), seen := c.seen.(lockBeatAt := s.db.now))
            && Covered(s1.calls[id], s1.db) && Punctual(s1.calls[id], s1.db)
  {
    RenewalAnswers(s.calls[id], s.db);
    TendIsCovered(s.calls[id], s.db, RenewLockRow);
  }

  lemma ClaimRowOnly(s: State, id: CallId)
    requires id in s.calls && Covered(s.calls[id], s.db) && Punctual(s.calls[id], s.db)
    requires s.calls[id].beat.inFlight == Some(Beat(Some(true), None))
    ensures s.calls[id].ids.key in s.db.claims
    ensures var (s1, c) := (Apply(s, Renew(id, RenewClaimRow, NoFault)), s.calls[id]);
            && id in s1.calls
            && !c.beat.lockLost
            && var open := s.db.claims[c.ids.key].status.InProgress?;
               && (open || Out(c.pc))
               && s1.calls[id] == c.(beat := c.beat.(inFlight := Some(Beat(Some(true), Some(open)))),
                                     seen := c.seen.(claimBeatAt := s.db.now))
  {
    RenewalAnswers(s.calls[id], s.db);
  }

  lemma TickEndsOnly(s: State, id: CallId, open: bool)
    requires id in s.calls && s.calls[id].beat.inFlight == Some(Beat(Some(true), Some(open)))
    ensures var (s1, c) := (Apply(s, Renew(id, TickEnds, NoFault)), s.calls[id]);
            && id in s1.calls && s1.calls[id].pc == c.pc && s1.calls[id].beat.lockLost == c.beat.lockLost
            && (s1.calls[id].beat.claimLost <==> c.beat.claimLost || !open)
            && (s1.calls[id].aborted <==> c.aborted || c.beat.lockLost || c.beat.claimLost || !open)
  {
  }

  /** Of every call, punctual or not: a tick reports the lock as lost if the call does not hold it then, and the claim
      if it does not own it open and unexpired; a report aborts the call. */
  lemma TicksReportLosses(s: State, id: CallId)
    requires id in s.calls && s.calls[id].beat.inFlight == Some(Beat(None, None))
    ensures var (s', c) := (WholeTick(s, id), s.calls[id]);
            && id in s'.calls && s'.calls[id].pc == c.pc
            && (s'.calls[id].beat.lockLost <==>
                  c.beat.lockLost || !HoldsLock(s.db.locks, c.ids.key.project, c.ids.lockId, s.db.now))
            && (s'.calls[id].beat.claimLost <==>
                  c.beat.claimLost || !HasLiveClaim(s.db, c.ids))
            && (s'.calls[id].aborted <==>
                  c.aborted || s'.calls[id].beat.lockLost || s'.calls[id].beat.claimLost)
  {
    var s1 := Apply(s, Renew(id, RenewLockRow, NoFault));
    LockAnswered(s, id);
    ClaimAnswered(s1, id);
    AnswersReported(Apply(s1, Renew(id, RenewClaimRow, NoFault)), id);
  }

  predicate HasLiveClaim(db: Db, ids: Ids) {
    OwnsClaim(db.claims, ids.key, ids.claimId) && Live(db.claims[ids.key].leaseExpiresAt, db.now)
  }

  lemma LockAnswered(s: State, id: CallId)
    requires id in s.calls && s.calls[id].beat.inFlight == Some(Beat(None, None))
    ensures var (s', c) := (Apply(s, Renew(id, RenewLockRow, NoFault)), s.calls[id]);
            && id in s'.calls && s'.db.claims == s.db.claims && s'.db.now == s.db.now
            && var held := HoldsLock(s.db.locks, c.ids.key.project, c.ids.lockId, s.db.now);
               s'.calls[id] == c.(beat := c.beat.(inFlight := Some(Beat(Some(held), None))),
                                  seen := c.seen.(lockBeatAt := s.db.now))
  {
  }

  lemma ClaimAnswered(s: State, id: CallId)
    requires id in s.calls && s.calls[id].beat.inFlight.Some? && s.calls[id].beat.inFlight.value.claimOk.None?
    ensures var (s', c) := (Apply(s, Renew(id, RenewClaimRow, NoFault)), s.calls[id]);
            && id in s'.calls
            && var answered := c.beat.inFlight.value.(claimOk := Some(HasLiveClaim(s.db, c.ids)));
               s'.calls[id] == c.(beat := c.beat.(inFlight := Some(answered)), seen := c.seen.(claimBeatAt := s.db.now))
  {
  }

  lemma AnswersReported(s: State, id: CallId)
    requires id in s.calls && s.calls[id].beat.inFlight.Some?
    requires s.calls[id].beat.inFlight.value.lockOk.Some? && s.calls[id].beat.inFlight.value.claimOk.Some?
    ensures var (s', c) := (Apply(s, Renew(id, TickEnds, NoFault)), s.calls[id]);
            var answers := c.beat.inFlight.value;
            && id in s'.calls && s'.calls[id].pc == c.pc
            && (s'.calls[id].beat.lockLost <==> c.beat.lockLost || !answers.lockOk.value)
            && (s'.calls[id].beat.claimLost <==> c.beat.claimLost || !answers.claimOk.value)
            && (s'.calls[id].aborted <==> c.aborted || s'.calls[id].beat.lockLost || s'.calls[id].beat.claimLost)
  {
  }

  /** And so does a renewal that throws: it reports both leases as lost and aborts the call. */
  lemma FailedRenewalsReportLosses(s: State, id: CallId, beat: BeatStep, f: Fault)
    requires id in s.calls && s.calls[id].beat.inFlight.Some? && !f.NoFault?
    requires || (beat.RenewLockRow? && s.calls[id].beat.inFlight.value.lockOk.None?)
             || (beat.RenewClaimRow? && s.calls[id].beat.inFlight.value.claimOk.None?)
    ensures var s' := Apply(s, Renew(id, beat, f));
            && id in s'.calls && s'.calls[id].beat.lockLost && s'.calls[id].beat.claimLost && s'.calls[id].aborted
            && s'.calls[id].pc == s.calls[id].pc
  {
  }

  // ---- and who reads the report ----------------------------------------------------------------

  /** A call that is on its way out stays on its way out: it never comes back to the points that read the flags. */
  lemma {:induction false} OutIsForever(steps: seq<Step>, i: nat, j: nat, id: CallId)
    requires i <= j <= |steps| && IsOut(At(steps, i), id)
    ensures IsOut(At(steps, j), id)
    decreases j - i
  {
    if i < j {
      OutIsForever(steps, i, j - 1, id);
      OutNext(steps, j - 1, id);
    }
  }

  ghost predicate IsOut(s: State, id: CallId) { id in s.calls && Out(s.calls[id].pc) }

  lemma OutNext(steps: seq<Step>, i: nat, id: CallId)
    requires i < |steps| && IsOut(At(steps, i), id)
    ensures IsOut(At(steps, i + 1), id)
  {
    AtNext(steps, i);
    OutStays(At(steps, i), steps[i], id);
  }

  lemma OutStays(s: State, step: Step, id: CallId)
    requires IsOut(s, id)
    ensures IsOut(Apply(s, step), id)
  {
    if step.ClockTick? || step.PrepareTask? || step.Start? {
      OutsideSteps(s, step);
    } else if step.id == id {
      match step {
        case UserAbort(_) =>
        case Advance(_, x) => MainStaysOut(s.calls[id], s.db, x);
        case Renew(_, beat, f) => TendKeepsPc(s.calls[id], s.db, beat, f);
      }
    }
  }

  lemma TendKeepsPc(c: Call, db: Db, beat: BeatStep, f: Fault)
    ensures Tend(c, db, beat, f).call.pc == c.pc
  {
  }

  lemma MainStaysOut(c: Call, db: Db, x: Input)
    requires Out(c.pc)
    ensures Out(Main(c, db, x).call.pc)
  {
    var m := Main(c, db, x);
    match c.pc {
      case CatchFail => assert m == StepCatchFail(c, db, x.fault);
      case CatchRead => assert m == StepCatchRead(c, db, x.fault);
      case CatchFix(state) => assert m == StepCatchFix(c, db, state, x.fault);
      case Release => assert m == StepRelease(c, db, x.fault);
      case _ =>
    }
  }

  function WithFlags(c: Call, aborted: bool, lockLost: bool, claimLost: bool): Call {
    c.(aborted := aborted, beat := c.beat.(lockLost := lockLost, claimLost := claimLost))
  }

  ghost predicate SameBut(m: Moved, m': Moved, aborted: bool, lockLost: bool, claimLost: bool) {
    m' == Moved(WithFlags(m.call, aborted, lockLost, claimLost), m.effect)
  }

  lemma CatchFailIsBlind(c: Call, db: Db, x: Input, a: bool, l: bool, k: bool)
    requires c.pc.CatchFail?
    ensures SameBut(Main(c, db, x), Main(WithFlags(c, a, l, k), db, x), a, l, k)
  {
    var c' := WithFlags(c, a, l, k);
    assert Main(c, db, x) == StepCatchFail(c, db, x.fault) && Main(c', db, x) == StepCatchFail(c', db, x.fault);
    assert StepCatchFail(c, db, x.fault).call == c.(pc := CatchRead, claimClosed := true);
  }

  lemma CatchReadIsBlind(c: Call, db: Db, x: Input, a: bool, l: bool, k: bool)
    requires c.pc.CatchRead?
    ensures SameBut(Main(c, db, x), Main(WithFlags(c, a, l, k), db, x), a, l, k)
  {
    var c' := WithFlags(c, a, l, k);
    assert Main(c, db, x) == StepCatchRead(c, db, x.fault) && Main(c', db, x) == StepCatchRead(c', db, x.fault);
    assert StepCatchRead(c, db, x.fault) == Goto(c, StepCatchRead(c, db, x.fault).call.pc);
  }

  lemma CatchFixIsBlind(c: Call, db: Db, x: Input, a: bool, l: bool, k: bool)
    requires c.pc.CatchFix?
    ensures SameBut(Main(c, db, x), Main(WithFlags(c, a, l, k), db, x), a, l, k)
  {
  }

  lemma ReleaseIsBlind(c: Call, db: Db, x: Input, a: bool, l: bool, k: bool)
    requires c.pc.Release?
    ensures SameBut(Main(c, db, x), Main(WithFlags(c, a, l, k), db, x), a, l, k)
  {
    var c' := WithFlags(c, a, l, k);
    assert Main(c, db, x) == StepRelease(c, db, x.fault) && Main(c', db, x) == StepRelease(c', db, x.fault);
  }

  lemma LeavingIsBlind(c: Call, db: Db, x: Input, a: bool, l: bool, k: bool)
    requires c.pc.Finally? || c.pc.Done?
    ensures SameBut(Main(c, db, x), Main(WithFlags(c, a, l, k), db, x), a, l, k)
  {
  }

  /** There the main program does the same whatever the flags say. */
  lemma FlagsAreNotRead(c: Call, db: Db, x: Input, aborted: bool, lockLost: bool, claimLost: bool)
    requires Out(c.pc)
    ensures SameBut(Main(c, db, x), Main(WithFlags(c, aborted, lockLost, claimLost), db, x), aborted, lockLost,
                    claimLost)
  {
    if c.pc.CatchFail? {
      CatchFailIsBlind(c, db, x, aborted, lockLost, claimLost);
    } else if c.pc.CatchRead? {
      CatchReadIsBlind(c, db, x, aborted, lockLost, claimLost);
    } else if c.pc.CatchFix? {
      CatchFixIsBlind(c, db, x, aborted, lockLost, claimLost);
    } else if c.pc.Release? {
      ReleaseIsBlind(c, db, x, aborted, lockLost, claimLost);
    } else {
      LeavingIsBlind(c, db, x, aborted, lockLost, claimLost);
    }
  }
}
