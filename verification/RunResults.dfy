/** What a run records is what Codex returned: from the event that settled the child process to the task and
    the claim in the database, whatever other calls do in between. */
module RunResults {
  import opened Prelude
  import opened Persistence
  import CodexRunner
  import opened Outcome
  import opened RunProtocol
  import opened RunInvariant
  import opened RunTheorems
  import opened TaskOwners
  import opened OpenClaims
  import opened Cleanup
  import opened Heartbeats

  // ---- the events of a run -----------------------------------------------------------------------

  predicate AdvancesAt(steps: seq<Step>, i: nat, id: CallId)
    requires i < |steps|
  {
    steps[i].Advance? && steps[i].id == id && id in At(steps, i).calls
  }

  /** At step i the call's execution ends with result e: Codex has settled, or its health check has settled and
      is not ok, or the call was aborted before Codex was started. */
  predicate EndsWith(steps: seq<Step>, i: nat, id: CallId, e: CodexRunner.ExecutionResult)
    requires i < |steps|
  {
    && AdvancesAt(steps, i, id)
    && var (c, x) := (At(steps, i).calls[id], steps[i].input);
       || (c.pc.CodexRunning? && x.fault.NoFault? && CodexRunner.Settled(x.spawnAborted, x.events) == Some(e))
       || (c.pc.Healthcheck? && x.fault.NoFault? && CodexRunner.Settled(x.spawnAborted, x.events) == Some(e) && !e.ok)
       || (c.pc.CheckAbort? && c.aborted
           && e == CodexRunner.ExecutionResult(false, true, None, "", "", Some(CodexRunner.CancelledBeforeStart)))
  }

  /** At step i the call passes this point without exception. */
  predicate Passes(steps: seq<Step>, i: nat, id: CallId, pc: Pc)
    requires i < |steps|
  {
    AdvancesAt(steps, i, id) && At(steps, i).calls[id].pc == pc && steps[i].input.fault.NoFault?
  }

  predicate LeaseLost(c: Call) { c.beat.lockLost || c.beat.claimLost }

  // ---- the result on its way through the call ----------------------------------------------------

  /** After the execution has ended: the result is still to be reconciled, or has been, or the call is out. */
  predicate Carries(c: Call, e: CodexRunner.ExecutionResult) {
    || Out(c.pc) || c.pc.Persist? || c.pc.CloseTask? || c.pc.CloseOwnClaim?
    || ((c.pc.MarkReconciling? || c.pc.Reconcile?) && c.exec == e)
  }

  /** After it was reconciled: what will be recorded is fixed, or the call is out. */
  predicate Decided(c: Call, final: TaskState, ok: bool) {
    Out(c.pc) || ((c.pc.Persist? || c.pc.CloseTask? || c.pc.CloseOwnClaim?) && c.final == final && c.resultOk == ok)
  }

  function FinalOf(e: CodexRunner.ExecutionResult, x: ClassifierInput, lost: bool): TaskState {
    FinalTaskState(if lost then Blocked else Classify(e, x.(blockedReason := None)))
  }

  lemma EndCarries(c: Call, db: Db, x: Input, e: CodexRunner.ExecutionResult)
    requires || (c.pc.CodexRunning? && x.fault.NoFault? && CodexRunner.Settled(x.spawnAborted, x.events) == Some(e))
             || (c.pc.Healthcheck? && x.fault.NoFault? && CodexRunner.Settled(x.spawnAborted, x.events) == Some(e)
                 && !e.ok)
             || (c.pc.CheckAbort? && c.aborted && e == CANCELLED_EXECUTION)
    ensures Carries(Main(c, db, x).call, e)
  {
    if c.pc.CodexRunning? {
      assert Main(c, db, x) == StepCodexRunning(c, x.fault, Some(e));
    } else if c.pc.Healthcheck? {
      assert Main(c, db, x) == StepHealthcheck(c, x.fault, Some(e));
    }
  }

  lemma CasCarries(c: Call, db: Db, from: Option<TaskState>, to: TaskState, next: Pc, f: Fault)
    ensures var m := StepCas(c, db, from, to, next, f); m.call == Thrown(c) || m.call == c.(pc := next)
  {
  }

  lemma ReconcileDecides(c: Call, x: Input)
    requires c.pc.Reconcile?
    ensures var m := StepReconcile(c, x);
            if x.fault.NoFault? then
              m.call.pc.Persist? && Decided(m.call, FinalOf(c.exec, x.review, LeaseLost(c)), c.exec.ok && !LeaseLost(c))
            else m.call == Thrown(c)
  {
  }

  lemma CloseClaimLeaves(c: Call, db: Db, f: Fault)
    ensures Out(StepCloseClaim(c, db, f).call.pc)
  {
  }

  lemma MainCarries(c: Call, db: Db, x: Input, e: CodexRunner.ExecutionResult)
    requires Carries(c, e)
    ensures Carries(Main(c, db, x).call, e)
  {
    if Out(c.pc) {
      MainStaysOut(c, db, x);
    } else if c.pc.MarkReconciling? {
      CasCarries(c, db, Some(Running), Reconciling, Reconcile, x.fault);
    } else if c.pc.Reconcile? {
      ReconcileDecides(c, x);
    } else if c.pc.CloseTask? {
      CasCarries(c, db, Some(Reconciling), c.final, CloseOwnClaim, x.fault);
    } else if c.pc.CloseOwnClaim? {
      CloseClaimLeaves(c, db, x.fault);
    }
  }

  lemma MainDecided(c: Call, db: Db, x: Input, final: TaskState, ok: bool)
    requires Decided(c, final, ok)
    ensures Decided(Main(c, db, x).call, final, ok)
  {
    if Out(c.pc) {
      MainStaysOut(c, db, x);
    } else if c.pc.CloseTask? {
      CasCarries(c, db, Some(Reconciling), c.final, CloseOwnClaim, x.fault);
    } else if c.pc.CloseOwnClaim? {
      CloseClaimLeaves(c, db, x.fault);
    }
  }

  lemma TendKeepsResult(c: Call, db: Db, beat: BeatStep, f: Fault)
    ensures var m := Tend(c, db, beat, f);
            m.call.pc == c.pc && m.call.exec == c.exec && m.call.final == c.final && m.call.resultOk == c.resultOk
  {
    TendTouches(c, db, beat, f);
  }

  // ---- over whole runs -------------------------------------------------------------------------

  ghost predicate CallCarries(s: State, id: CallId, e: CodexRunner.ExecutionResult) {
    id in s.calls && Carries(s.calls[id], e)
  }

  ghost predicate CallDecided(s: State, id: CallId, final: TaskState, ok: bool) {
    id in s.calls && Decided(s.calls[id], final, ok)
  }

  lemma OwnCarries(s: State, step: Step, id: CallId, e: CodexRunner.ExecutionResult)
    requires CallCarries(s, id, e) && (step.Advance? || step.Renew?) && step.id == id
    ensures CallCarries(Apply(s, step), id, e)
  {
    if step.Advance? {
      MainCarries(s.calls[id], s.db, step.input, e);
      CommitIs(s, id, Main(s.calls[id], s.db, step.input));
    } else {
      TendKeepsResult(s.calls[id], s.db, step.beat, step.fault);
      CommitIs(s, id, Tend(s.calls[id], s.db, step.beat, step.fault));
    }
  }

  lemma StepCarries(s: State, step: Step, id: CallId, e: CodexRunner.ExecutionResult)
    requires CallCarries(s, id, e)
    ensures CallCarries(Apply(s, step), id, e)
  {
    if step.ClockTick? || step.PrepareTask? || step.Start? {
      OutsideSteps(s, step);
    } else if step.id == id && !step.UserAbort? {
      OwnCarries(s, step, id, e);
    }
  }

  lemma OwnDecided(s: State, step: Step, id: CallId, final: TaskState, ok: bool)
    requires CallDecided(s, id, final, ok) && (step.Advance? || step.Renew?) && step.id == id
    ensures CallDecided(Apply(s, step), id, final, ok)
  {
    if step.Advance? {
      MainDecided(s.calls[id], s.db, step.input, final, ok);
      CommitIs(s, id, Main(s.calls[id], s.db, step.input));
    } else {
      TendKeepsResult(s.calls[id], s.db, step.beat, step.fault);
      CommitIs(s, id, Tend(s.calls[id], s.db, step.beat, step.fault));
    }
  }

  lemma StepDecided(s: State, step: Step, id: CallId, final: TaskState, ok: bool)
    requires CallDecided(s, id, final, ok)
    ensures CallDecided(Apply(s, step), id, final, ok)
  {
    if step.ClockTick? || step.PrepareTask? || step.Start? {
      OutsideSteps(s, step);
    } else if step.id == id && !step.UserAbort? {
      OwnDecided(s, step, id, final, ok);
    }
  }

  lemma {:induction false} CarriedOn(steps: seq<Step>, i: nat, j: nat, id: CallId, e: CodexRunner.ExecutionResult)
    requires i <= j <= |steps| && CallCarries(At(steps, i), id, e)
    ensures CallCarries(At(steps, j), id, e)
    decreases j - i
  {
    if i < j {
      CarriesNext(steps, i, id, e);
      CarriedOn(steps, i + 1, j, id, e);
    }
  }

  lemma CarriesNext(steps: seq<Step>, i: nat, id: CallId, e: CodexRunner.ExecutionResult)
    requires i < |steps| && CallCarries(At(steps, i), id, e)
    ensures CallCarries(At(steps, i + 1), id, e)
  {
    AtNext(steps, i);
    StepCarries(At(steps, i), steps[i], id, e);
  }

  lemma {:induction false} StaysDecided(steps: seq<Step>, i: nat, j: nat, id: CallId, final: TaskState, ok: bool)
    requires i <= j <= |steps| && CallDecided(At(steps, i), id, final, ok)
    ensures CallDecided(At(steps, j), id, final, ok)
    decreases j - i
  {
    if i < j {
      DecidedNext(steps, i, id, final, ok);
      StaysDecided(steps, i + 1, j, id, final, ok);
    }
  }

  lemma DecidedNext(steps: seq<Step>, i: nat, id: CallId, final: TaskState, ok: bool)
    requires i < |steps| && CallDecided(At(steps, i), id, final, ok)
    ensures CallDecided(At(steps, i + 1), id, final, ok)
  {
    AtNext(steps, i);
    StepDecided(At(steps, i), steps[i], id, final, ok);
  }

  lemma EndNext(steps: seq<Step>, i: nat, id: CallId, e: CodexRunner.ExecutionResult)
    requires i < |steps| && EndsWith(steps, i, id, e)
    ensures CallCarries(At(steps, i + 1), id, e)
  {
    AtNext(steps, i);
    EndCarries(At(steps, i).calls[id], At(steps, i).db, steps[i].input, e);
    CommitIs(At(steps, i), id, Main(At(steps, i).calls[id], At(steps, i).db, steps[i].input));
  }

  lemma ReconcileStep(s: State, id: CallId, x: Input, e: CodexRunner.ExecutionResult)
    requires CallCarries(s, id, e) && s.calls[id].pc.Reconcile? && x.fault.NoFault?
    ensures var c := s.calls[id];
            && s.calls[id].exec == e
            && CallDecided(Apply(s, Advance(id, x)), id, FinalOf(e, x.review, LeaseLost(c)), e.ok && !LeaseLost(c))
  {
    ReconcileDecides(s.calls[id], x);
    assert Main(s.calls[id], s.db, x) == StepReconcile(s.calls[id], x);
  }

  lemma ReconcileNext(steps: seq<Step>, j: nat, id: CallId, e: CodexRunner.ExecutionResult)
    requires j < |steps| && Passes(steps, j, id, Reconcile) && CallCarries(At(steps, j), id, e)
    ensures Sound(e)
    ensures var (c, x) := (At(steps, j).calls[id], steps[j].input.review);
            CallDecided(At(steps, j + 1), id, FinalOf(e, x, LeaseLost(c)), e.ok && !LeaseLost(c))
  {
    var s := At(steps, j);
    AtNext(steps, j);
    assert CallOk(s, id);
    ReconcileStep(s, id, steps[j].input, e);
  }

  /** Once the execution has ended with e, it is e that is reconciled. */
  lemma ReconcilesTheResult(steps: seq<Step>, i: nat, j: nat, id: CallId, e: CodexRunner.ExecutionResult)
    requires i < j < |steps| && EndsWith(steps, i, id, e) && Passes(steps, j, id, Reconcile)
    ensures Sound(e)
    ensures var (c, x) := (At(steps, j).calls[id], steps[j].input.review);
            CallDecided(At(steps, j + 1), id, FinalOf(e, x, LeaseLost(c)), e.ok && !LeaseLost(c))
  {
    EndNext(steps, i, id, e);
    CarriedOn(steps, i + 1, j, id, e);
    ReconcileNext(steps, j, id, e);
  }

  /** And what was decided then is what the call has in hand when it closes its task, or its claim. */
  lemma HasInHand(steps: seq<Step>, i: nat, j: nat, k: nat, id: CallId, e: CodexRunner.ExecutionResult, pc: Pc)
    requires i < j < k < |steps| && EndsWith(steps, i, id, e) && Passes(steps, j, id, Reconcile)
    requires Passes(steps, k, id, pc) && !Out(pc)
    ensures Sound(e)
    ensures var (c, c', x) := (At(steps, j).calls[id], At(steps, k).calls[id], steps[j].input.review);
            && c'.ids == c.ids && c'.final == FinalOf(e, x, LeaseLost(c)) && (c'.resultOk <==> e.ok && !LeaseLost(c))
  {
    var (c, x) := (At(steps, j).calls[id], steps[j].input.review);
    ReconcilesTheResult(steps, i, j, id, e);
    StaysDecided(steps, j + 1, k, id, FinalOf(e, x, LeaseLost(c)), e.ok && !LeaseLost(c));
    CallPersists(steps, j, k, id);
  }

  /** A call that is not on its way out has not cleaned up yet. */
  lemma NotOutYet(steps: seq<Step>, j: nat, id: CallId)
    requires j <= |steps| && id in At(steps, j).calls && !Out(At(steps, j).calls[id].pc)
    ensures CleanedUp(steps[..j], id)
  {
    forall i: nat | i < j ensures UndisturbedCleanup(At(steps[..j], i), steps[..j][i], id) {
      assert steps[..j][..i] == steps[..i];
      if IsOut(At(steps, i), id) {
        OutIsForever(steps, i, j, id);
      }
    }
  }

  // ---- what is recorded ------------------------------------------------------------------------

  /** Where a call closes its task, the task is its own and reconciling. */
  lemma ClosesItsTask(steps: seq<Step>, k: nat, id: CallId)
    requires k < |steps| && Passes(steps, k, id, CloseTask)
    ensures var (s, s', c) := (At(steps, k), At(steps, k + 1), At(steps, k).calls[id]);
            c.ids.key.task in s'.db.tasks && s'.db.tasks[c.ids.key.task].state == c.final && Terminal(c.final)
  {
    var s := At(steps, k);
    AtNext(steps, k);
    NotOutYet(steps, k, id);
    CallsAreStaged(steps[..k], id);
    OwnersReachable(steps[..k]);
    assert CallOk(s, id) && Started(s.calls[id]);
    CloseStep(s, id, steps[k].input);
  }

  lemma CloseStep(s: State, id: CallId, x: Input)
    requires id in s.calls && s.calls[id].pc.CloseTask? && x.fault.NoFault?
    requires Staged(s.calls[id], s.db) && s.calls[id].transitionStarted
    ensures var (s', c) := (Apply(s, Advance(id, x)), s.calls[id]);
            c.ids.key.task in s'.db.tasks && s'.db.tasks[c.ids.key.task].state == c.final
  {
    CasCloses(s.calls[id], s.db);
    assert Main(s.calls[id], s.db, x)
      == StepCas(s.calls[id], s.db, Some(Reconciling), s.calls[id].final, CloseOwnClaim, NoFault);
  }

  lemma CasCloses(c: Call, db: Db)
    requires c.pc.CloseTask? && Staged(c, db) && c.transitionStarted
    ensures var m := StepCas(c, db, Some(Reconciling), c.final, CloseOwnClaim, NoFault);
            m.effect.SetTasks? && c.ids.key.task in m.effect.tasks && m.effect.tasks[c.ids.key.task].state == c.final
  {
  }

  /** The task of a run is closed, for good, in the state that fits what Codex returned and what became of the
      workspace; and as blocked if a lease was lost. */
  lemma TaskRecordsTheResult(steps: seq<Step>, i: nat, j: nat, k: nat, n: nat, id: CallId,
                             e: CodexRunner.ExecutionResult)
    requires i < j < k < n <= |steps| && EndsWith(steps, i, id, e)
    requires Passes(steps, j, id, Reconcile) && Passes(steps, k, id, CloseTask)
    ensures var (c, x, tasks) := (At(steps, j).calls[id], steps[j].input.review, At(steps, n).db.tasks);
            && c.ids.key.task in tasks
            && ClosedAs(tasks[c.ids.key.task].state, e, x, LeaseLost(c))
            && (Succeeded(tasks[c.ids.key.task].state) <==> e.ok && !LeaseLost(c))
  {
    var (c, x) := (At(steps, j).calls[id], steps[j].input.review);
    HasInHand(steps, i, j, k, id, e, CloseTask);
    ClosesItsTask(steps, k, id);
    TerminalIsForever(steps, k + 1, n, c.ids.key.task);
    FinalFits(e, x, LeaseLost(c));
  }

  lemma FinalFits(e: CodexRunner.ExecutionResult, x: ClassifierInput, lost: bool)
    requires Sound(e)
    ensures ClosedAs(FinalOf(e, x, lost), e, x, lost)
    ensures Succeeded(FinalOf(e, x, lost)) <==> e.ok && !lost
  {
    StatesAreExact(e, x.(blockedReason := None));
    SuccessIsOk(e, x.(blockedReason := None));
  }

  /** And the claim, if the call still owns it when it closes it, is completed or failed accordingly, for good. */
  lemma ClaimRecordsTheResult(steps: seq<Step>, i: nat, j: nat, l: nat, n: nat, id: CallId,
                              e: CodexRunner.ExecutionResult)
    requires i < j < l < n <= |steps| && EndsWith(steps, i, id, e)
    requires Passes(steps, j, id, Reconcile) && Passes(steps, l, id, CloseOwnClaim)
    requires var (c, claims) := (At(steps, l).calls[id], At(steps, l).db.claims);
             OwnsClaim(claims, c.ids.key, c.ids.claimId)
    ensures var (c, claims) := (At(steps, j).calls[id], At(steps, n).db.claims);
            var ok := e.ok && !LeaseLost(c);
            && c.ids.key in claims && claims[c.ids.key].claimId == c.ids.claimId
            && claims[c.ids.key].status == (if ok then Completed else Failed)
            && claims[c.ids.key].response == Result(ok, ExecutionClosed)
  {
    HasInHand(steps, i, j, l, id, e, CloseOwnClaim);
    ClosesItsClaim(steps, l, id);
    TerminalClaimIsForever(steps, l + 1, n, At(steps, l).calls[id].ids.key);
  }

  /** The row with which a call closes its claim at its end. */
  function ClosedRow(c: Call): ClaimRow {
    ClaimRow(if c.resultOk then Completed else Failed, Result(c.resultOk, ExecutionClosed), c.ids.claimId, None)
  }

  lemma ClosesItsClaim(steps: seq<Step>, l: nat, id: CallId)
    requires l < |steps| && Passes(steps, l, id, CloseOwnClaim) && Owns(At(steps, l).calls[id], At(steps, l).db)
    ensures var (c, claims) := (At(steps, l).calls[id], At(steps, l + 1).db.claims);
            && c.ids.key in claims
            && claims[c.ids.key] == ClosedRow(c)
  {
    AtNext(steps, l);
    NotOutYet(steps, l, id);
    ClaimsStand(steps[..l], id);
    CloseClaimStep(At(steps, l), id, steps[l].input);
  }

  lemma CloseClaimStep(s: State, id: CallId, x: Input)
    requires id in s.calls && Owns(s.calls[id], s.db) && s.calls[id].hasClaim && !s.calls[id].claimClosed
    requires s.calls[id].pc.CloseOwnClaim? && x.fault.NoFault?
    ensures var (c, claims) := (s.calls[id], Apply(s, Advance(id, x)).db.claims);
            && c.ids.key in claims
            && claims[c.ids.key] == ClosedRow(c)
  {
    OwnClaimCloses(s.calls[id], s.db);
    assert Main(s.calls[id], s.db, x) == StepCloseClaim(s.calls[id], s.db, NoFault);
  }

  lemma OwnClaimCloses(c: Call, db: Db)
    requires Owns(c, db) && c.hasClaim && !c.claimClosed
    ensures var m := StepCloseClaim(c, db, NoFault);
            && m.effect.SetClaims? && c.ids.key in m.effect.claims
            && m.effect.claims[c.ids.key] == ClosedRow(c)
  {
  }

  /** In terms of the child process: the task of a run of Codex ends as completed or partial if and only if the
      process exited with 0, with neither abort nor timeout before that, and no lease was lost. */
  lemma CleanExitsSucceed(steps: seq<Step>, i: nat, j: nat, k: nat, n: nat, id: CallId) returns (end: nat)
    requires i < j < k < n <= |steps| && Passes(steps, i, id, CodexRunning)
    requires CodexRunner.Settled(steps[i].input.spawnAborted, steps[i].input.events).Some?
    requires Passes(steps, j, id, Reconcile) && Passes(steps, k, id, CloseTask)
    ensures var events := steps[i].input.events;
            && end < |events| && CodexRunner.Ends(events[end]) && CodexRunner.NoEnd(events[..end])
            && var (c, tasks) := (At(steps, j).calls[id], At(steps, n).db.tasks);
               && c.ids.key.task in tasks
               && (Succeeded(tasks[c.ids.key.task].state) <==>
                     && events[end] == CodexRunner.Close(Some(0)) && !steps[i].input.spawnAborted
                     && CodexRunner.Abort !in events[..end] && CodexRunner.Timeout !in events[..end]
                     && !LeaseLost(c))
  {
    var x := steps[i].input;
    end := CodexRunner.SettledIsDecided(x.spawnAborted, x.events);
    TaskRecordsTheResult(steps, i, j, k, n, id, CodexRunner.Settled(x.spawnAborted, x.events).value);
  }

  lemma LaunchedByTheWinner(steps: seq<Step>, m: nat, t: Id)
    requires m < |steps| && StartsCodex(steps, m, t)
    ensures WonBy(At(steps, m), t, steps[m].id) && At(steps, m).calls[steps[m].id].pc.Launch?
  {
    AtNext(steps, m);
    assert CallOk(At(steps, m), steps[m].id);
  }

  lemma EndedByTheWinner(steps: seq<Step>, i: nat, id: CallId, e: CodexRunner.ExecutionResult)
    requires i < |steps| && EndsWith(steps, i, id, e)
    ensures HasWon(At(steps, i), id)
  {
    OwnersReachable(steps[..i]);
    assert Started(At(steps, i).calls[id]);
  }

  /** Once the execution of a task has ended, Codex is not started for it any more: not after a failed health
      check, and not after an abort. */
  lemma NothingStartsAfterTheEnd(steps: seq<Step>, i: nat, m: nat, id: CallId, e: CodexRunner.ExecutionResult)
    requires i < m < |steps| && EndsWith(steps, i, id, e)
    ensures !StartsCodex(steps, m, At(steps, i).calls[id].ids.key.task)
  {
    EndNext(steps, i, id, e);
    CarriedOn(steps, i + 1, m, id, e);
    EndedByTheWinner(steps, i, id, e);
    KnowledgeLasts(steps, At(steps, i), i, m, id);
    if StartsCodex(steps, m, At(steps, i).calls[id].ids.key.task) {
      LaunchedByTheWinner(steps, m, At(steps, i).calls[id].ids.key.task);
    }
  }

  // ---- what a claim answers --------------------------------------------------------------------

  /** An open claim has no response; a closed one has one that says ok exactly if it is completed. */
  predicate ResponseFits(row: ClaimRow) {
    match row.status
    case InProgress => row.response == Empty
    case Completed => row.response == Result(true, ExecutionClosed)
    case Failed => row.response.Result? && !row.response.ok
  }

  ghost predicate ResponsesFit(claims: ClaimTable) { forall k | k in claims :: ResponseFits(claims[k]) }

  lemma OpeningFits(c: Call, db: Db, now: int)
    requires ResponsesFit(db.claims)
    ensures ResponsesFit(InsertClaim(db.claims, c.ids.key, c.ids.claimId, now, LOCK_TTL).0)
    ensures ResponsesFit(ReclaimClaim(db.claims, c.ids.key, c.ids.claimId, now, LOCK_TTL).0)
    ensures ResponsesFit(RenewClaim(db.claims, c.ids.key, c.ids.claimId, now, LOCK_TTL).0)
  {
  }

  lemma ClosingFits(c: Call, db: Db, status: ClaimStatus, response: Response)
    requires ResponsesFit(db.claims) && ResponseFits(ClaimRow(status, response, c.ids.claimId, None))
    ensures ResponsesFit(CloseClaim(db.claims, c.ids.key, c.ids.claimId, status, response).0)
  {
  }

  /** The statements that open a claim, and those that close one. */
  predicate Opens(pc: Pc) { pc.ClaimInsert? || pc.ClaimReclaim? }
  predicate ClosesClaim(pc: Pc) { pc.FailInvalid? || pc.CloseOwnClaim? || pc.CatchFail? }

  lemma OthersWriteNoClaims(c: Call, db: Db, x: Input)
    requires !Opens(c.pc) && !ClosesClaim(c.pc)
    ensures !Main(c, db, x).effect.SetClaims?
  {
  }

  lemma OpeningKeepsResponses(c: Call, db: Db, x: Input)
    requires ResponsesFit(db.claims) && Opens(c.pc)
    ensures ResponsesFit(After(db, Main(c, db, x).effect).claims)
  {
    if c.pc.ClaimInsert? {
      assert Main(c, db, x) == StepClaimInsert(c, db, x.fault);
      OpeningFits(c, db, db.now);
    } else {
      assert Main(c, db, x) == StepClaimReclaim(c, db, x.fault);
      OpeningFits(c, db, c.claimNow);
    }
  }

  lemma ClosingKeepsResponses(c: Call, db: Db, x: Input)
    requires ResponsesFit(db.claims) && ClosesClaim(c.pc)
    ensures ResponsesFit(After(db, Main(c, db, x).effect).claims)
  {
    if c.pc.FailInvalid? {
      assert Main(c, db, x) == StepFailInvalid(c, db, x.fault);
      ClosingFits(c, db, Failed, Result(false, InvalidConfiguration));
    } else if c.pc.CloseOwnClaim? {
      assert Main(c, db, x) == StepCloseClaim(c, db, x.fault);
      ClosingFits(c, db, if c.resultOk then Completed else Failed, Result(c.resultOk, ExecutionClosed));
    } else {
      assert Main(c, db, x) == StepCatchFail(c, db, x.fault);
      ClosingFits(c, db, Failed, Result(false, ExceptionThrown));
    }
  }

  lemma MainKeepsResponses(c: Call, db: Db, x: Input)
    requires ResponsesFit(db.claims)
    ensures ResponsesFit(After(db, Main(c, db, x).effect).claims)
  {
    if Opens(c.pc) {
      OpeningKeepsResponses(c, db, x);
    } else if ClosesClaim(c.pc) {
      ClosingKeepsResponses(c, db, x);
    } else {
      OthersWriteNoClaims(c, db, x);
    }
  }

  lemma StepKeepsResponses(s: State, step: Step)
    requires ResponsesFit(s.db.claims)
    ensures ResponsesFit(Apply(s, step).db.claims)
  {
    if step.ClockTick? || step.PrepareTask? || step.Start? {
      OutsideSteps(s, step);
    } else if step.id in s.calls {
      var c := s.calls[step.id];
      match step {
        case UserAbort(_) =>
        case Advance(_, x) =>
          MainKeepsResponses(c, s.db, x);
          CommitIs(s, step.id, Main(c, s.db, x));
        case Renew(_, beat, f) =>
          TendTouches(c, s.db, beat, f);
          OpeningFits(c, s.db, s.db.now);
          CommitIs(s, step.id, Tend(c, s.db, beat, f));
      }
    }
  }

  /** So every response that is replayed says ok exactly if the run it stems from succeeded. */
  lemma {:induction false} ResponsesSayWhatHappened(steps: seq<Step>)
    ensures ResponsesFit(Exec(steps).db.claims)
  {
    if steps != [] {
      ResponsesSayWhatHappened(steps[..|steps| - 1]);
      StepKeepsResponses(Exec(steps[..|steps| - 1]), steps[|steps| - 1]);
    }
  }
}
