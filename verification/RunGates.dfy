/** What stands before every start of Codex: a free lock, a free claim, a valid command, a prepared task, the task
    won, a health check that went well, and no abort until then. */
module RunGates {
  import opened Prelude
  import opened Persistence
  import CodexRunner
  import opened RunProtocol
  import opened RunInvariant
  import opened RunTheorems
  import opened TaskOwners
  import opened OpenClaims
  import opened Heartbeats
  import opened RunResults

  datatype Gate = LockGate | ClaimGate | CommandGate | StateGate | HealthGate | AbortGate

  predicate AtClaim(pc: Pc) { pc.ClaimInsert? || pc.ClaimSelect? || pc.ClaimReclaim? }
  predicate AtCommand(pc: Pc) { pc.BeatStart? || pc.BeatWait? || pc.Validate? || pc.FailInvalid? }
  predicate Launched(pc: Pc) { pc.Launch? || pc.CodexRunning? }

  /** The points of a call behind the gate. */
  predicate Past(g: Gate, pc: Pc) {
    match g
    case LockGate => !Out(pc) && !pc.Acquire?
    case ClaimGate => !Out(pc) && !pc.Acquire? && !AtClaim(pc)
    case CommandGate => !Out(pc) && !pc.Acquire? && !AtClaim(pc) && !AtCommand(pc)
    case StateGate => !Out(pc) && !pc.Acquire? && !AtClaim(pc) && !AtCommand(pc) && !pc.ReadState?
    case HealthGate => pc.CheckAbort? || Launched(pc)
    case AbortGate => Launched(pc)
  }

  ghost predicate IsPast(s: State, id: CallId, g: Gate) { id in s.calls && Past(g, s.calls[id].pc) }

  /** The call comes through the gate at step i. */
  predicate Enters(steps: seq<Step>, i: nat, id: CallId, g: Gate)
    requires i < |steps|
  {
    && AdvancesAt(steps, i, id) && !Past(g, At(steps, i).calls[id].pc)
    && Past(g, Main(At(steps, i).calls[id], At(steps, i).db, steps[i].input).call.pc)
  }

  lemma OnlyAdvancesEnter(s: State, step: Step, id: CallId, g: Gate)
    requires !IsPast(s, id, g) && IsPast(Apply(s, step), id, g)
    ensures step.Advance? && step.id == id && id in s.calls
    ensures Past(g, Main(s.calls[id], s.db, step.input).call.pc)
  {
    if step.Renew? && step.id in s.calls {
      TendTouches(s.calls[step.id], s.db, step.beat, step.fault);
      CommitIs(s, step.id, Tend(s.calls[step.id], s.db, step.beat, step.fault));
    }
  }

  /** Whoever is behind a gate has come through it. */
  lemma {:induction false} Entered(steps: seq<Step>, n: nat, id: CallId, g: Gate) returns (i: nat)
    requires n <= |steps| && IsPast(At(steps, n), id, g)
    ensures i < n && Enters(steps, i, id, g)
  {
    AtNext(steps, n - 1);
    if IsPast(At(steps, n - 1), id, g) {
      i := Entered(steps, n - 1, id, g);
    } else {
      i := n - 1;
      OnlyAdvancesEnter(At(steps, i), steps[i], id, g);
    }
  }

  // ---- what each gate asks for -------------------------------------------------------------------

  /** At step i the call takes its project's lock, which nobody has. */
  predicate TakesLock(steps: seq<Step>, i: nat, id: CallId)
    requires i < |steps|
  {
    && Passes(steps, i, id, Acquire)
    && LockFree(At(steps, i).calls[id], At(steps, i).db)
  }

  /** At step i it takes its claim, which nobody has ever had, or whose lease had run out when the call asked for
      it. */
  predicate TakesClaim(steps: seq<Step>, i: nat, id: CallId)
    requires i < |steps|
  {
    && (Passes(steps, i, id, ClaimInsert) || Passes(steps, i, id, ClaimReclaim))
    && ClaimFree(At(steps, i).calls[id], At(steps, i).db.claims)
  }

  /** At step i its command is found to be valid. */
  predicate HasCommand(steps: seq<Step>, i: nat, id: CallId)
    requires i < |steps|
  {
    AdvancesAt(steps, i, id) && At(steps, i).calls[id].pc.Validate? && steps[i].input.commandValid
  }

  /** At step i its task is read, and is prepared unless it is a task of another project. */
  predicate ReadsPrepared(steps: seq<Step>, i: nat, id: CallId)
    requires i < |steps|
  {
    && Passes(steps, i, id, ReadState)
    && PreparedIn(At(steps, i).calls[id].ids.key, At(steps, i).db.tasks)
  }

  /** At step i its health check has settled and is ok. */
  predicate IsHealthy(steps: seq<Step>, i: nat, id: CallId)
    requires i < |steps|
  {
    && Passes(steps, i, id, Healthcheck)
    && Healthy(CodexRunner.Settled(steps[i].input.spawnAborted, steps[i].input.events))
  }

  /** At step i it has not been aborted. */
  predicate NotAborted(steps: seq<Step>, i: nat, id: CallId)
    requires i < |steps|
  {
    AdvancesAt(steps, i, id) && At(steps, i).calls[id].pc.CheckAbort? && !At(steps, i).calls[id].aborted
  }

  predicate Fits(steps: seq<Step>, i: nat, id: CallId, g: Gate)
    requires i < |steps|
  {
    match g
    case LockGate => TakesLock(steps, i, id)
    case ClaimGate => TakesClaim(steps, i, id)
    case CommandGate => HasCommand(steps, i, id)
    case StateGate => ReadsPrepared(steps, i, id)
    case HealthGate => IsHealthy(steps, i, id)
    case AbortGate => NotAborted(steps, i, id)
  }

  predicate LockFree(c: Call, db: Db) {
    c.ids.key.project !in db.locks || db.locks[c.ids.key.project].expiresAt <= db.now
  }

  predicate ClaimFree(c: Call, claims: ClaimTable) {
    if c.pc.ClaimInsert? then c.ids.key !in claims
    else
      && c.ids.key in claims && claims[c.ids.key].status.InProgress?
      && claims[c.ids.key].leaseExpiresAt.Some? && claims[c.ids.key].leaseExpiresAt.value <= c.claimNow
  }

  predicate PreparedIn(key: RunKey, tasks: TaskTable) {
    key.task in tasks && tasks[key.task].project == key.project ==> tasks[key.task].state.Prepared?
  }

  lemma AcquireGoes(c: Call, db: Db, x: Input)
    requires c.pc.Acquire?
    ensures var pc := Main(c, db, x).call.pc; Out(pc) || (pc.ClaimInsert? && x.fault.NoFault? && LockFree(c, db))
  {
    assert Main(c, db, x) == StepAcquire(c, db, x.fault);
  }

  lemma ClaimGoes(c: Call, db: Db, x: Input)
    requires AtClaim(c.pc)
    ensures var pc := Main(c, db, x).call.pc;
            Out(pc) || AtClaim(pc)
            || (pc.BeatStart? && x.fault.NoFault? && !c.pc.ClaimSelect? && ClaimFree(c, db.claims))
  {
    if c.pc.ClaimInsert? {
      InsertGoes(c, db, x.fault);
    } else if c.pc.ClaimSelect? {
      SelectGoes(c, db, x.fault);
    } else {
      ReclaimGoes(c, db, x.fault);
    }
  }

  lemma InsertGoes(c: Call, db: Db, f: Fault)
    ensures var pc := StepClaimInsert(c, db, f).call.pc;
            Out(pc) || pc.ClaimSelect? || (pc.BeatStart? && f.NoFault? && c.ids.key !in db.claims)
  {
  }

  lemma SelectGoes(c: Call, db: Db, f: Fault)
    ensures var pc := StepClaimSelect(c, db, f).call.pc; Out(pc) || pc.ClaimReclaim?
  {
  }

  lemma ReclaimGoes(c: Call, db: Db, f: Fault)
    requires c.pc.ClaimReclaim?
    ensures var pc := StepClaimReclaim(c, db, f).call.pc;
            Out(pc) || (pc.BeatStart? && f.NoFault? && ClaimFree(c, db.claims))
  {
  }

  lemma CommandGoes(c: Call, db: Db, x: Input)
    requires AtCommand(c.pc)
    ensures var pc := Main(c, db, x).call.pc;
            Out(pc) || AtCommand(pc) || (pc.ReadState? && c.pc.Validate? && x.commandValid)
  {
    if c.pc.FailInvalid? {
      assert Main(c, db, x) == StepFailInvalid(c, db, x.fault);
    }
  }

  lemma ReadGoes(c: Call, db: Db, x: Input)
    requires c.pc.ReadState?
    ensures var pc := Main(c, db, x).call.pc;
            Out(pc) || ((pc.Bootstrap? || pc.MarkRunning?) && x.fault.NoFault? && PreparedIn(c.ids.key, db.tasks))
  {
    assert Main(c, db, x) == StepReadState(c, db, x.fault);
  }

  /** The points between the gates of the task's state and of the health check, and those behind the launch. */
  predicate Between(pc: Pc) { pc.Bootstrap? || pc.MarkRunning? || pc.SnapshotBefore? }

  lemma BetweenGoes(c: Call, db: Db, x: Input)
    requires Between(c.pc)
    ensures var pc := Main(c, db, x).call.pc; Out(pc) || Between(pc) || pc.Healthcheck?
  {
    if c.pc.Bootstrap? {
      assert Main(c, db, x) == StepCas(c, db, None, Prepared, MarkRunning, x.fault);
    } else if c.pc.MarkRunning? {
      assert Main(c, db, x) == StepMarkRunning(c, db, x.fault);
    }
  }

  lemma HealthGoes(c: Call, db: Db, x: Input)
    requires c.pc.Healthcheck?
    ensures var pc := Main(c, db, x).call.pc;
            Out(pc) || pc.Healthcheck? || pc.MarkReconciling?
            || (pc.CheckAbort? && x.fault.NoFault? && Healthy(CodexRunner.Settled(x.spawnAborted, x.events)))
  {
    assert Main(c, db, x) == StepHealthcheck(c, x.fault, CodexRunner.Settled(x.spawnAborted, x.events));
  }

  predicate Healthy(settled: Option<CodexRunner.ExecutionResult>) { settled.Some? && settled.value.ok }

  lemma OthersGo(c: Call, db: Db, x: Input)
    requires c.pc.MarkReconciling? || c.pc.Reconcile? || c.pc.Persist? || c.pc.CloseTask? || c.pc.CloseOwnClaim?
    ensures var pc := Main(c, db, x).call.pc; !pc.CheckAbort? && !Launched(pc)
  {
    MainCarries(c, db, x, c.exec);
  }

  predicate Opened(c: Call, db: Db, x: Input, g: Gate) {
    match g
    case LockGate => c.pc.Acquire? && x.fault.NoFault? && LockFree(c, db)
    case ClaimGate => (c.pc.ClaimInsert? || c.pc.ClaimReclaim?) && x.fault.NoFault? && ClaimFree(c, db.claims)
    case CommandGate => c.pc.Validate? && x.commandValid
    case StateGate => c.pc.ReadState? && x.fault.NoFault? && PreparedIn(c.ids.key, db.tasks)
    case HealthGate =>
      c.pc.Healthcheck? && x.fault.NoFault? && Healthy(CodexRunner.Settled(x.spawnAborted, x.events))
    case AbortGate => c.pc.CheckAbort? && !c.aborted
  }

  lemma GatesOpen(c: Call, db: Db, x: Input, g: Gate)
    requires !Past(g, c.pc) && Past(g, Main(c, db, x).call.pc)
    ensures Opened(c, db, x, g)
  {
    if Out(c.pc) {
      MainStaysOut(c, db, x);
    } else if c.pc.Acquire? {
      AcquireGoes(c, db, x);
    } else if AtClaim(c.pc) {
      ClaimGoes(c, db, x);
    } else if AtCommand(c.pc) {
      CommandGoes(c, db, x);
    } else if c.pc.ReadState? {
      ReadGoes(c, db, x);
    } else if Between(c.pc) {
      BetweenGoes(c, db, x);
    } else if c.pc.Healthcheck? {
      HealthGoes(c, db, x);
    } else if !c.pc.CheckAbort? && !Launched(c.pc) {
      OthersGo(c, db, x);
    }
  }

  lemma EnteringFits(steps: seq<Step>, i: nat, id: CallId, g: Gate)
    requires i < |steps| && Enters(steps, i, id, g)
    ensures Fits(steps, i, id, g)
  {
    GatesOpen(At(steps, i).calls[id], At(steps, i).db, steps[i].input, g);
  }

  lemma CameThrough(steps: seq<Step>, n: nat, id: CallId, g: Gate) returns (i: nat)
    requires n <= |steps| && IsPast(At(steps, n), id, g)
    ensures i < n && Fits(steps, i, id, g)
  {
    i := Entered(steps, n, id, g);
    EnteringFits(steps, i, id, g);
  }

  // ---- all of them -----------------------------------------------------------------------------

  lemma GatesAreInARow(steps: seq<Step>, i: nat, id: CallId)
    requires i < |steps|
    ensures WinsBy(steps, i, id) ==> IsPast(At(steps, i), id, StateGate)
    ensures ReadsPrepared(steps, i, id) ==> IsPast(At(steps, i), id, CommandGate)
    ensures HasCommand(steps, i, id) ==> IsPast(At(steps, i), id, ClaimGate)
    ensures TakesClaim(steps, i, id) ==> IsPast(At(steps, i), id, LockGate)
  {
  }

  lemma CommandBefore(steps: seq<Step>, state: nat, id: CallId) returns (command: nat)
    requires state < |steps| && ReadsPrepared(steps, state, id)
    ensures command < state && HasCommand(steps, command, id)
  {
    GatesAreInARow(steps, state, id);
    command := CameThrough(steps, state, id, CommandGate);
  }

  lemma ClaimBefore(steps: seq<Step>, command: nat, id: CallId) returns (lock: nat, claim: nat)
    requires command < |steps| && HasCommand(steps, command, id)
    ensures lock < claim < command && TakesLock(steps, lock, id) && TakesClaim(steps, claim, id)
  {
    GatesAreInARow(steps, command, id);
    claim := CameThrough(steps, command, id, ClaimGate);
    GatesAreInARow(steps, claim, id);
    lock := CameThrough(steps, claim, id, LockGate);
  }

  /** Whoever wins a task has taken the lock, then the claim, then found its command valid, then its task prepared. */
  lemma WinsBehindItsGates(steps: seq<Step>, n: nat, id: CallId)
    returns (lock: nat, claim: nat, command: nat, state: nat)
    requires n < |steps| && WinsBy(steps, n, id)
    ensures lock < claim < command < state < n
    ensures TakesLock(steps, lock, id) && TakesClaim(steps, claim, id)
    ensures HasCommand(steps, command, id) && ReadsPrepared(steps, state, id)
  {
    GatesAreInARow(steps, n, id);
    state := CameThrough(steps, n, id, StateGate);
    command := CommandBefore(steps, state, id);
    lock, claim := ClaimBefore(steps, command, id);
  }

  /** And whoever starts Codex has then won the task, had its health check, and not been aborted before it passed the
      last check. */
  lemma StartsBehindItsGates(steps: seq<Step>, n: nat, t: Id) returns (won: nat, health: nat, check: nat)
    requires n < |steps| && StartsCodex(steps, n, t)
    ensures won < health < check < n && steps[n].Advance?
    ensures WinsBy(steps, won, steps[n].id) && At(steps, won).calls[steps[n].id].ids.key.task == t
    ensures IsHealthy(steps, health, steps[n].id) && NotAborted(steps, check, steps[n].id)
  {
    LaunchedByTheWinner(steps, n, t);
    var id := steps[n].id;
    check := CameThrough(steps, n, id, AbortGate);
    health := CameThrough(steps, check, id, HealthGate);
    OwnersReachable(steps[..health]);
    assert Started(At(steps, health).calls[id]);
    won := WinningStep(steps, health, id);
    CallPersists(steps, won, n, id);
  }
}
