/** What holds over every interleaving of any number of runs. `At(steps, i)` is the state before step i. */
module RunTheorems {
  import opened Prelude
  import opened Persistence
  import opened Outcome
  import opened RunProtocol
  import opened RunInvariant

  function At(steps: seq<Step>, i: nat): State
    requires i <= |steps|
  {
    Exec(steps[..i])
  }

  lemma AtNext(steps: seq<Step>, i: nat)
    requires i < |steps|
    ensures At(steps, i + 1) == Apply(At(steps, i), steps[i])
    ensures Inv(At(steps, i))
  {
    assert steps[..i + 1][..i] == steps[..i];
    Reachable(steps[..i]);
  }

  /** The call a step belongs to, if any. */
  predicate StepOf(step: Step, id: CallId) {
    step == UserAbort(id) || (step.Advance? && step.id == id) || (step.Renew? && step.id == id)
  }

  /** What the clock, a new task and a new call leave alone. */
  ghost predicate Outside(s: State, s': State) {
    && s'.db.locks == s.db.locks && s'.db.claims == s.db.claims && s.db.now <= s'.db.now && s'.launches == s.launches
    && (forall t | t in s.db.tasks :: t in s'.db.tasks && s'.db.tasks[t] == s.db.tasks[t])
    && (forall id | id in s.calls :: id in s'.calls && s'.calls[id] == s.calls[id])
  }

  /** Every step is a move of one call within its bounds, or comes from outside. */
  lemma StepKinds(s: State, step: Step) returns (ofCall: bool, id: CallId, m: Moved)
    requires Inv(s)
    ensures ofCall ==> id in s.calls && Kept(s.calls[id], s.db, m) && Apply(s, step) == Commit(s, id, m)
    ensures ofCall ==> CallOk(s, id) && StepOf(step, id)
    ensures !ofCall ==> Outside(s, Apply(s, step)) && Apply(s, step).winner == s.winner
  {
    ofCall, id, m := false, 0, *;
    if step.ClockTick? || step.PrepareTask? || step.Start? {
      OutsideSteps(s, step);
    } else if step.id in s.calls {
      ofCall, id := true, step.id;
      assert CallOk(s, id);
      m := OwnStepKept(s, id, step);
    }
  }

  lemma OutsideSteps(s: State, step: Step)
    requires step.ClockTick? || step.PrepareTask? || step.Start?
    ensures Outside(s, Apply(s, step)) && Apply(s, step).winner == s.winner
  {
  }

  // ---- the task lifecycle ------------------------------------------------------------------------

  /** One step of the system moves a task along its lifecycle, or leaves it alone. */
  lemma TaskStep(s: State, step: Step, t: Id)
    requires Inv(s) && t in s.db.tasks
    ensures TaskMoves(s, Apply(s, step), t)
  {
    var ofCall, id, m := StepKinds(s, step);
    if ofCall {
      TaskMove(s, id, m, t);
    }
  }

  lemma TaskNext(steps: seq<Step>, i: nat, t: Id)
    requires i < |steps| && t in At(steps, i).db.tasks
    ensures TaskMoves(At(steps, i), At(steps, i + 1), t)
  {
    AtNext(steps, i);
    TaskStep(At(steps, i), steps[i], t);
  }

  ghost predicate TaskMoves(s: State, s': State, t: Id)
    requires t in s.db.tasks
  {
    && t in s'.db.tasks && s'.db.tasks[t].project == s.db.tasks[t].project
    && s.launches[t] <= s'.launches[t]
    && (s'.db.tasks[t] == s.db.tasks[t] || TaskEdge(s.db.tasks[t].state, s'.db.tasks[t].state)
        || (s.db.tasks[t].state.Prepared? && s'.db.tasks[t].state.Running?))
  }

  lemma TaskMove(s: State, id: CallId, m: Moved, t: Id)
    requires id in s.calls && t in s.db.tasks && Kept(s.calls[id], s.db, m)
    ensures TaskMoves(s, Commit(s, id, m), t)
  {
  }

  /** completed, partial, failed, timeout, cancelled and blocked are never left. */
  lemma {:induction false} TerminalIsForever(steps: seq<Step>, i: nat, j: nat, t: Id)
    requires i <= j <= |steps| && t in At(steps, i).db.tasks && Terminal(At(steps, i).db.tasks[t].state)
    ensures t in At(steps, j).db.tasks && At(steps, j).db.tasks[t] == At(steps, i).db.tasks[t]
    decreases j - i
  {
    if i < j {
      TerminalIsForever(steps, i, j - 1, t);
      TaskNext(steps, j - 1, t);
    }
  }

  /** Step i starts the Codex process of task t. */
  predicate StartsCodex(steps: seq<Step>, i: nat, t: Id)
    requires i < |steps|
  {
    var s := At(steps, i);
    steps[i].Advance? && steps[i].id in s.calls && s.calls[steps[i].id].pc.Launch?
      && s.calls[steps[i].id].ids.key.task == t
  }

  /** Step i is the successful prepared-to-running update of task t. */
  predicate WinsTask(steps: seq<Step>, i: nat, t: Id)
    requires i < |steps|
  {
    var (s, s') := (At(steps, i), At(steps, i + 1));
    t in s.db.tasks && t in s'.db.tasks && s.db.tasks[t].state.Prepared? && s'.db.tasks[t].state.Running?
  }

  lemma OnwardNext(steps: seq<Step>, s: State, i: nat, t: Id)
    requires i < |steps| && t in s.db.tasks && Onward(s, At(steps, i), t)
    ensures Onward(s, At(steps, i + 1), t)
  {
    TaskNext(steps, i, t);
    OnwardStep(s, At(steps, i), At(steps, i + 1), t);
  }

  lemma {:induction false} LaunchesGrow(steps: seq<Step>, i: nat, j: nat, t: Id)
    requires i <= j <= |steps| && t in At(steps, i).db.tasks
    ensures Onward(At(steps, i), At(steps, j), t)
    decreases j - i
  {
    if i < j {
      LaunchesGrow(steps, i, j - 1, t);
      OnwardNext(steps, At(steps, i), j - 1, t);
    }
  }

  /** Launches are not undone, and a task that was started never waits again. */
  ghost predicate Onward(s: State, s': State, t: Id)
    requires t in s.db.tasks
  {
    && t in s'.db.tasks && s.launches[t] <= s'.launches[t]
    && (!Waiting(s.db.tasks[t].state) ==> !Waiting(s'.db.tasks[t].state))
  }

  predicate Waiting(state: TaskState) { state.Prepared? || state.Draft? }

  lemma OnwardStep(s: State, s': State, s'': State, t: Id)
    requires t in s.db.tasks && Onward(s, s', t) && TaskMoves(s', s'', t)
    ensures Onward(s, s'', t)
  {
  }

  /** A task with a winner was won by some step. */
  lemma {:induction false} WinHappened(steps: seq<Step>, j: nat, t: Id) returns (i: nat)
    requires j <= |steps| && t in At(steps, j).winner
    ensures i < j && WinsTask(steps, i, t)
  {
    if j > 0 && t in At(steps, j - 1).winner {
      i := WinHappened(steps, j - 1, t);
    } else if j > 0 {
      i := j - 1;
      AtNext(steps, i);
      NewWinnerWins(At(steps, i), steps[i], t);
    }
  }

  lemma NewWinnerWins(s: State, step: Step, t: Id)
    requires Inv(s) && t !in s.winner && t in Apply(s, step).winner
    ensures var s' := Apply(s, step);
            t in s.db.tasks && t in s'.db.tasks && s.db.tasks[t].state.Prepared? && s'.db.tasks[t].state.Running?
  {
    var ofCall, id, m := StepKinds(s, step);
    if ofCall {
      assert m.effect.Win? && m.call.ids.key.task == t;
    }
  }

  /** Over any run, a task is moved to running at most once and Codex is started for it at most once;
      every start comes after that update, and none before. */
  lemma CodexStartsAtMostOnce(steps: seq<Step>, i: nat, j: nat, t: Id)
    requires i < j < |steps|
    ensures !(WinsTask(steps, i, t) && WinsTask(steps, j, t))
    ensures !(StartsCodex(steps, i, t) && StartsCodex(steps, j, t))
    ensures !(StartsCodex(steps, i, t) && WinsTask(steps, j, t))
    ensures StartsCodex(steps, j, t) ==> exists k | 0 <= k < j :: WinsTask(steps, k, t)
  {
    if StartsCodex(steps, j, t) {
      var k := StartWasWon(steps, j, t);
    }
    AtNext(steps, i);
    if WinsTask(steps, i, t) {
      LaunchesGrow(steps, i + 1, j, t);
    }
    if StartsCodex(steps, i, t) {
      LaunchCounts(steps, i, t);
      LaunchesGrow(steps, i + 1, j, t);
      if StartsCodex(steps, j, t) {
        LaunchCounts(steps, j, t);
      }
    }
  }

  lemma StartWasWon(steps: seq<Step>, j: nat, t: Id) returns (i: nat)
    requires j < |steps| && StartsCodex(steps, j, t)
    ensures i < j && WinsTask(steps, i, t)
  {
    AtNext(steps, j);
    assert CallOk(At(steps, j), steps[j].id);
    i := WinHappened(steps, j, t);
  }

  lemma LaunchCounts(steps: seq<Step>, i: nat, t: Id)
    requires i < |steps| && StartsCodex(steps, i, t)
    ensures At(steps, i).launches[t] == 0 && At(steps, i + 1).launches[t] == 1
    ensures t in At(steps, i + 1).db.tasks && !Waiting(At(steps, i + 1).db.tasks[t].state)
  {
    AtNext(steps, i);
    LaunchStep(At(steps, i), steps[i].id, steps[i].input);
  }

  lemma LaunchStep(s: State, id: CallId, x: Input)
    requires Inv(s) && id in s.calls && s.calls[id].pc.Launch?
    ensures var (s', t) := (Apply(s, Advance(id, x)), s.calls[id].ids.key.task);
            && s.launches[t] == 0 && s'.launches[t] == 1
            && t in s'.db.tasks && !Waiting(s'.db.tasks[t].state)
  {
    var c := s.calls[id];
    assert CallOk(s, id) && TaskOk(s, c.ids.key.task);
    assert Main(c, s.db, x) == Moved(c.(pc := CodexRunning), StartCodex);
  }

  /** A recorded success is a real one: a completed claim implies its task is completed or partial. */
  lemma CompletedClaimMeansSucceededTask(steps: seq<Step>, k: RunKey)
    requires k in Exec(steps).db.claims && Exec(steps).db.claims[k].status.Completed?
    ensures k.task in Exec(steps).db.tasks && Succeeded(Exec(steps).db.tasks[k.task].state)
  {
    Reachable(steps);
    assert ClaimOk(Exec(steps).db, k);
  }

  // ---- the project lock --------------------------------------------------------------------------

  /** The call that drew this lock id is past acquiring, and does not hold the lock. */
  ghost predicate Gone(s: State, p: Id, id: CallId) {
    id in s.calls && !s.calls[id].pc.Acquire? && !HoldsLock(s.db.locks, p, s.calls[id].ids.lockId, s.db.now)
  }

  lemma GoneStays(s: State, step: Step, p: Id, id: CallId)
    requires Inv(s) && Gone(s, p, id)
    ensures Gone(Apply(s, step), p, id) && Apply(s, step).calls[id].ids == s.calls[id].ids
  {
    var ofCall, mover, m := StepKinds(s, step);
    if ofCall {
      GoneAfterMove(s, mover, m, p, id);
    }
  }

  lemma GoneAfterMove(s: State, mover: CallId, m: Moved, p: Id, id: CallId)
    requires IdsOk(s) && mover in s.calls && Kept(s.calls[mover], s.db, m) && Gone(s, p, id)
    ensures Gone(Commit(s, mover, m), p, id) && Commit(s, mover, m).calls[id].ids == s.calls[id].ids
  {
    NotHeldAfter(s.calls[mover], s.db, m, p, s.calls[id].ids.lockId);
    assert Commit(s, mover, m).db == After(s.db, m.effect);
  }

  /** A lock id that does not hold a lock gets it only by the acquiring step of its own call. */
  lemma NotHeldAfter(c: Call, db: Db, m: Moved, p: Id, lockId: Id)
    requires Bounded(c, db, m) && !HoldsLock(db.locks, p, lockId, db.now) && (c.pc.Acquire? ==> c.ids.lockId != lockId)
    ensures !HoldsLock(After(db, m.effect).locks, p, lockId, db.now)
  {
  }

  lemma {:induction false} GoneForever(steps: seq<Step>, i: nat, j: nat, p: Id, id: CallId)
    requires i <= j <= |steps| && Gone(At(steps, i), p, id)
    ensures Gone(At(steps, j), p, id) && At(steps, j).calls[id].ids == At(steps, i).calls[id].ids
    decreases j - i
  {
    if i < j {
      GoneNext(steps, i, p, id);
      GoneForever(steps, i + 1, j, p, id);
    }
  }

  lemma GoneNext(steps: seq<Step>, i: nat, p: Id, id: CallId)
    requires i < |steps| && Gone(At(steps, i), p, id)
    ensures Gone(At(steps, i + 1), p, id) && At(steps, i + 1).calls[id].ids == At(steps, i).calls[id].ids
  {
    AtNext(steps, i);
    GoneStays(At(steps, i), steps[i], p, id);
  }

  /** A call keeps its ids and never goes back to acquiring. */
  lemma {:induction false} CallPersists(steps: seq<Step>, i: nat, j: nat, id: CallId)
    requires i <= j <= |steps| && id in At(steps, i).calls
    ensures CallMoves(At(steps, i), At(steps, j), id)
    decreases j - i
  {
    if i < j {
      CallPersists(steps, i, j - 1, id);
      CallOnward(steps, At(steps, i), j - 1, id);
    }
  }

  lemma CallOnward(steps: seq<Step>, s: State, i: nat, id: CallId)
    requires i < |steps| && id in s.calls && CallMoves(s, At(steps, i), id)
    ensures CallMoves(s, At(steps, i + 1), id)
  {
    CallNext(steps, i, id);
    CallMovesOn(s, At(steps, i), At(steps, i + 1), id);
  }

  lemma CallMovesOn(s: State, s': State, s'': State, id: CallId)
    requires id in s.calls && CallMoves(s, s', id) && CallMoves(s', s'', id)
    ensures CallMoves(s, s'', id)
  {
  }

  lemma CallNext(steps: seq<Step>, i: nat, id: CallId)
    requires i < |steps| && id in At(steps, i).calls
    ensures CallMoves(At(steps, i), At(steps, i + 1), id)
  {
    AtNext(steps, i);
    CallStep(At(steps, i), steps[i], id);
  }

  ghost predicate CallMoves(s: State, s': State, id: CallId)
    requires id in s.calls
  {
    && id in s'.calls && s'.calls[id].ids == s.calls[id].ids
    && (s'.calls[id].pc.Acquire? ==> s.calls[id].pc.Acquire?)
    && (Claiming(s'.calls[id].pc) ==> Claiming(s.calls[id].pc))
  }

  lemma CallStep(s: State, step: Step, id: CallId)
    requires Inv(s) && id in s.calls
    ensures CallMoves(s, Apply(s, step), id)
  {
    var ofCall, mover, m := StepKinds(s, step);
    if ofCall {
      CallMove(s, mover, m, id);
    }
  }

  lemma CallMove(s: State, mover: CallId, m: Moved, id: CallId)
    requires id in s.calls && mover in s.calls && Bounded(s.calls[mover], s.db, m)
    ensures CallMoves(s, Commit(s, mover, m), id)
  {
    assert Commit(s, mover, m).calls == s.calls[mover := m.call];
  }

  ghost predicate Holds(s: State, p: Id, id: CallId) {
    id in s.calls && HoldsLock(s.db.locks, p, s.calls[id].ids.lockId, s.db.now)
  }

  /** The time a call holds the lock of a project is one interval, and the intervals of different
      calls never overlap: nobody else holds the lock between two moments at which a call holds it. */
  lemma LockIntervalsAreDisjoint(steps: seq<Step>, i: nat, j: nat, k: nat, p: Id, a: CallId, b: CallId)
    requires i <= j <= k <= |steps|
    requires Holds(At(steps, i), p, a) && Holds(At(steps, k), p, a)
    ensures Holds(At(steps, j), p, a)
    ensures Holds(At(steps, j), p, b) ==> a == b
  {
    Reachable(steps[..i]);
    Reachable(steps[..j]);
    assert CallOk(At(steps, i), a);
    CallPersists(steps, i, j, a);
    if !Holds(At(steps, j), p, a) {
      GoneForever(steps, j, k, p, a);
    }
  }

  /** While a call holds the lock, no step of another call touches the row: neither an attempt to
      acquire it nor the renewals and the release of a call that failed to acquire it. */
  lemma NonHolderChangesNothing(steps: seq<Step>, p: Id, holder: CallId, other: CallId, step: Step)
    requires Holds(Exec(steps), p, holder) && other in Exec(steps).calls && other != holder && StepOf(step, other)
    ensures var s' := Apply(Exec(steps), step);
            p in s'.db.locks && s'.db.locks[p] == Exec(steps).db.locks[p]
  {
    Reachable(steps);
    var s := Exec(steps);
    var m := OwnStepKept(s, other, step);
    HeldRowStays(s.calls[other], s.db, m, p, s.calls[holder].ids.lockId);
    assert Commit(s, other, m).db == After(s.db, m.effect);
  }

  lemma HeldRowStays(c: Call, db: Db, m: Moved, p: Id, lockId: Id)
    requires Bounded(c, db, m) && HoldsLock(db.locks, p, lockId, db.now) && c.ids.lockId != lockId
    ensures p in After(db, m.effect).locks && After(db, m.effect).locks[p] == db.locks[p]
  {
  }

  // ---- the idempotency claim ---------------------------------------------------------------------

  /** absent, in_progress, then completed or failed; a new owner only after the lease ran out; the
      response written once, by the owner, when the claim is closed. */
  ghost predicate ClaimMoves(before: ClaimRow, after: ClaimRow, now: int) {
    && (!before.status.InProgress? ==> after == before)
    && (after.claimId != before.claimId ==>
      before.status.InProgress? && after.status.InProgress? && Expired(before.leaseExpiresAt, now))
    && (after.response != before.response ==>
      before.status.InProgress? && !after.status.InProgress? && after.claimId == before.claimId)
  }

  lemma ClaimStep(s: State, step: Step, k: RunKey)
    requires Inv(s)
    ensures var s' := Apply(s, step);
            if k in s.db.claims then k in s'.db.claims && ClaimMoves(s.db.claims[k], s'.db.claims[k], s.db.now)
            else k in s'.db.claims ==> s'.db.claims[k].status.InProgress? && s'.db.claims[k].response == Empty
  {
    var ofCall, id, m := StepKinds(s, step);
    if ofCall {
      ClaimEffect(s.calls[id], s.db, m, k);
      assert Commit(s, id, m).db == After(s.db, m.effect);
    }
  }

  lemma ClaimEffect(c: Call, db: Db, m: Moved, k: RunKey)
    requires LocalOk(c, db) && Bounded(c, db, m)
    ensures if k in db.claims
            then k in After(db, m.effect).claims && ClaimMoves(db.claims[k], After(db, m.effect).claims[k], db.now)
            else k in After(db, m.effect).claims ==>
              After(db, m.effect).claims[k].status.InProgress? && After(db, m.effect).claims[k].response == Empty
  {
  }

  /** Once a claim is terminal its row, response included, never changes again. */
  lemma {:induction false} TerminalClaimIsForever(steps: seq<Step>, i: nat, j: nat, k: RunKey)
    requires i <= j <= |steps| && k in At(steps, i).db.claims && !At(steps, i).db.claims[k].status.InProgress?
    ensures k in At(steps, j).db.claims && At(steps, j).db.claims[k] == At(steps, i).db.claims[k]
    decreases j - i
  {
    if i < j {
      TerminalClaimIsForever(steps, i, j - 1, k);
      ClaimNext(steps, j - 1, k);
    }
  }

  lemma ClaimNext(steps: seq<Step>, i: nat, k: RunKey)
    requires i < |steps| && k in At(steps, i).db.claims
    ensures k in At(steps, i + 1).db.claims
    ensures ClaimMoves(At(steps, i).db.claims[k], At(steps, i + 1).db.claims[k], At(steps, i).db.now)
  {
    AtNext(steps, i);
    ClaimStep(At(steps, i), steps[i], k);
  }

  /** From the moment a claim is terminal, a call that claims its key gets the recorded response. */
  lemma LaterClaimsReplay(steps: seq<Step>, i: nat, j: nat, id: CallId, x: Input)
    requires i <= j <= |steps| && id in At(steps, j).calls && x.fault.NoFault?
    requires var k := At(steps, j).calls[id].ids.key;
             k in At(steps, i).db.claims && !At(steps, i).db.claims[k].status.InProgress?
    ensures var (s, s') := (At(steps, j), Apply(At(steps, j), Advance(id, x)));
            var k := s.calls[id].ids.key;
            && (s.calls[id].pc.ClaimInsert? ==> s'.calls[id].pc.ClaimSelect? && s'.db == s.db)
            && (s.calls[id].pc.ClaimSelect? ==>
                  s'.calls[id].pc.Finally? && s'.calls[id].reply == Some(At(steps, i).db.claims[k].response)
                    && s'.db == s.db)
            && (s.calls[id].pc.ClaimReclaim? ==> s'.calls[id].pc.Finally? && s'.db.claims == s.db.claims)
  {
    TerminalClaimIsForever(steps, i, j, At(steps, j).calls[id].ids.key);
    ClosedClaimReplays(At(steps, j), id, x);
  }

  lemma ClosedClaimReplays(s: State, id: CallId, x: Input)
    requires id in s.calls && x.fault.NoFault?
    requires var k := s.calls[id].ids.key; k in s.db.claims && !s.db.claims[k].status.InProgress?
    ensures var (s', k) := (Apply(s, Advance(id, x)), s.calls[id].ids.key);
            && (s.calls[id].pc.ClaimInsert? ==> s'.calls[id].pc.ClaimSelect? && s'.db == s.db)
            && (s.calls[id].pc.ClaimSelect? ==>
                  s'.calls[id].pc.Finally? && s'.calls[id].reply == Some(s.db.claims[k].response) && s'.db == s.db)
            && (s.calls[id].pc.ClaimReclaim? ==> s'.calls[id].pc.Finally? && s'.db.claims == s.db.claims)
  {
  }

  /** A call whose claim was taken over never renews, completes or fails it again. */
  lemma SupersededClaimIsPowerless(steps: seq<Step>, i: nat, j: nat, id: CallId)
    requires i <= j < |steps| && id in At(steps, i).calls
    requires var (k, own) := (At(steps, i).calls[id].ids.key, At(steps, i).calls[id].ids.claimId);
             && k in At(steps, i).db.claims && At(steps, i).db.claims[k].claimId == own
             && k in At(steps, j).db.claims && At(steps, j).db.claims[k].claimId != own
    requires StepOf(steps[j], id)
    ensures At(steps, j + 1).db.claims == At(steps, j).db.claims
  {
    Reachable(steps[..i]);
    assert CallOk(At(steps, i), id);
    CallPersists(steps, i, j, id);
    AtNext(steps, j);
    var s := At(steps, j);
    var m := OwnStepKept(s, id, steps[j]);
    StrangerLeavesClaims(s.calls[id], s.db, m);
    assert Commit(s, id, m).db == After(s.db, m.effect);
  }

  lemma StrangerLeavesClaims(c: Call, db: Db, m: Moved)
    requires Bounded(c, db, m) && !Claiming(c.pc) && c.ids.key in db.claims
    requires db.claims[c.ids.key].claimId != c.ids.claimId
    ensures After(db, m.effect).claims == db.claims
  {
  }

  /** And the claim never comes back to it. */
  lemma {:induction false} SupersededIsForever(steps: seq<Step>, i: nat, j: nat, id: CallId)
    requires i <= j <= |steps| && Superseded(At(steps, i), id)
    ensures Superseded(At(steps, j), id)
    decreases j - i
  {
    if i < j {
      SupersededIsForever(steps, i, j - 1, id);
      SupersededNext(steps, j - 1, id);
    }
  }

  lemma SupersededNext(steps: seq<Step>, i: nat, id: CallId)
    requires i < |steps| && Superseded(At(steps, i), id)
    ensures Superseded(At(steps, i + 1), id)
  {
    AtNext(steps, i);
    SupersededStep(At(steps, i), steps[i], id);
  }

  ghost predicate Superseded(s: State, id: CallId) {
    id in s.calls && !Claiming(s.calls[id].pc) && ClaimedByOther(s, s.calls[id].ids)
  }

  ghost predicate ClaimedByOther(s: State, ids: Ids) {
    ids.key in s.db.claims && s.db.claims[ids.key].claimId != ids.claimId
  }

  lemma SupersededStep(s: State, step: Step, id: CallId)
    requires Inv(s) && Superseded(s, id)
    ensures Superseded(Apply(s, step), id)
  {
    var ofCall, mover, m := StepKinds(s, step);
    if ofCall {
      CallMove(s, mover, m, id);
      StaysClaimedByOther(s, mover, m, id);
    }
  }

  lemma StaysClaimedByOther(s: State, mover: CallId, m: Moved, id: CallId)
    requires IdsOk(s) && mover in s.calls && id in s.calls && Kept(s.calls[mover], s.db, m)
    requires ClaimedByOther(s, s.calls[id].ids) && !Claiming(s.calls[id].pc)
    ensures ClaimedByOther(Commit(s, mover, m), s.calls[id].ids)
  {
    assert Commit(s, mover, m).db == After(s.db, m.effect);
    if mover == id {
      StrangerLeavesClaims(s.calls[id], s.db, m);
    } else {
      NotClaimedAfter(s.calls[mover], s.db, m, s.calls[id].ids);
    }
  }

  lemma NotClaimedAfter(c: Call, db: Db, m: Moved, ids: Ids)
    requires Bounded(c, db, m) && c.ids.claimId != ids.claimId && ids.key in db.claims
    requires db.claims[ids.key].claimId != ids.claimId
    ensures ids.key in After(db, m.effect).claims && After(db, m.effect).claims[ids.key].claimId != ids.claimId
  {
  }
}
