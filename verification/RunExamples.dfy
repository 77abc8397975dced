/** Concrete runs, from the empty database: one that goes well, and the inputs at which a run does not end as one
    would hope: a task stuck in running, a claim left open, a lease reported as lost that never was. */
module RunExamples {
  import opened Prelude
  import opened Persistence
  import CodexRunner
  import opened Outcome
  import opened RunProtocol
  import opened RunInvariant
  import opened RunTheorems
  import opened TaskOwners
  import opened OpenClaims
  import opened Cleanup
  import opened Heartbeats

  // ---- extending a run -------------------------------------------------------------------------

  /** The clean-up of the call meets no database error, and its heartbeat neither error nor delay. */
  ghost predicate Smooth(steps: seq<Step>, id: CallId) { CleanedUp(steps, id) && PunctualRun(steps, id) }

  ghost predicate SmoothStep(s: State, step: Step, id: CallId) {
    && UndisturbedCleanup(s, step, id) && Undisturbed(step, id)
    && PunctualIn(Apply(s, step), id)
  }

  lemma SamePast(steps: seq<Step>, step: Step, i: nat)
    requires i <= |steps|
    ensures At(steps + [step], i) == At(steps, i)
  {
    assert (steps + [step])[..i] == steps[..i];
  }

  lemma ExtendExec(steps: seq<Step>, step: Step)
    ensures Exec(steps + [step]) == Apply(Exec(steps), step)
    ensures At(steps + [step], |steps| + 1) == Exec(steps + [step]) && At(steps, |steps|) == Exec(steps)
  {
    var more := steps + [step];
    assert more[..|more| - 1] == steps && more[..|more|] == more && steps[..|steps|] == steps;
  }

  lemma ExtendCleanedUp(steps: seq<Step>, step: Step, id: CallId)
    requires CleanedUp(steps, id) && UndisturbedCleanup(Exec(steps), step, id)
    ensures CleanedUp(steps + [step], id)
  {
    var more := steps + [step];
    ExtendExec(steps, step);
    forall i: nat | i < |more| ensures UndisturbedCleanup(At(more, i), more[i], id) {
      SamePast(steps, step, i);
      if i < |steps| {
        assert UndisturbedCleanup(At(steps, i), steps[i], id);
      }
    }
  }

  lemma ExtendPunctual(steps: seq<Step>, step: Step, id: CallId)
    requires PunctualRun(steps, id) && Undisturbed(step, id) && PunctualIn(Exec(steps + [step]), id)
    ensures PunctualRun(steps + [step], id)
  {
    var more := steps + [step];
    forall i: nat | i <= |more| ensures PunctualIn(At(more, i), id) {
      PunctualAt(steps, step, id, i);
    }
  }

  lemma PunctualAt(steps: seq<Step>, step: Step, id: CallId, i: nat)
    requires PunctualRun(steps, id) && PunctualIn(Exec(steps + [step]), id) && i <= |steps| + 1
    ensures PunctualIn(At(steps + [step], i), id)
  {
    if i <= |steps| {
      SamePast(steps, step, i);
      assert PunctualIn(At(steps, i), id);
    } else {
      ExtendExec(steps, step);
    }
  }

  lemma Extend(steps: seq<Step>, step: Step, id: CallId)
    requires Smooth(steps, id) && SmoothStep(Exec(steps), step, id)
    ensures Smooth(steps + [step], id) && Exec(steps + [step]) == Apply(Exec(steps), step)
  {
    ExtendExec(steps, step);
    ExtendCleanedUp(steps, step, id);
    ExtendPunctual(steps, step, id);
  }

  /** The state `s` with call `id` where it stands now. */
  function With(s: State, id: CallId, c: Call, db: Db): State { s.(calls := s.calls[id := c], db := db) }

  lemma CommitWith(s: State, id: CallId, c: Call, db: Db, m: Moved)
    requires !m.effect.Win? && !m.effect.StartCodex?
    ensures Commit(With(s, id, c, db), id, m) == With(s, id, m.call, After(db, m.effect))
  {
    assert s.calls[id := c][id := m.call] == s.calls[id := m.call];
  }

  /** One more step of call `id`, in a run that is smooth for call `w`: for `id` itself, or a call yet to come. */
  lemma Advances(steps: seq<Step>, w: CallId, s: State, id: CallId, c: Call, db: Db, x: Input, m: Moved)
    requires Smooth(steps, w) && (w == id || w !in s.calls) && Exec(steps) == With(s, id, c, db)
    requires m == Main(c, db, x) && !m.effect.Win? && !m.effect.StartCodex?
    requires Punctual(m.call, After(db, m.effect)) && (CleansUp(c.pc) ==> x.fault.NoFault?)
    ensures Smooth(steps + [Advance(id, x)], w)
    ensures Exec(steps + [Advance(id, x)]) == With(s, id, m.call, After(db, m.effect))
  {
    CommitWith(s, id, c, db, m);
    Extend(steps, Advance(id, x), w);
  }

  lemma Tends(steps: seq<Step>, w: CallId, s: State, id: CallId, c: Call, db: Db, beat: BeatStep, m: Moved)
    requires Smooth(steps, w) && (w == id || w !in s.calls) && Exec(steps) == With(s, id, c, db)
    requires m == Tend(c, db, beat, NoFault) && !m.effect.Win? && !m.effect.StartCodex?
    requires Punctual(m.call, After(db, m.effect))
    ensures Smooth(steps + [Renew(id, beat, NoFault)], w)
    ensures Exec(steps + [Renew(id, beat, NoFault)]) == With(s, id, m.call, After(db, m.effect))
  {
    CommitWith(s, id, c, db, m);
    Extend(steps, Renew(id, beat, NoFault), w);
  }

  // ---- from the start of a call to its validation ----------------------------------------------

  const NO_REVIEW := ClassifierInput(0, [], Skipped, true, None)

  function Plainly(fault: Fault, commandValid: bool): Input { Input(fault, commandValid, false, [], NO_REVIEW) }

  const FINE := Plainly(NoFault, true)

  /** A call may start: its ids are fresh, its task is there, its project is not locked and its key not claimed. */
  predicate MayStart(s: State, id: CallId, ids: Ids) {
    && id !in s.calls && ids.key.task in s.db.tasks && ids.lockId != ids.claimId
    && ids.lockId !in s.usedIds && ids.claimId !in s.usedIds
    && ids.key.project !in s.db.locks && ids.key !in s.db.claims
  }

  function NewCall(ids: Ids, now: int): Call {
    Call(Acquire, ids, false, false, false, false, now, NO_EXECUTION, TaskBlocked, false, None, QUIET,
         Seen(false, now, now))
  }

  function Drawn(s: State, ids: Ids): State { s.(usedIds := s.usedIds + {ids.lockId, ids.claimId}) }

  function Locked(db: Db, ids: Ids): Db {
    db.(locks := db.locks[ids.key.project := LockRow(ids.lockId, db.now, db.now, db.now + LOCK_TTL)])
  }

  function LockedAndClaimed(db: Db, ids: Ids): Db {
    Locked(db, ids).(claims := db.claims[ids.key := ClaimRow(InProgress, Empty, ids.claimId, Some(db.now + LOCK_TTL))])
  }

  /** The call once its first tick is over. */
  function ReadyCall(ids: Ids, now: int): Call {
    NewCall(ids, now).(pc := Validate, hasClaim := true, beat := QUIET.(timer := true), seen := Seen(true, now, now))
  }

  lemma Starts(steps: seq<Step>, w: CallId, id: CallId, ids: Ids)
    requires Smooth(steps, w) && (w == id || w !in Exec(steps).calls) && MayStart(Exec(steps), id, ids)
    ensures var (s, more) := (Exec(steps), steps + [Start(id, ids)]);
            Smooth(more, w) && Exec(more) == With(Drawn(s, ids), id, NewCall(ids, s.db.now), s.db)
  {
    var s := Exec(steps);
    assert Apply(s, Start(id, ids)) == With(Drawn(s, ids), id, NewCall(ids, s.db.now), s.db);
    Extend(steps, Start(id, ids), w);
  }

  function HoldingCall(ids: Ids, now: int): Call { NewCall(ids, now).(pc := ClaimInsert, seen := Seen(true, now, now)) }

  function ClaimedCall(ids: Ids, now: int): Call { HoldingCall(ids, now).(pc := BeatStart, hasClaim := true) }

  function Beating(ids: Ids, now: int, beat: Option<Beat>): Call {
    ClaimedCall(ids, now).(pc := BeatWait, beat := QUIET.(inFlight := beat))
  }

  lemma AcquireMoves(ids: Ids, db: Db)
    requires ids.key.project !in db.locks
    ensures Main(NewCall(ids, db.now), db, FINE) == Moved(HoldingCall(ids, db.now), SetLocks(Locked(db, ids).locks))
  {
  }

  lemma InsertMoves(ids: Ids, db: Db)
    requires ids.key !in db.claims
    ensures Main(HoldingCall(ids, db.now), Locked(db, ids), FINE)
         == Moved(ClaimedCall(ids, db.now), SetClaims(LockedAndClaimed(db, ids).claims))
  {
  }

  lemma Acquires(steps: seq<Step>, w: CallId, id: CallId, ids: Ids) returns (more: seq<Step>)
    requires Smooth(steps, w) && (w == id || w !in Exec(steps).calls) && MayStart(Exec(steps), id, ids)
    ensures var s := Exec(steps);
            Smooth(more, w) && Exec(more) == With(Drawn(s, ids), id, HoldingCall(ids, s.db.now), Locked(s.db, ids))
  {
    var s := Exec(steps);
    Starts(steps, w, id, ids);
    AcquireMoves(ids, s.db);
    more := steps + [Start(id, ids)];
    Advances(more, w, Drawn(s, ids), id, NewCall(ids, s.db.now), s.db, FINE,
             Moved(HoldingCall(ids, s.db.now), SetLocks(Locked(s.db, ids).locks)));
    more := more + [Advance(id, FINE)];
  }

  lemma Claims(steps: seq<Step>, w: CallId, id: CallId, ids: Ids) returns (more: seq<Step>)
    requires Smooth(steps, w) && (w == id || w !in Exec(steps).calls) && MayStart(Exec(steps), id, ids)
    ensures var s := Exec(steps);
            Smooth(more, w)
              && Exec(more) == With(Drawn(s, ids), id, ClaimedCall(ids, s.db.now), LockedAndClaimed(s.db, ids))
  {
    var s := Exec(steps);
    more := Acquires(steps, w, id, ids);
    InsertMoves(ids, s.db);
    Advances(more, w, Drawn(s, ids), id, HoldingCall(ids, s.db.now), Locked(s.db, ids), FINE,
             Moved(ClaimedCall(ids, s.db.now), SetClaims(LockedAndClaimed(s.db, ids).claims)));
    more := more + [Advance(id, FINE)];
  }

  /** A renewal at the moment the lease was taken changes nothing. */
  lemma RenewsInPlace(db: Db, ids: Ids)
    ensures var db' := LockedAndClaimed(db, ids);
            && RenewLock(db'.locks, ids.key.project, ids.lockId, db.now, LOCK_TTL) == (db'.locks, true)
            && RenewClaim(db'.claims, ids.key, ids.claimId, db.now, LOCK_TTL) == (db'.claims, true)
  {
    var db' := LockedAndClaimed(db, ids);
    assert db'.locks[ids.key.project := db'.locks[ids.key.project]] == db'.locks;
    assert db'.claims[ids.key := db'.claims[ids.key]] == db'.claims;
  }

  lemma TickMoves(db: Db, ids: Ids)
    ensures var (now, db') := (db.now, LockedAndClaimed(db, ids));
            && Tend(Beating(ids, now, Some(Beat(None, None))), db', RenewLockRow, NoFault)
               == Moved(Beating(ids, now, Some(Beat(Some(true), None))), SetLocks(db'.locks))
            && Tend(Beating(ids, now, Some(Beat(Some(true), None))), db', RenewClaimRow, NoFault)
               == Moved(Beating(ids, now, Some(Beat(Some(true), Some(true)))), SetClaims(db'.claims))
            && Tend(Beating(ids, now, Some(Beat(Some(true), Some(true)))), db', TickEnds, NoFault)
               == Moved(Beating(ids, now, None), Nothing)
  {
    RenewsInPlace(db, ids);
  }

  lemma Ticks(steps: seq<Step>, w: CallId, s: State, id: CallId, ids: Ids, db: Db) returns (more: seq<Step>)
    requires Smooth(steps, w) && (w == id || w !in s.calls)
    requires Exec(steps) == With(s, id, Beating(ids, db.now, Some(Beat(None, None))), LockedAndClaimed(db, ids))
    ensures Smooth(more, w) && Exec(more) == With(s, id, Beating(ids, db.now, None), LockedAndClaimed(db, ids))
  {
    var (now, db') := (db.now, LockedAndClaimed(db, ids));
    TickMoves(db, ids);
    var locked := Beating(ids, now, Some(Beat(Some(true), None)));
    var both := Beating(ids, now, Some(Beat(Some(true), Some(true))));
    Tends(steps, w, s, id, Beating(ids, now, Some(Beat(None, None))), db', RenewLockRow,
          Moved(locked, SetLocks(db'.locks)));
    more := steps + [Renew(id, RenewLockRow, NoFault)];
    Tends(more, w, s, id, locked, db', RenewClaimRow, Moved(both, SetClaims(db'.claims)));
    more := more + [Renew(id, RenewClaimRow, NoFault)];
    Tends(more, w, s, id, both, db', TickEnds, Moved(Beating(ids, now, None), Nothing));
    more := more + [Renew(id, TickEnds, NoFault)];
  }

  lemma BeatMoves(ids: Ids, now: int, db: Db)
    ensures Main(ClaimedCall(ids, now), db, FINE) == Moved(Beating(ids, now, Some(Beat(None, None))), Nothing)
    ensures Main(Beating(ids, now, None), db, FINE) == Moved(ReadyCall(ids, now), Nothing)
  {
  }

  lemma GetsReady(steps: seq<Step>, w: CallId, id: CallId, ids: Ids) returns (more: seq<Step>)
    requires Smooth(steps, w) && (w == id || w !in Exec(steps).calls) && MayStart(Exec(steps), id, ids)
    ensures var s := Exec(steps);
            Smooth(more, w)
              && Exec(more) == With(Drawn(s, ids), id, ReadyCall(ids, s.db.now), LockedAndClaimed(s.db, ids))
  {
    var (s, now) := (Exec(steps), Exec(steps).db.now);
    var (s', db') := (Drawn(s, ids), LockedAndClaimed(s.db, ids));
    more := Claims(steps, w, id, ids);
    BeatMoves(ids, now, db');
    Advances(more, w, s', id, ClaimedCall(ids, now), db', FINE,
             Moved(Beating(ids, now, Some(Beat(None, None))), Nothing));
    more := Ticks(more + [Advance(id, FINE)], w, s', id, ids, s.db);
    Advances(more, w, s', id, Beating(ids, now, None), db', FINE, Moved(ReadyCall(ids, now), Nothing));
    more := more + [Advance(id, FINE)];
  }

  // ---- and to its end --------------------------------------------------------------------------

  function Releasing(c: Call): Call { c.(pc := Release, beat := c.beat.(timer := false)) }
  function Ended(c: Call): Call { Releasing(c).(pc := Done) }

  function Unlocked(db: Db, ids: Ids): Db { db.(locks := ReleaseLock(db.locks, ids.key.project, ids.lockId)) }

  lemma LeaveMoves(c: Call, db: Db)
    requires c.pc.Finally? && c.beat.inFlight.None?
    ensures Main(c, db, FINE) == Moved(Releasing(c), Nothing)
    ensures Main(Releasing(c), db, FINE) == Moved(Ended(c), SetLocks(Unlocked(db, c.ids).locks))
  {
  }

  /** The end of the finally block: the heartbeat is stopped and the lock released. */
  lemma Leaves(steps: seq<Step>, w: CallId, s: State, id: CallId, c: Call, db: Db) returns (more: seq<Step>)
    requires Smooth(steps, w) && (w == id || w !in s.calls) && Exec(steps) == With(s, id, c, db)
    requires c.pc.Finally? && c.beat.inFlight.None?
    ensures Smooth(more, w) && Exec(more) == With(s, id, Ended(c), Unlocked(db, c.ids))
  {
    LeaveMoves(c, db);
    Advances(steps, w, s, id, c, db, FINE, Moved(Releasing(c), Nothing));
    more := steps + [Advance(id, FINE)];
    Advances(more, w, s, id, Releasing(c), db, FINE, Moved(Ended(c), SetLocks(Unlocked(db, c.ids).locks)));
    more := more + [Advance(id, FINE)];
  }

  // ---- a task stuck in running -----------------------------------------------------------------

  const KEY := RunKey("project", "task", "2024-01-01", "/repo", "main")
  const FIRST := Ids(KEY, "lock 1", "claim 1")

  /** A later call for the same task has another key. */
  const SECOND := Ids(KEY.(createdAt := "2024-01-02"), "lock 2", "claim 2")

  lemma EmptyRunIsSmooth(id: CallId)
    ensures Smooth([], id)
  {
    assert Exec([]).calls == map[];
  }

  /** The task is prepared: the run with which every example begins. */
  lemma TaskPrepared(w: CallId) returns (steps: seq<Step>)
    ensures steps == [PrepareTask("project", "task")] && Smooth(steps, w)
    ensures Exec(steps) == INIT.(db := INIT.db.(tasks := map["task" := TaskRow("project", Prepared)]))
  {
    var step := PrepareTask("project", "task");
    EmptyRunIsSmooth(w);
    assert Apply(INIT, step) == INIT.(db := INIT.db.(tasks := map["task" := TaskRow("project", Prepared)]));
    Extend([], step, w);
    steps := [step];
    assert [] + [step] == steps;
  }

  lemma ReadsItsState(steps: seq<Step>, w: CallId, s: State, id: CallId, ids: Ids, now: int, db: Db)
    returns (more: seq<Step>)
    requires Smooth(steps, w) && (w == id || w !in s.calls) && Exec(steps) == With(s, id, ReadyCall(ids, now), db)
    requires ids.key.task in db.tasks && db.tasks[ids.key.task].project == ids.key.project && now == db.now
    ensures Smooth(more, w)
    ensures var pc := if db.tasks[ids.key.task].state.Prepared? then MarkRunning else Finally;
            Exec(more) == With(s, id, ReadyCall(ids, now).(pc := pc), db)
  {
    var pc := if db.tasks[ids.key.task].state.Prepared? then MarkRunning else Finally;
    ReadMoves(ids, db, pc);
    Advances(steps, w, s, id, ReadyCall(ids, now), db, FINE, Moved(ReadyCall(ids, now).(pc := ReadState), Nothing));
    more := steps + [Advance(id, FINE)];
    Advances(more, w, s, id, ReadyCall(ids, now).(pc := ReadState), db, FINE,
             Moved(ReadyCall(ids, now).(pc := pc), Nothing));
    more := more + [Advance(id, FINE)];
  }

  lemma ReadMoves(ids: Ids, db: Db, pc: Pc)
    requires ids.key.task in db.tasks && db.tasks[ids.key.task].project == ids.key.project
    requires pc == if db.tasks[ids.key.task].state.Prepared? then MarkRunning else Finally
    ensures Main(ReadyCall(ids, db.now), db, FINE) == Moved(ReadyCall(ids, db.now).(pc := ReadState), Nothing)
    ensures Main(ReadyCall(ids, db.now).(pc := ReadState), db, FINE)
            == Moved(ReadyCall(ids, db.now).(pc := pc), Nothing)
  {
  }

  const LOST := Plainly(ThrowsAfter, true)

  function TaskStarted(ids: Ids, db: Db): Db {
    db.(tasks := db.tasks[ids.key.task := TaskRow(ids.key.project, Running)])
  }

  function WonFor(s: State, ids: Ids, id: CallId): State {
    s.(wins := s.wins + multiset{ids.key.task}, winner := s.winner[ids.key.task := id])
  }

  lemma WinMoves(ids: Ids, db: Db)
    requires ids.key.task in db.tasks && db.tasks[ids.key.task] == TaskRow(ids.key.project, Prepared)
    ensures Main(ReadyCall(ids, db.now).(pc := MarkRunning), db, LOST)
         == Moved(ReadyCall(ids, db.now).(pc := CatchFail), Win(TaskStarted(ids, db).tasks))
  {
  }

  /** The update takes effect and is answered with an exception. */
  lemma WinsUnaware(steps: seq<Step>, w: CallId, s: State, id: CallId, ids: Ids, db: Db)
    requires Smooth(steps, w) && (w == id || w !in s.calls)
    requires Exec(steps) == With(s, id, ReadyCall(ids, db.now).(pc := MarkRunning), db)
    requires ids.key.task in db.tasks && db.tasks[ids.key.task] == TaskRow(ids.key.project, Prepared)
    ensures Smooth(steps + [Advance(id, LOST)], w)
    ensures Exec(steps + [Advance(id, LOST)])
         == With(WonFor(s, ids, id), id, ReadyCall(ids, db.now).(pc := CatchFail), TaskStarted(ids, db))
  {
    WinMoves(ids, db);
    var (c, c') := (ReadyCall(ids, db.now).(pc := MarkRunning), ReadyCall(ids, db.now).(pc := CatchFail));
    assert s.calls[id := c][id := c'] == s.calls[id := c'];
    Extend(steps, Advance(id, LOST), w);
  }

  function ClaimFailed(ids: Ids, db: Db): Db {
    db.(claims := db.claims[ids.key := ClaimRow(Failed, Result(false, ExceptionThrown), ids.claimId, None)])
  }

  function FailedCall(ids: Ids, now: int, pc: Pc): Call { ReadyCall(ids, now).(pc := pc, claimClosed := true) }

  lemma CatchMoves(ids: Ids, db: Db)
    requires OwnsClaim(db.claims, ids.key, ids.claimId)
    ensures Main(ReadyCall(ids, db.now).(pc := CatchFail), db, FINE)
         == Moved(FailedCall(ids, db.now, CatchRead), SetClaims(ClaimFailed(ids, db).claims))
    ensures Main(FailedCall(ids, db.now, CatchRead), ClaimFailed(ids, db), FINE)
            == Moved(FailedCall(ids, db.now, Finally), Nothing)
  {
  }

  lemma Catches(steps: seq<Step>, w: CallId, s: State, id: CallId, ids: Ids, db: Db) returns (more: seq<Step>)
    requires Smooth(steps, w) && (w == id || w !in s.calls) && OwnsClaim(db.claims, ids.key, ids.claimId)
    requires Exec(steps) == With(s, id, ReadyCall(ids, db.now).(pc := CatchFail), db)
    requires db.now < ReadyCall(ids, db.now).seen.lockBeatAt + LOCK_TTL
    ensures Smooth(more, w)
    ensures Exec(more) == With(s, id, Ended(FailedCall(ids, db.now, Finally)), Unlocked(ClaimFailed(ids, db), ids))
  {
    CatchMoves(ids, db);
    Advances(steps, w, s, id, ReadyCall(ids, db.now).(pc := CatchFail), db, FINE,
             Moved(FailedCall(ids, db.now, CatchRead), SetClaims(ClaimFailed(ids, db).claims)));
    more := steps + [Advance(id, FINE)];
    Advances(more, w, s, id, FailedCall(ids, db.now, CatchRead), ClaimFailed(ids, db), FINE,
             Moved(FailedCall(ids, db.now, Finally), Nothing));
    more := more + [Advance(id, FINE)];
    more := Leaves(more, w, s, id, FailedCall(ids, db.now, Finally), ClaimFailed(ids, db));
  }

  /** What the database holds when the run of `ids` has been lost in this way. */
  function LostRun(ids: Ids, db: Db): Db {
    Unlocked(ClaimFailed(ids, TaskStarted(ids, LockedAndClaimed(db, ids))), ids)
  }

  lemma LosesRun(steps: seq<Step>, w: CallId, id: CallId, ids: Ids) returns (more: seq<Step>)
    requires Smooth(steps, w) && (w == id || w !in Exec(steps).calls) && MayStart(Exec(steps), id, ids)
    requires Exec(steps).db.tasks[ids.key.task] == TaskRow(ids.key.project, Prepared)
    ensures var s := Exec(steps);
            && Smooth(more, w)
            && Exec(more)
              == With(WonFor(Drawn(s, ids), ids, id), id, Ended(FailedCall(ids, s.db.now, Finally)), LostRun(ids, s.db))
  {
    var s := Exec(steps);
    var db' := LockedAndClaimed(s.db, ids);
    more := GetsReady(steps, w, id, ids);
    more := ReadsItsState(more, w, Drawn(s, ids), id, ids, s.db.now, db');
    WinsUnaware(more, w, Drawn(s, ids), id, ids, db');
    more := Catches(more + [Advance(id, LOST)], w, WonFor(Drawn(s, ids), ids, id), id, ids, TaskStarted(ids, db'));
  }

  /** The prepared-to-running update is committed and its answer lost: the task is moved and its log row is not
      written, say. The call closes its claim and ends, all its clean-up succeeds, and the task stays running. */
  lemma AnswerOfTheWinLost() returns (steps: seq<Step>)
    ensures CleanedUp(steps, 0) && 0 in Exec(steps).calls
    ensures var (s, c) := (Exec(steps), Exec(steps).calls[0]);
            && c.pc.Done? && WonBy(s, "task", 0) && Stuck(s, 0)
            && s.db.tasks == map["task" := TaskRow("project", Running)]
            && c.ids.key in s.db.claims && s.db.claims[c.ids.key].status.Failed?
  {
    steps := TaskPrepared(0);
    steps := LosesRun(steps, 0, 0, FIRST);
  }

  // ---- claims left open ------------------------------------------------------------------------

  /** A later call for that task takes the early return: it ends, and its claim stays open. */
  lemma StopsUnprepared(steps: seq<Step>, id: CallId, ids: Ids) returns (more: seq<Step>)
    requires Smooth(steps, id) && MayStart(Exec(steps), id, ids)
    requires var row := Exec(steps).db.tasks[ids.key.task]; row.project == ids.key.project && !row.state.Prepared?
    ensures var s := Exec(steps);
            && Smooth(more, id)
            && Exec(more) == With(Drawn(s, ids), id, Ended(ReadyCall(ids, s.db.now).(pc := Finally)),
                                  Unlocked(LockedAndClaimed(s.db, ids), ids))
  {
    var s := Exec(steps);
    var db' := LockedAndClaimed(s.db, ids);
    more := GetsReady(steps, id, id, ids);
    more := ReadsItsState(more, id, Drawn(s, ids), id, ids, s.db.now, db');
    more := Leaves(more, id, Drawn(s, ids), id, ReadyCall(ids, s.db.now).(pc := Finally), db');
  }

  lemma UnpreparedTaskLeavesClaim() returns (steps: seq<Step>)
    ensures CleanedUp(steps, 1) && 1 in Exec(steps).calls
    ensures var (s, c) := (Exec(steps), Exec(steps).calls[1]);
            && c.pc.Done? && c.hasClaim && !c.transitionStarted && Owns(c, s.db)
            && s.db.tasks == map["task" := TaskRow("project", Running)]
  {
    steps := TaskPrepared(1);
    steps := LosesRun(steps, 1, 0, FIRST);
    steps := StopsUnprepared(steps, 1, SECOND);
  }

  lemma InsertLost(ids: Ids, db: Db)
    requires ids.key !in db.claims
    ensures var c := HoldingCall(ids, db.now);
            && Main(c, Locked(db, ids), LOST) == Moved(c.(pc := CatchRead), SetClaims(LockedAndClaimed(db, ids).claims))
            && Main(c.(pc := CatchRead), LockedAndClaimed(db, ids), FINE) == Moved(c.(pc := Finally), Nothing)
  {
  }

  /** The claim is inserted and its answer lost: the call does not know that it has a claim to close. */
  lemma AnswerOfTheClaimLost() returns (steps: seq<Step>)
    ensures CleanedUp(steps, 0) && 0 in Exec(steps).calls
    ensures var (s, c) := (Exec(steps), Exec(steps).calls[0]); c.pc.Done? && !c.hasClaim && Owns(c, s.db)
  {
    steps := TaskPrepared(0);
    var s := Exec(steps);
    steps := Acquires(steps, 0, 0, FIRST);
    var c := HoldingCall(FIRST, s.db.now);
    var db' := LockedAndClaimed(s.db, FIRST);
    InsertLost(FIRST, s.db);
    Advances(steps, 0, Drawn(s, FIRST), 0, c, Locked(s.db, FIRST), LOST,
             Moved(c.(pc := CatchRead), SetClaims(db'.claims)));
    steps := steps + [Advance(0, LOST)];
    Advances(steps, 0, Drawn(s, FIRST), 0, c.(pc := CatchRead), db', FINE, Moved(c.(pc := Finally), Nothing));
    steps := Leaves(steps + [Advance(0, FINE)], 0, Drawn(s, FIRST), 0, c.(pc := Finally), db');
  }

  // ---- a claim reported as lost that was not ---------------------------------------------------

  const INVALID := Plainly(NoFault, false)

  function ClaimRefused(ids: Ids, db: Db): Db {
    db.(claims := db.claims[ids.key := ClaimRow(Failed, Result(false, InvalidConfiguration), ids.claimId, None)])
  }

  /** With an invalid configuration the call closes its claim; then its timer fires before it is stopped. */
  lemma RefusalMoves(ids: Ids, db: Db)
    requires OwnsClaim(db.claims, ids.key, ids.claimId)
    ensures var c := ReadyCall(ids, db.now);
            && Main(c, db, INVALID) == Moved(c.(pc := FailInvalid), Nothing)
            && Main(c.(pc := FailInvalid), db, FINE)
              == Moved(FailedCall(ids, db.now, Finally), SetClaims(ClaimRefused(ids, db).claims))
  {
  }

  function Ticking(ids: Ids, now: int): Call {
    FailedCall(ids, now, Finally).(beat := QUIET.(timer := true, inFlight := Some(Beat(None, None))))
  }

  lemma TimerMoves(ids: Ids, db: Db)
    ensures Tend(FailedCall(ids, db.now, Finally), db, TimerFires, NoFault) == Moved(Ticking(ids, db.now), Nothing)
  {
  }

  lemma TicksWhenClosed() returns (steps: seq<Step>)
    ensures PunctualRun(steps, 0) && 0 in Exec(steps).calls
    ensures var (s, c) := (Exec(steps), Exec(steps).calls[0]);
            && c.claimClosed && !c.aborted && !c.beat.claimLost && c.beat.inFlight == Some(Beat(None, None))
            && c.ids.key in s.db.claims && s.db.claims[c.ids.key].status.Failed?
  {
    steps := TaskPrepared(0);
    var s := Exec(steps);
    var (s', db', c) := (Drawn(s, FIRST), LockedAndClaimed(s.db, FIRST), ReadyCall(FIRST, s.db.now));
    steps := GetsReady(steps, 0, 0, FIRST);
    RefusalMoves(FIRST, db');
    Advances(steps, 0, s', 0, c, db', INVALID, Moved(c.(pc := FailInvalid), Nothing));
    steps := steps + [Advance(0, INVALID)];
    Advances(steps, 0, s', 0, c.(pc := FailInvalid), db', FINE,
             Moved(FailedCall(FIRST, s.db.now, Finally), SetClaims(ClaimRefused(FIRST, db').claims)));
    steps := steps + [Advance(0, FINE)];
    TimerMoves(FIRST, ClaimRefused(FIRST, db'));
    Tends(steps, 0, s', 0, FailedCall(FIRST, s.db.now, Finally), ClaimRefused(FIRST, db'), TimerFires,
          Moved(Ticking(FIRST, s.db.now), Nothing));
    steps := steps + [Renew(0, TimerFires, NoFault)];
  }

  /** The tick that begins there sets the flag and aborts the call, although no lease ever ran out. */
  lemma LateTickReportsALoss() returns (steps: seq<Step>)
    ensures PunctualRun(steps, 0) && 0 in Exec(steps).calls && 0 in WholeTick(Exec(steps), 0).calls
    ensures !Exec(steps).calls[0].aborted && !Exec(steps).calls[0].beat.claimLost
    ensures var c := WholeTick(Exec(steps), 0).calls[0]; c.beat.claimLost && c.aborted && Out(c.pc)
  {
    steps := TicksWhenClosed();
    TicksReportTheClose(steps, 0);
  }

  // ---- a run that goes well --------------------------------------------------------------------

  /** The child exits with 0; one file has changed and was reindexed without a warning. */
  const CLEAN_EXIT :=
    Input(NoFault, true, false, [CodexRunner.Close(Some(0))], ClassifierInput(1, [], Scoped, true, None))
  const CLEAN_RESULT := CodexRunner.ExecutionResult(true, false, Some(0), "", "", None)

  lemma CleanExitSettles()
    ensures CodexRunner.Settled(false, [CodexRunner.Close(Some(0))]) == Some(CLEAN_RESULT)
  {
    var events := [CodexRunner.Close(Some(0))];
    assert events[..0] == [];
    assert CodexRunner.Run(false, events) == CodexRunner.Handle(CodexRunner.Spawned(false), events[0]);
  }

  function RunCall(ids: Ids, now: int, pc: Pc): Call { ReadyCall(ids, now).(pc := pc, transitionStarted := true) }

  function RanCall(ids: Ids, now: int, pc: Pc): Call { RunCall(ids, now, pc).(exec := CLEAN_RESULT) }

  function ClosingCall(ids: Ids, now: int, pc: Pc): Call {
    RanCall(ids, now, pc).(final := TaskCompleted, resultOk := true)
  }

  function InState(ids: Ids, db: Db, state: TaskState): Db {
    db.(tasks := db.tasks[ids.key.task := TaskRow(ids.key.project, state)])
  }

  function ClaimCompleted(ids: Ids, db: Db): Db {
    db.(claims := db.claims[ids.key := ClaimRow(Completed, Result(true, ExecutionClosed), ids.claimId, None)])
  }

  function LaunchedFor(s: State, ids: Ids): State { s.(launches := s.launches + multiset{ids.key.task}) }

  lemma StartMoves(ids: Ids, db: Db)
    requires ids.key.task in db.tasks && db.tasks[ids.key.task] == TaskRow(ids.key.project, Prepared)
    ensures Main(ReadyCall(ids, db.now).(pc := MarkRunning), db, CLEAN_EXIT)
         == Moved(RunCall(ids, db.now, SnapshotBefore), Win(InState(ids, db, Running).tasks))
  {
  }

  lemma LaunchMoves(ids: Ids, db: Db)
    ensures Main(RunCall(ids, db.now, Launch), db, CLEAN_EXIT) == Moved(RunCall(ids, db.now, CodexRunning), StartCodex)
  {
  }

  lemma Wins(steps: seq<Step>, w: CallId, s: State, id: CallId, ids: Ids, db: Db)
    requires Smooth(steps, w) && (w == id || w !in s.calls)
    requires Exec(steps) == With(s, id, ReadyCall(ids, db.now).(pc := MarkRunning), db)
    requires ids.key.task in db.tasks && db.tasks[ids.key.task] == TaskRow(ids.key.project, Prepared)
    ensures Smooth(steps + [Advance(id, CLEAN_EXIT)], w)
    ensures Exec(steps + [Advance(id, CLEAN_EXIT)])
         == With(WonFor(s, ids, id), id, RunCall(ids, db.now, SnapshotBefore), InState(ids, db, Running))
  {
    var (c, c') := (ReadyCall(ids, db.now).(pc := MarkRunning), RunCall(ids, db.now, SnapshotBefore));
    StartMoves(ids, db);
    assert s.calls[id := c][id := c'] == s.calls[id := c'];
    Extend(steps, Advance(id, CLEAN_EXIT), w);
  }

  lemma Launches(steps: seq<Step>, w: CallId, s: State, id: CallId, ids: Ids, db: Db)
    requires Smooth(steps, w) && (w == id || w !in s.calls)
    requires Exec(steps) == With(s, id, RunCall(ids, db.now, Launch), db)
    ensures Smooth(steps + [Advance(id, CLEAN_EXIT)], w)
    ensures Exec(steps + [Advance(id, CLEAN_EXIT)])
         == With(LaunchedFor(s, ids), id, RunCall(ids, db.now, CodexRunning), db)
  {
    var (c, c') := (RunCall(ids, db.now, Launch), RunCall(ids, db.now, CodexRunning));
    LaunchMoves(ids, db);
    assert s.calls[id := c][id := c'] == s.calls[id := c'];
    Extend(steps, Advance(id, CLEAN_EXIT), w);
  }

  lemma HealthMoves(ids: Ids, now: int, db: Db)
    ensures Main(RunCall(ids, now, SnapshotBefore), db, CLEAN_EXIT) == Moved(RunCall(ids, now, Healthcheck), Nothing)
    ensures Main(RunCall(ids, now, Healthcheck), db, CLEAN_EXIT) == Moved(RunCall(ids, now, CheckAbort), Nothing)
    ensures Main(RunCall(ids, now, CheckAbort), db, CLEAN_EXIT) == Moved(RunCall(ids, now, Launch), Nothing)
  {
    CleanExitSettles();
  }

  lemma RunsUpToLaunch(steps: seq<Step>, w: CallId, s: State, id: CallId, ids: Ids, db: Db) returns (more: seq<Step>)
    requires Smooth(steps, w) && (w == id || w !in s.calls)
    requires Exec(steps) == With(s, id, RunCall(ids, db.now, SnapshotBefore), db)
    ensures Smooth(more, w) && Exec(more) == With(LaunchedFor(s, ids), id, RunCall(ids, db.now, CodexRunning), db)
  {
    var now := db.now;
    HealthMoves(ids, now, db);
    Advances(steps, w, s, id, RunCall(ids, now, SnapshotBefore), db, CLEAN_EXIT,
             Moved(RunCall(ids, now, Healthcheck), Nothing));
    more := steps + [Advance(id, CLEAN_EXIT)];
    Advances(more, w, s, id, RunCall(ids, now, Healthcheck), db, CLEAN_EXIT,
             Moved(RunCall(ids, now, CheckAbort), Nothing));
    more := more + [Advance(id, CLEAN_EXIT)];
    Advances(more, w, s, id, RunCall(ids, now, CheckAbort), db, CLEAN_EXIT, Moved(RunCall(ids, now, Launch), Nothing));
    more := more + [Advance(id, CLEAN_EXIT)];
    Launches(more, w, s, id, ids, db);
    more := more + [Advance(id, CLEAN_EXIT)];
  }

  lemma SettleMoves(ids: Ids, db: Db)
    requires ids.key.task in db.tasks && db.tasks[ids.key.task] == TaskRow(ids.key.project, Running)
    ensures Main(RunCall(ids, db.now, CodexRunning), db, CLEAN_EXIT)
            == Moved(RanCall(ids, db.now, MarkReconciling), Nothing)
    ensures Main(RanCall(ids, db.now, MarkReconciling), db, CLEAN_EXIT)
         == Moved(RanCall(ids, db.now, Reconcile), SetTasks(InState(ids, db, Reconciling).tasks))
  {
    CleanExitSettles();
  }

  lemma ReviewMoves(ids: Ids, db: Db)
    ensures Main(RanCall(ids, db.now, Reconcile), db, CLEAN_EXIT) == Moved(ClosingCall(ids, db.now, Persist), Nothing)
    ensures Main(ClosingCall(ids, db.now, Persist), db, CLEAN_EXIT)
            == Moved(ClosingCall(ids, db.now, CloseTask), Nothing)
  {
  }

  lemma CloseMoves(ids: Ids, db: Db)
    requires ids.key.task in db.tasks && db.tasks[ids.key.task] == TaskRow(ids.key.project, Reconciling)
    ensures Main(ClosingCall(ids, db.now, CloseTask), db, CLEAN_EXIT)
         == Moved(ClosingCall(ids, db.now, CloseOwnClaim), SetTasks(InState(ids, db, TaskCompleted).tasks))
  {
  }

  lemma CompleteMoves(ids: Ids, db: Db)
    requires OwnsClaim(db.claims, ids.key, ids.claimId)
    ensures Main(ClosingCall(ids, db.now, CloseOwnClaim), db, CLEAN_EXIT)
         == Moved(ClosingCall(ids, db.now, Finally).(claimClosed := true), SetClaims(ClaimCompleted(ids, db).claims))
  {
  }

  lemma Settles(steps: seq<Step>, w: CallId, s: State, id: CallId, ids: Ids, db: Db) returns (more: seq<Step>)
    requires Smooth(steps, w) && (w == id || w !in s.calls)
    requires ids.key.task in db.tasks && db.tasks[ids.key.task] == TaskRow(ids.key.project, Running)
    requires Exec(steps) == With(s, id, RunCall(ids, db.now, CodexRunning), db)
    ensures Smooth(more, w)
    ensures Exec(more) == With(s, id, RanCall(ids, db.now, Reconcile), InState(ids, db, Reconciling))
  {
    SettleMoves(ids, db);
    Advances(steps, w, s, id, RunCall(ids, db.now, CodexRunning), db, CLEAN_EXIT,
             Moved(RanCall(ids, db.now, MarkReconciling), Nothing));
    more := steps + [Advance(id, CLEAN_EXIT)];
    MarksReconciling(more, w, s, id, ids, db);
    more := more + [Advance(id, CLEAN_EXIT)];
  }

  lemma MarksReconciling(steps: seq<Step>, w: CallId, s: State, id: CallId, ids: Ids, db: Db)
    requires Smooth(steps, w) && (w == id || w !in s.calls)
    requires ids.key.task in db.tasks && db.tasks[ids.key.task] == TaskRow(ids.key.project, Running)
    requires Exec(steps) == With(s, id, RanCall(ids, db.now, MarkReconciling), db)
    ensures Smooth(steps + [Advance(id, CLEAN_EXIT)], w)
    ensures Exec(steps + [Advance(id, CLEAN_EXIT)])
         == With(s, id, RanCall(ids, db.now, Reconcile), InState(ids, db, Reconciling))
  {
    SettleMoves(ids, db);
    Advances(steps, w, s, id, RanCall(ids, db.now, MarkReconciling), db, CLEAN_EXIT,
             Moved(RanCall(ids, db.now, Reconcile), SetTasks(InState(ids, db, Reconciling).tasks)));
  }

  lemma Reviews(steps: seq<Step>, w: CallId, s: State, id: CallId, ids: Ids, db: Db) returns (more: seq<Step>)
    requires Smooth(steps, w) && (w == id || w !in s.calls)
    requires Exec(steps) == With(s, id, RanCall(ids, db.now, Reconcile), db)
    ensures Smooth(more, w) && Exec(more) == With(s, id, ClosingCall(ids, db.now, CloseTask), db)
  {
    ReviewMoves(ids, db);
    Advances(steps, w, s, id, RanCall(ids, db.now, Reconcile), db, CLEAN_EXIT,
             Moved(ClosingCall(ids, db.now, Persist), Nothing));
    more := steps + [Advance(id, CLEAN_EXIT)];
    Advances(more, w, s, id, ClosingCall(ids, db.now, Persist), db, CLEAN_EXIT,
             Moved(ClosingCall(ids, db.now, CloseTask), Nothing));
    more := more + [Advance(id, CLEAN_EXIT)];
  }

  lemma Closes(steps: seq<Step>, w: CallId, s: State, id: CallId, ids: Ids, db: Db) returns (more: seq<Step>)
    requires Smooth(steps, w) && (w == id || w !in s.calls) && OwnsClaim(db.claims, ids.key, ids.claimId)
    requires ids.key.task in db.tasks && db.tasks[ids.key.task] == TaskRow(ids.key.project, Reconciling)
    requires Exec(steps) == With(s, id, ClosingCall(ids, db.now, CloseTask), db)
    ensures Smooth(more, w)
    ensures Exec(more) == With(s, id, Ended(ClosingCall(ids, db.now, Finally).(claimClosed := true)),
                               Unlocked(ClaimCompleted(ids, InState(ids, db, TaskCompleted)), ids))
  {
    var (now, db') := (db.now, InState(ids, db, TaskCompleted));
    CloseMoves(ids, db);
    CompleteMoves(ids, db');
    Advances(steps, w, s, id, ClosingCall(ids, now, CloseTask), db, CLEAN_EXIT,
             Moved(ClosingCall(ids, now, CloseOwnClaim), SetTasks(db'.tasks)));
    more := steps + [Advance(id, CLEAN_EXIT)];
    Advances(more, w, s, id, ClosingCall(ids, now, CloseOwnClaim), db', CLEAN_EXIT,
             Moved(ClosingCall(ids, now, Finally).(claimClosed := true), SetClaims(ClaimCompleted(ids, db').claims)));
    more := more + [Advance(id, CLEAN_EXIT)];
    more := Leaves(more, w, s, id, ClosingCall(ids, now, Finally).(claimClosed := true), ClaimCompleted(ids, db'));
  }

  /** From every reachable state in which a call may start on a prepared task, it can run Codex and succeed: the
      task ends as completed, the claim too, and the lock is gone. */
  lemma CanSucceed(steps: seq<Step>, id: CallId, ids: Ids) returns (more: seq<Step>)
    requires Smooth(steps, id) && MayStart(Exec(steps), id, ids)
    requires Exec(steps).db.tasks[ids.key.task] == TaskRow(ids.key.project, Prepared)
    ensures Smooth(more, id) && id in Exec(more).calls && Exec(more).calls[id].pc.Done?
    ensures var (s, db) := (Exec(steps), Exec(more).db);
            && db.tasks == s.db.tasks[ids.key.task := TaskRow(ids.key.project, TaskCompleted)]
            && db.claims
              == s.db.claims[ids.key := ClaimRow(Completed, Result(true, ExecutionClosed), ids.claimId, None)]
            && db.locks == s.db.locks && Exec(more).launches == s.launches + multiset{ids.key.task}
  {
    var s := Exec(steps);
    var db' := LockedAndClaimed(s.db, ids);
    more := GetsReady(steps, id, id, ids);
    more := ReadsItsState(more, id, Drawn(s, ids), id, ids, s.db.now, db');
    Wins(more, id, Drawn(s, ids), id, ids, db');
    var s1 := WonFor(Drawn(s, ids), ids, id);
    more := RunsUpToLaunch(more + [Advance(id, CLEAN_EXIT)], id, s1, id, ids, InState(ids, db', Running));
    more := Settles(more, id, LaunchedFor(s1, ids), id, ids, InState(ids, db', Running));
    more := Reviews(more, id, LaunchedFor(s1, ids), id, ids, InState(ids, InState(ids, db', Running), Reconciling));
    more := Closes(more, id, LaunchedFor(s1, ids), id, ids, InState(ids, InState(ids, db', Running), Reconciling));
    SameTables(s.db, ids);
  }

  lemma SameTables(db: Db, ids: Ids)
    requires ids.key.project !in db.locks && ids.key !in db.claims
    ensures var db' := LockedAndClaimed(db, ids);
            var last := Unlocked(ClaimCompleted(ids, InState(ids, InState(ids, InState(ids, db', Running), Reconciling),
                                                             TaskCompleted)), ids);
            && last.tasks == db.tasks[ids.key.task := TaskRow(ids.key.project, TaskCompleted)]
            && last.claims
              == db.claims[ids.key := ClaimRow(Completed, Result(true, ExecutionClosed), ids.claimId, None)]
            && last.locks == db.locks
  {
  }

  lemma SuccessfulRun() returns (steps: seq<Step>)
    ensures Smooth(steps, 0) && 0 in Exec(steps).calls && Exec(steps).calls[0].pc.Done?
    ensures Exec(steps).db.tasks == map["task" := TaskRow("project", TaskCompleted)] && Exec(steps).db.locks == map[]
    ensures Exec(steps).db.claims == map[KEY := ClaimRow(Completed, Result(true, ExecutionClosed), "claim 1", None)]
    ensures Exec(steps).launches == multiset{"task"}
  {
    steps := TaskPrepared(0);
    steps := CanSucceed(steps, 0, FIRST);
  }
}
