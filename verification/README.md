# WIS context sync, modelled and proved in Dafny

Two halves of one system. A VS Code extension runs Codex on a task against a local Postgres
database, indexes the workspace and searches the index. A Python backend lets tools propose
changes, have them ratified and write context items. This project models the parts of both where
the order of steps, a lease, a retry or a loop decides whether the result is right, and proves what
the code promises there.

| file | what it models |
|---|---|
| `Prelude.dfy` | shared types and trimming |
| `Persistence.dfy` | the lock, claim and task tables and the SQL statements on them |
| `CodexRunner.dfy` | the child process: abort, timeout, force-kill, settle once |
| `Outcome.dfy` | from a settled execution to its outcome, its reasons and the state its task is closed in |
| `RunProtocol.dfy` | any number of `localRunCodex` calls as a step machine |
| `RunInvariant.dfy` | its inductive invariant |
| `RunTheorems.dfy` | what holds over every interleaving |
| `TaskOwners.dfy` | which call owns a task, and whether it knows |
| `Heartbeats.dfy` | what renewing in time guarantees |
| `OpenClaims.dfy`, `Cleanup.dfy` | what a call leaves behind when it has ended |
| `RunResults.dfy` | what a run records is what Codex returned |
| `RunGates.dfy` | what stands before every start of Codex |
| `RunExamples.dfy` | a run that goes well, and inputs at which one ends badly |
| `Chunker.dfy` | overlapping chunks |
| `Index.dfy`, `IndexTheorems.dfy` | the file and chunk tables, full and scoped runs |
| `WorkspaceDiff.dfy` | snapshots and their difference |
| `Reconcile.dfy` | the index after a run of Codex |
| `Occurrences.dfy` | query tokens and their non-overlapping occurrences |
| `Budget.dfy` | the round-robin selection of chunks |
| `Sorting.dfy`, `Ranking.dfy` | scores, penalties and the order of files |
| `LikeSearch.dfy` | literal search through LIKE patterns |
| `Redaction.dfy` | the delegated-limited policy |
| `Ratification.dfy`, `RatificationTheorems.dfy` | proposals, decisions, rollback |
| `WritePlane.dfy`, `WritePlaneTheorems.dfy` | replay, dry runs, versions, the gate |

`dafny verify dfyconfig.toml` checks everything.

How the parts are read:

- Objects and tables that the source updates are classes with methods. Each method's contract ties
  the new state to a function of the old one; the lemmas are about those functions.
- The run protocol interleaves: one SQL statement of one call is one step, between two steps of
  a call any other call may act, and every statement may also throw, before or after it took effect.
  There is one clock, and it never goes back.
- Failures of single statements in an index run, and of the statements of a ratification or a write,
  are inputs of the call.
- Hashes are injective, so equal hashes mean equal contents. Rows are numbered where the
  source draws UUIDs, and ids drawn by a call are fresh.
- The scanner and the per-path loader apply the same rule to a file; paths are normalised, not empty,
  and no two differ only by case where a theorem says so.

Where the code does less than one would hope:

- A chunk write that fails after its file upsert leaves the new hash with the old chunks. If the same
  scoped run then stops at a failing deletion, the full run that follows finds the hash unchanged,
  skips the file and reports success without errors. `SuccessCanHideStaleChunks` shows it;
  `ReconcileAgrees` proves this is the only way.
- A scoped run that stops between marking files as deleted and removing their chunks leaves those
  chunks, again behind a report of success: `SuccessCanHideLeftovers` and `ReconcileIsTidy`. No later run
  removes them until one finds a file at that path again: `LeftoversStay`.
- The audit row that makes a write replayable is committed after the write. If that fails, the same
  key writes again: `LostAuditMutatesTwice`, `MutationIsRecorded`.
- A dry run that carries an idempotency key uses the key up: `DryRunUsesUpItsKey`.
- If the update that starts a run is committed and its log row cannot be written, the call does not know that
  it started the run and does not repair the task: `AnswerOfTheWinLost`. The task stays running for good and
  every later call for it stops early: `StuckForever`, `StuckTasksStopLaterRuns`. `WinnersEndTheirTask` proves
  that this exception is the only way, as long as the clean-up itself meets no database error.
- A call that finds its task in a state other than prepared leaves its claim open until the lease runs out:
  `UnpreparedTaskLeavesClaim`. So does a call whose claiming statement was committed and answered with an
  exception: `AnswerOfTheClaimLost`. `EndedCallsOwnWhatTheyLeft` proves that these are the only ways, under the same
  condition.
- A heartbeat tick that runs after a call has closed its own claim reports the claim as lost and aborts the
  call: `LateTickReportsALoss`, `TicksReportTheClose`. This is without effect, since such a call is on its way
  out for good and reads none of the flags there: `OutIsForever`, `FlagsAreNotRead`.
- The budget is not greedy to the end: a chunk that does not fit can end the selection before a shorter one
  behind it is looked at (`LongChunkHidesShortOne`). Exactly the chunks behind the first round without a pick
  can be missed so: `SelectionIsMaximal`.

## Model

| member | source | states |
|---|---|---|
| `Persistence.PostgresAdapter.AcquireProjectRunLock` | vscode-extension/src/local/persistence/postgresPersistenceAdapter.ts:832-851 | takes the project's lock row if there is none or its lease has run out, else leaves it; on success the caller holds the lock |
| `Persistence.PostgresAdapter.RenewProjectRunLock` | vscode-extension/src/local/persistence/postgresPersistenceAdapter.ts:853-868 | extends the lease exactly if the caller holds the lock |
| `Persistence.PostgresAdapter.ReleaseProjectRunLock` | vscode-extension/src/local/persistence/postgresPersistenceAdapter.ts:870-879 | afterwards the caller does not hold the lock; another holder's row is untouched |
| `Persistence.PostgresAdapter.ClaimIdempotency` | vscode-extension/src/local/persistence/postgresPersistenceAdapter.ts:881-978 | claimed, reclaimed, replayed or busy, each exactly in its case, with the new row or the recorded response |
| `Persistence.PostgresAdapter.RenewIdempotencyClaim` | vscode-extension/src/local/persistence/postgresPersistenceAdapter.ts:980-998 | renews exactly an open claim of the same claim id whose lease has not run out; other keys stay |
| `Persistence.PostgresAdapter.CompleteIdempotencyClaim` | vscode-extension/src/local/persistence/postgresPersistenceAdapter.ts:1000-1021 | completes exactly an open claim of the same claim id, whatever its lease; other keys stay |
| `Persistence.PostgresAdapter.FailIdempotencyClaim` | vscode-extension/src/local/persistence/postgresPersistenceAdapter.ts:1023-1052 | fails exactly an open claim of the same claim id, whatever its lease; other keys stay |
| `Persistence.PostgresAdapter.TransitionTaskState` | vscode-extension/src/local/persistence/postgresPersistenceAdapter.ts:795-830 | compare-and-set of one task's state, then its log row; when the log row cannot be written the task has moved all the same and the call throws; other tasks stay |
| `CodexRunner.CodexExecution.constructor` | vscode-extension/src/local/codexCliRunner.ts:123-169 | an abort signal that is already set stops the child at once |
| `CodexRunner.CodexExecution.StopChild` | vscode-extension/src/local/codexCliRunner.ts:143-161 | SIGTERM while open, and the force-kill timer at most once |
| `CodexRunner.CodexExecution.Resolve` | vscode-extension/src/local/codexCliRunner.ts:171-180 | the promise takes the first result only; timers and the listener go |
| `CodexRunner.CodexExecution.OnAbort` | vscode-extension/src/local/codexCliRunner.ts:163-169 | the abort listener fires once |
| `CodexRunner.CodexExecution.OnTimeout` | vscode-extension/src/local/codexCliRunner.ts:182-184 | the timeout stops the child |
| `CodexRunner.CodexExecution.OnForceKill` | vscode-extension/src/local/codexCliRunner.ts:153-160 | SIGKILL unless the promise has settled |
| `CodexRunner.CodexExecution.OnData` | vscode-extension/src/local/codexCliRunner.ts:186-192 | output is appended as it arrives |
| `CodexRunner.CodexExecution.OnError` | vscode-extension/src/local/codexCliRunner.ts:194-215 | an error event settles with a failed result |
| `CodexRunner.CodexExecution.OnClose` | vscode-extension/src/local/codexCliRunner.ts:217-248 | a close event settles with ok exactly for exit code 0 without abort or timeout |
| `CodexRunner.FirstEndDecides` | vscode-extension/src/local/codexCliRunner.ts:123-249 | over every order of events the first error or close event alone decides the result, with its exit code, error and output, and no signal follows it |
| `CodexRunner.ResolvesExactlyOnce` | vscode-extension/src/local/codexCliRunner.ts:171-180 | `execute` resolves once if an error or close event occurs, else never |
| `CodexRunner.OkMeansCleanExit` | vscode-extension/src/local/codexCliRunner.ts:217-247 | an ok result has exit code 0, no error, and neither abort nor timeout before it |
| `CodexRunner.SignalsAreBounded` | vscode-extension/src/local/codexCliRunner.ts:143-161 | at most two SIGTERMs, at most one SIGKILL and only after a SIGTERM, for every order of events |
| `CodexRunner.SettledIsDecided` | vscode-extension/src/local/codexCliRunner.ts:194-248 | so in terms of the events: exit code, error, standard output and standard error of every settled result, and when it is ok or cancelled |
| `CodexRunner.SignalsAreExact` | vscode-extension/src/local/codexCliRunner.ts:123-184 | until the promise settles: how many SIGTERMs were sent and whether a SIGKILL was, from the aborts, timeouts and the force-kill timer, for every order of events |
| `Outcome.ExtractSevereWarningReasons` | vscode-extension/src/local/executionOutcomeClassifier.ts:28-42 | stderr_error, then transport_warning, each once and exactly if some given reason is it up to case and outer spaces |
| `Outcome.OutcomesAreExact` | vscode-extension/src/local/executionOutcomeClassifier.ts:44-125 | blocked, cancelled, timeout and failed in this order of precedence; else no-op exactly if no file changed, partial exactly if a severe reason, a failed or a fallback reindex comes with changes, applied exactly if none does |
| `Outcome.ClassifyExecutionOutcome` | vscode-extension/src/local/executionOutcomeClassifier.ts:44-125 | that outcome, with the exact list of reasons and anomaly flags and the severity of every case |
| `Outcome.StatesAreExact` | vscode-extension/src/local/localCommandService.ts:1502-1519 | the state in which a task is closed, directly from the execution, the changes and the anomalies |
| `Outcome.SuccessIsOk` | vscode-extension/src/local/localCommandService.ts:1502-1519 | for a result of the runner, the task is closed as completed or partial exactly when the execution was ok; the state is always terminal |
| `RunInvariant.AcquireKept` | vscode-extension/src/local/localCommandService.ts:474-495 | the step that takes the lock touches at most its project's row, by the rule for taking it |
| `RunInvariant.ClaimInsertKept` | vscode-extension/src/local/persistence/postgresPersistenceAdapter.ts:881-903 | the insert of the claim touches at most its key's row, and only if there is none |
| `RunInvariant.ClaimSelectKept` | vscode-extension/src/local/localCommandService.ts:498-554 | reading an existing claim changes nothing, whatever it finds |
| `RunInvariant.ClaimReclaimKept` | vscode-extension/src/local/persistence/postgresPersistenceAdapter.ts:934-968 | taking over a claim happens only by the rule for expired leases |
| `RunInvariant.FailInvalidKept` | vscode-extension/src/local/localCommandService.ts:568-600 | an invalid command at most fails the call's own claim |
| `RunInvariant.ReadStateKept` | vscode-extension/src/local/localCommandService.ts:602-626 | reading the task's state changes nothing; the unconditional update is reached only for a task of another project, where it finds no row |
| `RunInvariant.MarkRunningKept` | vscode-extension/src/local/localCommandService.ts:628-635 | the one update that moves a prepared task to running, and the only way to launching |
| `RunInvariant.CasKept` | vscode-extension/src/local/persistence/postgresPersistenceAdapter.ts:795-815 | the other updates of the task follow the lifecycle; afterwards its state is the one the call relies on |
| `RunInvariant.HealthcheckKept` | vscode-extension/src/local/localCommandService.ts:649-664 | a failed health check skips Codex with a sound result |
| `RunInvariant.CodexRunningKept` | vscode-extension/src/local/localCommandService.ts:680-693 | a settled run of Codex passes on a sound result |
| `RunInvariant.ReconcileKept` | vscode-extension/src/local/localCommandService.ts:698-717 | the final state is terminal, and the result is ok only if it is completed or partial; a lost lease overrides the outcome |
| `RunInvariant.CloseOwnClaimKept` | vscode-extension/src/local/localCommandService.ts:1142-1165 | the claim is completed only with an ok result and a succeeded task, and only by its owner |
| `RunInvariant.CatchFailKept` | vscode-extension/src/local/localCommandService.ts:1168-1173 | an exception at most fails the call's own claim |
| `RunInvariant.CatchFixKept` | vscode-extension/src/local/localCommandService.ts:1521-1546 | and moves its task only from running or reconciling to failed |
| `RunInvariant.ReleaseKept` | vscode-extension/src/local/localCommandService.ts:1179-1196 | the finally block removes at most the call's own lock row |
| `RunInvariant.MainKept` | vscode-extension/src/local/localCommandService.ts:376-1200 | every step of a call's main program stays within bounds on what it may do to the tables, and keeps what the call relies on |
| `RunInvariant.TendKept` | vscode-extension/src/local/localCommandService.ts:1548-1628 | so does every step of its heartbeat |
| `RunInvariant.OtherLocalOk` | vscode-extension/src/local/localCommandService.ts:376-1200 | a step within these bounds keeps what any other call relies on |
| `RunInvariant.CommitKeepsInv` | vscode-extension/src/local/localCommandService.ts:376-1200 | and keeps the invariant of the whole system |
| `RunInvariant.Reachable` | vscode-extension/src/local/localCommandService.ts:376-1200 | the invariant holds after every interleaving of any number of calls, lease expiries, aborts and exceptions |
| `RunTheorems.TerminalIsForever` | vscode-extension/src/local/persistence/postgresPersistenceAdapter.ts:795-815 | completed, partial, failed, timeout, cancelled and blocked are never left |
| `RunTheorems.CodexStartsAtMostOnce` | vscode-extension/src/local/localCommandService.ts:602-695 | per task, the prepared-to-running update succeeds at most once and Codex is started at most once; every start has such an update before it |
| `RunTheorems.CompletedClaimMeansSucceededTask` | vscode-extension/src/local/localCommandService.ts:1069-1165 | a claim recorded as completed belongs to a task that is completed or partial |
| `RunTheorems.LockIntervalsAreDisjoint` | vscode-extension/src/local/persistence/postgresPersistenceAdapter.ts:832-879 | a call holds a project's lock over one interval of the run, and nobody else within it |
| `RunTheorems.NonHolderChangesNothing` | vscode-extension/src/local/localCommandService.ts:1179-1196 | no step of another call, release after a failed acquire included, touches the holder's row |
| `RunTheorems.ClaimStep` | vscode-extension/src/local/persistence/postgresPersistenceAdapter.ts:881-1052 | every step moves a claim absent, in progress, completed or failed; owner changes only on expiry; response written once, by the owner |
| `RunTheorems.TerminalClaimIsForever` | vscode-extension/src/local/persistence/postgresPersistenceAdapter.ts:1000-1052 | a closed claim's row never changes again |
| `RunTheorems.LaterClaimsReplay` | vscode-extension/src/local/persistence/postgresPersistenceAdapter.ts:908-932 | from then on every call that claims the key gets the recorded response and changes nothing |
| `RunTheorems.SupersededClaimIsPowerless` | vscode-extension/src/local/persistence/postgresPersistenceAdapter.ts:980-1052 | a call whose claim was taken over changes no claim any more |
| `RunTheorems.SupersededIsForever` | vscode-extension/src/local/persistence/postgresPersistenceAdapter.ts:934-968 | and never gets it back |
| `RunResults.TaskRecordsTheResult` | vscode-extension/src/local/localCommandService.ts:680-717 | whatever other calls do: if a call's execution ended with e - Codex settled, the health check failed or it was aborted before the launch - and its result was reconciled and its task closed, then from then on the task is in the state that belongs to e and to what became of the workspace, completed or partial if and only if e is ok and no lease was lost |
| `RunResults.ClaimRecordsTheResult` | vscode-extension/src/local/localCommandService.ts:1142-1165 | and its claim, if it still owns it when it closes it, is from then on completed under the same condition, and failed otherwise, with a response that says so |
| `RunResults.CleanExitsSucceed` | vscode-extension/src/local/codexCliRunner.ts:217-247 | in terms of the child process: the task ends as completed or partial if and only if Codex exited with 0 before any abort or timeout and no lease was lost |
| `RunResults.NothingStartsAfterTheEnd` | vscode-extension/src/local/localCommandService.ts:649-679 | after a failed health check, an abort before the launch or a result, Codex is not started for the task any more |
| `RunResults.ResponsesSayWhatHappened` | vscode-extension/src/local/persistence/postgresPersistenceAdapter.ts:1000-1052 | in every run an open claim has no response, and a closed one a response that says ok exactly if the claim is completed |
| `RunGates.WinsBehindItsGates` | vscode-extension/src/local/localCommandService.ts:474-635 | whoever wins a task has before that, in this order, taken a lock that nobody had, taken a claim that was new or had run out, found its command valid, and read its task as prepared |
| `RunGates.StartsBehindItsGates` | vscode-extension/src/local/localCommandService.ts:628-682 | and whoever starts Codex has before that won the task, then had a health check that settled and was ok, then passed the last check without having been aborted |
| `Heartbeats.TendIsCovered` | vscode-extension/src/local/localCommandService.ts:1564-1602 | a renewal that comes in time succeeds, and one that finds the claim closed comes when the call is on its way out |
| `Heartbeats.OthersLeaveCovered` | vscode-extension/src/local/persistence/postgresPersistenceAdapter.ts:832-851 | no other call can take the lock or the claim of a call whose leases run |
| `Heartbeats.PunctualCallsKeepTheirLeases` | vscode-extension/src/local/localCommandService.ts:65-66 | while attempts to renew are less than 180 s apart, a call keeps its lock and its claim, over runs of any length |
| `Heartbeats.PunctualCallsAreNotInterrupted` | vscode-extension/src/local/localCommandService.ts:1548-1628 | then no other call holds the lock; the lock is never reported as lost, and the claim only when the call is in its catch block or past it |
| `Heartbeats.RenewalsAnswer` | vscode-extension/src/local/localCommandService.ts:1564-1602 | its lock renewal succeeds, and its claim renewal succeeds exactly if the claim is open |
| `Heartbeats.TicksReportTheClose` | vscode-extension/src/local/localCommandService.ts:1564-1602 | so a tick sets the claim-lost flag and aborts exactly if the claim was closed before it, which is only on the way out |
| `Heartbeats.TicksReportLosses` | vscode-extension/src/local/localCommandService.ts:1564-1593 | whatever the leases: a whole tick without database error sets each flag exactly if it was set or the renewal found the lease gone, and aborts exactly then |
| `Heartbeats.FailedRenewalsReportLosses` | vscode-extension/src/local/localCommandService.ts:1594-1601 | a tick with a database error sets both flags and aborts |
| `Heartbeats.OutIsForever` | vscode-extension/src/local/localCommandService.ts:1168-1196 | a call on its way out never comes back to the points that read the flags |
| `Heartbeats.FlagsAreNotRead` | vscode-extension/src/local/localCommandService.ts:1168-1196 | there it does the same whatever the flags say |
| `TaskOwners.MainIsSteady` | vscode-extension/src/local/localCommandService.ts:628-635 | a call starts its run only by winning the task, and only a call that started a run moves a task |
| `TaskOwners.OwnersReachable` | vscode-extension/src/local/localCommandService.ts:628-635 | so over every run the call that started a task's run is the one that won it |
| `TaskOwners.UnawareReachable` | vscode-extension/src/local/persistence/postgresPersistenceAdapter.ts:800-829 | and a task won by a call that does not know it, its update having been answered with an exception, is running |
| `TaskOwners.WinningStep` | vscode-extension/src/local/localCommandService.ts:628-635 | a winner won at one step of the run, and knows it exactly if that step met no exception |
| `TaskOwners.StuckForever` | vscode-extension/src/local/localCommandService.ts:1521-1546 | a winner that does not know it never learns it, and its task is running in every later state |
| `Cleanup.MainIsStaged` | vscode-extension/src/local/localCommandService.ts:628-1196 | at every point of a run its task is in the state that belongs there |
| `Cleanup.OthersLeaveStaged` | vscode-extension/src/local/localCommandService.ts:376-1200 | no other call disturbs that |
| `Cleanup.EndedCallsAreCleanedUp` | vscode-extension/src/local/localCommandService.ts:1168-1196 | whatever happened, if the clean-up itself meets no database error an ended call holds no lock; the task it won is in a terminal state, and it owns no claim, if it knows that it won; else the task is running |
| `Cleanup.WinnersEndTheirTask` | vscode-extension/src/local/localCommandService.ts:628-635 | the task of an ended winner is in a terminal state if and only if its winning step met no exception, and running if and only if it did |
| `Cleanup.StuckTasksStopLaterRuns` | vscode-extension/src/local/localCommandService.ts:612-626 | every later call for a task stuck like this takes the early return |
| `OpenClaims.MainAccounts` | vscode-extension/src/local/localCommandService.ts:498-1173 | every step closes the call's claim on the way out, or is one of the two that leave it behind |
| `OpenClaims.EndedCallsOwnWhatTheyLeft` | vscode-extension/src/local/localCommandService.ts:612-626 | an ended call owns an open claim if and only if it took the early return for a task that is not prepared, or its claiming statement was committed and answered with an exception, and nobody has taken the claim over |
| `RunExamples.AnswerOfTheWinLost` | vscode-extension/src/local/persistence/postgresPersistenceAdapter.ts:800-829 | an input where a call ends, its clean-up successful, with its task running |
| `RunExamples.UnpreparedTaskLeavesClaim` | vscode-extension/src/local/localCommandService.ts:612-626 | an input where the next call for that task ends with its claim open |
| `RunExamples.AnswerOfTheClaimLost` | vscode-extension/src/local/persistence/postgresPersistenceAdapter.ts:881-903 | an input where a call ends with a claim open that it does not know of |
| `RunExamples.LateTickReportsALoss` | vscode-extension/src/local/localCommandService.ts:1564-1602 | an input where a punctual call's heartbeat reports a lost claim and aborts it |
| `RunExamples.CanSucceed` | vscode-extension/src/local/localCommandService.ts:376-1200 | from every reachable state in which a call may start on a prepared task it can run Codex and succeed: the task and the claim are completed, the lock is gone, all other rows are as before |
| `Chunker.ChunkContent` | vscode-extension/src/local/indexing/basicChunker.ts:12-42 | blank content gives no chunks; else the chunks are numbered from 0, start one step apart, end at the chunk size or the end, and are as many as the formula says |
| `Chunker.LastChunk` | vscode-extension/src/local/indexing/basicChunker.ts:33-35 | the loop stops after 1 + ceil((length - size) / step) chunks when the content is longer than one chunk |
| `Chunker.ChunksCoverContent` | vscode-extension/src/local/indexing/basicChunker.ts:12-42 | dropping size minus step characters from every later chunk rebuilds the content; no chunk is too long, and each adds something |
| `Index.WorkspaceIndex.UpsertIndexedFile` | vscode-extension/src/local/persistence/postgresPersistenceAdapter.ts:536-576 | the path's row becomes active with the new hash, keeps its id and its chunks; other paths stay |
| `Index.WorkspaceIndex.ReplaceFileChunks` | vscode-extension/src/local/persistence/postgresPersistenceAdapter.ts:601-636 | the file's chunks are replaced; other paths stay |
| `Index.WorkspaceIndex.MarkFilesDeleted` | vscode-extension/src/local/persistence/postgresPersistenceAdapter.ts:578-599 | marks the active ones among the paths and returns their ids |
| `Index.WorkspaceIndex.DeleteChunksByFileIds` | vscode-extension/src/local/persistence/postgresPersistenceAdapter.ts:638-654 | removes the chunk rows of these files |
| `Index.WorkspaceIndex.PersistCandidate` | vscode-extension/src/local/indexing/incrementalWorkspaceIndexer.ts:249-314 | one file's row after its upsert and, if it may have changed, its chunk write, for each way they can fail; an error is counted exactly if one threw |
| `Index.WorkspaceIndex.SoftDeletePaths` | vscode-extension/src/local/indexing/incrementalWorkspaceIndexer.ts:316-339 | active rows marked, then emptied; when it throws, and that without active rows the second statement is not reached |
| `Index.WorkspaceIndex.RunIndex` | vscode-extension/src/local/indexing/incrementalWorkspaceIndexer.ts:81-142 | each row after the full run, when the run throws, and when it counts no error |
| `Index.WorkspaceIndex.RunIndexByPaths` | vscode-extension/src/local/indexing/incrementalWorkspaceIndexer.ts:144-247 | the same for the scoped run |
| `Index.UniquePaths` | vscode-extension/src/local/indexing/incrementalWorkspaceIndexer.ts:69-74 | the paths, each once |
| `IndexTheorems.FullRunIsExact` | vscode-extension/src/local/indexing/incrementalWorkspaceIndexer.ts:81-142 | a full run without errors makes the index exactly the scan if and only if no row was stale, and leaves no chunks of files it deletes |
| `IndexTheorems.ScopedRunIsExact` | vscode-extension/src/local/indexing/incrementalWorkspaceIndexer.ts:144-247 | from an index that agrees with the old workspace, a scoped run without errors agrees with the new one if and only if its paths contain every difference |
| `IndexTheorems.ScopedRunEqualsFullRun` | vscode-extension/src/local/indexing/incrementalWorkspaceIndexer.ts:81-247 | then both runs leave the same active paths, hashes and chunks |
| `IndexTheorems.RowsChangeOnlySo` | vscode-extension/src/local/indexing/incrementalWorkspaceIndexer.ts:81-339 | whatever fails in a run, a row stays, or gets the hash of its file with its chunks or the old ones, or is marked as deleted where no file is found; a row the run does not cover stays |
| `IndexTheorems.FailuresStayLocal` | vscode-extension/src/local/indexing/incrementalWorkspaceIndexer.ts:249-339 | a failure at one file is no harm to another: where the writes of a path go through it is exact after the run, unless its row was stale, and where the deletion goes through it is gone |
| `IndexTheorems.LeftoversStay` | vscode-extension/src/local/indexing/incrementalWorkspaceIndexer.ts:81-247 | chunks left under a deleted row stay through any later runs, full or scoped, until one finds a file at that path |
| `WorkspaceDiff.Capture` | vscode-extension/src/local/workspaceSnapshotter.ts:51-87 | the scanned files, and an absent entry for each seed path not scanned; each path once |
| `WorkspaceDiff.ToComparableMap` | vscode-extension/src/local/workspaceDiffAnalyzer.ts:22-28 | the last entry per lower-cased path |
| `WorkspaceDiff.Analyze` | vscode-extension/src/local/workspaceDiffAnalyzer.ts:31-88 | created, modified, deleted and unchanged paths, each list exactly the paths of its kind |
| `WorkspaceDiff.DiffIsExact` | vscode-extension/src/local/workspaceDiffAnalyzer.ts:31-88 | between two snapshots of a run these are exactly the paths that appeared, changed content and vanished |
| `Reconcile.PostRunReconciler.RunPostRunReindex` | vscode-extension/src/local/postRunReconciler.ts:200-254 | skipped, scoped, full, or full after a scoped run that threw, with what each does to the index |
| `Reconcile.PostRunReconciler.RunFallbackFullReindex` | vscode-extension/src/local/postRunReconciler.ts:256-295 | the full run and its report |
| `Reconcile.PostRunReconciler.Reconcile` | vscode-extension/src/local/postRunReconciler.ts:89-119 | the whole sequence: the changed paths are exactly those at which the workspaces differ, and after a report of success without errors an index that agreed with the old workspace agrees with the new one if and only if no half-write was hidden |
| `Reconcile.ReconcileAgrees` | vscode-extension/src/local/postRunReconciler.ts:200-295 | after a report of success without errors the index agrees with the new workspace if and only if no half-written file was hidden |
| `Reconcile.ReconcileIsTidy` | vscode-extension/src/local/postRunReconciler.ts:200-295 | and no chunks of deleted files are left if and only if no interrupted deletion was hidden |
| `Reconcile.SuccessCanHideStaleChunks` | vscode-extension/src/local/indexing/incrementalWorkspaceIndexer.ts:289-305 | an input where success without errors hides stale chunks |
| `Reconcile.SuccessCanHideLeftovers` | vscode-extension/src/local/indexing/incrementalWorkspaceIndexer.ts:327-330 | an input where it hides the chunks of a deleted file |
| `Occurrences.CountOccurrences` | vscode-extension/src/local/retrieval/retrievalScorer.ts:27-39 | the greedy count is the largest number of pairwise non-overlapping occurrences |
| `Occurrences.CountIsLargest` | vscode-extension/src/local/retrieval/retrievalScorer.ts:27-39 | no other choice of places is larger |
| `Occurrences.CountIsReached` | vscode-extension/src/local/retrieval/retrievalScorer.ts:27-39 | and the count is reached |
| `Occurrences.PiecesMean` | vscode-extension/src/local/retrieval/retrievalQueryParser.ts:117-124 | the pieces of a token are exactly its stretches without separators between two separators or the ends |
| `Occurrences.ParseTokens` | vscode-extension/src/local/retrieval/retrievalQueryParser.ts:72-136 | exactly the useful words, paths and their pieces, each once; all have two characters or more and are no stop words |
| `Budget.ApplyRetrievalBudget` | vscode-extension/src/local/retrieval/retrievalBudget.ts:17-91 | the selection, its characters, when it is truncated, and each of the four reasons exactly in its case |
| `Budget.Visit` | vscode-extension/src/local/retrieval/retrievalBudget.ts:34-65 | the turn of one file in one round |
| `Budget.Round` | vscode-extension/src/local/retrieval/retrievalBudget.ts:31-70 | one round |
| `Budget.TruncationIsExact` | vscode-extension/src/local/retrieval/retrievalBudget.ts:72-77 | truncated exactly if files or chunks were left out; then there is a reason |
| `Budget.SelectionIsUnique` | vscode-extension/src/local/retrieval/retrievalBudget.ts:17-91 | within the limits, in round-robin order, passing over only what is capped or too long, up to the first round without a pick: this determines the selection |
| `Budget.PicksKeepFileOrder` | vscode-extension/src/local/retrieval/retrievalBudget.ts:44-63 | the picks of a file are a subsequence of its chunks |
| `Budget.RoundsAreBounded` | vscode-extension/src/local/retrieval/retrievalBudget.ts:31-70 | at most eight rounds are begun |
| `Budget.NothingFitsFirst` | vscode-extension/src/local/retrieval/retrievalBudget.ts:67-69 | where no first chunk fits nothing is selected, whatever follows |
| `Budget.WhatFitsWasNotReached` | vscode-extension/src/local/retrieval/retrievalBudget.ts:67-69 | a chunk left that still fits within every limit lies behind the first round without a pick, and could follow the picks |
| `Budget.SelectionIsMaximal` | vscode-extension/src/local/retrieval/retrievalBudget.ts:67-69 | the selection can take no further chunk if and only if none behind that round fits |
| `Budget.LongChunkHidesShortOne` | vscode-extension/src/local/retrieval/retrievalBudget.ts:48-55 | an input where a chunk that fits is left: one file with chunks of 6001 characters and of one |
| `Ranking.ScoreChunkCandidate` | vscode-extension/src/local/retrieval/retrievalScorer.ts:87-132 | the raw score, from the counted occurrences of every token |
| `Ranking.ChunksAreOrdered` | vscode-extension/src/local/retrieval/retrievalScorer.ts:41-51 | the chunk comparison is a total preorder |
| `Ranking.FilesAreOrdered` | vscode-extension/src/local/retrieval/retrievalScorer.ts:53-62 | so is the file comparison |
| `Ranking.RankRetrievalCandidates` | vscode-extension/src/local/retrieval/retrievalScorer.ts:134-209 | best score first, equal scores by lower-cased path, equal paths by id; chunks likewise by score, path, place and hash; each file once, and exactly the files with points or chunks |
| `Ranking.EveryPositiveChunkIsRanked` | vscode-extension/src/local/retrieval/retrievalScorer.ts:157-191 | a chunk with a positive raw score appears under its file exactly as often as it was found; no other chunk appears |
| `Ranking.PenaltiesDropToZero` | vscode-extension/src/local/retrieval/retrievalScorer.ts:180-190 | after the first sort penalised scores do not increase, and strictly decrease while positive |
| `Ranking.SecondSortMovesOnlyZeros` | vscode-extension/src/local/retrieval/retrievalScorer.ts:181-191 | so the second sort moves only chunks at zero |
| `Ranking.PenaltyIsFourPerPlace` | vscode-extension/src/local/retrieval/retrievalScorer.ts:183-190 | a chunk that keeps points has its raw score less four for every chunk placed before it |
| `Ranking.FileScoreIsBounded` | vscode-extension/src/local/retrieval/retrievalScorer.ts:65-85 | a file scores at most 42 more than its coarse score, and less, by at most 6, exactly if hinted paths are not hit at all |
| `Ranking.MoreHitsScoreMore` | vscode-extension/src/local/retrieval/retrievalScorer.ts:65-85 | more hits never score less |
| `Ranking.ChunkScoreIsBounded` | vscode-extension/src/local/retrieval/retrievalScorer.ts:87-132 | a chunk scores at least what its file and its own coarse score give it, and at least 15 more if a token occurs in it |
| `Ranking.MoreMatchesScoreMore` | vscode-extension/src/local/retrieval/retrievalScorer.ts:87-132 | more matches never score less, and a further token at least 12 more |
| `Ranking.CompositeScore` | vscode-extension/src/local/retrieval/retrievalScorer.ts:197-198 | a ranked file scores at least its own score and three more than any of its chunks |
| `Ranking.LeftOut` | vscode-extension/src/local/retrieval/retrievalScorer.ts:193-195 | a file is left out exactly if it has no points and none of its chunks has any |
| `Sorting.SortSorts` | vscode-extension/src/local/retrieval/retrievalScorer.ts:181-208 | a total preorder sorts every list |
| `Sorting.SortKeepsImages` | vscode-extension/src/local/retrieval/retrievalScorer.ts:181-208 | whatever is read off the elements is only rearranged by sorting |
| `Sorting.StringLeMeans` | vscode-extension/src/local/retrieval/retrievalScorer.ts:41-62 | texts are in order exactly if the first is a prefix of the second or smaller at the first place where they differ |
| `LikeSearch.EscapedMatchesItself` | vscode-extension/src/local/persistence/postgresPersistenceAdapter.ts:1212-1214 | an escaped text matches itself only, whatever characters it has |
| `LikeSearch.PrefixPatternMatches` | vscode-extension/src/local/persistence/postgresPersistenceAdapter.ts:328-333 | escape(h) + % matches exactly the texts that start with h |
| `LikeSearch.ContainsPatternMatches` | vscode-extension/src/local/persistence/postgresPersistenceAdapter.ts:334-345 | % + escape(t) + % matches exactly the texts that contain t |
| `LikeSearch.ILikePatternsMatch` | vscode-extension/src/local/persistence/postgresPersistenceAdapter.ts:1166-1170 | the same up to case for ILIKE |
| `LikeSearch.Statement.BuildLikeHitsExpression` | vscode-extension/src/local/persistence/postgresPersistenceAdapter.ts:1156-1172 | for every row the expression counts the patterns that match |
| `LikeSearch.Statement.BuildAnyEqualsExpr` | vscode-extension/src/local/persistence/postgresPersistenceAdapter.ts:1148-1154 | 0 for an empty list, else one parameter that holds it |
| `LikeSearch.HitsAreStable` | vscode-extension/src/local/persistence/postgresPersistenceAdapter.ts:325-345 | parameters pushed later do not disturb an expression |
| `LikeSearch.CountContained` | vscode-extension/src/local/persistence/postgresPersistenceAdapter.ts:334-345 | the hits expression counts exactly the tokens contained |
| `LikeSearch.Statement.BuildFileScore` | vscode-extension/src/local/persistence/postgresPersistenceAdapter.ts:324-352 | for every path the coarse score is the weighted sum of exact hits, hints that start it and tokens it contains |
| `LikeSearch.WorthOfOne` | vscode-extension/src/local/persistence/postgresPersistenceAdapter.ts:324-352 | what one exact path, hint, file name or token is worth |
| `LikeSearch.BasenameMeans` | vscode-extension/src/local/persistence/postgresPersistenceAdapter.ts:325 | the file name is what stands behind the last slash |
| `Redaction.Redactor.Clean` | backend/app/policies/delegated_limited.py:147-161 | the redacted value, and exactly the topmost sensitive positions appended |
| `Redaction.ApplyDelegatedLimitedPolicy` | backend/app/policies/delegated_limited.py:142-166 | the three outputs for the fields the tool may send |
| `Redaction.RedactsExactly` | backend/app/policies/delegated_limited.py:147-161 | the topmost values under sensitive keys are replaced, nothing is left below them, every other position keeps its leaf, its keys or its length |
| `Redaction.TopmostMeans` | backend/app/policies/delegated_limited.py:151-158 | topmost: the position exists, ends at a sensitive key and passes none |
| `Redaction.PolicyIsIdempotent` | backend/app/policies/delegated_limited.py:142-166 | a second application for the same tool changes none of the three outputs |
| `Redaction.FilteredKeeps` | backend/app/policies/delegated_limited.py:142-146 | each field stays exactly if the tool may send it, wherever it stands, and those that stay keep their order |
| `Redaction.MarkersAreSensitive` | backend/app/policies/delegated_limited.py:151-153 | a key that contains a marker is sensitive, in whatever case and with whatever around it |
| `Redaction.SensitiveHasMarker` | backend/app/policies/delegated_limited.py:151-153 | and no other key is |
| `Ratification.Session.CreateProposal` | backend/app/services/proposal_service.py:35-83 | a new proposal, or the one that has the idempotency key |
| `Ratification.Session.TransitionProposal` | backend/app/services/proposal_service.py:86-115 | the lifecycle check, the identity check for ratification, and the new row |
| `Ratification.Session.RecordProposalEvent` | backend/app/mcp/server.py:2190-2194 | an event for proposals with a task and a project |
| `Ratification.Session.ProposeChange` | backend/app/mcp/server.py:2135-2206 | what the call commits and answers |
| `Ratification.Session.RatifyProposal` | backend/app/mcp/server.py:2257-2363 | what the call commits and answers, although the decision is written before the lifecycle is checked |
| `Ratification.Session.RejectProposal` | backend/app/mcp/server.py:2367-2417 | what the call commits and answers |
| `RatificationTheorems.RunsAreOrderly` | backend/app/services/proposal_service.py:18-24 | in every serial run each history is proposed, in review, then at most one terminal status; a ratified proposal names who and when; decisions stem from ratified proposals, at most one per workspace, project, task and key |
| `RatificationTheorems.RefusedCallsChangeNothing` | backend/app/mcp/server.py:2338-2353 | a call not answered with ok leaves every table as it was |
| `RatificationTheorems.RatifyKeepsInv` | backend/app/mcp/server.py:2302-2327 | ratifying keeps every row orderly, every decision traceable, and one decision per key: a new key adds a row, a known one updates it in place |
| `RatificationTheorems.TerminalProposalsAreForever` | backend/app/services/proposal_service.py:18-24 | a ratified, rejected or superseded proposal never changes again |
| `RatificationTheorems.ProposeAnswers` | backend/app/mcp/server.py:2135-2165 | a change is taken up exactly if the caller may, it is no dry run, and kind, target and rationale are given; else which refusal is answered |
| `RatificationTheorems.ProposalIsFiled` | backend/app/services/proposal_service.py:35-83 | then it is found in review as it was proposed, once per idempotency key; decisions and contexts stay |
| `RatificationTheorems.RatifyAnswers` | backend/app/mcp/server.py:2257-2353 | a proposal is ratified exactly if it is in review in the caller's workspace, the actor has a name and no statement throws; else which refusal is answered |
| `RatificationTheorems.RatifiedIsNamed` | backend/app/services/proposal_service.py:86-115 | it then names who ratified it and when and keeps the rest; other proposals stay |
| `RatificationTheorems.DecisionIsWritten` | backend/app/mcp/server.py:2280-2327 | there is then one decision under the key of its payload or target, with what the payload says or else the proposal, and every other decision stays |
| `RatificationTheorems.RejectAnswers` | backend/app/mcp/server.py:2367-2417 | a proposal is rejected exactly if it is still open in the caller's workspace and no statement throws |
| `RatificationTheorems.RejectedIsMarked` | backend/app/mcp/server.py:2367-2417 | nothing but its status changes; other proposals, decisions and contexts stay |
| `RatificationTheorems.ContextStep` | backend/app/services/staleness_service.py:19-44 | a call makes a context stale exactly if it ratifies a proposal of its workspace, and of its project and task where the proposal has them; nothing else of a context changes |
| `RatificationTheorems.ContextsGoStale` | backend/app/services/staleness_service.py:19-44 | so over every run a context is current if and only if it was at the start and no such proposal was ratified |
| `WritePlane.Store.UpsertItem` | backend/app/services/context_item_service.py:191-281 | create, conflict, dry run or update, with the new row |
| `WritePlane.Store.AppendLabels` | backend/app/services/context_item_service.py:284-326 | labels united, version raised; missing items reported |
| `WritePlane.Store.ArchiveItem` | backend/app/services/context_item_service.py:329-350 | archived, version raised; missing items reported |
| `WritePlane.Store.Handle` | backend/app/mcp/server.py:1192-1282 | the order of the checks, the replay, the domain commit and the audit commit after it |
| `WritePlaneTheorems.RecordedKeyReplays` | backend/app/mcp/server.py:1156-1186 | a recorded key replays its recorded result and changes nothing |
| `WritePlaneTheorems.MutationIsRecorded` | backend/app/audit/write_audit_service.py:49-71 | a call that changes items leaves its key recorded if and only if its audit row is written |
| `WritePlaneTheorems.KeysMutateAtMostOnce` | backend/app/mcp/server.py:1228-1236 | over every run at most one call per workspace, tool and key changes the items, as long as its audit row is written; later ones replay it |
| `WritePlaneTheorems.LaterCallsGetTheAnswer` | backend/app/mcp/server.py:1228-1236 | and get the answer the first one got |
| `WritePlaneTheorems.LostAuditMutatesTwice` | backend/app/mcp/server.py:1244-1280 | an input where a lost audit row lets the same call change the item twice |
| `WritePlaneTheorems.DryRunUsesUpItsKey` | backend/app/mcp/server.py:1138-1153 | a dry run with a key leaves later calls with that key only its replay |
| `WritePlaneTheorems.DryRunsAreDry` | backend/app/services/context_item_service.py:266-267 | dry runs never change the items |
| `WritePlaneTheorems.StoppedCallsLeaveTheKey` | backend/app/mcp/server.py:1224-1243 | calls stopped before the domain step leave everything, their key included |
| `WritePlaneTheorems.GatedChangesAreRatified` | backend/app/mcp/server.py:2102-2131 | where the policy asks for it, items change only under a ratified context-item proposal of the workspace for their target |
| `WritePlaneTheorems.GateIsExact` | backend/app/mcp/server.py:2102-2131 | and the gate stops exactly the calls without one |
| `WritePlaneTheorems.ChecksComeInOrder` | backend/app/mcp/server.py:1192-1282 | scope, key, replay, target, gate, in this order; a call past them is answered unless a statement throws |
| `WritePlaneTheorems.UpsertAnswers` | backend/app/services/context_item_service.py:191-281 | created if there is no such item, a conflict if the expected version is not the item's, else updated; a dry run only says so |
| `WritePlaneTheorems.AnswersTellWhatWasWritten` | backend/app/services/context_item_service.py:191-350 | an answer of created, updated or archived means that the items have changed, any other that they have not |
| `WritePlaneTheorems.UpsertWrites` | backend/app/services/context_item_service.py:206-281 | the one item with the workspace and key has the call's type, title, content and trimmed labels, is active and names the actor; project and task are the call's where given, else as before; other items stay |
| `WritePlaneTheorems.LabelsAreAdded` | backend/app/services/context_item_service.py:284-326 | the labels are the old ones united with the trimmed new ones; but for version and actor the rest stays, and so do other items |
| `WritePlaneTheorems.ArchivedKeepsContent` | backend/app/services/context_item_service.py:329-350 | the item is archived with its content kept; other items stay |
| `WritePlaneTheorems.VersionsCountChanges` | backend/app/services/context_item_service.py:269-281 | an item's version is one plus the number of its changes over the run |
| `WritePlaneTheorems.SameVersionCommitsOnce` | backend/app/services/context_item_service.py:247-254 | two upserts expecting the same version of an existing item cannot both commit |
| `WritePlaneTheorems.ItemKeysAreDistinct` | backend/app/services/context_item_service.py:206-211 | at most one item per workspace and key |

## Left out

- RunProtocol.Main: `localRunCodex` and its heartbeat step through mutable flags; here they are values in one state, because steps of different calls interleave and each step has to be a function of the whole state.
- RunInvariant.HealthcheckKept: the health check's command line and its parsing are not modelled, only the child process.
- RunInvariant.ReconcileKept: the diff, the warnings and the reindex result reach the classifier as inputs; `Reconcile.dfy` models where they come from.
- Persistence.PostgresAdapter.ClaimIdempotency: claims of other commands and the legacy statuses `ok`, `error` and `blocked` are not modelled; the three statements are separate steps in `RunProtocol.dfy`.
- Persistence.PostgresAdapter.TransitionTaskState: of the log row the reason, the execution and the time are left out; `RunProtocol.dfy` keeps no log, only that writing it can fail.
- Persistence.PostgresAdapter.AcquireProjectRunLock: the `owner` column is constant per command and left out, as are `started_at`, `finished_at` and `last_error` of claims.
- Preparing a task is one step that adds a prepared task with a fresh id; the claim that preparation makes for itself is not modelled.
- Cleanup.EndedCallsAreCleanedUp: the statements of the catch block and the release of the lock are supposed to meet no database error; what is left when they do is not stated.
- Heartbeats.PunctualCallsKeepTheirLeases: renewals that meet a database error are excluded, since one such error sets both flags at once.
- CodexRunner.CodexExecution.OnError: the timestamps and the parsed parts of a result are left out; the text of an error is kept as far as the timeout pattern looks at it.
- Outcome.ClassifyExecutionOutcome: lower case is that of the ASCII letters; the final flags and reasons that `localRunCodex` adds for a lost lease are left out.
- Chunker.ChunkContent: the chunk size is at least 1, as the configuration guarantees.
- Index.WorkspaceIndex.RunIndex: of the metrics only the errors are modelled; sizes, dates and languages of files and the list of changes are left out.
- WorkspaceDiff.Analyze: the order of the lists follows the locale and is left out; lower case is that of the ASCII letters, here and in the ranking, the search and the redaction.
- Occurrences.ParseTokens: cutting the query into words and resolving path hints is left to the caller, pieces between separators are modelled.
- Ranking.RankRetrievalCandidates: strings are compared by code unit instead of by locale; reasons and evidence are left out.
- LikeSearch.Statement.BuildFileScore: the chunk search adds one more expression of the same kind and is left out; the text of the SQL is a data structure.
- Redaction.ApplyDelegatedLimitedPolicy: the table of allowed fields per tool is a parameter; paths are sequences of steps, since their text can coincide.
- Ratification.Session.RatifyProposal: constraints of a decision, consumers and the staleness counts are left out; superseding has no caller.
- WritePlane.Store.Handle: events, links and sync batches follow the same order of checks and are left out; the separate label table is not kept equal to the item's labels by the source and is left out.
- Both write planes are serial: version checks have no row-level guard in the source, so writers that overlap can lose updates.
- Path normalisation, directory scanning, file reading, hashing, JSON, SQL text and process spawning are inputs or abstract.
- Commands, panels, renderers, the doctor, the handoff builder, playbooks, MCP transport, tokens and logging add only branch-by-branch checks.
