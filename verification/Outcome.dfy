/** From a settled execution to the outcome recorded for it and the state its task is closed in. */
module Outcome {
  import opened Prelude
  import opened CodexRunner
  import opened Persistence
  import Chunker
  import Sorting

  datatype ExecutionOutcome =
    | Blocked | OutcomeFailed | OutcomeTimeout | OutcomeCancelled | NoOp | AppliedChanges | PartialChanges

  datatype ReindexMode = Scoped | FallbackFull | Skipped

  datatype ClassifierInput = ClassifierInput(
    changedFiles: nat, warningReasons: seq<string>, reindexMode: ReindexMode, reindexOk: bool,
    blockedReason: Option<string>)

  datatype Severity = Info | Warning | Error

  datatype Classification = Classification(
    outcome: ExecutionOutcome, reasons: seq<string>, anomalyFlags: seq<string>, severity: Severity)

  const STDERR_ERROR := "stderr_error"
  const TRANSPORT_WARNING := "transport_warning"
  const SEVERE_WARNING_REASONS: set<string> := {STDERR_ERROR, TRANSPORT_WARNING}
  const COMPARE_TEXT: (string, string) -> bool := (a, b) => Sorting.StringLe(a, b)

  function Trimmed(s: string): string { Trim(s, c => Chunker.IsSpace(c)) }
  function Normal(reason: string): string { Lower(Trimmed(reason)) }

  /** The reason is among those given, whatever its case and the spaces around it. */
  predicate Warned(reasons: seq<string>, severe: string) {
    exists i | 0 <= i < |reasons| :: Normal(reasons[i]) == severe
  }

  function Listed(severe: string, there: bool): seq<string> { if there then [severe] else [] }

  // ---- the severe reasons ----------------------------------------------------------------------

  lemma SevereTextsDiffer()
    ensures STDERR_ERROR != "" && TRANSPORT_WARNING != "" && STDERR_ERROR != TRANSPORT_WARNING
    ensures Sorting.StringLe(STDERR_ERROR, TRANSPORT_WARNING) && !Sorting.StringLe(TRANSPORT_WARNING, STDERR_ERROR)
  {
    assert STDERR_ERROR[0] == 's' && TRANSPORT_WARNING[0] == 't';
  }

  lemma SortOfOne(a: string)
    ensures Sorting.Sort([a], COMPARE_TEXT) == [a]
  {
    var none: seq<string> := [];
    assert [a][..0] == none;
  }

  lemma AtMostTwo(s: seq<string>, a: string, b: string)
    requires forall i | 0 <= i < |s| :: s[i] == a || s[i] == b
    requires forall i, j | 0 <= i < j < |s| :: s[i] != s[j]
    ensures |s| <= 2
  {
    if |s| > 2 {
      TwoOfThree(s[0], s[1], s[2], a, b);
    }
  }

  lemma TwoOfThree(x: string, y: string, z: string, a: string, b: string)
    requires (x == a || x == b) && (y == a || y == b) && (z == a || z == b)
    ensures x == y || x == z || y == z
  {
  }

  lemma SortOfTwo(a: string, b: string)
    ensures Sorting.Sort([a, b], COMPARE_TEXT) == if COMPARE_TEXT(a, b) then [a, b] else [b, a]
  {
    var none: seq<string> := [];
    assert [a, b][..1] == [a] && [a][..0] == none;
    assert Sorting.Sort([a], COMPARE_TEXT) == Sorting.Insert(none, a, COMPARE_TEXT) == [a];
    assert Sorting.Sort([a, b], COMPARE_TEXT) == Sorting.Insert([a], b, COMPARE_TEXT);
    assert Sorting.Insert(none, b, COMPARE_TEXT) == [b];
  }

  lemma SevereSorted(severe: seq<string>)
    requires forall r | r in severe :: r in SEVERE_WARNING_REASONS
    requires forall p, q | 0 <= p < q < |severe| :: severe[p] != severe[q]
    ensures Sorting.Sort(severe, COMPARE_TEXT)
         == Listed(STDERR_ERROR, STDERR_ERROR in severe) + Listed(TRANSPORT_WARNING, TRANSPORT_WARNING in severe)
  {
    SevereTextsDiffer();
    forall i | 0 <= i < |severe| ensures severe[i] == STDERR_ERROR || severe[i] == TRANSPORT_WARNING {
      assert severe[i] in severe;
    }
    SortedFound(severe, STDERR_ERROR, TRANSPORT_WARNING);
  }

  /** Sorting what was found, of two possible texts. */
  lemma SortedFound(found: seq<string>, a: string, b: string)
    requires Sorting.StringLe(a, b) && !Sorting.StringLe(b, a) && a != b
    requires forall i | 0 <= i < |found| :: found[i] == a || found[i] == b
    requires forall p, q | 0 <= p < q < |found| :: found[p] != found[q]
    ensures Sorting.Sort(found, COMPARE_TEXT) == Listed(a, a in found) + Listed(b, b in found)
  {
    AtMostTwo(found, a, b);
    if |found| == 1 {
      OneFound(found[0], a, b);
      assert found == [found[0]];
    } else if |found| == 2 {
      TwoFound(found[0], found[1], a, b);
      assert found == [found[0], found[1]];
    }
  }

  lemma OneFound(x: string, a: string, b: string)
    requires a != b && (x == a || x == b)
    ensures Sorting.Sort([x], COMPARE_TEXT) == Listed(a, a in [x]) + Listed(b, b in [x])
  {
    SortOfOne(x);
    assert [x][0] == x;
  }

  lemma TwoFound(x: string, y: string, a: string, b: string)
    requires Sorting.StringLe(a, b) && !Sorting.StringLe(b, a) && x != y && (x == a || x == b) && (y == a || y == b)
    ensures Sorting.Sort([x, y], COMPARE_TEXT) == Listed(a, a in [x, y]) + Listed(b, b in [x, y])
  {
    SortOfTwo(x, y);
    assert [x, y][0] == x && [x, y][1] == y;
    assert a in [x, y] && b in [x, y];
  }

  /** Every text but the empty one is seen once it is given. */
  ghost predicate Seen(seen: set<string>, reasons: seq<string>) {
    forall t | t != "" :: t in seen <==> Warned(reasons, t)
  }

  lemma SeesNext(seen: set<string>, reasons: seq<string>, i: nat)
    requires i < |reasons| && Seen(seen, reasons[..i])
    ensures Seen(if Normal(reasons[i]) == "" then seen else seen + {Normal(reasons[i])}, reasons[..i + 1])
  {
    forall t ensures Warned(reasons[..i + 1], t) <==> Warned(reasons[..i], t) || Normal(reasons[i]) == t {
      WarnedNext(reasons, i, t);
    }
  }

  lemma WarnedNext(reasons: seq<string>, i: nat, t: string)
    requires i < |reasons|
    ensures Warned(reasons[..i + 1], t) <==> Warned(reasons[..i], t) || Normal(reasons[i]) == t
  {
    var (before, upTo) := (reasons[..i], reasons[..i + 1]);
    assert upTo == before + [reasons[i]] && upTo[i] == reasons[i];
    if k :| 0 <= k < i && Normal(before[k]) == t {
      assert upTo[k] == before[k];
    }
    if k :| 0 <= k < i + 1 && Normal(upTo[k]) == t {
      assert k < i ==> before[k] == upTo[k];
    }
  }

  method ExtractSevereWarningReasons(reasons: seq<string>) returns (severe: seq<string>)
    ensures severe == Listed("stderr_error", Warned(reasons, "stderr_error"))
                      + Listed("transport_warning", Warned(reasons, "transport_warning"))
  {
    var seen: set<string> := {};
    severe := [];
    for i := 0 to |reasons|
      invariant Seen(seen, reasons[..i]) && "" !in seen
      invariant forall r :: r in severe <==> r in seen && r in SEVERE_WARNING_REASONS
      invariant forall p, q | 0 <= p < q < |severe| :: severe[p] != severe[q]
    {
      var normalized := Normal(reasons[i]);
      SeesNext(seen, reasons, i);
      if normalized == "" || normalized in seen {
        assert normalized == "" || seen + {normalized} == seen;
        continue;
      }
      seen := seen + {normalized};
      if normalized in SEVERE_WARNING_REASONS {
        severe := severe + [normalized];
      }
    }
    assert reasons[..|reasons|] == reasons;
    SevereTextsDiffer();
    SevereSorted(severe);
    severe := Sorting.Sort(severe, COMPARE_TEXT);
  }

  // ---- the outcome -----------------------------------------------------------------------------

  function Classify(e: ExecutionResult, x: ClassifierInput): ExecutionOutcome {
    if x.blockedReason.Some? && Trimmed(x.blockedReason.value) != "" then Blocked
    else if e.cancelled then OutcomeCancelled
    else if e.error.Some? && MentionsTimeout(e.error.value) then OutcomeTimeout
    else if !e.ok then OutcomeFailed
    else if x.changedFiles == 0 then NoOp
    else if Warned(x.warningReasons, STDERR_ERROR) || Warned(x.warningReasons, TRANSPORT_WARNING)
            || !x.reindexOk || x.reindexMode == FallbackFull then PartialChanges
    else AppliedChanges
  }

  /** The blocked reason says something. */
  predicate IsBlocked(x: ClassifierInput) {
    x.blockedReason.Some? && exists i | 0 <= i < |x.blockedReason.value| :: !Chunker.IsSpace(x.blockedReason.value[i])
  }

  predicate TimedOut(e: ExecutionResult) {
    e.error.Some? && (e.error.value.CommandTimedOut? || (e.error.value.SpawnError? && e.error.value.matches))
  }

  /** A severe reason was given, the reindex failed, or it fell back to a full one. */
  predicate Anomalous(x: ClassifierInput) {
    || (exists i | 0 <= i < |x.warningReasons| ::
          Normal(x.warningReasons[i]) == "stderr_error" || Normal(x.warningReasons[i]) == "transport_warning")
    || !x.reindexOk || x.reindexMode.FallbackFull?
  }

  /** Blocked before cancelled before timed out before failed; and only then what became of the workspace. */
  ghost predicate OutcomeFits(outcome: ExecutionOutcome, e: ExecutionResult, x: ClassifierInput) {
    var ended := IsBlocked(x) || e.cancelled || TimedOut(e) || !e.ok;
    && (outcome.Blocked? <==> IsBlocked(x))
    && (outcome.OutcomeCancelled? <==> !IsBlocked(x) && e.cancelled)
    && (outcome.OutcomeTimeout? <==> !IsBlocked(x) && !e.cancelled && TimedOut(e))
    && (outcome.OutcomeFailed? <==> !IsBlocked(x) && !e.cancelled && !TimedOut(e) && !e.ok)
    && (outcome.NoOp? <==> !ended && x.changedFiles == 0)
    && (outcome.PartialChanges? <==> !ended && x.changedFiles > 0 && Anomalous(x))
    && (outcome.AppliedChanges? <==> !ended && x.changedFiles > 0 && !Anomalous(x))
  }

  /** The outcome is the one that fits the inputs. */
  lemma OutcomesAreExact(e: ExecutionResult, x: ClassifierInput)
    ensures OutcomeFits(Classify(e, x), e, x)
  {
    BlockedMeans(x);
    WarnedMeans(x);
  }

  lemma BlockedMeans(x: ClassifierInput)
    ensures x.blockedReason.Some? && Trimmed(x.blockedReason.value) != "" <==> IsBlocked(x)
  {
    if x.blockedReason.Some? {
      var before, after := TrimMeans(x.blockedReason.value, c => Chunker.IsSpace(c));
    }
  }

  lemma WarnedMeans(x: ClassifierInput)
    ensures Warned(x.warningReasons, "stderr_error") || Warned(x.warningReasons, "transport_warning") <==>
              exists i | 0 <= i < |x.warningReasons| ::
                Normal(x.warningReasons[i]) == "stderr_error" || Normal(x.warningReasons[i]) == "transport_warning"
  {
  }

  /** `severity` and the flags: only partial changes flag their own reasons. */
  method ClassifyExecutionOutcome(e: ExecutionResult, x: ClassifierInput) returns (c: Classification)
    ensures c.outcome == Classify(e, x) && OutcomeFits(c.outcome, e, x)
    ensures c.outcome.Blocked? ==> c.reasons == ["blocked:" + Trimmed(x.blockedReason.value)]
    ensures c.outcome.OutcomeCancelled? ==> c.reasons == ["execution_cancelled"]
    ensures c.outcome.OutcomeTimeout? ==> c.reasons == ["execution_timeout"]
    ensures c.outcome.OutcomeFailed? ==> c.reasons == ["execution_failed"]
    ensures c.outcome.NoOp? ==> c.reasons == ["execution_ok_without_changes"]
    ensures c.outcome.AppliedChanges? ==> c.reasons == ["execution_ok_with_changes"]
    ensures c.outcome.PartialChanges? ==>
              c.reasons == Listed("severe_warning:stderr_error", Warned(x.warningReasons, "stderr_error"))
                           + Listed("severe_warning:transport_warning", Warned(x.warningReasons, "transport_warning"))
                           + Listed("reindex_failed", !x.reindexOk)
                           + Listed("fallback_full_reindex", x.reindexMode.FallbackFull?)
    ensures c.anomalyFlags ==
              if c.outcome.PartialChanges? then c.reasons
              else Listed("stderr_error", Warned(x.warningReasons, "stderr_error"))
                   + Listed("transport_warning", Warned(x.warningReasons, "transport_warning"))
    ensures c.severity.Info? <==> c.outcome.NoOp? || c.outcome.AppliedChanges?
    ensures c.severity.Warning? <==> c.outcome.PartialChanges?
  {
    OutcomesAreExact(e, x);
    var severe := ExtractSevereWarningReasons(x.warningReasons);
    if x.blockedReason.Some? && Trimmed(x.blockedReason.value) != "" {
      return Classification(Blocked, ["blocked:" + Trimmed(x.blockedReason.value)], severe, Error);
    }
    if e.cancelled {
      return Classification(OutcomeCancelled, ["execution_cancelled"], severe, Error);
    }
    if e.error.Some? && MentionsTimeout(e.error.value) {
      return Classification(OutcomeTimeout, ["execution_timeout"], severe, Error);
    }
    if !e.ok {
      return Classification(OutcomeFailed, ["execution_failed"], severe, Error);
    }
    if x.changedFiles == 0 {
      return Classification(NoOp, ["execution_ok_without_changes"], severe, Info);
    }
    var anomalies := Prefixed("severe_warning:", severe);
    SeverePrefixed(Warned(x.warningReasons, "stderr_error"), Warned(x.warningReasons, "transport_warning"));
    if !x.reindexOk {
      anomalies := anomalies + ["reindex_failed"];
    }
    if x.reindexMode == FallbackFull {
      anomalies := anomalies + ["fallback_full_reindex"];
    }
    if |anomalies| > 0 {
      return Classification(PartialChanges, anomalies, anomalies, Warning);
    }
    c := Classification(AppliedChanges, ["execution_ok_with_changes"], severe, Info);
  }

  function Prefixed(prefix: string, texts: seq<string>): (r: seq<string>)
    ensures |r| == |texts| && forall i | 0 <= i < |r| :: r[i] == prefix + texts[i]
  {
    seq(|texts|, i requires 0 <= i < |texts| => prefix + texts[i])
  }

  lemma SeverePrefixed(a: bool, b: bool)
    ensures Prefixed("severe_warning:", Listed("stderr_error", a) + Listed("transport_warning", b))
         == Listed("severe_warning:stderr_error", a) + Listed("severe_warning:transport_warning", b)
  {
    assert "severe_warning:" + "stderr_error" == "severe_warning:stderr_error";
    assert "severe_warning:" + "transport_warning" == "severe_warning:transport_warning";
  }

  // ---- the state of the task -------------------------------------------------------------------

  function FinalTaskState(outcome: ExecutionOutcome): TaskState {
    match outcome
    case AppliedChanges => TaskCompleted
    case NoOp => TaskCompleted
    case PartialChanges => TaskPartial
    case OutcomeCancelled => TaskCancelled
    case OutcomeTimeout => TaskTimeout
    case OutcomeFailed => TaskFailed
    case Blocked => TaskBlocked
  }

  /** The state a task is closed in, by what was executed, what was found after it, and whether it is blocked. */
  ghost predicate ClosedAs(state: TaskState, e: ExecutionResult, x: ClassifierInput, blocked: bool) {
    var ended := blocked || e.cancelled || TimedOut(e) || !e.ok;
    && (state.TaskBlocked? <==> blocked)
    && (state.TaskCancelled? <==> !blocked && e.cancelled)
    && (state.TaskTimeout? <==> !blocked && !e.cancelled && TimedOut(e))
    && (state.TaskFailed? <==> !blocked && !e.cancelled && !TimedOut(e) && !e.ok)
    && (state.TaskCompleted? <==> !ended && (x.changedFiles == 0 || !Anomalous(x)))
    && (state.TaskPartial? <==> !ended && x.changedFiles > 0 && Anomalous(x))
  }

  lemma StatesAreExact(e: ExecutionResult, x: ClassifierInput)
    ensures ClosedAs(FinalTaskState(Classify(e, x)), e, x, IsBlocked(x))
  {
    OutcomesAreExact(e, x);
  }

  predicate Succeeded(s: TaskState) { s.TaskCompleted? || s.TaskPartial? }

  /** What `OkMeansCleanExit` guarantees of every result the runner settles with. */
  predicate Sound(e: ExecutionResult) { e.ok ==> !e.cancelled && e.error == None }

  /** For a sound execution, the task is closed as completed or partial exactly when it went well. */
  lemma SuccessIsOk(e: ExecutionResult, x: ClassifierInput)
    requires Sound(e) && x.blockedReason == None
    ensures Succeeded(FinalTaskState(Classify(e, x))) <==> e.ok
    ensures Terminal(FinalTaskState(Classify(e, x)))
  {
  }
}
