/** `CodexCliRunner.execute`: one child process, an abort signal, a timeout and a force-kill timer
    racing to settle one promise. `CodexExecution` is the object the event handlers share. */
module CodexRunner {
  import opened Prelude

  /** The error messages a result can carry. The text of a spawn error is free; whether
      `isTimeoutMessage` finds its pattern in it comes with the text. */
  datatype ErrorText =
    | CancelledByUser | CancelledBeforeStart | CommandTimedOut | ExitedWithCode(code: Option<int>)
    | SpawnError(message: string, matches: bool)

  predicate MentionsTimeout(e: ErrorText) { e.CommandTimedOut? || (e.SpawnError? && e.matches) }

  datatype ExecutionResult = ExecutionResult(
    ok: bool, cancelled: bool, exitCode: Option<int>, stdout: string, stderr: string, error: Option<ErrorText>)

  datatype Signal = SIGTERM | SIGKILL

  datatype Event =
    | Stdout(chunk: string) | Stderr(chunk: string)
    | Abort | Timeout | ForceKill
    | ChildError(error: ErrorText) | Close(code: Option<int>)

  /** The variables of one call. `abortListening`, `timeoutPending` and `forceKillPending` say what
      the runtime can still deliver; `forceKillSet` is `forceKillTimer !== null`. */
  datatype Machine = Machine(
    settled: bool, timedOut: bool, cancelled: bool,
    abortListening: bool, timeoutPending: bool, forceKillSet: bool, forceKillPending: bool,
    stdout: string, stderr: string, signals: seq<Signal>, resolved: seq<ExecutionResult>)

  function RequestStop(m: Machine, abort: bool): Machine {
    if m.settled then m else
    var flagged := if abort then m.(cancelled := true) else m.(timedOut := true);
    var termed := flagged.(signals := m.signals + [SIGTERM]);
    if m.forceKillSet then termed else termed.(forceKillSet := true, forceKillPending := true)
  }

  function Finish(m: Machine, result: ExecutionResult): Machine {
    if m.settled then m else
    m.(settled := true, timeoutPending := false, forceKillSet := false, forceKillPending := false,
       abortListening := false, resolved := m.resolved + [result])
  }

  function CloseResult(m: Machine, code: Option<int>): ExecutionResult {
    var ok := !m.timedOut && !m.cancelled && code == Some(0);
    var error := if m.cancelled then Some(CancelledByUser) else if m.timedOut then Some(CommandTimedOut)
                 else if code != Some(0) then Some(ExitedWithCode(code)) else None;
    ExecutionResult(ok, m.cancelled, code, m.stdout, m.stderr, error)
  }

  function Handle(m: Machine, e: Event): Machine {
    match e
    case Stdout(chunk) => m.(stdout := m.stdout + chunk)
    case Stderr(chunk) => m.(stderr := m.stderr + chunk)
    case Abort => if m.abortListening then RequestStop(m.(abortListening := false), true) else m
    case Timeout => if m.timeoutPending then RequestStop(m.(timeoutPending := false), false) else m
    case ForceKill =>
      if !m.forceKillPending then m
      else if m.settled then m.(forceKillPending := false)
      else m.(forceKillPending := false, signals := m.signals + [SIGKILL])
    case ChildError(error) => Finish(m, ExecutionResult(false, m.cancelled, None, m.stdout, m.stderr, Some(error)))
    case Close(code) => Finish(m, CloseResult(m, code))
  }

  function Spawned(aborted: bool): Machine {
    var m := Machine(false, false, false, !aborted, true, false, false, "", "", [], []);
    if aborted then RequestStop(m, true) else m
  }

  function Run(aborted: bool, events: seq<Event>): Machine {
    if events == [] then Spawned(aborted) else Handle(Run(aborted, events[..|events| - 1]), events[|events| - 1])
  }

  /** What the promise resolved to, if it did. */
  function Settled(aborted: bool, events: seq<Event>): Option<ExecutionResult> {
    var resolved := Run(aborted, events).resolved;
    if resolved == [] then None else Some(resolved[0])
  }

  class CodexExecution {
    var settled: bool
    var timedOut: bool
    var cancelled: bool
    var abortListening: bool
    var timeoutPending: bool
    var forceKillSet: bool
    var forceKillPending: bool
    var stdout: string
    var stderr: string
    var signals: seq<Signal>
    var resolved: seq<ExecutionResult>

    function State(): Machine
      reads this
    {
      Machine(settled, timedOut, cancelled, abortListening, timeoutPending, forceKillSet, forceKillPending,
              stdout, stderr, signals, resolved)
    }

    constructor (aborted: bool)
      ensures State() == Spawned(aborted)
    {
      settled, timedOut, cancelled := false, false, false;
      abortListening, timeoutPending, forceKillSet, forceKillPending := !aborted, true, false, false;
      stdout, stderr, signals, resolved := "", "", [], [];
      new;
      if aborted {
        StopChild(true);
      }
    }

    method StopChild(abort: bool)
      modifies this
      ensures State() == RequestStop(old(State()), abort)
    {
      if settled {
        return;
      }
      if abort {
        cancelled := true;
      } else {
        timedOut := true;
      }
      signals := signals + [SIGTERM];
      if !forceKillSet {
        forceKillSet, forceKillPending := true, true;
      }
    }

    method Resolve(result: ExecutionResult)
      modifies this
      ensures State() == Finish(old(State()), result)
      ensures |resolved| <= |old(resolved)| + 1
      ensures old(settled) ==> State() == old(State())
    {
      if settled {
        return;
      }
      settled := true;
      timeoutPending, forceKillSet, forceKillPending, abortListening := false, false, false, false;
      resolved := resolved + [result];
    }

    method OnAbort()
      modifies this
      ensures State() == Handle(old(State()), Abort)
    {
      if abortListening {
        abortListening := false;
        StopChild(true);
      }
    }

    method OnTimeout()
      modifies this
      ensures State() == Handle(old(State()), Timeout)
    {
      if timeoutPending {
        timeoutPending := false;
        StopChild(false);
      }
    }

    method OnForceKill()
      modifies this
      ensures State() == Handle(old(State()), ForceKill)
    {
      if forceKillPending {
        forceKillPending := false;
        if settled {
          return;
        }
        signals := signals + [SIGKILL];
      }
    }

    method OnData(e: Event)
      requires e.Stdout? || e.Stderr?
      modifies this
      ensures State() == Handle(old(State()), e)
    {
      if e.Stdout? {
        stdout := stdout + e.chunk;
      } else {
        stderr := stderr + e.chunk;
      }
    }

    method OnError(error: ErrorText)
      modifies this
      ensures State() == Handle(old(State()), ChildError(error))
    {
      Resolve(ExecutionResult(false, cancelled, None, stdout, stderr, Some(error)));
    }

    method OnClose(code: Option<int>)
      modifies this
      ensures State() == Handle(old(State()), Close(code))
    {
      var hasExitedOk := !timedOut && !cancelled && code == Some(0);
      var error: Option<ErrorText> := None;
      if cancelled {
        error := Some(CancelledByUser);
      } else if timedOut {
        error := Some(CommandTimedOut);
      } else if code != Some(0) {
        error := Some(ExitedWithCode(code));
      }
      Resolve(ExecutionResult(hasExitedOk, cancelled, code, stdout, stderr, error));
    }
  }

  // ---- every order of events ---------------------------------------------------------------

  predicate Ends(e: Event) { e.ChildError? || e.Close? }

  /** No event of the sequence can settle the promise. */
  predicate NoEnd(events: seq<Event>) { forall e | e in events :: !Ends(e) }

  function Count(signals: seq<Signal>, s: Signal): nat {
    if signals == [] then 0 else Count(signals[..|signals| - 1], s) + if signals[|signals| - 1] == s then 1 else 0
  }

  function Output(events: seq<Event>): string {
    if events == [] then "" else
    Output(events[..|events| - 1]) + if events[|events| - 1].Stdout? then events[|events| - 1].chunk else ""
  }

  function ErrorOutput(events: seq<Event>): string {
    if events == [] then "" else
    ErrorOutput(events[..|events| - 1]) + if events[|events| - 1].Stderr? then events[|events| - 1].chunk else ""
  }

  /** The promise is open and each flag says exactly whether its event was delivered. */
  ghost predicate OpenAfter(m: Machine, aborted: bool, events: seq<Event>) {
    && !m.settled && m.resolved == []
    && m.abortListening == (!aborted && Abort !in events)
    && m.timeoutPending == (Timeout !in events)
    && m.cancelled == (aborted || Abort in events)
    && m.timedOut == (Timeout in events)
    && m.stdout == Output(events) && m.stderr == ErrorOutput(events)
  }

  lemma {:induction false} BeforeSettling(aborted: bool, events: seq<Event>)
    requires NoEnd(events)
    ensures OpenAfter(Run(aborted, events), aborted, events)
  {
    if events != [] {
      var before, last := events[..|events| - 1], events[|events| - 1];
      assert events == before + [last];
      assert forall e | e in before :: e in events;
      assert last in events;
      BeforeSettling(aborted, before);
      StaysOpen(Run(aborted, before), aborted, before, last);
    }
  }

  lemma StaysOpen(m: Machine, aborted: bool, before: seq<Event>, last: Event)
    requires OpenAfter(m, aborted, before) && !Ends(last)
    ensures OpenAfter(Handle(m, last), aborted, before + [last])
  {
    var events := before + [last];
    assert forall e :: e in events <==> e in before || e == last;
    assert events[..|events| - 1] == before;
    match last {
      case Stdout(_) =>
      case Stderr(_) =>
      case Abort =>
      case Timeout =>
      case ForceKill =>
    }
  }

  /** Settled, with no timer or listener left. */
  ghost predicate Over(m: Machine) {
    m.settled && !m.forceKillPending && !m.abortListening && !m.timeoutPending && !m.forceKillSet
  }

  lemma StaysOver(m: Machine, e: Event)
    requires Over(m)
    ensures var m' := Handle(m, e); Over(m') && m'.resolved == m.resolved && m'.signals == m.signals
  {
    match e {
      case Stdout(_) =>
      case Stderr(_) =>
      case Abort =>
      case Timeout =>
      case ForceKill =>
      case ChildError(_) =>
      case Close(_) =>
    }
  }

  /** The result of a promise that `end` settles after `before`: whether it went well, what it is called if not,
      and all that was written until then. */
  predicate DecidedBy(r: ExecutionResult, aborted: bool, before: seq<Event>, end: Event) {
    && (r.ok <==> end == Close(Some(0)) && !aborted && Abort !in before && Timeout !in before)
    && (r.cancelled <==> aborted || Abort in before)
    && r.exitCode == (if end.Close? then end.code else None)
    && (r.error == None <==> r.ok)
    && (end.ChildError? ==> r.error == Some(end.error))
    && (end.Close? && r.cancelled ==> r.error == Some(CancelledByUser))
    && (end.Close? && !r.cancelled && Timeout in before ==> r.error == Some(CommandTimedOut))
    && (end.Close? && !r.cancelled && Timeout !in before && !r.ok ==> r.error == Some(ExitedWithCode(end.code)))
    && r.stdout == Output(before) && r.stderr == ErrorOutput(before)
  }

  /** The first end event alone decides what the promise resolves to: `ok` exactly for exit code 0
      with nothing aborted or timed out before. It resolves once, and no signal is sent afterwards. */
  lemma {:induction false} FirstEndDecides(aborted: bool, before: seq<Event>, end: Event, after: seq<Event>)
    requires NoEnd(before) && Ends(end)
    ensures var m := Run(aborted, before + [end] + after);
            && Over(m) && |m.resolved| == 1 && DecidedBy(m.resolved[0], aborted, before, end)
            && m.signals == Run(aborted, before).signals
    decreases |after|
  {
    var events := before + [end] + after;
    if after == [] {
      assert events[..|events| - 1] == before;
      BeforeSettling(aborted, before);
      Settles(Run(aborted, before), aborted, before, end);
    } else {
      var shorter := after[..|after| - 1];
      FirstEndDecides(aborted, before, end, shorter);
      assert events[..|events| - 1] == before + [end] + shorter;
      StaysOver(Run(aborted, before + [end] + shorter), events[|events| - 1]);
    }
  }

  lemma Settles(m: Machine, aborted: bool, before: seq<Event>, end: Event)
    requires OpenAfter(m, aborted, before) && Ends(end)
    ensures var m' := Handle(m, end);
            && Over(m') && |m'.resolved| == 1 && m'.signals == m.signals
            && DecidedBy(m'.resolved[0], aborted, before, end)
  {
    if end.ChildError? {
      assert Handle(m, end)
        == Finish(m, ExecutionResult(false, m.cancelled, None, m.stdout, m.stderr, Some(end.error)));
    } else {
      assert Handle(m, end) == Finish(m, CloseResult(m, end.code));
    }
  }

  /** `execute` resolves exactly once if an error or close event occurs, and otherwise not at all. */
  lemma ResolvesExactlyOnce(aborted: bool, events: seq<Event>)
    ensures |Run(aborted, events).resolved| == if NoEnd(events) then 0 else 1
  {
    if NoEnd(events) {
      BeforeSettling(aborted, events);
    } else {
      var i := FirstEnd(events);
      assert events == events[..i] + [events[i]] + events[i + 1..];
      FirstEndDecides(aborted, events[..i], events[i], events[i + 1..]);
    }
  }

  lemma {:induction false} FirstEnd(events: seq<Event>) returns (i: nat)
    requires !NoEnd(events)
    ensures i < |events| && Ends(events[i]) && NoEnd(events[..i])
  {
    if NoEnd(events[..|events| - 1]) {
      i := |events| - 1;
    } else {
      i := FirstEnd(events[..|events| - 1]);
      assert events[..|events| - 1][..i] == events[..i];
    }
  }

  /** Every settled result was decided by the first error or close event. */
  lemma SettledIsDecided(aborted: bool, events: seq<Event>) returns (i: nat)
    requires Settled(aborted, events).Some?
    ensures i < |events| && Ends(events[i]) && NoEnd(events[..i])
    ensures DecidedBy(Settled(aborted, events).value, aborted, events[..i], events[i])
  {
    ResolvesExactlyOnce(aborted, events);
    i := FirstEnd(events);
    assert events == events[..i] + [events[i]] + events[i + 1..];
    FirstEndDecides(aborted, events[..i], events[i], events[i + 1..]);
  }

  /** A result with `ok` came from a clean exit: code 0, nothing aborted or timed out before it. */
  lemma OkMeansCleanExit(aborted: bool, events: seq<Event>)
    ensures var r := Settled(aborted, events);
            r.Some? && r.value.ok ==>
              r.value.exitCode == Some(0) && !r.value.cancelled && r.value.error == None && !aborted
  {
    if Settled(aborted, events).Some? {
      var i := SettledIsDecided(aborted, events);
    }
  }

  /** How many SIGTERMs were and can still be sent, and where SIGKILL may stand. */
  ghost predicate SignalsOk(m: Machine) {
    && Count(m.signals, SIGTERM) + (if m.abortListening then 1 else 0) + (if m.timeoutPending then 1 else 0) <= 2
    && Count(m.signals, SIGKILL) <= 1
    && (m.forceKillPending || (!m.settled && !m.forceKillSet) ==> Count(m.signals, SIGKILL) == 0)
    && (m.forceKillPending ==> m.signals != [])
    && (m.signals != [] ==> m.signals[0] == SIGTERM)
    && (m.forceKillPending ==> m.forceKillSet)
  }

  lemma StopKeepsSignals(m: Machine, abort: bool)
    requires SignalsOk(m)
    requires Count(m.signals, SIGTERM) + (if m.abortListening then 1 else 0) + (if m.timeoutPending then 1 else 0) <= 1
    ensures SignalsOk(RequestStop(m, abort))
  {
    CountSnoc(m.signals, SIGTERM);
  }

  /** At most two SIGTERMs and one SIGKILL are sent, and SIGKILL only after a SIGTERM; by
      `FirstEndDecides` the signals stop changing at the first end event. */
  lemma {:induction false} SignalsAreBounded(aborted: bool, events: seq<Event>)
    ensures SignalsOk(Run(aborted, events))
  {
    if events == [] {
      var m := Machine(false, false, false, !aborted, true, false, false, "", "", [], []);
      if aborted {
        StopKeepsSignals(m, true);
      }
    } else {
      SignalsAreBounded(aborted, events[..|events| - 1]);
      HandleKeepsSignals(Run(aborted, events[..|events| - 1]), events[|events| - 1]);
    }
  }

  lemma KillKeepsSignals(m: Machine)
    requires SignalsOk(m)
    ensures SignalsOk(Handle(m, ForceKill))
  {
    CountSnoc(m.signals, SIGKILL);
  }

  lemma FinishKeepsSignals(m: Machine, r: ExecutionResult)
    requires SignalsOk(m)
    ensures SignalsOk(Finish(m, r))
  {
  }

  lemma AbortKeepsSignals(m: Machine)
    requires SignalsOk(m)
    ensures SignalsOk(Handle(m, Abort))
  {
    if m.abortListening {
      StopKeepsSignals(m.(abortListening := false), true);
    }
  }

  lemma TimeoutKeepsSignals(m: Machine)
    requires SignalsOk(m)
    ensures SignalsOk(Handle(m, Timeout))
  {
    if m.timeoutPending {
      StopKeepsSignals(m.(timeoutPending := false), false);
    }
  }

  lemma HandleKeepsSignals(m: Machine, e: Event)
    requires SignalsOk(m)
    ensures SignalsOk(Handle(m, e))
  {
    match e {
      case Stdout(_) =>
      case Stderr(_) =>
      case Abort =>
        AbortKeepsSignals(m);
      case Timeout =>
        TimeoutKeepsSignals(m);
      case ForceKill =>
        KillKeepsSignals(m);
      case ChildError(error) =>
        FinishKeepsSignals(m, ExecutionResult(false, m.cancelled, None, m.stdout, m.stderr, Some(error)));
      case Close(code) =>
        FinishKeepsSignals(m, CloseResult(m, code));
    }
  }

  lemma CountSnoc(signals: seq<Signal>, last: Signal)
    ensures forall s :: Count(signals + [last], s) == Count(signals, s) + if last == s then 1 else 0
  {
    assert (signals + [last])[..|signals|] == signals;
  }

  // ---- which signals are sent ------------------------------------------------------------------

  /** The child has been asked to stop. */
  predicate Stopped(aborted: bool, events: seq<Event>) { aborted || Abort in events || Timeout in events }

  /** The force-kill timer has fired after that. */
  predicate Killed(aborted: bool, events: seq<Event>) {
    if events == [] then false
    else
      var (before, last) := (events[..|events| - 1], events[|events| - 1]);
      Killed(aborted, before) || (last.ForceKill? && Stopped(aborted, before))
  }

  /** One SIGTERM for the abort, one for the timeout, and one SIGKILL once the timer has fired. */
  ghost predicate Signalled(m: Machine, aborted: bool, events: seq<Event>) {
    && m.forceKillSet == Stopped(aborted, events)
    && m.forceKillPending == (Stopped(aborted, events) && !Killed(aborted, events))
    && Count(m.signals, SIGTERM)
       == (if aborted || Abort in events then 1 else 0) + (if Timeout in events then 1 else 0)
    && Count(m.signals, SIGKILL) == (if Killed(aborted, events) then 1 else 0)
  }

  /** Until the promise is settled exactly these signals are sent; afterwards, by `FirstEndDecides`, none. */
  lemma {:induction false} SignalsAreExact(aborted: bool, events: seq<Event>)
    requires NoEnd(events)
    ensures Signalled(Run(aborted, events), aborted, events)
  {
    if events == [] {
      CountSnoc([], SIGTERM);
    } else {
      var (before, last) := (events[..|events| - 1], events[|events| - 1]);
      assert events == before + [last];
      assert forall e | e in before :: e in events;
      assert last in events;
      SignalsAreExact(aborted, before);
      BeforeSettling(aborted, before);
      StaysSignalled(Run(aborted, before), aborted, before, last);
    }
  }

  lemma StaysSignalled(m: Machine, aborted: bool, before: seq<Event>, last: Event)
    requires OpenAfter(m, aborted, before) && Signalled(m, aborted, before) && !Ends(last)
    ensures Signalled(Handle(m, last), aborted, before + [last])
  {
    var events := before + [last];
    assert forall e :: e in events <==> e in before || e == last;
    assert events[..|events| - 1] == before;
    KilledWasStopped(aborted, before);
    CountSnoc(m.signals, SIGTERM);
    CountSnoc(m.signals, SIGKILL);
    match last {
      case Stdout(_) =>
      case Stderr(_) =>
      case Abort =>
      case Timeout =>
      case ForceKill =>
    }
  }

  lemma {:induction false} KilledWasStopped(aborted: bool, events: seq<Event>)
    ensures Killed(aborted, events) ==> Stopped(aborted, events)
  {
    if events != [] {
      KilledWasStopped(aborted, events[..|events| - 1]);
      assert forall e | e in events[..|events| - 1] :: e in events;
    }
  }
}
