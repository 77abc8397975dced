/** What holds over every serial run of propose, ratify and reject. */
module RatificationTheorems {
  import opened Prelude
  import opened Ratification

  /** The tables after any sequence of calls, from no proposals and no decisions. */
  function Run(contexts: seq<Context>, calls: seq<Call>): Db {
    if calls == [] then Db([], [], [], contexts) else After(Run(contexts, calls[..|calls| - 1]), calls[|calls| - 1]).0
  }

  /** proposed, in review, then one terminal status: a prefix of that, once committed past the first. */
  predicate Lifecycle(history: seq<Status>) {
    && 2 <= |history| <= 3 && history[0].Proposed? && history[1].InReview? && (|history| == 3 ==> Terminal(history[2]))
  }

  /** The decision is filed under the proposal's scope, and the key its payload gives or else its target. */
  predicate KeyFits(key: DecisionKey, p: Proposal) {
    && key.workspace == p.workspace && key.project == p.project && key.task == p.task
    && key.key == (if p.payload.decisionKey != "" then p.payload.decisionKey else p.targetKey)
  }

  /** It says what the payload says, and where that is silent what the proposal says. */
  predicate FieldsFit(fields: DecisionFields, p: Proposal, i: RowId, actor: string) {
    && fields.title == (if p.payload.title != "" then p.payload.title else p.targetKey)
    && fields.decision == (if p.payload.decision != "" then p.payload.decision else p.rationale)
    && fields.rationale == (if p.payload.rationale != "" then p.payload.rationale else p.rationale)
    && fields.category == (if p.payload.category != "" then p.payload.category else "general")
    && fields.approvedBy == actor && fields.proposal == i
  }

  ghost predicate ProposalOk(db: Db, p: Proposal) {
    && Lifecycle(p.history) && p.status == p.history[|p.history| - 1]
    && (p.status.Ratified? ==>
          && !Blank(p.ratifiedBy) && p.ratifiedAt.Some?
          && (p.kind.DecisionKind? ==>
            p.ratifiedDecision.Some? && p.ratifiedDecision.value < |db.decisions|
              && KeyFits(db.decisions[p.ratifiedDecision.value].key, p)))
    && (!p.status.Ratified? ==> p.ratifiedBy == "" && p.ratifiedAt.None? && p.ratifiedDecision.None?)
  }

  /** A decision comes from a ratified proposal and carries its name. */
  ghost predicate DecisionOk(db: Db, d: Decision) {
    && d.fields.proposal < |db.proposals|
    && var p := db.proposals[d.fields.proposal];
       p.status.Ratified? && p.kind.DecisionKind? && KeyFits(d.key, p)
         && FieldsFit(d.fields, p, d.fields.proposal, p.ratifiedBy)
  }

  ghost predicate KeysDistinct(decisions: seq<Decision>) {
    forall i, j | 0 <= i < j < |decisions| :: decisions[i].key != decisions[j].key
  }

  ghost predicate IdempotencyKeysDistinct(proposals: seq<Proposal>) {
    forall i, j | 0 <= i < j < |proposals| ::
      proposals[i].idempotencyKey != "" ==>
        !(proposals[i].workspace == proposals[j].workspace
          && proposals[i].idempotencyKey == proposals[j].idempotencyKey)
  }

  ghost predicate Inv(db: Db) {
    && (forall i | 0 <= i < |db.proposals| :: ProposalOk(db, db.proposals[i]))
    && (forall i | 0 <= i < |db.decisions| :: DecisionOk(db, db.decisions[i]))
    && KeysDistinct(db.decisions) && IdempotencyKeysDistinct(db.proposals)
  }

  /** What an update in place, or a new row, leaves of the decisions. */
  lemma PutKeeps(decisions: seq<Decision>, d: Decision)
    requires KeysDistinct(decisions)
    ensures var (r, at) := (Put(decisions, d), Find(decisions, d.key));
            && at < |r| && r[at] == d && |decisions| <= |r|
            && (forall i | 0 <= i < |r| && i != at :: i < |decisions| && r[i] == decisions[i] && r[i].key != d.key)
            && (forall i | 0 <= i < |decisions| :: r[i].key == decisions[i].key)
    ensures KeysDistinct(Put(decisions, d))
  {
  }

  lemma ChangedRowKeepsKeys(proposals: seq<Proposal>, i: RowId, p: Proposal)
    requires IdempotencyKeysDistinct(proposals) && i < |proposals|
    requires p.workspace == proposals[i].workspace && p.idempotencyKey == proposals[i].idempotencyKey
    ensures IdempotencyKeysDistinct(proposals[i := p])
  {
  }

  /** A row that stays stays as good as it was. */
  lemma ProposalStaysOk(db: Db, db': Db, p: Proposal)
    requires ProposalOk(db, p) && |db.decisions| <= |db'.decisions|
    requires forall i | 0 <= i < |db.decisions| :: db'.decisions[i].key == db.decisions[i].key
    ensures ProposalOk(db', p)
  {
  }

  lemma DecisionStaysOk(db: Db, db': Db, d: Decision)
    requires DecisionOk(db, d) && d.fields.proposal < |db'.proposals|
    requires db'.proposals[d.fields.proposal] == db.proposals[d.fields.proposal]
    ensures DecisionOk(db', d)
  {
  }

  /** Row `at` is written, in place or behind the last one; the others stay, and no key changes. */
  ghost predicate Writes(was: seq<Decision>, now: seq<Decision>, at: nat, d: Decision) {
    && at < |now| && now[at] == d && |was| <= |now|
    && (forall j | 0 <= j < |now| && j != at :: j < |was| && now[j] == was[j])
    && (forall j | 0 <= j < |was| :: now[j].key == was[j].key)
  }

  lemma RatifyKeepsInv(db: Db, i: RowId, actor: string, now: int)
    requires Inv(db) && i < |db.proposals| && db.proposals[i].status.InReview? && !Blank(actor)
    ensures Inv(RatifiedDb(db, i, actor, now))
  {
    var (p, db') := (db.proposals[i], RatifiedDb(db, i, actor, now));
    var (d, at) := (Decision(KeyOf(p), FieldsOf(p, i, actor)), Find(db.decisions, KeyOf(p)));
    var q := RatifiedBy(p, actor, now, if p.kind.DecisionKind? then Some(at) else None);
    assert db'.proposals == db.proposals[i := q];
    ChangedRowKeepsKeys(db.proposals, i, q);
    PutKeeps(db.decisions, d);
    assert ProposalOk(db, p);
    if p.kind.DecisionKind? {
      assert db'.decisions == Put(db.decisions, d) && Writes(db.decisions, db'.decisions, at, d);
      DecisionRatified(db, db', i, q, at, d);
    } else {
      assert db'.decisions == db.decisions;
      OtherRatified(db, db', i, q);
    }
  }

  /** The proposal as it is ratified. */
  predicate RatifiedRow(p: Proposal, q: Proposal) {
    && p.status.InReview? && q.status.Ratified? && !Blank(q.ratifiedBy) && q.ratifiedAt.Some?
    && q.history == p.history + [Ratified]
    && q == p.(status := q.status, history := q.history, ratifiedBy := q.ratifiedBy, ratifiedAt := q.ratifiedAt,
               ratifiedDecision := q.ratifiedDecision)
  }

  lemma DecisionRatified(db: Db, db': Db, i: RowId, q: Proposal, at: RowId, d: Decision)
    requires Inv(db) && i < |db.proposals| && db'.proposals == db.proposals[i := q] && RatifiedRow(db.proposals[i], q)
    requires q.kind.DecisionKind? && q.ratifiedDecision == Some(at) && Writes(db.decisions, db'.decisions, at, d)
    requires KeyFits(d.key, q) && FieldsFit(d.fields, q, i, q.ratifiedBy)
    ensures forall j | 0 <= j < |db'.proposals| :: ProposalOk(db', db'.proposals[j])
    ensures forall j | 0 <= j < |db'.decisions| :: DecisionOk(db', db'.decisions[j])
  {
    assert ProposalOk(db, db.proposals[i]);
    forall j | 0 <= j < |db'.proposals| ensures ProposalOk(db', db'.proposals[j]) {
      if j != i {
        ProposalStaysOk(db, db', db.proposals[j]);
      }
    }
    forall j | 0 <= j < |db'.decisions| ensures DecisionOk(db', db'.decisions[j]) {
      var row := db'.decisions[j];
      if j != at {
        assert j < |db.decisions| && row == db.decisions[j];
        OpenProposalsHaveNone(db, j, i);
        DecisionStaysOk(db, db', db.decisions[j]);
      }
    }
  }

  lemma OtherRatified(db: Db, db': Db, i: RowId, q: Proposal)
    requires Inv(db) && i < |db.proposals| && db'.proposals == db.proposals[i := q] && RatifiedRow(db.proposals[i], q)
    requires !q.kind.DecisionKind? && db'.decisions == db.decisions
    ensures forall j | 0 <= j < |db'.proposals| :: ProposalOk(db', db'.proposals[j])
    ensures forall j | 0 <= j < |db'.decisions| :: DecisionOk(db', db'.decisions[j])
  {
    assert ProposalOk(db, db.proposals[i]);
    forall j | 0 <= j < |db'.proposals| ensures ProposalOk(db', db'.proposals[j]) {
      if j != i {
        ProposalStaysOk(db, db', db.proposals[j]);
      }
    }
    forall j | 0 <= j < |db'.decisions| ensures DecisionOk(db', db'.decisions[j]) {
      OpenProposalsHaveNone(db, j, i);
      DecisionStaysOk(db, db', db.decisions[j]);
    }
  }

  lemma OpenProposalsHaveNone(db: Db, j: nat, i: RowId)
    requires Inv(db) && j < |db.decisions| && i < |db.proposals| && !db.proposals[i].status.Ratified?
    ensures DecisionOk(db, db.decisions[j]) && db.decisions[j].fields.proposal != i
  {
    assert DecisionOk(db, db.decisions[j]);
  }

  lemma CommittedIsPastProposed(db: Db, p: Proposal)
    requires ProposalOk(db, p)
    ensures InReviewNow(p) == p
  {
  }

  /** A committed proposal is past proposed: proposing adds a row in review, or finds one and leaves it. */
  lemma ProposeAddsAtMostOne(db: Db, c: Call)
    requires Inv(db) && c.Propose? && c.caller.workspace.Some? && c.kind.Some?
    ensures var (rows, at) := Proposals(db, c);
            && at <= |db.proposals|
            && rows == if at < |db.proposals| then db.proposals else db.proposals + [Moved(NewProposal(c), InReview)]
  {
    var at := PlaceOf(db, c);
    if at < |db.proposals| {
      assert ProposalOk(db, db.proposals[at]);
      CommittedIsPastProposed(db, db.proposals[at]);
      assert db.proposals[at := db.proposals[at]] == db.proposals;
    } else {
      assert InReviewNow(NewProposal(c)) == Moved(NewProposal(c), InReview);
    }
  }

  lemma AddedRowKeepsKeys(db: Db, c: Call)
    requires IdempotencyKeysDistinct(db.proposals) && c.Propose? && c.caller.workspace.Some? && c.kind.Some?
    ensures IdempotencyKeysDistinct(Proposals(db, c).0)
  {
  }

  lemma ProposeKeepsInv(db: Db, db': Db, c: Call)
    requires Inv(db) && c.Propose? && c.caller.workspace.Some? && c.kind.Some?
    requires db'.proposals == Proposals(db, c).0 && db'.decisions == db.decisions
    ensures Inv(db')
  {
    AddedRowKeepsKeys(db, c);
    ProposeAddsAtMostOne(db, c);
    forall j | 0 <= j < |db'.proposals| ensures ProposalOk(db', db'.proposals[j]) {
      if j < |db.proposals| {
        assert ProposalOk(db, db.proposals[j]);
        ProposalStaysOk(db, db', db.proposals[j]);
      }
    }
    forall j | 0 <= j < |db.decisions| ensures DecisionOk(db', db.decisions[j]) {
      assert DecisionOk(db, db.decisions[j]);
      DecisionStaysOk(db, db', db.decisions[j]);
    }
  }

  lemma RejectKeepsInv(db: Db, c: Call)
    requires Inv(db) && c.Reject? && After(db, c).1.Done?
    ensures Inv(After(db, c).0)
  {
    var (db', i) := (After(db, c).0, c.proposal.value);
    assert ProposalOk(db, db.proposals[i]);
    assert db'.proposals == db.proposals[i := Moved(db.proposals[i], Rejected)] && db'.decisions == db.decisions;
    forall j | 0 <= j < |db.proposals| ensures ProposalOk(db', db'.proposals[j]) {
      if j != i {
        ProposalStaysOk(db, db', db.proposals[j]);
      }
    }
    forall j | 0 <= j < |db.decisions| ensures DecisionOk(db', db.decisions[j]) {
      assert DecisionOk(db, db.decisions[j]);
      DecisionStaysOk(db, db', db.decisions[j]);
    }
  }

  lemma {:induction false} Reachable(contexts: seq<Context>, calls: seq<Call>)
    ensures Inv(Run(contexts, calls))
  {
    if calls != [] {
      var (before, c) := (calls[..|calls| - 1], calls[|calls| - 1]);
      Reachable(contexts, before);
      var db := Run(contexts, before);
      RefusedCallsChangeNothing(db, c);
      if After(db, c).1.Done? {
        match c {
          case Propose(_, _, _, _, _, _, _, _, _, _) => ProposeKeepsInv(db, After(db, c).0, c);
          case Reject(_, _, _) => RejectKeepsInv(db, c);
          case Ratify(_, i, actor, now, _) => RatifyKeepsInv(db, i.value, actor, now);
        }
      }
    }
  }

  /** In every run: each proposal went through proposed and in review to at most one terminal status; a
      ratified one names who ratified it and when; every decision stems from a ratified proposal, and
      there is at most one per workspace, project, task and key. */
  lemma RunsAreOrderly(contexts: seq<Context>, calls: seq<Call>, i: nat, j: nat)
    ensures OrderlyAt(Run(contexts, calls), i, j)
  {
    Reachable(contexts, calls);
    OrderlyMeans(Run(contexts, calls), i, j);
  }

  ghost predicate OrderlyAt(db: Db, i: nat, j: nat) {
    && (i < |db.proposals| ==>
          var p := db.proposals[i];
          && Lifecycle(p.history) && p.status == p.history[|p.history| - 1]
          && (p.status.Ratified? ==> !Blank(p.ratifiedBy) && p.ratifiedAt.Some?))
    && (i < |db.decisions| ==> DecisionOk(db, db.decisions[i]))
    && (i < j < |db.decisions| ==> db.decisions[i].key != db.decisions[j].key)
  }

  lemma OrderlyMeans(db: Db, i: nat, j: nat)
    requires Inv(db)
    ensures OrderlyAt(db, i, j)
  {
    assert i < |db.proposals| ==> ProposalOk(db, db.proposals[i]);
  }

  /** A call that is not answered with ok leaves every table as it was. */
  lemma RefusedCallsChangeNothing(db: Db, c: Call)
    ensures !After(db, c).1.Done? ==> After(db, c).0 == db
  {
  }

  /** A call leaves a proposal alone, or extends the history of one that is still open. */
  predicate Extends(was: Proposal, now: Proposal) {
    now == was || (!Terminal(was.status) && exists to :: now.history == was.history + [to])
  }

  lemma ProposalStep(db: Db, c: Call, i: RowId)
    requires Inv(db) && i < |db.proposals|
    ensures i < |After(db, c).0.proposals| && Extends(db.proposals[i], After(db, c).0.proposals[i])
  {
    assert ProposalOk(db, db.proposals[i]);
    RefusedCallsChangeNothing(db, c);
    if After(db, c).1.Done? {
      match c {
        case Propose(_, _, _, _, _, _, _, _, _, _) =>
          ProposeAddsAtMostOne(db, c);
        case Ratify(_, at, actor, now, _) =>
          assert i == at.value ==> After(db, c).0.proposals[i].history == db.proposals[i].history + [Ratified];
        case Reject(_, at, _) =>
          assert i == at.value ==> After(db, c).0.proposals[i].history == db.proposals[i].history + [Rejected];
      }
    }
  }

  /** A ratified, rejected or superseded proposal never changes again. */
  lemma {:induction false} TerminalProposalsAreForever(contexts: seq<Context>, calls: seq<Call>, n: nat, i: RowId)
    requires n <= |calls| && i < |Run(contexts, calls[..n]).proposals|
    requires Terminal(Run(contexts, calls[..n]).proposals[i].status)
    ensures i < |Run(contexts, calls).proposals|
    ensures Run(contexts, calls).proposals[i] == Run(contexts, calls[..n]).proposals[i]
    decreases |calls|
  {
    if n < |calls| {
      var before := calls[..|calls| - 1];
      assert before[..n] == calls[..n];
      TerminalProposalsAreForever(contexts, before, n, i);
      Reachable(contexts, before);
      ProposalStep(Run(contexts, before), calls[|calls| - 1], i);
    } else {
      assert calls[..n] == calls;
    }
  }

  // ---- what a call answers -----------------------------------------------------------------------

  predicate MayCall(caller: Caller) { caller.workspace.Some? && caller.allowed }

  /** The call names a row of the caller's workspace. */
  predicate NamesOne(db: Db, caller: Caller, proposal: Option<RowId>) {
    && proposal.Some? && proposal.value < |db.proposals|
    && caller.workspace == Some(db.proposals[proposal.value].workspace)
  }

  /** And this is it. */
  predicate Names(db: Db, caller: Caller, proposal: Option<RowId>, p: Proposal) {
    && proposal.Some? && proposal.value < |db.proposals| && p == db.proposals[proposal.value]
    && caller.workspace == Some(p.workspace)
  }

  /** A change is taken up exactly if the caller may, it is not a dry run, kind, target and rationale are given, and
      no statement throws. */
  lemma ProposeAnswers(db: Db, c: Call)
    requires c.Propose?
    ensures After(db, c).1.ScopeError? <==> !MayCall(c.caller)
    ensures After(db, c).1.DryRun? <==> MayCall(c.caller) && c.dryRun && c.kind.Some?
    ensures After(db, c).1.InvalidRequest? <==>
              MayCall(c.caller) && (c.kind.None? || (!c.dryRun && (Blank(c.targetKey) || Blank(c.rationale))))
    ensures c.fault.NoFault? ==>
              (After(db, c).1.Done? <==>
                MayCall(c.caller) && !c.dryRun && c.kind.Some? && !Blank(c.targetKey) && !Blank(c.rationale))
  {
  }

  /** A proposal is ratified exactly if the caller may, it is in review in the caller's workspace, the actor has a
      name, and no statement throws. */
  lemma RatifyAnswers(db: Db, c: Call, p: Proposal)
    requires c.Ratify?
    ensures After(db, c).1.ScopeError? <==> !MayCall(c.caller)
    ensures MayCall(c.caller) && c.proposal.None? ==> After(db, c).1.InvalidRequest?
    ensures After(db, c).1.NotFound? <==>
              MayCall(c.caller) && c.proposal.Some? && !NamesOne(db, c.caller, c.proposal)
    ensures MayCall(c.caller) && Names(db, c.caller, c.proposal, p) ==>
              var threw := match c.fault
                           case NoFault => false
                           case AtDecision => p.kind.DecisionKind?
                           case AtEvent => p.task.Some? && p.project.Some?
                           case _ => true;
              && (After(db, c).1.Done? <==> p.status == InReview && !Blank(c.actor) && !threw)
              && (!threw ==> (After(db, c).1.InvalidTransition? <==> p.status != InReview))
              && (!threw ==> (After(db, c).1.InvalidRequest? <==> p.status == InReview && Blank(c.actor)))
  {
  }

  lemma RejectAnswers(db: Db, c: Call, p: Proposal)
    requires c.Reject?
    ensures After(db, c).1.ScopeError? <==> !MayCall(c.caller)
    ensures After(db, c).1.InvalidRequest? <==> MayCall(c.caller) && c.proposal.None?
    ensures MayCall(c.caller) && Names(db, c.caller, c.proposal, p) ==>
              && (After(db, c).1.InvalidTransition? <==> p.status != Proposed && p.status != InReview)
              && (c.fault.NoFault? ==> (After(db, c).1.Done? <==> p.status == Proposed || p.status == InReview))
  {
  }

  // ---- what a call commits -----------------------------------------------------------------------

  /** The event of a proposal with a task and a project, and no other. */
  ghost predicate Recorded(db: Db, db': Db, i: RowId, kind: EventType)
    requires i < |db'.proposals|
  {
    var p := db'.proposals[i];
    db'.events == if p.task.Some? && p.project.Some? then db.events + [Event(kind, i)] else db.events
  }

  /** All rows but row i stay. */
  ghost predicate OnlyChanges(was: seq<Proposal>, now: seq<Proposal>, i: RowId) {
    |now| == |was| && forall j | 0 <= j < |was| && j != i :: now[j] == was[j]
  }

  /** A change that was proposed is found in review as it was proposed, once per idempotency key; nothing else is
      touched. */
  lemma ProposalIsFiled(db: Db, c: Call) returns (at: RowId)
    requires Inv(db) && c.Propose? && After(db, c).1.Done?
    ensures var db' := After(db, c).0;
            && at < |db'.proposals| && db'.decisions == db.decisions && db'.contexts == db.contexts
            && Recorded(db, db', at, Raised)
            && (if at < |db.proposals|
                then
                  && db'.proposals == db.proposals && c.idempotencyKey != ""
                  && Some(db.proposals[at].workspace) == c.caller.workspace
                  && db.proposals[at].idempotencyKey == c.idempotencyKey
                else
                  && at == |db.proposals| && |db'.proposals| == |db.proposals| + 1
                  && (forall j | 0 <= j < |db.proposals| :: db'.proposals[j] == db.proposals[j])
                  && FiledAs(db'.proposals[at], c)
                  && (c.idempotencyKey != "" ==>
                        forall j | 0 <= j < |db.proposals| && Some(db.proposals[j].workspace) == c.caller.workspace ::
                          db.proposals[j].idempotencyKey != c.idempotencyKey))
  {
    at := PlaceOf(db, c);
    ProposeAddsAtMostOne(db, c);
    ProposeCommits(db, c);
    if at == |db.proposals| {
      NobodyHasTheKey(db, c);
    }
  }

  lemma ProposeCommits(db: Db, c: Call)
    requires c.Propose? && After(db, c).1.Done?
    ensures c.caller.workspace.Some? && c.kind.Some?
    ensures var (db', rows, at) := (After(db, c).0, Proposals(db, c).0, Proposals(db, c).1);
            && db'.proposals == rows && at < |rows| && db'.decisions == db.decisions && db'.contexts == db.contexts
            && Recorded(db, db', at, Raised)
  {
  }

  lemma NobodyHasTheKey(db: Db, c: Call)
    requires c.Propose? && c.caller.workspace.Some? && PlaceOf(db, c) == |db.proposals|
    ensures c.idempotencyKey != "" ==>
              forall j | 0 <= j < |db.proposals| && Some(db.proposals[j].workspace) == c.caller.workspace ::
                db.proposals[j].idempotencyKey != c.idempotencyKey
  {
  }

  predicate FiledAs(p: Proposal, c: Call)
    requires c.Propose?
  {
    && Some(p.workspace) == c.caller.workspace && p.project == c.project && p.task == c.task && Some(p.kind) == c.kind
    && p.targetKey == c.targetKey && p.rationale == c.rationale && p.payload == c.payload
    && p.idempotencyKey == c.idempotencyKey && p.status == InReview && p.ratifiedBy == "" && p.ratifiedDecision.None?
  }

  /** A ratified proposal is in the caller's workspace and was in review; it names who ratified it and when, and
      keeps the rest. */
  lemma RatifiedIsNamed(db: Db, c: Call)
    requires c.Ratify? && After(db, c).1.Done?
    ensures c.proposal.Some? && c.proposal.value < |db.proposals| && !Blank(c.actor)
    ensures var (db', i) := (After(db, c).0, c.proposal.value);
            && OnlyChanges(db.proposals, db'.proposals, i) && Recorded(db, db', i, RatifiedEvent)
            && var (was, now) := (db.proposals[i], db'.proposals[i]);
               && Some(was.workspace) == c.caller.workspace && was.status == InReview && now.status == Ratified
               && now.ratifiedBy == c.actor && now.ratifiedAt == Some(c.now)
               && (now.ratifiedDecision.Some? <==> was.kind.DecisionKind?)
               && now == was.(status := now.status, history := now.history, ratifiedBy := now.ratifiedBy,
                              ratifiedAt := now.ratifiedAt, ratifiedDecision := now.ratifiedDecision)
  {
  }

  /** A rejected one was proposed or in review, and nothing but its status changes. */
  lemma RejectedIsMarked(db: Db, c: Call)
    requires c.Reject? && After(db, c).1.Done?
    ensures c.proposal.Some? && c.proposal.value < |db.proposals|
    ensures var (db', i) := (After(db, c).0, c.proposal.value);
            && OnlyChanges(db.proposals, db'.proposals, i) && Recorded(db, db', i, RejectedEvent)
            && db'.decisions == db.decisions && db'.contexts == db.contexts
            && var (was, now) := (db.proposals[i], db'.proposals[i]);
               && Some(was.workspace) == c.caller.workspace && (was.status == Proposed || was.status == InReview)
               && now.status == Rejected && now == was.(status := now.status, history := now.history)
  {
  }

  /** Ratifying a decision leaves exactly one decision under its key, which says what the proposal says; every other
      decision stays. Ratifying anything else leaves the decisions alone. */
  lemma DecisionIsWritten(db: Db, c: Call)
    requires KeysDistinct(db.decisions) && c.Ratify? && After(db, c).1.Done?
    ensures var (db', p) := (After(db, c).0, db.proposals[c.proposal.value]);
            if p.kind.DecisionKind? then
              && db'.proposals[c.proposal.value].ratifiedDecision.Some?
              && var at := db'.proposals[c.proposal.value].ratifiedDecision.value;
                 && at < |db'.decisions| && KeyFits(db'.decisions[at].key, p)
                 && FieldsFit(db'.decisions[at].fields, p, c.proposal.value, c.actor)
                 && (forall j | 0 <= j < |db'.decisions| && j != at ::
                       j < |db.decisions| && db'.decisions[j] == db.decisions[j] && !KeyFits(db'.decisions[j].key, p))
                 && |db.decisions| <= |db'.decisions|
            else db'.decisions == db.decisions
  {
    var p := db.proposals[c.proposal.value];
    PutKeeps(db.decisions, Decision(KeyOf(p), FieldsOf(p, c.proposal.value, c.actor)));
    KeyIsKeyOf(p);
  }

  lemma KeyIsKeyOf(p: Proposal)
    ensures forall key: DecisionKey :: KeyFits(key, p) <==> key == KeyOf(p)
  {
  }

  // ---- stale contexts --------------------------------------------------------------------------

  /** The context lies in the scope of the proposal: its workspace, and its project and task where it has one. */
  predicate Covers(p: Proposal, x: Context) {
    x.workspace == p.workspace && (p.project.None? || x.project == p.project) && (p.task.None? || x.task == p.task)
  }

  /** The call ratifies a proposal that covers the context. */
  predicate Retires(db: Db, c: Call, x: Context) {
    && c.Ratify? && After(db, c).1.Done? && c.proposal.Some? && c.proposal.value < |db.proposals|
    && Covers(db.proposals[c.proposal.value], x)
  }

  /** A call makes a context stale exactly if it does so; it changes nothing else of a context. */
  lemma ContextStep(db: Db, c: Call, k: nat)
    requires k < |db.contexts|
    ensures |After(db, c).0.contexts| == |db.contexts|
    ensures After(db, c).0.contexts[k]
         == db.contexts[k].(current := db.contexts[k].current && !Retires(db, c, db.contexts[k]))
  {
    RefusedCallsChangeNothing(db, c);
    if After(db, c).1.Done? && c.Ratify? {
      InvalidatedAt(db, c, k);
    }
  }

  lemma InvalidatedAt(db: Db, c: Call, k: nat)
    requires k < |db.contexts| && c.Ratify? && After(db, c).1.Done?
    ensures |After(db, c).0.contexts| == |db.contexts|
    ensures After(db, c).0.contexts[k]
         == db.contexts[k].(current := db.contexts[k].current
           && !Covers(db.proposals[c.proposal.value], db.contexts[k]))
  {
  }

  /** Over every run a context is current if and only if it was at the start and no call has ratified a proposal
      that covers it. */
  lemma {:induction false} ContextsGoStale(contexts: seq<Context>, calls: seq<Call>, k: nat)
    requires k < |contexts|
    ensures k < |Run(contexts, calls).contexts|
    ensures var x := Run(contexts, calls).contexts[k];
            && x.workspace == contexts[k].workspace && x.project == contexts[k].project && x.task == contexts[k].task
            && (x.current <==> contexts[k].current && !EverRetired(contexts, calls, contexts[k]))
  {
    if calls != [] {
      var before := calls[..|calls| - 1];
      ContextsGoStale(contexts, before, k);
      ContextStep(Run(contexts, before), calls[|calls| - 1], k);
    }
  }

  /** Some call of the run does. */
  predicate EverRetired(contexts: seq<Context>, calls: seq<Call>, x: Context) {
    if calls == [] then false
    else
      var (before, c) := (calls[..|calls| - 1], calls[|calls| - 1]);
      EverRetired(contexts, before, x) || Retires(Run(contexts, before), c, x)
  }
}
