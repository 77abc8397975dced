/** Proposals and their ratification: three tools, each one transaction on its own session. */
module Ratification {
  import opened Prelude

  /** A row's id is its place in its table. */
  type RowId = nat

  datatype Status = Proposed | InReview | Ratified | Rejected | Superseded
  datatype Kind = DecisionKind | ContextItemKind

  datatype Payload = Payload(decisionKey: string, title: string, decision: string, rationale: string, category: string)

  /** `history` is an observer: every status the row was ever given. */
  datatype Proposal = Proposal(
    workspace: Id, project: Option<Id>, task: Option<Id>, kind: Kind, targetKey: string, rationale: string,
    payload: Payload,
    status: Status, ratifiedBy: string, ratifiedAt: Option<int>, ratifiedDecision: Option<RowId>,
    idempotencyKey: string, history: seq<Status>)

  datatype DecisionKey = DecisionKey(workspace: Id, project: Option<Id>, task: Option<Id>, key: string)
  datatype Decision = Decision(key: DecisionKey, fields: DecisionFields)
  datatype DecisionFields = DecisionFields(title: string, decision: string, rationale: string, category: string,
                                           approvedBy: string, proposal: RowId)

  datatype EventType = Raised | RatifiedEvent | RejectedEvent
  datatype Event = Event(kind: EventType, proposal: RowId)

  /** A context scope or snapshot, as far as it can be invalidated. */
  datatype Context = Context(workspace: Id, project: Option<Id>, task: Option<Id>, current: bool)

  datatype Db = Db(proposals: seq<Proposal>, decisions: seq<Decision>, events: seq<Event>, contexts: seq<Context>)

  datatype Outcome = Done | DryRun | ScopeError | InvalidRequest | NotFound | InvalidTransition | Failed | Crashed

  /** Where a statement throws, if one does; the exception is not one of the lifecycle's own. */
  datatype Fault = NoFault | AtDecision | AtTransition | AtEvent | AtStaleness | AtCommit

  // ---- the lifecycle -------------------------------------------------------------------------

  predicate Allowed(from: Status, to: Status) {
    match from
    case Proposed => to.InReview? || to.Rejected? || to.Superseded?
    case InReview => to.Ratified? || to.Rejected? || to.Superseded?
    case _ => false
  }

  predicate Terminal(s: Status) { s.Ratified? || s.Rejected? || s.Superseded? }

  predicate IsSpace(c: char) {
    '\t' <= c <= '\r' || '\U{001C}' <= c <= ' '
      || c in ['\U{0085}', '\U{00A0}', '\U{1680}', '\U{2028}', '\U{2029}', '\U{202F}', '\U{205F}', '\U{3000}']
    || '\U{2000}' <= c <= '\U{200A}'
  }

  predicate Blank(s: string) { forall i | 0 <= i < |s| :: IsSpace(s[i]) }

  function Moved(p: Proposal, to: Status): Proposal { p.(status := to, history := p.history + [to]) }

  function RatifiedBy(p: Proposal, actor: string, now: int, decision: Option<RowId>): Proposal {
    Moved(p, Ratified).(ratifiedBy := actor, ratifiedAt := Some(now), ratifiedDecision := decision)
  }

  // ---- the decision of a proposal --------------------------------------------------------------

  function Or(a: string, b: string): string { if a != "" then a else b }

  function KeyOf(p: Proposal): DecisionKey {
    DecisionKey(p.workspace, p.project, p.task, Or(p.payload.decisionKey, p.targetKey))
  }

  function FieldsOf(p: Proposal, id: RowId, actor: string): DecisionFields {
    DecisionFields(Or(p.payload.title, p.targetKey), Or(p.payload.decision, p.rationale),
                   Or(p.payload.rationale, p.rationale),
                   Or(p.payload.category, "general"), actor, id)
  }

  /** The first row with this key, or the place behind the last one. */
  function Find(decisions: seq<Decision>, key: DecisionKey): (i: nat)
    ensures i <= |decisions| && (i < |decisions| ==> decisions[i].key == key)
    ensures forall j | 0 <= j < i :: decisions[j].key != key
  {
    if decisions == [] then 0
    else
      var before := Find(decisions[..|decisions| - 1], key);
      if before < |decisions| - 1 || decisions[|decisions| - 1].key == key then before else |decisions|
  }

  function Put(decisions: seq<Decision>, d: Decision): seq<Decision> {
    var i := Find(decisions, d.key);
    if i < |decisions| then decisions[i := d] else decisions + [d]
  }

  function Invalidated(contexts: seq<Context>, workspace: Id, project: Option<Id>, task: Option<Id>): (r: seq<Context>)
    ensures |r| == |contexts|
  {
    seq(|contexts|,
        i requires 0 <= i < |contexts| =>
          contexts[i].(current := contexts[i].current && !InScope(contexts[i], workspace, project, task)))
  }

  predicate InScope(c: Context, workspace: Id, project: Option<Id>, task: Option<Id>) {
    c.workspace == workspace && (project.Some? ==> c.project == project) && (task.Some? ==> c.task == task)
  }

  predicate HasTrail(p: Proposal) { p.task.Some? && p.project.Some? }

  // ---- what each tool commits ----------------------------------------------------------------

  /** Who calls: the resolved workspace, if any, and whether the token has the scope. */
  datatype Caller = Caller(workspace: Option<Id>, allowed: bool)

  datatype Call =
    | Propose(caller: Caller, kind: Option<Kind>, targetKey: string, rationale: string, payload: Payload,
              project: Option<Id>, task: Option<Id>,
              idempotencyKey: string, dryRun: bool, fault: Fault)
    | Ratify(caller: Caller, proposal: Option<RowId>, actor: string, now: int, fault: Fault)
    | Reject(caller: Caller, proposal: Option<RowId>, fault: Fault)

  function FindByIdempotencyKey(proposals: seq<Proposal>, workspace: Id, key: string): (i: nat)
    ensures i <= |proposals|
    ensures (i < |proposals| ==> proposals[i].workspace == workspace && proposals[i].idempotencyKey == key)
    ensures forall j | 0 <= j < i :: !(proposals[j].workspace == workspace && proposals[j].idempotencyKey == key)
  {
    if proposals == [] then 0
    else
      var (before, last) :=
        (FindByIdempotencyKey(proposals[..|proposals| - 1], workspace, key), proposals[|proposals| - 1]);
      if before < |proposals| - 1 || (last.workspace == workspace && last.idempotencyKey == key) then before
      else |proposals|
  }

  function WithEvent(db: Db, i: RowId, kind: EventType): Db
    requires i < |db.proposals|
  {
    if HasTrail(db.proposals[i]) then db.(events := db.events + [Event(kind, i)]) else db
  }

  function NewProposal(c: Call): Proposal
    requires c.Propose? && c.caller.workspace.Some? && c.kind.Some?
  {
    Proposal(c.caller.workspace.value, c.project, c.task, c.kind.value, c.targetKey, c.rationale, c.payload,
             Proposed, "", None, None, c.idempotencyKey, [Proposed])
  }

  /** The proposal that has the call's idempotency key already, or the place of a new one. */
  function PlaceOf(db: Db, c: Call): (at: RowId)
    requires c.Propose? && c.caller.workspace.Some?
    ensures at <= |db.proposals|
  {
    if c.idempotencyKey == "" then |db.proposals|
    else FindByIdempotencyKey(db.proposals, c.caller.workspace.value, c.idempotencyKey)
  }

  function InReviewNow(p: Proposal): Proposal { if p.status.Proposed? then Moved(p, InReview) else p }

  /** The proposals with that one, found or new, in review. */
  function Proposals(db: Db, c: Call): (seq<Proposal>, RowId)
    requires c.Propose? && c.caller.workspace.Some? && c.kind.Some?
  {
    var at := PlaceOf(db, c);
    (if at < |db.proposals| then db.proposals[at := InReviewNow(db.proposals[at])]
      else db.proposals + [InReviewNow(NewProposal(c))], at)
  }

  function AfterPropose(db: Db, c: Call): (Db, Outcome)
    requires c.Propose?
  {
    if c.caller.workspace.None? || !c.caller.allowed then (db, ScopeError)
    else if c.dryRun then (db, if c.kind.None? then InvalidRequest else DryRun)
    else if c.kind.None? || Blank(c.targetKey) || Blank(c.rationale) then (db, InvalidRequest)
    else
      var (rows, at) := Proposals(db, c);
      if c.fault.AtDecision? || c.fault.AtTransition? || c.fault.AtCommit? || (c.fault.AtEvent? && HasTrail(rows[at]))
      then (db, Crashed)
      else (WithEvent(db.(proposals := rows), at, Raised), Done)
  }

  /** The proposal a call is about, if it is one of the caller's workspace. */
  predicate Known(db: Db, caller: Caller, i: RowId) {
    i < |db.proposals| && caller.workspace == Some(db.proposals[i].workspace)
  }

  function RatifiedDb(db: Db, i: RowId, actor: string, now: int): Db
    requires i < |db.proposals|
  {
    var p := db.proposals[i];
    var (decisions, id) :=
      if p.kind.DecisionKind?
      then (Put(db.decisions, Decision(KeyOf(p), FieldsOf(p, i, actor))), Some(Find(db.decisions, KeyOf(p))))
      else (db.decisions, None);
    WithEvent(db.(proposals := db.proposals[i := RatifiedBy(p, actor, now, id)], decisions := decisions), i,
              RatifiedEvent)
      .(contexts := Invalidated(db.contexts, p.workspace, p.project, p.task))
  }

  function AfterRatify(db: Db, c: Call): (Db, Outcome)
    requires c.Ratify?
  {
    if c.caller.workspace.None? || !c.caller.allowed then (db, ScopeError)
    else if c.proposal.None? then (db, InvalidRequest)
    else if !Known(db, c.caller, c.proposal.value) then (db, NotFound)
    else
      var p := db.proposals[c.proposal.value];
      if c.fault.AtDecision? && p.kind.DecisionKind? then (db, Failed)
      else if !p.status.InReview? then (db, InvalidTransition)
      else if Blank(c.actor) then (db, InvalidRequest)
      else if c.fault.AtTransition? || c.fault.AtStaleness? || c.fault.AtCommit? || (c.fault.AtEvent? && HasTrail(p))
      then (db, Failed)
      else (RatifiedDb(db, c.proposal.value, c.actor, c.now), Done)
  }

  function AfterReject(db: Db, c: Call): (Db, Outcome)
    requires c.Reject?
  {
    if c.caller.workspace.None? || !c.caller.allowed then (db, ScopeError)
    else if c.proposal.None? then (db, InvalidRequest)
    else if !Known(db, c.caller, c.proposal.value) then (db, NotFound)
    else
      var p := db.proposals[c.proposal.value];
      if !Allowed(p.status, Rejected) then (db, InvalidTransition)
      else if c.fault.AtTransition? || c.fault.AtCommit? || (c.fault.AtEvent? && HasTrail(p)) then (db, Crashed)
      else (WithEvent(db.(proposals := db.proposals[c.proposal.value := Moved(p, Rejected)]), c.proposal.value,
                      RejectedEvent), Done)
  }

  function After(db: Db, c: Call): (Db, Outcome) {
    match c
    case Propose(_, _, _, _, _, _, _, _, _, _) => AfterPropose(db, c)
    case Ratify(_, _, _, _, _) => AfterRatify(db, c)
    case Reject(_, _, _) => AfterReject(db, c)
  }

  // ---- the tools -----------------------------------------------------------------------------

  datatype TransitionResult = Transitioned | BadTransition | BadInput | Threw

  /** The database with one open transaction: statements change `db`, the others see `committed`. */
  class Session {
    var committed: Db
    var db: Db

    constructor (db: Db)
      ensures committed == db && this.db == db
    {
      committed, this.db := db, db;
    }

    method Commit()
      modifies this
      ensures committed == db == old(db)
    {
      committed := db;
    }

    method Rollback()
      modifies this
      ensures committed == old(committed) && db == committed
    {
      db := committed;
    }

    method TransitionProposal(i: RowId, to: Status, actor: string, decision: Option<RowId>, now: int, fault: Fault)
      returns (r: TransitionResult)
      requires i < |db.proposals|
      modifies this
      ensures committed == old(committed) && db.decisions == old(db).decisions && db.events == old(db).events
      ensures db.contexts == old(db).contexts
      ensures r.BadTransition? <==> !Allowed(old(db).proposals[i].status, to)
      ensures r.BadInput? <==> Allowed(old(db).proposals[i].status, to) && to.Ratified? && Blank(actor)
      ensures r.BadTransition? || r.BadInput? ==> db == old(db)
      ensures r.Threw? ==> fault.AtTransition?
      ensures r.Transitioned? ==> !fault.AtTransition?
      ensures r.Transitioned? || r.Threw? ==>
                var p := old(db).proposals[i];
                db.proposals
                  == old(db).proposals[i := if to.Ratified? then RatifiedBy(p, actor, now, decision) else Moved(p, to)]
    {
      var p := db.proposals[i];
      if !Allowed(p.status, to) {
        return BadTransition;
      }
      if to.Ratified? {
        if Blank(actor) {
          return BadInput;
        }
        p := p.(ratifiedBy := actor, ratifiedAt := Some(now), ratifiedDecision := decision);
      }
      p := p.(status := to, history := p.history + [to]);
      db := db.(proposals := db.proposals[i := p]);
      r := if fault.AtTransition? then Threw else Transitioned;
    }

    /** Records the event of a proposal with a task and a project. */
    method RecordProposalEvent(i: RowId, kind: EventType, fault: Fault) returns (ok: bool)
      requires i < |db.proposals|
      modifies this
      ensures committed == old(committed) && (ok <==> !(fault.AtEvent? && HasTrail(old(db).proposals[i])))
      ensures ok ==> db == WithEvent(old(db), i, kind)
    {
      ok := true;
      if HasTrail(db.proposals[i]) {
        if fault.AtEvent? {
          return false;
        }
        db := db.(events := db.events + [Event(kind, i)]);
      }
    }

    method CreateProposal(c: Call) returns (at: RowId)
      requires c.Propose? && c.caller.workspace.Some? && c.kind.Some?
      modifies this
      ensures committed == old(committed) && at < |db.proposals| && at == Proposals(old(db), c).1
      ensures db == old(db).(proposals := if at < |old(db).proposals| then old(db).proposals
              else old(db).proposals + [NewProposal(c)])
    {
      if c.idempotencyKey != "" {
        at := FindByIdempotencyKey(db.proposals, c.caller.workspace.value, c.idempotencyKey);
        if at < |db.proposals| {
          return;
        }
      }
      at := |db.proposals|;
      db := db.(proposals := db.proposals + [NewProposal(c)]);
    }

    method ProposeChange(c: Call) returns (r: Outcome)
      requires c.Propose?
      modifies this
      ensures (committed, r) == AfterPropose(old(committed), c)
    {
      Rollback();
      if c.caller.workspace.None? || !c.caller.allowed {
        return ScopeError;
      }
      if c.dryRun {
        return if c.kind.None? then InvalidRequest else DryRun;
      }
      if c.kind.None? || Blank(c.targetKey) || Blank(c.rationale) {
        Rollback();
        return InvalidRequest;
      }
      var at := CreateProposal(c);
      if c.fault.AtDecision? {
        return Crashed;
      }
      if db.proposals[at].status.Proposed? {
        var t := TransitionProposal(at, InReview, "", None, 0, c.fault);
      }
      if c.fault.AtTransition? {
        return Crashed;
      }
      assert db.proposals == Proposals(committed, c).0;
      var recorded := RecordProposalEvent(at, Raised, c.fault);
      if !recorded || c.fault.AtCommit? {
        return Crashed;
      }
      Commit();
      r := Done;
    }

    /** The decision is written before the lifecycle is checked. */
    method RatifyProposal(c: Call) returns (r: Outcome)
      requires c.Ratify?
      modifies this
      ensures (committed, r) == AfterRatify(old(committed), c)
    {
      Rollback();
      if c.caller.workspace.None? || !c.caller.allowed {
        return ScopeError;
      }
      if c.proposal.None? {
        return InvalidRequest;
      }
      var i := c.proposal.value;
      if i >= |db.proposals| || c.caller.workspace != Some(db.proposals[i].workspace) {
        return NotFound;
      }
      var p := db.proposals[i];
      var decisionId: Option<RowId> := None;
      if p.kind.DecisionKind? {
        if c.fault.AtDecision? {
          Rollback();
          return Failed;
        }
        var (key, fields) := (KeyOf(p), FieldsOf(p, i, c.actor));
        var existing := Find(db.decisions, key);
        if existing < |db.decisions| {
          db := db.(decisions := db.decisions[existing := db.decisions[existing].(fields := fields)]);
        } else {
          db := db.(decisions := db.decisions + [Decision(key, fields)]);
        }
        decisionId := Some(existing);
      }
      var t := TransitionProposal(i, Ratified, c.actor, decisionId, c.now, c.fault);
      if !t.Transitioned? {
        Rollback();
        return if t.BadTransition? then InvalidTransition else if t.BadInput? then InvalidRequest else Failed;
      }
      var recorded := RecordProposalEvent(i, RatifiedEvent, c.fault);
      if !recorded || c.fault.AtStaleness? {
        Rollback();
        return Failed;
      }
      db := db.(contexts := Invalidated(db.contexts, p.workspace, p.project, p.task));
      if c.fault.AtCommit? {
        Rollback();
        return Failed;
      }
      Commit();
      r := Done;
    }

    method RejectProposal(c: Call) returns (r: Outcome)
      requires c.Reject?
      modifies this
      ensures (committed, r) == AfterReject(old(committed), c)
    {
      Rollback();
      if c.caller.workspace.None? || !c.caller.allowed {
        return ScopeError;
      }
      if c.proposal.None? {
        return InvalidRequest;
      }
      var i := c.proposal.value;
      if i >= |db.proposals| || c.caller.workspace != Some(db.proposals[i].workspace) {
        return NotFound;
      }
      var t := TransitionProposal(i, Rejected, "", None, 0, c.fault);
      if !t.Transitioned? {
        Rollback();
        return if t.BadTransition? then InvalidTransition else Crashed;
      }
      var recorded := RecordProposalEvent(i, RejectedEvent, c.fault);
      if !recorded || c.fault.AtCommit? {
        return Crashed;
      }
      Commit();
      r := Done;
    }
  }
}
