/** The write tools over context items: replay by request id, dry runs, versions, the ratification gate. */
module WritePlane {
  import opened Prelude
  import Ratification

  /** A row's id is its place in its table. */
  type RowId = nat

  datatype ItemStatus = Active | Archived

  datatype Item = Item(
    workspace: Id, project: Option<Id>, task: Option<Id>, key: string, itemType: string, title: string, content: string,
    labels: set<string>, status: ItemStatus, version: nat, updatedBy: string)

  datatype Tool = UpsertTool | LabelsTool | ArchiveTool

  /** A dry run without a key draws an id of its own. */
  datatype RequestId = Given(key: string) | Drawn(n: nat)

  datatype Result = Created | Updated | ArchivedResult | Conflict | Missing | DryRunResult
  datatype Audit = Audit(workspace: Id, tool: Tool, request: RequestId, result: Result)

  datatype Db = Db(items: seq<Item>, audits: seq<Audit>, proposals: seq<Ratification.Proposal>)

  /** The id argument as text, and as the row it parses to. */
  datatype Target = Target(text: string, id: Option<RowId>)

  datatype Op =
    | Upsert(itemKey: string, itemType: string, title: string, content: string, labels: seq<string>,
             expectedVersion: Option<int>)
    | SetLabels(target: Target, newLabels: seq<string>)
    | Archive(target: Target)

  /** `AuditThrows`: after the item was committed, writing the audit row fails. `PublishThrows`: the
      second audit fails, after the first was committed. */
  datatype Fault = NoFault | DomainThrows | AuditThrows | PublishThrows

  datatype Call = Call(
    op: Op, workspace: Option<Id>, allowed: bool, project: Option<Id>, task: Option<Id>, actor: string,
    idempotencyKey: string, dryRun: bool, needsRatification: bool, fault: Fault)

  datatype Reply = ScopeError | InvalidRequest | Gated | Replayed(result: Result) | Answered(result: Result) | Crashed

  function ToolOf(op: Op): Tool {
    match op
    case Upsert(_, _, _, _, _, _) => UpsertTool
    case SetLabels(_, _) => LabelsTool
    case Archive(_) => ArchiveTool
  }

  // ---- labels --------------------------------------------------------------------------------

  function Stripped(s: string): string { Trim(s, c => Ratification.IsSpace(c)) }

  /** `sorted(set(...))`: without blanks and repetitions. */
  function Normalized(labels: seq<string>): set<string> { set l | l in labels && Stripped(l) != "" :: Stripped(l) }

  // ---- what an operation makes of the items ----------------------------------------------------

  function FindItem(items: seq<Item>, workspace: Id, key: string): (i: nat)
    ensures i <= |items| && (i < |items| ==> items[i].workspace == workspace && items[i].key == key)
    ensures forall j | 0 <= j < i :: !(items[j].workspace == workspace && items[j].key == key)
  {
    if items == [] then 0
    else
      var before := FindItem(items[..|items| - 1], workspace, key);
      if before < |items| - 1 || (items[|items| - 1].workspace == workspace && items[|items| - 1].key == key)
      then before else |items|
  }

  predicate Owned(items: seq<Item>, workspace: Id, id: Option<RowId>) {
    id.Some? && id.value < |items| && items[id.value].workspace == workspace
  }

  /** The changed item and its place, or why nothing changes. */
  function Change(items: seq<Item>, c: Call, workspace: Id): (Result, RowId, Option<Item>) {
    match c.op
    case Upsert(key, itemType, title, content, labels, expected) =>
      var i := FindItem(items, workspace, key);
      if i == |items|
      then (Created, i,
            Some(Item(workspace, c.project, c.task, key, itemType, title, content, Normalized(labels), Active, 1,
                      c.actor)))
      else if expected.Some? && expected.value != items[i].version then (Conflict, i, None)
      else (Updated, i, Some(items[i].(
              project := if c.project.Some? then c.project else items[i].project,
              task := if c.task.Some? then c.task else items[i].task,
              itemType := itemType, title := title, content := content, labels := Normalized(labels),
              version := items[i].version + 1, status := Active, updatedBy := c.actor)))
    case SetLabels(target, labels) =>
      if !Owned(items, workspace, target.id) then (Missing, 0, None)
      else
        var item := items[target.id.value];
        (Updated, target.id.value,
         Some(item.(labels := item.labels + Normalized(labels), version := item.version + 1, updatedBy := c.actor)))
    case Archive(target) =>
      if !Owned(items, workspace, target.id) then (Missing, 0, None)
      else
        var item := items[target.id.value];
        (ArchivedResult, target.id.value,
         Some(item.(status := Archived, version := item.version + 1, updatedBy := c.actor)))
  }

  function Domain(items: seq<Item>, c: Call, workspace: Id): (seq<Item>, Result) {
    var (result, at, item) := Change(items, c, workspace);
    if item.None? then (items, result)
    else if c.dryRun then (items, DryRunResult)
    else (if at < |items| then items[at := item.value] else items + [item.value], result)
  }

  // ---- what a call does ----------------------------------------------------------------------

  function RequestOf(db: Db, c: Call): RequestId {
    if c.idempotencyKey != "" then Given(c.idempotencyKey) else Drawn(|db.audits|)
  }

  /** The recorded row of a request, if there is one. */
  function Recorded(audits: seq<Audit>, workspace: Id, tool: Tool, request: RequestId): Option<Result> {
    if audits == [] then None
    else
      var (before, last) := (Recorded(audits[..|audits| - 1], workspace, tool, request), audits[|audits| - 1]);
      if before.Some? then before
      else if last.workspace == workspace && last.tool == tool && last.request == request then Some(last.result)
      else None
  }

  predicate HasRatified(proposals: seq<Ratification.Proposal>, workspace: Id, key: string) {
    exists i | 0 <= i < |proposals| ::
      proposals[i].workspace == workspace && proposals[i].kind.ContextItemKind? && proposals[i].targetKey == key
        && proposals[i].status.Ratified?
  }

  function TargetKey(op: Op): string {
    match op
    case Upsert(key, _, _, _, _, _) => key
    case SetLabels(target, _) => target.text
    case Archive(target) => target.text
  }

  predicate Unparsable(op: Op) { !op.Upsert? && op.target.id.None? }

  predicate IsGated(db: Db, c: Call, workspace: Id) {
    !c.dryRun && c.needsRatification && !HasRatified(db.proposals, workspace, TargetKey(c.op))
  }

  function After(db: Db, c: Call): (Db, Reply) {
    if c.workspace.None? || !c.allowed then (db, ScopeError)
    else if !c.dryRun && Ratification.Blank(c.idempotencyKey) then (db, InvalidRequest)
    else
      var (workspace, tool, request) := (c.workspace.value, ToolOf(c.op), RequestOf(db, c));
      var recorded := Recorded(db.audits, workspace, tool, request);
      if recorded.Some? then (db, Replayed(recorded.value))
      else if Unparsable(c.op) then (db, InvalidRequest)
      else if IsGated(db, c, workspace) then (db, Gated)
      else if c.fault.DomainThrows? then (db, Crashed)
      else
        var (items, result) := Domain(db.items, c, workspace);
        if c.fault.AuditThrows? then (db.(items := items), Crashed)
        else (db.(items := items, audits := db.audits + [Audit(workspace, tool, request, result)]),
              if c.fault.PublishThrows? then Crashed else Answered(result))
  }

  // ---- the tools -----------------------------------------------------------------------------

  class Store {
    var db: Db

    constructor (proposals: seq<Ratification.Proposal>)
      ensures db == Db([], [], proposals)
    {
      db := Db([], [], proposals);
    }

    method UpsertItem(c: Call, workspace: Id) returns (r: Result)
      requires c.op.Upsert?
      modifies this
      ensures (db.items, r) == Domain(old(db.items), c, workspace) && db == old(db).(items := db.items)
    {
      var (key, expected) := (c.op.itemKey, c.op.expectedVersion);
      var i := FindItem(db.items, workspace, key);
      var labels := Normalized(c.op.labels);
      if i == |db.items| {
        if c.dryRun {
          return DryRunResult;
        }
        var created :=
          Item(workspace, c.project, c.task, key, c.op.itemType, c.op.title, c.op.content, labels, Active, 1, c.actor);
        db := db.(items := db.items + [created]);
        return Created;
      }
      var item := db.items[i];
      if expected.Some? && item.version != expected.value {
        return Conflict;
      }
      if c.dryRun {
        return DryRunResult;
      }
      if c.project.Some? {
        item := item.(project := c.project);
      }
      if c.task.Some? {
        item := item.(task := c.task);
      }
      item := item.(itemType := c.op.itemType, title := c.op.title, content := c.op.content, labels := labels);
      item := item.(version := item.version + 1, status := Active, updatedBy := c.actor);
      db := db.(items := db.items[i := item]);
      r := Updated;
    }

    method AppendLabels(c: Call, workspace: Id) returns (r: Result)
      requires c.op.SetLabels?
      modifies this
      ensures (db.items, r) == Domain(old(db.items), c, workspace) && db == old(db).(items := db.items)
    {
      var id := c.op.target.id;
      if id.None? || id.value >= |db.items| || db.items[id.value].workspace != workspace {
        return Missing;
      }
      if c.dryRun {
        return DryRunResult;
      }
      var item := db.items[id.value];
      item := item.(labels := item.labels + Normalized(c.op.newLabels), updatedBy := c.actor,
                    version := item.version + 1);
      db := db.(items := db.items[id.value := item]);
      r := Updated;
    }

    method ArchiveItem(c: Call, workspace: Id) returns (r: Result)
      requires c.op.Archive?
      modifies this
      ensures (db.items, r) == Domain(old(db.items), c, workspace) && db == old(db).(items := db.items)
    {
      var id := c.op.target.id;
      if id.None? || id.value >= |db.items| || db.items[id.value].workspace != workspace {
        return Missing;
      }
      if c.dryRun {
        return DryRunResult;
      }
      var item := db.items[id.value];
      item := item.(status := Archived, updatedBy := c.actor, version := item.version + 1);
      db := db.(items := db.items[id.value := item]);
      r := ArchivedResult;
    }

    /** The item is committed first and the audit row after it, in a transaction of its own. */
    method Handle(c: Call) returns (r: Reply)
      modifies this
      ensures (db, r) == After(old(db), c)
    {
      if c.workspace.None? || !c.allowed {
        return ScopeError;
      }
      var (workspace, tool) := (c.workspace.value, ToolOf(c.op));
      if !c.dryRun && Ratification.Blank(c.idempotencyKey) {
        return InvalidRequest;
      }
      var request := RequestOf(db, c);
      var replay := Recorded(db.audits, workspace, tool, request);
      if replay.Some? {
        return Replayed(replay.value);
      }
      if Unparsable(c.op) {
        return InvalidRequest;
      }
      if IsGated(db, c, workspace) {
        return Gated;
      }
      if c.fault.DomainThrows? {
        return Crashed;
      }
      var result;
      match c.op {
        case Upsert(_, _, _, _, _, _) => result := UpsertItem(c, workspace);
        case SetLabels(_, _) => result := AppendLabels(c, workspace);
        case Archive(_) => result := ArchiveItem(c, workspace);
      }
      if c.fault.AuditThrows? {
        return Crashed;
      }
      db := db.(audits := db.audits + [Audit(workspace, tool, request, result)]);
      r := if c.fault.PublishThrows? then Crashed else Answered(result);
    }
  }
}
