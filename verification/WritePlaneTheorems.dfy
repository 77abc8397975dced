/** What holds over every serial run of write calls. */
module WritePlaneTheorems {
  import opened Prelude
  import Ratification
  import opened WritePlane

  function Run(proposals: seq<Ratification.Proposal>, calls: seq<Call>): Db {
    if calls == [] then Db([], [], proposals) else After(Run(proposals, calls[..|calls| - 1]), calls[|calls| - 1]).0
  }

  function At(proposals: seq<Ratification.Proposal>, calls: seq<Call>, i: nat): Db
    requires i <= |calls|
  {
    Run(proposals, calls[..i])
  }

  lemma AtNext(proposals: seq<Ratification.Proposal>, calls: seq<Call>, i: nat)
    requires i < |calls|
    ensures At(proposals, calls, i + 1) == After(At(proposals, calls, i), calls[i]).0
  {
    assert calls[..i + 1][..i] == calls[..i];
  }

  /** The call changes the items. */
  predicate Mutates(db: Db, c: Call) { After(db, c).0.items != db.items }

  /** The recorded result of the call's key. */
  function KeyRecord(db: Db, c: Call): Option<Result>
    requires c.workspace.Some?
  {
    Recorded(db.audits, c.workspace.value, ToolOf(c.op), Given(c.idempotencyKey))
  }

  // ---- replay --------------------------------------------------------------------------------

  lemma RecordStays(audits: seq<Audit>, a: Audit, workspace: Id, tool: Tool, request: RequestId)
    ensures Recorded(audits + [a], workspace, tool, request) ==
            if Recorded(audits, workspace, tool, request).Some? then Recorded(audits, workspace, tool, request)
            else if a.workspace == workspace && a.tool == tool && a.request == request then Some(a.result) else None
  {
    assert (audits + [a])[..|audits|] == audits;
  }

  lemma RecordStaysOverCall(db: Db, c: Call, workspace: Id, tool: Tool, request: RequestId)
    requires Recorded(db.audits, workspace, tool, request).Some?
    ensures Recorded(After(db, c).0.audits, workspace, tool, request) == Recorded(db.audits, workspace, tool, request)
  {
    var after := After(db, c).0.audits;
    if after != db.audits {
      assert after == db.audits + [after[|db.audits|]];
      RecordStays(db.audits, after[|db.audits|], workspace, tool, request);
    }
  }

  lemma {:induction false} RecordedForever(proposals: seq<Ratification.Proposal>, calls: seq<Call>, i: nat, j: nat,
                                           workspace: Id, tool: Tool, request: RequestId)
    requires i <= j <= |calls| && Recorded(At(proposals, calls, i).audits, workspace, tool, request).Some?
    ensures Recorded(At(proposals, calls, j).audits, workspace, tool, request)
            == Recorded(At(proposals, calls, i).audits, workspace, tool, request)
    decreases j - i
  {
    if i < j {
      RecordedForever(proposals, calls, i, j - 1, workspace, tool, request);
      AtNext(proposals, calls, j - 1);
      RecordStaysOverCall(At(proposals, calls, j - 1), calls[j - 1], workspace, tool, request);
    }
  }

  /** A call that changes the items under a key leaves that key recorded, if and only if writing its
      audit row does not fail: the items were committed before. */
  lemma MutationIsRecorded(db: Db, c: Call)
    requires Mutates(db, c)
    ensures c.workspace.Some? && c.idempotencyKey != "" && KeyRecord(db, c) == None
    ensures KeyRecord(After(db, c).0, c).Some? <==> !c.fault.AuditThrows?
  {
    var after := After(db, c).0.audits;
    assert Ratification.Blank("");
    if !c.fault.AuditThrows? {
      assert after == db.audits + [after[|db.audits|]];
      RecordStays(db.audits, after[|db.audits|], c.workspace.value, ToolOf(c.op), Given(c.idempotencyKey));
    }
  }

  /** Whoever comes with a recorded key gets the recorded result and changes nothing. */
  lemma RecordedKeyReplays(db: Db, c: Call)
    requires c.workspace.Some? && c.idempotencyKey != "" && KeyRecord(db, c).Some?
    ensures After(db, c).0 == db
    ensures c.allowed && (c.dryRun || !Ratification.Blank(c.idempotencyKey)) ==>
              After(db, c).1 == Replayed(KeyRecord(db, c).value)
  {
  }

  predicate SameKey(c: Call, d: Call) {
    c.workspace.Some? && c.workspace == d.workspace && ToolOf(c.op) == ToolOf(d.op)
      && c.idempotencyKey == d.idempotencyKey
  }

  /** Over every run, at most one call per workspace, tool and key changes the items, as long as its audit
      row is written; every later one replays its recorded result. */
  lemma KeysMutateAtMostOnce(proposals: seq<Ratification.Proposal>, calls: seq<Call>, i: nat, j: nat)
    requires i < j < |calls| && SameKey(calls[i], calls[j])
    requires Mutates(At(proposals, calls, i), calls[i]) && !calls[i].fault.AuditThrows?
    ensures After(At(proposals, calls, j), calls[j]).0 == At(proposals, calls, j)
    ensures calls[j].allowed && !Ratification.Blank(calls[j].idempotencyKey) ==>
              After(At(proposals, calls, j), calls[j]).1
                == Replayed(Domain(At(proposals, calls, i).items, calls[i], calls[i].workspace.value).1)
  {
    var (db, c) := (At(proposals, calls, i), calls[i]);
    MutationIsRecorded(db, c);
    AtNext(proposals, calls, i);
    RecordedResult(db, c);
    RecordedForever(proposals, calls, i + 1, j, c.workspace.value, ToolOf(c.op), Given(c.idempotencyKey));
    RecordedKeyReplays(At(proposals, calls, j), calls[j]);
  }

  /** So a later call with the key gets the answer the first one got. */
  lemma LaterCallsGetTheAnswer(proposals: seq<Ratification.Proposal>, calls: seq<Call>, i: nat, j: nat, r: Result)
    requires i < j < |calls| && SameKey(calls[i], calls[j]) && Mutates(At(proposals, calls, i), calls[i])
    requires After(At(proposals, calls, i), calls[i]).1 == Answered(r)
    requires calls[j].allowed && !Ratification.Blank(calls[j].idempotencyKey)
    ensures After(At(proposals, calls, j), calls[j]) == (At(proposals, calls, j), Replayed(r))
  {
    AnswerIsRecorded(At(proposals, calls, i), calls[i], r);
    KeysMutateAtMostOnce(proposals, calls, i, j);
  }

  lemma AnswerIsRecorded(db: Db, c: Call, r: Result)
    requires After(db, c).1 == Answered(r)
    ensures c.workspace.Some? && r == Domain(db.items, c, c.workspace.value).1 && !c.fault.AuditThrows?
  {
  }

  lemma RecordedResult(db: Db, c: Call)
    requires c.workspace.Some? && c.idempotencyKey != "" && |After(db, c).0.audits| > |db.audits|
    ensures KeyRecord(After(db, c).0, c) == Some(Domain(db.items, c, c.workspace.value).1)
  {
    RecordStays(db.audits, After(db, c).0.audits[|db.audits|], c.workspace.value, ToolOf(c.op),
                Given(c.idempotencyKey));
  }

  /** A dry run that carries a key uses it up: the call meant to follow it only replays the dry run. */
  lemma DryRunUsesUpItsKey(proposals: seq<Ratification.Proposal>, calls: seq<Call>, i: nat, j: nat)
    requires i < j < |calls| && SameKey(calls[i], calls[j]) && calls[i].dryRun && calls[i].idempotencyKey != ""
    requires After(At(proposals, calls, i), calls[i]).1 == Answered(DryRunResult)
    ensures After(At(proposals, calls, j), calls[j]).0 == At(proposals, calls, j)
    ensures calls[j].allowed && !Ratification.Blank(calls[j].idempotencyKey) ==>
              After(At(proposals, calls, j), calls[j]).1 == Replayed(DryRunResult)
  {
    var (db, c) := (At(proposals, calls, i), calls[i]);
    AtNext(proposals, calls, i);
    RecordedResult(db, c);
    RecordedForever(proposals, calls, i + 1, j, c.workspace.value, ToolOf(c.op), Given(c.idempotencyKey));
    RecordedKeyReplays(At(proposals, calls, j), calls[j]);
  }

  /** If the audit row cannot be written, the key is not recorded, and the same call changes the item again. */
  lemma LostAuditMutatesTwice(proposals: seq<Ratification.Proposal>, workspace: Id) returns (first: Call, second: Call)
    ensures SameKey(first, second) && first.fault.AuditThrows? && second == first.(fault := NoFault)
    ensures Mutates(Run(proposals, []), first) && Mutates(After(Run(proposals, []), first).0, second)
  {
    first := Call(Upsert("item", "note", "title", "content", [], None), Some(workspace), true, None, None, "actor",
                  "key", false, false, AuditThrows);
    second := first.(fault := NoFault);
    assert !Ratification.IsSpace("key"[0]);
    var db := Run(proposals, []);
    var item := Item(workspace, None, None, "item", "note", "title", "content", Normalized([]), Active, 1, "actor");
    assert After(db, first).0 == Db([item], [], proposals);
    assert FindItem([item], workspace, "item") == 0;
  }

  /** Dry runs never change the items. */
  lemma DryRunsAreDry(db: Db, c: Call)
    requires c.dryRun
    ensures After(db, c).0.items == db.items
  {
  }

  /** A call stopped by its scope, its arguments or the gate does not use up its key. */
  lemma StoppedCallsLeaveTheKey(db: Db, c: Call)
    ensures After(db, c).1.ScopeError? || After(db, c).1.InvalidRequest? || After(db, c).1.Gated? ==>
              After(db, c).0 == db
  {
  }

  /** The proposal ratifies a change of the target the call names: the key of an upsert, the text of an id. */
  predicate Ratifies(p: Ratification.Proposal, c: Call) {
    && Some(p.workspace) == c.workspace && p.kind.ContextItemKind? && p.status.Ratified?
    && p.targetKey == match c.op
                      case Upsert(key, _, _, _, _, _) => key
                      case SetLabels(target, _) => target.text
                      case Archive(target) => target.text
  }

  /** Where the policy asks for it, items change only under a ratified proposal for their target. */
  lemma GatedChangesAreRatified(db: Db, c: Call)
    requires Mutates(db, c) && c.needsRatification
    ensures exists i | 0 <= i < |db.proposals| :: Ratifies(db.proposals[i], c)
  {
    if c.dryRun {
      DryRunsAreDry(db, c);
    }
    assert HasRatified(db.proposals, c.workspace.value, TargetKey(c.op));
    var i :| 0 <= i < |db.proposals| && db.proposals[i].workspace == c.workspace.value
      && db.proposals[i].kind.ContextItemKind? && db.proposals[i].targetKey == TargetKey(c.op)
      && db.proposals[i].status.Ratified?;
    assert Ratifies(db.proposals[i], c);
  }

  // ---- versions ------------------------------------------------------------------------------

  /** One call leaves a row alone or raises its version by one, and adds at most one row, with version 1. */
  lemma RowStep(db: Db, c: Call, i: RowId)
    ensures |db.items| <= |After(db, c).0.items| <= |db.items| + 1
    ensures i < |db.items| ==>
              var (was, now) := (db.items[i], After(db, c).0.items[i]);
              now.workspace == was.workspace && now.key == was.key && (now == was || now.version == was.version + 1)
    ensures |db.items| <= i < |After(db, c).0.items| ==> After(db, c).0.items[i].version == 1
  {
  }

  /** How often row i changed after it was created. */
  function Changes(proposals: seq<Ratification.Proposal>, calls: seq<Call>, i: RowId): nat {
    if calls == [] then 0
    else
      var (db, c) := (Run(proposals, calls[..|calls| - 1]), calls[|calls| - 1]);
      Changes(proposals, calls[..|calls| - 1], i)
        + if i < |db.items| && After(db, c).0.items[i] != db.items[i] then 1 else 0
  }

  /** A row's version is one plus the number of times it changed. */
  lemma {:induction false} VersionsCountChanges(proposals: seq<Ratification.Proposal>, calls: seq<Call>, i: RowId)
    ensures i < |Run(proposals, calls).items| ==>
              Run(proposals, calls).items[i].version == 1 + Changes(proposals, calls, i)
    ensures i >= |Run(proposals, calls).items| ==> Changes(proposals, calls, i) == 0
  {
    if calls != [] {
      VersionsCountChanges(proposals, calls[..|calls| - 1], i);
      RowStep(Run(proposals, calls[..|calls| - 1]), calls[|calls| - 1], i);
    }
  }

  lemma {:induction false} RowsPersist(proposals: seq<Ratification.Proposal>, calls: seq<Call>, i: nat, j: nat,
                                       k: RowId)
    requires i <= j <= |calls| && k < |At(proposals, calls, i).items|
    ensures k < |At(proposals, calls, j).items|
    ensures var (was, now) := (At(proposals, calls, i).items[k], At(proposals, calls, j).items[k]);
            now.workspace == was.workspace && now.key == was.key && now.version >= was.version
    decreases j - i
  {
    if i < j {
      RowsPersist(proposals, calls, i, j - 1, k);
      AtNext(proposals, calls, j - 1);
      RowStep(At(proposals, calls, j - 1), calls[j - 1], k);
    }
  }

  lemma UpdateRaisesVersion(db: Db, c: Call)
    requires Mutates(db, c) && c.op.Upsert? && c.workspace.Some? && c.op.expectedVersion.Some?
    requires FindItem(db.items, c.workspace.value, c.op.itemKey) < |db.items|
    ensures var k := FindItem(db.items, c.workspace.value, c.op.itemKey);
            k < |After(db, c).0.items| && After(db, c).0.items[k].version == c.op.expectedVersion.value + 1
  {
  }

  lemma StaleUpsertStops(db: Db, c: Call, k: RowId)
    requires c.op.Upsert? && c.workspace.Some? && c.op.expectedVersion.Some? && k < |db.items|
    requires FindItem(db.items, c.workspace.value, c.op.itemKey) == k
    requires db.items[k].version > c.op.expectedVersion.value
    ensures !Mutates(db, c)
  {
  }

  lemma FoundAt(items: seq<Item>, workspace: Id, key: string, k: RowId)
    requires k < |items| && items[k].workspace == workspace && items[k].key == key
    requires forall l | 0 <= l < k :: !(items[l].workspace == workspace && items[l].key == key)
    ensures FindItem(items, workspace, key) == k
  {
  }

  /** Two upserts that expect the same version of an existing item cannot both commit. */
  lemma SameVersionCommitsOnce(proposals: seq<Ratification.Proposal>, calls: seq<Call>, i: nat, j: nat)
    requires i < j < |calls| && calls[i].op.Upsert? && calls[j].op.Upsert?
    requires calls[i].workspace.Some? && calls[j].workspace == calls[i].workspace
    requires calls[i].op.itemKey == calls[j].op.itemKey
    requires calls[i].op.expectedVersion.Some? && calls[i].op.expectedVersion == calls[j].op.expectedVersion
    requires FindItem(At(proposals, calls, i).items, calls[i].workspace.value, calls[i].op.itemKey)
             < |At(proposals, calls, i).items|
    ensures !(Mutates(At(proposals, calls, i), calls[i]) && Mutates(At(proposals, calls, j), calls[j]))
  {
    var (before, later) := (At(proposals, calls, i), At(proposals, calls, j));
    var (workspace, key) := (calls[i].workspace.value, calls[i].op.itemKey);
    var k := FindItem(before.items, workspace, key);
    if Mutates(before, calls[i]) {
      AtNext(proposals, calls, i);
      UpdateRaisesVersion(before, calls[i]);
      RowsPersist(proposals, calls, i, j, k);
      RowsPersist(proposals, calls, i + 1, j, k);
      forall l | 0 <= l < k ensures !(later.items[l].workspace == workspace && later.items[l].key == key) {
        RowsPersist(proposals, calls, i, j, l);
      }
      FoundAt(later.items, workspace, key, k);
      StaleUpsertStops(later, calls[j], k);
    }
  }

  /** And there is at most one item per workspace and key. */
  lemma {:induction false} ItemKeysAreDistinct(proposals: seq<Ratification.Proposal>, calls: seq<Call>, i: RowId,
                                               j: RowId)
    requires i < j < |Run(proposals, calls).items|
    ensures var items := Run(proposals, calls).items;
            !(items[i].workspace == items[j].workspace && items[i].key == items[j].key)
  {
    var (before, c) := (Run(proposals, calls[..|calls| - 1]), calls[|calls| - 1]);
    RowStep(before, c, i);
    RowStep(before, c, j);
    if j < |before.items| {
      ItemKeysAreDistinct(proposals, calls[..|calls| - 1], i, j);
    }
  }

  // ---- what is written -------------------------------------------------------------------------

  /** The label is what is left of the text without the spaces around it, and something is left. */
  ghost predicate LabelOf(tag: string, text: string) {
    && tag != "" && !Ratification.IsSpace(tag[0]) && !Ratification.IsSpace(tag[|tag| - 1])
    && exists i | 0 <= i <= |text| - |tag| :: StandsAt(tag, text, i)
  }

  predicate StandsAt(tag: string, text: string, i: nat)
    requires i + |tag| <= |text|
  {
    && text[i..i + |tag|] == tag
    && (forall k | 0 <= k < i :: Ratification.IsSpace(text[k]))
    && (forall k | i + |tag| <= k < |text| :: Ratification.IsSpace(text[k]))
  }

  lemma StrippedIsLabel(text: string)
    ensures Stripped(text) != "" ==> LabelOf(Stripped(text), text)
  {
    var before, after := TrimMeans(text, c => Ratification.IsSpace(c));
    var t := Stripped(text);
    if t != "" {
      assert text[|before|..|before| + |t|] == t;
      forall k | |before| + |t| <= k < |text| ensures Ratification.IsSpace(text[k]) {
        assert text[k] == after[k - |before| - |t|];
      }
      assert StandsAt(t, text, |before|);
    }
  }

  /** Two labels of one text stand at the same place. */
  lemma OneLabel(text: string, t: string, u: string)
    requires LabelOf(t, text) && LabelOf(u, text)
    ensures t == u
  {
    var i :| 0 <= i <= |text| - |t| && StandsAt(t, text, i);
    var j :| 0 <= j <= |text| - |u| && StandsAt(u, text, j);
    assert text[i] == t[0] && text[j] == u[0];
    assert text[i + |t| - 1] == t[|t| - 1] && text[j + |u| - 1] == u[|u| - 1];
  }

  lemma StrippedMeans(text: string, tag: string)
    ensures LabelOf(tag, text) <==> tag == Stripped(text) && tag != ""
  {
    StrippedIsLabel(text);
    if LabelOf(tag, text) {
      if Stripped(text) == "" {
        BlankHasNoLabel(text, tag);
      } else {
        OneLabel(text, tag, Stripped(text));
      }
    }
  }

  lemma BlankHasNoLabel(text: string, tag: string)
    requires Stripped(text) == ""
    ensures !LabelOf(tag, text)
  {
    var before, after := TrimMeans(text, c => Ratification.IsSpace(c));
    if i :| 0 <= i <= |text| - |tag| && tag != "" && StandsAt(tag, text, i) {
      assert text[i] == tag[0];
    }
  }

  /** The labels are those of the texts, without repetition. */
  ghost predicate LabelsOf(labels: set<string>, texts: seq<string>) {
    forall t :: t in labels <==> exists i | 0 <= i < |texts| :: LabelOf(t, texts[i])
  }

  lemma NormalizedMeans(texts: seq<string>)
    ensures LabelsOf(Normalized(texts), texts)
  {
    forall t ensures t in Normalized(texts) <==> exists i | 0 <= i < |texts| :: LabelOf(t, texts[i]) {
      forall i | 0 <= i < |texts| ensures LabelOf(t, texts[i]) <==> t == Stripped(texts[i]) && t != "" {
        StrippedMeans(texts[i], t);
      }
      if i :| 0 <= i < |texts| && LabelOf(t, texts[i]) {
        assert texts[i] in texts;
      }
    }
  }

  ghost predicate OnlyChanges(was: seq<Item>, now: seq<Item>, at: RowId) {
    && |was| <= |now| && at < |now| && (at < |was| ==> |now| == |was|) && (at >= |was| ==> at == |was| == |now| - 1)
    && forall j | 0 <= j < |was| && j != at :: now[j] == was[j]
  }

  /** An upsert that changes the items leaves one item with its workspace and key, which has the type, the title, the
      content and the labels of the call, is active, and names the actor; project and task are the call's where it has
      them, and else what they were. All other items stay. */
  lemma UpsertWrites(db: Db, c: Call) returns (at: RowId)
    requires Mutates(db, c) && c.op.Upsert?
    ensures c.workspace.Some? && OnlyChanges(db.items, After(db, c).0.items, at)
    ensures var now := After(db, c).0.items[at];
            && now.workspace == c.workspace.value && now.key == c.op.itemKey
            && now.itemType == c.op.itemType && now.title == c.op.title && now.content == c.op.content
            && LabelsOf(now.labels, c.op.labels) && now.status == Active && now.updatedBy == c.actor
            && (if at < |db.items|
                then
                  && db.items[at].workspace == now.workspace && db.items[at].key == now.key
                  && now.project == (if c.project.Some? then c.project else db.items[at].project)
                  && now.task == (if c.task.Some? then c.task else db.items[at].task)
                else
                  && now.project == c.project && now.task == c.task
                  && forall j | 0 <= j < |db.items| ::
                    !(db.items[j].workspace == now.workspace && db.items[j].key == now.key))
  {
    at := FindItem(db.items, c.workspace.value, c.op.itemKey);
    NormalizedMeans(c.op.labels);
  }

  /** A label call that changes the items adds the labels of its texts to those of its item, and changes nothing
      else but version and actor. */
  lemma LabelsAreAdded(db: Db, c: Call) returns (at: RowId, added: set<string>)
    requires Mutates(db, c) && c.op.SetLabels?
    ensures c.op.target.id == Some(at) && at < |db.items| && c.workspace == Some(db.items[at].workspace)
    ensures OnlyChanges(db.items, After(db, c).0.items, at) && LabelsOf(added, c.op.newLabels)
    ensures var (was, now) := (db.items[at], After(db, c).0.items[at]);
            now == was.(labels := was.labels + added, version := was.version + 1, updatedBy := c.actor)
  {
    at, added := c.op.target.id.value, Normalized(c.op.newLabels);
    NormalizedMeans(c.op.newLabels);
  }

  /** An archiving call that changes the items archives its item and keeps its content. */
  lemma ArchivedKeepsContent(db: Db, c: Call) returns (at: RowId)
    requires Mutates(db, c) && c.op.Archive?
    ensures c.op.target.id == Some(at) && at < |db.items| && c.workspace == Some(db.items[at].workspace)
    ensures OnlyChanges(db.items, After(db, c).0.items, at)
    ensures var (was, now) := (db.items[at], After(db, c).0.items[at]);
            now == was.(status := Archived, version := was.version + 1, updatedBy := c.actor)
  {
    at := c.op.target.id.value;
  }

  // ---- what is answered ------------------------------------------------------------------------

  ghost predicate HasItem(items: seq<Item>, workspace: Id, key: string) {
    exists i | 0 <= i < |items| :: items[i].workspace == workspace && items[i].key == key
  }

  /** created: the items have one more; updated or archived: one of them has changed; anything else: none has. */
  lemma AnswersTellWhatWasWritten(db: Db, c: Call)
    requires After(db, c).1.Answered?
    ensures var (r, items) := (After(db, c).1.result, After(db, c).0.items);
            && (r.Created? ==> |items| == |db.items| + 1)
            && (r.Updated? || r.ArchivedResult? ==> |items| == |db.items| && Mutates(db, c))
            && (r.Conflict? || r.Missing? || r.DryRunResult? ==> !Mutates(db, c))
  {
    if After(db, c).1.result.Updated? || After(db, c).1.result.ArchivedResult? {
      var (result, at, item) := Change(db.items, c, c.workspace.value);
      assert db.items[at].version != item.value.version;
    }
  }

  /** An answered upsert was created if there was no such item, refused if its expected version is not the item's, and
      otherwise an update; as a dry run it only says so. */
  lemma UpsertAnswers(db: Db, c: Call)
    requires After(db, c).1.Answered? && c.op.Upsert?
    ensures c.workspace.Some?
    ensures var (r, i) := (After(db, c).1.result, FindItem(db.items, c.workspace.value, c.op.itemKey));
            var there := HasItem(db.items, c.workspace.value, c.op.itemKey);
            && (there <==> i < |db.items|)
            && (r.Conflict? <==>
                  there && c.op.expectedVersion.Some? && c.op.expectedVersion.value != db.items[i].version)
            && (r.DryRunResult? <==> c.dryRun && !r.Conflict?)
            && (r.Created? <==> !c.dryRun && !there)
            && (r.Updated? <==> !c.dryRun && there && !r.Conflict?)
  {
  }

  /** The order of the checks: scope, key, replay, target, gate; and after them a call is answered unless a statement
      throws. */
  lemma ChecksComeInOrder(db: Db, c: Call)
    ensures var r := After(db, c).1;
            && (r.ScopeError? <==> c.workspace.None? || !c.allowed)
            && (!r.ScopeError? ==>
                  var keyless := !c.dryRun && Ratification.Blank(c.idempotencyKey);
                  var replayed := c.idempotencyKey != "" && KeyRecord(db, c).Some?;
                  var lost := !c.op.Upsert? && c.op.target.id.None?;
                  && (keyless ==> r.InvalidRequest?)
                  && (!keyless && replayed ==> r == Replayed(KeyRecord(db, c).value))
                  && (!keyless && c.idempotencyKey != "" && !replayed && lost ==> r.InvalidRequest?)
                  && (r.Gated? ==> !keyless && !replayed && !lost && !c.dryRun && c.needsRatification)
                  && (!keyless && c.idempotencyKey != "" && !replayed && !lost && c.fault.NoFault? && !r.Gated? ==>
                        r.Answered?))
  {
  }

  /** Where the policy asks for it, the gate stops exactly the calls without a ratified proposal for their target. */
  lemma GateIsExact(db: Db, c: Call)
    requires c.workspace.Some? && c.allowed && !c.dryRun && c.needsRatification && !Ratification.Blank(c.idempotencyKey)
    requires KeyRecord(db, c) == None && (c.op.Upsert? || c.op.target.id.Some?)
    ensures After(db, c).1.Gated? <==> forall i | 0 <= i < |db.proposals| :: !Ratifies(db.proposals[i], c)
  {
    assert Ratification.Blank("");
  }
}
