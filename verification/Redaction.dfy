/** The delegated-limited policy: which fields of a payload leave, and which values are blanked. */
module Redaction {
  import opened Prelude
  import LikeSearch
  import Occurrences

  datatype Json = Obj(entries: seq<Entry>) | Arr(items: seq<Json>) | Str(text: string) | Other(scalar: int)
  datatype Entry = Entry(key: string, value: Json)

  /** One step into a value; a path is the sequence of steps, not their rendering as text. */
  datatype Step = Key(key: string) | Index(index: nat)
  type Path = seq<Step>

  const SENSITIVE_KEYS: seq<string> := ["secret", "token", "password", "api_key", "credential"]
  const REDACTED: Json := Str("[REDACTED]")

  /** A marker anywhere in the key, whatever its case. */
  predicate Sensitive(key: string) {
    exists i | 0 <= i < |SENSITIVE_KEYS| :: LikeSearch.Contains(Lower(key), SENSITIVE_KEYS[i])
  }

  /** A key that contains one of the markers, in whatever case and with whatever around it. */
  lemma MarkersAreSensitive(before: string, marker: string, after: string)
    requires Lower(marker) in ["secret", "token", "password", "api_key", "credential"]
    ensures Sensitive(before + marker + after)
  {
    var key := before + marker + after;
    var i :| 0 <= i < |SENSITIVE_KEYS| && SENSITIVE_KEYS[i] == Lower(marker);
    assert Lower(key)[|before|..|before| + |marker|] == Lower(marker);
    assert Occurrences.OccursAt(Lower(key), Lower(marker), |before|);
    assert LikeSearch.Contains(Lower(key), SENSITIVE_KEYS[i]);
  }

  /** And no other key. */
  lemma SensitiveHasMarker(key: string) returns (i: nat, marker: string)
    requires Sensitive(key)
    ensures marker in ["secret", "token", "password", "api_key", "credential"]
    ensures i + |marker| <= |key| && Lower(key[i..i + |marker|]) == marker
  {
    var k :| 0 <= k < |SENSITIVE_KEYS| && LikeSearch.Contains(Lower(key), SENSITIVE_KEYS[k]);
    marker := SENSITIVE_KEYS[k];
    var j: nat :| j <= |Lower(key)| && Occurrences.OccursAt(Lower(key), marker, j);
    i := j;
    assert Lower(key)[i..i + |marker|] == Lower(key[i..i + |marker|]);
  }

  /** Keys are unique in every object. */
  predicate Proper(v: Json) {
    match v
    case Obj(entries) =>
      && (forall i, j | 0 <= i < j < |entries| :: entries[i].key != entries[j].key)
      && (forall i | 0 <= i < |entries| :: Proper(entries[i].value))
    case Arr(items) => forall i | 0 <= i < |items| :: Proper(items[i])
    case _ => true
  }

  function Lookup(entries: seq<Entry>, key: string): Option<Json> {
    if entries == [] then None
    else if entries[|entries| - 1].key == key then Some(entries[|entries| - 1].value)
    else Lookup(entries[..|entries| - 1], key)
  }

  function Child(v: Json, step: Step): Option<Json> {
    match step
    case Key(k) => if v.Obj? then Lookup(v.entries, k) else None
    case Index(i) => if v.Arr? && i < |v.items| then Some(v.items[i]) else None
  }

  function At(v: Json, path: Path): Option<Json>
    decreases |path|
  {
    if path == [] then Some(v)
    else
      var child := Child(v, path[0]);
      if child.None? then None else At(child.value, path[1..])
  }

  /** The path ends at a sensitive key, the first one on the way. */
  predicate Topmost(v: Json, path: Path)
    decreases |path|
  {
    path != [] && Child(v, path[0]).Some?
    && if path[0].Key? && Sensitive(path[0].key) then |path| == 1 else Topmost(Child(v, path[0]).value, path[1..])
  }

  function Redact(v: Json): Json {
    match v
    case Obj(entries) => Obj(seq(|entries|, i requires 0 <= i < |entries| => RedactEntry(entries[i])))
    case Arr(items) => Arr(seq(|items|, i requires 0 <= i < |items| => Redact(items[i])))
    case _ => v
  }

  function RedactEntry(e: Entry): Entry { Entry(e.key, if Sensitive(e.key) then REDACTED else Redact(e.value)) }

  // ---- the traversal -------------------------------------------------------------------------

  predicate Reports(q: Path, path: Path, v: Json) { path <= q && Topmost(v, q[|path|..]) }

  lemma LookupNext(entries: seq<Entry>, e: Entry, key: string)
    ensures Lookup(entries + [e], key) == if e.key == key then Some(e.value) else Lookup(entries, key)
  {
    assert (entries + [e])[..|entries|] == entries;
  }

  lemma {:induction false} LookupFresh(entries: seq<Entry>, key: string)
    requires forall i | 0 <= i < |entries| :: entries[i].key != key
    ensures Lookup(entries, key) == None
  {
    if entries != [] {
      LookupFresh(entries[..|entries| - 1], key);
    }
  }

  /** One more entry adds the sensitive positions under its own key. */
  lemma TopmostNext(entries: seq<Entry>, e: Entry, path: Path)
    requires forall i | 0 <= i < |entries| :: entries[i].key != e.key
    ensures Topmost(Obj(entries + [e]), path) <==>
            Topmost(Obj(entries), path)
            || (path != [] && path[0] == Key(e.key) && if Sensitive(e.key) then |path| == 1
              else Topmost(e.value, path[1..]))
  {
    if path != [] && path[0].Key? {
      LookupNext(entries, e, path[0].key);
      LookupFresh(entries, e.key);
    }
  }

  lemma TopmostNextItem(items: seq<Json>, item: Json, path: Path)
    ensures Topmost(Arr(items + [item]), path) <==>
            Topmost(Arr(items), path) || (path != [] && path[0] == Index(|items|) && Topmost(item, path[1..]))
  {
  }

  class Redactor {
    var redactedPaths: seq<Path>

    constructor ()
      ensures redactedPaths == []
    {
      redactedPaths := [];
    }

    /** Blanks the values under sensitive keys and appends their positions. */
    method Clean(value: Json, path: Path) returns (cleaned: Json)
      requires Proper(value)
      modifies this
      ensures cleaned == Redact(value)
      ensures forall q :: q in redactedPaths <==> q in old(redactedPaths) || Reports(q, path, value)
      decreases value
    {
      match value {
        case Obj(entries) =>
          var done: seq<Entry> := [];
          for i := 0 to |entries|
            invariant |done| == i && forall j | 0 <= j < i :: done[j] == RedactEntry(entries[j])
            invariant forall q :: q in redactedPaths <==> q in old(redactedPaths) || Reports(q, path, Obj(entries[..i]))
          {
            var nestedPath := path + [Key(entries[i].key)];
            ghost var before := redactedPaths;
            if Sensitive(entries[i].key) {
              redactedPaths := redactedPaths + [nestedPath];
              done := done + [Entry(entries[i].key, REDACTED)];
            } else {
              var nested := Clean(entries[i].value, nestedPath);
              done := done + [Entry(entries[i].key, nested)];
            }
            forall q
              ensures q in redactedPaths <==> q in old(redactedPaths) || Reports(q, path, Obj(entries[..i + 1]))
            {
              EntryReports(q, path, entries, i);
            }
          }
          assert entries[..|entries|] == entries;
          cleaned := Obj(done);
        case Arr(items) =>
          var done: seq<Json> := [];
          for i := 0 to |items|
            invariant |done| == i && forall j | 0 <= j < i :: done[j] == Redact(items[j])
            invariant forall q :: q in redactedPaths <==> q in old(redactedPaths) || Reports(q, path, Arr(items[..i]))
          {
            var item := Clean(items[i], path + [Index(i)]);
            done := done + [item];
            forall q ensures q in redactedPaths <==> q in old(redactedPaths) || Reports(q, path, Arr(items[..i + 1])) {
              ItemReports(q, path, items, i);
            }
          }
          assert items[..|items|] == items;
          cleaned := Arr(done);
        case _ =>
          cleaned := value;
      }
    }
  }

  lemma EntryReports(q: Path, path: Path, entries: seq<Entry>, i: nat)
    requires i < |entries| && Proper(Obj(entries))
    ensures var nestedPath := path + [Key(entries[i].key)];
            Reports(q, path, Obj(entries[..i + 1])) <==>
            Reports(q, path, Obj(entries[..i])) || if Sensitive(entries[i].key) then q == nestedPath
              else Reports(q, nestedPath, entries[i].value)
  {
    assert entries[..i + 1] == entries[..i] + [entries[i]];
    if path <= q {
      var rest := q[|path|..];
      TopmostNext(entries[..i], entries[i], rest);
      if rest != [] {
        assert q == path + [rest[0]] + rest[1..];
        assert q[|path| + 1..] == rest[1..];
      }
    }
  }

  lemma ItemReports(q: Path, path: Path, items: seq<Json>, i: nat)
    requires i < |items|
    ensures Reports(q, path, Arr(items[..i + 1])) <==>
              Reports(q, path, Arr(items[..i])) || Reports(q, path + [Index(i)], items[i])
  {
    assert items[..i + 1] == items[..i] + [items[i]];
    if path <= q {
      var rest := q[|path|..];
      TopmostNextItem(items[..i], items[i], rest);
      if rest != [] {
        assert q == path + [rest[0]] + rest[1..];
        assert q[|path| + 1..] == rest[1..];
      }
    }
  }

  // ---- the policy ----------------------------------------------------------------------------

  /** The root fields that may leave: those listed for the tool, or all if the tool is not listed. */
  function Filtered(tool: string, payload: seq<Entry>, allowlists: map<string, set<string>>): (r: seq<Entry>)
    ensures forall e | e in r :: e in payload
  {
    if payload == [] then []
    else
      var last := payload[|payload| - 1];
      Filtered(tool, payload[..|payload| - 1], allowlists)
        + if tool !in allowlists || last.key in allowlists[tool] then [last] else []
  }

  /** Each field stays exactly if it may leave, and those that stay keep their order. */
  lemma {:induction false} FilteredKeeps(tool: string, before: seq<Entry>, e: Entry, after: seq<Entry>,
                                         allowlists: map<string, set<string>>)
    ensures Filtered(tool, before + [e] + after, allowlists)
            == Filtered(tool, before, allowlists)
               + (if tool !in allowlists || e.key in allowlists[tool] then [e] else [])
               + Filtered(tool, after, allowlists)
    decreases |after|
  {
    var all := before + [e] + after;
    if after == [] {
      assert all[..|all| - 1] == before;
    } else {
      assert all[..|all| - 1] == before + [e] + after[..|after| - 1];
      FilteredKeeps(tool, before, e, after[..|after| - 1], allowlists);
    }
  }

  lemma {:induction false} FilteredMeans(tool: string, payload: seq<Entry>, allowlists: map<string, set<string>>,
                                         e: Entry)
    ensures e in Filtered(tool, payload, allowlists) <==>
              e in payload && (tool !in allowlists || e.key in allowlists[tool])
  {
    if payload != [] {
      FilteredMeans(tool, payload[..|payload| - 1], allowlists, e);
      assert payload == payload[..|payload| - 1] + [payload[|payload| - 1]];
    }
  }

  function KeysOf(entries: seq<Entry>): set<string> { set e | e in entries :: e.key }

  /** `included_fields` and `redacted_fields` are sorted, without repetition: sets. */
  method ApplyDelegatedLimitedPolicy(tool: string, payload: seq<Entry>, allowlists: map<string, set<string>>)
    returns (filtered: Json, includedFields: set<string>, redactedFields: set<Path>)
    requires Proper(Obj(payload))
    ensures filtered == Redact(Obj(Filtered(tool, payload, allowlists)))
    ensures includedFields == KeysOf(Filtered(tool, payload, allowlists))
    ensures forall q :: q in redactedFields <==> Topmost(Obj(Filtered(tool, payload, allowlists)), q)
  {
    var filteredRoot: seq<Entry> := [];
    for i := 0 to |payload|
      invariant filteredRoot == Filtered(tool, payload[..i], allowlists)
    {
      assert payload[..i + 1][..i] == payload[..i];
      if tool !in allowlists || payload[i].key in allowlists[tool] {
        filteredRoot := filteredRoot + [payload[i]];
      }
    }
    assert payload[..|payload|] == payload;
    FilteredIsProper(tool, payload, allowlists);
    var redactor := new Redactor();
    filtered := redactor.Clean(Obj(filteredRoot), []);
    includedFields := set e | e in filteredRoot :: e.key;
    redactedFields := set q | q in redactor.redactedPaths;
    forall q ensures q in redactedFields <==> Topmost(Obj(filteredRoot), q) {
      assert q[0..] == q;
    }
  }

  lemma {:induction false} FilteredIsProper(tool: string, payload: seq<Entry>, allowlists: map<string, set<string>>)
    requires Proper(Obj(payload))
    ensures Proper(Obj(Filtered(tool, payload, allowlists)))
  {
    if payload != [] {
      var (before, last) := (payload[..|payload| - 1], payload[|payload| - 1]);
      FilteredIsProper(tool, before, allowlists);
      forall e | e in Filtered(tool, before, allowlists) ensures e.key != last.key {
        var k :| 0 <= k < |before| && before[k] == e;
        assert payload[k].key != payload[|payload| - 1].key;
      }
    }
  }

  // ---- what redaction does ---------------------------------------------------------------------

  lemma {:induction false} LookupRedacted(entries: seq<Entry>, key: string)
    ensures Lookup(Redact(Obj(entries)).entries, key) ==
            if Lookup(entries, key).None? then None
            else Some(if Sensitive(key) then REDACTED else Redact(Lookup(entries, key).value))
  {
    if entries != [] {
      LookupRedacted(entries[..|entries| - 1], key);
      assert Redact(Obj(entries)).entries[..|entries| - 1] == Redact(Obj(entries[..|entries| - 1])).entries;
    }
  }

  lemma ChildRedacted(v: Json, step: Step)
    ensures Child(Redact(v), step) ==
            if Child(v, step).None? then None
            else Some(if step.Key? && Sensitive(step.key) then REDACTED else Redact(Child(v, step).value))
  {
    if step.Key? && v.Obj? {
      LookupRedacted(v.entries, step.key);
    }
  }

  /** Same leaf, same keys in the same order, or the same length. */
  predicate SameShape(v: Json, w: Json) {
    match v
    case Obj(entries) =>
      w.Obj? && |w.entries| == |entries| && forall i | 0 <= i < |entries| :: w.entries[i].key == entries[i].key
    case Arr(items) => w.Arr? && |w.items| == |items|
    case _ => w == v
  }

  predicate Under(v: Json, path: Path) { exists n | 0 <= n < |path| :: Topmost(v, path[..n]) }

  /** Redaction replaces exactly the topmost values under sensitive keys, at any depth; nothing is left
      below them; every other position keeps its leaf, its keys or its length. */
  lemma {:induction false} RedactsExactly(v: Json, path: Path)
    ensures var (was, now) := (At(v, path), At(Redact(v), path));
            if Topmost(v, path) then now == Some(REDACTED)
            else if Under(v, path) then now == None
            else now.Some? == was.Some? && (was.Some? ==> SameShape(was.value, now.value))
    decreases |path|
  {
    if path == [] {
      assert SameShape(v, Redact(v));
    } else {
      ChildRedacted(v, path[0]);
      UnderChild(v, path);
      if Child(v, path[0]).Some? && !(path[0].Key? && Sensitive(path[0].key)) {
        RedactsExactly(Child(v, path[0]).value, path[1..]);
      } else if |path| > 1 {
        assert Child(REDACTED, path[1]) == None;
      }
    }
  }

  /** Being below a topmost position, one step down. */
  lemma UnderChild(v: Json, path: Path)
    requires path != []
    ensures Under(v, path) <==>
            Child(v, path[0]).Some? && if path[0].Key? && Sensitive(path[0].key) then |path| > 1
              else Under(Child(v, path[0]).value, path[1..])
  {
    var sensitive := path[0].Key? && Sensitive(path[0].key);
    if n :| 0 <= n < |path| && Topmost(v, path[..n]) {
      assert path[..n][1..] == path[1..][..n - 1];
    }
    if Child(v, path[0]).Some? {
      if sensitive && |path| > 1 {
        assert Topmost(v, path[..1]);
      } else if !sensitive && Under(Child(v, path[0]).value, path[1..]) {
        var n :| 0 <= n < |path[1..]| && Topmost(Child(v, path[0]).value, path[1..][..n]);
        assert path[..n + 1][1..] == path[1..][..n];
        assert Topmost(v, path[..n + 1]);
      }
    }
  }

  /** A topmost position in plain words: it exists, it ends at a sensitive key, and it passes none. */
  lemma {:induction false} TopmostMeans(v: Json, path: Path)
    ensures Topmost(v, path) <==>
            && path != [] && At(v, path).Some?
            && (forall i | 0 <= i < |path| :: path[i].Key? && Sensitive(path[i].key) <==> i == |path| - 1)
    decreases |path|
  {
    if path != [] && Child(v, path[0]).Some? {
      var tail := path[1..];
      TopmostMeans(Child(v, path[0]).value, tail);
      assert forall i | 1 <= i < |path| :: path[i] == tail[i - 1];
      assert forall i | 0 <= i < |tail| :: tail[i] == path[i + 1];
      if |path| == 1 {
        assert At(Child(v, path[0]).value, tail).Some?;
      }
    }
  }

  // ---- a second time -------------------------------------------------------------------------

  lemma {:induction false} RedactTwice(v: Json)
    ensures Redact(Redact(v)) == Redact(v)
    decreases v
  {
    match v {
      case Obj(entries) =>
        forall i | 0 <= i < |entries| ensures RedactEntry(RedactEntry(entries[i])) == RedactEntry(entries[i]) {
          RedactTwice(entries[i].value);
        }
      case Arr(items) =>
        forall i | 0 <= i < |items| ensures Redact(Redact(items[i])) == Redact(items[i]) {
          RedactTwice(items[i]);
        }
      case _ =>
    }
  }

  lemma {:induction false} TopmostStays(v: Json, path: Path)
    ensures Topmost(Redact(v), path) <==> Topmost(v, path)
    decreases |path|
  {
    if path != [] {
      ChildRedacted(v, path[0]);
      if Child(v, path[0]).Some? && !(path[0].Key? && Sensitive(path[0].key)) {
        TopmostStays(Child(v, path[0]).value, path[1..]);
      }
    }
  }

  /** Filtering what was filtered and redacted for the same tool takes nothing away. */
  lemma FilteredTwice(tool: string, payload: seq<Entry>, allowlists: map<string, set<string>>)
    ensures var once := Redact(Obj(Filtered(tool, payload, allowlists))).entries;
            Filtered(tool, once, allowlists) == once
  {
    var kept := Filtered(tool, payload, allowlists);
    KeptKeysAreAllowed(tool, payload, allowlists);
    var once := Redact(Obj(kept)).entries;
    forall i | 0 <= i < |once| ensures tool !in allowlists || once[i].key in allowlists[tool] {
      assert once[i] == RedactEntry(kept[i]);
      assert kept[i] in kept;
    }
    NothingFiltered(tool, once, allowlists);
  }

  lemma {:induction false} KeptKeysAreAllowed(tool: string, payload: seq<Entry>, allowlists: map<string, set<string>>)
    ensures forall e | e in Filtered(tool, payload, allowlists) :: tool !in allowlists || e.key in allowlists[tool]
  {
    if payload != [] {
      KeptKeysAreAllowed(tool, payload[..|payload| - 1], allowlists);
    }
  }

  lemma {:induction false} NothingFiltered(tool: string, entries: seq<Entry>, allowlists: map<string, set<string>>)
    requires forall i | 0 <= i < |entries| :: tool !in allowlists || entries[i].key in allowlists[tool]
    ensures Filtered(tool, entries, allowlists) == entries
  {
    if entries != [] {
      NothingFiltered(tool, entries[..|entries| - 1], allowlists);
    }
  }

  /** Applying the policy again, for the same tool, changes none of its three outputs. */
  lemma PolicyIsIdempotent(tool: string, payload: seq<Entry>, allowlists: map<string, set<string>>, q: Path)
    ensures var kept := Filtered(tool, payload, allowlists);
            var again := Filtered(tool, Redact(Obj(kept)).entries, allowlists);
            && Redact(Obj(again)) == Redact(Obj(kept)) && KeysOf(again) == KeysOf(kept)
            && (Topmost(Obj(again), q) <==> Topmost(Obj(kept), q))
  {
    var kept := Filtered(tool, payload, allowlists);
    FilteredTwice(tool, payload, allowlists);
    RedactTwice(Obj(kept));
    TopmostStays(Obj(kept), q);
    RedactKeepsKeys(kept);
  }

  lemma RedactKeepsKeys(entries: seq<Entry>)
    ensures KeysOf(Redact(Obj(entries)).entries) == KeysOf(entries)
  {
    var cleaned := Redact(Obj(entries)).entries;
    assert forall i | 0 <= i < |entries| ::
      cleaned[i] == RedactEntry(entries[i]) && cleaned[i] in cleaned && entries[i] in entries;
    forall k ensures k in KeysOf(cleaned) <==> k in KeysOf(entries) {
    }
  }
}
