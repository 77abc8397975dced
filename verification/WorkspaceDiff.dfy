/** Snapshots of the workspace before and after a run, and what differs between them. */
module WorkspaceDiff {
  import opened Prelude
  import opened Index
  import opened IndexTheorems

  datatype Entry = Entry(path: Path, present: bool, size: nat, hash: Option<Digest>, modifiedAt: Option<string>)

  // ---- the snapshotter -----------------------------------------------------------------------

  function ScannedEntry(p: Path, content: string, modified: map<Path, string>): Entry {
    Entry(p, true, |content|, Some(Sha256(content)), if p in modified then Some(modified[p]) else None)
  }

  function AbsentEntry(p: Path): Entry { Entry(p, false, 0, None, None) }

  /** The scanned files, and an absent entry for every seed path that was not scanned. */
  function SnapshotAt(w: World, modified: map<Path, string>, seeds: seq<Path>, p: Path): Option<Entry> {
    if p in w then Some(ScannedEntry(p, w[p], modified)) else if p != "" && p in seeds then Some(AbsentEntry(p))
    else None
  }

  function EntryAt(m: map<string, Entry>, k: string): Option<Entry> { if k in m then Some(m[k]) else None }

  /** Each entry once, in an order that follows the locale. */
  ghost predicate IsSnapshot(entries: seq<Entry>, w: World, modified: map<Path, string>, seeds: seq<Path>) {
    && DistinctPaths(entries)
    && (forall e | e in entries :: SnapshotAt(w, modified, seeds, e.path) == Some(e))
    && (forall p | SnapshotAt(w, modified, seeds, p).Some? :: SnapshotAt(w, modified, seeds, p).value in entries)
  }

  ghost predicate DistinctPaths(entries: seq<Entry>) {
    forall i, j | 0 <= i < j < |entries| :: entries[i].path != entries[j].path
  }

  method Capture(scan: Scan, modified: map<Path, string>, seedPaths: seq<Path>) returns (entries: seq<Entry>)
    requires IsScan(scan)
    ensures IsSnapshot(entries, scan.content, modified, seedPaths)
  {
    var entriesByPath: map<Path, Entry> := map[];
    for i := 0 to |scan.order|
      invariant forall p ::
                  EntryAt(entriesByPath, p) ==
                    if p in scan.order[..i] then Some(ScannedEntry(p, scan.content[p], modified)) else None
      invariant forall p | p in entriesByPath :: entriesByPath[p].path == p
    {
      var p := scan.order[i];
      assert scan.order[..i + 1] == scan.order[..i] + [p];
      entriesByPath := entriesByPath[p := ScannedEntry(p, scan.content[p], modified)];
    }
    assert scan.order[..|scan.order|] == scan.order;
    var seeds := UniquePaths(seedPaths);
    for i := 0 to |seeds|
      invariant forall p :: EntryAt(entriesByPath, p) == SnapshotAt(scan.content, modified, seeds[..i], p)
      invariant forall p | p in entriesByPath :: entriesByPath[p].path == p
    {
      ghost var was := entriesByPath;
      if seeds[i] != "" && seeds[i] !in entriesByPath {
        entriesByPath := entriesByPath[seeds[i] := AbsentEntry(seeds[i])];
      }
      forall p ensures EntryAt(entriesByPath, p) == SnapshotAt(scan.content, modified, seeds[..i + 1], p) {
        assert EntryAt(was, p) == SnapshotAt(scan.content, modified, seeds[..i], p);
        assert p in seeds[..i + 1] <==> p in seeds[..i] || p == seeds[i];
      }
    }
    assert seeds[..|seeds|] == seeds;
    assert forall p :: EntryAt(entriesByPath, p) == SnapshotAt(scan.content, modified, seedPaths, p);
    entries := Values(entriesByPath);
  }

  method Values(m: map<Path, Entry>) returns (entries: seq<Entry>)
    requires forall p | p in m :: m[p].path == p
    ensures DistinctPaths(entries)
    ensures forall e :: e in entries <==> EntryAt(m, e.path) == Some(e)
  {
    entries := [];
    var rest := m.Keys;
    while rest != {}
      invariant rest <= m.Keys && DistinctPaths(entries)
      invariant forall e :: e in entries <==> EntryAt(m, e.path) == Some(e) && e.path !in rest
      decreases rest
    {
      var p :| p in rest;
      entries, rest := entries + [m[p]], rest - {p};
    }
  }

  // ---- the diff ------------------------------------------------------------------------------

  datatype Kind = Created | Modified | Deleted | Unchanged
  datatype Diff = Diff(created: seq<Path>, modified: seq<Path>, deleted: seq<Path>, untouched: seq<Path>)

  predicate HasEntryChanged(before: Entry, after: Entry) {
    before.hash != after.hash
      || (before.hash.None? && (before.size != after.size || before.modifiedAt != after.modifiedAt))
  }

  /** The last entry of each key wins. */
  function ComparableMap(entries: seq<Entry>): map<string, Entry> {
    if entries == [] then map[]
    else
      var last := entries[|entries| - 1];
      ComparableMap(entries[..|entries| - 1])[Lower(last.path) := last]
  }

  method ToComparableMap(entries: seq<Entry>) returns (m: map<string, Entry>)
    ensures m == ComparableMap(entries)
  {
    m := map[];
    for i := 0 to |entries|
      invariant m == ComparableMap(entries[..i])
    {
      assert entries[..i + 1][..i] == entries[..i];
      m := m[Lower(entries[i].path) := entries[i]];
    }
    assert entries[..|entries|] == entries;
  }

  function PathFor(before: Option<Entry>, after: Option<Entry>): Path {
    if after.Some? then after.value.path else if before.Some? then before.value.path else ""
  }

  predicate Present(e: Option<Entry>) { e.Some? && e.value.present }

  function KindOf(before: Option<Entry>, after: Option<Entry>): Kind {
    if !Present(before) && Present(after) then Created
    else if Present(before) && !Present(after) then Deleted
    else if Present(before) && Present(after) && HasEntryChanged(before.value, after.value) then Modified
    else Unchanged
  }

  /** Key k was reported as path p of this kind. */
  predicate Reported(before: map<string, Entry>, after: map<string, Entry>, k: string, kind: Kind, p: Path) {
    p != "" && PathFor(EntryAt(before, k), EntryAt(after, k)) == p
      && KindOf(EntryAt(before, k), EntryAt(after, k)) == kind
  }

  predicate ReportedUnder(before: map<string, Entry>, after: map<string, Entry>, keys: set<string>, kind: Kind,
                          p: Path) {
    exists k | k in keys :: Reported(before, after, k, kind, p)
  }

  ghost predicate ListsKind(paths: seq<Path>, kind: Kind, before: map<string, Entry>, after: map<string, Entry>,
                            keys: set<string>) {
    forall p :: p in paths <==> ReportedUnder(before, after, keys, kind, p)
  }

  ghost predicate DiffOf(d: Diff, before: map<string, Entry>, after: map<string, Entry>, keys: set<string>) {
    && ListsKind(d.created, Created, before, after, keys) && ListsKind(d.modified, Modified, before, after, keys)
    && ListsKind(d.deleted, Deleted, before, after, keys) && ListsKind(d.untouched, Unchanged, before, after, keys)
  }

  method Analyze(before: seq<Entry>, after: seq<Entry>) returns (d: Diff)
    ensures DiffOf(d, ComparableMap(before), ComparableMap(after),
                   ComparableMap(before).Keys + ComparableMap(after).Keys)
  {
    var beforeMap := ToComparableMap(before);
    var afterMap := ToComparableMap(after);
    var rest := beforeMap.Keys + afterMap.Keys;
    ghost var keys: set<string> := {};
    d := Diff([], [], [], []);
    while rest != {}
      invariant keys + rest == beforeMap.Keys + afterMap.Keys && DiffOf(d, beforeMap, afterMap, keys)
      decreases rest
    {
      var key :| key in rest;
      rest, keys := rest - {key}, keys + {key};
      var (beforeEntry, afterEntry) := (EntryAt(beforeMap, key), EntryAt(afterMap, key));
      var path := PathFor(beforeEntry, afterEntry);
      if path == "" {
        continue;
      }
      var (beforeExists, afterExists) := (Present(beforeEntry), Present(afterEntry));
      if !beforeExists && afterExists {
        d := d.(created := d.created + [path]);
      } else if beforeExists && !afterExists {
        d := d.(deleted := d.deleted + [path]);
      } else if beforeExists && afterExists {
        if HasEntryChanged(beforeEntry.value, afterEntry.value) {
          d := d.(modified := d.modified + [path]);
        } else {
          d := d.(untouched := d.untouched + [path]);
        }
      } else {
        d := d.(untouched := d.untouched + [path]);
      }
    }
  }

  method ComputeChangedPaths(d: Diff) returns (changed: seq<Path>)
    ensures Distinct(changed) && forall p :: p in changed <==> p in d.created || p in d.modified || p in d.deleted
  {
    changed := UniquePaths(d.created + d.modified + d.deleted);
  }

  // ---- what the diff finds -------------------------------------------------------------------

  /** No two of the paths differ only by case, and none is empty. */
  ghost predicate Distinguishable(paths: set<Path>) {
    "" !in paths && forall p, q | p in paths && q in paths && Lower(p) == Lower(q) :: p == q
  }

  /** Then the comparable map of a snapshot is the snapshot, under lower-cased keys. */
  lemma {:induction false} ComparableMapAt(entries: seq<Entry>, paths: set<Path>, p: Path)
    requires Distinguishable(paths) && p in paths && forall e | e in entries :: e.path in paths
    requires forall i, j | 0 <= i < j < |entries| :: entries[i].path != entries[j].path
    ensures Lower(p) in ComparableMap(entries) <==> exists e | e in entries :: e.path == p
    ensures Lower(p) in ComparableMap(entries) ==>
              ComparableMap(entries)[Lower(p)] in entries && ComparableMap(entries)[Lower(p)].path == p
  {
    if entries != [] {
      ComparableMapAt(entries[..|entries| - 1], paths, p);
      assert entries == entries[..|entries| - 1] + [entries[|entries| - 1]];
    }
  }

  lemma SnapshotEntryAt(entries: seq<Entry>, w: World, modified: map<Path, string>, seeds: seq<Path>, paths: set<Path>,
                        p: Path)
    requires IsSnapshot(entries, w, modified, seeds) && Distinguishable(paths) && p in paths
    requires w.Keys <= paths && forall q | q in seeds :: q in paths
    ensures EntryAt(ComparableMap(entries), Lower(p)) == SnapshotAt(w, modified, seeds, p)
  {
    ComparableMapAt(entries, paths, p);
  }

  lemma {:induction false} KeysComeFromEntries(entries: seq<Entry>, k: string)
    requires k in ComparableMap(entries)
    ensures ComparableMap(entries)[k] in entries && Lower(ComparableMap(entries)[k].path) == k
  {
    if k != Lower(entries[|entries| - 1].path) {
      KeysComeFromEntries(entries[..|entries| - 1], k);
    }
  }

  /** What was captured before a run, and after it with the paths of the first snapshot as seeds. */
  ghost predicate Captured(before: seq<Entry>, after: seq<Entry>, w0: World, w1: World, m0: map<Path, string>,
                           m1: map<Path, string>, seeds: seq<Path>) {
    && IsSnapshot(before, w0, m0, []) && IsSnapshot(after, w1, m1, seeds)
    && (forall p :: p in seeds <==> p in w0) && Distinguishable(w0.Keys + w1.Keys)
  }

  function KindAt(w0: World, w1: World, p: Path): Kind {
    if p !in w0 && p in w1 then Created else if p in w0 && p !in w1 then Deleted
    else if Differs(w0, w1, p) then Modified else Unchanged
  }

  /** The created, modified and deleted paths are exactly those at which the workspaces differ: files
      that vanished are seen through the seed paths, files that were only touched are not reported. */
  lemma DiffIsExact(before: seq<Entry>, after: seq<Entry>, d: Diff, w0: World, w1: World, m0: map<Path, string>,
                    m1: map<Path, string>, seeds: seq<Path>)
    requires Captured(before, after, w0, w1, m0, m1, seeds)
    requires DiffOf(d, ComparableMap(before), ComparableMap(after),
                    ComparableMap(before).Keys + ComparableMap(after).Keys)
    ensures forall p :: p in d.created <==> p !in w0 && p in w1
    ensures forall p :: p in d.modified <==> p in w0 && p in w1 && w0[p] != w1[p]
    ensures forall p :: p in d.deleted <==> p in w0 && p !in w1
  {
    forall p
      ensures p in d.created <==> p !in w0 && p in w1
      ensures p in d.modified <==> p in w0 && p in w1 && w0[p] != w1[p]
      ensures p in d.deleted <==> p in w0 && p !in w1
    {
      ReportedOnce(before, after, w0, w1, m0, m1, seeds, Created, p);
      ReportedOnce(before, after, w0, w1, m0, m1, seeds, Modified, p);
      ReportedOnce(before, after, w0, w1, m0, m1, seeds, Deleted, p);
    }
  }

  lemma ReportedOnce(before: seq<Entry>, after: seq<Entry>, w0: World, w1: World, m0: map<Path, string>,
                     m1: map<Path, string>, seeds: seq<Path>, kind: Kind, p: Path)
    requires Captured(before, after, w0, w1, m0, m1, seeds)
    ensures ReportedUnder(ComparableMap(before), ComparableMap(after),
                          ComparableMap(before).Keys + ComparableMap(after).Keys, kind, p)
            <==> p in w0.Keys + w1.Keys && KindAt(w0, w1, p) == kind
  {
    var (b, a) := (ComparableMap(before), ComparableMap(after));
    if k :| k in b.Keys + a.Keys && Reported(b, a, k, kind, p) {
      if k in a {
        KeysComeFromEntries(after, k);
      } else {
        KeysComeFromEntries(before, k);
      }
      assert SnapshotAt(w1, m1, seeds, p).Some? || SnapshotAt(w0, m0, [], p).Some?;
      assert k == Lower(p);
    }
    if p in w0.Keys + w1.Keys {
      ReportedAsItIs(before, after, w0, w1, m0, m1, seeds, p);
    }
  }

  lemma ReportedAsItIs(before: seq<Entry>, after: seq<Entry>, w0: World, w1: World, m0: map<Path, string>,
                       m1: map<Path, string>, seeds: seq<Path>, p: Path)
    requires Captured(before, after, w0, w1, m0, m1, seeds) && p in w0.Keys + w1.Keys
    ensures Lower(p) in ComparableMap(before).Keys + ComparableMap(after).Keys
    ensures Reported(ComparableMap(before), ComparableMap(after), Lower(p), KindAt(w0, w1, p), p)
  {
    SnapshotEntryAt(before, w0, m0, [], w0.Keys + w1.Keys, p);
    SnapshotEntryAt(after, w1, m1, seeds, w0.Keys + w1.Keys, p);
  }
}
