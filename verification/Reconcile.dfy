/** What happens to the index after Codex has run: the skipped, scoped and fallback paths. */
module Reconcile {
  import opened Prelude
  import Chunker
  import opened Index
  import opened IndexTheorems
  import opened WorkspaceDiff

  datatype Mode = SkippedMode | ScopedMode | FallbackFull
  datatype Reindex = Reindex(mode: Mode, ok: bool, errors: nat)

  /** What the outside supplies to the two runs: the files as they can be read, the scan, the failures. */
  datatype Supply = Supply(loads: map<Path, Load>, scoped: Faults, scan: Scan, full: Faults)

  ghost predicate FullReindexed(rows: Rows, rows': Rows, x: Supply, cfg: ChunkConfig, r: Reindex) {
    && FullRan(rows, rows', x.scan, x.full, cfg) && r.mode.FallbackFull?
    && (r.ok <==> !FullThrows(rows, x.scan, x.full))
    && (r.ok && r.errors == 0 <==> FullOk(rows, x.scan, x.full))
  }

  /** `mid` is the index between a scoped run that threw and the full run that follows it. */
  ghost predicate Reindexed(rows: Rows, mid: Rows, rows': Rows, changed: seq<Path>, max: nat, x: Supply,
                            cfg: ChunkConfig, r: Reindex) {
    if changed == [] then rows' == rows && r == Reindex(SkippedMode, true, 0)
    else if |changed| > max then mid == rows && FullReindexed(mid, rows', x, cfg, r)
    else if ScopedThrows(rows, changed, x.loads, x.scoped)
    then ScopedRan(rows, mid, changed, x.loads, x.scoped, cfg) && FullReindexed(mid, rows', x, cfg, r)
    else
      && ScopedRan(rows, rows', changed, x.loads, x.scoped, cfg) && r.mode.ScopedMode? && r.ok
      && (r.errors == 0 <==> ScopedOk(rows, changed, x.loads, x.scoped))
  }

  /** The upsert of the file went through, the write of its chunks did not, and they were different. */
  predicate HalfWrites(row: Option<Row>, content: string, f: WriteFault, cfg: ChunkConfig) {
    && (f.UpsertLost? || f.ChunksThrow?) && Rewrites(row, content)
    && ChunksIn(row) != Chunker.ChunksOf(content, cfg.size, cfg.overlap)
  }

  /** The family of failures that a report of success hides: a scoped run half-wrote a changed file and
      then stopped at a failing deletion. */
  ghost predicate HiddenHalfWrite(rows: Rows, changed: seq<Path>, max: nat, w1: World, x: Supply, cfg: ChunkConfig) {
    && |changed| <= max && ScopedThrows(rows, changed, x.loads, x.scoped) && !x.scoped.listThrows
    && exists p | p in w1 ::
      p in changed && LoadAt(x.loads, p).Loaded? && HalfWrites(RowAt(rows, p), w1[p], WriteFaultAt(x.scoped, p), cfg)
  }

  /** The other one: a scoped run marked files as deleted, and stopped before it removed their chunks. */
  ghost predicate HiddenLeftovers(rows: Rows, changed: seq<Path>, max: nat, w1: World, x: Supply) {
    && |changed| <= max && !x.scoped.listThrows && (x.scoped.delete.MarkLost? || x.scoped.delete.DropThrows?)
    && exists p | p in changed :: Active(RowAt(rows, p)) && Gone(x.loads, p) && rows[p].chunks != []
  }

  /** The workspace is stable after the run, and the scan of a full run finds what it holds. */
  ghost predicate Stable(w1: World, x: Supply) {
    x.scan.content == w1 && forall p :: LoadFits(x.loads, w1, p)
  }

  /** If the index agreed with the workspace before the run, and the reindex reports success without an
      error, then it agrees with the workspace after the run, whichever way was taken, if and only if
      no half-written file was hidden. */
  lemma ReconcileAgrees(rows: Rows, mid: Rows, rows': Rows, w0: World, w1: World, changed: seq<Path>, max: nat,
                        x: Supply, cfg: ChunkConfig, r: Reindex)
    requires Agrees(rows, w0, cfg) && Stable(w1, x) && (forall p :: p in changed <==> Differs(w0, w1, p))
    requires Reindexed(rows, mid, rows', changed, max, x, cfg, r) && r.ok && r.errors == 0
    ensures Agrees(rows', w1, cfg) <==> !HiddenHalfWrite(rows, changed, max, w1, x, cfg)
  {
    if changed == [] {
      SameWorldAgrees(rows, w0, w1, cfg);
    } else if |changed| > max {
      forall p | p in w1 ensures !Stale(RowAt(rows, p), w1[p], cfg) {
        AgreeingIsNotStale(rows, w0, w1[p], cfg, p);
      }
      FullRunIsExact(mid, rows', x.scan, x.full, cfg);
    } else if ScopedThrows(rows, changed, x.loads, x.scoped) {
      FullRunIsExact(mid, rows', x.scan, x.full, cfg);
      forall p | p in w1
        ensures Stale(RowAt(mid, p), w1[p], cfg) <==>
                !x.scoped.listThrows && p in changed && LoadAt(x.loads, p).Loaded?
                  && HalfWrites(RowAt(rows, p), w1[p], WriteFaultAt(x.scoped, p), cfg)
      {
        StaleAfterScoped(rows, mid, w0, w1, changed, x, cfg, p);
      }
    } else {
      ScopedRunIsExact(rows, rows', changed, x.loads, x.scoped, cfg, w0, w1);
    }
  }

  lemma SameWorldAgrees(rows: Rows, w0: World, w1: World, cfg: ChunkConfig)
    requires Agrees(rows, w0, cfg) && forall p :: !Differs(w0, w1, p)
    ensures Agrees(rows, w1, cfg)
  {
    forall p ensures if p in w1 then RowAt(rows, p) == Some(ExactRow(w1[p], cfg)) else !Active(RowAt(rows, p)) {
      assert !Differs(w0, w1, p);
    }
  }

  /** The only rows a scoped run leaves stale are the half-written ones. */
  lemma StaleAfterScoped(rows: Rows, mid: Rows, w0: World, w1: World, changed: seq<Path>, x: Supply, cfg: ChunkConfig,
                         p: Path)
    requires Agrees(rows, w0, cfg) && ScopedRan(rows, mid, changed, x.loads, x.scoped, cfg) && p in w1
    requires LoadFits(x.loads, w1, p)
    ensures Stale(RowAt(mid, p), w1[p], cfg) <==>
            !x.scoped.listThrows && p in changed && LoadAt(x.loads, p).Loaded?
              && HalfWrites(RowAt(rows, p), w1[p], WriteFaultAt(x.scoped, p), cfg)
  {
    assert RowAt(mid, p) == ScopedRow(RowAt(rows, p), p, changed, x.loads, x.scoped, cfg);
    AgreeingIsNotStale(rows, w0, w1[p], cfg, p);
  }

  /** Likewise no chunks are left of deleted files, if and only if no leftovers were hidden. */
  lemma ReconcileIsTidy(rows: Rows, mid: Rows, rows': Rows, w0: World, w1: World, changed: seq<Path>, max: nat,
                        x: Supply, cfg: ChunkConfig, r: Reindex)
    requires Agrees(rows, w0, cfg) && Tidy(rows) && Stable(w1, x) && (forall p :: p in changed <==> Differs(w0, w1, p))
    requires Reindexed(rows, mid, rows', changed, max, x, cfg, r) && r.ok && r.errors == 0
    ensures Tidy(rows') <==> !HiddenLeftovers(rows, changed, max, w1, x)
  {
    if changed != [] {
      forall p
        ensures (RowAt(rows', p).Some? && rows'[p].deleted && rows'[p].chunks != []) <==>
                |changed| <= max && !x.scoped.listThrows && (x.scoped.delete.MarkLost? || x.scoped.delete.DropThrows?)
                && p in changed && Active(RowAt(rows, p)) && Gone(x.loads, p) && rows[p].chunks != []
      {
        LeftoverAt(rows, mid, rows', w0, w1, changed, max, x, cfg, r, p);
      }
    }
  }

  lemma LeftoverAt(rows: Rows, mid: Rows, rows': Rows, w0: World, w1: World, changed: seq<Path>, max: nat, x: Supply,
                   cfg: ChunkConfig, r: Reindex, p: Path)
    requires Agrees(rows, w0, cfg) && Tidy(rows) && Stable(w1, x) && (forall q :: q in changed <==> Differs(w0, w1, q))
    requires changed != []
    requires Reindexed(rows, mid, rows', changed, max, x, cfg, r) && r.ok && r.errors == 0
    ensures (RowAt(rows', p).Some? && rows'[p].deleted && rows'[p].chunks != []) <==>
            |changed| <= max && !x.scoped.listThrows && (x.scoped.delete.MarkLost? || x.scoped.delete.DropThrows?)
            && p in changed && Active(RowAt(rows, p)) && Gone(x.loads, p) && rows[p].chunks != []
  {
    assert LoadFits(x.loads, w1, p);
    if |changed| > max {
      FullRunIsExact(mid, rows', x.scan, x.full, cfg);
      assert RowAt(rows', p) == FullRow(RowAt(mid, p), p, x.scan, x.full, cfg);
    } else if ScopedThrows(rows, changed, x.loads, x.scoped) {
      assert RowAt(mid, p) == ScopedRow(RowAt(rows, p), p, changed, x.loads, x.scoped, cfg);
      assert RowAt(rows', p) == FullRow(RowAt(mid, p), p, x.scan, x.full, cfg);
    } else {
      assert RowAt(rows', p) == ScopedRow(RowAt(rows, p), p, changed, x.loads, x.scoped, cfg);
    }
  }

  method PresentPaths(entries: seq<Entry>) returns (paths: seq<Path>)
    ensures forall p :: p in paths <==> exists e | e in entries :: e.present && e.path == p
  {
    paths := [];
    for i := 0 to |entries|
      invariant forall p :: p in paths <==> exists e | e in entries[..i] :: e.present && e.path == p
    {
      assert entries[..i + 1] == entries[..i] + [entries[i]];
      if entries[i].present {
        paths := paths + [entries[i].path];
      }
    }
    assert entries[..|entries|] == entries;
  }

  /** The paths at which the snapshots before and after a run differ. */
  method ChangedBetween(before: Scan, after: Scan, m0: map<Path, string>, m1: map<Path, string>)
    returns (changedPaths: seq<Path>)
    requires IsScan(before) && IsScan(after)
    ensures Distinguishable(before.content.Keys + after.content.Keys) ==>
              forall p :: p in changedPaths <==> Differs(before.content, after.content, p)
  {
    var entriesBefore := Capture(before, m0, []);
    var beforePaths := PresentPaths(entriesBefore);
    var entriesAfter := Capture(after, m1, beforePaths);
    var diff := Analyze(entriesBefore, entriesAfter);
    changedPaths := ComputeChangedPaths(diff);
    if Distinguishable(before.content.Keys + after.content.Keys) {
      forall p ensures p in beforePaths <==> p in before.content {
        if p in before.content {
          assert SnapshotAt(before.content, m0, [], p).value in entriesBefore;
        }
      }
      DiffIsExact(entriesBefore, entriesAfter, diff, before.content, after.content, m0, m1, beforePaths);
    }
  }

  class PostRunReconciler {
    const index: WorkspaceIndex
    const maxScopedReindexPaths: nat

    constructor (index: WorkspaceIndex, max: nat)
      ensures this.index == index && maxScopedReindexPaths == max
    {
      this.index, maxScopedReindexPaths := index, max;
    }

    method RunPostRunReindex(changedPaths: seq<Path>, x: Supply) returns (r: Reindex, ghost mid: Rows)
      requires index.Valid() && IsScan(x.scan)
      modifies index
      ensures index.Valid()
      ensures Reindexed(old(index.Rows()), mid, index.Rows(), changedPaths, maxScopedReindexPaths, x, index.cfg, r)
    {
      mid := index.Rows();
      if |changedPaths| == 0 {
        r := Reindex(SkippedMode, true, 0);
        return;
      }
      if |changedPaths| > maxScopedReindexPaths {
        r := RunFallbackFullReindex(x);
        return;
      }
      var ok, errors := index.RunIndexByPaths(changedPaths, x.loads, x.scoped);
      if ok {
        r := Reindex(ScopedMode, true, errors);
      } else {
        mid := index.Rows();
        r := RunFallbackFullReindex(x);
      }
    }

    method RunFallbackFullReindex(x: Supply) returns (r: Reindex)
      requires index.Valid() && IsScan(x.scan)
      modifies index
      ensures index.Valid() && FullReindexed(old(index.Rows()), index.Rows(), x, index.cfg, r)
    {
      var ok, errors := index.RunIndex(x.scan, x.full);
      r := Reindex(FallbackFull, ok, errors);
    }

    /** The index agreed with the workspace before the run, the workspace is stable after it, and the reindex
        reports success without an error. */
    ghost predicate Clean(before: Scan, after: Scan, was: Rows, x: Supply, r: Reindex)
      reads index
    {
      && Distinguishable(before.content.Keys + after.content.Keys)
      && Agrees(was, before.content, index.cfg) && Stable(after.content, x) && r.ok && r.errors == 0
    }

    /** `after` is the workspace Codex leaves; the snapshots ignore files they cannot read. An index that agreed
        with the workspace before agrees with the workspace after a report of success without errors, if and
        only if no half-write was hidden; and likewise for the chunks of deleted files. */
    method Reconcile(before: Scan, after: Scan, m0: map<Path, string>, m1: map<Path, string>, x: Supply)
      returns (r: Reindex, changedPaths: seq<Path>, ghost mid: Rows)
      requires index.Valid() && IsScan(before) && IsScan(after) && IsScan(x.scan)
      modifies index
      ensures index.Valid()
      ensures Reindexed(old(index.Rows()), mid, index.Rows(), changedPaths, maxScopedReindexPaths, x, index.cfg, r)
      ensures Distinguishable(before.content.Keys + after.content.Keys) ==>
                forall p :: p in changedPaths <==> Differs(before.content, after.content, p)
      ensures Clean(before, after, old(index.Rows()), x, r) ==>
                (Agrees(index.Rows(), after.content, index.cfg) <==>
                 !HiddenHalfWrite(old(index.Rows()), changedPaths, maxScopedReindexPaths, after.content, x, index.cfg))
      ensures Clean(before, after, old(index.Rows()), x, r) && Tidy(old(index.Rows())) ==>
                (Tidy(index.Rows()) <==>
                 !HiddenLeftovers(old(index.Rows()), changedPaths, maxScopedReindexPaths, after.content, x))
    {
      changedPaths := ChangedBetween(before, after, m0, m1);
      ghost var was := index.Rows();
      r, mid := RunPostRunReindex(changedPaths, x);
      if Clean(before, after, was, x, r) {
        ReconcileAgrees(was, mid, index.Rows(), before.content, after.content, changedPaths, maxScopedReindexPaths, x,
                        index.cfg, r);
      }
      if Clean(before, after, was, x, r) && Tidy(was) {
        ReconcileIsTidy(was, mid, index.Rows(), before.content, after.content, changedPaths, maxScopedReindexPaths, x,
                        index.cfg, r);
      }
    }
  }

  // ---- the hidden half-write, in the small -----------------------------------------------------

  /** Two files; "a" gets new contents and "b" is removed. Writing the chunks of "a" fails, then so does
      marking "b"; the full run that follows reports success without errors and leaves "a" with its old chunks. */
  lemma SuccessCanHideStaleChunks(cfg: ChunkConfig)
    returns (rows: Rows, mid: Rows, rows': Rows, w0: World, w1: World, changed: seq<Path>, x: Supply, r: Reindex)
    ensures Agrees(rows, w0, cfg) && Stable(w1, x) && (forall p :: p in changed <==> Differs(w0, w1, p))
    ensures Reindexed(rows, mid, rows', changed, 200, x, cfg, r) && r.ok && r.errors == 0
    ensures !Agrees(rows', w1, cfg)
  {
    w0, w1 := map["a" := "", "b" := ""], map["a" := "x"];
    var (before, after) := (ExactRow("", cfg), ExactRow("x", cfg));
    assert !Chunker.IsSpace("x"[0]) && !Chunker.Blank("x");
    var half := after.(chunks := []);
    rows, mid, rows' := map["a" := before, "b" := before], map["a" := half, "b" := before],
    map["a" := half, "b" := before.(deleted := true)];
    changed, r := ["a", "b"], Reindex(FallbackFull, true, 0);
    x := Supply(map["a" := Loaded("x")], Faults(false, map["a" := ChunksThrow], MarkThrows),
                Scan(["a"], w1, 0), Faults(false, map[], NoDeleteFault));
    assert Active(RowAt(rows, "b")) && "b" in changed && Gone(x.loads, "b");
    assert RowAt(rows', "a") != Some(ExactRow(w1["a"], cfg));
  }

  /** One file, removed by the run: it is marked as deleted, removing its chunks fails, and the full run
      that follows finds nothing to do and reports success. */
  lemma SuccessCanHideLeftovers(cfg: ChunkConfig)
    returns (rows: Rows, mid: Rows, rows': Rows, w0: World, w1: World, changed: seq<Path>, x: Supply, r: Reindex)
    ensures Agrees(rows, w0, cfg) && Tidy(rows) && Stable(w1, x) && (forall p :: p in changed <==> Differs(w0, w1, p))
    ensures Reindexed(rows, mid, rows', changed, 200, x, cfg, r) && r.ok && r.errors == 0
    ensures !Tidy(rows')
  {
    w0, w1 := map["b" := "x"], map[];
    assert !Chunker.IsSpace("x"[0]) && !Chunker.Blank("x");
    var before := ExactRow("x", cfg);
    rows, mid := map["b" := before], map["b" := before.(deleted := true)];
    rows' := mid;
    changed, r := ["b"], Reindex(FallbackFull, true, 0);
    x := Supply(map[], Faults(false, map[], DropThrows), Scan([], w1, 0), Faults(false, map[], NoDeleteFault));
    assert Active(RowAt(rows, "b")) && "b" in changed && Gone(x.loads, "b");
    assert rows'["b"].chunks != [];
  }
}
