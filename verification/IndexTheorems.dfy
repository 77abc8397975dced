/** A run leaves exactly the workspace in the index; a scoped run over every difference does the same. */
module IndexTheorems {
  import opened Prelude
  import Chunker
  import opened Index

  /** The files the scanner accepts, with their contents. */
  type World = map<Path, string>

  function ContentAt(w: World, p: Path): Option<string> { if p in w then Some(w[p]) else None }

  predicate Differs(w0: World, w1: World, p: Path) { ContentAt(w0, p) != ContentAt(w1, p) }

  function ExactRow(content: string, cfg: ChunkConfig): Row {
    Row(Sha256(content), false, Chunker.ChunksOf(content, cfg.size, cfg.overlap))
  }

  /** The active rows are the files of the workspace, with their hashes and their chunks. */
  ghost predicate Agrees(rows: Rows, w: World, cfg: ChunkConfig) {
    forall p :: if p in w then RowAt(rows, p) == Some(ExactRow(w[p], cfg)) else !Active(RowAt(rows, p))
  }

  /** No chunks are left under files that are marked as deleted. */
  ghost predicate Tidy(rows: Rows) { forall p | p in rows && rows[p].deleted :: rows[p].chunks == [] }

  /** An active row with the hash of the file but other chunks: a run takes it for unchanged. */
  predicate Stale(row: Option<Row>, content: string, cfg: ChunkConfig) {
    !Rewrites(row, content) && row.value.chunks != Chunker.ChunksOf(content, cfg.size, cfg.overlap)
  }

  ghost predicate FullOk(rows: Rows, scan: Scan, f: Faults) {
    !FullThrows(rows, scan, f) && scan.errors == 0 && forall p :: !FullFails(RowAt(rows, p), p, scan, f)
  }

  ghost predicate ScopedOk(rows: Rows, targets: seq<Path>, loads: map<Path, Load>, f: Faults) {
    !ScopedThrows(rows, targets, loads, f) && forall p | p in targets :: !ScopedFails(RowAt(rows, p), p, loads, f)
  }

  /** Reading a path finds the file the workspace holds, or fails. */
  predicate LoadFits(loads: map<Path, Load>, w: World, p: Path) {
    LoadAt(loads, p).LoadError? || (if p in w then LoadAt(loads, p) == Loaded(w[p]) else Gone(loads, p))
  }

  ghost predicate LoadsFit(loads: map<Path, Load>, targets: seq<Path>, w: World) {
    forall p | p in targets :: LoadFits(loads, w, p)
  }

  /** A run of the whole workspace without errors makes the index exactly the scan, whatever the index
      was before, if and only if no row was stale; and it leaves no chunks of the files it deletes. */
  lemma FullRunIsExact(rows: Rows, rows': Rows, scan: Scan, f: Faults, cfg: ChunkConfig)
    requires FullRan(rows, rows', scan, f, cfg) && FullOk(rows, scan, f)
    ensures Agrees(rows', scan.content, cfg) <==>
              forall p | p in scan.content :: !Stale(RowAt(rows, p), scan.content[p], cfg)
    ensures forall p | Active(RowAt(rows, p)) && p !in scan.content ::
              RowAt(rows', p) == Some(rows[p].(deleted := true, chunks := []))
  {
    forall p
      ensures p in scan.content ==>
                (RowAt(rows', p) == Some(ExactRow(scan.content[p], cfg)) <==>
                  !Stale(RowAt(rows, p), scan.content[p], cfg))
      ensures p !in scan.content ==> !Active(RowAt(rows', p))
    {
      assert !FullFails(RowAt(rows, p), p, scan, f);
      assert RowAt(rows', p) == FullRow(RowAt(rows, p), p, scan, f, cfg);
    }
  }

  /** From an index that agrees with w0, a scoped run without errors gives one that agrees with w1 if
      and only if its targets contain every path at which the two differ. */
  lemma ScopedRunIsExact(rows: Rows, rows': Rows, targets: seq<Path>, loads: map<Path, Load>, f: Faults,
                         cfg: ChunkConfig, w0: World, w1: World)
    requires Agrees(rows, w0, cfg) && LoadsFit(loads, targets, w1)
    requires ScopedRan(rows, rows', targets, loads, f, cfg) && ScopedOk(rows, targets, loads, f)
    ensures Agrees(rows', w1, cfg) <==> forall p | Differs(w0, w1, p) :: p in targets
  {
    forall p
      ensures (if p in w1 then RowAt(rows', p) == Some(ExactRow(w1[p], cfg)) else !Active(RowAt(rows', p)))
              <==> (Differs(w0, w1, p) ==> p in targets)
    {
      TargetIsExact(rows, rows', targets, loads, f, cfg, w0, w1, p);
    }
  }

  lemma TargetIsExact(rows: Rows, rows': Rows, targets: seq<Path>, loads: map<Path, Load>, f: Faults, cfg: ChunkConfig,
                      w0: World, w1: World, p: Path)
    requires Agrees(rows, w0, cfg) && LoadsFit(loads, targets, w1)
    requires ScopedRan(rows, rows', targets, loads, f, cfg) && ScopedOk(rows, targets, loads, f)
    ensures (if p in w1 then RowAt(rows', p) == Some(ExactRow(w1[p], cfg)) else !Active(RowAt(rows', p)))
            <==> (Differs(w0, w1, p) ==> p in targets)
  {
    assert RowAt(rows', p) == ScopedRow(RowAt(rows, p), p, targets, loads, f, cfg);
    if p in targets {
      assert !ScopedFails(RowAt(rows, p), p, loads, f);
    } else if p in w0 && p in w1 && w0[p] != w1[p] {
      assert ExactRow(w0[p], cfg).hash != ExactRow(w1[p], cfg).hash;
    }
  }

  /** So the cheap run and the run of the whole workspace leave the same active rows and chunks. */
  lemma ScopedRunEqualsFullRun(rows: Rows, scoped: Rows, full: Rows, targets: seq<Path>, loads: map<Path, Load>,
                               scan: Scan,
                               f: Faults, g: Faults, cfg: ChunkConfig, w0: World)
    requires Agrees(rows, w0, cfg) && LoadsFit(loads, targets, scan.content)
    requires forall p | Differs(w0, scan.content, p) :: p in targets
    requires ScopedRan(rows, scoped, targets, loads, f, cfg) && ScopedOk(rows, targets, loads, f)
    requires FullRan(rows, full, scan, g, cfg) && FullOk(rows, scan, g)
    ensures forall p ::
              Active(RowAt(scoped, p)) == Active(RowAt(full, p))
                && (Active(RowAt(full, p)) ==> RowAt(scoped, p) == RowAt(full, p))
  {
    ScopedRunIsExact(rows, scoped, targets, loads, f, cfg, w0, scan.content);
    forall p | p in scan.content ensures !Stale(RowAt(rows, p), scan.content[p], cfg) {
      AgreeingIsNotStale(rows, w0, scan.content[p], cfg, p);
    }
    FullRunIsExact(rows, full, scan, g, cfg);
  }

  lemma AgreeingIsNotStale(rows: Rows, w: World, content: string, cfg: ChunkConfig, p: Path)
    requires Agrees(rows, w, cfg)
    ensures !Stale(RowAt(rows, p), content, cfg)
  {
  }

  // ---- runs that fail on the way ---------------------------------------------------------------

  datatype Run = FullRun(scan: Scan, faults: Faults)
    | ScopedRun(targets: seq<Path>, loads: map<Path, Load>, faults: Faults)

  ghost predicate Ran(rows: Rows, rows': Rows, run: Run, cfg: ChunkConfig) {
    match run
    case FullRun(scan, f) => FullRan(rows, rows', scan, f, cfg)
    case ScopedRun(targets, loads, f) => ScopedRan(rows, rows', targets, loads, f, cfg)
  }

  /** The run finds a file at path p. */
  predicate Finds(run: Run, p: Path) {
    match run
    case FullRun(scan, _) => p in scan.content
    case ScopedRun(targets, loads, _) => p in targets && LoadAt(loads, p).Loaded?
  }

  function FoundBy(run: Run, p: Path): Option<string> {
    match run
    case FullRun(scan, _) => ContentAt(scan.content, p)
    case ScopedRun(targets, loads, _) =>
      if p in targets && LoadAt(loads, p).Loaded? then Some(LoadAt(loads, p).content) else None
  }

  /** The run covers p: all paths, or its targets, unless reading the path failed. */
  predicate Covers(run: Run, p: Path) {
    match run
    case FullRun(_, f) => !f.listThrows
    case ScopedRun(targets, loads, f) => !f.listThrows && p in targets && !LoadAt(loads, p).LoadError?
  }

  /** What a row can be after a run, whatever failed: as it was; with the hash of the file, and its chunks or the old
      ones; or marked as deleted where no file was found, with the old chunks or none. */
  predicate Possible(was: Option<Row>, now: Option<Row>, found: Option<string>, cfg: ChunkConfig) {
    || now == was
    || (found.Some? && now.Some? && now.value.hash == Sha256(found.value) && !now.value.deleted
        && (now.value.chunks == ChunksIn(was)
            || now.value.chunks == Chunker.ChunksOf(found.value, cfg.size, cfg.overlap)))
    || (found.None? && Active(was) && now.Some? && now.value.hash == was.value.hash && now.value.deleted
        && (now.value.chunks == was.value.chunks || now.value.chunks == []))
  }

  /** Whatever fails in a run, nothing else becomes of a row; and one that the run does not cover stays. */
  lemma RowsChangeOnlySo(rows: Rows, rows': Rows, run: Run, cfg: ChunkConfig, p: Path)
    requires Ran(rows, rows', run, cfg)
    ensures Possible(RowAt(rows, p), RowAt(rows', p), FoundBy(run, p), cfg)
    ensures !Covers(run, p) ==> RowAt(rows', p) == RowAt(rows, p)
  {
    RowAfter(rows, rows', run, cfg, p);
  }

  lemma RowAfter(rows: Rows, rows': Rows, run: Run, cfg: ChunkConfig, p: Path)
    requires Ran(rows, rows', run, cfg)
    ensures var (was, now, found, f) := (RowAt(rows, p), RowAt(rows', p), FoundBy(run, p), run.faults);
            if !Covers(run, p) then now == was
            else if found.Some? then now == Persisted(was, found.value, WriteFaultAt(f, p), cfg)
            else now == Dropped(was, f.delete)
  {
    match run {
      case FullRun(scan, f) => assert RowAt(rows', p) == FullRow(RowAt(rows, p), p, scan, f, cfg);
      case ScopedRun(targets, loads, f) =>
        assert RowAt(rows', p) == ScopedRow(RowAt(rows, p), p, targets, loads, f, cfg);
    }
  }

  /** A failure at one file is no harm to another: where the writes of p go through, p is exact after the run, unless
      its row was stale; and where the deletion goes through, p is gone. */
  lemma FailuresStayLocal(rows: Rows, rows': Rows, run: Run, cfg: ChunkConfig, p: Path)
    requires Ran(rows, rows', run, cfg) && Covers(run, p)
    ensures var (was, now, found) := (RowAt(rows, p), RowAt(rows', p), FoundBy(run, p));
            && (found.Some? && WriteFaultAt(run.faults, p).NoWriteFault? ==>
                  (now == Some(ExactRow(found.value, cfg)) <==> !Stale(was, found.value, cfg)))
            && (found.None? && run.faults.delete.NoDeleteFault? ==>
                  !Active(now) && (Active(was) ==> now.value.chunks == []))
  {
    RowAfter(rows, rows', run, cfg, p);
  }

  // ---- chunks left under a deleted file --------------------------------------------------------

  predicate Deleted(row: Option<Row>) { row.Some? && row.value.deleted }

  /** The row of a deleted file keeps its chunks through every later run, until one finds a file at its path
      again: neither kind of run looks for chunks to remove under a row that is deleted already. */
  lemma {:induction false} LeftoversStay(states: seq<Rows>, runs: seq<Run>, cfg: ChunkConfig, p: Path)
    requires |states| == |runs| + 1 && Deleted(RowAt(states[0], p))
    requires forall i | 0 <= i < |runs| :: Ran(states[i], states[i + 1], runs[i], cfg) && !Finds(runs[i], p)
    ensures RowAt(states[|runs|], p) == RowAt(states[0], p)
  {
    if runs != [] {
      assert Ran(states[0], states[0 + 1], runs[0], cfg) && !Finds(runs[0], p);
      DeletedRowStays(states[0], states[1], runs[0], cfg, p);
      LeftoversStay(states[1..], runs[1..], cfg, p);
    }
  }

  lemma DeletedRowStays(rows: Rows, rows': Rows, run: Run, cfg: ChunkConfig, p: Path)
    requires Ran(rows, rows', run, cfg) && Deleted(RowAt(rows, p)) && !Finds(run, p)
    ensures RowAt(rows', p) == RowAt(rows, p)
  {
    match run {
      case FullRun(scan, f) => assert RowAt(rows', p) == FullRow(RowAt(rows, p), p, scan, f, cfg);
      case ScopedRun(targets, loads, f) =>
        assert RowAt(rows', p) == ScopedRow(RowAt(rows, p), p, targets, loads, f, cfg);
    }
  }
}
