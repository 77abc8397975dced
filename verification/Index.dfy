/** The incremental index of one project: the file and chunk tables, and the full and scoped runs. */
module Index {
  import opened Prelude
  import Chunker

  type Path = string
  type FileId = nat

  datatype FileRow = FileRow(id: FileId, hash: Digest, deleted: bool)

  /** A file as the index shows it: its row together with the chunk rows stored under its id. */
  datatype Row = Row(hash: Digest, deleted: bool, chunks: seq<Chunker.Chunk>)

  type Rows = map<Path, Row>

  datatype Config = Config(size: nat, overlap: nat)
  type ChunkConfig = c: Config | c.size >= 1 witness Config(1, 0)

  function RowAt(rows: Rows, p: Path): Option<Row> { if p in rows then Some(rows[p]) else None }

  /** Everything the scanner accepts, in scan order, and how many files or directories it could not read. */
  datatype Scan = Scan(order: seq<Path>, content: map<Path, string>, errors: nat)

  predicate Distinct(paths: seq<Path>) { forall i, j | 0 <= i < j < |paths| :: paths[i] != paths[j] }

  ghost predicate IsScan(scan: Scan) {
    Distinct(scan.order) && forall p :: p in scan.order <==> p in scan.content
  }

  /** What reading a single path gives. */
  datatype Load = Missing | Skipped | LoadError | Loaded(content: string)

  /** How a statement can fail: `...Throws` leaves the table alone, `...Lost` throws after it committed. */
  datatype WriteFault = NoWriteFault | UpsertThrows | UpsertLost | ChunksThrow | ChunksLost
  datatype DeleteFault = NoDeleteFault | MarkThrows | MarkLost | DropThrows | DropLost
  datatype Faults = Faults(listThrows: bool, write: map<Path, WriteFault>, delete: DeleteFault)

  function WriteFaultAt(f: Faults, p: Path): WriteFault { if p in f.write then f.write[p] else NoWriteFault }

  // ---- what a run makes of one path ----------------------------------------------------------

  /** A file that is new, was deleted or has another hash gets its chunks written again. */
  predicate Rewrites(row: Option<Row>, content: string) {
    row.None? || row.value.deleted || row.value.hash != Sha256(content)
  }

  function ChunksIn(row: Option<Row>): seq<Chunker.Chunk> { if row.Some? then row.value.chunks else [] }

  function Persisted(row: Option<Row>, content: string, f: WriteFault, cfg: ChunkConfig): Option<Row> {
    if f.UpsertThrows? then row
    else if Rewrites(row, content) && (f.NoWriteFault? || f.ChunksLost?)
    then Some(Row(Sha256(content), false, Chunker.ChunksOf(content, cfg.size, cfg.overlap)))
    else Some(Row(Sha256(content), false, ChunksIn(row)))
  }

  /** The exception `persistCandidate` catches and counts. */
  predicate PersistFails(row: Option<Row>, content: string, f: WriteFault) {
    f.UpsertThrows? || f.UpsertLost? || (Rewrites(row, content) && !f.NoWriteFault?)
  }

  predicate Active(row: Option<Row>) { row.Some? && !row.value.deleted }

  function Dropped(row: Option<Row>, f: DeleteFault): Option<Row> {
    if !Active(row) || f.MarkThrows? then row
    else Some(row.value.(deleted := true, chunks := if f.MarkLost? || f.DropThrows? then row.value.chunks else []))
  }

  // ---- the two runs --------------------------------------------------------------------------

  /** What the run of the whole workspace makes of the row of path p. */
  function FullRow(row: Option<Row>, p: Path, scan: Scan, f: Faults, cfg: ChunkConfig): Option<Row> {
    if f.listThrows then row
    else if p in scan.content then Persisted(row, scan.content[p], WriteFaultAt(f, p), cfg)
    else Dropped(row, f.delete)
  }

  /** What the run of the paths `targets` makes of it. */
  function ScopedRow(row: Option<Row>, p: Path, targets: seq<Path>, loads: map<Path, Load>, f: Faults,
                     cfg: ChunkConfig): Option<Row> {
    if f.listThrows || p !in targets then row
    else match LoadAt(loads, p)
      case LoadError => row
      case Loaded(content) => Persisted(row, content, WriteFaultAt(f, p), cfg)
      case _ => Dropped(row, f.delete)
  }

  function LoadAt(loads: map<Path, Load>, p: Path): Load { if p in loads then loads[p] else Missing }

  predicate Gone(loads: map<Path, Load>, p: Path) { LoadAt(loads, p).Missing? || LoadAt(loads, p).Skipped? }

  /** Either run stops with an exception when the listing or a deletion fails. */
  ghost predicate FullThrows(rows: Rows, scan: Scan, f: Faults) {
    f.listThrows || (!f.delete.NoDeleteFault? && exists p :: Active(RowAt(rows, p)) && p !in scan.content)
  }

  ghost predicate ScopedThrows(rows: Rows, targets: seq<Path>, loads: map<Path, Load>, f: Faults) {
    targets != []
      && (f.listThrows
        || (!f.delete.NoDeleteFault? && exists p :: Active(RowAt(rows, p)) && p in targets && Gone(loads, p)))
  }

  /** What a run counts as an error at path p. */
  predicate FullFails(row: Option<Row>, p: Path, scan: Scan, f: Faults) {
    p in scan.content && PersistFails(row, scan.content[p], WriteFaultAt(f, p))
  }

  predicate ScopedFails(row: Option<Row>, p: Path, loads: map<Path, Load>, f: Faults) {
    LoadAt(loads, p).LoadError?
      || (LoadAt(loads, p).Loaded? && PersistFails(row, LoadAt(loads, p).content, WriteFaultAt(f, p)))
  }

  ghost predicate FullRan(rows: Rows, rows': Rows, scan: Scan, f: Faults, cfg: ChunkConfig) {
    forall p :: RowAt(rows', p) == FullRow(RowAt(rows, p), p, scan, f, cfg)
  }

  ghost predicate ScopedRan(rows: Rows, rows': Rows, targets: seq<Path>, loads: map<Path, Load>, f: Faults,
                            cfg: ChunkConfig) {
    forall p :: RowAt(rows', p) == ScopedRow(RowAt(rows, p), p, targets, loads, f, cfg)
  }

  lemma FullIsScanThenDelete(was: Rows, mid: Rows, end: Rows, scan: Scan, f: Faults, cfg: ChunkConfig,
                             deleted: seq<Path>)
    requires !f.listThrows
    requires forall p ::
               RowAt(mid, p) == if p in scan.content then FullRow(RowAt(was, p), p, scan, f, cfg) else RowAt(was, p)
    requires forall p :: RowAt(end, p) == if p in deleted then Dropped(RowAt(mid, p), f.delete) else RowAt(mid, p)
    requires forall p :: p in deleted <==> Active(RowAt(was, p)) && p !in scan.content
    ensures FullRan(was, end, scan, f, cfg)
    ensures deleted == [] || f.delete.NoDeleteFault? <==> !FullThrows(was, scan, f)
  {
    if deleted != [] {
      assert deleted[0] in deleted;
    }
  }

  lemma ScopedIsLoadThenDelete(was: Rows, mid: Rows, end: Rows, targets: seq<Path>, loads: map<Path, Load>, f: Faults,
                               cfg: ChunkConfig, deleted: seq<Path>)
    requires targets != [] && !f.listThrows
    requires forall p ::
               RowAt(mid, p) ==
                 if p in targets && LoadAt(loads, p).Loaded? then ScopedRow(RowAt(was, p), p, targets, loads, f, cfg)
                 else RowAt(was, p)
    requires forall p :: RowAt(end, p) == if p in deleted then Dropped(RowAt(mid, p), f.delete) else RowAt(mid, p)
    requires forall p :: p in deleted <==> p in targets && Active(RowAt(was, p)) && Gone(loads, p)
    ensures ScopedRan(was, end, targets, loads, f, cfg)
    ensures deleted == [] || f.delete.NoDeleteFault? <==> !ScopedThrows(was, targets, loads, f)
  {
    if deleted != [] {
      assert deleted[0] in deleted;
    }
  }

  // ---- the tables and the runs over them -------------------------------------------------------

  /** `uniqueSortedPaths`, but for the order, which follows the locale. */
  method UniquePaths(paths: seq<Path>) returns (r: seq<Path>)
    ensures Distinct(r) && (forall p :: p in r <==> p in paths) && (r == [] <==> paths == [])
  {
    r := [];
    for i := 0 to |paths|
      invariant Distinct(r) && (forall p :: p in r <==> p in paths[..i]) && (r == [] <==> i == 0)
    {
      if paths[i] !in r {
        r := r + [paths[i]];
      }
    }
    assert paths[..|paths|] == paths;
  }

  /** A listed row still says what the table says. */
  predicate ListedAs(listed: Option<FileRow>, row: Option<Row>) {
    listed.Some? == row.Some?
      && (listed.Some? ==> listed.value.hash == row.value.hash && listed.value.deleted == row.value.deleted)
  }

  function FileAt(files: map<Path, FileRow>, p: Path): Option<FileRow> { if p in files then Some(files[p]) else None }

  class WorkspaceIndex {
    var files: map<Path, FileRow>
    var chunks: map<FileId, seq<Chunker.Chunk>>
    var nextId: FileId
    const cfg: ChunkConfig

    /** Ids are never reused. */
    ghost predicate Valid()
      reads this
    {
      && (forall p | p in files :: files[p].id < nextId)
      && (forall p, q | p in files && q in files && p != q :: files[p].id != files[q].id)
      && (forall id | id in chunks :: id < nextId)
    }

    function ChunkRows(id: FileId): seq<Chunker.Chunk>
      reads this
    {
      if id in chunks then chunks[id] else []
    }

    function RowOf(p: Path): Option<Row>
      reads this
    {
      if p in files then Some(Row(files[p].hash, files[p].deleted, ChunkRows(files[p].id))) else None
    }

    /** The index as its readers see it. */
    ghost function Rows(): (rows: Rows)
      reads this
      ensures forall p :: RowAt(rows, p) == RowOf(p)
    {
      map p | p in files :: RowOf(p).value
    }

    constructor (cfg: ChunkConfig)
      ensures Valid() && Rows() == map[] && this.cfg == cfg
    {
      files, chunks, nextId := map[], map[], 0;
      this.cfg := cfg;
    }

    method UpsertIndexedFile(p: Path, hash: Digest) returns (id: FileId)
      requires Valid()
      modifies this
      ensures Valid() && p in files && files[p].id == id && (p in old(files) ==> id == old(files)[p].id)
      ensures RowOf(p) == Some(Row(hash, false, ChunksIn(old(RowOf(p)))))
      ensures forall q | q != p :: RowOf(q) == old(RowOf(q))
    {
      if p in files {
        id := files[p].id;
      } else {
        id := nextId;
        nextId := nextId + 1;
      }
      files := files[p := FileRow(id, hash, false)];
    }

    /** p is the path of the file. */
    method ReplaceFileChunks(id: FileId, rows: seq<Chunker.Chunk>, ghost p: Path)
      requires Valid() && p in files && files[p].id == id
      modifies this
      ensures Valid() && RowOf(p) == Some(old(RowOf(p)).value.(chunks := rows))
      ensures forall q | q != p :: RowOf(q) == old(RowOf(q))
    {
      chunks := chunks[id := rows];
    }

    /** Marks the active ones among `paths` and returns their ids. */
    method MarkFilesDeleted(paths: seq<Path>) returns (ids: set<FileId>)
      requires Valid()
      modifies this
      ensures Valid() && chunks == old(chunks) && files.Keys == old(files.Keys)
      ensures ids == set p | p in paths && p in old(files) && !old(files)[p].deleted :: old(files)[p].id
      ensures forall p | p in files :: files[p] == old(files)[p].(deleted := old(files)[p].deleted || p in paths)
      ensures ids == {} <==> forall p | p in paths :: !Active(old(RowOf(p)))
    {
      ids := set p | p in paths && p in files && !files[p].deleted :: files[p].id;
      files := map p | p in files :: files[p].(deleted := files[p].deleted || p in paths);
      assert forall p | p in paths && Active(old(RowOf(p))) :: old(files)[p].id in ids;
    }

    method DeleteChunksByFileIds(ids: set<FileId>)
      requires Valid()
      modifies this
      ensures Valid() && files == old(files) && chunks == old(chunks) - ids
    {
      chunks := chunks - ids;
    }

    /** Writes one file: the row first, then its chunks if they may have changed. `existing` is the row
        as it was listed when the run began. */
    method PersistCandidate(p: Path, content: string, existing: Option<FileRow>, f: WriteFault)
      returns (errorCount: nat)
      requires Valid() && ListedAs(existing, RowOf(p))
      modifies this
      ensures Valid() && forall q | q != p :: RowOf(q) == old(RowOf(q))
      ensures RowOf(p) == Persisted(old(RowOf(p)), content, f, cfg)
      ensures errorCount == if PersistFails(old(RowOf(p)), content, f) then 1 else 0
    {
      var shouldRewriteChunks := existing.None? || existing.value.deleted || existing.value.hash != Sha256(content);
      errorCount := 0;
      if f.UpsertThrows? {
        errorCount := 1;
        return;
      }
      var id := UpsertIndexedFile(p, Sha256(content));
      if f.UpsertLost? {
        errorCount := 1;
      } else if shouldRewriteChunks {
        if f.ChunksThrow? {
          errorCount := 1;
        } else {
          var rows := Chunker.ChunkContent(content, cfg.size, cfg.overlap);
          ReplaceFileChunks(id, rows, p);
          errorCount := if f.ChunksLost? then 1 else 0;
        }
      }
    }

    /** Marks the active files as deleted, then removes their chunks, if there were any such files. */
    method SoftDeletePaths(paths: seq<Path>, f: DeleteFault) returns (ok: bool)
      requires Valid()
      modifies this
      ensures Valid() && forall p :: RowOf(p) == if p in paths then Dropped(old(RowOf(p)), f) else old(RowOf(p))
      ensures ok <==>
                paths == [] || f.NoDeleteFault?
                  || (!f.MarkThrows? && !f.MarkLost? && forall p | p in paths :: !Active(old(RowOf(p))))
    {
      var unique := UniquePaths(paths);
      if |unique| == 0 {
        ok := true;
        return;
      }
      ok := false;
      if f.MarkThrows? {
        return;
      }
      var ids := MarkFilesDeleted(unique);
      if f.MarkLost? {
        return;
      }
      if ids == {} {
        ok := true;
        return;
      }
      if f.DropThrows? {
        return;
      }
      DeleteChunksByFileIds(ids);
      ok := !f.DropLost?;
    }

    /** The loop over the scanned files. */
    method PersistScanned(scan: Scan, listed: map<Path, FileRow>, f: Faults) returns (errors: nat)
      requires Valid() && IsScan(scan) && !f.listThrows && forall p :: ListedAs(FileAt(listed, p), RowOf(p))
      modifies this
      ensures Valid() && forall p ::
                RowOf(p) == if p in scan.content then FullRow(old(RowOf(p)), p, scan, f, cfg) else old(RowOf(p))
      ensures errors == 0 <==> scan.errors == 0 && forall p :: !FullFails(old(RowOf(p)), p, scan, f)
    {
      errors := scan.errors;
      for i := 0 to |scan.order|
        invariant Valid()
        invariant forall p ::
                    RowOf(p) ==
                      if p in scan.order[..i] then FullRow(old(RowOf(p)), p, scan, f, cfg) else old(RowOf(p))
        invariant errors == 0 <==>
                    scan.errors == 0 && forall p | p in scan.order[..i] :: !FullFails(old(RowOf(p)), p, scan, f)
      {
        var path := scan.order[i];
        var existing := FileAt(listed, path);
        assert ListedAs(existing, old(RowOf(path)));
        var errorCount := PersistCandidate(path, scan.content[path], existing, WriteFaultAt(f, path));
        errors := errors + errorCount;
      }
      assert scan.order[..|scan.order|] == scan.order;
    }

    /** The run over the whole workspace. */
    method RunIndex(scan: Scan, f: Faults) returns (ok: bool, errors: nat)
      requires Valid() && IsScan(scan)
      modifies this
      ensures Valid() && FullRan(old(Rows()), Rows(), scan, f, cfg)
      ensures ok <==> !FullThrows(old(Rows()), scan, f)
      ensures ok ==> (errors == 0 <==> scan.errors == 0 && forall p :: !FullFails(RowAt(old(Rows()), p), p, scan, f))
    {
      ok, errors := false, scan.errors;
      if f.listThrows {
        return;
      }
      var listed := files;
      ghost var was := Rows();
      errors := PersistScanned(scan, listed, f);
      ghost var mid := Rows();
      var deletedPaths := Listed(set p | p in listed && !listed[p].deleted && p !in scan.content);
      assert forall p :: p in deletedPaths <==> Active(RowAt(was, p)) && p !in scan.content;
      ok := SoftDeletePaths(deletedPaths, f.delete);
      FullIsScanThenDelete(was, mid, Rows(), scan, f, cfg, deletedPaths);
    }

    /** The run over given paths. */
    method RunIndexByPaths(paths: seq<Path>, loads: map<Path, Load>, f: Faults) returns (ok: bool, errors: nat)
      requires Valid()
      modifies this
      ensures Valid() && ScopedRan(old(Rows()), Rows(), paths, loads, f, cfg)
      ensures ok <==> !ScopedThrows(old(Rows()), paths, loads, f)
      ensures ok ==> (errors == 0 <==> forall p | p in paths :: !ScopedFails(RowAt(old(Rows()), p), p, loads, f))
    {
      var targetPaths := UniquePaths(paths);
      ok, errors := false, 0;
      if |targetPaths| == 0 {
        ok := true;
        return;
      }
      if f.listThrows {
        return;
      }
      ghost var was := Rows();
      var toSoftDelete;
      errors, toSoftDelete := PersistTargets(targetPaths, loads, files, f);
      ghost var mid := Rows();
      ok := SoftDeletePaths(toSoftDelete, f.delete);
      ScopedIsLoadThenDelete(was, mid, Rows(), paths, loads, f, cfg, toSoftDelete);
    }

    /** The loop over the target paths. */
    method PersistTargets(targets: seq<Path>, loads: map<Path, Load>, listed: map<Path, FileRow>, f: Faults)
      returns (errors: nat, toSoftDelete: seq<Path>)
      requires Valid() && Distinct(targets) && !f.listThrows && forall p :: ListedAs(FileAt(listed, p), RowOf(p))
      modifies this
      ensures Valid()
      ensures forall p ::
                RowOf(p) ==
                  if p in targets && LoadAt(loads, p).Loaded? then ScopedRow(old(RowOf(p)), p, targets, loads, f, cfg)
                  else old(RowOf(p))
      ensures errors == 0 <==> forall p | p in targets :: !ScopedFails(old(RowOf(p)), p, loads, f)
      ensures forall p :: p in toSoftDelete <==> p in targets && Active(old(RowOf(p))) && Gone(loads, p)
    {
      errors, toSoftDelete := 0, [];
      for i := 0 to |targets|
        invariant Valid()
        invariant forall p ::
                    RowOf(p) == if p in targets[..i] && LoadAt(loads, p).Loaded?
                      then ScopedRow(old(RowOf(p)), p, targets, loads, f, cfg) else old(RowOf(p))
        invariant errors == 0 <==> forall p | p in targets[..i] :: !ScopedFails(old(RowOf(p)), p, loads, f)
        invariant forall p :: p in toSoftDelete <==> p in targets[..i] && Active(old(RowOf(p))) && Gone(loads, p)
      {
        var path := targets[i];
        var existing := FileAt(listed, path);
        assert ListedAs(existing, old(RowOf(path)));
        match LoadAt(loads, path) {
          case LoadError =>
            errors := errors + 1;
          case Loaded(content) =>
            var errorCount := PersistCandidate(path, content, existing, WriteFaultAt(f, path));
            errors := errors + errorCount;
          case _ =>
            if existing.Some? && !existing.value.deleted {
              toSoftDelete := toSoftDelete + [path];
            }
        }
      }
      assert targets[..|targets|] == targets;
    }
  }

  /** The elements of a set, in some order. */
  method Listed(paths: set<Path>) returns (r: seq<Path>)
    ensures (forall p :: p in r <==> p in paths) && (r == [] <==> paths == {})
  {
    r := [];
    var rest := paths;
    while rest != {}
      invariant (forall p :: p in paths <==> p in r || p in rest) && (r == [] <==> rest == paths)
      decreases rest
    {
      var p :| p in rest;
      r, rest := r + [p], rest - {p};
    }
  }
}
