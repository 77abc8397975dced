/** Scoring and ranking the files and chunks a retrieval query found. */
module Ranking {
  import opened Prelude
  import opened Occurrences
  import opened Sorting

  datatype FileHit = FileHit(id: Id, path: string, coarseScore: int, pathHits: nat, filenameHits: nat)
  datatype ChunkHit = ChunkHit(
    fileId: Id, path: string, index: int, content: string, hash: string, coarseScore: int, pathHits: nat,
    filenameHits: nat, contentHits: nat)
  datatype Query = Query(tokens: seq<string>, hasPathHints: bool)

  datatype Scored = Scored(chunk: ChunkHit, score: int)
  datatype Ranked = Ranked(id: Id, path: string, score: int, chunks: seq<Scored>)

  function Min(a: int, b: int): int { if a < b then a else b }
  function Max(a: int, b: int): int { if a < b then b else a }

  // ---- scores --------------------------------------------------------------------------------

  function FileScore(file: FileHit, q: Query): int {
    file.coarseScore
    + (if file.pathHits > 1 then Min(24, file.pathHits * 4) else 0)
    + (if file.filenameHits > 0 then Min(18, file.filenameHits * 6) else 0)
    - (if q.hasPathHints && file.pathHits == 0 then 6 else 0)
  }

  predicate Countable(q: Query) { forall i | 0 <= i < |q.tokens| :: q.tokens[i] != "" }

  function Matched(text: string, tokens: seq<string>): nat
    requires forall i | 0 <= i < |tokens| :: tokens[i] != ""
  {
    if tokens == [] then 0
    else Matched(text, tokens[..|tokens| - 1]) + if Count(text, tokens[|tokens| - 1], 0) > 0 then 1 else 0
  }

  function Total(text: string, tokens: seq<string>): nat
    requires forall i | 0 <= i < |tokens| :: tokens[i] != ""
  {
    if tokens == [] then 0 else Total(text, tokens[..|tokens| - 1]) + Count(text, tokens[|tokens| - 1], 0)
  }

  function ChunkScore(chunk: ChunkHit, q: Query, fileScore: int): int
    requires Countable(q)
  {
    var (matched, total) := (Matched(Lower(chunk.content), q.tokens), Total(Lower(chunk.content), q.tokens));
    Max(fileScore, chunk.coarseScore)
    + (if matched > 0 then matched * 12 + Min(24, total * 3) else 0)
    + (if chunk.contentHits > 1 then Min(20, chunk.contentHits * 4) else 0)
    + (if matched > 1 then 14 else 0) + (if total >= 3 then 10 else 0)
  }

  method ScoreChunkCandidate(chunk: ChunkHit, q: Query, fileScore: int) returns (score: int)
    requires Countable(q)
    ensures score == ChunkScore(chunk, q, fileScore)
  {
    var content := Lower(chunk.content);
    var matchedTerms, totalOccurrences := 0, 0;
    for i := 0 to |q.tokens|
      invariant matchedTerms == Matched(content, q.tokens[..i]) && totalOccurrences == Total(content, q.tokens[..i])
    {
      assert q.tokens[..i + 1][..i] == q.tokens[..i];
      var occurrences, _ := CountOccurrences(content, q.tokens[i]);
      if occurrences == 0 {
        continue;
      }
      matchedTerms := matchedTerms + 1;
      totalOccurrences := totalOccurrences + occurrences;
    }
    assert q.tokens[..|q.tokens|] == q.tokens;
    score := Max(fileScore, chunk.coarseScore);
    if matchedTerms > 0 {
      score := score + matchedTerms * 12 + Min(24, totalOccurrences * 3);
    }
    if chunk.contentHits > 1 {
      score := score + Min(20, chunk.contentHits * 4);
    }
    if matchedTerms > 1 {
      score := score + 14;
    }
    if totalOccurrences >= 3 {
      score := score + 10;
    }
  }

  // ---- the two comparisons -------------------------------------------------------------------

  predicate ChunkLe(a: Scored, b: Scored) {
    if a.score != b.score then a.score > b.score
    else if Lower(a.chunk.path) != Lower(b.chunk.path) then StringLe(Lower(a.chunk.path), Lower(b.chunk.path))
    else if a.chunk.index != b.chunk.index then a.chunk.index < b.chunk.index
    else StringLe(a.chunk.hash, b.chunk.hash)
  }

  predicate FileLe(a: Ranked, b: Ranked) {
    if a.score != b.score then a.score > b.score
    else if Lower(a.path) != Lower(b.path) then StringLe(Lower(a.path), Lower(b.path))
    else StringLe(a.id, b.id)
  }

  const COMPARE_CHUNKS: (Scored, Scored) -> bool := (a, b) => ChunkLe(a, b)
  const CHUNK_OF: Scored -> ChunkHit := (x: Scored) => x.chunk
  const SCORE_OF: Scored -> int := (x: Scored) => x.score
  const COMPARE_FILES: (Ranked, Ranked) -> bool := (a, b) => FileLe(a, b)

  lemma ChunksAreOrdered()
    ensures Ordering(COMPARE_CHUNKS)
  {
    forall a: Scored, b: Scored, c: Scored
      ensures ChunkLe(a, b) || ChunkLe(b, a)
      ensures ChunkLe(a, b) && ChunkLe(b, c) ==> ChunkLe(a, c)
    {
      StringsAreOrdered(Lower(a.chunk.path), Lower(b.chunk.path), Lower(c.chunk.path));
      StringsAreOrdered(a.chunk.hash, b.chunk.hash, c.chunk.hash);
    }
  }

  lemma FilesAreOrdered()
    ensures Ordering(COMPARE_FILES)
  {
    forall a: Ranked, b: Ranked, c: Ranked
      ensures FileLe(a, b) || FileLe(b, a)
      ensures FileLe(a, b) && FileLe(b, c) ==> FileLe(a, c)
    {
      StringsAreOrdered(Lower(a.path), Lower(b.path), Lower(c.path));
      StringsAreOrdered(a.id, b.id, c.id);
    }
  }

  /** Best score first; equal scores by path, equal paths by place in the file, equal places by hash. */
  ghost predicate ChunksInOrder(s: seq<Scored>) {
    forall i, j | 0 <= i < j < |s| ::
      && s[i].score >= s[j].score
      && (s[i].score == s[j].score ==>
            var (p, q) := (Lower(s[i].chunk.path), Lower(s[j].chunk.path));
            && StringLe(p, q)
            && (p == q ==> s[i].chunk.index <= s[j].chunk.index)
            && (p == q && s[i].chunk.index == s[j].chunk.index ==> StringLe(s[i].chunk.hash, s[j].chunk.hash)))
  }

  /** Best score first; equal scores by path, equal paths by id. */
  ghost predicate FilesInOrder(s: seq<Ranked>) {
    forall i, j | 0 <= i < j < |s| ::
      && s[i].score >= s[j].score
      && (s[i].score == s[j].score ==>
            && StringLe(Lower(s[i].path), Lower(s[j].path))
            && (Lower(s[i].path) == Lower(s[j].path) ==> StringLe(s[i].id, s[j].id)))
  }

  lemma SortedChunksAreInOrder(s: seq<Scored>)
    ensures ChunksInOrder(Sort(s, COMPARE_CHUNKS))
  {
    ChunksAreOrdered();
    SortSorts(s, COMPARE_CHUNKS);
    var r := Sort(s, COMPARE_CHUNKS);
    forall i, j | 0 <= i < j < |r| ensures ChunkLe(r[i], r[j]) {
      assert COMPARE_CHUNKS(r[i], r[j]);
    }
    SamePathsFirst();
  }

  lemma SortedFilesAreInOrder(s: seq<Ranked>)
    requires Sorted(s, COMPARE_FILES)
    ensures FilesInOrder(s)
  {
    forall i, j | 0 <= i < j < |s| ensures FileLe(s[i], s[j]) {
      assert COMPARE_FILES(s[i], s[j]);
    }
    SamePathsFirst();
  }

  lemma SamePathsFirst()
    ensures forall t: string :: StringLe(t, t)
  {
    forall t: string ensures StringLe(t, t) {
      StringsAreOrdered(t, t, t);
    }
  }

  // ---- the chunks of one file ----------------------------------------------------------------

  /** The chunks that score above zero, with their raw scores. */
  function Positive(own: seq<ChunkHit>, q: Query, fileScore: int): seq<Scored>
    requires Countable(q)
  {
    if own == [] then []
    else
      var (last, before) := (own[|own| - 1], Positive(own[..|own| - 1], q, fileScore));
      var score := ChunkScore(last, q, fileScore);
      if score > 0 then before + [Scored(last, score)] else before
  }

  /** Every chunk after the first loses four points more than the one before it. */
  function Penalized(s: seq<Scored>): (r: seq<Scored>)
    ensures |r| == |s|
  {
    seq(|s|, i requires 0 <= i < |s| => Scored(s[i].chunk, Max(0, s[i].score - i * 4)))
  }

  function RankedChunks(own: seq<ChunkHit>, q: Query, fileScore: int): seq<Scored>
    requires Countable(q)
  {
    Sort(Penalized(Sort(Positive(own, q, fileScore), COMPARE_CHUNKS)), COMPARE_CHUNKS)
  }

  function Chunks(s: seq<Scored>): seq<ChunkHit> { Images(s, CHUNK_OF) }

  /** Those of the chunks with a positive raw score. */
  function PositiveChunks(own: seq<ChunkHit>, q: Query, fileScore: int): seq<ChunkHit>
    requires Countable(q)
  {
    if own == [] then []
    else
      var (last, before) := (own[|own| - 1], PositiveChunks(own[..|own| - 1], q, fileScore));
      if ChunkScore(last, q, fileScore) > 0 then before + [last] else before
  }

  lemma {:induction false} PositiveHasPositiveChunks(own: seq<ChunkHit>, q: Query, fileScore: int)
    requires Countable(q)
    ensures Chunks(Positive(own, q, fileScore)) == PositiveChunks(own, q, fileScore)
    ensures forall x | x in Positive(own, q, fileScore) :: x.score == ChunkScore(x.chunk, q, fileScore) > 0
  {
    if own != [] {
      PositiveHasPositiveChunks(own[..|own| - 1], q, fileScore);
    }
  }

  /** Every chunk with a positive raw score appears exactly once among the ranked chunks, and no other. */
  lemma RankedChunksAreThePositiveOnes(own: seq<ChunkHit>, q: Query, fileScore: int)
    requires Countable(q)
    ensures multiset(Chunks(RankedChunks(own, q, fileScore))) == multiset(PositiveChunks(own, q, fileScore))
  {
    var first := Sort(Positive(own, q, fileScore), COMPARE_CHUNKS);
    SortKeepsImages(Positive(own, q, fileScore), COMPARE_CHUNKS, CHUNK_OF);
    SortKeepsImages(Penalized(first), COMPARE_CHUNKS, CHUNK_OF);
    assert Chunks(Penalized(first)) == Chunks(first);
    PositiveHasPositiveChunks(own, q, fileScore);
  }

  /** The number of chunks that still have points after the penalty. */
  function Scoring(s: seq<Scored>): nat {
    if s == [] then 0 else if s[0].score > 0 then 1 + Scoring(s[1..]) else 0
  }

  lemma {:induction false} ScoringCounts(s: seq<Scored>)
    requires forall i | 0 <= i < |s| :: s[i].score >= 0
    requires forall i, j | 0 <= i < j < |s| :: s[i].score >= s[j].score
    ensures Scoring(s) <= |s| && forall i | 0 <= i < |s| :: s[i].score > 0 <==> i < Scoring(s)
  {
    if s != [] && s[0].score > 0 {
      ScoringCounts(s[1..]);
      assert forall i | 1 <= i < |s| :: s[i] == s[1..][i - 1];
    }
  }

  /** The scores do not increase, and strictly decrease while positive. */
  ghost predicate DropsToZero(p: seq<Scored>) {
    && (forall i | 0 <= i < |p| :: p[i].score >= 0)
    && (forall i, j | 0 <= i < j < |p| :: p[i].score >= p[j].score && (p[i].score > 0 ==> p[i].score > p[j].score))
  }

  /** After the first sort the penalised scores do so. */
  lemma PenaltiesDropToZero(own: seq<ChunkHit>, q: Query, fileScore: int)
    requires Countable(q)
    ensures DropsToZero(Penalized(Sort(Positive(own, q, fileScore), COMPARE_CHUNKS)))
  {
    ChunksAreOrdered();
    SortSorts(Positive(own, q, fileScore), COMPARE_CHUNKS);
    PenaltiesOfSorted(Sort(Positive(own, q, fileScore), COMPARE_CHUNKS));
  }

  lemma PenaltiesOfSorted(first: seq<Scored>)
    requires Sorted(first, COMPARE_CHUNKS)
    ensures DropsToZero(Penalized(first))
  {
    forall i, j | 0 <= i < j < |first| ensures first[i].score >= first[j].score {
      assert COMPARE_CHUNKS(first[i], first[j]);
    }
  }

  /** So the second sort can move only chunks whose score has dropped to zero. */
  lemma SecondSortMovesOnlyZeros(own: seq<ChunkHit>, q: Query, fileScore: int)
    requires Countable(q)
    ensures OnlyZerosMoved(Penalized(Sort(Positive(own, q, fileScore), COMPARE_CHUNKS)),
                           RankedChunks(own, q, fileScore))
  {
    PenaltiesDropToZero(own, q, fileScore);
    ResortMovesOnlyZeros(Penalized(Sort(Positive(own, q, fileScore), COMPARE_CHUNKS)));
  }

  ghost predicate OnlyZerosMoved(p: seq<Scored>, r: seq<Scored>) {
    && |r| == |p| && Scoring(p) <= |p| && r[..Scoring(p)] == p[..Scoring(p)]
    && forall i | Scoring(p) <= i < |r| :: p[i].score == 0 && r[i].score == 0
  }

  lemma ResortMovesOnlyZeros(p: seq<Scored>)
    requires DropsToZero(p)
    ensures OnlyZerosMoved(p, Sort(p, COMPARE_CHUNKS))
  {
    var (m, r) := (Scoring(p), Sort(p, COMPARE_CHUNKS));
    ScoringCounts(p);
    SortKeepsHead(p, m, COMPARE_CHUNKS);
    forall i | m <= i < |r| ensures r[i].score == 0 {
      assert r[i] == r[m..][i - m];
      assert r[i] in p[m..];
    }
  }

  // ---- files and chunks together -------------------------------------------------------------

  function FileOfChunk(chunk: ChunkHit): FileHit {
    FileHit(chunk.fileId, chunk.path, chunk.coarseScore, chunk.pathHits, chunk.filenameHits)
  }

  function LastFile(files: seq<FileHit>, id: Id): (r: Option<FileHit>)
    ensures r.Some? ==> r.value.id == id
  {
    if files == [] then None
    else if files[|files| - 1].id == id then Some(files[|files| - 1]) else LastFile(files[..|files| - 1], id)
  }

  function ChunksFor(chunks: seq<ChunkHit>, id: Id): (r: seq<ChunkHit>)
    ensures forall c | c in r :: c.fileId == id
  {
    if chunks == [] then []
    else
      ChunksFor(chunks[..|chunks| - 1], id)
      + if chunks[|chunks| - 1].fileId == id then [chunks[|chunks| - 1]] else []
  }

  /** The file of an id: as found last among the files, or else as its first chunk names it. */
  function FileFor(files: seq<FileHit>, chunks: seq<ChunkHit>, id: Id): (r: Option<FileHit>)
    ensures r.Some? ==> r.value.id == id
  {
    if LastFile(files, id).Some? then LastFile(files, id)
    else if ChunksFor(chunks, id) != [] then Some(FileOfChunk(ChunksFor(chunks, id)[0])) else None
  }

  /** Files without points and without chunks are left out. */
  function RankOne(file: FileHit, own: seq<ChunkHit>, q: Query): Option<Ranked>
    requires Countable(q)
  {
    var (fileScore, scored) := (FileScore(file, q), RankedChunks(own, q, FileScore(file, q)));
    var best := if scored == [] then 0 else scored[0].score;
    if fileScore == 0 && scored == [] then None
    else Some(Ranked(file.id, file.path, Max(fileScore, best) + Min(4, |scored|) * 3, scored))
  }

  /** The file of `id` as it is ranked, if it is. */
  function RankingOf(files: seq<FileHit>, chunks: seq<ChunkHit>, q: Query, id: Id): (r: Option<Ranked>)
    requires Countable(q)
    ensures r.Some? ==> r.value.id == id
  {
    var file := FileFor(files, chunks, id);
    if file.None? then None else RankOne(file.value, ChunksFor(chunks, id), q)
  }

  function Get<T>(m: map<Id, T>, id: Id): Option<T> { if id in m then Some(m[id]) else None }

  ghost predicate KeysInOrder<T>(order: seq<Id>, m: map<Id, T>) {
    (forall id :: id in order <==> id in m) && forall i, j | 0 <= i < j < |order| :: order[i] != order[j]
  }

  method MapFiles(files: seq<FileHit>) returns (order: seq<Id>, fileMap: map<Id, FileHit>)
    ensures KeysInOrder(order, fileMap) && forall id :: Get(fileMap, id) == LastFile(files, id)
  {
    order, fileMap := [], map[];
    for i := 0 to |files|
      invariant KeysInOrder(order, fileMap) && forall id :: Get(fileMap, id) == LastFile(files[..i], id)
    {
      assert files[..i + 1][..i] == files[..i];
      order := if files[i].id in fileMap then order else order + [files[i].id];
      fileMap := fileMap[files[i].id := files[i]];
    }
    assert files[..|files|] == files;
  }

  function ChunksOf(m: map<Id, seq<ChunkHit>>, id: Id): seq<ChunkHit> { if id in m then m[id] else [] }

  lemma ChunksForNext(chunks: seq<ChunkHit>, i: nat, id: Id)
    requires i < |chunks|
    ensures ChunksFor(chunks[..i + 1], id) == ChunksFor(chunks[..i], id)
            + if chunks[i].fileId == id then [chunks[i]] else []
  {
    assert chunks[..i + 1][..i] == chunks[..i];
  }

  lemma MappedNext(was: map<Id, seq<ChunkHit>>, now: map<Id, seq<ChunkHit>>, chunks: seq<ChunkHit>, i: nat, id: Id)
    requires i < |chunks| && ChunksOf(was, id) == ChunksFor(chunks[..i], id)
    requires now == was[chunks[i].fileId := ChunksOf(was, chunks[i].fileId) + [chunks[i]]]
    ensures ChunksOf(now, id) == ChunksFor(chunks[..i + 1], id)
  {
    ChunksForNext(chunks, i, id);
  }

  method MapChunks(chunks: seq<ChunkHit>) returns (chunksById: map<Id, seq<ChunkHit>>)
    ensures forall id :: ChunksOf(chunksById, id) == ChunksFor(chunks, id)
  {
    chunksById := map[];
    for i := 0 to |chunks|
      invariant forall id :: ChunksOf(chunksById, id) == ChunksFor(chunks[..i], id)
    {
      var chunk := chunks[i];
      ghost var was := chunksById;
      chunksById := chunksById[chunk.fileId := ChunksOf(chunksById, chunk.fileId) + [chunk]];
      forall id ensures ChunksOf(chunksById, id) == ChunksFor(chunks[..i + 1], id) {
        MappedNext(was, chunksById, chunks, i, id);
      }
    }
    assert chunks[..|chunks|] == chunks;
  }

  function NextFile(known: Option<FileHit>, chunk: ChunkHit, id: Id): Option<FileHit> {
    if known.None? && chunk.fileId == id then Some(FileOfChunk(chunk)) else known
  }

  lemma FirstChunkStays(files: seq<FileHit>, chunks: seq<ChunkHit>, i: nat, id: Id)
    requires i < |chunks|
    ensures FileFor(files, chunks[..i + 1], id) == NextFile(FileFor(files, chunks[..i], id), chunks[i], id)
  {
    assert chunks[..i + 1][..i] == chunks[..i];
  }

  method AddFilesOfChunks(files: seq<FileHit>, chunks: seq<ChunkHit>, known: seq<Id>, fileHits: map<Id, FileHit>)
    returns (order: seq<Id>, fileMap: map<Id, FileHit>)
    requires KeysInOrder(known, fileHits) && forall id :: Get(fileHits, id) == LastFile(files, id)
    ensures KeysInOrder(order, fileMap) && forall id :: Get(fileMap, id) == FileFor(files, chunks, id)
  {
    order, fileMap := known, fileHits;
    for i := 0 to |chunks|
      invariant KeysInOrder(order, fileMap) && forall id :: Get(fileMap, id) == FileFor(files, chunks[..i], id)
    {
      var chunk := chunks[i];
      assert chunks[..i + 1][..i] == chunks[..i];
      ghost var was := fileMap;
      if chunk.fileId !in fileMap {
        order := order + [chunk.fileId];
        fileMap := fileMap[chunk.fileId := FileOfChunk(chunk)];
      }
      forall id ensures Get(fileMap, id) == FileFor(files, chunks[..i + 1], id) {
        assert Get(was, id) == FileFor(files, chunks[..i], id);
        FirstChunkStays(files, chunks, i, id);
      }
    }
    assert chunks[..|chunks|] == chunks;
  }

  const ID_OF: Ranked -> Id := (r: Ranked) => r.id

  /** In order, each file once and its chunks in order; and the ranked files are exactly those `RankingOf` tells. */
  method RankRetrievalCandidates(files: seq<FileHit>, chunks: seq<ChunkHit>, q: Query) returns (ranked: seq<Ranked>)
    requires Countable(q)
    ensures FilesInOrder(ranked) && Distinct(ranked, ID_OF)
    ensures forall r :: r in ranked <==> RankingOf(files, chunks, q, r.id) == Some(r)
    ensures forall r | r in ranked :: ChunksInOrder(r.chunks)
  {
    var known, fileHits := MapFiles(files);
    var order, fileMap := AddFilesOfChunks(files, chunks, known, fileHits);
    var chunksById := MapChunks(chunks);
    ranked := RankInOrder(files, chunks, q, order, fileMap, chunksById);
    SortRanked(ranked);
    ranked := Sort(ranked, COMPARE_FILES);
    SortedFilesAreInOrder(ranked);
    forall r | r in ranked ensures ChunksInOrder(r.chunks) {
      RankedChunksAreInOrder(files, chunks, q, r);
    }
  }

  lemma RankedChunksAreInOrder(files: seq<FileHit>, chunks: seq<ChunkHit>, q: Query, r: Ranked)
    requires Countable(q) && RankingOf(files, chunks, q, r.id) == Some(r)
    ensures ChunksInOrder(r.chunks)
  {
    var (own, fileScore) := (ChunksFor(chunks, r.id), FileScore(FileFor(files, chunks, r.id).value, q));
    assert r.chunks == RankedChunks(own, q, fileScore);
    SortedChunksAreInOrder(Penalized(Sort(Positive(own, q, fileScore), COMPARE_CHUNKS)));
  }

  method RankInOrder(ghost files: seq<FileHit>, ghost chunks: seq<ChunkHit>, q: Query,
                     order: seq<Id>, fileMap: map<Id, FileHit>,
                     chunksById: map<Id, seq<ChunkHit>>) returns (found: seq<Ranked>)
    requires Countable(q) && KeysInOrder(order, fileMap)
    requires forall id ::
               Get(fileMap, id) == FileFor(files, chunks, id) && ChunksOf(chunksById, id) == ChunksFor(chunks, id)
    ensures Distinct(found, ID_OF) && forall r :: r in found <==> RankingOf(files, chunks, q, r.id) == Some(r)
  {
    found := [];
    for i := 0 to |order|
      invariant forall r :: r in found <==> r.id in order[..i] && RankingOf(files, chunks, q, r.id) == Some(r)
      invariant Distinct(found, ID_OF)
    {
      var id := order[i];
      assert Get(fileMap, id) == FileFor(files, chunks, id) && ChunksOf(chunksById, id) == ChunksFor(chunks, id);
      var one := RankOne(fileMap[id], ChunksOf(chunksById, id), q);
      NextRanked(files, chunks, q, order, i, found);
      if one.Some? {
        found := found + [one.value];
      }
    }
    assert order[..|order|] == order;
  }

  lemma NextRanked(files: seq<FileHit>, chunks: seq<ChunkHit>, q: Query, order: seq<Id>, i: nat, found: seq<Ranked>)
    requires Countable(q) && i < |order| && forall j | 0 <= j < i :: order[j] != order[i]
    requires forall r :: r in found <==> r.id in order[..i] && RankingOf(files, chunks, q, r.id) == Some(r)
    requires Distinct(found, ID_OF)
    ensures var one := RankingOf(files, chunks, q, order[i]);
            var found' := if one.Some? then found + [one.value] else found;
            && Distinct(found', ID_OF)
            && forall r :: r in found' <==> r.id in order[..i + 1] && RankingOf(files, chunks, q, r.id) == Some(r)
  {
    assert order[..i + 1] == order[..i] + [order[i]];
    forall k | 0 <= k < |found| ensures found[k].id != order[i] {
      assert found[k] in found;
    }
  }

  lemma SortRanked(found: seq<Ranked>)
    requires Distinct(found, ID_OF)
    ensures var ranked := Sort(found, COMPARE_FILES);
            Sorted(ranked, COMPARE_FILES) && Distinct(ranked, ID_OF) && forall r :: r in ranked <==> r in found
  {
    FilesAreOrdered();
    SortSorts(found, COMPARE_FILES);
    SortKeepsDistinct(found, COMPARE_FILES, ID_OF);
    forall r ensures r in Sort(found, COMPARE_FILES) <==> r in found {
      SortKeepsMember(found, COMPARE_FILES, r);
    }
  }

  // ---- where every chunk goes ------------------------------------------------------------------

  lemma {:induction false} ChunksForCounts(chunks: seq<ChunkHit>, id: Id, c: ChunkHit)
    ensures multiset(ChunksFor(chunks, id))[c] == if c.fileId == id then multiset(chunks)[c] else 0
  {
    if chunks != [] {
      ChunksForCounts(chunks[..|chunks| - 1], id, c);
      assert chunks == chunks[..|chunks| - 1] + [chunks[|chunks| - 1]];
    }
  }

  lemma {:induction false} PositiveCounts(own: seq<ChunkHit>, q: Query, fileScore: int, c: ChunkHit)
    requires Countable(q)
    ensures multiset(PositiveChunks(own, q, fileScore))[c] ==
            if ChunkScore(c, q, fileScore) > 0 then multiset(own)[c] else 0
  {
    if own != [] {
      PositiveCounts(own[..|own| - 1], q, fileScore, c);
      assert own == own[..|own| - 1] + [own[|own| - 1]];
    }
  }

  /** A chunk with a positive raw score appears under its file exactly as often as it was found, the
      file is ranked, and no other chunk appears anywhere. */
  lemma EveryPositiveChunkIsRanked(files: seq<FileHit>, chunks: seq<ChunkHit>, q: Query, id: Id, c: ChunkHit)
    requires Countable(q) && FileFor(files, chunks, id).Some?
    ensures var (fileScore, r) := (FileScore(FileFor(files, chunks, id).value, q), RankingOf(files, chunks, q, id));
            var expected := if c.fileId == id && ChunkScore(c, q, fileScore) > 0 then multiset(chunks)[c] else 0;
            if r.Some? then multiset(Chunks(r.value.chunks))[c] == expected else expected == 0
  {
    var own := ChunksFor(chunks, id);
    var fileScore := FileScore(FileFor(files, chunks, id).value, q);
    ChunksForCounts(chunks, id, c);
    PositiveCounts(own, q, fileScore, c);
    RankedChunksAreThePositiveOnes(own, q, fileScore);
    assert RankingOf(files, chunks, q, id).Some? ==>
      RankingOf(files, chunks, q, id).value.chunks == RankedChunks(own, q, fileScore);
  }

  // ---- what the scores mean --------------------------------------------------------------------

  /** A file's score is its coarse score, raised by at most 42, or lowered by 6 when the query hints at paths and
      none is hit. */
  lemma FileScoreIsBounded(file: FileHit, q: Query)
    ensures file.coarseScore - 6 <= FileScore(file, q) <= file.coarseScore + 42
    ensures FileScore(file, q) < file.coarseScore <==>
              q.hasPathHints && file.pathHits == 0 && file.filenameHits == 0
  {
  }

  /** More hits never score less. */
  lemma MoreHitsScoreMore(a: FileHit, b: FileHit, q: Query)
    requires a.coarseScore <= b.coarseScore && a.pathHits <= b.pathHits && a.filenameHits <= b.filenameHits
    ensures FileScore(a, q) <= FileScore(b, q)
  {
  }

  /** Some token occurs in the chunk. */
  ghost predicate Occurs(chunk: ChunkHit, q: Query)
    requires Countable(q)
  {
    exists i | 0 <= i < |q.tokens| :: Count(Lower(chunk.content), q.tokens[i], 0) > 0
  }

  /** Some token occurs in b and not in a. */
  ghost predicate OneMore(a: string, b: string, tokens: seq<string>)
    requires forall i | 0 <= i < |tokens| :: tokens[i] != ""
  {
    exists i | 0 <= i < |tokens| :: Count(a, tokens[i], 0) == 0 && Count(b, tokens[i], 0) > 0
  }

  /** A chunk scores at least what its file and its own coarse score give it; exactly that if no token occurs in it
      and it had at most one content hit; and at least 15 points more if one does. */
  lemma ChunkScoreIsBounded(chunk: ChunkHit, q: Query, fileScore: int)
    requires Countable(q)
    ensures ChunkScore(chunk, q, fileScore) >= fileScore && ChunkScore(chunk, q, fileScore) >= chunk.coarseScore
    ensures !Occurs(chunk, q) && chunk.contentHits <= 1 ==>
              ChunkScore(chunk, q, fileScore) == fileScore || ChunkScore(chunk, q, fileScore) == chunk.coarseScore
    ensures Occurs(chunk, q) ==>
              ChunkScore(chunk, q, fileScore) >= fileScore + 15
                && ChunkScore(chunk, q, fileScore) >= chunk.coarseScore + 15
  {
    MatchedMeans(Lower(chunk.content), q.tokens);
  }

  lemma {:induction false} MatchedMeans(text: string, tokens: seq<string>)
    requires forall i | 0 <= i < |tokens| :: tokens[i] != ""
    ensures Matched(text, tokens) > 0 <==> exists i | 0 <= i < |tokens| :: Count(text, tokens[i], 0) > 0
    ensures Total(text, tokens) >= Matched(text, tokens)
    ensures Matched(text, tokens) == 0 ==> Total(text, tokens) == 0
  {
    if tokens != [] {
      MatchedMeans(text, tokens[..|tokens| - 1]);
      assert forall i | 0 <= i < |tokens| - 1 :: tokens[..|tokens| - 1][i] == tokens[i];
    }
  }

  /** Every token occurs in b at least as often as in a. */
  ghost predicate OccursMore(a: string, b: string, tokens: seq<string>)
    requires forall i | 0 <= i < |tokens| :: tokens[i] != ""
  {
    forall i | 0 <= i < |tokens| :: Count(a, tokens[i], 0) <= Count(b, tokens[i], 0)
  }

  lemma {:induction false} MoreOccurrences(a: string, b: string, tokens: seq<string>)
    requires (forall i | 0 <= i < |tokens| :: tokens[i] != "") && OccursMore(a, b, tokens)
    ensures Matched(a, tokens) <= Matched(b, tokens) && Total(a, tokens) <= Total(b, tokens)
    ensures OneMore(a, b, tokens) ==> Matched(a, tokens) < Matched(b, tokens)
  {
    if tokens != [] {
      var before := tokens[..|tokens| - 1];
      assert forall i | 0 <= i < |before| :: before[i] == tokens[i];
      MoreOccurrences(a, b, before);
    }
  }

  /** More matches never score less, and a token more scores at least 12 points more. */
  lemma MoreMatchesScoreMore(a: ChunkHit, b: ChunkHit, q: Query, fileScore: int)
    requires Countable(q) && OccursMore(Lower(a.content), Lower(b.content), q.tokens)
    requires a.coarseScore <= b.coarseScore && a.contentHits <= b.contentHits
    ensures ChunkScore(a, q, fileScore) <= ChunkScore(b, q, fileScore)
    ensures OneMore(Lower(a.content), Lower(b.content), q.tokens) ==>
              ChunkScore(a, q, fileScore) + 12 <= ChunkScore(b, q, fileScore)
  {
    MoreOccurrences(Lower(a.content), Lower(b.content), q.tokens);
  }

  /** A ranked file scores at least as its own and three points more than any of its chunks, and at most twelve
      points more than the best of these. */
  lemma CompositeScore(files: seq<FileHit>, chunks: seq<ChunkHit>, q: Query, r: Ranked)
    requires Countable(q) && RankingOf(files, chunks, q, r.id) == Some(r)
    ensures var fileScore := FileScore(FileFor(files, chunks, r.id).value, q);
            && r.score >= fileScore && (forall i | 0 <= i < |r.chunks| :: r.score >= r.chunks[i].score + 3)
            && (r.chunks != [] ==> r.score <= fileScore + 12 || r.score <= r.chunks[0].score + 12)
            && (r.chunks == [] ==> r.score == Max(fileScore, 0) && fileScore != 0)
  {
    RankedChunksAreInOrder(files, chunks, q, r);
    assert forall i | 0 < i < |r.chunks| :: r.chunks[0].score >= r.chunks[i].score;
  }

  lemma {:induction false} NonePositive(own: seq<ChunkHit>, q: Query, fileScore: int)
    requires Countable(q)
    ensures PositiveChunks(own, q, fileScore) == [] <==> forall c | c in own :: ChunkScore(c, q, fileScore) <= 0
  {
    if own != [] {
      NonePositive(own[..|own| - 1], q, fileScore);
      assert own == own[..|own| - 1] + [own[|own| - 1]];
    }
  }

  /** A file is left out exactly if it has no points of its own and none of its chunks has any. */
  lemma LeftOut(files: seq<FileHit>, chunks: seq<ChunkHit>, q: Query, id: Id)
    requires Countable(q) && FileFor(files, chunks, id).Some?
    ensures var fileScore := FileScore(FileFor(files, chunks, id).value, q);
            RankingOf(files, chunks, q, id).None? <==>
              fileScore == 0 && forall c | c in chunks && c.fileId == id :: ChunkScore(c, q, fileScore) <= 0
  {
    var (own, fileScore) := (ChunksFor(chunks, id), FileScore(FileFor(files, chunks, id).value, q));
    RankedChunksAreThePositiveOnes(own, q, fileScore);
    NonePositive(own, q, fileScore);
    forall c ensures c in own <==> c in chunks && c.fileId == id {
      ChunksForCounts(chunks, id, c);
    }
    assert |multiset(Chunks(RankedChunks(own, q, fileScore)))| == |RankedChunks(own, q, fileScore)|;
    assert |multiset(PositiveChunks(own, q, fileScore))| == |PositiveChunks(own, q, fileScore)|;
  }

  lemma RawScores(own: seq<ChunkHit>, q: Query, fileScore: int, i: nat)
    requires Countable(q) && i < |Sort(Positive(own, q, fileScore), COMPARE_CHUNKS)|
    ensures var x := Sort(Positive(own, q, fileScore), COMPARE_CHUNKS)[i]; x.score == ChunkScore(x.chunk, q, fileScore)
  {
    var first := Sort(Positive(own, q, fileScore), COMPARE_CHUNKS);
    assert first[i] in first;
    SortKeepsMember(Positive(own, q, fileScore), COMPARE_CHUNKS, first[i]);
    PositiveHasPositiveChunks(own, q, fileScore);
  }

  lemma KeptInPlace(p: seq<Scored>, r: seq<Scored>, i: nat)
    requires OnlyZerosMoved(p, r) && i < |r| && r[i].score > 0
    ensures r[i] == p[i]
  {
    assert r[..Scoring(p)][i] == p[..Scoring(p)][i];
  }

  /** A chunk that keeps points has lost four for every chunk placed before it in its file. */
  lemma PenaltyIsFourPerPlace(own: seq<ChunkHit>, q: Query, fileScore: int, i: nat)
    requires Countable(q) && i < |RankedChunks(own, q, fileScore)|
    ensures var x := RankedChunks(own, q, fileScore)[i];
            x.score > 0 ==> x.score == ChunkScore(x.chunk, q, fileScore) - 4 * i
  {
    var first := Sort(Positive(own, q, fileScore), COMPARE_CHUNKS);
    SecondSortMovesOnlyZeros(own, q, fileScore);
    RawScores(own, q, fileScore, i);
    if RankedChunks(own, q, fileScore)[i].score > 0 {
      KeptInPlace(Penalized(first), RankedChunks(own, q, fileScore), i);
    }
  }
}
