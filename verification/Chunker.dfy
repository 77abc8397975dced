/** Splitting a file into overlapping chunks. */
module Chunker {
  import opened Prelude

  datatype Chunk = Chunk(index: nat, content: string, hash: Digest)

  /** What `String.prototype.trim` removes: white space and line terminators. */
  predicate IsSpace(c: char) {
    c in "\t\n\r "
      || c in ['\U{000B}', '\U{000C}', '\U{00A0}', '\U{1680}', '\U{2028}', '\U{2029}', '\U{202F}', '\U{205F}',
               '\U{3000}', '\U{FEFF}']
    || '\U{2000}' <= c <= '\U{200A}'
  }

  predicate Blank(content: string) { forall i | 0 <= i < |content| :: IsSpace(content[i]) }

  function Min(a: int, b: int): int { if a < b then a else b }
  function Max(a: int, b: int): int { if a < b then b else a }

  function Step(size: nat, overlap: nat): nat { Max(1, size - overlap) }

  /** Where chunk k starts: k steps in. */
  function StartOf(k: nat, step: nat): nat { if k == 0 then 0 else StartOf(k - 1, step) + step }

  lemma {:induction false} StartIsMultiple(k: nat, step: nat)
    ensures StartOf(k, step) == k * step
  {
    if k > 0 {
      StartIsMultiple(k - 1, step);
      assert k * step == (k - 1) * step + step;
    }
  }

  /** Chunk k of the content: `size` characters from its start, or what is left. */
  ghost predicate ChunkAt(chunk: Chunk, content: string, size: nat, step: nat, k: nat) {
    var start := StartOf(k, step);
    start < |content| && chunk == Chunk(k, content[start..Min(|content|, start + size)], Sha256(chunk.content))
  }

  /** All the chunks of a content, at once: what `ChunkContent` computes one by one. */
  function ChunksOf(content: string, size: nat, overlap: nat): seq<Chunk> {
    if Blank(content) then []
    else seq(ChunkCount(|content|, size, Step(size, overlap)),
             k requires k >= 0 => Piece(content, size, Step(size, overlap), k))
  }

  function Piece(content: string, size: nat, step: nat, k: nat): Chunk {
    var start := Min(|content|, StartOf(k, step));
    var piece := content[start..Min(|content|, start + size)];
    Chunk(k, piece, Sha256(piece))
  }

  method ChunkContent(content: string, size: nat, overlap: nat) returns (chunks: seq<Chunk>)
    requires size >= 1
    ensures Blank(content) <==> chunks == []
    ensures forall k | 0 <= k < |chunks| :: ChunkAt(chunks[k], content, size, Step(size, overlap), k)
    ensures !Blank(content) ==> |chunks| == ChunkCount(|content|, size, Step(size, overlap))
    ensures chunks == ChunksOf(content, size, overlap)
  {
    chunks := [];
    if Blank(content) {
      return;
    }
    var step := Step(size, overlap);
    var start, chunkIndex := 0, 0;
    while start < |content|
      invariant |chunks| == chunkIndex && start == StartOf(chunkIndex, step)
      invariant start < |content| && (chunkIndex > 0 ==> start - step + size < |content|)
      invariant forall k | 0 <= k < |chunks| :: ChunkAt(chunks[k], content, size, step, k)
      decreases |content| - start
    {
      var end := Min(|content|, start + size);
      var slice := content[start..end];
      chunks := chunks + [Chunk(chunkIndex, slice, Sha256(slice))];
      if end >= |content| {
        LastChunk(|content|, size, step, chunkIndex);
        break;
      }
      NextStart(|content|, size, overlap, start);
      chunkIndex := chunkIndex + 1;
      start := start + step;
    }
  }

  /** The next chunk still starts inside the content: a step is never longer than a chunk. */
  lemma NextStart(length: nat, size: nat, overlap: nat, start: nat)
    requires size >= 1 && start + size < length
    ensures start + Step(size, overlap) < length
  {
  }

  function CeilDiv(a: nat, b: nat): nat
    requires b > 0
  {
    (a + b - 1) / b
  }

  function ChunkCount(length: nat, size: nat, step: nat): nat
    requires step >= 1
  {
    if length <= size then 1 else 1 + CeilDiv(length - size, step)
  }

  /** Only the last chunk reaches the end of the content. */
  lemma LastChunk(length: nat, size: nat, step: nat, k: nat)
    requires step >= 1 && length > 0
    requires StartOf(k, step) + size >= length && (k > 0 ==> StartOf(k, step) - step + size < length)
    ensures ChunkCount(length, size, step) == k + 1
  {
    StartIsMultiple(k, step);
    if k > 0 {
      var a := length - size;
      QuotientIs(a + step - 1, step, k);
    }
  }

  lemma QuotientIs(a: nat, b: nat, q: nat)
    requires b >= 1 && q * b <= a < q * b + b
    ensures a / b == q
  {
    var (d, m) := (a / b, a % b);
    assert a == d * b + m;
    if d < q {
      TimesGrows(d + 1, q, b);
    } else if d > q {
      TimesGrows(q + 1, d, b);
    }
  }

  lemma TimesGrows(x: nat, y: nat, b: nat)
    requires x <= y
    ensures x * b <= y * b
  {
  }

  /** The first chunk, and from every later one, up to chunk n, what its predecessor did not hold. */
  function Rebuild(chunks: seq<Chunk>, overlap: nat, n: nat): string
    requires n <= |chunks|
  {
    if n == 0 then "" else Rebuild(chunks, overlap, n - 1) + Added(chunks[n - 1].content, overlap, n)
  }

  function Added(piece: string, overlap: nat, n: nat): string {
    if n == 1 then piece else piece[Min(overlap, |piece|)..]
  }

  /** No character is lost or repeated: dropping `size - step` characters from every later chunk gives
      back the content, and each of them has more characters than that. */
  lemma ChunksCoverContent(content: string, size: nat, overlap: nat, chunks: seq<Chunk>)
    requires size >= 1 && !Blank(content)
    requires forall k | 0 <= k < |chunks| :: ChunkAt(chunks[k], content, size, Step(size, overlap), k)
    requires |chunks| == ChunkCount(|content|, size, Step(size, overlap))
    ensures Rebuild(chunks, size - Step(size, overlap), |chunks|) == content
    ensures forall k | 0 <= k < |chunks| :: |chunks[k].content| <= size
    ensures forall k | 0 < k < |chunks| :: |chunks[k].content| > size - Step(size, overlap)
  {
    CountReaches(|content|, size, Step(size, overlap), |chunks|);
    PiecesCoverContent(content, size, Step(size, overlap), chunks);
  }

  /** The last of n chunks reaches the end of the content, the one before it does not. */
  ghost predicate LastReaches(length: nat, size: nat, step: nat, n: nat) {
    n >= 1 && StartOf(n - 1, step) + size >= length && (n > 1 ==> StartOf(n - 2, step) + size < length)
  }

  lemma CountReaches(length: nat, size: nat, step: nat, n: nat)
    requires step >= 1 && n == ChunkCount(length, size, step)
    ensures LastReaches(length, size, step, n)
  {
    StartIsMultiple(n - 1, step);
    if length > size {
      var (a, q) := (length - size + step - 1, n - 1);
      assert a == q * step + a % step;
    }
  }

  lemma PiecesCoverContent(content: string, size: nat, step: nat, chunks: seq<Chunk>)
    requires 1 <= step <= size && LastReaches(|content|, size, step, |chunks|)
    requires forall k | 0 <= k < |chunks| :: ChunkAt(chunks[k], content, size, step, k)
    ensures Rebuild(chunks, size - step, |chunks|) == content
    ensures forall k | 0 <= k < |chunks| :: |chunks[k].content| <= size && (k > 0 ==> |chunks[k].content| > size - step)
  {
    forall k | 0 <= k < |chunks| ensures |chunks[k].content| <= size && (k > 0 ==> |chunks[k].content| > size - step) {
      PieceLength(content, size, step, chunks[k], k, |chunks|);
    }
    PrefixRebuilds(content, size, step, chunks, |chunks|);
  }

  lemma PieceLength(content: string, size: nat, step: nat, chunk: Chunk, k: nat, n: nat)
    requires 1 <= step <= size && k < n && LastReaches(|content|, size, step, n)
    requires ChunkAt(chunk, content, size, step, k)
    ensures |chunk.content| <= size && (k > 0 ==> |chunk.content| > size - step)
  {
    if k > 0 {
      NotYetAtEnd(|content|, size, step, k, n);
    }
  }

  /** A chunk that is not the first starts before the end its predecessor did not reach. */
  lemma {:induction false} NotYetAtEnd(length: nat, size: nat, step: nat, k: nat, n: nat)
    requires 0 < k < n && LastReaches(length, size, step, n)
    ensures StartOf(k - 1, step) + size < length
    decreases n - k
  {
    if k < n - 1 {
      NotYetAtEnd(length, size, step, k + 1, n);
    }
  }

  /** What the first n chunks cover. */
  function Covered(content: string, size: nat, step: nat, n: nat): string
    requires n >= 1
  {
    content[..Min(|content|, StartOf(n - 1, step) + size)]
  }

  lemma {:induction false} PrefixRebuilds(content: string, size: nat, step: nat, chunks: seq<Chunk>, n: nat)
    requires 1 <= step <= size && 1 <= n <= |chunks| && LastReaches(|content|, size, step, |chunks|)
    requires forall k | 0 <= k < |chunks| :: ChunkAt(chunks[k], content, size, step, k)
    ensures Rebuild(chunks, size - step, n) == Covered(content, size, step, n)
  {
    assert ChunkAt(chunks[n - 1], content, size, step, n - 1);
    if n == 1 {
      FirstCovers(content, size, step, chunks[0]);
    } else {
      PrefixRebuilds(content, size, step, chunks, n - 1);
      NotYetAtEnd(|content|, size, step, n - 1, |chunks|);
      ChunkJoins(content, size, step, chunks[n - 1], n);
    }
  }

  lemma FirstCovers(content: string, size: nat, step: nat, chunk: Chunk)
    requires ChunkAt(chunk, content, size, step, 0)
    ensures chunk.content == Covered(content, size, step, 1)
  {
  }

  /** A chunk continues the content from where its predecessor ended. */
  lemma ChunkJoins(content: string, size: nat, step: nat, chunk: Chunk, n: nat)
    requires 1 <= step <= size && n >= 2 && ChunkAt(chunk, content, size, step, n - 1)
    requires StartOf(n - 2, step) + size < |content|
    ensures Covered(content, size, step, n - 1) + Added(chunk.content, size - step, n)
            == Covered(content, size, step, n)
  {
    var start := StartOf(n - 1, step);
    var (from, till) := (start - step + size, Min(|content|, start + size));
    assert content[start..till][size - step..] == content[from..till];
  }
}
