/** Counting a token in a text, left to right and without overlaps. */
module Occurrences {
  import opened Prelude

  predicate OccursAt(text: string, token: string, i: nat) {
    i + |token| <= |text| && text[i..i + |token|] == token
  }

  /** `indexOf`: the first occurrence at or after `start`. */
  method IndexOf(text: string, token: string, start: nat) returns (found: Option<nat>)
    ensures found.Some? ==> start <= found.value && OccursAt(text, token, found.value)
    ensures forall i: nat | start <= i && (found.Some? ==> i < found.value) :: !OccursAt(text, token, i)
  {
    var i := start;
    while i + |token| <= |text|
      invariant start <= i
      invariant forall j: nat | start <= j < i :: !OccursAt(text, token, j)
      decreases |text| - i
    {
      if text[i..i + |token|] == token {
        return Some(i);
      }
      i := i + 1;
    }
    found := None;
  }

  /** Places of the token from `start` on, in order, none overlapping the next. */
  ghost predicate Apart(text: string, token: string, start: nat, places: seq<nat>) {
    && (forall k | 0 <= k < |places| :: start <= places[k] && OccursAt(text, token, places[k]))
    && (forall k | 0 <= k < |places| - 1 :: places[k] + |token| <= places[k + 1])
  }

  /** The greedy count is the largest number of pairwise non-overlapping occurrences. The query parser
      only emits tokens of two characters or more; an empty token would never get the loop past a match. */
  method CountOccurrences(text: string, token: string) returns (count: nat, ghost chosen: seq<nat>)
    requires token != ""
    ensures |chosen| == count && Apart(text, token, 0, chosen)
    ensures forall places | Apart(text, token, 0, places) :: |places| <= count
    ensures count == Count(text, token, 0)
  {
    count, chosen := 0, [];
    var cursor := 0;
    while cursor < |text|
      invariant Apart(text, token, 0, chosen) && |chosen| == count
      invariant cursor == if chosen == [] then 0 else chosen[|chosen| - 1] + |token|
      invariant forall places | Apart(text, token, 0, places) :: Behind(places, count, cursor)
      decreases |text| - cursor
    {
      var found := IndexOf(text, token, cursor);
      if found.None? {
        break;
      }
      forall places | Apart(text, token, 0, places) ensures Behind(places, count + 1, found.value + |token|) {
        StaysBehind(text, token, places, count, cursor, found.value);
      }
      chosen := chosen + [found.value];
      count := count + 1;
      cursor := found.value + |token|;
    }
    forall places | Apart(text, token, 0, places) ensures |places| <= count {
      assert Behind(places, count, cursor);
    }
    CountIsLargest(text, token, 0, chosen);
    ghost var most := CountIsReached(text, token, 0);
  }

  /** Greedy stays ahead: whatever else is chosen, its place number `count` is not before the cursor. */
  ghost predicate Behind(places: seq<nat>, count: nat, cursor: nat) {
    |places| > count ==> places[count] >= cursor
  }

  lemma StaysBehind(text: string, token: string, places: seq<nat>, count: nat, cursor: nat, found: nat)
    requires Apart(text, token, 0, places) && Behind(places, count, cursor)
    requires forall i: nat | cursor <= i < found :: !OccursAt(text, token, i)
    ensures Behind(places, count + 1, found + |token|)
  {
    if |places| > count + 1 {
      assert places[count] >= found by {
        assert OccursAt(text, token, places[count]);
      }
      assert places[count] + |token| <= places[count + 1];
    }
  }

  /** The count as a function, for the scores computed from it. */
  function Count(text: string, token: string, start: nat): nat
    requires token != ""
    decreases |text| - start
  {
    if start + |token| > |text| then 0
    else if OccursAt(text, token, start) then 1 + Count(text, token, start + |token|)
    else Count(text, token, start + 1)
  }

  lemma {:induction false} CountIsLargest(text: string, token: string, start: nat, places: seq<nat>)
    requires token != "" && Apart(text, token, start, places)
    ensures |places| <= Count(text, token, start)
    decreases |text| - start
  {
    if places != [] {
      assert OccursAt(text, token, places[0]);
      if OccursAt(text, token, start) {
        CountIsLargest(text, token, start + |token|, places[1..]) by { RestIsApart(text, token, start, places); }
      } else {
        StillApart(text, token, start, places, start + 1);
        CountIsLargest(text, token, start + 1, places);
      }
    }
  }

  lemma RestIsApart(text: string, token: string, start: nat, places: seq<nat>)
    requires places != [] && Apart(text, token, start, places)
    ensures Apart(text, token, start + |token|, places[1..])
  {
    if |places| > 1 {
      assert places[1..][0] == places[1] >= places[0] + |token|;
    }
    StillApart(text, token, start, places[1..], start + |token|);
  }

  /** Places in order: if the first is far enough, all are. */
  lemma {:induction false} StillApart(text: string, token: string, start: nat, places: seq<nat>, next: nat)
    requires Apart(text, token, start, places) && (places != [] ==> places[0] >= next)
    ensures Apart(text, token, next, places)
  {
    if |places| > 1 {
      var before := places[..|places| - 1];
      StillApart(text, token, start, before, next);
      assert forall k | 0 <= k < |before| :: before[k] == places[k];
      assert places[|places| - 2] + |token| <= places[|places| - 2 + 1];
    }
  }

  lemma {:induction false} CountIsReached(text: string, token: string, start: nat) returns (places: seq<nat>)
    requires token != ""
    ensures Apart(text, token, start, places) && |places| == Count(text, token, start)
    decreases |text| - start
  {
    if start + |token| > |text| {
      places := [];
    } else if OccursAt(text, token, start) {
      var rest := CountIsReached(text, token, start + |token|);
      places := [start] + rest;
    } else {
      places := CountIsReached(text, token, start + 1);
    }
  }

  // ---- the tokens it is given ------------------------------------------------------------------

  predicate StopWord(token: string) {
    token in {"a", "al", "and", "con", "de", "del", "el", "en", "for", "in", "la", "las", "los", "of", "or", "para",
              "por", "the", "to", "un", "una", "y"}
  }

  predicate Useful(token: string) { |token| >= 2 && !StopWord(token) }

  /** A word of the query, cleaned up; where it leads if it is a path; and the words inside it. */
  datatype Part = Part(text: string, pathHint: Option<string>, fragments: seq<string>)

  function Candidate(part: Part): string { if part.pathHint.Some? then part.pathHint.value else part.text }

  predicate Separator(c: char) { c in "/.\\_-" }

  /** The pieces of a token between path and word separators; empty ones are never useful. */
  function Pieces(token: string): (r: seq<string>)
    ensures |r| > 0
  {
    if token == "" then [""]
    else
      var before := Pieces(token[..|token| - 1]);
      var c := token[|token| - 1];
      if Separator(c) then before + [""] else before[|before| - 1 := before[|before| - 1] + [c]]
  }

  function LastPiece(token: string): string { Pieces(token)[|Pieces(token)| - 1] }

  /** A stretch without separators, from one separator or the start to the next or the end. */
  predicate PieceAt(token: string, t: string, i: nat) {
    && i + |t| <= |token| && token[i..i + |t|] == t
    && (forall k | 0 <= k < |t| :: !Separator(t[k]))
    && (i == 0 || Separator(token[i - 1])) && (i + |t| == |token| || Separator(token[i + |t|]))
  }

  ghost predicate PieceOf(token: string, t: string) { exists i: nat :: PieceAt(token, t, i) }

  ghost predicate InnerPiece(token: string, t: string) { exists i: nat :: PieceAt(token, t, i) && i + |t| < |token| }

  lemma {:induction false} LastPieceEnds(token: string)
    ensures |LastPiece(token)| <= |token| && PieceAt(token, LastPiece(token), |token| - |LastPiece(token)|)
  {
    if token != "" && !Separator(token[|token| - 1]) {
      LastPieceEnds(token[..|token| - 1]);
      assert token == token[..|token| - 1] + [token[|token| - 1]];
    }
  }

  /** Only one piece ends at the end. */
  lemma OneEnds(token: string, t: string, u: string)
    requires |t| <= |u| <= |token| && PieceAt(token, t, |token| - |t|) && PieceAt(token, u, |token| - |u|)
    ensures t == u
  {
    assert forall k | 0 <= k < |u| :: token[|token| - |u| + k] == u[k];
    assert |t| == |u| by {
      if |t| < |u| {
        assert false;
      }
    }
  }

  lemma PieceSplits(token: string, t: string)
    ensures PieceOf(token, t) <==> InnerPiece(token, t) || t == LastPiece(token)
  {
    LastPieceEnds(token);
    if i: nat :| PieceAt(token, t, i) && i + |t| == |token| {
      if |t| <= |LastPiece(token)| {
        OneEnds(token, t, LastPiece(token));
      } else {
        OneEnds(token, LastPiece(token), t);
      }
    }
  }

  lemma InnerBefore(before: string, c: char, t: string)
    ensures InnerPiece(before + [c], t) <==> if Separator(c) then PieceOf(before, t) else InnerPiece(before, t)
  {
    var token := before + [c];
    if i: nat :| PieceAt(token, t, i) && i + |t| < |token| {
      assert PieceAt(before, t, i);
    }
    if i: nat :| PieceAt(before, t, i) && (Separator(c) || i + |t| < |before|) {
      assert PieceAt(token, t, i);
    }
  }

  lemma {:induction false} InnerPieces(token: string, t: string)
    ensures t in Pieces(token)[..|Pieces(token)| - 1] <==> InnerPiece(token, t)
  {
    if token != "" {
      var (before, c) := (token[..|token| - 1], token[|token| - 1]);
      assert token == before + [c];
      InnerPieces(before, t);
      InnerBefore(before, c, t);
      PieceSplits(before, t);
      assert Pieces(before) == Pieces(before)[..|Pieces(before)| - 1] + [LastPiece(before)];
    }
  }

  /** The pieces are exactly these stretches. */
  lemma PiecesMean(token: string, t: string)
    ensures t in Pieces(token) <==> PieceOf(token, t)
  {
    InnerPieces(token, t);
    PieceSplits(token, t);
    assert Pieces(token) == Pieces(token)[..|Pieces(token)| - 1] + [LastPiece(token)];
  }

  predicate FromPart(part: Part, t: string) {
    part.text != "" && Useful(t)
      && ((('/' in part.text || '.' in part.text) && t == Candidate(part)) || t in part.fragments)
  }

  ghost predicate Emitted(parts: seq<Part>, t: string) {
    exists part, u | part in parts :: FromPart(part, u) && (t == u || (Useful(t) && PieceOf(u, t)))
  }

  method ParseTokens(parts: seq<Part>) returns (tokens: seq<string>)
    ensures forall t :: t in tokens <==> Emitted(parts, t)
    ensures forall t | t in tokens :: |t| >= 2 && !StopWord(t)
    ensures forall i, j | 0 <= i < j < |tokens| :: tokens[i] != tokens[j]
  {
    var found: seq<string> := [];
    for i := 0 to |parts|
      invariant forall t :: t in found <==> exists part | part in parts[..i] :: FromPart(part, t)
    {
      assert parts[..i + 1] == parts[..i] + [parts[i]];
      var part := parts[i];
      if part.text == "" {
        continue;
      }
      ghost var earlier := found;
      if ('/' in part.text || '.' in part.text) && Useful(Candidate(part)) {
        found := found + [Candidate(part)];
      }
      ghost var withPath := found;
      for j := 0 to |part.fragments|
        invariant forall t :: t in found <==> t in withPath || (Useful(t) && t in part.fragments[..j])
      {
        if Useful(part.fragments[j]) {
          found := found + [part.fragments[j]];
        }
      }
      assert part.fragments[..|part.fragments|] == part.fragments;
      assert forall t :: t in found <==> t in earlier || FromPart(part, t);
    }
    assert parts[..|parts|] == parts;
    tokens := Expanded(found);
    forall t, u ensures t in Pieces(u) <==> PieceOf(u, t) {
      PiecesMean(u, t);
    }
  }

  method Expanded(found: seq<string>) returns (tokens: seq<string>)
    ensures forall t :: t in tokens <==> t in found || exists u | u in found :: Useful(t) && t in Pieces(u)
    ensures forall i, j | 0 <= i < j < |tokens| :: tokens[i] != tokens[j]
  {
    var expanded := found;
    for i := 0 to |found|
      invariant forall t :: t in expanded <==> t in found || exists u | u in found[..i] :: Useful(t) && t in Pieces(u)
    {
      assert found[..i + 1] == found[..i] + [found[i]];
      var pieces := Pieces(found[i]);
      ghost var earlier := expanded;
      for j := 0 to |pieces|
        invariant forall t :: t in expanded <==> t in earlier || (Useful(t) && t in pieces[..j])
      {
        if Useful(pieces[j]) {
          expanded := expanded + [pieces[j]];
        }
      }
      assert pieces[..|pieces|] == pieces;
      assert found[i] in found[..i + 1];
      assert forall t :: t in expanded <==> t in earlier || (Useful(t) && t in Pieces(found[i]));
    }
    assert found[..|found|] == found;
    tokens := [];
    for i := 0 to |expanded|
      invariant forall t :: t in tokens <==> t in expanded[..i]
      invariant forall j, k | 0 <= j < k < |tokens| :: tokens[j] != tokens[k]
    {
      if expanded[i] !in tokens {
        tokens := tokens + [expanded[i]];
      }
    }
    assert expanded[..|expanded|] == expanded;
  }
}
