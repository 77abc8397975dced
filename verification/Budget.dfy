/** The retrieval budget: which chunks of the ranked files are sent along. */
module Budget {
  import opened Prelude

  const MAX_FILES: nat := 5
  const MAX_CHUNKS: nat := 8
  const MAX_CHUNKS_PER_FILE: nat := 3
  const MAX_TOTAL_CHARS: nat := 6000

  datatype File = File(id: Id, path: string, chunks: seq<string>)
  datatype Reason = MaxFiles | MaxChunks | MaxChunksPerFile | MaxTotalChars

  /** A chunk by the position of its file among the ranked ones and its own position in the file. */
  datatype Pick = Pick(file: nat, chunk: nat)

  function Limited(files: seq<File>): seq<File> { if |files| > MAX_FILES then files[..MAX_FILES] else files }

  predicate Valid(files: seq<File>, p: Pick) { p.file < |files| && p.chunk < |files[p.file].chunks| }

  /** Round robin: the first chunks of all files, then the second ones, and so on. */
  predicate Before(p: Pick, q: Pick) { p.chunk < q.chunk || (p.chunk == q.chunk && p.file < q.file) }

  predicate InOrder(picks: seq<Pick>) { forall i, j | 0 <= i < j < |picks| :: Before(picks[i], picks[j]) }

  function ChunkAt(files: seq<File>, p: Pick): string { if Valid(files, p) then files[p.file].chunks[p.chunk] else "" }

  function Length(files: seq<File>, p: Pick): nat { |ChunkAt(files, p)| }

  function Chars(files: seq<File>, picks: seq<Pick>): nat {
    if picks == [] then 0 else Chars(files, picks[..|picks| - 1]) + Length(files, picks[|picks| - 1])
  }

  function PicksOf(picks: seq<Pick>, f: nat): nat {
    if picks == [] then 0
    else PicksOf(picks[..|picks| - 1], f) + if picks[|picks| - 1].file == f then 1 else 0
  }

  /** At its turn, after the first m picks, chunk p was passed over: its file had its share already, or
      it did not fit. */
  ghost predicate PassedOver(files: seq<File>, picks: seq<Pick>, p: Pick, m: nat) {
    && m <= |picks| && (forall i | 0 <= i < m :: Before(picks[i], p))
    && (forall i | m <= i < |picks| :: Before(p, picks[i]))
    && (PicksOf(picks[..m], p.file) == MAX_CHUNKS_PER_FILE
        || Chars(files, picks[..m]) + Length(files, p) > MAX_TOTAL_CHARS)
  }

  /** Every chunk before `end` was picked or passed over. */
  ghost predicate Settled(files: seq<File>, picks: seq<Pick>, end: Pick) {
    forall p | Valid(files, p) && Before(p, end) && p !in picks :: exists m :: PassedOver(files, picks, p, m)
  }

  ghost predicate Within(files: seq<File>, picks: seq<Pick>) {
    && (forall p | p in picks :: Valid(files, p)) && InOrder(picks)
    && |picks| <= MAX_CHUNKS && Chars(files, picks) <= MAX_TOTAL_CHARS
    && (forall f :: PicksOf(picks, f) <= MAX_CHUNKS_PER_FILE)
  }

  /** The first round after the picks. */
  function NextRound(picks: seq<Pick>): nat { if picks == [] then 0 else picks[|picks| - 1].chunk + 1 }

  /** There was a pick in every round. */
  ghost predicate EveryRound(picks: seq<Pick>) {
    && (picks != [] ==> picks[0].chunk == 0)
    && (forall i, j | 0 <= i < j < |picks| && j == i + 1 :: picks[j].chunk <= picks[i].chunk + 1)
  }

  /** The selection: it stays within the budget, and takes every chunk it can up to `end`, where it has
      all the chunks it may take or has just finished its first round without taking one. */
  ghost predicate Selection(files: seq<File>, picks: seq<Pick>, end: Pick) {
    && Within(files, picks) && Settled(files, picks, end) && (forall p | p in picks :: Before(p, end))
    && EveryRound(picks)
    && (|picks| == MAX_CHUNKS || end == Pick(0, NextRound(picks) + 1))
  }

  // ---- one step of the selection -------------------------------------------------------------

  lemma AppendCounts(files: seq<File>, picks: seq<Pick>, p: Pick)
    ensures Chars(files, picks + [p]) == Chars(files, picks) + Length(files, p)
    ensures forall f :: PicksOf(picks + [p], f) == PicksOf(picks, f) + if p.file == f then 1 else 0
  {
    assert (picks + [p])[..|picks|] == picks;
  }

  /** Slot number i of round r, over n files. */
  function Slot(r: nat, i: nat, n: nat): Pick { if i < n then Pick(i, r) else Pick(0, r + 1) }

  lemma SlotsInTurn(files: seq<File>, r: nat, i: nat)
    requires i < |files|
    ensures forall p | Valid(files, p) :: Before(p, Slot(r, i + 1, |files|)) <==>
              Before(p, Pick(i, r)) || p == Pick(i, r)
  {
  }

  lemma PickStaysWithin(files: seq<File>, picks: seq<Pick>, p: Pick)
    requires Within(files, picks) && Valid(files, p) && forall q | q in picks :: Before(q, p)
    requires |picks| < MAX_CHUNKS && PicksOf(picks, p.file) < MAX_CHUNKS_PER_FILE
    requires Chars(files, picks) + Length(files, p) <= MAX_TOTAL_CHARS
    ensures Within(files, picks + [p])
  {
    AppendCounts(files, picks, p);
    assert forall k | 0 <= k < |picks| :: picks[k] in picks;
  }

  lemma PickSettles(files: seq<File>, picks: seq<Pick>, turn: Pick, next: Pick)
    requires Settled(files, picks, turn)
    requires forall p | Valid(files, p) :: Before(p, next) <==> Before(p, turn) || p == turn
    ensures Settled(files, picks + [turn], next)
  {
    var picks' := picks + [turn];
    assert picks'[|picks|] == turn;
    forall p | Valid(files, p) && Before(p, next) && p !in picks' ensures exists m :: PassedOver(files, picks', p, m) {
      var m :| PassedOver(files, picks, p, m);
      StillPassedOver(files, picks, turn, p, m);
    }
  }

  lemma StillPassedOver(files: seq<File>, picks: seq<Pick>, turn: Pick, p: Pick, m: nat)
    requires PassedOver(files, picks, p, m) && Before(p, turn)
    ensures PassedOver(files, picks + [turn], p, m)
  {
    assert (picks + [turn])[..m] == picks[..m];
  }

  lemma PassSettles(files: seq<File>, picks: seq<Pick>, turn: Pick, next: Pick)
    requires Settled(files, picks, turn) && forall p | p in picks :: Before(p, turn)
    requires forall p | Valid(files, p) :: Before(p, next) <==> Before(p, turn) || p == turn
    requires Valid(files, turn) ==>
               PicksOf(picks, turn.file) == MAX_CHUNKS_PER_FILE
                 || Chars(files, picks) + Length(files, turn) > MAX_TOTAL_CHARS
    ensures Settled(files, picks, next)
  {
    assert picks[..|picks|] == picks;
    forall p | Valid(files, p) && Before(p, next) && p !in picks ensures exists m :: PassedOver(files, picks, p, m) {
      if p == turn {
        assert PassedOver(files, picks, p, |picks|);
      }
    }
  }

  // ---- the loop ------------------------------------------------------------------------------

  predicate DistinctIds(files: seq<File>) { forall i, j | 0 <= i < j < |files| :: files[i].id != files[j].id }

  function Get(m: map<Id, nat>, id: Id): nat { if id in m then m[id] else 0 }

  function Min(a: nat, b: nat): nat { if a < b then a else b }

  /** The two maps hold, by file id, how many chunks were picked and where the file stands. */
  ghost predicate Counted(files: seq<File>, picks: seq<Pick>, byFile: map<Id, nat>) {
    forall f | 0 <= f < |files| :: Get(byFile, files[f].id) == PicksOf(picks, f)
  }

  ghost predicate Tracked(files: seq<File>, picks: seq<Pick>, cursors: map<Id, nat>, r: nat, i: nat) {
    forall f | 0 <= f < |files| && PicksOf(picks, f) < MAX_CHUNKS_PER_FILE ::
      Get(cursors, files[f].id) == Min(|files[f].chunks|, if f < i then r + 1 else r)
  }

  lemma PickIsCounted(files: seq<File>, picks: seq<Pick>, byFile: map<Id, nat>, p: Pick)
    requires DistinctIds(files) && Counted(files, picks, byFile) && p.file < |files|
    ensures Counted(files, picks + [p], byFile[files[p.file].id := PicksOf(picks, p.file) + 1])
  {
    AppendCounts(files, picks, p);
  }

  lemma PickIsTracked(files: seq<File>, picks: seq<Pick>, cursors: map<Id, nat>, r: nat, i: nat)
    requires DistinctIds(files) && Tracked(files, picks, cursors, r, i) && i < |files| && r < |files[i].chunks|
    ensures Tracked(files, picks + [Pick(i, r)], cursors[files[i].id := r + 1], r, i + 1)
    ensures Tracked(files, picks, cursors[files[i].id := r + 1], r, i + 1)
  {
    AppendCounts(files, picks, Pick(i, r));
  }

  ghost predicate Missed(files: seq<File>, picks: seq<Pick>, end: Pick) {
    exists p :: Valid(files, p) && Before(p, end) && p !in picks
  }

  ghost predicate LeavesChunks(files: seq<File>, picks: seq<Pick>) { exists p :: Valid(files, p) && p !in picks }

  /** The turn p comes after the first m picks and before the others. */
  ghost predicate TurnAfter(picks: seq<Pick>, p: Pick, m: nat) {
    m <= |picks| && (forall i | 0 <= i < m :: Before(picks[i], p))
      && (forall i | m <= i < |picks| :: Before(p, picks[i]))
  }

  /** At some turn before `end` the file had its share of picks already. */
  ghost predicate EverCapped(files: seq<File>, picks: seq<Pick>, end: Pick) {
    exists p, m :: Before(p, end) && CappedAt(files, picks, p, m)
  }

  ghost predicate CappedAt(files: seq<File>, picks: seq<Pick>, p: Pick, m: nat) {
    TurnAfter(picks, p, m) && p.file < |files| && PicksOf(picks[..m], p.file) == MAX_CHUNKS_PER_FILE
  }

  /** At some turn before `end` a chunk whose file had room did not fit. */
  ghost predicate EverTooLong(files: seq<File>, picks: seq<Pick>, end: Pick) {
    exists p, m :: Before(p, end) && TooLongAt(files, picks, p, m)
  }

  ghost predicate TooLongAt(files: seq<File>, picks: seq<Pick>, p: Pick, m: nat) {
    && TurnAfter(picks, p, m) && Valid(files, p) && PicksOf(picks[..m], p.file) < MAX_CHUNKS_PER_FILE
    && Chars(files, picks[..m]) + Length(files, p) > MAX_TOTAL_CHARS
  }

  /** The variables of the loop. */
  datatype Progress = Progress(
    selected: seq<string>, byFile: map<Id, nat>, cursors: map<Id, nat>, chars: nat, truncated: bool,
    reasons: set<Reason>)

  /** What they say about the picks made before `end`. */
  ghost predicate Placed(s: Progress, files: seq<File>, picks: seq<Pick>, end: Pick) {
    && Within(files, picks) && Settled(files, picks, end) && (forall p | p in picks :: Before(p, end))
    && EveryRound(picks)
    && |s.selected| == |picks| && (forall k | 0 <= k < |picks| :: s.selected[k] == ChunkAt(files, picks[k]))
    && s.chars == Chars(files, picks) && Counted(files, picks, s.byFile)
  }

  /** And about the chunks that were not picked. */
  ghost predicate Reasoned(s: Progress, files: seq<File>, over: bool, picks: seq<Pick>, end: Pick) {
    && (s.truncated ==> over || LeavesChunks(files, picks)) && (over ==> s.truncated)
    && (Missed(files, picks, end) || s.truncated ==> s.reasons != {})
    && (MaxFiles in s.reasons <==> over) && (MaxChunks in s.reasons <==> |picks| == MAX_CHUNKS)
  }

  /** The two reasons that a turn can give. */
  ghost predicate Explained(reasons: set<Reason>, files: seq<File>, picks: seq<Pick>, end: Pick) {
    && (MaxChunksPerFile in reasons <==> EverCapped(files, picks, end))
    && (MaxTotalChars in reasons <==> EverTooLong(files, picks, end))
  }

  ghost predicate Describes(s: Progress, files: seq<File>, over: bool, picks: seq<Pick>, end: Pick) {
    Placed(s, files, picks, end) && Reasoned(s, files, over, picks, end) && Explained(s.reasons, files, picks, end)
  }

  /** A turn of a file, from the picks before it. */
  predicate NextTurn(files: seq<File>, turn: Pick, next: Pick) {
    next == Slot(turn.chunk, turn.file + 1, |files|) && turn.file < |files|
  }

  lemma TurnsBefore(files: seq<File>, turn: Pick, next: Pick, p: Pick)
    requires NextTurn(files, turn, next) && p.file < |files|
    ensures Before(p, next) <==> Before(p, turn) || p == turn
  {
  }

  lemma MemberAt(picks: seq<Pick>, m: nat)
    requires m < |picks|
    ensures picks[m] in picks
  {
  }

  lemma LastTurn(picks: seq<Pick>, turn: Pick, m: nat)
    requires (forall p | p in picks :: Before(p, turn)) && TurnAfter(picks, turn, m)
    ensures m == |picks| && picks[..m] == picks
  {
    if m < |picks| {
      MemberAt(picks, m);
    }
  }

  /** A turn without a pick. */
  lemma PassExplains(files: seq<File>, picks: seq<Pick>, turn: Pick, next: Pick)
    requires NextTurn(files, turn, next) && forall p | p in picks :: Before(p, turn)
    ensures EverCapped(files, picks, next) <==>
              EverCapped(files, picks, turn) || PicksOf(picks, turn.file) == MAX_CHUNKS_PER_FILE
    ensures EverTooLong(files, picks, next) <==>
              EverTooLong(files, picks, turn)
              || (Valid(files, turn) && PicksOf(picks, turn.file) < MAX_CHUNKS_PER_FILE
                  && Chars(files, picks) + Length(files, turn) > MAX_TOTAL_CHARS)
  {
    assert picks[..|picks|] == picks;
    assert TurnAfter(picks, turn, |picks|) by {
      assert forall i | 0 <= i < |picks| :: picks[i] in picks;
    }
    PassCaps(files, picks, turn, next);
    PassIsTooLong(files, picks, turn, next);
  }

  lemma PassCaps(files: seq<File>, picks: seq<Pick>, turn: Pick, next: Pick)
    requires NextTurn(files, turn, next) && (forall p | p in picks :: Before(p, turn))
    requires TurnAfter(picks, turn, |picks|)
    ensures EverCapped(files, picks, next) <==>
              EverCapped(files, picks, turn) || PicksOf(picks, turn.file) == MAX_CHUNKS_PER_FILE
  {
    assert picks[..|picks|] == picks;
    TurnsBefore(files, turn, next, turn);
    if p, m :| Before(p, next) && CappedAt(files, picks, p, m) {
      TurnsBefore(files, turn, next, p);
      if p == turn {
        LastTurn(picks, turn, m);
      }
    }
    if p, m :| Before(p, turn) && CappedAt(files, picks, p, m) {
      TurnsBefore(files, turn, next, p);
      assert Before(p, next);
    }
    if PicksOf(picks, turn.file) == MAX_CHUNKS_PER_FILE {
      assert CappedAt(files, picks, turn, |picks|);
    }
  }

  lemma PassIsTooLong(files: seq<File>, picks: seq<Pick>, turn: Pick, next: Pick)
    requires NextTurn(files, turn, next) && (forall p | p in picks :: Before(p, turn))
    requires TurnAfter(picks, turn, |picks|)
    ensures EverTooLong(files, picks, next) <==>
              EverTooLong(files, picks, turn)
              || (Valid(files, turn) && PicksOf(picks, turn.file) < MAX_CHUNKS_PER_FILE
                  && Chars(files, picks) + Length(files, turn) > MAX_TOTAL_CHARS)
  {
    assert picks[..|picks|] == picks;
    TurnsBefore(files, turn, next, turn);
    if p, m :| Before(p, next) && TooLongAt(files, picks, p, m) {
      TurnsBefore(files, turn, next, p);
      if p == turn {
        LastTurn(picks, turn, m);
      }
    }
    if p, m :| Before(p, turn) && TooLongAt(files, picks, p, m) {
      TurnsBefore(files, turn, next, p);
      assert Before(p, next);
    }
    if Valid(files, turn) && PicksOf(picks, turn.file) < MAX_CHUNKS_PER_FILE
       && Chars(files, picks) + Length(files, turn) > MAX_TOTAL_CHARS {
      assert TooLongAt(files, picks, turn, |picks|);
    }
  }

  /** An earlier turn is what it was, whatever is picked at this one. */
  lemma EarlierTurn(picks: seq<Pick>, turn: Pick, p: Pick, m: nat)
    requires forall q | q in picks :: Before(q, turn)
    ensures TurnAfter(picks + [turn], p, m) && p != turn && !Before(turn, p) ==> TurnAfter(picks, p, m)
    ensures TurnAfter(picks, p, m) && Before(p, turn) ==> TurnAfter(picks + [turn], p, m)
    ensures m <= |picks| ==> (picks + [turn])[..m] == picks[..m]
    ensures !TurnAfter(picks + [turn], turn, m)
  {
    var picks' := picks + [turn];
    assert picks'[|picks|] == turn;
    assert forall i | 0 <= i < |picks| :: picks'[i] == picks[i];
  }

  /** A turn with a pick gives neither reason. */
  lemma PickExplains(files: seq<File>, picks: seq<Pick>, turn: Pick, next: Pick)
    requires NextTurn(files, turn, next) && forall p | p in picks :: Before(p, turn)
    ensures EverCapped(files, picks + [turn], next) <==> EverCapped(files, picks, turn)
    ensures EverTooLong(files, picks + [turn], next) <==> EverTooLong(files, picks, turn)
  {
    PickCaps(files, picks, turn, next);
    PickIsTooLong(files, picks, turn, next);
  }

  lemma PickCaps(files: seq<File>, picks: seq<Pick>, turn: Pick, next: Pick)
    requires NextTurn(files, turn, next) && forall p | p in picks :: Before(p, turn)
    ensures EverCapped(files, picks + [turn], next) <==> EverCapped(files, picks, turn)
  {
    if p, m :| Before(p, next) && CappedAt(files, picks + [turn], p, m) {
      TurnsBefore(files, turn, next, p);
      EarlierTurn(picks, turn, p, m);
      assert CappedAt(files, picks, p, m);
    }
    if p, m :| Before(p, turn) && CappedAt(files, picks, p, m) {
      TurnsBefore(files, turn, next, p);
      EarlierTurn(picks, turn, p, m);
      assert CappedAt(files, picks + [turn], p, m);
    }
  }

  lemma PickIsTooLong(files: seq<File>, picks: seq<Pick>, turn: Pick, next: Pick)
    requires NextTurn(files, turn, next) && forall p | p in picks :: Before(p, turn)
    ensures EverTooLong(files, picks + [turn], next) <==> EverTooLong(files, picks, turn)
  {
    if p, m :| Before(p, next) && TooLongAt(files, picks + [turn], p, m) {
      TurnsBefore(files, turn, next, p);
      EarlierTurn(picks, turn, p, m);
      assert TooLongAt(files, picks, p, m);
    }
    if p, m :| Before(p, turn) && TooLongAt(files, picks, p, m) {
      TurnsBefore(files, turn, next, p);
      EarlierTurn(picks, turn, p, m);
      assert TooLongAt(files, picks + [turn], p, m);
    }
  }

  /** While there is room: the truncation has been noticed at a chunk already passed over. */
  ghost predicate Ongoing(s: Progress, files: seq<File>, over: bool, picks: seq<Pick>, r: nat, i: nat) {
    && Describes(s, files, over, picks, Slot(r, i, |files|)) && |picks| < MAX_CHUNKS
    && Tracked(files, picks, s.cursors, r, i)
    && (s.truncated ==> over || Missed(files, picks, Slot(r, i, |files|)))
  }

  lemma PassKeepsOngoing(s: Progress, s': Progress, files: seq<File>, over: bool, picks: seq<Pick>, r: nat, i: nat)
    requires Ongoing(s, files, over, picks, r, i) && i < |files|
    requires Explained(s'.reasons, files, picks, Slot(r, i + 1, |files|))
    requires s'.selected == s.selected && s'.byFile == s.byFile && s'.chars == s.chars
    requires Tracked(files, picks, s'.cursors, r, i + 1)
    requires s.reasons <= s'.reasons && MaxFiles !in s'.reasons - s.reasons && MaxChunks !in s'.reasons
    requires s'.truncated == s.truncated || (s'.truncated && Valid(files, Pick(i, r)))
    requires Valid(files, Pick(i, r)) ==> s'.reasons != {}
    requires Valid(files, Pick(i, r)) ==>
               PicksOf(picks, i) == MAX_CHUNKS_PER_FILE
                 || Chars(files, picks) + Length(files, Pick(i, r)) > MAX_TOTAL_CHARS
    ensures Ongoing(s', files, over, picks, r, i + 1)
  {
    SlotsInTurn(files, r, i);
    PassSettles(files, picks, Pick(i, r), Slot(r, i + 1, |files|));
    if Valid(files, Pick(i, r)) {
      assert Pick(i, r) !in picks;
    }
  }

  /** The variables after the pick of chunk r of file i. */
  ghost predicate Pushed(s: Progress, s': Progress, files: seq<File>, picks: seq<Pick>, r: nat, i: nat) {
    var turn := Pick(i, r);
    && Valid(files, turn) && PicksOf(picks, i) < MAX_CHUNKS_PER_FILE
    && Chars(files, picks) + Length(files, turn) <= MAX_TOTAL_CHARS
    && s'.selected == s.selected + [ChunkAt(files, turn)] && s'.chars == s.chars + Length(files, turn)
    && s'.byFile == s.byFile[files[i].id := PicksOf(picks, i) + 1]
    && if |picks| + 1 < MAX_CHUNKS then s'.truncated == s.truncated && s'.reasons == s.reasons
       else s'.truncated == (s.truncated || |files[i].chunks| > r + 1) && s'.reasons == s.reasons + {MaxChunks}
  }

  lemma PickKeepsDescribing(s: Progress, s': Progress, files: seq<File>, over: bool, picks: seq<Pick>, r: nat, i: nat)
    requires Ongoing(s, files, over, picks, r, i) && DistinctIds(files) && i < |files| && r <= NextRound(picks)
    requires Pushed(s, s', files, picks, r, i)
    requires Explained(s'.reasons, files, picks + [Pick(i, r)], Slot(r, i + 1, |files|))
    ensures Describes(s', files, over, picks + [Pick(i, r)], Slot(r, i + 1, |files|))
    ensures s.truncated ==> over || Missed(files, picks + [Pick(i, r)], Slot(r, i + 1, |files|))
  {
    PickKeepsPlaced(s, s', files, picks, r, i);
    PickKeepsReasons(s, s', files, over, picks, r, i);
  }

  lemma PickKeepsPlaced(s: Progress, s': Progress, files: seq<File>, picks: seq<Pick>, r: nat, i: nat)
    requires DistinctIds(files) && i < |files| && |picks| < MAX_CHUNKS && r <= NextRound(picks)
    requires Placed(s, files, picks, Slot(r, i, |files|)) && Pushed(s, s', files, picks, r, i)
    ensures Placed(s', files, picks + [Pick(i, r)], Slot(r, i + 1, |files|))
  {
    var turn := Pick(i, r);
    SlotsInTurn(files, r, i);
    PickStaysWithin(files, picks, turn);
    PickSettles(files, picks, turn, Slot(r, i + 1, |files|));
    PickIsCounted(files, picks, s.byFile, turn);
    AppendCounts(files, picks, turn);
    PickIsInRound(picks, turn);
    PicksAreBefore(files, picks, turn, Slot(r, i + 1, |files|));
    PickIsSelected(files, s.selected, picks, turn);
  }

  lemma PicksAreBefore(files: seq<File>, picks: seq<Pick>, turn: Pick, next: Pick)
    requires (forall p | p in picks :: Before(p, turn)) && Before(turn, next)
    ensures forall p | p in picks + [turn] :: Before(p, next)
  {
  }

  lemma PickIsSelected(files: seq<File>, selected: seq<string>, picks: seq<Pick>, turn: Pick)
    requires |selected| == |picks| && forall k | 0 <= k < |picks| :: selected[k] == ChunkAt(files, picks[k])
    ensures forall k | 0 <= k < |picks| + 1 ::
              (selected + [ChunkAt(files, turn)])[k] == ChunkAt(files, (picks + [turn])[k])
  {
  }

  lemma PickIsInRound(picks: seq<Pick>, turn: Pick)
    requires EveryRound(picks) && turn.chunk <= NextRound(picks)
    ensures EveryRound(picks + [turn])
  {
  }

  lemma PickKeepsReasons(s: Progress, s': Progress, files: seq<File>, over: bool, picks: seq<Pick>, r: nat, i: nat)
    requires Reasoned(s, files, over, picks, Slot(r, i, |files|))
    requires (s.truncated ==> over || Missed(files, picks, Slot(r, i, |files|)))
    requires |picks| < MAX_CHUNKS && (forall p | p in picks :: Before(p, Slot(r, i, |files|))) && i < |files|
    requires Pushed(s, s', files, picks, r, i)
    ensures Reasoned(s', files, over, picks + [Pick(i, r)], Slot(r, i + 1, |files|))
    ensures s.truncated ==> over || Missed(files, picks + [Pick(i, r)], Slot(r, i + 1, |files|))
  {
    var (turn, next) := (Pick(i, r), Slot(r, i + 1, |files|));
    SlotsInTurn(files, r, i);
    MissesStay(files, picks, turn, next);
    if |files[i].chunks| > r + 1 {
      assert Valid(files, Pick(i, r + 1)) && Pick(i, r + 1) !in picks + [turn];
    }
  }

  /** Picking a chunk at its turn misses nothing and makes good for nothing. */
  lemma MissesStay(files: seq<File>, picks: seq<Pick>, turn: Pick, next: Pick)
    requires forall p | Valid(files, p) :: Before(p, next) <==> Before(p, turn) || p == turn
    ensures Missed(files, picks + [turn], next) <==> Missed(files, picks, turn)
  {
    var picks' := picks + [turn];
    assert picks'[|picks|] == turn;
    assert forall p :: p in picks' <==> p in picks || p == turn;
    if p :| Valid(files, p) && Before(p, turn) && p !in picks {
      assert p !in picks' && Before(p, next);
    }
  }

  /** Which reason the turn of file i in round r gives. */
  lemma TurnExplains(s: Progress, files: seq<File>, over: bool, picks: seq<Pick>, r: nat, i: nat)
    requires Ongoing(s, files, over, picks, r, i) && i < |files|
    ensures var (turn, next) := (Pick(i, r), Slot(r, i + 1, |files|));
            var (capped, cursor) := (Get(s.byFile, files[i].id) >= MAX_CHUNKS_PER_FILE, Get(s.cursors, files[i].id));
            if capped then Explained(s.reasons + {MaxChunksPerFile}, files, picks, next)
            else if cursor >= |files[i].chunks| then Explained(s.reasons, files, picks, next)
            else if s.chars + |files[i].chunks[cursor]| > MAX_TOTAL_CHARS
            then Explained(s.reasons + {MaxTotalChars}, files, picks, next)
            else
              && Explained(s.reasons, files, picks + [turn], next)
              && Explained(s.reasons + {MaxChunks}, files, picks + [turn], next)
  {
    assert Slot(r, i, |files|) == Pick(i, r);
    PassExplains(files, picks, Pick(i, r), Slot(r, i + 1, |files|));
    PickExplains(files, picks, Pick(i, r), Slot(r, i + 1, |files|));
  }

  /** The four ways a turn can go. */
  lemma CappedTurn(s: Progress, files: seq<File>, over: bool, picks: seq<Pick>, r: nat, i: nat)
    requires Ongoing(s, files, over, picks, r, i) && i < |files| && Get(s.byFile, files[i].id) >= MAX_CHUNKS_PER_FILE
    ensures Ongoing(s.(reasons := s.reasons + {MaxChunksPerFile}), files, over, picks, r, i + 1)
  {
    TurnExplains(s, files, over, picks, r, i);
    PassKeepsOngoing(s, s.(reasons := s.reasons + {MaxChunksPerFile}), files, over, picks, r, i);
  }

  lemma ExhaustedTurn(s: Progress, files: seq<File>, over: bool, picks: seq<Pick>, r: nat, i: nat)
    requires Ongoing(s, files, over, picks, r, i) && i < |files| && Get(s.byFile, files[i].id) < MAX_CHUNKS_PER_FILE
    requires Get(s.cursors, files[i].id) >= |files[i].chunks|
    ensures Ongoing(s, files, over, picks, r, i + 1)
  {
    TurnExplains(s, files, over, picks, r, i);
    PassKeepsOngoing(s, s, files, over, picks, r, i);
  }

  function Advanced(s: Progress, file: File): Progress {
    s.(cursors := s.cursors[file.id := Get(s.cursors, file.id) + 1])
  }

  lemma TooLongTurn(s: Progress, files: seq<File>, over: bool, picks: seq<Pick>, r: nat, i: nat)
    requires Ongoing(s, files, over, picks, r, i) && i < |files| && DistinctIds(files)
    requires Get(s.byFile, files[i].id) < MAX_CHUNKS_PER_FILE
    requires Get(s.cursors, files[i].id) < |files[i].chunks|
    requires s.chars + |files[i].chunks[Get(s.cursors, files[i].id)]| > MAX_TOTAL_CHARS
    ensures Ongoing(Advanced(s, files[i]).(truncated := true, reasons := s.reasons + {MaxTotalChars}), files, over,
                    picks, r, i + 1)
  {
    TurnExplains(s, files, over, picks, r, i);
    PickIsTracked(files, picks, s.cursors, r, i);
    PassKeepsOngoing(s, Advanced(s, files[i]).(truncated := true, reasons := s.reasons + {MaxTotalChars}), files, over,
                     picks, r, i);
  }

  function Taken(s: Progress, file: File, chunk: string): Progress {
    Advanced(s, file).(selected := s.selected + [chunk], byFile := s.byFile[file.id := Get(s.byFile, file.id) + 1],
                       chars := s.chars + |chunk|)
  }

  /** The progress after the pick, with the truncation noticed if it was the last one there is room for. */
  function AfterPick(s: Progress, file: File, cursor: nat): Progress
    requires cursor < |file.chunks|
  {
    var taken := Taken(s, file, file.chunks[cursor]);
    if |taken.selected| < MAX_CHUNKS then taken
    else taken.(truncated := s.truncated || |file.chunks| > cursor + 1, reasons := s.reasons + {MaxChunks})
  }

  lemma PickIsPushed(s: Progress, files: seq<File>, over: bool, picks: seq<Pick>, r: nat, i: nat)
    requires Ongoing(s, files, over, picks, r, i) && i < |files|
    requires Get(s.byFile, files[i].id) < MAX_CHUNKS_PER_FILE && Get(s.cursors, files[i].id) < |files[i].chunks|
    requires s.chars + |files[i].chunks[Get(s.cursors, files[i].id)]| <= MAX_TOTAL_CHARS
    ensures Get(s.cursors, files[i].id) == r
    ensures Pushed(s, AfterPick(s, files[i], r), files, picks, r, i)
  {
  }

  lemma PickTurn(s: Progress, files: seq<File>, over: bool, picks: seq<Pick>, r: nat, i: nat)
    requires Ongoing(s, files, over, picks, r, i) && i < |files| && DistinctIds(files) && r <= NextRound(picks)
    requires Get(s.byFile, files[i].id) < MAX_CHUNKS_PER_FILE
    requires Get(s.cursors, files[i].id) < |files[i].chunks|
    requires s.chars + |files[i].chunks[Get(s.cursors, files[i].id)]| <= MAX_TOTAL_CHARS
    ensures var (s', picks') := (AfterPick(s, files[i], Get(s.cursors, files[i].id)), picks + [Pick(i, r)]);
            if |s'.selected| < MAX_CHUNKS then Ongoing(s', files, over, picks', r, i + 1) && |picks'| < MAX_CHUNKS
            else |picks'| == MAX_CHUNKS && Describes(s', files, over, picks', Slot(r, i + 1, |files|))
  {
    TurnExplains(s, files, over, picks, r, i);
    PickIsPushed(s, files, over, picks, r, i);
    PickIsTracked(files, picks, s.cursors, r, i);
    PickKeepsDescribing(s, AfterPick(s, files[i], r), files, over, picks, r, i);
  }

  /** The turn of file i in round r. */
  method Visit(s: Progress, files: seq<File>, i: nat, ghost over: bool, ghost picks: seq<Pick>, ghost r: nat)
    returns (s': Progress, picked: bool, ghost picks': seq<Pick>)
    requires DistinctIds(files) && i < |files| && Ongoing(s, files, over, picks, r, i) && r <= NextRound(picks)
    ensures picks' == if picked then picks + [Pick(i, r)] else picks
    ensures |picks'| == |s'.selected| == |picks| + (if picked then 1 else 0) && (picked ==> NextRound(picks') == r + 1)
    ensures if |picks'| < MAX_CHUNKS then Ongoing(s', files, over, picks', r, i + 1)
            else |picks'| == MAX_CHUNKS && Describes(s', files, over, picks', Slot(r, i + 1, |files|))
  {
    var file := files[i];
    picked, picks' := false, picks;
    if Get(s.byFile, file.id) >= MAX_CHUNKS_PER_FILE {
      CappedTurn(s, files, over, picks, r, i);
      s' := s.(reasons := s.reasons + {MaxChunksPerFile});
      return;
    }
    var cursor := Get(s.cursors, file.id);
    if cursor >= |file.chunks| {
      ExhaustedTurn(s, files, over, picks, r, i);
      s' := s;
      return;
    }
    var chunk := file.chunks[cursor];
    if s.chars + |chunk| > MAX_TOTAL_CHARS {
      TooLongTurn(s, files, over, picks, r, i);
      s' := Advanced(s, file).(truncated := true, reasons := s.reasons + {MaxTotalChars});
      return;
    }
    PickTurn(s, files, over, picks, r, i);
    s', picked, picks' := Taken(s, file, chunk), true, picks + [Pick(i, r)];
    if |s'.selected| >= MAX_CHUNKS {
      s' := s'.(truncated := s.truncated || |file.chunks| > cursor + 1, reasons := s.reasons + {MaxChunks});
    }
  }

  /** One round over the files; it stops early when all chunks are found. */
  method Round(s: Progress, files: seq<File>, ghost over: bool, ghost picks: seq<Pick>)
    returns (s': Progress, progressed: bool, ghost picks': seq<Pick>, ghost end: Pick)
    requires DistinctIds(files) && Ongoing(s, files, over, picks, NextRound(picks), 0)
    ensures Describes(s', files, over, picks', end)
    ensures |picks| + (if progressed then 1 else 0) <= |picks'| <= MAX_CHUNKS
    ensures |picks'| < MAX_CHUNKS && progressed ==> Ongoing(s', files, over, picks', NextRound(picks'), 0)
    ensures !progressed ==> |picks'| < MAX_CHUNKS && end == Pick(0, NextRound(picks') + 1)
  {
    ghost var r := NextRound(picks);
    s', progressed, picks', end := s, false, picks, Pick(0, r + 1);
    for i := 0 to |files|
      invariant Ongoing(s', files, over, picks', r, i)
      invariant NextRound(picks') == if progressed then r + 1 else r
      invariant |picks| + (if progressed then 1 else 0) <= |picks'| < MAX_CHUNKS
    {
      var picked;
      s', picked, picks' := Visit(s', files, i, over, picks', r);
      if picked {
        progressed := true;
        if |s'.selected| >= MAX_CHUNKS {
          end := Slot(r, i + 1, |files|);
          return;
        }
      }
    }
    RoundEnds(s', files, over, picks', r);
  }

  /** Without files there is no turn at all. */
  lemma NoTurnBetween(reasons: set<Reason>, files: seq<File>, picks: seq<Pick>, r: nat)
    ensures Explained(reasons, files, picks, Pick(0, r)) <==> Explained(reasons, files, picks, Slot(r, 0, |files|))
  {
  }

  lemma RoundEnds(s: Progress, files: seq<File>, over: bool, picks: seq<Pick>, r: nat)
    requires Ongoing(s, files, over, picks, r, |files|)
    ensures Ongoing(s, files, over, picks, r + 1, 0) && Describes(s, files, over, picks, Pick(0, r + 1))
  {
    NoTurnBetween(s.reasons, files, picks, r + 1);
  }

  method ApplyRetrievalBudget(files: seq<File>)
    returns (selectedChunks: seq<string>, selectedChars: nat, truncated: bool, reasons: set<Reason>,
             ghost picks: seq<Pick>, ghost end: Pick)
    requires DistinctIds(files)
    ensures Selection(Limited(files), picks, end)
    ensures |selectedChunks| == |picks| && forall k | 0 <= k < |picks| ::
              selectedChunks[k] == ChunkAt(Limited(files), picks[k])
    ensures selectedChars == Chars(Limited(files), picks)
    ensures truncated <==> |files| > MAX_FILES || LeavesChunks(Limited(files), picks)
    ensures truncated ==> reasons != {}
    ensures MaxFiles in reasons <==> |files| > MAX_FILES
    ensures MaxChunks in reasons <==> |picks| == MAX_CHUNKS
    ensures MaxChunksPerFile in reasons <==> EverCapped(Limited(files), picks, end)
    ensures MaxTotalChars in reasons <==> EverTooLong(Limited(files), picks, end)
  {
    var limitedFiles := Limited(files);
    ghost var over := |files| > MAX_FILES;
    var s := Progress([], map[], map[], 0, |files| > MAX_FILES, if |files| > MAX_FILES then {MaxFiles} else {});
    picks, end := [], Pick(0, 0);
    NothingPickedYet(s, limitedFiles, over);
    var progressed := true;
    while progressed && |s.selected| < MAX_CHUNKS
      invariant Describes(s, limitedFiles, over, picks, end)
      invariant |picks| < MAX_CHUNKS && progressed ==> Ongoing(s, limitedFiles, over, picks, NextRound(picks), 0)
      invariant !progressed ==> end == Pick(0, NextRound(picks) + 1)
      decreases MAX_CHUNKS - |s.selected|, progressed
    {
      s, progressed, picks, end := Round(s, limitedFiles, over, picks);
    }
    truncated := s.truncated || HasMore(s, limitedFiles);
    selectedChunks, selectedChars, reasons := s.selected, s.chars, s.reasons;
    TruncationIsExact(s, limitedFiles, over, picks, end);
  }

  lemma NothingPickedYet(s: Progress, files: seq<File>, over: bool)
    requires s == Progress([], map[], map[], 0, over, if over then {MaxFiles} else {})
    ensures Describes(s, files, over, [], Pick(0, 0)) && Ongoing(s, files, over, [], 0, 0)
  {
    NoTurnBetween(s.reasons, files, [], 0);
  }

  predicate HasMore(s: Progress, files: seq<File>) {
    exists f | 0 <= f < |files| :: Get(s.byFile, files[f].id) < |files[f].chunks|
  }

  lemma TruncationIsExact(s: Progress, files: seq<File>, over: bool, picks: seq<Pick>, end: Pick)
    requires Describes(s, files, over, picks, end) && (|picks| == MAX_CHUNKS || end == Pick(0, NextRound(picks) + 1))
    ensures s.truncated || HasMore(s, files) <==> over || LeavesChunks(files, picks)
    ensures s.truncated || HasMore(s, files) ==> s.reasons != {}
  {
    LeftAreCounted(files, picks);
    LeftAreMissed(files, picks, end);
  }

  /** Any chunk that was left was left before the end of the last round, or there was no room. */
  lemma LeftAreMissed(files: seq<File>, picks: seq<Pick>, end: Pick)
    requires Selection(files, picks, end)
    ensures LeavesChunks(files, picks) ==> |picks| == MAX_CHUNKS || Missed(files, picks, end)
  {
    if p :| Valid(files, p) && p !in picks {
      if |picks| < MAX_CHUNKS && !Before(p, end) {
        var q := Pick(p.file, end.chunk - 1);
        LastRoundIsEmpty(picks, q);
        assert Valid(files, q) && Before(q, end);
      }
    }
  }

  lemma LastRoundIsEmpty(picks: seq<Pick>, q: Pick)
    requires InOrder(picks) && q.chunk == NextRound(picks)
    ensures q !in picks
  {
    if picks != [] {
      assert forall k | 0 <= k < |picks| - 1 :: Before(picks[k], picks[|picks| - 1]);
    }
  }

  // ---- counting what was left ------------------------------------------------------------------

  function Chosen(picks: seq<Pick>, f: nat): set<nat> { set p | p in picks && p.file == f :: p.chunk }

  lemma {:induction false} ChosenCounts(picks: seq<Pick>, f: nat)
    requires InOrder(picks)
    ensures |Chosen(picks, f)| == PicksOf(picks, f)
  {
    if picks != [] {
      var (before, last) := (picks[..|picks| - 1], picks[|picks| - 1]);
      ChosenCounts(before, f);
      assert picks == before + [last];
      if last.file == f {
        assert Chosen(picks, f) == Chosen(before, f) + {last.chunk};
        assert last.chunk !in Chosen(before, f);
      } else {
        assert Chosen(picks, f) == Chosen(before, f);
      }
    }
  }

  function Below(n: nat): (r: set<nat>)
    ensures |r| == n && forall k: nat :: k in r <==> k < n
  {
    if n == 0 then {} else Below(n - 1) + {n - 1}
  }

  lemma {:induction false} SmallerSubset(a: set<nat>, b: set<nat>)
    requires a <= b
    ensures |a| <= |b| && (|a| == |b| <==> a == b)
  {
    if x :| x in a {
      SmallerSubset(a - {x}, b - {x});
    }
  }

  /** A file has fewer picks than chunks exactly if one of its chunks was left. */
  lemma LeftAreCounted(files: seq<File>, picks: seq<Pick>)
    requires Within(files, picks)
    ensures LeavesChunks(files, picks) <==> exists f | 0 <= f < |files| :: PicksOf(picks, f) < |files[f].chunks|
  {
    forall f | 0 <= f < |files|
      ensures PicksOf(picks, f) < |files[f].chunks| <==> exists k | 0 <= k < |files[f].chunks| :: Pick(f, k) !in picks
    {
      LeftOfFile(files, picks, f);
    }
    if p :| Valid(files, p) && p !in picks {
      assert Pick(p.file, p.chunk) !in picks;
    }
    if f :| 0 <= f < |files| && PicksOf(picks, f) < |files[f].chunks| {
      var k :| 0 <= k < |files[f].chunks| && Pick(f, k) !in picks;
      assert Valid(files, Pick(f, k));
    }
  }

  lemma LeftOfFile(files: seq<File>, picks: seq<Pick>, f: nat)
    requires Within(files, picks) && f < |files|
    ensures PicksOf(picks, f) < |files[f].chunks| <==> exists k | 0 <= k < |files[f].chunks| :: Pick(f, k) !in picks
  {
    var n := |files[f].chunks|;
    ChosenCounts(picks, f);
    assert Chosen(picks, f) <= Below(n);
    SmallerSubset(Chosen(picks, f), Below(n));
    forall k | 0 <= k < n ensures k in Chosen(picks, f) <==> Pick(f, k) in picks {
    }
  }

  // ---- what a selection looks like -------------------------------------------------------------

  /** The picks of one file are a subsequence of its chunks, in their order. */
  lemma PicksKeepFileOrder(files: seq<File>, picks: seq<Pick>, end: Pick, i: nat, j: nat)
    requires Selection(files, picks, end) && i < j < |picks| && picks[i].file == picks[j].file
    ensures picks[i].chunk < picks[j].chunk
  {
    assert Before(picks[i], picks[j]);
  }

  /** At most eight rounds are begun: every round but the last one picks a chunk. */
  lemma RoundsAreBounded(files: seq<File>, picks: seq<Pick>, end: Pick)
    requires Selection(files, picks, end)
    ensures NextRound(picks) <= |picks| <= MAX_CHUNKS
    ensures |picks| < MAX_CHUNKS ==> end == Pick(0, NextRound(picks) + 1) && end.chunk <= MAX_CHUNKS
  {
    RoundsGrow(picks);
  }

  lemma {:induction false} RoundsGrow(picks: seq<Pick>)
    requires EveryRound(picks)
    ensures NextRound(picks) <= |picks|
  {
    if picks != [] {
      var before := picks[..|picks| - 1];
      RoundsGrow(before);
    }
  }

  /** The selection is not greedy to the end: where no first chunk fits, nothing is selected, however
      short the chunks behind it. */
  lemma NothingFitsFirst(files: seq<File>, picks: seq<Pick>, end: Pick)
    requires Selection(files, picks, end)
    requires forall f | 0 <= f < |files| && files[f].chunks != [] :: |files[f].chunks[0]| > MAX_TOTAL_CHARS
    ensures picks == []
  {
    if picks != [] {
      assert Valid(files, picks[0]);
      FirstIsWithin(files, picks);
    }
  }

  /** The chunk could be added to the picks within every limit. */
  predicate StillFits(files: seq<File>, picks: seq<Pick>, p: Pick) {
    && Valid(files, p) && p !in picks && |picks| < MAX_CHUNKS
    && PicksOf(picks, p.file) < MAX_CHUNKS_PER_FILE && Chars(files, picks) + Length(files, p) <= MAX_TOTAL_CHARS
  }

  /** Whatever still fits lies behind the first round without a pick, where nobody looked at it; it could follow
      the picks as they are. */
  lemma WhatFitsWasNotReached(files: seq<File>, picks: seq<Pick>, end: Pick, p: Pick)
    requires Selection(files, picks, end) && StillFits(files, picks, p)
    ensures p.chunk > NextRound(picks) && Within(files, picks + [p])
  {
    if p.chunk <= NextRound(picks) {
      var m: nat :| PassedOver(files, picks, p, m);
      PrefixIsLess(files, picks, m, p.file);
    }
    forall q | q in picks ensures Before(q, p) {
      var k :| 0 <= k < |picks| && picks[k] == q;
      assert k < |picks| - 1 ==> Before(picks[k], picks[|picks| - 1]);
    }
    PickStaysWithin(files, picks, p);
  }

  /** The selection can take no further chunk exactly if none behind that round fits. */
  lemma SelectionIsMaximal(files: seq<File>, picks: seq<Pick>, end: Pick)
    requires Selection(files, picks, end)
    ensures (forall p: Pick :: !StillFits(files, picks, p))
       <==> (forall p: Pick | p.chunk > NextRound(picks) :: !StillFits(files, picks, p))
  {
    forall p | StillFits(files, picks, p) ensures p.chunk > NextRound(picks) {
      WhatFitsWasNotReached(files, picks, end, p);
    }
  }

  function Repeated(c: char, n: nat): string { seq(n, _ => c) }

  /** A long chunk hides a short one: of a file with chunks of 6001 characters and of one, nothing is selected,
      although the second chunk fits. */
  lemma LongChunkHidesShortOne(path: string) returns (files: seq<File>)
    ensures files == [File("f", path, [Repeated('a', MAX_TOTAL_CHARS + 1), "b"])]
    ensures Selection(files, [], Pick(0, 1)) && StillFits(files, [], Pick(0, 1))
    ensures forall picks, end :: Selection(files, picks, end) ==> picks == []
  {
    files := [File("f", path, [Repeated('a', MAX_TOTAL_CHARS + 1), "b"])];
    var none: seq<Pick> := [];
    assert none[..0] == none && PassedOver(files, none, Pick(0, 0), 0);
    forall picks, end | Selection(files, picks, end) ensures picks == [] {
      NothingFitsFirst(files, picks, end);
    }
  }

  lemma {:induction false} FirstIsWithin(files: seq<File>, picks: seq<Pick>)
    requires picks != []
    ensures Length(files, picks[0]) <= Chars(files, picks)
  {
    if |picks| > 1 {
      FirstIsWithin(files, picks[..|picks| - 1]);
    }
  }

  /** These properties leave no choice: they determine the selection. */
  lemma SelectionIsUnique(files: seq<File>, a: seq<Pick>, enda: Pick, b: seq<Pick>, endb: Pick)
    requires Selection(files, a, enda) && Selection(files, b, endb)
    ensures a == b
  {
    var m := SamePrefix(a, b);
    assert m == |a| == |b| ==> a[..m] == a && b[..m] == b;
    if m < |a| {
      NextPickIsNoEarlier(files, a, b, endb, m);
    }
    if m < |b| {
      NextPickIsNoEarlier(files, b, a, enda, m);
    }
  }

  lemma {:induction false} SamePrefix(a: seq<Pick>, b: seq<Pick>) returns (m: nat)
    ensures m <= |a| && m <= |b| && a[..m] == b[..m]
    ensures m < |a| && m < |b| ==> a[m] != b[m]
  {
    if a == [] || b == [] || a[0] != b[0] {
      m := 0;
    } else {
      m := SamePrefix(a[1..], b[1..]);
      m := m + 1;
      assert a[..m] == [a[0]] + a[1..][..m - 1] && b[..m] == [b[0]] + b[1..][..m - 1];
    }
  }

  /** After the same picks, one selection does not pass over what the other picks next. */
  lemma NextPickIsNoEarlier(files: seq<File>, a: seq<Pick>, b: seq<Pick>, endb: Pick, m: nat)
    requires Within(files, a) && EveryRound(a) && Selection(files, b, endb) && m < |a| && m <= |b| && a[..m] == b[..m]
    ensures m < |b| && !Before(a[m], b[m])
  {
    PrefixFits(files, a, m);
    forall k | 0 <= k < m ensures Before(b[k], a[m]) {
      assert b[k] == a[..m][k] == a[k];
    }
    assert a[m] in a && Valid(files, a[m]);
    if m == |b| || Before(a[m], b[m]) {
      IsBeforeEnd(a, b, endb, m);
      PassedOverAt(files, b, a[m], endb, m);
    }
  }

  lemma IsBeforeEnd(a: seq<Pick>, b: seq<Pick>, endb: Pick, m: nat)
    requires EveryRound(a) && |a| <= MAX_CHUNKS && (|b| == MAX_CHUNKS || endb == Pick(0, NextRound(b) + 1))
    requires (forall p | p in b :: Before(p, endb)) && m < |a| && m <= |b| && a[..m] == b[..m]
    requires m == |b| || Before(a[m], b[m])
    ensures Before(a[m], endb)
  {
    if m > 0 {
      assert a[m - 1] == a[..m][m - 1] == b[m - 1];
    }
    if m < |b| {
      assert b[m] in b;
    }
  }

  /** A chunk that belongs between two picks and is none was passed over there. */
  lemma PassedOverAt(files: seq<File>, picks: seq<Pick>, p: Pick, end: Pick, m: nat)
    requires Settled(files, picks, end) && InOrder(picks) && Valid(files, p) && Before(p, end) && m <= |picks|
    requires (forall k | 0 <= k < m :: Before(picks[k], p)) && (m < |picks| ==> Before(p, picks[m]))
    ensures PicksOf(picks[..m], p.file) == MAX_CHUNKS_PER_FILE
            || Chars(files, picks[..m]) + Length(files, p) > MAX_TOTAL_CHARS
  {
    if m < |picks| {
      assert forall k | m < k < |picks| :: Before(picks[m], picks[k]);
    }
    assert p !in picks;
    var n: nat :| PassedOver(files, picks, p, n);
    assert n < m ==> Before(p, picks[n]);
    assert m < n ==> Before(picks[m], p);
    assert n == m;
  }

  lemma PrefixFits(files: seq<File>, picks: seq<Pick>, m: nat)
    requires Within(files, picks) && m < |picks|
    ensures PicksOf(picks[..m], picks[m].file) < MAX_CHUNKS_PER_FILE
    ensures Chars(files, picks[..m]) + Length(files, picks[m]) <= MAX_TOTAL_CHARS
  {
    assert picks[..m + 1] == picks[..m] + [picks[m]];
    AppendCounts(files, picks[..m], picks[m]);
    PrefixIsLess(files, picks, m + 1, picks[m].file);
  }

  lemma {:induction false} PrefixIsLess(files: seq<File>, picks: seq<Pick>, m: nat, f: nat)
    requires m <= |picks|
    ensures PicksOf(picks[..m], f) <= PicksOf(picks, f) && Chars(files, picks[..m]) <= Chars(files, picks)
  {
    if m < |picks| {
      assert picks[..|picks| - 1][..m] == picks[..m];
      PrefixIsLess(files, picks[..|picks| - 1], m, f);
    } else {
      assert picks[..m] == picks;
    }
  }
}
