/** Literal search through escaped LIKE patterns, and the coarse score of the file search built on it. */
module LikeSearch {
  import opened Prelude
  import Occurrences

  // ---- LIKE ----------------------------------------------------------------------------------

  /** `text LIKE pattern ESCAPE '\'` (section 8.5 of ISO/IEC 9075-2). */
  predicate Like(text: string, pattern: string)
    decreases |pattern|, |text|
  {
    if pattern == "" then text == ""
    else if pattern[0] == '\\'
    then |pattern| >= 2 && text != "" && text[0] == pattern[1] && Like(text[1..], pattern[2..])
    else if pattern[0] == '%' then Like(text, pattern[1..]) || (text != "" && Like(text[1..], pattern))
    else text != "" && (pattern[0] == '_' || text[0] == pattern[0]) && Like(text[1..], pattern[1..])
  }

  predicate Special(c: char) { c == '\\' || c == '%' || c == '_' }

  /** Puts a backslash before every character that is special in a pattern. */
  function EscapeLikePattern(value: string): string {
    if value == "" then ""
    else (if Special(value[0]) then ['\\', value[0]] else [value[0]]) + EscapeLikePattern(value[1..])
  }

  /** An escaped text stands for itself, whatever characters it is made of. */
  lemma {:induction false} EscapedMatchesItself(text: string, value: string, rest: string)
    ensures Like(text, EscapeLikePattern(value) + rest) <==> value <= text && Like(text[|value|..], rest)
    decreases |value|
  {
    var pattern := EscapeLikePattern(value) + rest;
    if value == "" {
      assert pattern == rest && text[0..] == text;
    } else {
      var (c, tail) := (value[0], value[1..]);
      var after := EscapeLikePattern(tail) + rest;
      if Special(c) {
        assert pattern[2..] == after && pattern[0] == '\\' && pattern[1] == c;
      } else {
        assert pattern[1..] == after && pattern[0] == c;
      }
      if text != "" {
        EscapedMatchesItself(text[1..], tail, rest);
        assert value <= text <==> c == text[0] && tail <= text[1..];
        if value <= text {
          assert text[1..][|tail|..] == text[|value|..];
        }
      }
    }
  }

  lemma {:induction false} PercentMatchesAll(text: string)
    ensures Like(text, "%")
    decreases |text|
  {
    if text != "" {
      PercentMatchesAll(text[1..]);
    } else {
      assert Like("", "%"[1..]);
    }
  }

  function PrefixPattern(hint: string): string { EscapeLikePattern(hint) + "%" }
  function ContainsPattern(token: string): string { "%" + (EscapeLikePattern(token) + "%") }

  lemma PrefixPatternMatches(text: string, hint: string)
    ensures Like(text, PrefixPattern(hint)) <==> hint <= text
  {
    EscapedMatchesItself(text, hint, "%");
    if hint <= text {
      PercentMatchesAll(text[|hint|..]);
    }
  }

  predicate Contains(text: string, token: string) {
    exists i: nat | i <= |text| :: Occurrences.OccursAt(text, token, i)
  }

  lemma {:induction false} ContainsPatternMatches(text: string, token: string)
    ensures Like(text, ContainsPattern(token)) <==> Contains(text, token)
    decreases |text|
  {
    var pattern := ContainsPattern(token);
    assert pattern[1..] == PrefixPattern(token);
    PrefixPatternMatches(text, token);
    assert Occurrences.OccursAt(text, token, 0) <==> token <= text;
    if text != "" {
      ContainsPatternMatches(text[1..], token);
      ContainsLater(text, token);
    }
  }

  lemma ContainsLater(text: string, token: string)
    requires text != ""
    ensures Contains(text, token) <==> Occurrences.OccursAt(text, token, 0) || Contains(text[1..], token)
  {
    if i: nat :| i <= |text| && Occurrences.OccursAt(text, token, i) {
      if i > 0 {
        assert text[1..][i - 1..i - 1 + |token|] == text[i..i + |token|];
        assert Occurrences.OccursAt(text[1..], token, i - 1);
      }
    }
    if i: nat :| i <= |text[1..]| && Occurrences.OccursAt(text[1..], token, i) {
      assert text[1..][i..i + |token|] == text[i + 1..i + 1 + |token|];
      assert Occurrences.OccursAt(text, token, i + 1);
    }
  }

  // ---- ILIKE ---------------------------------------------------------------------------------

  predicate ILike(text: string, pattern: string) { Like(Lower(text), Lower(pattern)) }

  lemma LowerJoins(a: string, b: string)
    ensures Lower(a + b) == Lower(a) + Lower(b)
  {
  }

  lemma {:induction false} LowerEscapes(value: string)
    ensures Lower(EscapeLikePattern(value)) == EscapeLikePattern(Lower(value))
  {
    if value != "" {
      LowerEscapes(value[1..]);
      var first := if Special(value[0]) then ['\\', value[0]] else [value[0]];
      LowerJoins(first, EscapeLikePattern(value[1..]));
      assert Lower(value)[1..] == Lower(value[1..]);
    }
  }

  lemma ILikePatternsMatch(text: string, value: string)
    ensures ILike(text, PrefixPattern(value)) <==> Lower(value) <= Lower(text)
    ensures ILike(text, ContainsPattern(value)) <==> Contains(Lower(text), Lower(value))
  {
    LowerEscapes(value);
    LowerJoins(EscapeLikePattern(value), "%");
    LowerJoins("%", EscapeLikePattern(value) + "%");
    assert Lower("%") == "%";
    PrefixPatternMatches(Lower(text), Lower(value));
    ContainsPatternMatches(Lower(text), Lower(value));
  }

  // ---- expressions over numbered parameters ----------------------------------------------------

  datatype Value = Text(text: string) | Texts(texts: seq<string>)
  datatype Column = PathColumn | FilenameColumn

  /** `CASE WHEN column LIKE $param ESCAPE '\' THEN 1 ELSE 0 END`. */
  datatype Clause = Clause(column: Column, caseSensitive: bool, param: nat)

  /** The columns are `LOWER(f.path)` and its last segment. */
  function Basename(path: string): string {
    if path == "" || path[|path| - 1] == '/' then "" else Basename(path[..|path| - 1]) + [path[|path| - 1]]
  }

  /** The part behind the last slash, or all of it. */
  lemma {:induction false} BasenameMeans(path: string) returns (i: nat)
    ensures i <= |path| && Basename(path) == path[i..] && '/' !in path[i..] && (i == 0 || path[i - 1] == '/')
  {
    if path == "" || path[|path| - 1] == '/' {
      i := |path|;
    } else {
      i := BasenameMeans(path[..|path| - 1]);
      assert path[i..] == path[..|path| - 1][i..] + [path[|path| - 1]];
    }
  }

  function ColumnText(column: Column, path: string): string {
    match column
    case PathColumn => Lower(path)
    case FilenameColumn => Lower(Basename(path))
  }

  predicate Matches(text: string, pattern: string, caseSensitive: bool) {
    if caseSensitive then Like(text, pattern) else ILike(text, pattern)
  }

  predicate ClauseHolds(c: Clause, path: string, values: seq<Value>) {
    && 1 <= c.param <= |values| && values[c.param - 1].Text?
    && Matches(ColumnText(c.column, path), values[c.param - 1].text, c.caseSensitive)
  }

  /** The sum of the clauses. */
  function Hits(clauses: seq<Clause>, path: string, values: seq<Value>): nat {
    if clauses == [] then 0
    else
      Hits(clauses[..|clauses| - 1], path, values)
      + if ClauseHolds(clauses[|clauses| - 1], path, values) then 1 else 0
  }

  function MatchCount(patterns: seq<string>, text: string, caseSensitive: bool): nat {
    if patterns == [] then 0
    else
      MatchCount(patterns[..|patterns| - 1], text, caseSensitive)
      + if Matches(text, patterns[|patterns| - 1], caseSensitive) then 1 else 0
  }

  predicate ParamsWithin(clauses: seq<Clause>, n: nat) { forall i | 0 <= i < |clauses| :: 1 <= clauses[i].param <= n }

  /** Parameters pushed later do not disturb an expression built before. */
  lemma {:induction false} HitsAreStable(clauses: seq<Clause>, path: string, values: seq<Value>, more: seq<Value>)
    requires ParamsWithin(clauses, |values|)
    ensures Hits(clauses, path, values + more) == Hits(clauses, path, values)
  {
    if clauses != [] {
      HitsAreStable(clauses[..|clauses| - 1], path, values, more);
    }
  }

  /** The statement under construction: the list of its parameters grows as expressions are built. */
  class Statement {
    var values: seq<Value>

    constructor (projectId: string)
      ensures values == [Text(projectId)]
    {
      values := [Text(projectId)];
    }

    /** Whatever the row, the expression counts the patterns that match. */
    method BuildLikeHitsExpression(column: Column, patterns: seq<string>, caseSensitive: bool)
      returns (clauses: seq<Clause>)
      modifies this
      ensures old(values) <= values && ParamsWithin(clauses, |values|)
      ensures forall path ::
                Hits(clauses, path, values) == MatchCount(patterns, ColumnText(column, path), caseSensitive)
    {
      clauses := [];
      for i := 0 to |patterns|
        invariant old(values) <= values && ParamsWithin(clauses, |values|)
        invariant forall path ::
                    Hits(clauses, path, values) == MatchCount(patterns[..i], ColumnText(column, path), caseSensitive)
      {
        ghost var (was, before) := (clauses, values);
        assert patterns[..i + 1][..i] == patterns[..i];
        values := values + [Text(patterns[i])];
        clauses := clauses + [Clause(column, caseSensitive, |values|)];
        assert clauses[..|was|] == was;
        forall path
          ensures Hits(clauses, path, values) == MatchCount(patterns[..i + 1], ColumnText(column, path), caseSensitive)
        {
          HitsAreStable(was, path, before, [Text(patterns[i])]);
        }
      }
      assert patterns[..|patterns|] == patterns;
    }

    /** `CASE WHEN column = ANY($param) THEN 1 ELSE 0 END`, or 0 for an empty list. */
    method BuildAnyEqualsExpr(valuesToMatch: seq<string>) returns (param: Option<nat>)
      modifies this
      ensures old(values) <= values && (param.None? <==> valuesToMatch == [])
      ensures param.Some? ==> 1 <= param.value <= |values| && values[param.value - 1] == Texts(valuesToMatch)
    {
      if |valuesToMatch| == 0 {
        return None;
      }
      values := values + [Texts(valuesToMatch)];
      param := Some(|values|);
    }

    method BuildFileScore(tokens: seq<string>, pathHints: seq<string>, filenameHints: seq<string>)
      returns (e: ScoreExpr)
      modifies this
      ensures old(values) <= values
      ensures forall path :: EvalScore(e, path, values) == FileScore(path, tokens, pathHints, filenameHints)
    {
      var pathExact := BuildAnyEqualsExpr(pathHints);
      var filenameExact := BuildAnyEqualsExpr(filenameHints);
      ghost var v0 := values;
      var prefixes := BuildLikeHitsExpression(PathColumn, PrefixPatterns(pathHints), false);
      ghost var v1 := values;
      var pathTokens := BuildLikeHitsExpression(PathColumn, ContainsPatterns(tokens), false);
      ghost var v2 := values;
      var filenameTokens := BuildLikeHitsExpression(FilenameColumn, ContainsPatterns(tokens), false);
      e := ScoreExpr(pathExact, filenameExact, prefixes, pathTokens, filenameTokens);
      assert values == v1 + values[|v1|..] && values == v2 + values[|v2|..];
      forall path ensures EvalScore(e, path, values) == FileScore(path, tokens, pathHints, filenameHints) {
        HitsAreStable(prefixes, path, v1, values[|v1|..]);
        HitsAreStable(pathTokens, path, v2, values[|v2|..]);
        HitsAddUp(e, path, values, tokens, pathHints, filenameHints);
      }
    }
  }

  function PrefixPatterns(hints: seq<string>): (r: seq<string>)
    ensures |r| == |hints| && forall i | 0 <= i < |r| :: r[i] == PrefixPattern(hints[i])
  {
    seq(|hints|, i requires 0 <= i < |hints| => PrefixPattern(hints[i]))
  }

  function ContainsPatterns(tokens: seq<string>): (r: seq<string>)
    ensures |r| == |tokens| && forall i | 0 <= i < |r| :: r[i] == ContainsPattern(tokens[i])
  {
    seq(|tokens|, i requires 0 <= i < |tokens| => ContainsPattern(tokens[i]))
  }

  // ---- what the score means ------------------------------------------------------------------

  datatype ScoreExpr = ScoreExpr(
    pathExact: Option<nat>, filenameExact: Option<nat>, prefixes: seq<Clause>, pathTokens: seq<Clause>,
    filenameTokens: seq<Clause>)

  predicate EqualsAny(param: Option<nat>, text: string, values: seq<Value>) {
    param.Some? && 1 <= param.value <= |values| && values[param.value - 1].Texts?
      && text in values[param.value - 1].texts
  }

  function Bit(b: bool): nat { if b then 1 else 0 }

  function EvalScore(e: ScoreExpr, path: string, values: seq<Value>): nat {
    Bit(EqualsAny(e.pathExact, ColumnText(PathColumn, path), values)) * 600
    + Bit(EqualsAny(e.filenameExact, ColumnText(FilenameColumn, path), values)) * 420
    + Hits(e.prefixes, path, values) * 120 + Hits(e.filenameTokens, path, values) * 80
      + Hits(e.pathTokens, path, values) * 40
  }

  function PrefixesOf(hints: seq<string>, text: string): nat {
    if hints == [] then 0 else PrefixesOf(hints[..|hints| - 1], text) + Bit(Lower(hints[|hints| - 1]) <= text)
  }

  function Contained(tokens: seq<string>, text: string): nat {
    if tokens == [] then 0
    else Contained(tokens[..|tokens| - 1], text) + Bit(Contains(text, Lower(tokens[|tokens| - 1])))
  }

  /** The score in terms of the path: exact hits, hints that start it, tokens it contains. */
  function FileScore(path: string, tokens: seq<string>, pathHints: seq<string>, filenameHints: seq<string>): nat {
    var (full, name) := (Lower(path), Lower(Basename(path)));
    Bit(full in pathHints) * 600 + Bit(name in filenameHints) * 420
    + PrefixesOf(pathHints, full) * 120 + Contained(tokens, name) * 80 + Contained(tokens, full) * 40
  }

  /** The hits expression counts exactly the tokens contained, ones with %, _ or backslash included. */
  lemma {:induction false} CountContained(tokens: seq<string>, text: string)
    requires text == Lower(text)
    ensures MatchCount(ContainsPatterns(tokens), text, false) == Contained(tokens, text)
  {
    if tokens != [] {
      var before := tokens[..|tokens| - 1];
      CountContained(before, text);
      assert ContainsPatterns(tokens)[..|before|] == ContainsPatterns(before);
      ILikePatternsMatch(text, tokens[|tokens| - 1]);
    }
  }

  lemma {:induction false} CountPrefixes(hints: seq<string>, text: string)
    requires text == Lower(text)
    ensures MatchCount(PrefixPatterns(hints), text, false) == PrefixesOf(hints, text)
  {
    if hints != [] {
      var before := hints[..|hints| - 1];
      CountPrefixes(before, text);
      assert PrefixPatterns(hints)[..|before|] == PrefixPatterns(before);
      ILikePatternsMatch(text, hints[|hints| - 1]);
    }
  }

  /** The parameter, if there is one, holds the texts. */
  predicate Holds(param: Option<nat>, texts: seq<string>, values: seq<Value>) {
    if param.None? then texts == [] else 1 <= param.value <= |values| && values[param.value - 1] == Texts(texts)
  }

  lemma HitsAddUp(e: ScoreExpr, path: string, values: seq<Value>,
                  tokens: seq<string>, pathHints: seq<string>, filenameHints: seq<string>)
    requires Holds(e.pathExact, pathHints, values) && Holds(e.filenameExact, filenameHints, values)
    requires Hits(e.prefixes, path, values)
             == MatchCount(PrefixPatterns(pathHints), ColumnText(PathColumn, path), false)
    requires Hits(e.pathTokens, path, values)
             == MatchCount(ContainsPatterns(tokens), ColumnText(PathColumn, path), false)
    requires Hits(e.filenameTokens, path, values)
          == MatchCount(ContainsPatterns(tokens), ColumnText(FilenameColumn, path), false)
    ensures EvalScore(e, path, values) == FileScore(path, tokens, pathHints, filenameHints)
  {
    CountPrefixes(pathHints, Lower(path));
    CountContained(tokens, Lower(path));
    CountContained(tokens, Lower(Basename(path)));
  }

  /** What a single hint or token is worth: an exact path 600 points, an exact file name 420, the beginning of the
      path 120; a token 80 in the file name and 40 in the path. */
  lemma WorthOfOne(path: string, text: string)
    ensures var (full, name) := (Lower(path), Lower(Basename(path)));
            && FileScore(path, [], [text], [])
               == (if text == full then 600 else 0) + (if Lower(text) <= full then 120 else 0)
            && FileScore(path, [], [], [text]) == (if text == name then 420 else 0)
            && FileScore(path, [text], [], [])
               == (if Contains(name, Lower(text)) then 80 else 0) + (if Contains(full, Lower(text)) then 40 else 0)
  {
    var (full, name) := (Lower(path), Lower(Basename(path)));
    assert [text][..|[text]| - 1] == [];
    assert PrefixesOf([text], full) == Bit(Lower(text) <= full);
    assert Contained([text], full) == Bit(Contains(full, Lower(text)));
    assert Contained([text], name) == Bit(Contains(name, Lower(text)));
  }
}
