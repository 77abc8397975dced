/** Types shared by every part of the model. */
module Prelude {
  datatype Option<+T> = None | Some(value: T)

  /** A primary key: the source draws them with `randomUUID`. */
  type Id = string

  /** A SHA-256 value, by the text it is taken of: equal digests mean equal contents. */
  datatype Digest = Sha256(text: string)

  /** Lower case, for the ASCII letters. */
  function LowerChar(c: char): char { if 'A' <= c <= 'Z' then (c as int + 32) as char else c }

  function Lower(s: string): (r: string)
    ensures |r| == |s|
  {
    seq(|s|, i requires 0 <= i < |s| => LowerChar(s[i]))
  }

  // ---- trimming --------------------------------------------------------------------------------

  function TrimStart(s: string, space: char -> bool): string {
    if s != "" && space(s[0]) then TrimStart(s[1..], space) else s
  }

  function TrimEnd(s: string, space: char -> bool): string {
    if s != "" && space(s[|s| - 1]) then TrimEnd(s[..|s| - 1], space) else s
  }

  function Trim(s: string, space: char -> bool): string { TrimEnd(TrimStart(s, space), space) }

  ghost predicate AllSpace(s: string, space: char -> bool) { forall i | 0 <= i < |s| :: space(s[i]) }

  lemma {:induction false} TrimStartMeans(s: string, space: char -> bool) returns (before: string)
    ensures s == before + TrimStart(s, space) && AllSpace(before, space)
    ensures TrimStart(s, space) != "" ==> !space(TrimStart(s, space)[0])
  {
    if s != "" && space(s[0]) {
      before := TrimStartMeans(s[1..], space);
      before := [s[0]] + before;
      assert s == [s[0]] + s[1..];
    } else {
      before := "";
    }
  }

  lemma {:induction false} TrimEndMeans(s: string, space: char -> bool) returns (after: string)
    ensures s == TrimEnd(s, space) + after && AllSpace(after, space)
    ensures TrimEnd(s, space) != "" ==> !space(TrimEnd(s, space)[|TrimEnd(s, space)| - 1])
  {
    if s != "" && space(s[|s| - 1]) {
      after := TrimEndMeans(s[..|s| - 1], space);
      after := after + [s[|s| - 1]];
      assert s == s[..|s| - 1] + [s[|s| - 1]];
    } else {
      after := "";
    }
  }

  /** What is left of a string without the spaces around it. */
  lemma TrimMeans(s: string, space: char -> bool) returns (before: string, after: string)
    ensures var t := Trim(s, space);
            && s == before + t + after && AllSpace(before, space) && AllSpace(after, space)
            && (t != "" ==> !space(t[0]) && !space(t[|t| - 1]))
            && (t == "" <==> AllSpace(s, space))
  {
    before := TrimStartMeans(s, space);
    var t := TrimStart(s, space);
    after := TrimEndMeans(t, space);
    if Trim(s, space) != "" {
      assert t[0] == Trim(s, space)[0] && s[|before|] == t[0];
    }
  }
}
