/** Sorting by a comparison, as the arrays of the source are sorted. */
module Sorting {
  ghost predicate Ordering<T(!new)>(le: (T, T) -> bool) {
    && (forall a, b :: le(a, b) || le(b, a))
    && (forall a, b, c :: le(a, b) && le(b, c) ==> le(a, c))
  }

  ghost predicate Sorted<T>(s: seq<T>, le: (T, T) -> bool) { forall i, j | 0 <= i < j < |s| :: le(s[i], s[j]) }

  /** Puts x behind everything that may stay before it. */
  function Insert<T>(s: seq<T>, x: T, le: (T, T) -> bool): seq<T> {
    if s == [] || le(s[|s| - 1], x) then s + [x] else Insert(s[..|s| - 1], x, le) + [s[|s| - 1]]
  }

  function Sort<T>(s: seq<T>, le: (T, T) -> bool): seq<T> {
    if s == [] then [] else Insert(Sort(s[..|s| - 1], le), s[|s| - 1], le)
  }

  lemma {:induction false} InsertKeepsMember<T>(s: seq<T>, x: T, le: (T, T) -> bool, y: T)
    ensures y in Insert(s, x, le) <==> y in s || y == x
  {
    if s != [] && !le(s[|s| - 1], x) {
      InsertKeepsMember(s[..|s| - 1], x, le, y);
      assert s == s[..|s| - 1] + [s[|s| - 1]];
    }
  }

  lemma {:induction false} SortKeepsMember<T>(s: seq<T>, le: (T, T) -> bool, y: T)
    ensures y in Sort(s, le) <==> y in s
  {
    if s != [] {
      SortKeepsMember(s[..|s| - 1], le, y);
      InsertKeepsMember(Sort(s[..|s| - 1], le), s[|s| - 1], le, y);
      assert s == s[..|s| - 1] + [s[|s| - 1]];
    }
  }

  ghost predicate Distinct<T, U>(s: seq<T>, f: T -> U) { forall i, j | 0 <= i < j < |s| :: f(s[i]) != f(s[j]) }

  lemma {:induction false} InsertKeepsDistinct<T, U>(s: seq<T>, x: T, le: (T, T) -> bool, f: T -> U)
    requires Distinct(s, f) && forall y | y in s :: f(y) != f(x)
    ensures Distinct(Insert(s, x, le), f)
  {
    if s != [] && !le(s[|s| - 1], x) {
      var before := s[..|s| - 1];
      InsertKeepsDistinct(before, x, le, f);
      assert s[|s| - 1] in s;
      forall y | y in Insert(before, x, le) ensures f(y) != f(s[|s| - 1]) {
        InsertKeepsMember(before, x, le, y);
        if y in before {
          var i :| 0 <= i < |before| && before[i] == y;
          assert f(s[i]) != f(s[|s| - 1]);
        }
      }
    }
  }

  /** Sorting keeps keys that were distinct. */
  lemma {:induction false} SortKeepsDistinct<T, U>(s: seq<T>, le: (T, T) -> bool, f: T -> U)
    requires Distinct(s, f)
    ensures Distinct(Sort(s, le), f)
  {
    if s != [] {
      var (before, last) := (s[..|s| - 1], s[|s| - 1]);
      SortKeepsDistinct(before, le, f);
      forall y | y in Sort(before, le) ensures f(y) != f(last) {
        SortKeepsMember(before, le, y);
        var i :| 0 <= i < |before| && before[i] == y;
        assert f(s[i]) != f(s[|s| - 1]);
      }
      InsertKeepsDistinct(Sort(before, le), last, le, f);
    }
  }

  lemma {:induction false} InsertSorts<T(!new)>(s: seq<T>, x: T, le: (T, T) -> bool)
    requires Ordering(le) && Sorted(s, le)
    ensures Sorted(Insert(s, x, le), le)
  {
    if s == [] || le(s[|s| - 1], x) {
      forall i | 0 <= i < |s| ensures le(s[i], x) {
        assert i < |s| - 1 ==> le(s[i], s[|s| - 1]);
      }
    } else {
      var before := s[..|s| - 1];
      InsertSorts(before, x, le);
      var (r, last) := (Insert(before, x, le), s[|s| - 1]);
      assert le(x, last);
      forall i | 0 <= i < |r| ensures le(r[i], last) {
        InsertKeepsMember(before, x, le, r[i]);
        if r[i] in before {
          var k :| 0 <= k < |before| && before[k] == r[i];
          assert le(s[k], s[|s| - 1]);
        }
      }
    }
  }

  lemma {:induction false} SortSorts<T(!new)>(s: seq<T>, le: (T, T) -> bool)
    requires Ordering(le)
    ensures Sorted(Sort(s, le), le)
  {
    if s != [] {
      SortSorts(s[..|s| - 1], le);
      InsertSorts(Sort(s[..|s| - 1], le), s[|s| - 1], le);
    }
  }

  function Images<T, U>(s: seq<T>, f: T -> U): (r: seq<U>)
    ensures |r| == |s| && forall i | 0 <= i < |s| :: r[i] == f(s[i])
  {
    if s == [] then [] else Images(s[..|s| - 1], f) + [f(s[|s| - 1])]
  }

  lemma {:induction false} InsertKeepsImages<T, U>(s: seq<T>, x: T, le: (T, T) -> bool, f: T -> U)
    ensures multiset(Images(Insert(s, x, le), f)) == multiset(Images(s, f)) + multiset{f(x)}
  {
    if s == [] || le(s[|s| - 1], x) {
      assert (s + [x])[..|s|] == s;
    } else {
      var (before, last) := (s[..|s| - 1], s[|s| - 1]);
      InsertKeepsImages(before, x, le, f);
      assert (Insert(before, x, le) + [last])[..|Insert(before, x, le)|] == Insert(before, x, le);
    }
  }

  /** Sorting only rearranges, so whatever is read off the elements is only rearranged too. */
  lemma {:induction false} SortKeepsImages<T, U>(s: seq<T>, le: (T, T) -> bool, f: T -> U)
    ensures multiset(Images(Sort(s, le), f)) == multiset(Images(s, f))
  {
    if s != [] {
      SortKeepsImages(s[..|s| - 1], le, f);
      InsertKeepsImages(Sort(s[..|s| - 1], le), s[|s| - 1], le, f);
    }
  }

  lemma {:induction false} InsertKeepsHead<T>(s: seq<T>, x: T, m: nat, le: (T, T) -> bool)
    requires m <= |s| && (m > 0 ==> le(s[m - 1], x))
    ensures |Insert(s, x, le)| == |s| + 1 && Insert(s, x, le)[..m] == s[..m]
    ensures forall y | y in Insert(s, x, le)[m..] :: y in s[m..] || y == x
  {
    if s != [] && !le(s[|s| - 1], x) {
      var (before, last) := (s[..|s| - 1], s[|s| - 1]);
      InsertKeepsHead(before, x, m, le);
      assert s[m..] == before[m..] + [last];
      assert Insert(s, x, le)[m..] == Insert(before, x, le)[m..] + [last];
    } else {
      assert (s + [x])[m..] == s[m..] + [x];
    }
  }

  lemma {:induction false} SortKeepsOrdered<T>(s: seq<T>, le: (T, T) -> bool)
    requires Sorted(s, le)
    ensures Sort(s, le) == s
  {
    if s != [] {
      var (before, last) := (s[..|s| - 1], s[|s| - 1]);
      SortKeepsOrdered(before, le);
      if before != [] {
        assert before[|before| - 1] == s[|before| - 1];
        assert le(before[|before| - 1], last);
      }
      assert Insert(before, last, le) == before + [last];
    }
  }

  /** What is already in order at the front stays there. */
  lemma {:induction false} SortKeepsHead<T>(s: seq<T>, m: nat, le: (T, T) -> bool)
    requires m <= |s| && forall i, j | 0 <= i < j < |s| && i < m :: le(s[i], s[j])
    ensures |Sort(s, le)| == |s| && Sort(s, le)[..m] == s[..m]
    ensures forall y | y in Sort(s, le)[m..] :: y in s[m..]
  {
    if m == |s| {
      SortKeepsOrdered(s, le);
    } else {
      var (before, last) := (s[..|s| - 1], s[|s| - 1]);
      SortKeepsHead(before, m, le);
      assert m > 0 ==> Sort(before, le)[m - 1] == Sort(before, le)[..m][m - 1] == s[m - 1];
      InsertKeepsHead(Sort(before, le), last, m, le);
      assert s[m..] == before[m..] + [last];
    }
  }

  /** Strings by their code units. */
  predicate StringLe(a: string, b: string) {
    a == [] || (b != [] && (a[0] < b[0] || (a[0] == b[0] && StringLe(a[1..], b[1..]))))
  }

  lemma {:induction false} StringsAreOrdered(a: string, b: string, c: string)
    ensures StringLe(a, b) || StringLe(b, a)
    ensures StringLe(a, b) && StringLe(b, a) ==> a == b
    ensures StringLe(a, b) && StringLe(b, c) ==> StringLe(a, c)
  {
    if a != [] && b != [] {
      StringsAreOrdered(a[1..], b[1..], if c == [] then [] else c[1..]);
      assert a == [a[0]] + a[1..] && b == [b[0]] + b[1..];
    }
  }

  /** Up to place k the strings agree, and there a has the smaller character. */
  predicate SmallerAt(a: string, b: string, k: nat) { k < |a| && k < |b| && a[..k] == b[..k] && a[k] < b[k] }

  lemma SmallerBehind(a: string, b: string, k: nat)
    requires a != [] && b != [] && a[0] == b[0]
    ensures SmallerAt(a, b, k + 1) <==> SmallerAt(a[1..], b[1..], k)
  {
    if k < |a| - 1 && k < |b| - 1 {
      assert a[..k + 1] == [a[0]] + a[1..][..k] && b[..k + 1] == [b[0]] + b[1..][..k];
    }
  }

  /** The order in plain words: a starts b, or the first place at which they differ has the smaller character in a. */
  lemma {:induction false} StringLeMeans(a: string, b: string)
    ensures StringLe(a, b) <==> a <= b || exists k: nat :: SmallerAt(a, b, k)
  {
    if a != [] && b != [] && a[0] == b[0] {
      StringLeMeans(a[1..], b[1..]);
      assert a == [a[0]] + a[1..] && b == [b[0]] + b[1..];
      if k: nat :| SmallerAt(a, b, k) {
        SmallerBehind(a, b, k - 1);
      }
      if k: nat :| SmallerAt(a[1..], b[1..], k) {
        SmallerBehind(a, b, k);
      }
    } else if a != [] && b != [] {
      assert SmallerAt(a, b, 0) <==> a[0] < b[0];
      assert forall k: nat | k > 0 && SmallerAt(a, b, k) :: a[..k][0] == b[..k][0];
    }
  }
}
