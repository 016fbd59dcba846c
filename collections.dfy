/** Row selections shared by the table operations: a boolean mask applied to
    a table (`df[mask]`, a SQL `WHERE`), a sort by a "goes before" relation
    (`sort_values`, `ORDER BY`) and pandas' `head(n)`. */
module Collections {

  // ---------------------------------------------------------------------
  // Masks
  // ---------------------------------------------------------------------

  /** `a` can be obtained from `b` by deleting elements: `a` keeps the order
      in which its elements appear in `b`. */
  predicate IsSubsequence<T(==)>(a: seq<T>, b: seq<T>) {
    if a == [] then true
    else if b == [] then false
    else if a[0] == b[0] then IsSubsequence(a[1..], b[1..])
    else IsSubsequence(a, b[1..])
  }

  /** The rows of `s` for which `keep` holds, in their original order. */
  function Select<T>(s: seq<T>, keep: T -> bool): (r: seq<T>)
    ensures |r| <= |s|
    ensures forall x :: x in r ==> x in s && keep(x)
  {
    if s == [] then []
    else if keep(s[0]) then [s[0]] + Select(s[1..], keep)
    else Select(s[1..], keep)
  }

  /** A selection keeps the order of the input, and every row appears in it
      exactly as often as in the input when it is kept, and not at all
      otherwise: a row matched for two reasons is still listed once. */
  lemma {:induction false} SelectIsSubsequence<T>(s: seq<T>, keep: T -> bool)
    ensures IsSubsequence(Select(s, keep), s)
    ensures forall x :: multiset(Select(s, keep))[x] == if keep(x) then multiset(s)[x] else 0
  {
    if s != [] {
      SelectIsSubsequence(s[1..], keep);
      assert s == [s[0]] + s[1..];
      if keep(s[0]) {
        assert Select(s, keep)[1..] == Select(s[1..], keep);
      }
    }
  }

  /** Masks that agree on every row select the same rows. */
  lemma {:induction false} SelectExtensional<T>(s: seq<T>, p: T -> bool, q: T -> bool)
    requires forall x :: x in s ==> p(x) == q(x)
    ensures Select(s, p) == Select(s, q)
  {
    if s != [] {
      SelectExtensional(s[1..], p, q);
    }
  }

  /** When the mask holds of every row, the selection is the whole input
      (pandas' `df.copy()`). */
  lemma {:induction false} SelectAll<T>(s: seq<T>, keep: T -> bool)
    requires forall x :: x in s ==> keep(x)
    ensures Select(s, keep) == s
  {
    if s != [] {
      SelectAll(s[1..], keep);
    }
  }

  // ---------------------------------------------------------------------
  // Sorting
  // ---------------------------------------------------------------------

  /** `before` orders every pair and is transitive: ties are allowed. */
  ghost predicate TotalPreorder<T(!new)>(before: (T, T) -> bool) {
    && (forall a, b :: before(a, b) || before(b, a))
    && (forall a, b, c :: before(a, b) && before(b, c) ==> before(a, c))
  }

  predicate SortedBy<T>(s: seq<T>, before: (T, T) -> bool) {
    forall i, j :: 0 <= i < j < |s| ==> before(s[i], s[j])
  }

  /** Puts `x` in front of the first element it goes before. */
  function Insert<T>(x: T, s: seq<T>, before: (T, T) -> bool): (r: seq<T>)
    ensures multiset(r) == multiset(s) + multiset{x}
    ensures |r| == |s| + 1
  {
    if s == [] || before(x, s[0]) then [x] + s
    else
      assert s == [s[0]] + s[1..];
      [s[0]] + Insert(x, s[1..], before)
  }

  /** An insertion sort; the order of rows that tie is this one's choice. */
  function SortBy<T>(s: seq<T>, before: (T, T) -> bool): (r: seq<T>)
    ensures multiset(r) == multiset(s)
    ensures |r| == |s|
  {
    if s == [] then []
    else
      assert s == [s[0]] + s[1..];
      Insert(s[0], SortBy(s[1..], before), before)
  }

  lemma {:induction false} InsertSorted<T(!new)>(x: T, s: seq<T>, before: (T, T) -> bool)
    requires TotalPreorder(before)
    requires SortedBy(s, before)
    ensures SortedBy(Insert(x, s, before), before)
  {
    if s != [] && !before(x, s[0]) {
      var t := s[1..];
      InsertSorted(x, t, before);
      var r := Insert(x, t, before);
      assert before(s[0], x);
      forall y | y in r ensures before(s[0], y) {
        assert y in multiset(r);
        if y != x {
          assert y in multiset(t);
          var k :| 0 <= k < |t| && t[k] == y;
          assert t[k] == s[k + 1];
        }
      }
      assert Insert(x, s, before) == [s[0]] + r;
    }
  }

  /** `SortBy` really sorts, and (by its contract) only rearranges. */
  lemma {:induction false} SortBySorts<T(!new)>(s: seq<T>, before: (T, T) -> bool)
    requires TotalPreorder(before)
    ensures SortedBy(SortBy(s, before), before)
  {
    if s != [] {
      SortBySorts(s[1..], before);
      InsertSorted(s[0], SortBy(s[1..], before), before);
    }
  }

  /** The first `k` elements of a sorted sequence are sorted, and each of
      them goes before every element left out. */
  lemma HeadOfSortedIsTop<T>(s: seq<T>, k: nat, before: (T, T) -> bool)
    requires SortedBy(s, before) && k <= |s|
    ensures SortedBy(s[..k], before)
    ensures multiset(s[..k]) <= multiset(s)
    ensures forall x, y :: x in s[..k] && multiset(s[..k])[y] < multiset(s)[y] ==> before(x, y)
  {
    var top := s[..k];
    assert s == top + s[k..];
    assert multiset(s) == multiset(top) + multiset(s[k..]);
    forall x, y | x in top && multiset(top)[y] < multiset(s)[y]
      ensures before(x, y)
    {
      var i :| 0 <= i < k && top[i] == x;
      assert y in multiset(s[k..]);
      assert y in s[k..];
      var j :| 0 <= j < |s| - k && s[k..][j] == y;
      assert s[k + j] == y && s[i] == x;
    }
  }

  // ---------------------------------------------------------------------
  // Concatenation of pieces
  // ---------------------------------------------------------------------

  /** The pieces `f(x)` of the elements of `s`, concatenated in order. */
  function ConcatMap<T, U>(f: T -> seq<U>, s: seq<T>): seq<U> {
    if s == [] then [] else ConcatMap(f, s[..|s| - 1]) + f(s[|s| - 1])
  }

  lemma {:induction false} ConcatMapAppend<T, U>(f: T -> seq<U>, a: seq<T>, b: seq<T>)
    ensures ConcatMap(f, a + b) == ConcatMap(f, a) + ConcatMap(f, b)
    decreases |b|
  {
    if b == [] {
      assert a + b == a;
    } else {
      var init, last := b[..|b| - 1], b[|b| - 1];
      ConcatMapAppend(f, a, init);
      var ab := a + b;
      assert ab[..|ab| - 1] == a + init && ab[|ab| - 1] == last;
      calc {
        ConcatMap(f, ab);
        ConcatMap(f, a + init) + f(last);
        (ConcatMap(f, a) + ConcatMap(f, init)) + f(last);
        { AssocOf(ConcatMap(f, a), ConcatMap(f, init), f(last)); }
        ConcatMap(f, a) + (ConcatMap(f, init) + f(last));
      }
    }
  }

  lemma AssocOf<U>(x: seq<U>, y: seq<U>, z: seq<U>)
    ensures (x + y) + z == x + (y + z)
  {
  }

  // ---------------------------------------------------------------------
  // pandas' head(n)
  // ---------------------------------------------------------------------

  /** How many rows `head(n)` keeps: the first `n`, or for a negative `n` all
      but the last `-n`. */
  function HeadCount(len: nat, n: int): (k: nat)
    ensures k <= len
  {
    if n >= 0 then (if n < len then n else len)
    else if len + n > 0 then len + n else 0
  }

  function Head<T>(s: seq<T>, n: int): seq<T> {
    s[..HeadCount(|s|, n)]
  }
}
