/**
 * Sequence operations the planner script borrows from JavaScript's Array:
 * `filter`, `find` and a stable `sort` driven by a comparator that returns
 * a number whose sign orders two elements.
 */
module Seqs {
  import opened Wrappers

  /** `r` is `s` with some elements left out, the rest in their original order. */
  predicate IsSubsequence<T(==)>(r: seq<T>, s: seq<T>)
    decreases |s|
  {
    if r == [] then true
    else if s == [] then false
    else if r[0] == s[0] then IsSubsequence(r[1..], s[1..])
    else IsSubsequence(r, s[1..])
  }

  /** Array.prototype.filter: the elements satisfying `p`, in order. */
  function Filter<T(==, !new)>(s: seq<T>, p: T -> bool): (r: seq<T>)
    ensures forall i :: 0 <= i < |r| ==> p(r[i])
    ensures forall x :: multiset(r)[x] == if p(x) then multiset(s)[x] else 0
    ensures IsSubsequence(r, s)
  {
    if s == [] then []
    else
      var rest := Filter(s[1..], p);
      assert s == [s[0]] + s[1..];
      if p(s[0]) then [s[0]] + rest else rest
  }

  /** Array.prototype.find, returning the index of the first match. */
  function FindIndex<T>(s: seq<T>, p: T -> bool): (r: Option<nat>)
    ensures r.None? <==> forall i :: 0 <= i < |s| ==> !p(s[i])
    ensures r.Some? ==> r.value < |s| && p(s[r.value]) && forall j :: 0 <= j < r.value ==> !p(s[j])
  {
    if s == [] then None
    else if p(s[0]) then Some(0)
    else match FindIndex(s[1..], p) {
      case None => None
      case Some(i) => Some(i + 1)
    }
  }

  /** No two elements of `s` share a key. */
  ghost predicate DistinctBy<T, K>(s: seq<T>, key: T -> K) {
    forall i, j :: 0 <= i < j < |s| ==> key(s[i]) != key(s[j])
  }

  lemma {:induction false} SubsequenceKeepsDistinct<T, K>(r: seq<T>, s: seq<T>, key: T -> K)
    requires IsSubsequence(r, s) && DistinctBy(s, key)
    ensures DistinctBy(r, key)
    ensures forall x :: x in r ==> x in s
    decreases |s|
  {
    if r == [] {
    } else if s == [] {
    } else if r[0] == s[0] {
      SubsequenceKeepsDistinct(r[1..], s[1..], key);
      forall j | 0 < j < |r| ensures key(r[0]) != key(r[j]) {
        assert r[j] in r[1..];
        var k :| 0 <= k < |s[1..]| && s[1..][k] == r[j];
        assert s[k + 1] == r[j];
      }
      forall i, j | 0 <= i < j < |r| ensures key(r[i]) != key(r[j]) {
        if i > 0 { assert r[i] == r[1..][i - 1] && r[j] == r[1..][j - 1]; }
      }
      forall x | x in r ensures x in s {
        if x != r[0] { assert x in r[1..]; }
      }
    } else {
      SubsequenceKeepsDistinct(r, s[1..], key);
      forall x | x in r ensures x in s {
        assert x in s[1..];
      }
    }
  }

  /**
   * A comparator in the sense of Array.prototype.sort is consistent when
   * "not after" (`cmp(a, b) <= 0`) is a total preorder.
   */
  ghost predicate IsConsistentComparator<T(!new)>(cmp: (T, T) -> int) {
    && (forall a, b :: cmp(a, b) <= 0 || cmp(b, a) <= 0)
    && (forall a, b, c :: cmp(a, b) <= 0 && cmp(b, c) <= 0 ==> cmp(a, c) <= 0)
  }

  ghost predicate SortedBy<T>(s: seq<T>, cmp: (T, T) -> int) {
    forall i, j :: 0 <= i < j < |s| ==> cmp(s[i], s[j]) <= 0
  }

  /** Inserts `x` in front of the first element it does not come after. */
  function Insert<T(!new)>(x: T, s: seq<T>, cmp: (T, T) -> int): (r: seq<T>)
    requires IsConsistentComparator(cmp) && SortedBy(s, cmp)
    ensures SortedBy(r, cmp)
    ensures multiset(r) == multiset(s) + multiset{x}
  {
    if s == [] || cmp(x, s[0]) <= 0 then
      InsertFront(x, s, cmp);
      [x] + s
    else
      assert SortedBy(s[1..], cmp);
      var rest := Insert(x, s[1..], cmp);
      InsertBehind(x, s, rest, cmp);
      [s[0]] + rest
  }

  lemma InsertFront<T(!new)>(x: T, s: seq<T>, cmp: (T, T) -> int)
    requires IsConsistentComparator(cmp) && SortedBy(s, cmp)
    requires s == [] || cmp(x, s[0]) <= 0
    ensures SortedBy([x] + s, cmp)
  {
    var r := [x] + s;
    forall i, j | 0 <= i < j < |r| ensures cmp(r[i], r[j]) <= 0 {
      if i == 0 && j > 1 {
        assert cmp(x, s[0]) <= 0 && cmp(s[0], s[j - 1]) <= 0;
      }
    }
  }

  lemma InsertBehind<T(!new)>(x: T, s: seq<T>, rest: seq<T>, cmp: (T, T) -> int)
    requires IsConsistentComparator(cmp) && SortedBy(s, cmp)
    requires s != [] && cmp(x, s[0]) > 0
    requires SortedBy(rest, cmp) && multiset(rest) == multiset(s[1..]) + multiset{x}
    ensures SortedBy([s[0]] + rest, cmp)
    ensures multiset([s[0]] + rest) == multiset(s) + multiset{x}
  {
    assert s == [s[0]] + s[1..];
    var r := [s[0]] + rest;
    forall i, j | 0 <= i < j < |r| ensures cmp(r[i], r[j]) <= 0 {
      if i == 0 {
        var y := rest[j - 1];
        assert y in multiset(rest);
        if y != x {
          assert y in multiset(s[1..]);
          var k :| 0 <= k < |s[1..]| && s[1..][k] == y;
          assert s[k + 1] == y;
        }
      } else {
        assert r[i] == rest[i - 1] && r[j] == rest[j - 1];
      }
    }
  }

  /**
   * A stable sort: each element is inserted in front of the equal ones that
   * follow it in the input, so equal elements keep their input order, as
   * JavaScript's Array.prototype.sort guarantees.
   */
  function SortBy<T(!new)>(s: seq<T>, cmp: (T, T) -> int): (r: seq<T>)
    requires IsConsistentComparator(cmp)
    ensures SortedBy(r, cmp)
    ensures multiset(r) == multiset(s)
  {
    if s == [] then []
    else
      assert s == [s[0]] + s[1..];
      Insert(s[0], SortBy(s[1..], cmp), cmp)
  }

  /** The conjunction of two predicates. */
  function Both<T>(p: T -> bool, q: T -> bool): T -> bool {
    x => p(x) && q(x)
  }

  /** Composing filters is filtering by the conjunction (the filter chain of the task list). */
  lemma {:induction false} FilterFilter<T(!new)>(s: seq<T>, p: T -> bool, q: T -> bool)
    ensures Filter(Filter(s, p), q) == Filter(s, Both(p, q))
  {
    if s != [] {
      FilterFilter(s[1..], p, q);
      var rest := Filter(s[1..], p);
      if p(s[0]) {
        assert Filter(s, p) == [s[0]] + rest;
        assert ([s[0]] + rest)[1..] == rest;
      }
    }
  }

  /** Filtering depends only on which elements the predicate keeps. */
  lemma {:induction false} FilterSamePredicate<T(!new)>(s: seq<T>, p: T -> bool, q: T -> bool)
    requires forall x :: p(x) == q(x)
    ensures Filter(s, p) == Filter(s, q)
  {
    if s != [] {
      FilterSamePredicate(s[1..], p, q);
    }
  }

  /** A filter that keeps everything is the identity (a skipped filter step). */
  lemma {:induction false} FilterKeepingAll<T(!new)>(s: seq<T>, p: T -> bool)
    requires forall x :: p(x)
    ensures Filter(s, p) == s
  {
    if s != [] {
      FilterKeepingAll(s[1..], p);
      assert s == [s[0]] + s[1..];
    }
  }
}
