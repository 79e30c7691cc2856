/** Order-preserving filtering and sorting by an integer key — the `filter`,
    `sort` and `.order(...)` steps the dashboards apply to lists of entries. */
module SeqUtil {

  predicate SortedBy<T>(s: seq<T>, key: T -> int) {
    forall i, j :: 0 <= i < j < |s| ==> key(s[i]) <= key(s[j])
  }

  /** The elements of `s` that satisfy `p`, in their order in `s`
      (`FilterAppend`), each as many times as in `s` (`FilterCounts`). */
  function Filter<T(!new)>(s: seq<T>, p: T -> bool): (r: seq<T>)
    ensures |r| <= |s|
    ensures forall x :: x in r <==> x in s && p(x)
  {
    if s == [] then []
    else (if p(s[0]) then [s[0]] else []) + Filter(s[1..], p)
  }

  /** Filtering keeps each element that satisfies `p` as many times as it occurs,
      and no other. */
  lemma {:induction false} FilterCounts<T(!new)>(s: seq<T>, p: T -> bool)
    ensures forall x :: multiset(Filter(s, p))[x] == if p(x) then multiset(s)[x] else 0
  {
    if s != [] {
      HeadAndTail(s);
      FilterCounts(s[1..], p);
    }
  }

  /** Filtering commutes with concatenation, so it keeps the elements' order. */
  lemma {:induction false} FilterAppend<T(!new)>(s: seq<T>, t: seq<T>, p: T -> bool)
    ensures Filter(s + t, p) == Filter(s, p) + Filter(t, p)
  {
    if s == [] {
      assert s + t == t;
    } else {
      assert s + t == [s[0]] + (s[1..] + t);
      FilterCons(s[0], s[1..] + t, p);
      FilterAppend(s[1..], t, p);
      assert s == [s[0]] + s[1..];
      FilterCons(s[0], s[1..], p);
    }
  }

  /** Filtering a sequence with one more element in front. */
  lemma FilterCons<T(!new)>(x: T, s: seq<T>, p: T -> bool)
    ensures Filter([x] + s, p) == (if p(x) then [x] else []) + Filter(s, p)
  {
    var u := [x] + s;
    assert u[0] == x && u[1..] == s;
  }

  /** Filtering a one-element sequence keeps the element exactly when it satisfies `p`. */
  lemma FilterOne<T(!new)>(x: T, p: T -> bool)
    ensures Filter([x], p) == if p(x) then [x] else []
  {
    assert [x][1..] == [];
  }

  /** Filtering keeps the relative order, so it keeps a sorted sequence sorted. */
  lemma {:induction false} FilterKeepsSorted<T(!new)>(s: seq<T>, p: T -> bool, key: T -> int)
    ensures SortedBy(s, key) ==> SortedBy(Filter(s, p), key)
  {
    if s != [] && SortedBy(s, key) {
      SortedTail(s, key);
      FilterKeepsSorted(s[1..], p, key);
      if p(s[0]) {
        SortedHeadIsLeast(s, key);
        var rest := Filter(s[1..], p);
        assert forall y :: y in rest ==> y in s;
        ConsKeepsSorted(s[0], rest, key);
      }
    }
  }

  lemma SortedTail<T>(s: seq<T>, key: T -> int)
    requires s != [] && SortedBy(s, key)
    ensures SortedBy(s[1..], key)
  {
    forall i, j | 0 <= i < j < |s[1..]| ensures key(s[1..][i]) <= key(s[1..][j]) {
      assert s[1..][i] == s[i + 1] && s[1..][j] == s[j + 1];
    }
  }

  /** Filtering a sequence with one more element at the end. */
  lemma FilterSnoc<T(!new)>(s: seq<T>, x: T, p: T -> bool)
    ensures Filter(s + [x], p) == Filter(s, p) + (if p(x) then [x] else [])
  {
    FilterAppend(s, [x], p);
    FilterOne(x, p);
  }

  /** Filtering by a predicate no element satisfies leaves nothing. */
  lemma {:induction false} FilterNone<T(!new)>(s: seq<T>, p: T -> bool)
    requires forall x :: x in s ==> !p(x)
    ensures Filter(s, p) == []
  {
    if s != [] {
      assert s[0] in s;
      assert forall x :: x in s[1..] ==> x in s;
      FilterNone(s[1..], p);
    }
  }

  /** In a sorted sequence the first element has the smallest key. */
  lemma SortedHeadIsLeast<T>(s: seq<T>, key: T -> int)
    requires s != [] && SortedBy(s, key)
    ensures forall y :: y in s ==> key(s[0]) <= key(y)
  {
    forall y | y in s ensures key(s[0]) <= key(y) {
      var k :| 0 <= k < |s| && s[k] == y;
    }
  }

  /** Putting an element no larger than any other in front keeps a sequence sorted. */
  lemma ConsKeepsSorted<T>(h: T, t: seq<T>, key: T -> int)
    requires SortedBy(t, key)
    requires forall y :: y in t ==> key(h) <= key(y)
    ensures SortedBy([h] + t, key)
  {
    var r := [h] + t;
    forall i, j | 0 <= i < j < |r| ensures key(r[i]) <= key(r[j]) {
      assert r[j] == t[j - 1];
      if i > 0 { assert r[i] == t[i - 1]; }
    }
  }

  /** Inserts `x` into a sorted sequence before the first element whose key is not
      smaller than its own. */
  function Insert<T(!new)>(x: T, s: seq<T>, key: T -> int): (r: seq<T>)
    requires SortedBy(s, key)
    ensures SortedBy(r, key)
    ensures multiset(r) == multiset(s) + multiset{x}
  {
    if s == [] then [x]
    else if key(x) <= key(s[0]) then
      SortedHeadIsLeast(s, key);
      ConsKeepsSorted(x, s, key);
      [x] + s
    else
      SortedHeadIsLeast(s, key);
      SortedTail(s, key);
      var tail := Insert(x, s[1..], key);
      InsertKeepsLowerBound(s[0], x, s[1..], tail, key);
      ConsKeepsSorted(s[0], tail, key);
      HeadAndTail(s);
      [s[0]] + tail
  }

  /** A lower bound of `x` and of every element of `t` bounds every sequence
      holding the elements of `t` and `x`, such as `Insert(x, t, key)`. */
  lemma InsertKeepsLowerBound<T>(h: T, x: T, t: seq<T>, r: seq<T>, key: T -> int)
    requires multiset(r) == multiset(t) + multiset{x}
    requires key(h) <= key(x) && forall y :: y in t ==> key(h) <= key(y)
    ensures forall y :: y in r ==> key(h) <= key(y)
  {
    forall y | y in r ensures key(h) <= key(y) {
      assert y in multiset(r);
      assert y == x || y in multiset(t);
    }
  }

  /** Sequences with the same multiset have the same members. */
  lemma SameMultisetSameMembers<T>(a: seq<T>, b: seq<T>)
    requires multiset(a) == multiset(b)
    ensures forall x :: x in a <==> x in b
  {
    forall x ensures x in a <==> x in b {
      assert x in a <==> x in multiset(a);
      assert x in b <==> x in multiset(b);
    }
  }

  /** An insertion sort by ascending key: the result is sorted and is a
      permutation of the input. */
  function SortBy<T(!new)>(s: seq<T>, key: T -> int): (r: seq<T>)
    ensures SortedBy(r, key)
    ensures multiset(r) == multiset(s)
    ensures |r| == |s|
    ensures forall x :: x in r <==> x in s
  {
    if s == [] then []
    else
      var t := SortBy(s[1..], key);
      var r := Insert(s[0], t, key);
      HeadAndTail(s);
      SameMultisetSameMembers(r, s);
      r
  }

  lemma HeadAndTail<T>(s: seq<T>)
    requires s != []
    ensures multiset(s) == multiset(s[1..]) + multiset{s[0]}
  {
    assert s == [s[0]] + s[1..];
  }
}
