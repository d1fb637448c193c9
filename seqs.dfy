/** Sequence operations behind the SQL queries and the page's loops:
    filtering (`WHERE`), summing (`SUM`, `+=` in a loop) and ordering
    (`ORDER BY`, JavaScript's `sort`). The ordering is one insertion sort
    parameterised by a "comes no later than" relation; what a caller may
    rely on is stated by the lemmas: the result is a permutation of the
    input, it is sorted when the relation is a total preorder, it keeps
    distinct keys distinct, and two relations that agree on the input give
    the same result. */
module Seqs {

  // ---------------------------------------------------------------------
  // Filter and Sum

  /** The elements of `s` satisfying `p`, in order. */
  function Filter<T>(s: seq<T>, p: T -> bool): (r: seq<T>)
    ensures |r| <= |s|
    ensures forall i :: 0 <= i < |r| ==> r[i] in s && p(r[i])
    ensures forall i :: 0 <= i < |s| && p(s[i]) ==> s[i] in r
  {
    if s == [] then []
    else
      var r := (if p(s[0]) then [s[0]] else []) + Filter(s[1..], p);
      assert s == [s[0]] + s[1..];
      r
  }

  function Sum<T>(s: seq<T>, f: T -> real): real
  {
    if s == [] then 0.0 else f(s[0]) + Sum(s[1..], f)
  }

  lemma {:induction false} FilterAppend<T>(s: seq<T>, t: seq<T>, p: T -> bool)
    ensures Filter(s + t, p) == Filter(s, p) + Filter(t, p)
  {
    if s != [] {
      assert (s + t)[1..] == s[1..] + t;
      FilterAppend(s[1..], t, p);
    } else {
      assert s + t == t;
    }
  }

  lemma {:induction false} SumAppend<T>(s: seq<T>, t: seq<T>, f: T -> real)
    ensures Sum(s + t, f) == Sum(s, f) + Sum(t, f)
  {
    if s != [] {
      assert (s + t)[1..] == s[1..] + t;
      SumAppend(s[1..], t, f);
    } else {
      assert s + t == t;
    }
  }

  /** Adding one element at the end adds its value to the sum. */
  lemma SumSnoc<T>(s: seq<T>, x: T, f: T -> real)
    ensures Sum(s + [x], f) == Sum(s, f) + f(x)
  {
    SumAppend(s, [x], f);
  }

  /** Filtering one more element at the end. */
  lemma FilterSnoc<T>(s: seq<T>, x: T, p: T -> bool)
    ensures Filter(s + [x], p) == Filter(s, p) + (if p(x) then [x] else [])
  {
    FilterAppend(s, [x], p);
  }

  lemma {:induction false} FilterAgree<T>(s: seq<T>, p1: T -> bool, p2: T -> bool)
    requires forall x :: x in s ==> p1(x) == p2(x)
    ensures Filter(s, p1) == Filter(s, p2)
  {
    if s != [] {
      FilterAgree(s[1..], p1, p2);
    }
  }

  lemma {:induction false} FilterAll<T>(s: seq<T>, p: T -> bool)
    requires forall x :: x in s ==> p(x)
    ensures Filter(s, p) == s
  {
    if s != [] {
      FilterAll(s[1..], p);
      assert s == [s[0]] + s[1..];
    }
  }

  /** Dropping the first element keeps the keys distinct, and no later
      element shares the first one's key. */
  lemma DistinctKeysTail<T, K>(s: seq<T>, key: T -> K)
    requires s != [] && DistinctKeys(s, key)
    ensures DistinctKeys(s[1..], key)
    ensures forall y :: y in s[1..] ==> key(y) != key(s[0])
  {
    var tail := s[1..];
    forall i, j | 0 <= i < j < |tail|
      ensures key(tail[i]) != key(tail[j])
    {
      assert tail[i] == s[i + 1] && tail[j] == s[j + 1];
    }
    forall y | y in tail
      ensures key(y) != key(s[0])
    {
      var k :| 0 <= k < |tail| && tail[k] == y;
      assert s[k + 1] == y;
    }
  }

  /** An element whose key no element of `s` has can be put in front. */
  lemma DistinctKeysCons<T, K>(x: T, s: seq<T>, key: T -> K)
    requires DistinctKeys(s, key)
    requires forall y :: y in s ==> key(y) != key(x)
    ensures DistinctKeys([x] + s, key)
  {
    var r := [x] + s;
    forall i, j | 0 <= i < j < |r|
      ensures key(r[i]) != key(r[j])
    {
      assert r[j] == s[j - 1] && r[j] in s;
      if i > 0 {
        assert r[i] == s[i - 1];
      }
    }
  }

  lemma {:induction false} FilterDistinctKeys<T, K>(s: seq<T>, p: T -> bool, key: T -> K)
    requires DistinctKeys(s, key)
    ensures DistinctKeys(Filter(s, p), key)
  {
    if s != [] {
      DistinctKeysTail(s, key);
      var tail := Filter(s[1..], p);
      FilterDistinctKeys(s[1..], p, key);
      if p(s[0]) {
        forall y | y in tail
          ensures key(y) != key(s[0])
        {
          var k :| 0 <= k < |tail| && tail[k] == y;
        }
        DistinctKeysCons(s[0], tail, key);
      }
    }
  }

  // ---------------------------------------------------------------------
  // Sorting

  ghost predicate Sorted<T>(s: seq<T>, le: (T, T) -> bool) {
    forall i, j :: 0 <= i < j < |s| ==> le(s[i], s[j])
  }

  ghost predicate TotalPreorder<T(!new)>(le: (T, T) -> bool) {
    && (forall a, b :: le(a, b) || le(b, a))
    && (forall a, b, c :: le(a, b) && le(b, c) ==> le(a, c))
  }

  /** No two elements of `s` share a key. */
  ghost predicate DistinctKeys<T, K>(s: seq<T>, key: T -> K) {
    forall i, j :: 0 <= i < j < |s| ==> key(s[i]) != key(s[j])
  }

  /** Puts `x` just before the first element it comes no later than. */
  function Insert<T>(x: T, s: seq<T>, le: (T, T) -> bool): (r: seq<T>)
    ensures multiset(r) == multiset(s) + multiset{x}
  {
    if s == [] || le(x, s[0]) then [x] + s
    else
      var r := [s[0]] + Insert(x, s[1..], le);
      assert s == [s[0]] + s[1..];
      r
  }

  function SortBy<T>(s: seq<T>, le: (T, T) -> bool): (r: seq<T>)
    ensures multiset(r) == multiset(s)
  {
    if s == [] then []
    else
      var r := Insert(s[0], SortBy(s[1..], le), le);
      assert s == [s[0]] + s[1..];
      r
  }

  /** The tail of a sorted sequence is sorted and comes after its head. */
  lemma SortedTail<T>(s: seq<T>, le: (T, T) -> bool)
    requires s != [] && Sorted(s, le)
    ensures Sorted(s[1..], le)
    ensures forall y :: y in s[1..] ==> le(s[0], y)
  {
    var tail := s[1..];
    forall i, j | 0 <= i < j < |tail|
      ensures le(tail[i], tail[j])
    {
      assert tail[i] == s[i + 1] && tail[j] == s[j + 1];
    }
    forall y | y in tail
      ensures le(s[0], y)
    {
      var k :| 0 <= k < |tail| && tail[k] == y;
      assert s[k + 1] == y;
    }
  }

  /** An element that comes no later than any of a sorted sequence can be
      put in front of it. */
  lemma SortedCons<T>(x: T, s: seq<T>, le: (T, T) -> bool)
    requires Sorted(s, le)
    requires forall y :: y in s ==> le(x, y)
    ensures Sorted([x] + s, le)
  {
    var r := [x] + s;
    forall i, j | 0 <= i < j < |r|
      ensures le(r[i], r[j])
    {
      assert r[j] == s[j - 1] && r[j] in s;
      if i > 0 {
        assert r[i] == s[i - 1];
      }
    }
  }

  lemma {:induction false} InsertSorted<T(!new)>(x: T, s: seq<T>, le: (T, T) -> bool)
    requires TotalPreorder(le) && Sorted(s, le)
    ensures Sorted(Insert(x, s, le), le)
  {
    if s == [] || le(x, s[0]) {
      forall y | y in s
        ensures le(x, y)
      {
        var k :| 0 <= k < |s| && s[k] == y;
        if k > 0 {
          assert le(s[0], s[k]);
        }
      }
      SortedCons(x, s, le);
    } else {
      SortedTail(s, le);
      var tail := Insert(x, s[1..], le);
      InsertSorted(x, s[1..], le);
      forall y | y in tail
        ensures le(s[0], y)
      {
        assert y in multiset(tail);
      }
      SortedCons(s[0], tail, le);
    }
  }

  /** The sort's output is ordered whenever the relation is a total preorder. */
  lemma {:induction false} SortBySorted<T(!new)>(s: seq<T>, le: (T, T) -> bool)
    requires TotalPreorder(le)
    ensures Sorted(SortBy(s, le), le)
  {
    if s != [] {
      SortBySorted(s[1..], le);
      InsertSorted(s[0], SortBy(s[1..], le), le);
    }
  }

  lemma {:induction false} InsertDistinctKeys<T, K>(x: T, s: seq<T>, le: (T, T) -> bool, key: T -> K)
    requires DistinctKeys(s, key)
    requires forall y :: y in s ==> key(y) != key(x)
    ensures DistinctKeys(Insert(x, s, le), key)
  {
    if s == [] || le(x, s[0]) {
      DistinctKeysCons(x, s, key);
    } else {
      DistinctKeysTail(s, key);
      var tail := Insert(x, s[1..], le);
      InsertDistinctKeys(x, s[1..], le, key);
      forall y | y in tail
        ensures key(y) != key(s[0])
      {
        assert y in multiset(tail);
      }
      DistinctKeysCons(s[0], tail, key);
    }
  }

  /** Sorting never makes two rows share a key that no two rows shared. */
  lemma {:induction false} SortByDistinctKeys<T, K>(s: seq<T>, le: (T, T) -> bool, key: T -> K)
    requires DistinctKeys(s, key)
    ensures DistinctKeys(SortBy(s, le), key)
  {
    if s != [] {
      DistinctKeysTail(s, key);
      var sorted := SortBy(s[1..], le);
      SortByDistinctKeys(s[1..], le, key);
      forall y | y in sorted
        ensures key(y) != key(s[0])
      {
        assert y in multiset(s[1..]);
      }
      InsertDistinctKeys(s[0], sorted, le, key);
    }
  }

  lemma {:induction false} InsertAgree<T>(x: T, s: seq<T>, le1: (T, T) -> bool, le2: (T, T) -> bool)
    requires forall y :: y in s ==> le1(x, y) == le2(x, y)
    ensures Insert(x, s, le1) == Insert(x, s, le2)
  {
    if s != [] {
      InsertAgree(x, s[1..], le1, le2);
    }
  }

  /** Two relations that order the elements of `s` alike sort it alike. */
  lemma {:induction false} SortByAgree<T>(s: seq<T>, le1: (T, T) -> bool, le2: (T, T) -> bool)
    requires forall a, b :: a in s && b in s ==> le1(a, b) == le2(a, b)
    ensures SortBy(s, le1) == SortBy(s, le2)
  {
    if s != [] {
      SortByAgree(s[1..], le1, le2);
      var sorted := SortBy(s[1..], le1);
      forall y | y in sorted
        ensures le1(s[0], y) == le2(s[0], y)
      {
        assert y in multiset(s[1..]);
      }
      InsertAgree(s[0], sorted, le1, le2);
    }
  }

  lemma {:induction false} SumInsert<T>(x: T, s: seq<T>, le: (T, T) -> bool, f: T -> real)
    ensures Sum(Insert(x, s, le), f) == f(x) + Sum(s, f)
  {
    if s != [] && !le(x, s[0]) {
      SumInsert(x, s[1..], le, f);
    }
  }

  /** Reordering rows does not change their sum. */
  lemma {:induction false} SumSortBy<T>(s: seq<T>, le: (T, T) -> bool, f: T -> real)
    ensures Sum(SortBy(s, le), f) == Sum(s, f)
  {
    if s != [] {
      SumSortBy(s[1..], le, f);
      SumInsert(s[0], SortBy(s[1..], le), le, f);
    }
  }
}
