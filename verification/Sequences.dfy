/** Filtering, mapping and stable sorting of sequences. */
module Sequences {

  function Filter<T>(s: seq<T>, p: T -> bool): (r: seq<T>)
    ensures forall x :: x in s && p(x) ==> x in r
    ensures forall x :: x in r ==> x in s && p(x)
    ensures |r| <= |s|
  {
    if s == [] then [] else (if p(s[0]) then [s[0]] else []) + Filter(s[1..], p)
  }

  function Map<T, U>(s: seq<T>, f: T -> U): (r: seq<U>)
    ensures |r| == |s| && forall i :: 0 <= i < |s| ==> r[i] == f(s[i])
  {
    seq(|s|, i requires 0 <= i < |s| => f(s[i]))
  }

  function Range(n: nat): (r: seq<nat>)
    ensures |r| == n && forall i :: 0 <= i < n ==> r[i] == i
  {
    seq(n, i => i)
  }

  ghost predicate Distinct<T>(s: seq<T>) {
    forall i, j :: 0 <= i < j < |s| ==> s[i] != s[j]
  }

  ghost predicate SortedBy<T>(s: seq<T>, key: T -> int) {
    forall i, j :: 0 <= i < j < |s| ==> key(s[i]) <= key(s[j])
  }

  function Insert<T>(x: T, s: seq<T>, key: T -> int): seq<T> {
    if s == [] || key(x) <= key(s[0]) then [x] + s else [s[0]] + Insert(x, s[1..], key)
  }

  /** A stable sort by ascending key: equal keys keep their order. */
  function SortBy<T>(s: seq<T>, key: T -> int): seq<T> {
    if s == [] then [] else Insert(s[0], SortBy(s[1..], key), key)
  }

  lemma {:induction false} InsertPermutes<T>(x: T, s: seq<T>, key: T -> int)
    ensures multiset(Insert(x, s, key)) == multiset(s) + multiset{x}
    ensures |Insert(x, s, key)| == |s| + 1
  {
    if !(s == [] || key(x) <= key(s[0])) {
      InsertPermutes(x, s[1..], key);
      assert s == [s[0]] + s[1..];
    }
  }

  lemma {:induction false} SortPermutes<T>(s: seq<T>, key: T -> int)
    ensures multiset(SortBy(s, key)) == multiset(s)
    ensures |SortBy(s, key)| == |s|
  {
    if s != [] {
      SortPermutes(s[1..], key);
      InsertPermutes(s[0], SortBy(s[1..], key), key);
      assert s == [s[0]] + s[1..];
    }
  }

  lemma {:induction false} InsertSorted<T>(x: T, s: seq<T>, key: T -> int)
    requires SortedBy(s, key)
    ensures SortedBy(Insert(x, s, key), key)
  {
    if !(s == [] || key(x) <= key(s[0])) {
      InsertSorted(x, s[1..], key);
      InsertPermutes(x, s[1..], key);
      var r := Insert(x, s[1..], key);
      forall j | 0 <= j < |r|
        ensures key(s[0]) <= key(r[j])
      {
        assert r[j] in multiset(r);
        assert r[j] == x || r[j] in s[1..];
      }
    }
  }

  lemma {:induction false} SortSorted<T>(s: seq<T>, key: T -> int)
    ensures SortedBy(SortBy(s, key), key)
  {
    if s != [] {
      SortSorted(s[1..], key);
      InsertSorted(s[0], SortBy(s[1..], key), key);
    }
  }

  lemma {:induction false} SortKeepsSorted<T>(s: seq<T>, key: T -> int)
    requires SortedBy(s, key)
    ensures SortBy(s, key) == s
  {
    if s != [] {
      SortKeepsSorted(s[1..], key);
      assert s == [s[0]] + s[1..];
    }
  }

  lemma FilterCons<T>(x: T, s: seq<T>, p: T -> bool)
    ensures Filter([x] + s, p) == (if p(x) then [x] else []) + Filter(s, p)
  {
    assert ([x] + s)[1..] == s;
  }

  lemma ConcatAssociative<T>(a: seq<T>, b: seq<T>, c: seq<T>)
    ensures a + (b + c) == (a + b) + c
  {
  }

  lemma {:induction false} FilterConcat<T>(s: seq<T>, t: seq<T>, p: T -> bool)
    ensures Filter(s + t, p) == Filter(s, p) + Filter(t, p)
  {
    if s == [] {
      assert s + t == t;
    } else {
      var x, rest := s[0], s[1..];
      assert s == [x] + rest;
      ConcatAssociative([x], rest, t);
      FilterCons(x, rest, p);
      FilterCons(x, rest + t, p);
      FilterConcat(rest, t, p);
      ConcatAssociative(if p(x) then [x] else [], Filter(rest, p), Filter(t, p));
    }
  }

  lemma {:induction false} FilterAll<T>(s: seq<T>, p: T -> bool)
    requires forall x :: x in s ==> p(x)
    ensures Filter(s, p) == s
  {
    if s != [] {
      FilterAll(s[1..], p);
      assert s == [s[0]] + s[1..];
    }
  }

  lemma FilterInsertFront<T>(x: T, s: seq<T>, key: T -> int, p: T -> bool)
    requires forall y :: y in s ==> key(x) <= key(y)
    ensures Filter([x] + s, p) == if p(x) then Insert(x, Filter(s, p), key) else Filter(s, p)
  {
    FilterCons(x, s, p);
    if Filter(s, p) != [] {
      assert Filter(s, p)[0] in s;
    }
  }

  lemma InsertPast<T>(x: T, y: T, s: seq<T>, key: T -> int)
    requires key(y) < key(x)
    ensures Insert(x, [y] + s, key) == [y] + Insert(x, s, key)
  {
    assert ([y] + s)[1..] == s;
  }

  lemma {:induction false} FilterInsert<T>(x: T, s: seq<T>, key: T -> int, p: T -> bool)
    requires SortedBy(s, key)
    ensures Filter(Insert(x, s, key), p)
         == if p(x) then Insert(x, Filter(s, p), key) else Filter(s, p)
  {
    if s == [] || key(x) <= key(s[0]) {
      FilterInsertFront(x, s, key, p);
    } else {
      FilterInsert(x, s[1..], key, p);
      FilterCons(s[0], Insert(x, s[1..], key), p);
      InsertPast(x, s[0], Filter(s[1..], p), key);
      assert [] + Filter(s[1..], p) == Filter(s[1..], p);
      assert [] + Filter(Insert(x, s[1..], key), p) == Filter(Insert(x, s[1..], key), p);
    }
  }

  /** Sorting commutes with dropping elements: this is what stability buys. */
  lemma {:induction false} SortFilter<T>(s: seq<T>, key: T -> int, p: T -> bool)
    ensures Filter(SortBy(s, key), p) == SortBy(Filter(s, p), key)
  {
    if s != [] {
      SortFilter(s[1..], key, p);
      SortSorted(s[1..], key);
      FilterInsert(s[0], SortBy(s[1..], key), key, p);
      assert [] + Filter(s[1..], p) == Filter(s[1..], p);
      assert ([s[0]] + Filter(s[1..], p))[1..] == Filter(s[1..], p);
    }
  }

  lemma {:induction false} InsertMap<T, U>(x: T, s: seq<T>, f: T -> U, key: U -> int, key': T -> int)
    requires forall y :: y in s || y == x ==> key'(y) == key(f(y))
    ensures Map(Insert(x, s, key'), f) == Insert(f(x), Map(s, f), key)
  {
    if s == [] || key'(x) <= key'(s[0]) {
      assert Map([x] + s, f) == [f(x)] + Map(s, f);
    } else {
      InsertMap(x, s[1..], f, key, key');
      assert Map(s, f)[1..] == Map(s[1..], f);
      assert Map([s[0]] + Insert(x, s[1..], key'), f) == [f(s[0])] + Map(Insert(x, s[1..], key'), f);
    }
  }

  lemma {:induction false} SortMap<T, U>(s: seq<T>, f: T -> U, key: U -> int, key': T -> int)
    requires forall y :: y in s ==> key'(y) == key(f(y))
    ensures Map(SortBy(s, key'), f) == SortBy(Map(s, f), key)
  {
    if s != [] {
      SortMap(s[1..], f, key, key');
      SortPermutes(s[1..], key');
      forall y | y in SortBy(s[1..], key')
        ensures y in s
      {
        assert y in multiset(SortBy(s[1..], key'));
        assert y in s[1..];
      }
      InsertMap(s[0], SortBy(s[1..], key'), f, key, key');
      assert Map(s, f)[1..] == Map(s[1..], f);
    }
  }

  lemma InTail<T>(s: seq<T>, e: nat, x: T)
    requires 0 < e <= |s| && x in s[1..][..e - 1]
    ensures x in s[..e]
  {
    var i :| 0 <= i < e - 1 && s[1..][..e - 1][i] == x;
    assert s[..e][i + 1] == x;
  }

  /** Position `p` of a filtered sequence comes from a position at least as far right, and everything
      before it in the filtered sequence came from before that position. */
  lemma {:induction false} FilterOrigin<T>(s: seq<T>, keep: T -> bool, p: nat) returns (e: nat)
    requires p < |Filter(s, keep)|
    ensures p <= e < |s| && s[e] == Filter(s, keep)[p] && keep(s[e])
    ensures forall q :: 0 <= q < p ==> Filter(s, keep)[q] in s[..e]
  {
    var f := Filter(s[1..], keep);
    if !keep(s[0]) {
      assert Filter(s, keep) == f;
      var e' := FilterOrigin(s[1..], keep, p);
      e := e' + 1;
      forall q | 0 <= q < p
        ensures f[q] in s[..e]
      {
        InTail(s, e, f[q]);
      }
    } else if p == 0 {
      e := 0;
    } else {
      assert Filter(s, keep) == [s[0]] + f;
      var e' := FilterOrigin(s[1..], keep, p - 1);
      e := e' + 1;
      forall q | 0 <= q < p
        ensures ([s[0]] + f)[q] in s[..e]
      {
        if q == 0 {
          assert s[..e][0] == s[0];
        } else {
          InTail(s, e, f[q - 1]);
        }
      }
    }
  }

  lemma DistinctByCount<T>(s: seq<T>)
    requires forall x :: multiset(s)[x] <= 1
    ensures Distinct(s)
  {
    forall i, j | 0 <= i < j < |s|
      ensures s[i] != s[j]
    {
      assert s == s[..j] + [s[j]] + s[j + 1..];
      assert multiset(s)[s[j]] >= multiset(s[..j])[s[j]] + 1;
      assert s[i] == s[..j][i];
      assert s[j] !in multiset(s[..j]);
    }
  }

  lemma {:induction false} DistinctCount<T>(s: seq<T>, x: T)
    requires Distinct(s)
    ensures multiset(s)[x] <= 1
  {
    if s != [] {
      DistinctCount(s[1..], x);
      assert s == [s[0]] + s[1..];
    }
  }

  /** A rearrangement of a duplicate-free sequence is duplicate-free and has the same elements. */
  lemma PermutedDistinct<T>(s: seq<T>, r: seq<T>)
    requires Distinct(s) && multiset(r) == multiset(s)
    ensures Distinct(r) && |r| == |s| && forall x :: x in r <==> x in s
  {
    forall x ensures multiset(r)[x] <= 1 {
      DistinctCount(s, x);
    }
    DistinctByCount(r);
    assert |r| == |multiset(r)| == |multiset(s)| == |s|;
    forall x ensures x in r <==> x in s {
      assert x in r <==> x in multiset(r);
      assert x in s <==> x in multiset(s);
    }
  }
}
