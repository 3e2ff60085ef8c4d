/** Python's `sorted` and JavaScript's `sort`, as far as the models need them. */
module Sorting {
  import opened Wrappers

  ghost predicate StrictlySorted(s: seq<int>) {
    forall i, j :: 0 <= i < j < |s| ==> s[i] < s[j]
  }

  lemma LeastOfTwo(s: set<int>, p: int, rest: set<int>, m: int)
    requires p in s && rest == s - {p} && m in rest && forall x :: x in rest ==> m <= x
    ensures exists least :: least in s && forall x :: x in s ==> least <= x
  {
    var least := if p < m then p else m;
    forall x | x in s
      ensures least <= x
    {
      assert x == p || x in rest;
    }
    assert least in s;
  }

  lemma {:induction false} HasMin(s: set<int>)
    requires s != {}
    ensures exists m :: m in s && forall x :: x in s ==> m <= x
    decreases s
  {
    var p := Pick(s);
    var rest := s - {p};
    if rest == {} {
      assert s == {p};
    } else {
      HasMin(rest);
      var m :| m in rest && forall x :: x in rest ==> m <= x;
      LeastOfTwo(s, p, rest, m);
    }
  }

  /** sorted() of a set of numbers. */
  function SortedSeq(s: set<int>): (r: seq<int>)
    ensures StrictlySorted(r)
    ensures forall x :: x in r <==> x in s
    decreases s
  {
    if s == {} then []
    else
      HasMin(s);
      var m :| m in s && forall x :: x in s ==> m <= x;
      [m] + SortedSeq(s - {m})
  }

  lemma {:induction false} SortedSeqUnique(s: seq<int>, t: seq<int>)
    requires StrictlySorted(s) && StrictlySorted(t) && forall x :: x in s <==> x in t
    ensures s == t
    decreases |s|
  {
    assert s != [] ==> s[0] in s;
    assert t != [] ==> t[0] in t;
    if s != [] && t != [] {
      assert s[0] in t && t[0] in s;
      assert s[0] == t[0];
      forall x
        ensures x in s[1..] <==> x in t[1..]
      {
        assert x in s[1..] <==> x in s && x != s[0];
        assert x in t[1..] <==> x in t && x != t[0];
      }
      SortedSeqUnique(s[1..], t[1..]);
    }
  }

  ghost predicate SortedBy<T(!new)>(s: seq<T>, key: T -> int) {
    forall i, j :: 0 <= i < j < |s| ==> key(s[i]) <= key(s[j])
  }

  /** x goes behind everything with a key up to its own, which keeps the sort stable. */
  function Insert<T>(s: seq<T>, x: T, key: T -> int): (r: seq<T>)
    ensures |r| == |s| + 1
  {
    if s == [] || key(s[|s| - 1]) <= key(x) then s + [x]
    else Insert(s[..|s| - 1], x, key) + [s[|s| - 1]]
  }

  function Sort<T>(s: seq<T>, key: T -> int): (r: seq<T>)
    ensures |r| == |s|
  {
    if s == [] then [] else Insert(Sort(s[..|s| - 1], key), s[|s| - 1], key)
  }

  lemma {:induction false} InsertElements<T(!new)>(s: seq<T>, x: T, key: T -> int)
    ensures multiset(Insert(s, x, key)) == multiset(s) + multiset{x}
    ensures forall y :: y in Insert(s, x, key) <==> y == x || y in s
  {
    if s != [] && key(x) < key(s[|s| - 1]) {
      var rest := s[..|s| - 1];
      InsertElements(rest, x, key);
      assert s == rest + [s[|s| - 1]];
    }
  }

  lemma {:induction false} InsertSorted<T(!new)>(s: seq<T>, x: T, key: T -> int)
    requires SortedBy(s, key)
    ensures SortedBy(Insert(s, x, key), key)
  {
    if s != [] && key(x) < key(s[|s| - 1]) {
      var rest := s[..|s| - 1];
      InsertSorted(rest, x, key);
      InsertElements(rest, x, key);
      forall y | y in Insert(rest, x, key)
        ensures key(y) <= key(s[|s| - 1])
      {
      }
    }
  }

  /** sorted(): the same elements, in order. */
  lemma {:induction false} SortIsSorted<T(!new)>(s: seq<T>, key: T -> int)
    ensures SortedBy(Sort(s, key), key)
    ensures multiset(Sort(s, key)) == multiset(s)
    ensures forall y :: y in Sort(s, key) <==> y in s
  {
    if s != [] {
      var rest, x := s[..|s| - 1], s[|s| - 1];
      assert s == rest + [x];
      SortIsSorted(rest, key);
      InsertSorted(Sort(rest, key), x, key);
      InsertElements(Sort(rest, key), x, key);
    }
  }

  /** r holds between any two places of s. */
  ghost predicate Pairwise<T>(s: seq<T>, r: (T, T) -> bool) {
    forall i, j :: 0 <= i < j < |s| ==> r(s[i], s[j]) && r(s[j], s[i])
  }

  lemma {:induction false} InsertPairwise<T(!new)>(s: seq<T>, x: T, key: T -> int, r: (T, T) -> bool)
    requires Pairwise(s, r) && forall y :: y in s ==> r(x, y) && r(y, x)
    ensures Pairwise(Insert(s, x, key), r)
  {
    if s != [] && key(x) < key(s[|s| - 1]) {
      var rest, last := s[..|s| - 1], s[|s| - 1];
      InsertPairwise(rest, x, key, r);
      InsertElements(rest, x, key);
      forall y | y in Insert(rest, x, key)
        ensures r(y, last) && r(last, y)
      {
        if y != x {
          assert y in rest;
          var i :| 0 <= i < |rest| && rest[i] == y;
          assert s[i] == y;
        }
      }
    }
  }

  /** Sorting keeps what holds between any two places. */
  lemma {:induction false} SortPairwise<T(!new)>(s: seq<T>, key: T -> int, r: (T, T) -> bool)
    requires Pairwise(s, r)
    ensures Pairwise(Sort(s, key), r)
  {
    if s != [] {
      var rest, x := s[..|s| - 1], s[|s| - 1];
      SortPairwise(rest, key, r);
      SortIsSorted(rest, key);
      forall y | y in Sort(rest, key)
        ensures r(x, y) && r(y, x)
      {
        var i :| 0 <= i < |rest| && rest[i] == y;
      }
      InsertPairwise(Sort(rest, key), x, key, r);
    }
  }

  /** a may come before b: its key is smaller, or the same and its second key no larger. */
  predicate UpTo<T>(a: T, b: T, key: T -> int, second: T -> int) {
    key(a) < key(b) || (key(a) == key(b) && second(a) <= second(b))
  }

  /** Sorted by key, and among equal keys by `second`. */
  ghost predicate SortedByBoth<T(!new)>(s: seq<T>, key: T -> int, second: T -> int) {
    forall i, j :: 0 <= i < j < |s| ==> UpTo(s[i], s[j], key, second)
  }

  lemma AppendStable<T(!new)>(s: seq<T>, x: T, key: T -> int, second: T -> int)
    requires SortedByBoth(s, key, second) && forall y :: y in s ==> UpTo(y, x, key, second)
    ensures SortedByBoth(s + [x], key, second)
  {
    hide UpTo;
  }

  lemma LastIsGreatest<T(!new)>(s: seq<T>, y: T, key: T -> int, second: T -> int)
    requires SortedByBoth(s, key, second) && y in s
    ensures UpTo(y, s[|s| - 1], key, second) && SortedByBoth(s[..|s| - 1], key, second)
  {
    var i :| 0 <= i < |s| && s[i] == y;
    assert i == |s| - 1 || UpTo(s[i], s[|s| - 1], key, second);
  }

  lemma {:induction false} InsertStable<T(!new)>(s: seq<T>, x: T, key: T -> int, second: T -> int)
    requires SortedByBoth(s, key, second) && forall y :: y in s ==> second(y) <= second(x)
    ensures SortedByBoth(Insert(s, x, key), key, second)
  {
    hide SortedByBoth;
    if s != [] && key(x) < key(s[|s| - 1]) {
      var rest, last := s[..|s| - 1], s[|s| - 1];
      LastIsGreatest(s, last, key, second);
      InsertStable(rest, x, key, second);
      InsertElements(rest, x, key);
      forall y | y in Insert(rest, x, key)
        ensures UpTo(y, last, key, second)
      {
        if y != x {
          LastIsGreatest(s, y, key, second);
        }
      }
      AppendStable(Insert(rest, x, key), last, key, second);
    } else {
      forall y | y in s
        ensures UpTo(y, x, key, second)
      {
        LastIsGreatest(s, y, key, second);
      }
      AppendStable(s, x, key, second);
    }
  }

  /** The sort is stable: among equal keys the given order stays. */
  lemma {:induction false} SortStable<T(!new)>(s: seq<T>, key: T -> int, second: T -> int)
    requires SortedBy(s, second)
    ensures SortedByBoth(Sort(s, key), key, second)
  {
    if s != [] {
      var rest, x := s[..|s| - 1], s[|s| - 1];
      SortStable(rest, key, second);
      SortIsSorted(rest, key);
      forall y | y in Sort(rest, key)
        ensures second(y) <= second(x)
      {
        var i :| 0 <= i < |rest| && rest[i] == y;
        assert s[i] == y;
      }
      InsertStable(Sort(rest, key), x, key, second);
    }
  }

  /** A sorted sequence is its own sort. */
  lemma {:induction false} SortFixed<T(!new)>(s: seq<T>, key: T -> int)
    requires SortedBy(s, key)
    ensures Sort(s, key) == s
  {
    if s != [] {
      SortFixed(s[..|s| - 1], key);
      assert s == s[..|s| - 1] + [s[|s| - 1]];
    }
  }
}
