/** Descending sort by a numeric key, as `Array.prototype.sort((a, b) => key(b) - key(a))`
    does it: the sort is stable (required of `sort` since ECMAScript 2019), so
    elements with equal keys keep their original order. The same function models
    SQL `ORDER BY key DESC` over a table scanned in rowid order. */
module Sorting {
  import Js

  ghost predicate SortedDesc<T>(s: seq<T>, key: T -> real)
  {
    forall i, j :: 0 <= i < j < |s| ==> key(s[i]) >= key(s[j])
  }

  /** Puts `x` in front of the first element whose key is not larger than its own. */
  function Insert<T>(x: T, s: seq<T>, key: T -> real): (r: seq<T>)
    ensures |r| == |s| + 1
    ensures r[0] == if s == [] || key(s[0]) <= key(x) then x else s[0]
  {
    if s == [] || key(s[0]) <= key(x) then [x] + s
    else [s[0]] + Insert(x, s[1..], key)
  }

  /** Insertion adds exactly `x`. */
  lemma {:induction false} InsertPerm<T>(x: T, s: seq<T>, key: T -> real)
    ensures multiset(Insert(x, s, key)) == multiset(s) + multiset{x}
  {
    if s != [] && key(s[0]) > key(x) {
      assert Insert(x, s, key) == [s[0]] + Insert(x, s[1..], key);
      InsertPerm(x, s[1..], key);
      assert s == [s[0]] + s[1..];
    }
  }

  /** Insertion keeps a sorted sequence sorted. */
  lemma {:induction false} InsertSorted<T>(x: T, s: seq<T>, key: T -> real)
    requires SortedDesc(s, key)
    ensures SortedDesc(Insert(x, s, key), key)
  {
    if s != [] && key(s[0]) > key(x) {
      var t := Insert(x, s[1..], key);
      assert Insert(x, s, key) == [s[0]] + t;
      InsertSorted(x, s[1..], key);
      InsertPerm(x, s[1..], key);
      HeadAboveAll(x, s, t, key);
      ConsAbove(s[0], t, key);
    }
  }

  /** The head of a descending sequence is no smaller than anything in its
      tail with a smaller element added. */
  lemma HeadAboveAll<T>(x: T, s: seq<T>, t: seq<T>, key: T -> real)
    requires SortedDesc(s, key) && s != [] && key(s[0]) > key(x)
    requires multiset(t) == multiset(s[1..]) + multiset{x}
    ensures forall k :: 0 <= k < |t| ==> key(s[0]) >= key(t[k])
  {
    forall k | 0 <= k < |t| ensures key(s[0]) >= key(t[k]) {
      var y := t[k];
      assert y in multiset(t);
      if y != x {
        assert y in multiset(s[1..]);
        var m :| 0 <= m < |s| - 1 && s[1..][m] == y;
        assert s[m + 1] == y;
      }
    }
  }

  /** Putting in front an element no smaller than every other keeps a sequence sorted. */
  lemma ConsAbove<T>(h: T, t: seq<T>, key: T -> real)
    requires SortedDesc(t, key)
    requires forall k :: 0 <= k < |t| ==> key(h) >= key(t[k])
    ensures SortedDesc([h] + t, key)
  {
    var r := [h] + t;
    forall i, j | 0 <= i < j < |r| ensures key(r[i]) >= key(r[j]) {
      assert r[j] == t[j - 1];
      if i > 0 {
        assert r[i] == t[i - 1];
      }
    }
  }

  /** Stable insertion sort, descending. */
  function SortDesc<T>(s: seq<T>, key: T -> real): (r: seq<T>)
    ensures |r| == |s|
  {
    if s == [] then [] else Insert(s[0], SortDesc(s[1..], key), key)
  }

  /** The sort returns a sorted permutation of its input. */
  lemma {:induction false} SortDescSorted<T>(s: seq<T>, key: T -> real)
    ensures multiset(SortDesc(s, key)) == multiset(s)
    ensures SortedDesc(SortDesc(s, key), key)
  {
    if s != [] {
      SortDescSorted(s[1..], key);
      InsertPerm(s[0], SortDesc(s[1..], key), key);
      InsertSorted(s[0], SortDesc(s[1..], key), key);
      assert s == [s[0]] + s[1..];
    }
  }

  /** Index of the first element with the largest key. */
  function FirstMax<T>(s: seq<T>, key: T -> real): (i: nat)
    requires |s| > 0
    ensures i < |s|
    ensures forall k :: 0 <= k < |s| ==> key(s[k]) <= key(s[i])
    ensures forall k :: 0 <= k < i ==> key(s[k]) < key(s[i])
  {
    if |s| == 1 then 0
    else
      var j := FirstMax(s[1..], key) + 1;
      if key(s[0]) >= key(s[j]) then 0 else j
  }

  /** The head of the sorted sequence is the first element with the largest key:
      ties are won by the element that came first. */
  lemma {:induction false} SortHeadIsFirstMax<T>(s: seq<T>, key: T -> real)
    requires |s| > 0
    ensures SortDesc(s, key)[0] == s[FirstMax(s, key)]
  {
    if |s| > 1 {
      var rest := SortDesc(s[1..], key);
      SortHeadIsFirstMax(s[1..], key);
      assert rest[0] == s[1..][FirstMax(s[1..], key)];
    }
  }

  /** Every element of the input appears in the sorted output and vice versa. */
  lemma SortSameElements<T>(s: seq<T>, key: T -> real, x: T)
    ensures x in SortDesc(s, key) <==> x in s
  {
    var r := SortDesc(s, key);
    SortDescSorted(s, key);
    assert x in r <==> x in multiset(r);
    assert x in s <==> x in multiset(s);
  }

  /** In a sequence without repeated elements every element occurs at most once. */
  lemma {:induction false} DistinctCounts<T>(s: seq<T>)
    requires Js.Distinct(s)
    ensures forall x :: multiset(s)[x] <= 1
  {
    if s != [] {
      var init := s[..|s| - 1];
      DistinctCounts(init);
      assert s == init + [s[|s| - 1]];
      assert s[|s| - 1] !in init;
    }
  }

  /** A sequence in which every element occurs at most once has no repeated elements. */
  lemma CountsDistinct<T>(s: seq<T>)
    requires forall x :: multiset(s)[x] <= 1
    ensures Js.Distinct(s)
  {
    forall i, j | 0 <= i < j < |s| ensures s[i] != s[j] {
      assert s == s[..j] + s[j..];
      assert s[i] in s[..j];
      assert s[j] in s[j..];
      assert multiset(s)[s[i]] == multiset(s[..j])[s[i]] + multiset(s[j..])[s[i]];
      assert multiset(s[..j])[s[i]] >= 1 && multiset(s[j..])[s[j]] >= 1;
    }
  }

  /** A sequence without repetitions whose elements all equal `x` is `[x]`. */
  lemma OnlyElement<T>(s: seq<T>, x: T)
    requires Js.Distinct(s) && x in s && forall a :: 0 <= a < |s| ==> s[a] == x
    ensures s == [x]
  {
    DistinctCounts(s);
    CountAll(s, x);
  }

  lemma {:induction false} CountAll<T>(s: seq<T>, x: T)
    requires forall a :: 0 <= a < |s| ==> s[a] == x
    ensures multiset(s)[x] == |s|
  {
    if s != [] {
      CountAll(s[..|s| - 1], x);
      assert s == s[..|s| - 1] + [s[|s| - 1]];
    }
  }

  /** Sorting a sequence without repetitions yields one without repetitions
      holding the same elements. */
  lemma SortKeepsDistinct<T>(s: seq<T>, key: T -> real)
    requires Js.Distinct(s)
    ensures Js.Distinct(SortDesc(s, key))
    ensures forall x :: x in SortDesc(s, key) <==> x in s
  {
    SortDescSorted(s, key);
    DistinctCounts(s);
    CountsDistinct(SortDesc(s, key));
    forall x ensures x in SortDesc(s, key) <==> x in s {
      SortSameElements(s, key, x);
    }
  }

  /** Filtering a sorted sequence without repetitions keeps it so. */
  lemma {:induction false} FilterKeepsOrder<T>(s: seq<T>, p: T -> bool, key: T -> real)
    requires Js.Distinct(s) && SortedDesc(s, key)
    ensures Js.Distinct(Js.Filter(s, p)) && SortedDesc(Js.Filter(s, p), key)
  {
    if s != [] {
      var init := s[..|s| - 1];
      var last := s[|s| - 1];
      var f := Js.Filter(init, p);
      FilterKeepsOrder(init, p, key);
      assert Js.Filter(s, p) == if p(last) then f + [last] else f;
      if p(last) {
        forall x | x in init ensures x != last && key(x) >= key(last) {
          var k :| 0 <= k < |init| && init[k] == x;
          assert s[k] == x;
        }
        AppendBelow(f, last, key);
      }
    }
  }

  /** Appending an element that is new and no greater than every element keeps
      a sorted sequence without repetitions so. */
  lemma AppendBelow<T>(f: seq<T>, last: T, key: T -> real)
    requires Js.Distinct(f) && SortedDesc(f, key)
    requires forall x :: x in f ==> x != last && key(x) >= key(last)
    ensures Js.Distinct(f + [last]) && SortedDesc(f + [last], key)
  {
    var g := f + [last];
    forall i, j | 0 <= i < j < |g| ensures g[i] != g[j] && key(g[i]) >= key(g[j]) {
      if j == |f| {
        assert g[i] == f[i] && f[i] in f;
      } else {
        assert g[i] == f[i] && g[j] == f[j];
      }
    }
  }

  /** Sorting a sequence without repetitions: the result is sorted, has no
      repetitions and holds the same elements. */
  lemma SortFacts<T>(s: seq<T>, key: T -> real)
    requires Js.Distinct(s)
    ensures SortedDesc(SortDesc(s, key), key)
    ensures Js.Distinct(SortDesc(s, key))
    ensures forall x :: x in SortDesc(s, key) <==> x in s
  {
    SortDescSorted(s, key);
    SortKeepsDistinct(s, key);
  }
}
