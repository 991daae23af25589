/** Lists of numbers, and iteration over finite sets in ascending order, as `BTreeSet` and `BTreeMap` iterate. */
module Ordered {
  ghost predicate Ascending(s: seq<int>) {
    forall i, j :: 0 <= i < j < |s| ==> s[i] < s[j]
  }

  ghost predicate NonDescending(s: seq<int>) {
    forall i, j :: 0 <= i < j < |s| ==> s[i] <= s[j]
  }

  ghost predicate NoDuplicates(s: seq<int>) {
    forall i, j :: 0 <= i < j < |s| ==> s[i] != s[j]
  }

  lemma Inhabited(s: set<int>)
    ensures s == {} || exists x :: x in s
  {
    assert (forall x :: x !in s) ==> s == {};
  }

  lemma {:induction false} HasLeast(s: set<int>)
    requires s != {}
    ensures exists x :: x in s && forall y :: y in s ==> x <= y
  {
    Inhabited(s);
    var x :| x in s;
    if s == {x} {
    } else {
      HasLeast(s - {x});
      var m :| m in s - {x} && forall y :: y in s - {x} ==> m <= y;
      var least := if x <= m then x else m;
      assert forall y :: y in s ==> y == x || y in s - {x};
      assert least in s && forall y :: y in s ==> least <= y;
    }
  }

  function Least(s: set<int>): (x: int)
    requires s != {}
    ensures x in s && forall y :: y in s ==> x <= y
  {
    HasLeast(s);
    var x :| x in s && forall y :: y in s ==> x <= y;
    x
  }

  /** The elements of a set in ascending order. */
  function InOrder(s: set<int>): (r: seq<int>)
    ensures Ascending(r)
    ensures forall x :: x in r <==> x in s
    ensures |r| == |s|
  {
    if s == {} then [] else
      var x := Least(s);
      [x] + InOrder(s - {x})
  }

  /** Two ascending sequences with the same elements are the same sequence. */
  lemma {:induction false} AscendingUnique(a: seq<int>, b: seq<int>)
    requires Ascending(a) && Ascending(b)
    requires forall x :: x in a <==> x in b
    ensures a == b
  {
    if a == [] {
      assert forall i :: 0 <= i < |b| ==> b[i] in b;
    } else {
      assert a[0] in b && b != [];
      assert b[0] in a;
      assert a[0] == b[0];
      forall x ensures x in a[1..] <==> x in b[1..] {
        if x in a[1..] { assert x in a && x > a[0]; }
        if x in b[1..] { assert x in b && x > b[0]; }
      }
      AscendingUnique(a[1..], b[1..]);
    }
  }

  /** A sequence of distinct elements of a set is no longer than the set is large. */
  lemma {:induction false} Pigeonhole(s: seq<int>, from: set<int>)
    requires forall i :: 0 <= i < |s| ==> s[i] in from
    requires NoDuplicates(s)
    ensures |s| <= |from|
  {
    if s == [] {
    } else {
      Pigeonhole(s[1..], from - {s[0]});
    }
  }

  /** `sort` on a vector of distinct numbers. */
  function Sort(s: seq<int>): (r: seq<int>)
    requires NoDuplicates(s)
    ensures Ascending(r)
    ensures forall x :: x in r <==> x in s
    ensures |r| == |s|
  {
    DistinctSize(s);
    InOrder(set x | x in s)
  }

  lemma {:induction false} DistinctSize(s: seq<int>)
    requires NoDuplicates(s)
    ensures |set x | x in s| == |s|
  {
    if s == [] {
    } else {
      DistinctSize(s[1..]);
      assert (set x | x in s) == {s[0]} + (set x | x in s[1..]);
    }
  }

  /** Sizes tell whether a subset is the whole set. */
  lemma SubsetSize(a: set<int>, b: set<int>)
    requires a <= b
    ensures |a| <= |b|
    ensures |a| == |b| <==> a == b
  {
    assert b == a + (b - a);
    Inhabited(b - a);
  }

  /** How often a number is listed. */
  function Occurs(s: seq<int>, n: int): nat {
    multiset(s)[n]
  }

  lemma OccursSnoc(s: seq<int>, x: int, n: int)
    ensures Occurs(s + [x], n) == Occurs(s, n) + if n == x then 1 else 0
  {
  }
}
