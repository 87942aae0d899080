/** Sets of integers in increasing order: what sorting the keys of a map yields. */
module Sorted {

  predicate Increasing(q: seq<int>) {
    forall i, j :: 0 <= i < j < |q| ==> q[i] < q[j]
  }

  lemma Inhabited(s: set<int>)
    ensures s == {} || exists x :: x in s
  {
    if forall x :: x !in s {
      assert s == {};
    }
  }

  lemma {:induction false} MinExists(s: set<int>)
    requires s != {}
    ensures exists m :: m in s && forall x :: x in s ==> m <= x
  {
    Inhabited(s);
    var x :| x in s;
    var rest := s - {x};
    if rest == {} {
      assert s == {x};
    } else {
      MinExists(rest);
      var m :| m in rest && forall y :: y in rest ==> m <= y;
      var least := if m < x then m else x;
      forall y | y in s
        ensures least <= y
      {
        assert y == x || y in rest;
      }
      assert least in s;
    }
  }

  function MinOf(s: set<int>): (m: int)
    requires s != {}
    ensures m in s && forall x :: x in s ==> m <= x
  {
    MinExists(s);
    var m :| m in s && forall x :: x in s ==> m <= x;
    m
  }

  /** The elements of `s` in increasing order. */
  function Ascending(s: set<int>): (q: seq<int>)
    ensures Increasing(q)
    ensures |q| == |s|
    ensures forall x :: x in q <==> x in s
    decreases |s|
  {
    if s == {} then [] else
    var m := MinOf(s);
    [m] + Ascending(s - {m})
  }

  /** There is only one way to put a set in increasing order. */
  lemma {:induction false} AscendingUnique(s: set<int>, q: seq<int>)
    requires Increasing(q)
    requires forall x :: x in q <==> x in s
    ensures q == Ascending(s)
    decreases |s|
  {
    if q == [] {
      Inhabited(s);
    } else {
      hide Ascending, Increasing;
      var m := Head(q, s);
      AscendingUnique(s - {m}, q[1..]);
      assert q == [m] + q[1..];
    }
  }

  /** The first of an increasing list is the least of its elements, and the rest lists the rest. */
  lemma Head(q: seq<int>, s: set<int>) returns (m: int)
    requires q != [] && Increasing(q)
    requires forall x :: x in q <==> x in s
    ensures m in s && Ascending(s) == [m] + Ascending(s - {m})
    ensures q[0] == m && Increasing(q[1..]) && forall x :: x in q[1..] <==> x in s - {m}
  {
    assert q[0] in q;
    assert s != {};
    m := MinOf(s);
    hide Ascending, Increasing;
    FirstIsLeast(q, m);
    IncreasingTail(q);
    TailElements(q, s, m);
  }

  lemma TailElements(q: seq<int>, s: set<int>, m: int)
    requires q != [] && q[0] == m
    requires forall x :: x in q <==> x in s
    requires forall x :: x in q[1..] <==> x in q && x != m
    ensures forall x :: x in q[1..] <==> x in s - {m}
  {
  }

  lemma FirstIsLeast(q: seq<int>, m: int)
    requires q != [] && Increasing(q)
    requires m in q && m <= q[0]
    ensures q[0] == m
  {
    var i :| 0 <= i < |q| && q[i] == m;
  }

  lemma IncreasingTail(q: seq<int>)
    requires q != [] && Increasing(q)
    ensures Increasing(q[1..])
    ensures forall x :: x in q[1..] <==> x in q && x != q[0]
  {
    forall i | 0 <= i < |q| && q[i] != q[0]
      ensures q[i] in q[1..]
    {
      assert q[i] == q[1..][i - 1];
    }
  }

  /** Everything in `a` before everything in `b`. */
  lemma AscendingConcat(a: set<int>, b: set<int>)
    requires forall x, y :: x in a && y in b ==> x < y
    ensures Ascending(a + b) == Ascending(a) + Ascending(b)
  {
    hide Ascending;
    var p, q := Ascending(a), Ascending(b);
    forall x, y | x in p && y in q
      ensures x < y
    {
      assert x in a && y in b;
    }
    IncreasingConcat(p, q);
    AscendingUnique(a + b, p + q);
  }

  lemma IncreasingConcat(p: seq<int>, q: seq<int>)
    requires Increasing(p) && Increasing(q) && forall x, y :: x in p && y in q ==> x < y
    ensures Increasing(p + q) && forall x :: x in p + q <==> x in p || x in q
  {
    var s := p + q;
    forall i, j | 0 <= i < j < |s|
      ensures s[i] < s[j]
    {
      if i < |p| <= j {
        assert s[i] in p && s[j] in q;
      }
    }
  }

  /** A new largest element goes at the end. */
  lemma AscendingSnoc(s: set<int>, x: int)
    requires forall y :: y in s ==> y < x
    ensures Ascending(s + {x}) == Ascending(s) + [x]
  {
    AscendingUnique({x}, [x]);
    AscendingConcat(s, {x});
  }

  lemma SubsetSize<T>(a: set<T>, b: set<T>)
    requires a <= b
    ensures |a| <= |b|
    ensures |a| == |b| ==> a == b
  {
    assert b == a + (b - a);
  }
}
