/** Quantile sketches in memory: exact values while there are few ways to have kept them, bins after that. */
module Sketches {
  import opened Words
  import opened FloatModel
  import opened Keys
  import opened Histograms
  import opened Reader

  /** The value of a sketch. `exact` holds observations not yet binned. */
  datatype Summary = Summary(count: nat, sum: u64, min: u64, max: u64, exact: Option<seq<u64>>, hist: Hist)

  const NEW := Summary(0, 0, 0, 0, None, EMPTY)

  function ExactOf(v: Summary): seq<u64> {
    if v.exact.Some? then v.exact.value else []
  }

  // ----- What the operations compute -----

  function AddStats(F: Floats, v: Summary, x: u64): Summary {
    var least := if v.count == 0 then x else v.min;
    var greatest := if v.count == 0 then x else v.max;
    v.(count := v.count + 1, sum := F.add(v.sum, x),
       min := if F.Less(x, least) then x else least,
       max := if F.Less(greatest, x) then x else greatest)
  }

  /** The histogram of `n` observations of x. */
  function Bins(F: Floats, x: u64, n: nat): Hist {
    var r := F.val(x);
    if r == 0.0 then Hist(n, map[], map[])
    else if r < 0.0 then Hist(0, map[Key(-r) := n], map[])
    else Hist(0, map[], map[Key(r) := n])
  }

  ghost function AddApprox(F: Floats, v: Summary, x: u64): Summary {
    var w := AddStats(F, v, x);
    w.(hist := Collapse(Plus(v.hist, Bins(F, x, 1))))
  }

  ghost function AddExact(F: Floats, v: Summary, x: u64): Summary {
    if v.count > 0 && v.exact.None? then AddApprox(F, v, x)
    else AddStats(F, v, x).(exact := Some(ExactOf(v) + [x]))
  }

  ghost function Approximate(F: Floats, v: Summary): Summary {
    if v.exact.None? then v
    else v.(exact := None, hist := Collapse(Plus(v.hist, HistOf(F, v.exact.value))))
  }

  /** Merging what was decoded from another sketch's bytes. */
  ghost function Merge(F: Floats, v: Summary, other: Summary): Summary {
    if other.count == 0 then v else
    var w := v.(count := v.count + other.count, sum := F.add(v.sum, other.sum),
                min := if v.count == 0 then other.min else F.Min(v.min, other.min),
                max := if v.count == 0 then other.max else F.Max(v.max, other.max));
    if (v.count == 0 || v.exact.Some?) && other.exact.Some? then
      w.(exact := Some(ExactOf(v) + other.exact.value))
    else
      w.(exact := None, hist := Collapse(Plus(Approximate(F, v).hist, Approximate(F, other).hist)))
  }

  // ----- Folding over observations -----

  /** `one(s[0])`, `one(s[1])`, ... combined from the left. */
  function Fold<T>(one: u64 -> T, plus: (T, T) -> T, zero: T, s: seq<u64>): T {
    if s == [] then zero else plus(Fold(one, plus, zero, s[..|s| - 1]), one(s[|s| - 1]))
  }

  ghost predicate Abelian<T(!new)>(plus: (T, T) -> T, zero: T) {
    && (forall a, b, c :: plus(plus(a, b), c) == plus(a, plus(b, c)))
    && (forall a, b :: plus(a, b) == plus(b, a))
    && (forall a :: plus(zero, a) == a)
  }

  lemma {:induction false} FoldConcat<T(!new)>(one: u64 -> T, plus: (T, T) -> T, zero: T, a: seq<u64>, b: seq<u64>)
    requires Abelian(plus, zero)
    ensures Fold(one, plus, zero, a + b) == plus(Fold(one, plus, zero, a), Fold(one, plus, zero, b))
  {
    hide Abelian;
    if b == [] {
      assert a + b == a;
      AbelianAt(plus, zero, Fold(one, plus, zero, a), zero, zero);
    } else {
      var n := |b| - 1;
      assert (a + b)[..|a| + n] == a + b[..n];
      FoldConcat(one, plus, zero, a, b[..n]);
      AbelianAt(plus, zero, Fold(one, plus, zero, a), Fold(one, plus, zero, b[..n]), one(b[n]));
    }
  }

  lemma AbelianAt<T(!new)>(plus: (T, T) -> T, zero: T, a: T, b: T, c: T)
    requires Abelian(plus, zero)
    ensures plus(plus(a, b), c) == plus(a, plus(b, c)) && plus(a, b) == plus(b, a) && plus(zero, a) == a
  {
  }

  /** An element anywhere may as well come last. */
  lemma FoldMiddle<T(!new)>(one: u64 -> T, plus: (T, T) -> T, zero: T, front: seq<u64>, x: u64, back: seq<u64>)
    requires Abelian(plus, zero)
    ensures Fold(one, plus, zero, front + [x] + back) == Fold(one, plus, zero, front + back + [x])
  {
    FoldConcat(one, plus, zero, front + [x], back);
    FoldConcat(one, plus, zero, front, [x]);
    FoldConcat(one, plus, zero, front + back, [x]);
    FoldConcat(one, plus, zero, front, back);
    var f, o, k := Fold(one, plus, zero, front), Fold(one, plus, zero, [x]), Fold(one, plus, zero, back);
    AbelianAt(plus, zero, f, o, k);
    AbelianAt(plus, zero, o, k, k);
    AbelianAt(plus, zero, f, k, o);
    hide Abelian, Fold;
  }

  lemma RemoveLast(a: seq<u64>, b: seq<u64>) returns (front: seq<u64>, back: seq<u64>)
    requires a != [] && multiset(a) == multiset(b)
    ensures b == front + [a[|a| - 1]] + back
    ensures multiset(a[..|a| - 1]) == multiset(front + back)
  {
    var n := |a| - 1;
    var x := a[n];
    assert a == a[..n] + [x];
    assert multiset(a) == multiset(a[..n]) + multiset{x};
    assert x in multiset(b);
    var i :| 0 <= i < |b| && b[i] == x;
    front, back := b[..i], b[i + 1..];
    MiddleElement(front, x, back);
    assert b == front + [x] + back;
    SameRest(multiset(a[..n]), multiset(front + back), x);
  }

  lemma MiddleElement(front: seq<u64>, x: u64, back: seq<u64>)
    ensures multiset(front + [x] + back) == multiset(front + back) + multiset{x}
  {
  }

  lemma SameRest(a: multiset<u64>, b: multiset<u64>, x: u64)
    requires a + multiset{x} == b + multiset{x}
    ensures a == b
  {
    assert a == (a + multiset{x}) - multiset{x};
    assert b == (b + multiset{x}) - multiset{x};
  }

  /** The order of the elements does not matter. */
  lemma {:induction false} FoldPermuted<T(!new)>(one: u64 -> T, plus: (T, T) -> T, zero: T, a: seq<u64>, b: seq<u64>)
    requires Abelian(plus, zero)
    requires multiset(a) == multiset(b)
    ensures Fold(one, plus, zero, a) == Fold(one, plus, zero, b)
    decreases |a|
  {
    if a == [] {
      assert |multiset(b)| == 0;
    } else {
      var x := a[|a| - 1];
      var front, back := RemoveLast(a, b);
      FoldPermuted(one, plus, zero, a[..|a| - 1], front + back);
      FoldMiddle(one, plus, zero, front, x, back);
      assert (front + back + [x])[..|front + back|] == front + back;
    }
  }

  /** The full histogram of some observations, with no bin ever dropped. */
  function HistOf(F: Floats, obs: seq<u64>): Hist {
    Fold(x => Bins(F, x, 1), Plus, EMPTY, obs)
  }

  /** The observations added up from zero in order. */
  function SumOf(F: Floats, obs: seq<u64>): u64 {
    Fold(x => x, F.add, 0, obs)
  }

  lemma HistogramsAbelian()
    ensures Abelian(Plus, EMPTY)
  {
    forall a, b, c ensures Plus(Plus(a, b), c) == Plus(a, Plus(b, c)) { PlusAssociative(a, b, c); }
    forall a, b ensures Plus(a, b) == Plus(b, a) { PlusCommutes(a, b); }
    forall a ensures Plus(EMPTY, a) == a { PlusEmpty(a); }
  }

  lemma HistOfConcat(F: Floats, a: seq<u64>, b: seq<u64>)
    ensures HistOf(F, a + b) == Plus(HistOf(F, a), HistOf(F, b))
  {
    HistogramsAbelian();
    FoldConcat(x => Bins(F, x, 1), Plus, EMPTY, a, b);
  }

  lemma HistOfOne(F: Floats, x: u64)
    ensures HistOf(F, []) == EMPTY
    ensures HistOf(F, [x]) == Bins(F, x, 1)
  {
    hide Plus, Bins;
    assert [x][..0] == [];
    PlusEmpty(Bins(F, x, 1));
  }

  /** A histogram of n observations has mass n, and no empty bins. */
  lemma {:induction false} HistOfMass(F: Floats, obs: seq<u64>)
    ensures Mass(HistOf(F, obs)) == |obs|
    ensures Positive(HistOf(F, obs))
  {
    if obs == [] {
    } else {
      var n := |obs| - 1;
      assert obs == obs[..n] + [obs[n]];
      HistOfConcat(F, obs[..n], [obs[n]]);
      HistOfOne(F, obs[n]);
      HistOfMass(F, obs[..n]);
      MassPlus(HistOf(F, obs[..n]), Bins(F, obs[n], 1));
      BinsMass(F, obs[n], 1);
    }
  }

  lemma BinsMass(F: Floats, x: u64, n: nat)
    ensures Mass(Bins(F, x, n)) == n
    ensures n > 0 ==> Positive(Bins(F, x, n))
  {
    var r := F.val(x);
    if r != 0.0 {
      var k := Key(Magnitude(r));
      TotalPut(map[], k, n);
      assert map[][k := n] == map[k := n];
    }
  }

  // ----- What a sketch stands for -----

  ghost predicate Bounds(F: Floats, v: Summary, obs: seq<u64>) {
    if obs == [] then v.min == 0 && v.max == 0 else
    && v.min in obs && (forall x :: x in obs ==> F.val(v.min) <= F.val(x))
    && v.max in obs && (forall x :: x in obs ==> F.val(x) <= F.val(v.max))
  }

  /** `v` is a sketch of exactly the observations `obs`: its count, extremes and, rounding aside, its
      sum are theirs, and binning what is still exact leaves the top bins of their full histogram. */
  ghost predicate Represents(F: Floats, v: Summary, obs: seq<u64>) {
    && v.count == |obs|
    && (F.Exact() ==> v.sum == SumOf(F, obs))
    && Bounds(F, v, obs)
    && |Codes(v.hist)| <= MAX_BINS
    && Positive(v.hist)
    && Collapse(Plus(v.hist, HistOf(F, ExactOf(v)))) == Collapse(HistOf(F, obs))
  }

  /** Exact values and bins are not held at once, as in anything decoded or built for reading. */
  predicate Unmixed(v: Summary) {
    v.exact.Some? || v.count == 0 ==> v.hist == EMPTY
  }

  lemma NewRepresents(F: Floats)
    ensures Represents(F, NEW, []) && Unmixed(NEW)
  {
    hide Plus, Collapse, HistOf;
    assert Codes(EMPTY) == {};
    PlusEmpty(EMPTY);
    HistOfOne(F, 0);
  }

  /** The invariant every stored sketch must satisfy: each observation is counted in one place. */
  lemma CountedOnce(F: Floats, v: Summary, obs: seq<u64>)
    requires Represents(F, v, obs)
    ensures v.count == |ExactOf(v)| + v.hist.zero + Total(v.hist.negative) + Total(v.hist.positive)
  {
    var all := Plus(v.hist, HistOf(F, ExactOf(v)));
    CollapseShape(all);
    CollapseShape(HistOf(F, obs));
    MassPlus(v.hist, HistOf(F, ExactOf(v)));
    HistOfMass(F, ExactOf(v));
    HistOfMass(F, obs);
  }

  lemma StatsRepresent(F: Floats, v: Summary, obs: seq<u64>, x: u64)
    requires Represents(F, v, obs)
    ensures AddStats(F, v, x).count == |obs + [x]|
    ensures F.Exact() ==> AddStats(F, v, x).sum == SumOf(F, obs + [x])
    ensures Bounds(F, AddStats(F, v, x), obs + [x])
  {
    hide Plus, Collapse, Codes, HistOf;
    assert (obs + [x])[..|obs|] == obs;
  }

  /** Binning one more observation, with eviction right after it. */
  lemma AddApproxRepresents(F: Floats, v: Summary, obs: seq<u64>, x: u64)
    requires Represents(F, v, obs)
    ensures Represents(F, AddApprox(F, v, x), obs + [x])
  {
    hide Plus, Collapse, Codes, HistOf, Bins;
    StatsRepresent(F, v, obs, x);
    var e, b := HistOf(F, ExactOf(v)), Bins(F, x, 1);
    var w := AddApprox(F, v, x);
    calc {
      Collapse(Plus(w.hist, e));
      { CollapseOfPlus(Plus(v.hist, b), e); }
      Collapse(Plus(Plus(v.hist, b), e));
      { PlusAssociative(v.hist, b, e); PlusCommutes(b, e); PlusAssociative(v.hist, e, b); }
      Collapse(Plus(Plus(v.hist, e), b));
      { CollapseOfPlus(Plus(v.hist, e), b); CollapseOfPlus(HistOf(F, obs), b); }
      Collapse(Plus(HistOf(F, obs), b));
      { HistOfConcat(F, obs, [x]); HistOfOne(F, x); }
      Collapse(HistOf(F, obs + [x]));
    }
    CollapseShape(Plus(v.hist, b));
    BinsMass(F, x, 1);
    PlusPositive(v.hist, b);
  }

  lemma AddExactRepresents(F: Floats, v: Summary, obs: seq<u64>, x: u64)
    requires Represents(F, v, obs)
    ensures Represents(F, AddExact(F, v, x), obs + [x])
  {
    hide Plus, Collapse, Codes, HistOf, Bins;
    if v.count > 0 && v.exact.None? {
      AddApproxRepresents(F, v, obs, x);
    } else {
      StatsRepresent(F, v, obs, x);
      AppendRepresents(F, v, ExactOf(v), obs, [x]);
    }
  }

  /** More exact values on one side, the same observations on the other. */
  lemma AppendRepresents(F: Floats, v: Summary, exact: seq<u64>, obs: seq<u64>, more: seq<u64>)
    requires Collapse(Plus(v.hist, HistOf(F, exact))) == Collapse(HistOf(F, obs))
    ensures Collapse(Plus(v.hist, HistOf(F, exact + more))) == Collapse(HistOf(F, obs + more))
  {
    hide Plus, Collapse, HistOf;
    var e, m := HistOf(F, exact), HistOf(F, more);
    HistOfConcat(F, exact, more);
    HistOfConcat(F, obs, more);
    PlusAssociative(v.hist, e, m);
    CollapseOfPlus(Plus(v.hist, e), m);
    CollapseOfPlus(HistOf(F, obs), m);
  }

  /** Binning the exact values: the bins are then the top of the full histogram, whatever came before. */
  lemma ApproximateRepresents(F: Floats, v: Summary, obs: seq<u64>)
    requires Represents(F, v, obs)
    ensures Represents(F, Approximate(F, v), obs)
    ensures Approximate(F, v).exact.None?
    ensures Approximate(F, v).hist == Collapse(HistOf(F, obs))
  {
    hide Plus, Collapse, Codes, HistOf;
    var full := HistOf(F, obs);
    HistOfOne(F, 0);
    CollapseShape(full);
    CollapseShape(Collapse(full));
    PlusEmpty(v.hist);
    PlusEmpty(Collapse(full));
    CollapseShape(v.hist);
    HistOfMass(F, obs);
  }

  lemma MergeBounds(F: Floats, v: Summary, other: Summary, a: seq<u64>, b: seq<u64>)
    requires Represents(F, v, a) && Represents(F, other, b)
    ensures Bounds(F, Merge(F, v, other), a + b)
  {
    hide Plus, Collapse, Codes, HistOf, Approximate;
    var w := Merge(F, v, other);
    if b == [] {
      assert a + b == a;
    } else if a == [] {
      assert a + b == b;
    } else {
      assert a + b != [];
      assert forall x :: x in a + b <==> x in a || x in b;
      assert w.min == F.Min(v.min, other.min) && w.max == F.Max(v.max, other.max);
    }
  }

  lemma MergeSum(F: Floats, v: Summary, other: Summary, a: seq<u64>, b: seq<u64>)
    requires Represents(F, v, a) && Represents(F, other, b) && F.Exact()
    ensures Merge(F, v, other).sum == SumOf(F, a + b)
  {
    hide Plus, Collapse, Codes, HistOf, Approximate;
    FoldConcat(x => x, F.add, 0, a, b);
    if b == [] {
      assert a + b == a;
    }
  }

  /** Merging two sketches is sketching all their observations. */
  lemma MergeRepresents(F: Floats, v: Summary, other: Summary, a: seq<u64>, b: seq<u64>)
    requires Represents(F, v, a) && Represents(F, other, b) && Unmixed(other)
    ensures Represents(F, Merge(F, v, other), a + b)
  {
    hide Plus, Collapse, Codes, HistOf, Fold;
    MergeBounds(F, v, other, a, b);
    if F.Exact() {
      MergeSum(F, v, other, a, b);
    }
    HistOfConcat(F, a, b);
    var ha, hb := HistOf(F, a), HistOf(F, b);
    CollapseOfParts(ha, hb);
    if other.count == 0 {
      assert a + b == a;
    } else if (v.count == 0 || v.exact.Some?) && other.exact.Some? {
      var ea, eb := HistOf(F, ExactOf(v)), HistOf(F, other.exact.value);
      HistOfConcat(F, ExactOf(v), other.exact.value);
      PlusEmpty(eb);
      PlusAssociative(v.hist, ea, eb);
      CollapseOfParts(Plus(v.hist, ea), eb);
    } else {
      ApproximateRepresents(F, v, a);
      ApproximateRepresents(F, other, b);
      CollapseShape(Plus(ha, hb));
      HistOfMass(F, a + b);
      HistOfOne(F, 0);
      PlusEmpty(Collapse(Plus(ha, hb)));
      CollapseShape(Collapse(Plus(ha, hb)));
    }
  }

  /** Rounding and signed zeros aside, two sketches of the same observations are the same once
      approximated: however the observations were ordered, split up, kept exact or merged. */
  lemma SketchesAgree(F: Floats, v: Summary, w: Summary, a: seq<u64>, b: seq<u64>)
    requires Represents(F, v, a) && Represents(F, w, b)
    requires multiset(a) == multiset(b)
    ensures Approximate(F, v).hist == Approximate(F, w).hist
    ensures v.count == w.count
    ensures F.val(v.min) == F.val(w.min) && F.val(v.max) == F.val(w.max)
    ensures F.Exact() && F.Distinct() ==> Approximate(F, v) == Approximate(F, w)
  {
    hide Plus, Collapse, Codes, Bins;
    ApproximateRepresents(F, v, a);
    ApproximateRepresents(F, w, b);
    HistogramsAbelian();
    FoldPermuted(x => Bins(F, x, 1), Plus, EMPTY, a, b);
    assert |multiset(a)| == |multiset(b)|;
    forall x
      ensures x in a <==> x in b
    {
      assert x in a <==> x in multiset(a);
      assert x in b <==> x in multiset(b);
    }
    if F.Exact() {
      FoldPermuted(x => x, F.add, 0, a, b);
    }
  }
}
