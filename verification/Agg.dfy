/** Aggregates of the values and stored buckets that fall into one output bucket. */
module Aggregates {
  import opened Words
  import opened FloatModel
  import P = SampleState

  datatype Agg = Sum | Count | Min | Max | Mean | First | Last

  datatype Fold = Fold(count: nat, sum: u64, min: u64, max: u64, first: u64, last: u64)

  const NO_FOLD := Fold(0, 0, 0, 0, 0, 0)

  function Added(F: Floats, f: Fold, v: u64): Fold {
    var g := if f.count == 0 then f.(min := v, max := v, first := v) else f;
    g.(count := g.count + 1, sum := F.add(g.sum, v),
       min := if F.Less(v, g.min) then v else g.min,
       max := if F.Less(g.max, v) then v else g.max,
       last := v)
  }

  /** A bucket that counts nothing is skipped. */
  function Joined(F: Floats, f: Fold, b: P.SampleBucket): Fold {
    if b.count == 0 then f else
    var g := if f.count == 0 then f.(min := b.min, max := b.max, first := b.first) else f;
    g.(count := g.count + b.count, sum := F.add(g.sum, b.sum),
       min := if F.Less(b.min, g.min) then b.min else g.min,
       max := if F.Less(g.max, b.max) then b.max else g.max,
       last := b.last)
  }

  function ValueOf(F: Floats, f: Fold, agg: Agg): u64 {
    match agg
    case Count => F.ofUint(f.count % W)
    case Min => f.min
    case Max => f.max
    case Mean => if f.count == 0 then 0 else F.div(f.sum, F.ofUint(f.count % W))
    case First => f.first
    case Last => f.last
    case Sum => f.sum
  }

  class Accumulator {
    var count: nat
    var sum: u64
    var min: u64
    var max: u64
    var first: u64
    var last: u64

    function View(): Fold
      reads this
    {
      Fold(count, sum, min, max, first, last)
    }

    constructor ()
      ensures View() == NO_FOLD
    {
      count, sum, min, max, first, last := 0, 0, 0, 0, 0, 0;
    }

    method Reset()
      modifies this
      ensures View() == NO_FOLD
    {
      count, sum, min, max, first, last := 0, 0, 0, 0, 0, 0;
    }

    method Add(F: Floats, v: u64)
      modifies this
      ensures View() == Added(F, old(View()), v)
    {
      if count == 0 {
        min, max, first := v, v, v;
      }
      count := count + 1;
      sum := F.add(sum, v);
      if F.Less(v, min) {
        min := v;
      }
      if F.Less(max, v) {
        max := v;
      }
      last := v;
    }

    method Merge(F: Floats, b: P.SampleBucket)
      modifies this
      ensures View() == Joined(F, old(View()), b)
    {
      if b.count == 0 {
        return;
      }
      if count == 0 {
        min, max, first := b.min, b.max, b.first;
      }
      count := count + b.count;
      sum := F.add(sum, b.sum);
      if F.Less(b.min, min) {
        min := b.min;
      }
      if F.Less(max, b.max) {
        max := b.max;
      }
      last := b.last;
    }
  }

  // ----- What the aggregates are -----

  function Folded(F: Floats, vs: seq<u64>): Fold {
    if vs == [] then NO_FOLD else Added(F, Folded(F, vs[..|vs| - 1]), vs[|vs| - 1])
  }

  /** The values added up from zero, in order. */
  function AddedUp(F: Floats, vs: seq<u64>): u64 {
    if vs == [] then 0 else F.add(AddedUp(F, vs[..|vs| - 1]), vs[|vs| - 1])
  }

  /** The aggregates of values added one by one: their number, sum and mean, the first, the last and the
      extremes. */
  lemma {:induction false} FoldedMeans(F: Floats, vs: seq<u64>)
    requires vs != []
    ensures var f := Folded(F, vs);
            && f.count == |vs| && f.first == vs[0] && f.last == vs[|vs| - 1]
            && f.sum == AddedUp(F, vs) && ValueOf(F, f, Mean) == F.div(AddedUp(F, vs), F.ofUint(|vs| % W))
            && f.min in vs && (forall v :: v in vs ==> F.val(f.min) <= F.val(v))
            && f.max in vs && (forall v :: v in vs ==> F.val(v) <= F.val(f.max))
  {
    var n := |vs| - 1;
    assert vs == vs[..n] + [vs[n]];
    if n > 0 {
      FoldedMeans(F, vs[..n]);
    }
  }

  predicate AddsUp(F: Floats, a: u64, b: u64, c: u64) { F.add(F.add(a, b), c) == F.add(a, F.add(b, c)) }

  /** Adding a value to a bucket and merging the bucket is merging the bucket and adding the value. */
  lemma AddIntoBucket(F: Floats, f: Fold, b: P.SampleBucket, v: u64)
    requires b.count > 0 && AddsUp(F, f.sum, b.sum, v)
    ensures Joined(F, f, P.AddPoint(F, b, v)) == Added(F, Joined(F, f, b), v)
  {
  }

  /** A bucket made for one value merges like the value. */
  lemma NewBucket(F: Floats, f: Fold, t: u64, v: u64)
    requires F.add(0, v) == v
    ensures Joined(F, f, P.AddPoint(F, P.EmptyBucket(t), v)) == Added(F, f, v)
  {
  }
}
