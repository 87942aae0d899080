/** Reads on boundaries of the compaction span see the same aggregates before and after a compaction. */
module AlignedReads {
  import opened Words
  import opened FloatModel
  import opened Rows
  import opened Runs
  import opened Streams
  import opened Interleavings
  import opened Aggregates
  import opened AlignedFolds
  import P = SampleState
  import R = SampleReaders
  import Y = SampleMemory

  // ----- A bucket and the next value -----

  ghost predicate Regroups(F: Floats) {
    && (forall a, b, c :: F.add(F.add(a, b), c) == F.add(a, F.add(b, c)))
    && (forall a :: F.add(0, a) == a)
  }

  /** In one output bucket, a stored bucket and the next value do what the bucket with the value does. */
  lemma StepOnce(F: Floats, span: u64, r: Run<Fold>, b: P.SampleBucket, t: u64, v: u64)
    requires Regroups(F) && BucketOf(b.time, span) == BucketOf(t, span)
    requires b.count > 0
    ensures var g := R.ByBucket(F, span);
            Step(g, Step(g, r, R.Total(b)), R.Point(t, v)) == Step(g, r, R.Total(P.AddPoint(F, b, v)))
  {
    hide BucketOf;
    var f := if r.acc.count > 0 && BucketOf(b.time, span) != r.current then NO_FOLD else r.acc;
    assert AddsUp(F, f.sum, b.sum, v);
    AddIntoBucket(F, f, b, v);
    hide Joined, Added, P.AddPoint;
    JoinCounts(F, f, b);
    BucketKeeps(F, b, v);
  }

  lemma JoinCounts(F: Floats, f: Fold, b: P.SampleBucket)
    requires b.count > 0
    ensures Joined(F, f, b).count > 0
  {
  }

  lemma BucketKeeps(F: Floats, b: P.SampleBucket, v: u64)
    ensures P.AddPoint(F, b, v).time == b.time && P.AddPoint(F, b, v).count == b.count + 1
  {
  }

  lemma StepNew(F: Floats, span: u64, r: Run<Fold>, k: u64, t: u64, v: u64)
    requires Regroups(F) && BucketOf(k, span) == BucketOf(t, span)
    ensures var g := R.ByBucket(F, span);
            Step(g, r, R.Point(t, v)) == Step(g, r, R.Total(P.AddPoint(F, P.EmptyBucket(k), v)))
  {
    hide BucketOf, Joined, Added, P.AddPoint;
    BucketKeeps(F, P.EmptyBucket(k), v);
    NewBucket(F, NO_FOLD, k, v);
    NewBucket(F, r.acc, k, v);
  }

  /** Sample buckets and points as a reader by bucket folds them. */
  function Samples(F: Floats, span: u64): Family<P.SampleBucket, R.Sample, Run<Fold>> {
    Family(P.EmptyBucket, (b: P.SampleBucket, v: u64) => P.AddPoint(F, b, v), (b: P.SampleBucket, v: u64) => true,
           (k: u64, b: P.SampleBucket) => b.time == k && b.count > 0, (k: u64, b: P.SampleBucket) => R.Total(b), Y.PointOf, R.TimeOf,
           Run([], 0, NO_FOLD), (r: Run<Fold>, e: R.Sample) => Step(R.ByBucket(F, span), r, e))
  }

  lemma SamplesFill(F: Floats, span: u64)
    ensures Fills(Samples(F, span))
  {
    hide P.AddPoint, Step, R.ByBucket;
    forall b, v
      ensures P.AddPoint(F, b, v).time == b.time && P.AddPoint(F, b, v).count == b.count + 1
    {
      BucketKeeps(F, b, v);
    }
  }

  lemma SamplesLaws(F: Floats, span: u64)
    requires Regroups(F)
    ensures Absorbing(Samples(F, span), span)
  {
    var f := Samples(F, span);
    hide BucketOf, P.AddPoint, Step, R.ByBucket, Regroups;
    SamplesFill(F, span);
    forall a, k: u64, b: P.SampleBucket, r: Row | f.fits(k, b) && BucketOf(k, span) == BucketOf(r.time, span)
      ensures f.step(f.step(a, f.ofBucket(k, b)), f.ofRow(r)) == f.step(a, f.ofBucket(k, f.add(b, r.value)))
    {
      StepOnce(F, span, a, b, r.time, r.value);
    }
    forall a, k: u64, r: Row | BucketOf(k, span) == BucketOf(r.time, span)
      ensures f.step(a, f.ofRow(r)) == f.step(a, f.ofBucket(k, f.add(f.start(k), r.value)))
    {
      StepNew(F, span, a, k, r.time, r.value);
    }
  }

  lemma {:induction false} SamplesFold(F: Floats, span: u64, es: seq<R.Sample>)
    ensures Seen(Samples(F, span), es) == RunAll(R.ByBucket(F, span), es)
  {
    if es != [] {
      hide Step;
      SamplesFold(F, span, es[..|es| - 1]);
    }
  }

  /** Points taken into buckets are what a compaction groups. */
  lemma SamplesTake(F: Floats, span: u64, m: map<u64, P.SampleBucket>, rows: seq<Row>, c: u64)
    ensures Take(Samples(F, span), m, rows, c) == P.GroupPoints(F, m, rows, c) && Roomy(Samples(F, span), m, rows, c)
  {
    hide P.AddPoint, R.ByBucket, Step;
    GroupSame(m, rows, c, P.EmptyBucket, (b: P.SampleBucket, v: u64) => P.AddPoint(F, b, v), Samples(F, span).add);
    AlwaysRoomy(Samples(F, span), m, rows, c);
  }

  // ----- Whole states -----

  lemma {:induction false} BucketsAlone(bs: seq<P.SampleBucket>)
    ensures Interleave(Y.Feeds(), bs, []) == Map(bs, Y.TotalOf)
  {
    if bs == [] {
    } else {
      var n := |bs| - 1;
      hide Interleave;
      BucketsAlone(bs[..n]);
      assert bs == bs[..n] + [bs[n]];
      InterleaveBucket(Y.Feeds(), bs[..n], [], bs[n]);
      MapSnoc(bs, Y.TotalOf);
    }
  }

  /** In a layered state the cursors see all buckets and then all raw values. */
  lemma LayeredEntries(d: P.Samples, before: u64, c: u64)
    requires P.Layered(d, before, c)
    ensures Interleave(Y.Feeds(), d.buckets, d.rows) == Map(d.buckets, Y.TotalOf) + Map(d.rows, Y.PointOf)
  {
    hide Interleave, Map;
    BucketsAlone(d.buckets);
    InterleaveRows(Y.Feeds(), d.buckets, [], d.rows);
    assert [] + d.rows == d.rows;
  }

  /** The cursors show a window of the buckets, at their times, and of the rows. */
  lemma InMemoryIsWindow(F: Floats, d: P.Samples, m: map<u64, P.SampleBucket>, before: u64, c: u64, from: u64, to: u64, span: u64)
    requires P.Layered(d, before, c) && InOrder(m) == d.buckets
    ensures Y.InMemory(d, from, to) == Window(Samples(F, span), m, d.rows, from, to)
  {
    hide Interleave, Visited, Between, Map, InOrder;
    Y.FeedsLabels();
    Y.SortedTimely(d.buckets, P.BucketTime);
    Y.SortedTimely(d.rows, P.RowTime);
    VisitedIsWindow(Y.Feeds(), d.buckets, d.rows, from, to);
    LayeredEntries(d, before, c);
    BucketsInOrder(F, m, span);
  }

  lemma BucketsInOrder(F: Floats, m: map<u64, P.SampleBucket>, span: u64)
    ensures Buckets(Samples(F, span), m) == Map(InOrder(m), Y.TotalOf)
  {
    hide SortedTimes;
    forall i | 0 <= i < |m|
      ensures Buckets(Samples(F, span), m)[i] == Y.TotalOf(InOrder(m)[i])
    {
      BucketShown(Samples(F, span), m, i);
    }
  }

  /** Rounding set aside, compacting a layered state at a later cutoff changes no aggregate of any read
      whose window and span fall on boundaries of the compaction span. */
  lemma SamplesCompactUnseen(F: Floats, d: P.Samples, before: u64, cutoff: u64, c: u64, from: u64, to: u64, span: u64)
    requires Regroups(F) && Aligned(from, to, span, c)
    requires P.Layered(d, before, c) && before <= cutoff && (forall b :: b in d.buckets ==> b.count > 0)
    ensures Grouped(R.ByBucket(F, span), Y.InMemory(P.Compacted(F, d, cutoff, c), from, to))
         == Grouped(R.ByBucket(F, span), Y.InMemory(d, from, to))
  {
    if d.rows != [] {
      var f, m, o := Samples(F, span), P.BucketMap(d.buckets), Old(d.rows, cutoff);
      var d' := P.Compacted(F, d, cutoff, c);
      assert d' == P.Samples(Young(d.rows, cutoff), InOrder(P.GroupPoints(F, m, o, c)));
      hide P.GroupPoints, BucketOf, InOrder, Window, Seen, RunAll, R.ByBucket, Old, Young, ByTime, Y.InMemory, Nondecreasing,
           P.Layered, Aligned, Regroups, Filled, P.Compacted, Samples, Absorbing, Take, Roomy;
      OldRowsBehind(F, d, before, c, cutoff, span);
      P.CompactLayered(F, d, before, cutoff, c);
      SamplesLaws(F, span);
      SamplesTake(F, span, m, o, c);
      InMemoryIsWindow(F, d, m, before, c, from, to, span);
      InMemoryIsWindow(F, d', P.GroupPoints(F, m, o, c), cutoff, c, from, to, span);
      CompactUnseen(f, m, o, d'.rows, c, from, to, span);
      SamplesFold(F, span, Y.InMemory(d, from, to));
      SamplesFold(F, span, Y.InMemory(d', from, to));
    }
  }

  lemma OldRowsBehind(F: Floats, d: P.Samples, before: u64, c: u64, cutoff: u64, span: u64)
    requires P.Layered(d, before, c) && (forall b :: b in d.buckets ==> b.count > 0)
    ensures var o, m := Old(d.rows, cutoff), P.BucketMap(d.buckets);
            && Filled(Samples(F, span), m) && Nondecreasing(o) && InOrder(m) == d.buckets
            && d.rows == o + Young(d.rows, cutoff)
            && forall t, r :: t in m && r in o ==> t <= BucketOf(r.time, c)
  {
    hide Old, Young, BucketOf, InOrder, ByTime;
    P.InTimeOrder(d.rows);
    OldThenYoung(d.rows, cutoff);
    NondecreasingParts(Old(d.rows, cutoff), Young(d.rows, cutoff));
    OldYoungElements(d.rows, cutoff);
    ByTimeKeyed(d.buckets, P.BucketTime);
    InOrderOfByTime(d.buckets, P.BucketTime);
    var m := P.BucketMap(d.buckets);
    forall t, r | t in m && r in Old(d.rows, cutoff)
      ensures t <= BucketOf(r.time, c)
    {
      assert m[t] in d.buckets;
      BucketMonotone(t, r.time, c);
    }
  }
}
