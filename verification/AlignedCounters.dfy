/** Aligned sums of counters are the same before and after a compaction. */
module AlignedCounters {
  import opened Words
  import opened FloatModel
  import opened Rows
  import opened Pendings
  import opened Runs
  import opened Streams
  import opened Interleavings
  import opened Aggregates
  import opened AlignedFolds
  import opened AlignedReads
  import P = SampleState
  import N = CounterState
  import H = Histograms
  import R = SampleReaders
  import Y = SampleMemory
  import X = CounterReaders
  import FastPaths

  // ----- Only the sum of an aggregate -----

  datatype Part = Part(some: bool, sum: u64)

  function AddPart(F: Floats, a: Part, e: X.Amount): Part { Part(true, F.add(a.sum, F.ofUint(e.value))) }

  function SumBy(F: Floats, span: u64): Grouping<X.Amount, Part> {
    Grouping((e: X.Amount) => BucketOf(e.at, span), (a: Part, e: X.Amount) => AddPart(F, a, e), Part(false, 0), (a: Part) => a.some)
  }

  function Plain(out: seq<(u64, Part)>): (vs: seq<(u64, u64)>)
    ensures |vs| == |out|
  {
    seq(|out|, i requires 0 <= i < |out| => (out[i].0, out[i].1.sum))
  }

  ghost predicate Projects(F: Floats, r: Run<Fold>, q: Run<Part>) {
    && q.current == r.current && q.acc == Part(r.acc.count > 0, r.acc.sum)
    && Plain(q.out) == R.Valued(F, r.out, Sum)
  }

  lemma ProjectStep(F: Floats, span: u64, r: Run<Fold>, q: Run<Part>, e: X.Amount)
    requires Projects(F, r, q)
    ensures Projects(F, Step(X.ByBucket(F, span), r, e), Step(SumBy(F, span), q, e))
  {
    hide BucketOf, ValueOf;
    PlainSnoc(q.out, (q.current, q.acc));
    Y.ValuedSnoc(F, r.out, (r.current, r.acc), Sum);
    assert ValueOf(F, r.acc, Sum) == r.acc.sum by { SumValue(F, r.acc); }
  }

  lemma SumValue(F: Floats, f: Fold)
    ensures ValueOf(F, f, Sum) == f.sum
  {
  }

  lemma {:induction false} ProjectAll(F: Floats, span: u64, es: seq<X.Amount>)
    ensures Projects(F, RunAll(X.ByBucket(F, span), es), RunAll(SumBy(F, span), es))
  {
    if es != [] {
      hide Projects, Step;
      ProjectAll(F, span, es[..|es| - 1]);
      ProjectStep(F, span, RunAll(X.ByBucket(F, span), es[..|es| - 1]), RunAll(SumBy(F, span), es[..|es| - 1]), es[|es| - 1]);
    }
  }

  /** What a reader yields for `Sum` depends on the sums alone. */
  lemma SumsYielded(F: Floats, span: u64, es: seq<X.Amount>)
    ensures R.Valued(F, Grouped(X.ByBucket(F, span), es), Sum) == Plain(Grouped(SumBy(F, span), es))
  {
    hide RunAll;
    ProjectAll(F, span, es);
    var r, q := RunAll(X.ByBucket(F, span), es), RunAll(SumBy(F, span), es);
    PlainSnoc(q.out, (q.current, q.acc));
    Y.ValuedSnoc(F, r.out, (r.current, r.acc), Sum);
  }

  lemma PlainSnoc(out: seq<(u64, Part)>, x: (u64, Part))
    ensures Plain(out + [x]) == Plain(out) + [(x.0, x.1.sum)]
  {
  }

  // ----- One row into its bucket -----

  /** Converting counts to floats is exact as long as they do not wrap around. */
  ghost predicate Converts(F: Floats) {
    Regroups(F) && forall a: u64, b: u64 :: a + b < W ==> F.ofUint(a + b) == F.add(F.ofUint(a), F.ofUint(b))
  }

  lemma SumOnce(F: Floats, span: u64, r: Run<Part>, k: u64, s: u64, t: u64, v: u64)
    requires Converts(F) && BucketOf(k, span) == BucketOf(t, span) && s + v < W
    ensures var g := SumBy(F, span);
            Step(g, Step(g, r, X.Amount(k, s, false)), X.Amount(t, v, true)) == Step(g, r, X.Amount(k, Add(s, v), false))
  {
    hide BucketOf, Converts;
    SumsConvert(F, r.acc.sum, s, v);
    SumsConvert(F, 0, s, v);
  }

  lemma SumsConvert(F: Floats, a: u64, s: u64, v: u64)
    requires Converts(F) && s + v < W
    ensures F.add(F.add(a, F.ofUint(s)), F.ofUint(v)) == F.add(a, F.ofUint(s + v))
  {
    assert F.ofUint(s + v) == F.add(F.ofUint(s), F.ofUint(v));
  }

  /** Counter buckets and adds as a reader by bucket sums them; a bucket has room while its sum does not wrap around. */
  function Sums(F: Floats, span: u64): Family<u64, X.Amount, Run<Part>> {
    Family(N.Zero, Add, (s: u64, v: u64) => s + v < W, (k: u64, s: u64) => true,
           (k: u64, s: u64) => X.Amount(k, s, false), X.AddOf, X.TimeOf,
           Run([], 0, Part(false, 0)), (r: Run<Part>, e: X.Amount) => Step(SumBy(F, span), r, e))
  }

  lemma SumsLaws(F: Floats, span: u64)
    requires Converts(F)
    ensures Absorbing(Sums(F, span), span)
  {
    var f := Sums(F, span);
    hide BucketOf, Converts, SumBy, Step;
    forall a, k: u64, s: u64, r: Row | f.room(s, r.value) && BucketOf(k, span) == BucketOf(r.time, span)
      ensures f.step(f.step(a, f.ofBucket(k, s)), f.ofRow(r)) == f.step(a, f.ofBucket(k, f.add(s, r.value)))
    {
      SumOnce(F, span, a, k, s, r.time, r.value);
    }
    forall a, k: u64, r: Row | BucketOf(k, span) == BucketOf(r.time, span)
      ensures f.step(a, f.ofRow(r)) == f.step(a, f.ofBucket(k, f.add(f.start(k), r.value)))
    {
      SumNew(F, span, a, k, r);
    }
  }

  lemma SumNew(F: Floats, span: u64, run: Run<Part>, k: u64, r: Row)
    requires BucketOf(k, span) == BucketOf(r.time, span)
    ensures var g := SumBy(F, span); Step(g, run, X.AddOf(r)) == Step(g, run, X.Amount(k, Add(0, r.value), false))
  {
    hide BucketOf;
  }

  lemma {:induction false} SumsFold(F: Floats, span: u64, es: seq<X.Amount>)
    ensures Seen(Sums(F, span), es) == RunAll(SumBy(F, span), es)
  {
    if es != [] {
      hide Step;
      SumsFold(F, span, es[..|es| - 1]);
    }
  }

  lemma {:induction false} SumsRoomy(F: Floats, span: u64, m: map<u64, u64>, rows: seq<Row>, c: u64)
    requires H.Total(m) + N.RowTotal(rows) < W
    ensures Roomy(Sums(F, span), m, rows, c) && H.Total(N.GroupSums(m, rows, c)) == H.Total(m) + N.RowTotal(rows)
  {
    if rows != [] {
      var front, r := rows[..|rows| - 1], rows[|rows| - 1];
      SumsRoomy(F, span, m, front, c);
      var g, k := N.GroupSums(m, front, c), BucketOf(r.time, c);
      hide H.Total, BucketOf, SumBy, Step;
      PutExactly(g, k, r.value);
    }
  }

  lemma PutExactly(m: map<u64, u64>, k: u64, v: u64)
    requires H.Total(m) + v < W
    ensures N.SumAt(m, k) + v < W && H.Total(m[k := Add(N.SumAt(m, k), v)]) == H.Total(m) + v
  {
    hide H.Total;
    if k in m {
      H.TotalTake(m, k);
    }
    H.TotalPut(m, k, Add(N.SumAt(m, k), v));
  }

  lemma {:induction false} GroupTimes(m: map<u64, u64>, rows: seq<Row>, c: u64)
    ensures forall t :: t in N.GroupSums(m, rows, c) ==> t in m || exists r :: r in rows && BucketOf(r.time, c) == t
  {
    if rows != [] {
      var front, r := rows[..|rows| - 1], rows[|rows| - 1];
      assert rows == front + [r];
      GroupTimes(m, front, c);
      N.GroupSnoc(m, front, r, c);
      hide N.GroupSums, BucketOf;
    }
  }

  // ----- Whole states -----

  /** Buckets on boundaries and before all raw adds. */
  ghost predicate Layered(d: N.Counters, cutoff: u64, span: u64) {
    && Nondecreasing(d.rows) && IncreasingBy(d.buckets, N.BucketTime)
    && (forall r :: r in d.rows ==> r.time >= cutoff)
    && (forall b :: b in d.buckets ==> b.time < cutoff && BucketOf(b.time, span) == b.time)
  }

  /** Compactions with nondecreasing cutoffs and one span keep buckets before raw adds. */
  lemma CompactLayered(d: N.Counters, before: u64, cutoff: u64, span: u64)
    requires Layered(d, before, span) && before <= cutoff
    ensures Layered(N.Compacted(d, cutoff, span), cutoff, span)
  {
    hide BucketOf, N.GroupSums, N.SumBuckets, N.ToBuckets, Old, Young, H.Total, N.RowTotal, N.BucketsIncreasing;
    FastPaths.YoungParts(d.rows, cutoff);
    OldYoungElements(d.rows, cutoff);
    FastPaths.BucketOrders(d.buckets);
    N.SumDistinct(d.buckets);
    var m := N.SumBuckets(map[], d.buckets);
    var g := N.GroupSums(m, Old(d.rows, cutoff), span);
    GroupTimes(m, Old(d.rows, cutoff), span);
    CounterBucketsOrdered(g);
    N.ToBucketsAt(g);
    var bs := N.ToBuckets(g);
    forall b | b in bs
      ensures b.time < cutoff && BucketOf(b.time, span) == b.time
    {
      var i :| 0 <= i < |bs| && bs[i] == b;
      assert b.time in g;
      if b.time !in m {
        var r :| r in Old(d.rows, cutoff) && BucketOf(r.time, span) == b.time;
        P.BucketIdempotent(r.time, span);
      }
    }
  }

  lemma {:induction false} BucketsAlone(bs: seq<N.CounterBucket>)
    ensures Interleave(X.Feeds(), bs, []) == Map(bs, X.TotalOf)
  {
    if bs != [] {
      var n := |bs| - 1;
      hide Interleave;
      BucketsAlone(bs[..n]);
      assert bs == bs[..n] + [bs[n]];
      InterleaveBucket(X.Feeds(), bs[..n], [], bs[n]);
      MapSnoc(bs, X.TotalOf);
    }
  }

  /** The cursors show a window of the buckets and of the rows. */
  lemma InMemoryIsWindow(F: Floats, d: N.Counters, m: map<u64, u64>, before: u64, c: u64, from: u64, to: u64, span: u64)
    requires Layered(d, before, c) && N.ToBuckets(m) == d.buckets
    ensures X.InMemory(d, from, to) == Window(Sums(F, span), m, d.rows, from, to)
  {
    hide Interleave, Visited, Between, Map, N.ToBuckets;
    X.FeedsLabels();
    Y.SortedTimely(d.buckets, N.BucketTime);
    X.RowsTimely(d.rows);
    VisitedIsWindow(X.Feeds(), d.buckets, d.rows, from, to);
    BucketsAlone(d.buckets);
    InterleaveRows(X.Feeds(), d.buckets, [], d.rows);
    assert [] + d.rows == d.rows;
    BucketsInOrder(F, m, span);
  }

  lemma BucketsInOrder(F: Floats, m: map<u64, u64>, span: u64)
    ensures Buckets(Sums(F, span), m) == Map(N.ToBuckets(m), X.TotalOf)
  {
    hide SortedTimes, N.ToBuckets, Buckets;
    forall i | 0 <= i < |m|
      ensures Buckets(Sums(F, span), m)[i] == X.TotalOf(N.ToBuckets(m)[i])
    {
      BucketShown(Sums(F, span), m, i);
      N.ToBucketsIndex(m, i);
    }
  }

  lemma OldRowsBehind(d: N.Counters, before: u64, c: u64, cutoff: u64)
    requires Layered(d, before, c)
    ensures var o, m := Old(d.rows, cutoff), N.SumBuckets(map[], d.buckets);
            && Nondecreasing(o) && N.ToBuckets(m) == d.buckets && d.rows == o + Young(d.rows, cutoff)
            && forall t, r :: t in m && r in o ==> t <= BucketOf(r.time, c)
  {
    hide Old, Young, BucketOf, N.SumBuckets, N.ToBuckets, N.BucketsIncreasing;
    OldThenYoung(d.rows, cutoff);
    NondecreasingParts(Old(d.rows, cutoff), Young(d.rows, cutoff));
    OldYoungElements(d.rows, cutoff);
    FastPaths.ToBucketsOfSums(d.buckets);
    FastPaths.BucketOrders(d.buckets);
    N.SumDistinct(d.buckets);
    var m := N.SumBuckets(map[], d.buckets);
    forall t, r | t in m && r in Old(d.rows, cutoff)
      ensures t <= BucketOf(r.time, c)
    {
      var b :| b in d.buckets && b.time == t;
      BucketMonotone(t, r.time, c);
    }
  }

  /** As long as the counter does not wrap around, compacting a layered state changes no aligned `Sum`. */
  lemma CountersCompactUnseen(F: Floats, d: N.Counters, before: u64, cutoff: u64, c: u64, from: u64, to: u64, span: u64)
    requires Converts(F) && Aligned(from, to, span, c)
    requires Layered(d, before, c) && before <= cutoff
    requires H.Total(N.SumBuckets(map[], d.buckets)) + N.RowTotal(Old(d.rows, cutoff)) < W
    ensures R.Valued(F, Grouped(X.ByBucket(F, span), X.InMemory(N.Compacted(d, cutoff, c), from, to)), Sum)
         == R.Valued(F, Grouped(X.ByBucket(F, span), X.InMemory(d, from, to)), Sum)
  {
    var d' := N.Compacted(d, cutoff, c);
    var f, m, o := Sums(F, span), N.SumBuckets(map[], d.buckets), Old(d.rows, cutoff);
    assert d' == N.Counters(Young(d.rows, cutoff), N.ToBuckets(N.GroupSums(m, o, c)));
    assert Take(f, m, o, c) == N.GroupSums(m, o, c) && Filled(f, m);
    hide N.GroupSums, N.SumBuckets, BucketOf, N.ToBuckets, Window, Seen, RunAll, SumBy, Old, Young, X.InMemory, Nondecreasing, Layered,
         Aligned, Converts, N.Compacted, H.Total, N.RowTotal, X.ByBucket, Sums, Absorbing, Take, Roomy, Filled;
    OldRowsBehind(d, before, c, cutoff);
    CompactLayered(d, before, cutoff, c);
    SumsLaws(F, span);
    SumsRoomy(F, span, m, o, c);
    InMemoryIsWindow(F, d, m, before, c, from, to, span);
    InMemoryIsWindow(F, d', N.GroupSums(m, o, c), cutoff, c, from, to, span);
    CompactUnseen(f, m, o, d'.rows, c, from, to, span);
    SumsFold(F, span, X.InMemory(d, from, to));
    SumsFold(F, span, X.InMemory(d', from, to));
    SumsYielded(F, span, X.InMemory(d, from, to));
    SumsYielded(F, span, X.InMemory(d', from, to));
  }
}
