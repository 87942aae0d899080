/** States whose buckets lie before a cutoff and whose raw entries lie behind it: what keeps them so, and
    that they stream in time order. */
module LayeredStates {
  import opened Words
  import opened Reader
  import opened FloatModel
  import opened Rows
  import opened Pendings
  import opened Blocks
  import opened Segments
  import opened AppendLaws
  import opened FastPaths
  import opened Streams
  import opened Interleavings
  import P = SampleState
  import N = CounterState
  import K = SketchState
  import M = SketchMerges
  import G = SketchReaders
  import Z = SketchPaths
  import Y = SampleMemory
  import X = CounterReaders
  import AF = AlignedFolds
  import AlignedReads
  import AC = AlignedCounters
  import AS = AlignedSketches
  import LatestWrites

  /** Bucket times on span boundaries before the cutoff, raw times not before it, no empty buckets. */
  ghost predicate Layered(p: State, cutoff: u64, span: u64) {
    && P.Layered(p.samples, cutoff, span) && (forall b :: b in p.samples.buckets ==> b.count > 0)
    && AC.Layered(p.counters, cutoff, span)
    && AS.Layered(p.sketches, cutoff, span) && AS.HoldsSome(p.sketches)
  }

  /** Raw entries only, and none older than the cutoff. */
  ghost predicate OnTime(d: State, cutoff: u64) {
    && d.samples.buckets == [] && d.counters.buckets == [] && d.sketches.buckets == []
    && NotBefore(d.samples.rows, cutoff) && NotBefore(d.counters.rows, cutoff) && NotBefore(d.sketches.rows, cutoff)
  }

  predicate NotBefore(rows: seq<Row>, cutoff: u64) {
    forall r :: r in rows ==> r.time >= cutoff
  }

  lemma EmptyLayered(span: u64)
    ensures Layered(EMPTY, 0, span)
  {
  }

  // ----- Appending -----

  lemma SamplesGrow(F: Floats, p: P.Samples, d: P.Samples, q: P.Samples, cutoff: u64, span: u64)
    requires P.Layered(p, cutoff, span) && d.buckets == [] && NotBefore(d.rows, cutoff)
    requires q == P.Merged(F, p, d) || (q == P.Samples(p.rows + d.rows, p.buckets + d.buckets) && P.Normal(q))
    ensures P.Layered(q, cutoff, span) && q.buckets == p.buckets
  {
    hide BucketOf, InOrder, P.Apply, ByTime, IncreasingBy;
    assert p.buckets + [] == p.buckets;
    if q == P.Merged(F, p, d) {
      P.MergeNormal(F, p, d);
      LatestWrites.MergeCovers(F, p, d);
      InOrderOfByTime(p.buckets, P.BucketTime);
    }
  }

  lemma CountersGrow(p: N.Counters, d: N.Counters, q: N.Counters, cutoff: u64, span: u64)
    requires AC.Layered(p, cutoff, span) && d.buckets == [] && NotBefore(d.rows, cutoff)
    requires N.MergedInto(p, d, q) || (q == N.Counters(p.rows + d.rows, p.buckets + d.buckets) && Nondecreasing(q.rows))
    ensures AC.Layered(q, cutoff, span)
  {
    hide BucketOf, N.ToBuckets, N.SumBuckets, IncreasingBy, Nondecreasing;
    assert p.buckets + [] == p.buckets;
    if N.MergedInto(p, d, q) {
      forall r | r in q.rows ensures r.time >= cutoff { OneOf(q.rows, p.rows, d.rows, r); }
      NoMoreSums(N.SumBuckets(map[], p.buckets));
      ToBucketsOfSums(p.buckets);
    }
  }

  lemma OneOf(q: seq<Row>, a: seq<Row>, b: seq<Row>, r: Row)
    requires N.Ops(q) == N.Ops(a) + N.Ops(b) && r in q
    ensures r in a || r in b
  {
    assert r in N.Ops(q);
  }

  lemma NoMoreSums(m: map<u64, u64>)
    ensures N.SumBuckets(m, []) == m
  {
  }

  lemma {:induction false} TagTimes(ops: map<K.Tag, u64>, rows: seq<Row>, cutoff: u64)
    requires NotBefore(rows, cutoff) && forall g :: g in ops ==> g.time >= cutoff
    ensures forall g :: g in K.Ops(ops, rows) ==> g.time >= cutoff
  {
    if rows != [] {
      var front, r := rows[..|rows| - 1], rows[|rows| - 1];
      assert r in rows && forall x :: x in front ==> x in rows;
      TagTimes(ops, front, cutoff);
    }
  }

  lemma MergedTimes(p: seq<Row>, d: seq<Row>, q: seq<Row>, cutoff: u64)
    requires K.DistinctTags(q) && K.Ops(map[], q) == K.Ops(K.Ops(map[], p), d)
    requires NotBefore(p, cutoff) && NotBefore(d, cutoff)
    ensures NotBefore(q, cutoff)
  {
    hide K.Ops, K.DistinctTags;
    TagTimes(map[], p, cutoff);
    TagTimes(K.Ops(map[], p), d, cutoff);
    K.OpsOfDistinct(q);
    forall r | r in q ensures r.time >= cutoff { assert K.TagOf(r) in K.Ops(map[], q); }
  }

  lemma SameBuckets(F: Floats, p: K.Series)
    requires IncreasingBy(p.buckets, K.BucketTime) && Canonical(p.buckets) && forall x :: F.add(0, x) == x
    requires K.Encodable(F, K.MergedMap(F, p.buckets, []))
    ensures K.ToBuckets(F, K.MergedMap(F, p.buckets, [])) == p.buckets
  {
    hide K.ToBuckets, K.MergedMap, K.Encodable, IncreasingBy, Canonical;
    MergesNothing(F, p.buckets);
    CanonicalReencodes(F, p.buckets);
  }

  lemma SketchesGrow(F: Floats, p: K.Series, d: K.Series, q: K.Series, cutoff: u64, span: u64)
    requires AS.Layered(p, cutoff, span) && AS.HoldsSome(p) && d.buckets == [] && NotBefore(d.rows, cutoff)
    requires K.MergedInto(F, p, d, q) || (q == K.Series(p.rows + d.rows, p.buckets + d.buckets) && Nondecreasing(q.rows))
    requires forall x :: F.add(0, x) == x
    ensures AS.Layered(q, cutoff, span) && AS.HoldsSome(q)
  {
    hide BucketOf, K.ToBuckets, K.MergedMap, K.Encodable, K.Ops, IncreasingBy, Nondecreasing, K.DistinctTags;
    if K.MergedInto(F, p, d, q) {
      MergedTimes(p.rows, d.rows, q.rows, cutoff);
      SomeIsCanonical(p);
      SameBuckets(F, p);
    } else {
      assert p.buckets + [] == p.buckets;
    }
  }

  lemma SomeIsCanonical(p: K.Series)
    requires AS.HoldsSome(p)
    ensures Canonical(p.buckets)
  {
    forall b | b in p.buckets
      ensures Canon(b.data)
    {
      var v :| CanonOf(b.data, v) && v.count > 0;
    }
  }

  lemma MergesNothing(F: Floats, bs: seq<K.SketchBucket>)
    requires IncreasingBy(bs, K.BucketTime)
    ensures K.MergedMap(F, bs, []) == K.DecodeItems(F, bs)
  {
    assert [] + bs == bs;
    assert K.DecodeItems(F, []) == map[];
    MergeItemsLater(F, [], bs);
  }

  /** Appending what is on time keeps the layers, whether it is merged or put behind. */
  lemma GrowsLayered(F: Floats, p: State, d: State, q: State, cutoff: u64, span: u64)
    requires Layered(p, cutoff, span) && OnTime(d, cutoff) && Grows(F, p, d, q) && Appendable(q)
    requires forall x :: F.add(0, x) == x
    ensures Layered(q, cutoff, span)
  {
    hide P.Layered, AC.Layered, AS.Layered, AS.HoldsSome, P.Merged, N.MergedInto, K.MergedInto, NotBefore, Before, IncreasingBy,
         Nondecreasing;
    SamplesGrow(F, p.samples, d.samples, q.samples, cutoff, span);
    CountersGrow(p.counters, d.counters, q.counters, cutoff, span);
    SketchesGrow(F, p.sketches, d.sketches, q.sketches, cutoff, span);
  }

  // ----- Compacting -----

  lemma SamplesFilled(F: Floats, d: P.Samples, before: u64, cutoff: u64, span: u64)
    requires P.Layered(d, before, span) && forall b :: b in d.buckets ==> b.count > 0
    ensures forall b :: b in P.Compacted(F, d, cutoff, span).buckets ==> b.count > 0
  {
    hide P.GroupPoints, P.AddPoint, BucketOf, InOrder, ByTime, Old, Young, IncreasingBy, AF.Take, AF.Roomy;
    var f, m, o := AlignedReads.Samples(F, span), P.BucketMap(d.buckets), Old(d.rows, cutoff);
    AlignedReads.OldRowsBehind(F, d, before, span, cutoff, span);
    AlignedReads.SamplesTake(F, span, m, o, span);
    AlignedReads.SamplesFill(F, span);
    AF.TakeShape(f, m, o, span);
    var g := P.GroupPoints(F, m, o, span);
    InOrderIncreasing(g, P.BucketTime);
  }

  /** The sketches of a compaction are at boundaries before the cutoff. */
  lemma SketchTimes(F: Floats, d: K.Series, before: u64, cutoff: u64, span: u64)
    requires AS.Layered(d, before, span) && AS.HoldsSome(d) && before <= cutoff && forall x :: F.add(0, x) == x
    ensures AF.Filled(AS.Sketches(F, span), K.CompactedMap(F, d, cutoff, span))
    ensures forall t :: t in K.CompactedMap(F, d, cutoff, span) ==> t < cutoff && BucketOf(t, span) == t
  {
    var m, o := K.DecodeItems(F, d.buckets), Old(d.rows, cutoff);
    hide K.GroupRows, K.DecodeItems, BucketOf, Old, Nondecreasing, AF.Filled, AS.HoldsSome, IncreasingBy, M.BucketsIncreasing;
    AS.OldRowsBehind(F, d, before, span, cutoff, span);
    AS.AllFilled(F, span, m, o, span);
    OldYoungElements(d.rows, cutoff);
    SketchOrders(d.buckets);
    M.DecodeDistinct(F, d.buckets);
    forall t | t in K.GroupRows(F, m, o, span)
      ensures t < cutoff && BucketOf(t, span) == t
    {
      if t !in m {
        var r :| r in o && BucketOf(r.time, span) == t;
        P.BucketIdempotent(r.time, span);
      }
    }
  }

  lemma WrittenTimes(F: Floats, g: map<u64, K.S.Summary>, cutoff: u64, span: u64)
    requires K.Encodable(F, g) && forall t :: t in g ==> t < cutoff && BucketOf(t, span) == t
    ensures forall b :: b in K.ToBuckets(F, g) ==> b.time < cutoff && BucketOf(b.time, span) == b.time
  {
    hide BucketOf, K.ToBuckets, K.Encodable;
    M.ToBucketsAt(F, g);
  }

  lemma SketchesLayered(F: Floats, d: K.Series, before: u64, cutoff: u64, span: u64)
    requires AS.Layered(d, before, span) && AS.HoldsSome(d) && before <= cutoff
    requires K.Encodable(F, K.CompactedMap(F, d, cutoff, span)) && forall x :: F.add(0, x) == x
    ensures AS.Layered(K.Compacted(F, d, cutoff, span), cutoff, span) && AS.HoldsSome(K.Compacted(F, d, cutoff, span))
  {
    hide BucketOf, Old, Young, Nondecreasing, AF.Filled, K.CompactedMap, AS.HoldsSome, K.ToBuckets, K.Encodable, IncreasingBy;
    var g, q := K.CompactedMap(F, d, cutoff, span), K.Compacted(F, d, cutoff, span);
    SketchTimes(F, d, before, cutoff, span);
    AS.FilledBuckets(F, g, q.rows, span);
    YoungParts(d.rows, cutoff);
    OldYoungElements(d.rows, cutoff);
    WrittenTimes(F, g, cutoff, span);
  }

  /** Compacting at a later cutoff moves the boundary between the layers there. */
  lemma CompactLayered(F: Floats, p: State, before: u64, cutoff: u64, span: u64)
    requires Layered(p, before, span) && before <= cutoff && Compactable(F, p, cutoff, span)
    requires forall x :: F.add(0, x) == x
    ensures Layered(Compacted(F, p, cutoff, span), cutoff, span)
  {
    hide P.Layered, AC.Layered, AS.Layered, AS.HoldsSome, P.Compacted, N.Compacted, K.Compacted;
    P.CompactLayered(F, p.samples, before, cutoff, span);
    SamplesFilled(F, p.samples, before, cutoff, span);
    AC.CompactLayered(p.counters, before, cutoff, span);
    SketchesLayered(F, p.sketches, before, cutoff, span);
  }

  // ----- Streaming -----

  lemma SamplesFlow(s: bytes, blocks: seq<Block>, cutoff: u64, span: u64)
    requires Backed(s, blocks) && P.Layered(AbsorbAll(EMPTY, blocks).samples, cutoff, span)
    ensures Y.Flows(s, blocks)
  {
    hide AbsorbAll, AllReadable, Written, Labels, Holds, Timely, StreamOf, AllGood, BucketsFirst, Opening, BucketsIn, RowsIn,
         BucketOf, IncreasingBy;
    Y.FeedsReady(s, blocks);
    LayeredTimely(Y.Feeds(), blocks);
  }

  lemma CountersFlow(s: bytes, blocks: seq<Block>, cutoff: u64, span: u64)
    requires Backed(s, blocks) && AC.Layered(AbsorbAll(EMPTY, blocks).counters, cutoff, span)
    ensures X.Flows(s, blocks)
  {
    hide AbsorbAll, AllReadable, Written, Labels, Holds, Timely, StreamOf, AllGood, BucketsFirst, Opening, BucketsIn, RowsIn,
         BucketOf, IncreasingBy, Nondecreasing;
    X.FeedsReady(s, blocks);
    LayeredTimely(X.Feeds(), blocks);
  }

  // ----- Streaming sketches: raw observations and stored buckets -----

  function Feeds(): Source<K.SketchBucket, Row, G.Entry> {
    Source(2, Z.BucketsOfBlock, Z.RowsOfBlock, K.BucketTime, P.RowTime, Z.Held, Z.ValueOf, G.TimeOf, Z.IsValue)
  }

  lemma FeedsLabels()
    ensures Labels(Feeds())
  {
  }

  lemma BlockFeeds(b: Block)
    ensures Holds(Feeds(), b)
  {
    if b.SketchBlock? {
      forall r | r in b.rows ensures r.time in EntryTimes(b) { Z.RowAt(b, r); }
    } else if b.SketchBucketBlock? {
      forall x | x in b.sketches ensures x.time in EntryTimes(b) { Z.BucketAt(b, x); }
    }
  }

  lemma OpensBoth(b: Block)
    requires Good(b) && (b.SketchBlock? ==> AllFinite(b.rows))
    ensures Opens(b, G.OpenBoth, Enter(Feeds()), G.TimeOf)
  {
    Z.RawOpens(b);
    Z.StoredOpens(b);
    Z.MapNothing(Z.Held);
    Z.MapNothing(Z.ValueOf);
    hide G.RawItems, G.StoredItems, EntryTimes, Map;
  }

  lemma {:induction false} FeedsState(blocks: seq<Block>)
    ensures var d := AbsorbAll(EMPTY, blocks).sketches;
            BucketsIn(Feeds(), blocks) == d.buckets && RowsIn(Feeds(), blocks) == d.rows
  {
    if blocks != [] {
      FeedsState(blocks[..|blocks| - 1]);
    }
  }

  /** The mixed read of a series with the layout meets the window of its stream. */
  lemma SketchesRead(s: bytes, blocks: seq<Block>, from: u64, to: u64)
    requires Backed(s, blocks)
    ensures G.ReadBoth(s, from, to) == Read(Between(StreamOf(Feeds(), blocks), G.TimeOf, from, to), None)
  {
    hide AbsorbAll, AllReadable, Written, BucketsFirst, Good, G.BothItems, EntryTimes, AllFinite, ReadAll, ReadIn, Between, StreamOf, Map;
    forall b | b in blocks
      ensures Good(b) && Opens(b, G.OpenBoth, Enter(Feeds()), G.TimeOf)
    {
      Y.GoodReadable(blocks, b);
      OpensBoth(b);
    }
    ReadsStream(Feeds(), s, blocks, G.OpenBoth, from, to);
    Z.ReadInWhole(s, G.BothItems, G.OpenBoth, from, to);
  }

  /** The mixed read of a layered series meets the buckets of the window and then its raw observations. */
  lemma SketchesFlow(s: bytes, blocks: seq<Block>, cutoff: u64, span: u64, from: u64, to: u64)
    requires Backed(s, blocks) && AS.Layered(AbsorbAll(EMPTY, blocks).sketches, cutoff, span)
    ensures G.ReadBoth(s, from, to) ==
            Read(Between(AS.EntriesOf(AbsorbAll(EMPTY, blocks).sketches), G.TimeOf, from, to), None)
  {
    hide AbsorbAll, AllReadable, Written, BucketsFirst, Good, G.ReadBoth, EntryTimes, AllFinite, Between, StreamOf, Map,
         Labels, Holds, Timely, Interleave, BucketsIn, RowsIn, BucketOf, IncreasingBy, Nondecreasing;
    var d := AbsorbAll(EMPTY, blocks).sketches;
    FeedsLabels();
    FeedsState(blocks);
    forall b | b in blocks
      ensures Holds(Feeds(), b)
    {
      BlockFeeds(b);
    }
    Y.SortedTimely(d.buckets, K.BucketTime);
    X.RowsTimely(d.rows);
    LayeredTimely(Feeds(), blocks);
    StreamIsMemory(Feeds(), blocks);
    BucketsThenRows(d);
    SketchesRead(s, blocks, from, to);
  }

  lemma BucketsThenRows(d: K.Series)
    requires forall b, r :: b in d.buckets && r in d.rows ==> b.time <= r.time
    ensures Interleave(Feeds(), d.buckets, d.rows) == AS.EntriesOf(d)
  {
    var k := Feeds();
    assert Interleave(k, [], []) == [];
    hide Interleave, Map;
    InterleaveBuckets(k, [], [], d.buckets);
    assert [] + d.buckets == d.buckets && [] + Map(d.buckets, k.ofBucket) == Map(d.buckets, k.ofBucket);
    InterleaveRows(k, d.buckets, [], d.rows);
    assert [] + d.rows == d.rows;
  }
}
