/** Reading samples from a decoded state with two cursors, and why all ways of reading agree. */
module SampleMemory {
  import opened Words
  import opened Varint
  import opened Reader
  import opened FloatModel
  import opened Rows
  import opened Pendings
  import opened Blocks
  import opened Segments
  import opened AppendLaws
  import opened Runs
  import opened Streams
  import opened Interleavings
  import opened Aggregates
  import opened SampleReaders
  import P = SampleState

  function PointOf(r: Row): Sample { Point(r.time, r.value) }

  function TotalOf(b: P.SampleBucket): Sample { Total(b) }

  function BucketsOfBlock(b: Block): seq<P.SampleBucket> { if b.SampleBucketBlock? then b.samples else [] }

  function RowsOfBlock(b: Block): seq<Row> { if b.SampleBlock? then b.rows else [] }

  function IsPoint(e: Sample): bool { e.Point? }

  /** Where samples are read from. */
  function Feeds(): Source<P.SampleBucket, Row, Sample> {
    Source(0, BucketsOfBlock, RowsOfBlock, P.BucketTime, P.RowTime, TotalOf, PointOf, TimeOf, IsPoint)
  }

  function InMemory(d: P.Samples, from: u64, to: u64): seq<Sample> { Visited(Feeds(), d.buckets, d.rows, from, to) }

  lemma FeedsLabels()
    ensures Labels(Feeds())
  {
  }

  lemma StartVisited(d: P.Samples, from: u64, to: u64)
    ensures InMemory(d, from, to) ==
            Interleave(Feeds(), TakeTo(SkipTo(d.buckets, P.BucketTime, from), P.BucketTime, to),
                       TakeTo(SkipTo(d.rows, P.RowTime, from), P.RowTime, to))
  {
  }

  /** One turn of the loop of `rangeValues`. */
  lemma VisitOne(d: P.Samples, bucket: nat, item: nat, to: u64, seen: seq<Sample>)
    requires bucket <= |d.buckets| && item <= |d.rows|
    ensures var hasBucket := bucket < |d.buckets| && d.buckets[bucket].time <= to;
            var hasItem := item < |d.rows| && d.rows[item].time <= to;
            var takeBucket := !hasItem || (hasBucket && d.buckets[bucket].time <= d.rows[item].time);
            var i, j := if takeBucket then bucket + 1 else bucket, if takeBucket then item else item + 1;
            seen + Interleave(Feeds(), TakeTo(d.buckets[bucket..], P.BucketTime, to), TakeTo(d.rows[item..], P.RowTime, to)) ==
            if !hasBucket && !hasItem then seen
            else (seen + [if takeBucket then Total(d.buckets[bucket]) else PointOf(d.rows[item])])
                 + Interleave(Feeds(), TakeTo(d.buckets[i..], P.BucketTime, to), TakeTo(d.rows[j..], P.RowTime, to))
  {
    hide Interleave, TakeTo;
    NextVisited(Feeds(), d.buckets, d.rows, bucket, item, to);
  }

  /** `rangeValues`. */
  method RangeValues(F: Floats, d: P.Samples, from: u64, to: u64, span: u64, agg: Agg) returns (out: seq<(u64, u64)>)
    ensures out == if span == 0 then Singles(F, Passed(Feeds(), d.buckets, d.rows, from, to))
                   else Valued(F, Grouped(ByBucket(F, span), InMemory(d, from, to)), agg)
  {
    if span == 0 {
      out := ReadValues(F, d, from, to);
    } else {
      out := SpanValues(F, d, from, to, span, agg);
    }
  }

  /** Its loop. */
  method SpanValues(F: Floats, d: P.Samples, from: u64, to: u64, span: u64, agg: Agg) returns (out: seq<(u64, u64)>)
    ensures out == Valued(F, Grouped(ByBucket(F, span), InMemory(d, from, to)), agg)
  {
    hide Valued, RunAll, Step, ByBucket, ValueOf, SkipTo, TakeTo, BucketOf, Interleave, InMemory, Feeds;
    StartVisited(d, from, to);
    var f := new Accumulator();
    var current := 0;
    out := [];
    var bucket: nat := Skip(d.buckets, P.BucketTime, from);
    var item: nat := Skip(d.rows, P.RowTime, from);
    ghost var all, seen: seq<Sample> := InMemory(d, from, to), [];
    ghost var run := RunAll(ByBucket(F, span), []);
    NothingRead(F, span, agg, from, to);
    assert [] + all == all;
    while true
      invariant bucket <= |d.buckets| && item <= |d.rows|
      invariant all == seen + Interleave(Feeds(), TakeTo(d.buckets[bucket..], P.BucketTime, to), TakeTo(d.rows[item..], P.RowTime, to))
      invariant run == RunAll(ByBucket(F, span), seen)
      invariant run.current == current && run.acc == f.View() && out == Valued(F, run.out, agg)
      decreases |d.buckets| - bucket + |d.rows| - item
    {
      var hasBucket := bucket < |d.buckets| && d.buckets[bucket].time <= to;
      var hasItem := item < |d.rows| && d.rows[item].time <= to;
      VisitOne(d, bucket, item, to, seen);
      if !hasBucket && !hasItem {
        break;
      }
      var takeBucket := !hasItem || (hasBucket && d.buckets[bucket].time <= d.rows[item].time);
      ghost var e := if takeBucket then Total(d.buckets[bucket]) else PointOf(d.rows[item]);
      var t := if takeBucket then d.buckets[bucket].time else d.rows[item].time;
      var k := BucketOf(t, span);
      StepValued(F, span, seen, e, t, agg);
      run, seen := Step(ByBucket(F, span), run, e), seen + [e];
      if f.count > 0 && k != current {
        out := out + [(current, ValueOf(F, f.View(), agg))];
        f.Reset();
      }
      current := k;
      if takeBucket {
        f.Merge(F, d.buckets[bucket]);
        bucket := bucket + 1;
      } else {
        f.Add(F, d.rows[item].value);
        item := item + 1;
      }
    }
    ValuedFlush(F, span, run, agg);
    if f.count > 0 {
      out := out + [(current, ValueOf(F, f.View(), agg))];
    }
  }

  lemma ValuedSnoc(F: Floats, out: seq<(u64, Fold)>, x: (u64, Fold), agg: Agg)
    ensures Valued(F, out + [x], agg) == Valued(F, out, agg) + [(x.0, ValueOf(F, x.1, agg))]
  {
  }

  /** One more entry in a run, and what is reported by then. */
  lemma StepValued(F: Floats, span: u64, seen: seq<Sample>, e: Sample, t: u64, agg: Agg)
    requires TimeOf(e) == t
    ensures var run, k := RunAll(ByBucket(F, span), seen), BucketOf(t, span);
            var next := Step(ByBucket(F, span), run, e);
            && RunAll(ByBucket(F, span), seen + [e]) == next && next.current == k
            && if run.acc.count > 0 && k != run.current
               then next.acc == AddSample(F, NO_FOLD, e)
                    && Valued(F, next.out, agg) == Valued(F, run.out, agg) + [(run.current, ValueOf(F, run.acc, agg))]
               else next.acc == AddSample(F, run.acc, e) && next.out == run.out
  {
    hide Valued, RunAll, Step, ByBucket, ValueOf, BucketOf;
    var run := RunAll(ByBucket(F, span), seen);
    RunSnoc(ByBucket(F, span), seen, e);
    StepSample(F, span, run, e, t);
    ValuedSnoc(F, run.out, (run.current, run.acc), agg);
  }

  lemma StepSample(F: Floats, span: u64, r: Run<Fold>, e: Sample, t: u64)
    requires TimeOf(e) == t
    ensures var k := BucketOf(t, span);
            Step(ByBucket(F, span), r, e) ==
            if r.acc.count > 0 && k != r.current then Run(r.out + [(r.current, r.acc)], k, AddSample(F, NO_FOLD, e))
            else Run(r.out, k, AddSample(F, r.acc, e))
  {
  }

  /** `values`: ends at the first entry behind the window. */
  method ReadValues(F: Floats, d: P.Samples, from: u64, to: u64) returns (out: seq<(u64, u64)>)
    ensures out == Singles(F, Passed(Feeds(), d.buckets, d.rows, from, to))
  {
    hide SkipTo, Single, Interleave, TakeTo;
    out := [];
    FeedsLabels();
    var bucket: nat := Skip(d.buckets, P.BucketTime, from);
    var item: nat := Skip(d.rows, P.RowTime, from);
    ghost var all := Passed(Feeds(), d.buckets, d.rows, from, to);
    assert Singles(F, []) == [] && [] + Singles(F, all) == Singles(F, all);
    while bucket < |d.buckets| || item < |d.rows|
      invariant bucket <= |d.buckets| && item <= |d.rows|
      invariant Singles(F, all) == out + Singles(F, TakeTo(Interleave(Feeds(), d.buckets[bucket..], d.rows[item..]), TimeOf, to))
      decreases |d.buckets| - bucket + |d.rows| - item
    {
      NextPassed(Feeds(), d.buckets, d.rows, bucket, item, to);
      if item >= |d.rows| || (bucket < |d.buckets| && d.buckets[bucket].time <= d.rows[item].time) {
        var b := d.buckets[bucket];
        if b.time > to {
          SinglesCons(F, out, Total(b), []);
          return;
        }
        SinglesCons(F, out, Total(b), TakeTo(Interleave(Feeds(), d.buckets[bucket + 1..], d.rows[item..]), TimeOf, to));
        out := out + [Single(F, Total(b))];
        bucket := bucket + 1;
        continue;
      }
      var r := d.rows[item];
      if r.time > to {
        SinglesCons(F, out, PointOf(r), []);
        return;
      }
      SinglesCons(F, out, PointOf(r), TakeTo(Interleave(Feeds(), d.buckets[bucket..], d.rows[item + 1..]), TimeOf, to));
      out := out + [Single(F, PointOf(r))];
      item := item + 1;
    }
    NothingPassed(Feeds(), d.buckets[bucket..], d.rows[item..], to);
    assert out + [] == out;
  }

  lemma SinglesCons(F: Floats, out: seq<(u64, u64)>, e: Sample, rest: seq<Sample>)
    ensures out + Singles(F, [e] + rest) == (out + [Single(F, e)]) + Singles(F, rest)
    ensures out + Singles(F, []) == out
  {
    hide Single;
    assert Singles(F, [e] + rest) == [Single(F, e)] + Singles(F, rest);
    assert Singles(F, []) == [];
  }

  // ----- Why they agree -----

  lemma BlockFeeds(b: Block)
    ensures Holds(Feeds(), b)
  {
    if b.SampleBlock? {
      forall r | r in b.rows ensures r.time in EntryTimes(b) {
        var i :| 0 <= i < |b.rows| && b.rows[i] == r;
        RowTimes(b.rows, i);
      }
    } else if b.SampleBucketBlock? {
      forall x | x in b.samples ensures x.time in EntryTimes(b) {
        var i :| 0 <= i < |b.samples| && b.samples[i] == x;
        TimesAt(b.samples, P.BucketTime, i);
      }
    }
  }

  lemma OpensAs(b: Block)
    requires Good(b) && (b.SketchBlock? ==> AllFinite(b.rows))
    ensures OpenSamples(SegmentOf(b)) == Ok(Entered(Feeds(), b))
  {
    BlockRoundTrip(b);
    hide Payload, Encodes, AllFinite, ReadBlock, EntryTimes, OpenSamples;
    var x := SegmentOf(b);
    if b.SampleBlock? {
      OpensRows(x, b);
    } else if b.SampleBucketBlock? {
      OpensBuckets(x, b);
    } else {
      OpensNothing(x, b);
    }
  }

  lemma OpensNothing(x: Segment, b: Block)
    requires x.kind == Kind(b) && !b.SampleBlock? && !b.SampleBucketBlock?
    ensures OpenSamples(x) == Ok(Entered(Feeds(), b))
  {
    assert Entered(Feeds(), b) == [];
  }

  lemma OpensRows(x: Segment, b: Block)
    requires x.kind == 1 && |x.data| == x.rawLen && b.SampleBlock? && x.count == |b.rows|
    requires ReadBlock(1, x.data, x.count) == Ok(b)
    ensures OpenSamples(x) == Ok(Entered(Feeds(), b))
  {
    PointsOfRows(b);
    hide SampleRows, SamplePrefix, WholeWords, Times, Values, Points, Entered;
    PrefixAgrees(x.data, x.count);
  }

  lemma PointsOfRows(b: Block)
    requires b.SampleBlock?
    ensures Points(Times(b.rows), Values(b.rows)) == Entered(Feeds(), b)
  {
    var es := Entered(Feeds(), b);
    assert |Feeds().buckets(b)| == 0 && Feeds().rows(b) == b.rows;
    forall i | 0 <= i < |b.rows|
      ensures es[i] == Points(Times(b.rows), Values(b.rows))[i]
    {
      assert Map(b.rows, PointOf)[i] == PointOf(b.rows[i]);
    }
  }

  lemma TotalsOfBuckets(b: Block)
    requires b.SampleBucketBlock?
    ensures Totals(b.samples) == Entered(Feeds(), b)
  {
  }

  lemma OpensBuckets(x: Segment, b: Block)
    requires x.kind == 3 && |x.data| == x.rawLen && b.SampleBucketBlock? && x.count == |b.samples|
    requires ReadBlock(3, x.data, x.count) == Ok(b)
    ensures OpenSamples(x) == Ok(Entered(Feeds(), b))
  {
    TotalsOfBuckets(b);
    hide BucketsOf, WholeWords, Totals, Entered;
  }

  lemma {:induction false} FeedsState(blocks: seq<Block>)
    ensures var d := AbsorbAll(EMPTY, blocks).samples;
            BucketsIn(Feeds(), blocks) == d.buckets && RowsIn(Feeds(), blocks) == d.rows
  {
    if blocks != [] {
      FeedsState(blocks[..|blocks| - 1]);
    }
  }

  lemma SortedTimely<E>(es: seq<E>, time: E -> u64)
    requires IncreasingBy(es, time)
    ensures Timely(es, time)
  {
    forall i, j | 0 <= i < j < |es| ensures time(es[i]) <= time(es[j]) { assert time(es[i]) < time(es[j]); }
  }

  /** A stored series whose sample entries come out in time order. */
  ghost predicate Flows(s: bytes, blocks: seq<Block>) {
    Backed(s, blocks) && Timely(StreamOf(Feeds(), blocks), TimeOf)
  }

  lemma FeedsReady(s: bytes, blocks: seq<Block>)
    requires Backed(s, blocks)
    ensures Labels(Feeds()) && (forall b :: b in blocks ==> Holds(Feeds(), b)) && Opening(Feeds(), OpenSamples, blocks)
    ensures var d := AbsorbAll(EMPTY, blocks).samples;
            && BucketsIn(Feeds(), blocks) == d.buckets && RowsIn(Feeds(), blocks) == d.rows
            && Timely(d.buckets, P.BucketTime) && Timely(d.rows, P.RowTime)
  {
    hide AbsorbAll, AllReadable, Written, BucketsFirst, Labels, Holds, IncreasingBy, Timely, Good, OpenSamples, EntryTimes,
         BucketsIn, RowsIn, AllFinite, Entered;
    FeedsLabels();
    FeedsState(blocks);
    SortedTimely(AbsorbAll(EMPTY, blocks).samples.buckets, P.BucketTime);
    SortedTimely(AbsorbAll(EMPTY, blocks).samples.rows, P.RowTime);
    forall b | b in blocks
      ensures Good(b) && Holds(Feeds(), b) && Opens(b, OpenSamples, Enter(Feeds()), TimeOf)
    {
      GoodReadable(blocks, b);
      BlockFeeds(b);
      OpensAs(b);
      forall e | e in Entered(Feeds(), b) ensures TimeOf(e) in EntryTimes(b) { EnteredAt(Feeds(), b, e); }
    }
  }

  lemma GoodReadable(blocks: seq<Block>, b: Block)
    requires AllGood(blocks) && AllReadable(blocks) && b in blocks
    ensures Good(b) && (b.SketchBlock? ==> AllFinite(b.rows))
  {
  }

  /** The stored samples come out in the order of the two cursors exactly when they do not go back in time;
      after a compaction a late raw write makes them. */
  lemma SampleOrder(s: bytes, blocks: seq<Block>)
    requires Backed(s, blocks)
    ensures var d := AbsorbAll(EMPTY, blocks).samples;
            StreamOf(Feeds(), blocks) == Interleave(Feeds(), d.buckets, d.rows) <==> Flows(s, blocks)
  {
    hide AbsorbAll, AllReadable, Written, Labels, Holds, Timely, StreamOf, Interleave, AllGood, BucketsFirst, Opening;
    FeedsReady(s, blocks);
    StreamIsMemory(Feeds(), blocks);
  }

  /** All ways of reading samples meet the same entries: those of the window, in time order. */
  lemma SampleReadsAgree(s: bytes, blocks: seq<Block>, from: u64, to: u64)
    requires Flows(s, blocks)
    ensures var d := AbsorbAll(EMPTY, blocks).samples;
            && ReadAll(SegmentsIn(s), OpenSamples, TimeOf, from, to) == Read(InMemory(d, from, to), None)
            && ScanSeries(s).error.None?
            && Passed(Feeds(), d.buckets, d.rows, from, to) == InMemory(d, from, to)
            && InMemory(d, from, to) == Between(Interleave(Feeds(), d.buckets, d.rows), TimeOf, from, to)
            && Timely(InMemory(d, from, to), TimeOf)
  {
    hide AbsorbAll, AllReadable, Written, Labels, Holds, Timely, StreamOf, Interleave, AllGood, BucketsFirst, Opening, ReadAll,
         Between, Visited, Passed, BucketsIn, RowsIn;
    FeedsReady(s, blocks);
    ReadsAgree(Feeds(), s, blocks, OpenSamples, from, to);
  }

  lemma GroupKeysInOrder(F: Floats, span: u64, es: seq<Sample>)
    requires Timely(es, TimeOf)
    ensures KeysInOrder(ByBucket(F, span), es)
  {
    hide BucketOf;
    forall i, j | 0 <= i < j < |es|
      ensures BucketOf(TimeOf(es[i]), span) <= BucketOf(TimeOf(es[j]), span)
    {
      BucketMonotone(TimeOf(es[i]), TimeOf(es[j]), span);
    }
  }

  /** On every series with the layout whose samples come out in time order, for every window, span and
      aggregate: streaming over the segments, skipping those outside the window and decoding only the
      front of each payload, yields what the cursors over the decoded state yield, and both are the plain
      selection of the window, grouped by bucket and folded. */
  lemma SampleRangesAgree(F: Floats, s: bytes, blocks: seq<Block>, from: u64, to: u64, span: u64)
    requires Flows(s, blocks)
    ensures var g, es := ByBucket(F, span), InMemory(AbsorbAll(EMPTY, blocks).samples, from, to);
            && Streamed(g, s, OpenSamples, TimeOf, from, to) == Yielded(Grouped(g, es), None)
            && Grouped(g, es) == Report(g, es, AscendingKeys(g, es))
  {
    hide AbsorbAll, ReadAll, Timely, InMemory, Report, AscendingKeys, RunAll, Flows, Interleave, Between, Passed;
    SampleReadsAgree(s, blocks, from, to);
    var es := InMemory(AbsorbAll(EMPTY, blocks).samples, from, to);
    GroupKeysInOrder(F, span, es);
    ByBucketLaws(F, span);
    StreamingIsGrouping(ByBucket(F, span), es);
  }
}
