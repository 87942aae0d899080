/** What reading samples answers, said of the values that were written: for every output bucket the aggregate of
    the values in it, those that were folded into stored buckets included. */
module SampleAnswers {
  import opened Words
  import opened Varint
  import opened Reader
  import opened FloatModel
  import opened Rows
  import opened Pendings
  import opened Blocks
  import opened Segments
  import opened Runs
  import opened Streams
  import opened Interleavings
  import opened Aggregates
  import opened SampleReaders
  import opened SampleMemory
  import opened Answers
  import opened Provenance
  import P = SampleState

  /** The values behind an entry: its own, or those that were folded into the bucket. */
  function ValuesOf(w: Origins, e: Sample): seq<u64> {
    match e
    case Point(_, v) => [v]
    case Total(b) => Values(From(w, b.time))
  }

  function FoldedInto(w: Origins): Sample -> seq<u64> { (e: Sample) => ValuesOf(w, e) }

  /** The output bucket of an entry. */
  function Into(span: u64): Sample -> u64 { (e: Sample) => BucketOf(TimeOf(e), span) }

  /** Every stored bucket holds the aggregates of the values that were folded into it. */
  ghost predicate AllCame(F: Floats, bs: seq<P.SampleBucket>, w: Origins) {
    forall b :: b in bs ==> b.time in w && Came(F, b, Values(w[b.time]))
  }

  ghost predicate EntriesCame(F: Floats, es: seq<Sample>, w: Origins) {
    forall e :: e in es && e.Total? ==> Came(F, e.bucket, ValuesOf(w, e))
  }

  lemma EntryCame(F: Floats, w: Origins, f: Fold, vs: seq<u64>, e: Sample)
    requires FoldCame(F, f, vs) && (e.Total? ==> Came(F, e.bucket, ValuesOf(w, e)))
    ensures FoldCame(F, AddSample(F, f, e), vs + ValuesOf(w, e))
  {
    hide FoldCame, Came, Added, Joined;
    match e
    case Point(_, v) => FoldAdds(F, f, vs, v);
    case Total(b) => FoldJoins(F, f, vs, b, ValuesOf(w, e));
  }

  lemma SamplesAnswered(F: Floats, w: Origins, es: seq<Sample>, span: u64, agg: Agg)
    requires Timely(es, TimeOf) && EntriesCame(F, es, w)
    ensures Answered(F, es, Into(span), FoldedInto(w), agg, Valued(F, Grouped(ByBucket(F, span), es), agg))
  {
    hide BucketOf, FoldCame, Behind, AddSample, Timely, Grouped, KeysInOrder, Answered, ValuesOf;
    GroupKeysInOrder(F, span, es);
    ByBucketLaws(F, span);
    forall e | e in es
      ensures AddsValues(F, ByBucket(F, span), e, FoldedInto(w))
    {
      SomeValues(F, w, e);
      forall f, vs | FoldCame(F, f, vs)
        ensures FoldCame(F, AddSample(F, f, e), vs + ValuesOf(w, e))
      {
        EntryCame(F, w, f, vs, e);
      }
    }
    RangeAnswered(F, ByBucket(F, span), es, Into(span), FoldedInto(w), agg);
  }

  lemma SomeValues(F: Floats, w: Origins, e: Sample)
    requires e.Total? ==> Came(F, e.bucket, ValuesOf(w, e))
    ensures ValuesOf(w, e) != []
  {
  }

  // ----- The readers -----

  lemma WindowCame(F: Floats, d: P.Samples, w: Origins, from: u64, to: u64)
    requires AllCame(F, d.buckets, w) && Timely(d.buckets, P.BucketTime) && Timely(d.rows, P.RowTime)
    ensures var es := InMemory(d, from, to);
            WindowOf(Feeds(), d.buckets, d.rows, from, to, es) && EntriesCame(F, es, w) && Timely(es, TimeOf)
  {
    hide Came, Only, Between, Visited, Timely, Map, WindowOf;
    FeedsLabels();
    VisitedWindow(Feeds(), d.buckets, d.rows, from, to);
    VisitedIsWindow(Feeds(), d.buckets, d.rows, from, to);
    var es := InMemory(d, from, to);
    forall e | e in es && e.Total?
      ensures Came(F, e.bucket, ValuesOf(w, e))
    {
      TotalStored(d, from, to, es, e);
    }
  }

  /** A bucket of the window is a stored one. */
  lemma TotalStored(d: P.Samples, from: u64, to: u64, es: seq<Sample>, e: Sample)
    requires WindowOf(Feeds(), d.buckets, d.rows, from, to, es) && e in es && e.Total?
    ensures e.bucket in d.buckets
  {
    hide Only, Between, Map;
    OnlyHas(es, e);
    var b := MapFrom(Between(d.buckets, P.BucketTime, from, to), TotalOf, e);
    BetweenIn(d.buckets, P.BucketTime, from, to, b);
  }

  lemma {:induction false} OnlyHas(es: seq<Sample>, e: Sample)
    requires e in es && e.Total?
    ensures e in Only(Feeds(), es, false)
  {
    if e != es[0] {
      OnlyHas(es[1..], e);
    }
  }

  /** Every aggregate that streaming a series reports, for every window and span, is that of the values in
      each output bucket: the entries are those of the window, and a stored bucket stands for the values
      that were folded into it. */
  lemma SampleRangeAnswers(F: Floats, s: bytes, blocks: seq<Block>, w: Origins, from: u64, to: u64, span: u64, agg: Agg,
                           out: seq<(u64, u64)>, error: Option<Error>) returns (es: seq<Sample>)
    requires Flows(s, blocks) && AllCame(F, AbsorbAll(EMPTY, blocks).samples.buckets, w)
    requires Ranges(F, s, from, to, span, agg, out, error)
    ensures var d := AbsorbAll(EMPTY, blocks).samples; WindowOf(Feeds(), d.buckets, d.rows, from, to, es)
    ensures error.None? && Answered(F, es, Into(span), FoldedInto(w), agg, out)
  {
    hide AbsorbAll, Timely, InMemory, Report, AscendingKeys, RunAll, Flows, Streamed, Grouped, Valued, AllCame, EntriesCame, Answered,
         WindowOf;
    var d := AbsorbAll(EMPTY, blocks).samples;
    es := InMemory(d, from, to);
    FlowsTimely(s, blocks);
    WindowCame(F, d, w, from, to);
    SampleRangesAgree(F, s, blocks, from, to, span);
    SamplesAnswered(F, w, es, span, agg);
  }

  lemma FlowsTimely(s: bytes, blocks: seq<Block>)
    requires Flows(s, blocks)
    ensures var d := AbsorbAll(EMPTY, blocks).samples; Timely(d.buckets, P.BucketTime) && Timely(d.rows, P.RowTime)
  {
    hide AbsorbAll, Timely, Opening, Holds, Labels, BucketsIn, RowsIn, StreamOf;
    FeedsReady(s, blocks);
  }

  /** The cursors over a decoded state report the same. */
  lemma MemoryRangeAnswers(F: Floats, d: P.Samples, w: Origins, from: u64, to: u64, span: u64, agg: Agg) returns (es: seq<Sample>)
    requires AllCame(F, d.buckets, w) && Timely(d.buckets, P.BucketTime) && Timely(d.rows, P.RowTime)
    ensures WindowOf(Feeds(), d.buckets, d.rows, from, to, es)
    ensures Answered(F, es, Into(span), FoldedInto(w), agg, Valued(F, Grouped(ByBucket(F, span), InMemory(d, from, to)), agg))
  {
    hide Timely, InMemory, Grouped, Valued, AllCame, EntriesCame, Answered, WindowOf;
    es := InMemory(d, from, to);
    WindowCame(F, d, w, from, to);
    SamplesAnswered(F, w, es, span, agg);
  }

  // ----- Without a span -----

  /** A point is shown as it is, a stored bucket as the mean of the values that were folded into it. */
  ghost predicate ShownAs(F: Floats, w: Origins, e: Sample, x: (u64, u64)) {
    match e
    case Point(at, v) => x == (at, v)
    case Total(b) =>
      var vs := ValuesOf(w, e);
      vs != [] && x == (b.time, F.div(AddedUp(F, vs), F.ofUint(|vs| % W)))
  }

  lemma SinglesShown(F: Floats, w: Origins, es: seq<Sample>)
    requires EntriesCame(F, es, w)
    ensures forall i :: 0 <= i < |es| ==> ShownAs(F, w, es[i], Singles(F, es)[i])
  {
    hide AddedUp, Least, Greatest;
    forall i | 0 <= i < |es|
      ensures ShownAs(F, w, es[i], Single(F, es[i]))
    {
      assert es[i] in es;
    }
  }

  /** Reading a series without a span shows every entry of the window, a stored bucket as a mean. */
  lemma SampleValuesAnswers(F: Floats, s: bytes, blocks: seq<Block>, w: Origins, from: u64, to: u64,
                            out: seq<(u64, u64)>, error: Option<Error>) returns (es: seq<Sample>)
    requires Flows(s, blocks) && AllCame(F, AbsorbAll(EMPTY, blocks).samples.buckets, w)
    requires Lists(F, s, from, to, out, error)
    ensures var d := AbsorbAll(EMPTY, blocks).samples; WindowOf(Feeds(), d.buckets, d.rows, from, to, es)
    ensures error.None? && |out| == |es| && forall i :: 0 <= i < |es| ==> ShownAs(F, w, es[i], out[i])
  {
    hide AbsorbAll, Timely, InMemory, Flows, ReadAll, AllCame, EntriesCame, WindowOf, ShownAs, Singles, Visited, Between, Interleave, Passed;
    var d := AbsorbAll(EMPTY, blocks).samples;
    es := InMemory(d, from, to);
    FlowsTimely(s, blocks);
    WindowCame(F, d, w, from, to);
    SampleReadsAgree(s, blocks, from, to);
    SinglesShown(F, w, es);
  }

  /** And so do the cursors over a decoded state. */
  lemma MemoryValuesAnswers(F: Floats, d: P.Samples, w: Origins, from: u64, to: u64, out: seq<(u64, u64)>) returns (es: seq<Sample>)
    requires AllCame(F, d.buckets, w) && Timely(d.buckets, P.BucketTime) && Timely(d.rows, P.RowTime)
    requires out == Singles(F, Passed(Feeds(), d.buckets, d.rows, from, to))
    ensures WindowOf(Feeds(), d.buckets, d.rows, from, to, es)
    ensures |out| == |es| && forall i :: 0 <= i < |es| ==> ShownAs(F, w, es[i], out[i])
  {
    hide Timely, Visited, Passed, Between, Interleave, AllCame, EntriesCame, WindowOf, ShownAs, Singles;
    es := InMemory(d, from, to);
    WindowCame(F, d, w, from, to);
    FeedsLabels();
    VisitedIsWindow(Feeds(), d.buckets, d.rows, from, to);
    SinglesShown(F, w, es);
  }
}
