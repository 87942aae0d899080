/** The three ways of reading sketches agree. */
module SketchPaths {
  import opened Words
  import opened Varint
  import opened Reader
  import opened FloatModel
  import opened Rows
  import opened Pendings
  import opened Blocks
  import opened Segments
  import opened AppendLaws
  import opened Runs
  import opened Streams
  import opened Interleavings
  import opened SketchReaders
  import P = SampleState
  import K = SketchState
  import M = SketchMerges
  import S = Sketches
  import C = SketchCodec
  import B = SketchBytes
  import Q = SketchQueries
  import Y = SampleMemory
  import X = CounterReaders
  import Z = FastPaths
  import H = Histograms
  import D = BlockCodec

  // ----- Sources of one kind of entry -----

  function ValueOf(r: Row): Entry { Value(r.time, r.value) }

  function Held(b: K.SketchBucket): Entry { Stored(b) }

  function IsValue(e: Entry): bool { e.Value? }

  function NoBuckets(b: Block): seq<K.SketchBucket> { [] }

  function NoRows(b: Block): seq<Row> { [] }

  function BucketsOfBlock(b: Block): seq<K.SketchBucket> { if b.SketchBucketBlock? then b.sketches else [] }

  function RowsOfBlock(b: Block): seq<Row> { if b.SketchBlock? then b.rows else [] }

  function RawFeeds(): Source<K.SketchBucket, Row, Entry> {
    Source(2, NoBuckets, RowsOfBlock, K.BucketTime, P.RowTime, Held, ValueOf, TimeOf, IsValue)
  }

  function StoredFeeds(): Source<K.SketchBucket, Row, Entry> {
    Source(2, BucketsOfBlock, NoRows, K.BucketTime, P.RowTime, Held, ValueOf, TimeOf, IsValue)
  }

  lemma {:induction false} RawStream(blocks: seq<Block>)
    ensures StreamOf(RawFeeds(), blocks) == Map(AbsorbAll(EMPTY, blocks).sketches.rows, ValueOf)
  {
    if blocks != [] {
      hide Map;
      var front, b := blocks[..|blocks| - 1], blocks[|blocks| - 1];
      RawStream(front);
      MapConcat(AbsorbAll(EMPTY, front).sketches.rows, RowsOfBlock(b), ValueOf);
      MapNothing(Held);
      assert Entered(RawFeeds(), b) == Map(RowsOfBlock(b), ValueOf);
      AbsorbRaw(AbsorbAll(EMPTY, front), b);
    } else {
      MapNothing(ValueOf);
    }
  }

  lemma {:induction false} StoredStream(blocks: seq<Block>)
    ensures StreamOf(StoredFeeds(), blocks) == Map(AbsorbAll(EMPTY, blocks).sketches.buckets, Held)
  {
    if blocks != [] {
      hide Map;
      var front, b := blocks[..|blocks| - 1], blocks[|blocks| - 1];
      StoredStream(front);
      MapConcat(AbsorbAll(EMPTY, front).sketches.buckets, BucketsOfBlock(b), Held);
      MapNothing(ValueOf);
      assert Entered(StoredFeeds(), b) == Map(BucketsOfBlock(b), Held);
      AbsorbRaw(AbsorbAll(EMPTY, front), b);
    } else {
      MapNothing(Held);
    }
  }

  lemma AbsorbRaw(p: State, b: Block)
    ensures Absorb(p, b).sketches.rows == p.sketches.rows + RowsOfBlock(b)
    ensures Absorb(p, b).sketches.buckets == p.sketches.buckets + BucketsOfBlock(b)
  {
  }

  lemma MapNothing<T, E>(f: T -> E)
    ensures Map([], f) == []
  {
  }

  lemma MapConcat<T, E>(a: seq<T>, b: seq<T>, f: T -> E)
    ensures Map(a + b, f) == Map(a, f) + Map(b, f)
  {
  }

  lemma MapTimely<T, E>(s: seq<T>, f: T -> E, time: T -> u64, at: E -> u64)
    requires Timely(s, time) && forall x :: x in s ==> at(f(x)) == time(x)
    ensures Timely(Map(s, f), at)
  {
    forall i, j | 0 <= i < j < |s| ensures at(Map(s, f)[i]) <= at(Map(s, f)[j]) {
      assert s[i] in s && s[j] in s && time(s[i]) <= time(s[j]);
    }
  }

  lemma SegmentReads(b: Block)
    requires Good(b) && (b.SketchBlock? ==> AllFinite(b.rows))
    ensures var x := SegmentOf(b);
            && |x.data| == x.rawLen && ReadBlock(x.kind, x.data, x.count) == Ok(b)
            && (b.SketchBlock? ==> x.count == |b.rows|) && (b.SketchBucketBlock? ==> x.count == |b.sketches|)
  {
    BlockRoundTrip(b);
    hide ReadBlock, Payload, AllFinite;
  }

  lemma RawOpens(b: Block)
    requires Good(b) && (b.SketchBlock? ==> AllFinite(b.rows))
    ensures Opens(b, OpenRaw, Enter(RawFeeds()), TimeOf)
  {
    hide Payload, Encodes, ReadBlock, EntryTimes, OpenRaw, Map;
    SegmentReads(b);
    MapNothing(Held);
    MapNothing(ValueOf);
    assert Entered(RawFeeds(), b) == Map(RowsOfBlock(b), ValueOf);
    var x := SegmentOf(b);
    if b.SketchBlock? {
      OpensRows(x, b);
      forall e | e in Map(b.rows, ValueOf)
        ensures TimeOf(e) in EntryTimes(b)
      {
        var r := MapFrom(b.rows, ValueOf, e);
        RowAt(b, r);
      }
    } else {
      OpensNoRows(x, b);
    }
  }

  lemma RowAt(b: Block, r: Row)
    requires b.SketchBlock? && r in b.rows
    ensures r.time in EntryTimes(b)
  {
    var i :| 0 <= i < |b.rows| && b.rows[i] == r;
    RowTimes(b.rows, i);
  }

  lemma OpensNoRows(x: Segment, b: Block)
    requires x.kind == Kind(b) && !b.SketchBlock?
    ensures OpenRaw(x) == Ok([])
  {
  }

  lemma OpensRows(x: Segment, b: Block)
    requires x.kind == 5 && |x.data| == x.rawLen && b.SketchBlock? && x.count == |b.rows| && AllFinite(b.rows)
    requires ReadBlock(5, x.data, x.count) == Ok(b)
    ensures OpenRaw(x) == Ok(Map(b.rows, ValueOf))
  {
    ValuesFinite(b.rows);
    LeadingIs(Values(b.rows), |b.rows|);
    assert Values(b.rows)[..|b.rows|] == Values(b.rows) && Times(b.rows)[..|b.rows|] == Times(b.rows);
    hide SampleRows, LeadingFinite, SamplePrefix, WholeWords, Times, Values, ValuesOf, Map, AllFinite, FiniteValues;
    PrefixAgrees(x.data, x.count);
  }

  lemma ValuesFinite(rows: seq<Row>)
    requires AllFinite(rows)
    ensures FiniteValues(Values(rows)) && ValuesOf(Times(rows), Values(rows)) == Map(rows, ValueOf)
  {
    hide Finite;
    forall v | v in Values(rows)
      ensures Finite(v)
    {
      var i :| 0 <= i < |rows| && Values(rows)[i] == v;
      assert rows[i] in rows;
    }
    forall i | 0 <= i < |rows|
      ensures ValuesOf(Times(rows), Values(rows))[i] == Map(rows, ValueOf)[i]
    {
      assert Map(rows, ValueOf)[i] == ValueOf(rows[i]);
    }
  }

  lemma StoredOpens(b: Block)
    requires Good(b) && (b.SketchBlock? ==> AllFinite(b.rows))
    ensures Opens(b, OpenStored, Enter(StoredFeeds()), TimeOf)
  {
    hide Payload, Encodes, ReadBlock, EntryTimes, OpenStored, Map;
    SegmentReads(b);
    MapNothing(Held);
    MapNothing(ValueOf);
    assert Entered(StoredFeeds(), b) == Map(BucketsOfBlock(b), Held);
    var x := SegmentOf(b);
    if b.SketchBucketBlock? {
      OpensItems(x, b);
      forall e | e in Map(b.sketches, Held)
        ensures TimeOf(e) in EntryTimes(b)
      {
        var y := MapFrom(b.sketches, Held, e);
        BucketAt(b, y);
      }
    } else {
      OpensNoItems(x, b);
    }
  }

  lemma BucketAt(b: Block, y: K.SketchBucket)
    requires b.SketchBucketBlock? && y in b.sketches
    ensures y.time in EntryTimes(b)
  {
    var i :| 0 <= i < |b.sketches| && b.sketches[i] == y;
    TimesAt(b.sketches, K.BucketTime, i);
  }

  lemma OpensNoItems(x: Segment, b: Block)
    requires x.kind == Kind(b) && !b.SketchBucketBlock?
    ensures OpenStored(x) == Ok([])
  {
  }

  lemma OpensItems(x: Segment, b: Block)
    requires x.kind == 6 && |x.data| == x.rawLen && b.SketchBucketBlock? && x.count == |b.sketches|
    requires ReadBlock(6, x.data, x.count) == Ok(b)
    ensures OpenStored(x) == Ok(Map(b.sketches, Held))
  {
    assert StoredOf(b.sketches) == Map(b.sketches, Held);
    D.ItemsWhole(x.data, x.count, 0);
    hide ReadItems, D.Items, StoredOf, Map;
  }

  /** Where every segment opens and the scan is sound, what comes out one by one is what is read as a whole. */
  lemma ReadInWhole(s: bytes, items: Segment -> Read<Entry>, open: Segment -> Result<seq<Entry>>, from: u64, to: u64)
    requires forall x :: open(x) == Whole(items(x))
    requires ReadAll(SegmentsIn(s), open, TimeOf, from, to).error.None? && ScanSeries(s).error.None?
    ensures ReadIn(s, items, TimeOf, from, to) == ReadAll(SegmentsIn(s), open, TimeOf, from, to)
  {
    hide ReadEach, ReadAll, SegmentsIn, ScanSeries;
    EachIsAll(SegmentsIn(s), items, open, TimeOf, from, to);
  }

  /** The raw observations and the stored buckets of a window of a series with the layout. */
  lemma ReadsRaw(s: bytes, blocks: seq<Block>, from: u64, to: u64)
    requires Backed(s, blocks)
    ensures ReadRaw(s, from, to) == Read(Between(Map(AbsorbAll(EMPTY, blocks).sketches.rows, ValueOf), TimeOf, from, to), None)
    ensures Timely(ReadRaw(s, from, to).entries, TimeOf)
    ensures ScanSeries(s).error.None?
  {
    hide AbsorbAll, AllReadable, Written, BucketsFirst, Good, RawItems, EntryTimes, AllFinite, ReadAll, ReadIn, Between, Timely, StreamOf,
         Map, Nondecreasing;
    forall b | b in blocks
      ensures Good(b) && Opens(b, OpenRaw, Enter(RawFeeds()), TimeOf)
    {
      Y.GoodReadable(blocks, b);
      RawOpens(b);
    }
    ReadsStream(RawFeeds(), s, blocks, OpenRaw, from, to);
    ReadInWhole(s, RawItems, OpenRaw, from, to);
    RawStream(blocks);
    var rows := AbsorbAll(EMPTY, blocks).sketches.rows;
    X.RowsTimely(rows);
    MapTimely(rows, ValueOf, P.RowTime, TimeOf);
    WindowTimely(Map(rows, ValueOf), TimeOf, from, to);
  }

  lemma ReadsStored(s: bytes, blocks: seq<Block>, from: u64, to: u64)
    requires Backed(s, blocks)
    ensures ReadStored(s, from, to) == Read(Between(Map(AbsorbAll(EMPTY, blocks).sketches.buckets, Held), TimeOf, from, to), None)
    ensures ScanSeries(s).error.None?
  {
    hide AbsorbAll, AllReadable, Written, BucketsFirst, Good, StoredItems, EntryTimes, AllFinite, ReadAll, ReadIn, Between, StreamOf, Map;
    forall b | b in blocks
      ensures Good(b) && Opens(b, OpenStored, Enter(StoredFeeds()), TimeOf)
    {
      Y.GoodReadable(blocks, b);
      StoredOpens(b);
    }
    ReadsStream(StoredFeeds(), s, blocks, OpenStored, from, to);
    ReadInWhole(s, StoredItems, OpenStored, from, to);
    StoredStream(blocks);
  }

  // ----- Raw and mixed -----

  lemma {:induction false} SameWithoutBuckets(xs: seq<Segment>, from: u64, to: u64)
    requires !Has(xs, 6, from, to)
    ensures ReadEach(xs, BothItems, TimeOf, from, to) == ReadEach(xs, RawItems, TimeOf, from, to)
  {
    if xs != [] {
      hide ReadEach;
      var front, x := xs[..|xs| - 1], xs[|xs| - 1];
      assert xs == front + [x];
      HasSnoc(front, x, 6, from, to);
      SameWithoutBuckets(front, from, to);
      ReadEachSnoc(front, x, BothItems, TimeOf, from, to);
      ReadEachSnoc(front, x, RawItems, TimeOf, from, to);
    } else {
      assert ReadEach(xs, BothItems, TimeOf, from, to) == ReadEach(xs, RawItems, TimeOf, from, to) == Read([], None);
    }
  }

  lemma {:induction false} SameWithoutRaw(xs: seq<Segment>, from: u64, to: u64)
    requires !Has(xs, 5, from, to)
    ensures ReadEach(xs, BothItems, TimeOf, from, to) == ReadEach(xs, StoredItems, TimeOf, from, to)
  {
    if xs != [] {
      hide ReadEach;
      var front, x := xs[..|xs| - 1], xs[|xs| - 1];
      assert xs == front + [x];
      HasSnoc(front, x, 5, from, to);
      SameWithoutRaw(front, from, to);
      ReadEachSnoc(front, x, BothItems, TimeOf, from, to);
      ReadEachSnoc(front, x, StoredItems, TimeOf, from, to);
    } else {
      assert ReadEach(xs, BothItems, TimeOf, from, to) == ReadEach(xs, StoredItems, TimeOf, from, to) == Read([], None);
    }
  }

  ghost predicate Observed(es: seq<Entry>) { forall e :: e in es ==> e.Value? }

  /** Merging raw observations by bucket folds, per key, those of the key. */
  lemma {:induction false} MixByKey(F: Floats, span: u64, es: seq<Entry>, k: u64)
    requires Observed(es)
    ensures var g, m := Exactly(F, span), Mix(F, span, es);
            && (k in m <==> k in KeysOf(g, es))
            && K.At(m, k) == FoldAll(g, Select(g, es, k))
  {
    hide Mix, MixOne, Select, FoldAll, S.AddExact, BucketOf, KeysOf;
    var g := Exactly(F, span);
    if es == [] {
      MixNothing(F, span, es, k);
    } else {
      var front, e := es[..|es| - 1], es[|es| - 1];
      assert es == front + [e];
      MixByKey(F, span, front, k);
      MixSnoc(F, span, front, e);
      MixOneKey(F, span, Mix(F, span, front), e, k);
      KeysSnoc(g, front, e);
      SelectSnoc(g, front, e, k);
      FoldSnoc(g, Select(g, front, k), e);
      assert Select(g, front, k) + [] == Select(g, front, k);
    }
  }

  lemma MixNothing(F: Floats, span: u64, es: seq<Entry>, k: u64)
    requires es == []
    ensures var g, m := Exactly(F, span), Mix(F, span, es);
            && k !in m && k !in KeysOf(g, es) && K.At(m, k) == FoldAll(g, Select(g, es, k))
  {
    hide S.AddExact, BucketOf;
  }

  lemma MixOneKey(F: Floats, span: u64, m: map<u64, S.Summary>, e: Entry, k: u64)
    requires e.Value?
    ensures var j, after := BucketOf(TimeOf(e), span), MixOne(F, span, m, e);
            && (k in after <==> k in m || k == j)
            && K.At(after, k) == if k == j then Observe(F, K.At(m, k), e) else K.At(m, k)
  {
    hide S.AddExact, BucketOf;
  }

  /** A key with entries reports an exact sketch. */
  lemma {:induction false} FoldExact(F: Floats, span: u64, es: seq<Entry>)
    requires Observed(es)
    ensures var v := FoldAll(Exactly(F, span), es); if es == [] then v == S.NEW else v.count > 0 && v.exact.Some?
  {
    if es != [] {
      hide BucketOf, S.AddApprox, S.AddExact, FoldAll;
      var front, e := es[..|es| - 1], es[|es| - 1];
      assert es == front + [e];
      FoldExact(F, span, front);
      FoldSnoc(Exactly(F, span), front, e);
      ObserveExact(F, FoldAll(Exactly(F, span), front), e);
    }
  }

  lemma ObserveExact(F: Floats, v: S.Summary, e: Entry)
    requires v == S.NEW || (v.count > 0 && v.exact.Some?)
    ensures Observe(F, v, e).count > 0 && Observe(F, v, e).exact.Some?
  {
  }

  lemma KeyHas(F: Floats, span: u64, es: seq<Entry>, k: u64)
    requires Observed(es) && k in KeysOf(Exactly(F, span), es)
    ensures var g, m := Exactly(F, span), Mix(F, span, es);
            && k in m && m[k] == FoldAll(g, Select(g, es, k)) && m[k].count > 0 && m[k].exact.Some?
  {
    hide Mix, Select, FoldAll, KeysOf, Exactly;
    var g := Exactly(F, span);
    MixByKey(F, span, es, k);
    SelectSome(g, es, k);
    FoldExact(F, span, Select(g, es, k));
  }

  /** On observations in time order, streaming and merging by bucket render the same sketches. */
  lemma StreamingIsMixing(F: Floats, span: u64, es: seq<Entry>)
    requires Observed(es) && Timely(es, TimeOf)
    ensures var g := Grouped(Exactly(F, span), es);
            AllExact(g) && Encodable(Mix(F, span, es)) && Encodings(F, g) == Rendered(F, Mix(F, span, es))
  {
    hide Mix, Select, FoldAll, KeysOf, C.Storable, Q.Encoded, SortedTimes, Report, RunAll, Exactly, AscendingKeys, Rendered;
    var g, m := Exactly(F, span), Mix(F, span, es);
    ExactlyLaws(F, span);
    KeysForward(F, span, es);
    StreamingIsGrouping(g, es);
    var q := AscendingKeys(g, es);
    MixedKeys(F, span, es);
    ReportEach(g, es, q);
    forall i | 0 <= i < |q|
      ensures Encodings(F, Grouped(g, es))[i] == Rendered(F, m)[i]
    {
      RenderedIndex(F, m, i);
      assert q[i] in q;
    }
  }

  lemma KeysForward(F: Floats, span: u64, es: seq<Entry>)
    requires Timely(es, TimeOf)
    ensures KeysInOrder(Exactly(F, span), es)
  {
    hide BucketOf, Observe;
    forall i, j | 0 <= i < j < |es|
      ensures BucketOf(TimeOf(es[i]), span) <= BucketOf(TimeOf(es[j]), span)
    {
      BucketMonotone(TimeOf(es[i]), TimeOf(es[j]), span);
    }
  }

  /** The mixed map has the keys of the entries, each with the exact sketch of its own. */
  lemma MixedKeys(F: Floats, span: u64, es: seq<Entry>)
    requires Observed(es)
    ensures var g, m := Exactly(F, span), Mix(F, span, es);
            && AscendingKeys(g, es) == SortedTimes(m) && Encodable(m)
            && forall k :: k in AscendingKeys(g, es) ==>
                 k in m && m[k] == FoldAll(g, Select(g, es, k)) && g.some(m[k]) && m[k].exact.Some?
  {
    hide Mix, Select, FoldAll, KeysOf, C.Storable, SortedTimes, Observe, BucketOf;
    var g, m := Exactly(F, span), Mix(F, span, es);
    var q := AscendingKeys(g, es);
    forall k | k in q
      ensures k in m && m[k] == FoldAll(g, Select(g, es, k)) && m[k].count > 0 && m[k].exact.Some?
    {
      KeyHas(F, span, es, k);
    }
    forall t: u64
      ensures t in q <==> t in m
    {
      MixByKey(F, span, es, t);
    }
    SortedTimesUnique(m, q);
  }

  lemma RawObserved(s: bytes, blocks: seq<Block>, from: u64, to: u64)
    requires Backed(s, blocks)
    ensures Observed(ReadRaw(s, from, to).entries)
  {
    hide AbsorbAll, Between, Map, ReadIn, Backed;
    ReadsRaw(s, blocks, from, to);
    var rows := AbsorbAll(EMPTY, blocks).sketches.rows;
    forall e | e in ReadRaw(s, from, to).entries
      ensures e.Value?
    {
      BetweenIn(Map(rows, ValueOf), TimeOf, from, to, e);
      var r := MapFrom(rows, ValueOf, e);
    }
  }

  /** On every series with the layout and every window without stored buckets, the raw path yields what the
      mixed path would. */
  lemma RawPathAgrees(F: Floats, s: bytes, blocks: seq<Block>, from: u64, to: u64, span: u64,
                      out: seq<(u64, Q.Sketch)>, error: Option<Error>)
    requires Backed(s, blocks) && !Has(SegmentsIn(s), 6, from, to)
    ensures RawYields(F, s, from, to, span, out, error) <==> MixedYields(F, s, from, to, span, out, error)
    ensures RawYields(F, s, from, to, span, out, error) ==> error.None?
  {
    hide AbsorbAll, Between, Map, ReadEach, Backed, Mix, Grouped, Exactly, Has, Encodable, Rendered, Encodings, AllExact, Timely, Until,
         SegmentsIn, ScanSeries;
    ReadsRaw(s, blocks, from, to);
    RawObserved(s, blocks, from, to);
    SameWithoutBuckets(SegmentsIn(s), from, to);
    UntilAll(ReadRaw(s, from, to).entries, Undecodable);
    StreamingIsMixing(F, span, ReadRaw(s, from, to).entries);
  }

  // ----- Stored and mixed -----

  /** Bytes a compaction or an exact encoding writes, for a sketch that holds something. */
  ghost predicate ProperOf(data: bytes, v: S.Summary) {
    && 0 < v.count < W
    && ((B.KeptExact(v) && data == C.ExactBytes(v)) || Z.CanonOf(data, v))
  }

  ghost predicate Proper(data: bytes) { exists v :: ProperOf(data, v) }

  /** Count, sum, extremes and all quantiles are the same. */
  ghost predicate Alike(F: Floats, a: Q.Sketch, b: Q.Sketch) {
    && a.count == b.count && a.sum == b.sum && a.min == b.min && a.max == b.max
    && forall rank: nat :: 0 < rank <= a.count ==> SameAt(F, a, b, rank)
  }

  ghost predicate SameAt(F: Floats, a: Q.Sketch, b: Q.Sketch, rank: nat) {
    Q.Queryable(a, rank) && Q.Queryable(b, rank) && Q.QuantileAt(F, a, rank) == Q.QuantileAt(F, b, rank)
  }

  lemma ServedAlike(F: Floats, data: bytes)
    requires Proper(data) && forall x :: F.add(0, x) == x
    ensures var merged := B.MergeBytes(F, S.NEW, data);
            && C.Decode(data).Ok? && Q.StoredSketch(data).Some? && (merged.exact.None? ==> C.Storable(merged))
            && Alike(F, Q.StoredSketch(data).value, Q.Encoded(F, merged))
  {
    hide C.Decode, Q.StoredSketch, Q.Encoded, B.MergeBytes, Q.Queryable, Q.QuantileAt, C.Storable, C.ApproxBytes, C.ExactBytes;
    var v :| ProperOf(data, v);
    ProperDecodes(data, v);
    ProperAgrees(F, data, v, 1);
    var a, b := Q.StoredSketch(data).value, Q.Encoded(F, B.MergeBytes(F, S.NEW, data));
    forall rank: nat | 0 < rank <= a.count
      ensures SameAt(F, a, b, rank)
    {
      ProperAgrees(F, data, v, rank);
    }
  }

  lemma ProperDecodes(data: bytes, v: S.Summary)
    requires ProperOf(data, v)
    ensures C.Decode(data) == Ok(v)
  {
    hide C.Decode, C.ApproxBytes, C.ExactBytes;
    if Z.CanonOf(data, v) {
      CanonShape(data, v);
      B.ApproxRoundTrip(v);
    } else {
      B.ExactRoundTrip(v);
    }
  }

  lemma CanonShape(data: bytes, v: S.Summary)
    requires Z.CanonOf(data, v)
    ensures v.count == H.Mass(v.hist) && H.Positive(v.hist) && |H.Codes(v.hist)| <= H.MAX_BINS
  {
  }

  lemma ProperAgrees(F: Floats, data: bytes, v: S.Summary, rank: nat)
    requires ProperOf(data, v) && 0 < rank <= v.count && forall x :: F.add(0, x) == x
    ensures var merged := B.MergeBytes(F, S.NEW, data);
            && Q.StoredSketch(data).Some? && (merged.exact.None? ==> C.Storable(merged))
            && var a, b := Q.StoredSketch(data).value, Q.Encoded(F, merged);
            && a.count == b.count == v.count && a.sum == b.sum && a.min == b.min && a.max == b.max
            && SameAt(F, a, b, rank)
  {
    hide C.Decode, Q.StoredSketch, Q.Encoded, B.MergeBytes, Q.Queryable, Q.QuantileAt, C.Storable, C.ApproxBytes, C.ExactBytes;
    if Z.CanonOf(data, v) {
      CanonShape(data, v);
    }
    Q.StoredReadsAgree(F, v, rank);
    MergedCount(F, data, v);
  }

  lemma MergedCount(F: Floats, data: bytes, v: S.Summary)
    requires ProperOf(data, v)
    ensures B.MergeBytes(F, S.NEW, data).count == v.count
    ensures var m := B.MergeBytes(F, S.NEW, data); (m.exact.None? ==> C.Storable(m)) ==> Q.Encoded(F, m).count == v.count
  {
    hide C.Decode, C.ApproxBytes, C.ExactBytes, C.Storable;
    ProperDecodes(data, v);
  }

  lemma {:induction false} WindowOfMap<T, E>(s: seq<T>, f: T -> E, time: T -> u64, at: E -> u64, from: u64, to: u64)
    requires forall x :: x in s ==> at(f(x)) == time(x)
    ensures Between(Map(s, f), at, from, to) == Map(Between(s, time, from, to), f)
  {
    if s == [] {
      MapNothing(f);
    } else {
      hide Between, Map;
      var front, x := s[..|s| - 1], s[|s| - 1];
      assert s == front + [x];
      WindowOfMap(front, f, time, at, from, to);
      MapConcat(front, [x], f);
      MapOne(x, f);
      BetweenSnoc(Map(front, f), f(x), at, from, to);
      BetweenSnoc(front, x, time, from, to);
      MapConcat(Between(front, time, from, to), [x], f);
      assert Between(front, time, from, to) + [] == Between(front, time, from, to);
      assert Map(Between(front, time, from, to), f) + [] == Map(Between(front, time, from, to), f);
    }
  }

  lemma MapOne<T, E>(x: T, f: T -> E)
    ensures Map([x], f) == [f(x)]
  {
  }

  lemma {:induction false} WindowIncreasing<T>(s: seq<T>, time: T -> u64, from: u64, to: u64)
    requires IncreasingBy(s, time)
    ensures IncreasingBy(Between(s, time, from, to), time)
  {
    if s != [] {
      var n := |s| - 1;
      var front, w := s[..n], Between(s[..n], time, from, to);
      WindowIncreasing(front, time, from, to);
      forall x | x in w
        ensures time(x) < time(s[n])
      {
        BetweenIn(front, time, from, to, x);
        var i :| 0 <= i < n && front[i] == x;
        assert time(s[i]) < time(s[n]);
      }
    }
  }

  /** Without a span, stored buckets with distinct times are merged each on its own. */
  lemma {:induction false} MixStored(F: Floats, bs: seq<K.SketchBucket>)
    requires IncreasingBy(bs, K.BucketTime)
    ensures Mix(F, 0, Map(bs, Held)) == K.DecodeItems(F, bs)
  {
    if bs == [] {
      MapNothing(Held);
    } else {
      hide Mix, B.MergeBytes, Map, K.DecodeItems, ByTime;
      var front, x := bs[..|bs| - 1], bs[|bs| - 1];
      assert bs == front + [x];
      Z.NewTime(front, x, K.BucketTime);
      MixStored(F, front);
      MapConcat(front, [x], Held);
      MapOne(x, Held);
      MixSnoc(F, 0, Map(front, Held), Held(x));
      Z.DecodeTimes(F, front);
      M.DecodeSnoc(F, bs);
    }
  }

  ghost predicate AllProper(bs: seq<K.SketchBucket>) { forall b :: b in bs ==> Proper(b.data) }

  /** Each served sketch has its time and is alike the one the mixed path renders. */
  ghost predicate SamePairs(F: Floats, out: seq<(u64, Q.Sketch)>, other: seq<(u64, Q.Sketch)>) {
    |out| == |other| && forall i :: 0 <= i < |out| ==> out[i].0 == other[i].0 && Alike(F, out[i].1, other[i].1)
  }

  lemma ServedPairs(F: Floats, bs: seq<K.SketchBucket>, out: seq<(u64, Q.Sketch)>)
    requires IncreasingBy(bs, K.BucketTime) && AllProper(bs) && forall x :: F.add(0, x) == x
    requires Serves(Map(bs, Held), out)
    ensures var m := K.DecodeItems(F, bs); Encodable(m) && SamePairs(F, out, Rendered(F, m))
  {
    hide B.MergeBytes, K.DecodeItems, Q.Encoded, Q.StoredSketch, C.Storable, C.Decode, Proper, Alike, IncreasingBy, TimesOf, SortedTimes,
         M.BucketsIncreasing;
    Z.SketchOrders(bs);
    M.DecodeDistinct(F, bs);
    var m := K.DecodeItems(F, bs);
    forall t | t in m
      ensures m[t].exact.None? ==> C.Storable(m[t])
    {
      var b :| b in bs && b.time == t;
      ServedAlike(F, b.data);
    }
    Z.MapTimes(bs, K.BucketTime, m);
    SortedTimesUnique(m, TimesOf(bs, K.BucketTime));
    forall i | 0 <= i < |bs|
      ensures out[i].0 == Rendered(F, m)[i].0 && Alike(F, out[i].1, Rendered(F, m)[i].1)
    {
      TimesAt(bs, K.BucketTime, i);
      assert bs[i] in bs && Map(bs, Held)[i] == Held(bs[i]);
      ServedAlike(F, bs[i].data);
    }
  }

  lemma AllServed(F: Floats, bs: seq<K.SketchBucket>)
    requires AllProper(bs) && forall x :: F.add(0, x) == x
    ensures AllServable(Map(bs, Held)) && AllDecode(Map(bs, Held))
  {
    hide Q.StoredSketch, C.Decode, Proper, B.MergeBytes, Alike;
    forall e | e in Map(bs, Held)
      ensures Servable(e) && Decodes(e)
    {
      var b := MapFrom(bs, Held, e);
      ServedAlike(F, b.data);
    }
  }

  /** On every series with the layout and every window without raw observations: serving stored buckets as
      they lie succeeds like the mixed path, at the same times, and every sketch has the count, sum,
      extremes and quantiles the mixed path gives it. */
  lemma StoredPathAgrees(F: Floats, s: bytes, blocks: seq<Block>, from: u64, to: u64, out: seq<(u64, Q.Sketch)>, error: Option<Error>)
    requires Backed(s, blocks) && !Has(SegmentsIn(s), 5, from, to)
    requires AllProper(AbsorbAll(EMPTY, blocks).sketches.buckets) && forall x :: F.add(0, x) == x
    ensures var m := Mix(F, 0, ReadBoth(s, from, to).entries);
            && Encodable(m) && MixedYields(F, s, from, to, 0, Rendered(F, m), None)
            && (StoredYields(s, from, to, out, error) ==> error.None? && SamePairs(F, out, Rendered(F, m)))
  {
    hide AbsorbAll, Between, Map, ReadEach, Mix, Has, Encodable, Rendered, Proper, Servable, Serves, SamePairs, IncreasingBy,
         Nondecreasing, AllGood, AllReadable, Written, BucketsFirst, Until, Undecodable, Unservable, AllServable, SegmentsIn, ScanSeries;
    var all := AbsorbAll(EMPTY, blocks).sketches.buckets;
    var bs := Between(all, K.BucketTime, from, to);
    StoredWindow(F, s, blocks, from, to);
    StoredAndMixed(F, bs);
    if StoredYields(s, from, to, out, error) {
      ServedPairs(F, bs, out);
    }
  }

  /** Both paths read the same buckets of the window, all of them proper. */
  lemma StoredWindow(F: Floats, s: bytes, blocks: seq<Block>, from: u64, to: u64)
    requires Backed(s, blocks) && !Has(SegmentsIn(s), 5, from, to) && AllProper(AbsorbAll(EMPTY, blocks).sketches.buckets)
    ensures var bs := Between(AbsorbAll(EMPTY, blocks).sketches.buckets, K.BucketTime, from, to);
            && ReadBoth(s, from, to) == ReadStored(s, from, to) == Read(Map(bs, Held), None)
            && AllProper(bs) && IncreasingBy(bs, K.BucketTime)
  {
    hide AbsorbAll, Between, Map, ReadEach, Has, Proper, IncreasingBy, Nondecreasing, AllGood, AllReadable, Written, BucketsFirst, SegmentsIn,
         ScanSeries;
    ReadsStored(s, blocks, from, to);
    SameWithoutRaw(SegmentsIn(s), from, to);
    var all := AbsorbAll(EMPTY, blocks).sketches.buckets;
    var bs := Between(all, K.BucketTime, from, to);
    WindowOfMap(all, Held, K.BucketTime, TimeOf, from, to);
    WindowIncreasing(all, K.BucketTime, from, to);
    forall b | b in bs ensures Proper(b.data) { BetweenIn(all, K.BucketTime, from, to, b); }
  }

  /** Proper buckets are all served and all merged. */
  lemma StoredAndMixed(F: Floats, bs: seq<K.SketchBucket>)
    requires AllProper(bs) && IncreasingBy(bs, K.BucketTime) && forall x :: F.add(0, x) == x
    ensures var r := Read(Map(bs, Held), None);
            && Used(r, Unservable) == r && Used(r, Undecodable) == r
            && Mix(F, 0, r.entries) == K.DecodeItems(F, bs) && Encodable(K.DecodeItems(F, bs))
  {
    hide Map, Mix, Encodable, Proper, Servable, IncreasingBy, Until, Undecodable, Unservable, Serves, SamePairs;
    AllServed(F, bs);
    MixStored(F, bs);
    UntilAll(Map(bs, Held), Unservable);
    UntilAll(Map(bs, Held), Undecodable);
    forall e | e in Map(bs, Held) ensures Unservable(e).None? { ServableIs(e); }
    var served := ServeEach(bs);
    ServedPairs(F, bs, served);
  }

  lemma ServeEach(bs: seq<K.SketchBucket>) returns (out: seq<(u64, Q.Sketch)>)
    requires AllServable(Map(bs, Held))
    ensures Serves(Map(bs, Held), out)
  {
    hide Q.StoredSketch;
    var es := Map(bs, Held);
    forall i | 0 <= i < |es| ensures es[i].Stored? && Servable(es[i]) { assert es[i] in es && es[i] == Held(bs[i]); }
    out := seq(|es|, i requires 0 <= i < |es| => Served(es[i]));
  }

  // ----- The chosen path -----

  lemma {:induction false} NothingRead(xs: seq<Segment>, from: u64, to: u64)
    requires !Has(xs, 5, from, to) && !Has(xs, 6, from, to)
    ensures ReadEach(xs, BothItems, TimeOf, from, to) == Read([], None)
  {
    if xs != [] {
      var front, x := xs[..|xs| - 1], xs[|xs| - 1];
      assert xs == front + [x];
      HasSnoc(front, x, 5, from, to);
      HasSnoc(front, x, 6, from, to);
      NothingRead(front, from, to);
    }
  }

  /** Whichever path is chosen, it yields what merging everything by bucket would. */
  lemma RangeIsMixed(F: Floats, s: bytes, blocks: seq<Block>, from: u64, to: u64, span: u64, out: seq<(u64, Q.Sketch)>,
                     error: Option<Error>, mixed: seq<(u64, Q.Sketch)>, e: Option<Error>)
    requires Backed(s, blocks) && AllProper(AbsorbAll(EMPTY, blocks).sketches.buckets) && forall x :: F.add(0, x) == x
    requires Yields(F, s, from, to, span, out, error) && MixedYields(F, s, from, to, span, mixed, e)
    ensures error == e && (out == mixed || SamePairs(F, out, mixed))
  {
    hide AbsorbAll, Backed, AllProper, SegmentsIn, ScanSeries, Has, RawYields, StoredYields, MixedYields, SamePairs, Mix;
    var xs := SegmentsIn(s);
    ReadsStored(s, blocks, from, to);
    if !Has(xs, 5, from, to) && !Has(xs, 6, from, to) {
      NothingYields(F, s, from, to, span, mixed, e);
    } else if !Has(xs, 6, from, to) {
      RawPathAgrees(F, s, blocks, from, to, span, out, error);
      MixedOnce(F, s, from, to, span, out, error, mixed, e);
    } else if !Has(xs, 5, from, to) && span == 0 {
      StoredPathAgrees(F, s, blocks, from, to, out, error);
      MixedOnce(F, s, from, to, 0, Rendered(F, Mix(F, 0, ReadBoth(s, from, to).entries)), None, mixed, e);
    } else {
      MixedOnce(F, s, from, to, span, out, error, mixed, e);
    }
  }

  lemma MixedOnce(F: Floats, s: bytes, from: u64, to: u64, span: u64, out: seq<(u64, Q.Sketch)>, error: Option<Error>,
                  mixed: seq<(u64, Q.Sketch)>, e: Option<Error>)
    requires MixedYields(F, s, from, to, span, out, error) && MixedYields(F, s, from, to, span, mixed, e)
    ensures out == mixed && error == e
  {
  }

  lemma NothingYields(F: Floats, s: bytes, from: u64, to: u64, span: u64, mixed: seq<(u64, Q.Sketch)>, e: Option<Error>)
    requires !Has(SegmentsIn(s), 5, from, to) && !Has(SegmentsIn(s), 6, from, to) && ScanSeries(s).error.None?
    requires MixedYields(F, s, from, to, span, mixed, e)
    ensures mixed == [] && e.None?
  {
    hide SegmentsIn, ScanSeries, Has, ReadEach;
    NothingRead(SegmentsIn(s), from, to);
    NothingMixed(F, span, from, to);
  }
}
