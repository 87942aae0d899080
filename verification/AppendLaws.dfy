/** What appends keep: the layout of a stored series, and the meaning of a merge. */
module AppendLaws {
  import opened Words
  import opened Varint
  import opened Reader
  import opened Rows
  import opened Pendings
  import opened Blocks
  import opened Segments
  import opened Marshalling
  import opened Appending
  import P = SampleState
  import N = CounterState
  import K = SketchState

  // ----- Decoding after an append -----

  lemma {:induction false} OpenAllConcat(xs: seq<Segment>, blocks: seq<Block>)
    requires KindsKnown(xs) && AllGood(blocks)
    ensures OpenAll(xs + SegmentsOf(blocks)) ==
            match OpenAll(xs)
            case Err(e) => Err(e)
            case Ok(first) => if AllReadable(blocks) then Ok(first + blocks) else Err(Shape)
  {
    hide Open, Good, SegmentOf, AllFinite, OpenAll;
    if blocks == [] {
      assert xs + SegmentsOf(blocks) == xs;
      if OpenAll(xs).Ok? { assert OpenAll(xs).value + blocks == OpenAll(xs).value; }
    } else {
      hide AllReadable, SegmentsOf, AllGood;
      var n := |blocks| - 1;
      var front, b := blocks[..n], blocks[n];
      assert blocks == front + [b];
      SegmentsSnoc(blocks);
      OpenAllConcat(xs, front);
      OpenAllSnoc(xs + SegmentsOf(front), SegmentOf(b));
      assert xs + SegmentsOf(blocks) == xs + SegmentsOf(front) + [SegmentOf(b)];
      OpenWritten(b);
      ReadableSnoc(front, b);
      if OpenAll(xs).Ok? { assert OpenAll(xs).value + front + [b] == OpenAll(xs).value + blocks; }
    }
  }

  lemma ReadableSnoc(front: seq<Block>, b: Block)
    ensures AllReadable(front + [b]) <==> AllReadable(front) && (b.SketchBlock? ==> AllFinite(b.rows))
  {
    hide AllFinite;
    assert forall x :: x in front + [b] <==> x in front || x == b;
  }

  lemma SegmentsSnoc(blocks: seq<Block>)
    requires AllGood(blocks) && blocks != []
    ensures var n := |blocks| - 1;
            && blocks[n] in blocks && AllGood(blocks[..n]) && Good(blocks[n])
            && Encodes(blocks[n]) && Entries(blocks[n]) > 0 && 1 <= SegmentOf(blocks[n]).kind <= 6
            && SegmentsOf(blocks) == SegmentsOf(blocks[..n]) + [SegmentOf(blocks[n])]
  {
    hide Payload, EntryTimes, Encodes;
  }

  /** Segments put behind any series that scans decode to the state concatenated with theirs. */
  lemma DecodeAppended(s: bytes, blocks: seq<Block>)
    requires s != [] && ScanSeries(s).error.None? && AllGood(blocks)
    ensures SegmentsIn(s + Blob(blocks)) == SegmentsIn(s) + SegmentsOf(blocks)
    ensures ScanSeries(s + Blob(blocks)).error.None?
    ensures Decoded(s + Blob(blocks)) ==
            match Decoded(s)
            case Err(e) => Err(e)
            case Ok(p) => if AllReadable(blocks) then Ok(Concat(p, AbsorbAll(EMPTY, blocks))) else Err(Shape)
  {
    hide Scan, Blob, OpenAll, AbsorbAll, AllReadable, SegmentsOf, Concat;
    assert (s + Blob(blocks))[1..] == s[1..] + Blob(blocks);
    ScanExtend(s[1..], Blob(blocks));
    ScanBlob(blocks);
    OpenAllConcat(SegmentsIn(s), blocks);
    if OpenAll(SegmentsIn(s)).Ok? {
      AbsorbAllConcat(EMPTY, OpenAll(SegmentsIn(s)).value, blocks);
      AbsorbAllIsConcat(AbsorbAll(EMPTY, OpenAll(SegmentsIn(s)).value), blocks);
    }
  }

  // ----- The layout every reachable series has -----

  function Family(b: Block): nat {
    if b.SampleBlock? || b.SampleBucketBlock? then 0 else if b.CounterBlock? || b.CounterBucketBlock? then 1 else 2
  }

  predicate Raw(b: Block) { b.SampleBlock? || b.CounterBlock? || b.SketchBlock? }

  /** A bucket behind a raw entry of its family is strictly later. */
  predicate BucketsFirst(blocks: seq<Block>)
    requires AllGood(blocks)
  {
    forall i, j :: 0 <= i < j < |blocks| && Family(blocks[i]) == Family(blocks[j]) && Raw(blocks[i]) && !Raw(blocks[j]) ==>
      assert blocks[i] in blocks && blocks[j] in blocks;
      Last(blocks[i]) < First(blocks[j])
  }

  /** A series written from blocks in order: sample and bucket times increase, counter and sketch times do
      not decrease, segments carry the true bounds of their entries, and everything can be read. */
  ghost predicate Backed(s: bytes, blocks: seq<Block>) {
    && AllGood(blocks) && AllReadable(blocks)
    && (s == Written(blocks) || (s == [] && blocks == []))
    && Appendable(AbsorbAll(EMPTY, blocks))
    && BucketsFirst(blocks)
  }

  lemma BackedDecodes(s: bytes, blocks: seq<Block>)
    requires Backed(s, blocks)
    ensures ScanSeries(s) == Scanned(SegmentsOf(blocks), None) && SegmentsIn(s) == SegmentsOf(blocks)
    ensures Decoded(s) == Ok(AbsorbAll(EMPTY, blocks))
  {
    assert |Written(blocks)| > 0;
    hide Written, Good, SegmentsOf, Decoded, BucketsFirst, AbsorbAll, Appendable;
    if s == [] {
      DecodedEmpty();
      assert SegmentsOf([]) == [] && AbsorbAll(EMPTY, []) == EMPTY by { NoSegments(); }
    } else {
      ScanWritten(blocks);
      DecodeWritten(blocks);
    }
  }

  lemma NoSegments()
    ensures AllGood([]) && SegmentsOf([]) == [] && AbsorbAll(EMPTY, []) == EMPTY && AllReadable([])
    ensures BucketsFirst([])
  {
    assert AllGood([]);
    assert SegmentsOf([]) == [];
  }

  // ----- Marshalled states have the layout -----

  lemma CutKind<T>(s: seq<T>, wrap: seq<T> -> Block, family: nat, raw: bool)
    requires forall p :: Family(wrap(p)) == family && Raw(wrap(p)) == raw
    ensures forall b :: b in Cut(s, wrap) ==> Family(b) == family && Raw(b) == raw
    decreases |s|
  {
    hide Family, Raw;
    if |s| > SEGMENT_SIZE {
      CutKind(s[SEGMENT_SIZE..], wrap, family, raw);
    }
  }

  /** Where blocks sit in `BlocksOf`: families in turn, buckets before raw entries. */
  function Place(b: Block): nat { 2 * Family(b) + if Raw(b) then 1 else 0 }

  predicate Placed(blocks: seq<Block>, low: nat, high: nat) {
    && (forall b :: b in blocks ==> low <= Place(b) <= high)
    && (forall i, j :: 0 <= i < j < |blocks| ==> Place(blocks[i]) <= Place(blocks[j]))
  }

  lemma PlacedConcat(a: seq<Block>, b: seq<Block>, low: nat, middle: nat, high: nat)
    requires Placed(a, low, middle) && Placed(b, middle + 1, high) && middle < high && low <= middle
    ensures Placed(a + b, low, high)
  {
    hide Place;
  }

  lemma OnePlace(blocks: seq<Block>, family: nat, raw: bool)
    requires forall b :: b in blocks ==> Family(b) == family && Raw(b) == raw
    ensures var n := 2 * family + if raw then 1 else 0; Placed(blocks, n, n)
  {
    hide Family, Raw;
  }

  lemma BlocksPlaced(p: State)
    ensures Placed(BlocksOf(p), 0, 5)
  {
    hide Cut, Placed;
    CutKind(p.samples.buckets, WrapSampleBuckets, 0, false);
    CutKind(p.samples.rows, WrapSamples, 0, true);
    CutKind(p.counters.buckets, WrapCounterBuckets, 1, false);
    CutKind(p.counters.rows, WrapCounters, 1, true);
    CutKind(p.sketches.buckets, WrapSketchBuckets, 2, false);
    CutKind(p.sketches.rows, WrapSketches, 2, true);
    var a, b := Cut(p.samples.buckets, WrapSampleBuckets), Cut(p.samples.rows, WrapSamples);
    var c, d := Cut(p.counters.buckets, WrapCounterBuckets), Cut(p.counters.rows, WrapCounters);
    var e, f := Cut(p.sketches.buckets, WrapSketchBuckets), Cut(p.sketches.rows, WrapSketches);
    hide Family, Raw;
    OnePlace(a, 0, false);
    OnePlace(b, 0, true);
    OnePlace(c, 1, false);
    OnePlace(d, 1, true);
    OnePlace(e, 2, false);
    OnePlace(f, 2, true);
    PlacedConcat(a, b, 0, 0, 1);
    PlacedConcat(a + b, c, 0, 1, 2);
    PlacedConcat(a + b + c, d, 0, 2, 3);
    PlacedConcat(a + b + c + d, e, 0, 3, 4);
    PlacedConcat(a + b + c + d + e, f, 0, 4, 5);
  }

  lemma PlacedBucketsFirst(blocks: seq<Block>)
    requires AllGood(blocks) && Placed(blocks, 0, 5)
    ensures BucketsFirst(blocks)
  {
    hide Good, Family, Raw, EntryTimes;
    forall i, j | 0 <= i < j < |blocks|
      ensures !(Family(blocks[i]) == Family(blocks[j]) && Raw(blocks[i]) && !Raw(blocks[j]))
    {
      assert Place(blocks[i]) <= Place(blocks[j]);
    }
  }

  /** Encoding a state that is in order gives a series with the layout. */
  lemma MarshalledBacked(p: State)
    requires Appendable(p) && Fits(p) && AllFinite(p.sketches.rows)
    ensures exists blocks :: Backed(Marshalled(p), blocks) && AbsorbAll(EMPTY, blocks) == p
  {
    hide Good, Cut, AbsorbAll, AllFinite, Appendable;
    BlocksGood(p);
    BlocksPlaced(p);
    PlacedBucketsFirst(BlocksOf(p));
    BlocksAbsorbed(p);
    AbsorbedReadable(BlocksOf(p));
    if Size(p) == 0 {
      NothingHeld(p);
      NoSegments();
      assert Backed(Marshalled(p), []);
    } else {
      assert Backed(Marshalled(p), BlocksOf(p));
    }
  }

  // ----- The fast path keeps the layout -----

  lemma TimesConcat<T>(a: seq<T>, b: seq<T>, time: T -> u64)
    ensures TimesOf(a + b, time) == TimesOf(a, time) + TimesOf(b, time)
  {
  }

  lemma AbsorbTimes(p: State, b: Block)
    ensures forall t :: t in AllTimes(Absorb(p, b)) <==> t in AllTimes(p) || t in EntryTimes(b)
  {
    hide TimesOf;
    match b
    case SampleBlock(rows) => TimesConcat(p.samples.rows, rows, P.RowTime);
    case CounterBlock(rows) => TimesConcat(p.counters.rows, rows, P.RowTime);
    case SampleBucketBlock(bs) => TimesConcat(p.samples.buckets, bs, P.BucketTime);
    case CounterBucketBlock(bs) => TimesConcat(p.counters.buckets, bs, N.BucketTime);
    case SketchBlock(rows) => TimesConcat(p.sketches.rows, rows, P.RowTime);
    case SketchBucketBlock(bs) => TimesConcat(p.sketches.buckets, bs, K.BucketTime);
  }

  /** The times of a state are those of its blocks. */
  lemma {:induction false} AbsorbedTimes(blocks: seq<Block>)
    ensures forall t :: t in AllTimes(AbsorbAll(EMPTY, blocks)) <==> exists b :: b in blocks && t in EntryTimes(b)
  {
    hide AllTimes, EntryTimes, Absorb;
    if blocks == [] {
      NoTimes();
    } else {
      var n := |blocks| - 1;
      assert blocks == blocks[..n] + [blocks[n]];
      AbsorbedTimes(blocks[..n]);
      AbsorbTimes(AbsorbAll(EMPTY, blocks[..n]), blocks[n]);
    }
  }

  lemma NoTimes()
    ensures AllTimes(EMPTY) == []
  {
  }

  ghost predicate Before(a: State, b: State) {
    forall t, u :: t in AllTimes(a) && u in AllTimes(b) ==> t < u
  }

  lemma ConcatIncreasing<T>(a: seq<T>, b: seq<T>, time: T -> u64)
    requires IncreasingBy(a, time) && IncreasingBy(b, time)
    requires forall t, u :: t in TimesOf(a, time) && u in TimesOf(b, time) ==> t < u
    ensures IncreasingBy(a + b, time)
  {
    var s := a + b;
    forall i, j | 0 <= i < j < |s|
      ensures time(s[i]) < time(s[j])
    {
      if j < |a| {
        assert time(a[i]) < time(a[j]);
      } else if |a| <= i {
        assert time(b[i - |a|]) < time(b[j - |a|]);
      } else {
        assert TimesOf(a, time)[i] in TimesOf(a, time) && TimesOf(b, time)[j - |a|] in TimesOf(b, time);
      }
    }
  }

  lemma ConcatNondecreasing(a: seq<Row>, b: seq<Row>)
    requires Nondecreasing(a) && Nondecreasing(b)
    requires forall t, u :: t in TimesOf(a, P.RowTime) && u in TimesOf(b, P.RowTime) ==> t < u
    ensures Nondecreasing(a + b)
  {
    var s := a + b;
    forall i, j | 0 <= i < j < |s|
      ensures s[i].time <= s[j].time
    {
      if i < |a| <= j {
        assert TimesOf(a, P.RowTime)[i] in TimesOf(a, P.RowTime);
        assert TimesOf(b, P.RowTime)[j - |a|] in TimesOf(b, P.RowTime);
      }
    }
  }

  lemma PartTimes(p: State, t: u64)
    ensures t in AllTimes(p) <==>
            || t in TimesOf(p.samples.rows, P.RowTime) || t in TimesOf(p.samples.buckets, P.BucketTime)
            || t in TimesOf(p.counters.rows, P.RowTime) || t in TimesOf(p.counters.buckets, N.BucketTime)
            || t in TimesOf(p.sketches.rows, P.RowTime) || t in TimesOf(p.sketches.buckets, K.BucketTime)
  {
    hide TimesOf;
  }

  lemma ConcatAppendable(p: State, d: State)
    requires Appendable(p) && Appendable(d) && Before(p, d)
    ensures Appendable(Concat(p, d))
  {
    hide TimesOf, IncreasingBy, Nondecreasing, AllTimes;
    forall t { PartTimes(p, t); }
    forall t { PartTimes(d, t); }
    ConcatIncreasing(p.samples.rows, d.samples.rows, P.RowTime);
    ConcatIncreasing(p.samples.buckets, d.samples.buckets, P.BucketTime);
    ConcatNondecreasing(p.counters.rows, d.counters.rows);
    ConcatIncreasing(p.counters.buckets, d.counters.buckets, N.BucketTime);
    ConcatNondecreasing(p.sketches.rows, d.sketches.rows);
    ConcatIncreasing(p.sketches.buckets, d.sketches.buckets, K.BucketTime);
  }

  /** Later than every segment is later than every entry. */
  lemma LaterMeansBefore(s: bytes, blocks: seq<Block>, d: State)
    requires Backed(s, blocks) && Later(s, d)
    ensures Before(AbsorbAll(EMPTY, blocks), d)
    ensures forall b, u :: b in blocks && u in AllTimes(d) ==> Entries(b) > 0 && Last(b) < u
  {
    hide Written, Encodes, Payload, Appendable, BucketsFirst, AllTimes, AllReadable, EntryTimes, AbsorbAll, Decoded, ScanSeries;
    BackedDecodes(s, blocks);
    AbsorbedTimes(blocks);
    forall b, u | b in blocks && u in AllTimes(d)
      ensures Entries(b) > 0 && Last(b) < u
    {
      var i :| 0 <= i < |blocks| && blocks[i] == b;
      assert SegmentsOf(blocks)[i] in SegmentsIn(s);
    }
    forall t, u | t in AllTimes(AbsorbAll(EMPTY, blocks)) && u in AllTimes(d)
      ensures t < u
    {
      var b :| b in blocks && t in EntryTimes(b);
      GoodBounds(b);
    }
  }

  lemma BucketsFirstConcat(a: seq<Block>, b: seq<Block>)
    requires AllGood(a) && AllGood(b) && AllGood(a + b)
    requires BucketsFirst(a) && BucketsFirst(b)
    requires forall x, y :: x in a && y in b ==> Last(x) < First(y)
    ensures BucketsFirst(a + b)
  {
    hide Encodes, Payload, EntryTimes, Family, Raw;
    var s := a + b;
    forall i, j | 0 <= i < j < |s| && Family(s[i]) == Family(s[j]) && Raw(s[i]) && !Raw(s[j])
      ensures s[i] in s && s[j] in s && Last(s[i]) < First(s[j])
    {
      if j < |a| {
        assert a[i] == s[i] && a[j] == s[j];
      } else if |a| <= i {
        assert b[i - |a|] == s[i] && b[j - |a|] == s[j];
      }
    }
  }

  /** Appending without a merge keeps the layout, and the result decodes to the entries of both. */
  lemma FastBacked(s: bytes, blocks: seq<Block>, d: State)
    requires Backed(s, blocks) && FastPath(s, d) && Fits(d) && AllFinite(d.sketches.rows)
    ensures AllGood(BlocksOf(d))
    ensures Backed(s + Blob(BlocksOf(d)), blocks + BlocksOf(d))
    ensures AbsorbAll(EMPTY, blocks + BlocksOf(d)) == Concat(AbsorbAll(EMPTY, blocks), d)
  {
    hide Encodes, Payload, EntryTimes, Blob, BlocksOf, AbsorbAll, AllFinite, Appendable, Concat, Before, AllTimes, Later,
         Placed, BucketsFirst;
    var more := BlocksOf(d);
    BlocksGood(d);
    BlocksPlaced(d);
    PlacedBucketsFirst(more);
    BlocksAbsorbed(d);
    AbsorbedReadable(more);
    LaterMeansBefore(s, blocks, d);
    AbsorbNext(blocks, more);
    ConcatAppendable(AbsorbAll(EMPTY, blocks), d);
    BlobConcat(blocks, more);
    assert [VERSION] + (Blob(blocks) + Blob(more)) == [VERSION] + Blob(blocks) + Blob(more);
    AbsorbedTimes(more);
    forall x, y | x in blocks && y in more
      ensures Last(x) < First(y)
    {
      GoodBounds(y);
      assert First(y) in AllTimes(AbsorbAll(EMPTY, more));
    }
    BucketsFirstConcat(blocks, more);
    assert AllReadable(blocks + more);
  }
}
