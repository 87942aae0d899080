/** The stored form of a series: a version byte and segments with time bounds. */
module Segments {
  import opened Words
  import opened Varint
  import opened Reader
  import opened Rows
  import opened Pendings
  import opened Blocks
  import P = SampleState
  import N = CounterState
  import K = SketchState

  const VERSION: byte := 4
  const SEGMENT_SIZE := 1024

  datatype Segment = Segment(kind: byte, from: u64, to: u64, count: nat, rawLen: nat, data: bytes)

  // ----- Scanning -----

  function ReadSegment(data: bytes): (r: Parse<Segment>)
    requires data != []
    ensures r.Got? ==> |r.rest| < |data|
    ensures r.Got? ==> 0 < r.value.count <= SEGMENT_SIZE && r.value.from <= r.value.to && 1 <= r.value.kind <= 6
  {
    match ReadWords(data[1..], 2)
    case Bad(e) => Bad(e)
    case Got(bounds, more) =>
      match ReadCount(more)
      case Bad(e) => Bad(e)
      case Got(count, more) =>
        match ReadCount(more)
        case Bad(e) => Bad(e)
        case Got(rawLen, more) =>
          match ReadCount(more)
          case Bad(e) => Bad(e)
          case Got(size, more) =>
            if size > |more| then Bad(Short)
            else if count == 0 || count > SEGMENT_SIZE || bounds[0] > bounds[1] then Bad(Large)
            else if data[0] == 0 || data[0] > 6 then Bad(BadVarint)
            else Got(Segment(data[0], bounds[0], bounds[1], count, rawLen, more[..size]), more[size..])
  }

  /** The segments in front of the first error, and that error. */
  datatype Scanned = Scanned(segments: seq<Segment>, error: Option<Error>)

  /** Every segment takes some bytes, so a scan of any bytes ends. */
  function Scan(data: bytes): Scanned
    decreases |data|
  {
    if data == [] then Scanned([], None) else
    match ReadSegment(data)
    case Bad(e) => Scanned([], Some(e))
    case Got(x, rest) => Scanned([x] + Scan(rest).segments, Scan(rest).error)
  }

  function ScanSeries(s: bytes): Scanned {
    if s == [] then Scanned([], None)
    else if s[0] != VERSION then Scanned([], Some(Version))
    else Scan(s[1..])
  }

  // ----- Decoding -----

  function Open(x: Segment): Result<Block>
    requires 1 <= x.kind <= 6
  {
    if |x.data| != x.rawLen then Err(Short) else ReadBlock(x.kind, x.data, x.count)
  }

  function Absorb(p: State, b: Block): State {
    match b
    case SampleBlock(rows) => p.(samples := p.samples.(rows := p.samples.rows + rows))
    case CounterBlock(rows) => p.(counters := p.counters.(rows := p.counters.rows + rows))
    case SampleBucketBlock(bs) => p.(samples := p.samples.(buckets := p.samples.buckets + bs))
    case CounterBucketBlock(bs) => p.(counters := p.counters.(buckets := p.counters.buckets + bs))
    case SketchBlock(rows) => p.(sketches := p.sketches.(rows := p.sketches.rows + rows))
    case SketchBucketBlock(bs) => p.(sketches := p.sketches.(buckets := p.sketches.buckets + bs))
  }

  function AbsorbAll(p: State, blocks: seq<Block>): State {
    if blocks == [] then p else Absorb(AbsorbAll(p, blocks[..|blocks| - 1]), blocks[|blocks| - 1])
  }

  predicate KindsKnown(xs: seq<Segment>) {
    forall x :: x in xs ==> 1 <= x.kind <= 6
  }

  /** Opens segments until one fails. */
  function OpenAll(xs: seq<Segment>): (r: Result<seq<Block>>)
    requires KindsKnown(xs)
    ensures r.Ok? ==> |r.value| == |xs|
  {
    if xs == [] then Ok([]) else
    match OpenAll(xs[..|xs| - 1])
    case Err(e) => Err(e)
    case Ok(blocks) =>
      match Open(xs[|xs| - 1])
      case Err(e) => Err(e)
      case Ok(b) => Ok(blocks + [b])
  }

  lemma {:induction false} ScanKinds(data: bytes)
    ensures KindsKnown(Scan(data).segments)
    ensures forall x :: x in Scan(data).segments ==> x.from <= x.to && 0 < x.count <= 1024
    decreases |data|
  {
    hide ReadSegment;
    if data != [] && ReadSegment(data).Got? {
      ScanKinds(ReadSegment(data).rest);
    }
  }

  function SegmentsIn(s: bytes): (xs: seq<Segment>)
    ensures KindsKnown(xs)
  {
    if s != [] then ScanKinds(s[1..]); ScanSeries(s).segments else []
  }

  /** `series.pending`: the state some bytes stand for. A segment that cannot be decoded comes before
      an error of the scan behind it. */
  function Decoded(s: bytes): Result<State> {
    match OpenAll(SegmentsIn(s))
    case Err(e) => Err(e)
    case Ok(blocks) =>
      if ScanSeries(s).error.Some? then Err(ScanSeries(s).error.value) else Ok(AbsorbAll(EMPTY, blocks))
  }

  // ----- Writing -----

  predicate Sequential(ts: seq<u64>) {
    forall i, j :: 0 <= i < j < |ts| ==> ts[i] <= ts[j]
  }

  /** A block that can be written as one segment. */
  predicate Good(b: Block) {
    Encodes(b) && 0 < Entries(b) <= SEGMENT_SIZE && Sequential(EntryTimes(b)) && |Payload(b)| <= MAX_INT
  }

  predicate AllGood(blocks: seq<Block>) {
    forall b :: b in blocks ==> Good(b)
  }

  function First(b: Block): u64
    requires Entries(b) > 0
  {
    EntryTimes(b)[0]
  }

  function Last(b: Block): u64
    requires Entries(b) > 0
  {
    EntryTimes(b)[Entries(b) - 1]
  }

  function SegmentOf(b: Block): Segment
    requires Encodes(b) && Entries(b) > 0
  {
    Segment(Kind(b), First(b), Last(b), Entries(b), |Payload(b)|, Payload(b))
  }

  function SegmentBytes(x: Segment): bytes {
    [x.kind] + Encode([x.from, x.to]) + Leb(x.count) + Leb(x.rawLen) + Leb(|x.data|) + x.data
  }

  function Blob(blocks: seq<Block>): bytes
    requires AllGood(blocks)
  {
    if blocks == [] then [] else
    assert blocks[0] in blocks;
    SegmentBytes(SegmentOf(blocks[0])) + Blob(blocks[1..])
  }

  function Written(blocks: seq<Block>): bytes
    requires AllGood(blocks)
  {
    [VERSION] + Blob(blocks)
  }

  /** Pieces of at most 1024 entries. */
  function Cut<T>(s: seq<T>, wrap: seq<T> -> Block): seq<Block> {
    if s == [] then []
    else if |s| <= SEGMENT_SIZE then [wrap(s)]
    else [wrap(s[..SEGMENT_SIZE])] + Cut(s[SEGMENT_SIZE..], wrap)
  }

  function Piece<T>(s: seq<T>, i: nat): seq<T>
    requires 1024 * i <= |s|
  {
    if 1024 * (i + 1) <= |s| then s[1024 * i..1024 * (i + 1)] else s[1024 * i..]
  }

  /** Every piece but the last one is full. */
  lemma {:induction false} CutPieces<T>(s: seq<T>, wrap: seq<T> -> Block)
    ensures |Cut(s, wrap)| == (|s| + 1023) / 1024
    ensures forall i :: 0 <= i < |Cut(s, wrap)| ==> Cut(s, wrap)[i] == wrap(Piece(s, i))
  {
    if |s| > 1024 {
      var rest := s[1024..];
      CutPieces(rest, wrap);
      assert s[..1024] == Piece(s, 0);
      hide Piece;
      forall i | 1 <= i < |Cut(s, wrap)|
        ensures Cut(s, wrap)[i] == wrap(Piece(s, i))
      {
        PieceBehind(s, i);
      }
    } else if s != [] {
      assert s == Piece(s, 0);
    }
  }

  lemma PieceBehind<T>(s: seq<T>, i: nat)
    requires 1 <= i && 1024 * i <= |s|
    ensures Piece(s, i) == Piece(s[1024..], i - 1)
  {
  }

  function WrapSamples(s: seq<Row>): Block { SampleBlock(s) }
  function WrapCounters(s: seq<Row>): Block { CounterBlock(s) }
  function WrapSketches(s: seq<Row>): Block { SketchBlock(s) }
  function WrapSampleBuckets(s: seq<P.SampleBucket>): Block { SampleBucketBlock(s) }
  function WrapCounterBuckets(s: seq<N.CounterBucket>): Block { CounterBucketBlock(s) }
  function WrapSketchBuckets(s: seq<K.SketchBucket>): Block { SketchBucketBlock(s) }

  /** The order of `appendTo`: buckets before raw entries, kind by kind. */
  function BlocksOf(p: State): seq<Block> {
    Cut(p.samples.buckets, WrapSampleBuckets) + Cut(p.samples.rows, WrapSamples) +
    Cut(p.counters.buckets, WrapCounterBuckets) + Cut(p.counters.rows, WrapCounters) +
    Cut(p.sketches.buckets, WrapSketchBuckets) + Cut(p.sketches.rows, WrapSketches)
  }

  // ----- One segment -----

  lemma ReadWritten(x: Segment, rest: bytes)
    requires 0 < x.count <= SEGMENT_SIZE && x.from <= x.to && 1 <= x.kind <= 6
    requires x.rawLen <= MAX_INT && |x.data| <= MAX_INT
    ensures ReadSegment(SegmentBytes(x) + rest) == Got(x, rest)
  {
    hide Leb, Encode, ReadWords, ReadCount;
    var data := SegmentBytes(x) + rest;
    var tail := x.data + rest;
    var t3 := Leb(|x.data|) + tail;
    var t2 := Leb(x.rawLen) + t3;
    var t1 := Leb(x.count) + t2;
    HeaderParts([x.kind], Encode([x.from, x.to]), Leb(x.count), Leb(x.rawLen), Leb(|x.data|), x.data, rest);
    assert data[1..] == Encode([x.from, x.to]) + t1;
    WordsRoundTrip([x.from, x.to], t1);
    CountRoundTrip(x.count, t2);
    CountRoundTrip(x.rawLen, t3);
    CountRoundTrip(|x.data|, tail);
    assert tail[..|x.data|] == x.data && tail[|x.data|..] == rest;
  }

  lemma HeaderParts(k: bytes, a: bytes, b: bytes, c: bytes, d: bytes, e: bytes, rest: bytes)
    requires |k| == 1
    ensures (k + a + b + c + d + e + rest)[0] == k[0]
    ensures (k + a + b + c + d + e + rest)[1..] == a + (b + (c + (d + (e + rest))))
  {
  }

  /** Bytes behind a segment do not matter to it. */
  lemma ReadExtend(data: bytes, more: bytes)
    requires data != [] && ReadSegment(data).Got?
    ensures ReadSegment(data + more) == Got(ReadSegment(data).value, ReadSegment(data).rest + more)
  {
    hide ReadWords, ReadCount;
    assert (data + more)[1..] == data[1..] + more;
    ReadWordsExtend(data[1..], 2, more);
    var a := ReadWords(data[1..], 2).rest;
    CountExtend(a, more);
    var b := ReadCount(a).rest;
    CountExtend(b, more);
    var c := ReadCount(b).rest;
    CountExtend(c, more);
    var d, size := ReadCount(c).rest, ReadCount(c).value;
    assert (d + more)[..size] == d[..size] && (d + more)[size..] == d[size..] + more;
  }

  /** Scanning bytes put behind a sound series continues where it ended. */
  lemma {:induction false} ScanExtend(data: bytes, more: bytes)
    requires Scan(data).error.None?
    ensures Scan(data + more) == Scanned(Scan(data).segments + Scan(more).segments, Scan(more).error)
    decreases |data|
  {
    hide ReadSegment;
    if data == [] {
      assert data + more == more;
    } else {
      var x, rest := ReadSegment(data).value, ReadSegment(data).rest;
      ReadExtend(data, more);
      ScanExtend(rest, more);
      assert [x] + (Scan(rest).segments + Scan(more).segments) == ([x] + Scan(rest).segments) + Scan(more).segments;
    }
  }

  function SegmentsOf(blocks: seq<Block>): (xs: seq<Segment>)
    requires AllGood(blocks)
    ensures |xs| == |blocks| && KindsKnown(xs)
  {
    seq(|blocks|, i requires 0 <= i < |blocks| => assert blocks[i] in blocks; SegmentOf(blocks[i]))
  }

  lemma GoodBounds(b: Block)
    requires Good(b)
    ensures First(b) <= Last(b)
    ensures forall t :: t in EntryTimes(b) ==> First(b) <= t <= Last(b)
    ensures First(b) in EntryTimes(b) && Last(b) in EntryTimes(b)
  {
    hide Encodes, Payload, EntryTimes;
    var ts := EntryTimes(b);
    forall t | t in ts
      ensures First(b) <= t <= Last(b)
    {
      var i :| 0 <= i < |ts| && ts[i] == t;
    }
  }

  /** A written series scans back to its segments. */
  lemma {:induction false} ScanBlob(blocks: seq<Block>)
    requires AllGood(blocks)
    ensures Scan(Blob(blocks)) == Scanned(SegmentsOf(blocks), None)
  {
    hide SegmentBytes, ReadSegment, Payload, Encodes, EntryTimes;
    if blocks == [] {
      assert SegmentsOf(blocks) == [];
    } else {
      var b, rest := blocks[0], blocks[1..];
      assert b in blocks;
      assert AllGood(rest);
      GoodBounds(b);
      ReadWritten(SegmentOf(b), Blob(rest));
      SegmentNotEmpty(SegmentOf(b));
      ScanBlob(rest);
      assert SegmentsOf(blocks) == [SegmentOf(b)] + SegmentsOf(rest);
    }
  }

  lemma SegmentNotEmpty(x: Segment)
    ensures SegmentBytes(x) != []
  {
  }

  // ----- Decoding what was written -----

  /** Only sketch values that are finite are read back. */
  predicate AllReadable(blocks: seq<Block>) {
    forall b :: b in blocks && b.SketchBlock? ==> AllFinite(b.rows)
  }

  lemma OpenWritten(b: Block)
    requires Good(b)
    ensures Open(SegmentOf(b)) == if b.SketchBlock? && !AllFinite(b.rows) then Err(Shape) else Ok(b)
  {
    hide ReadBlock, Payload, EntryTimes, AllFinite;
    BlockRoundTrip(b);
  }

  lemma {:induction false} OpenAllWritten(blocks: seq<Block>)
    requires AllGood(blocks)
    ensures OpenAll(SegmentsOf(blocks)) == if AllReadable(blocks) then Ok(blocks) else Err(Shape)
  {
    hide Open, SegmentOf, Good, AllFinite;
    if blocks != [] {
      var n := |blocks| - 1;
      assert blocks == blocks[..n] + [blocks[n]];
      assert AllGood(blocks[..n]);
      OpenAllWritten(blocks[..n]);
      OpenWritten(blocks[n]);
      assert SegmentsOf(blocks)[..n] == SegmentsOf(blocks[..n]);
      assert AllReadable(blocks) <==> AllReadable(blocks[..n]) && (blocks[n].SketchBlock? ==> AllFinite(blocks[n].rows));
    } else {
      assert SegmentsOf(blocks) == [];
    }
  }

  lemma ScanWritten(blocks: seq<Block>)
    requires AllGood(blocks)
    ensures ScanSeries(Written(blocks)) == Scanned(SegmentsOf(blocks), None)
    ensures SegmentsIn(Written(blocks)) == SegmentsOf(blocks)
  {
    hide Blob, Scan, SegmentsOf;
    assert Written(blocks)[1..] == Blob(blocks);
    ScanBlob(blocks);
  }

  lemma ReadableBits(blocks: seq<Block>)
    ensures AllReadable(blocks) <==>
            forall b, r :: b in blocks && b.SketchBlock? && r in b.rows ==> r.value % 0x8000_0000_0000_0000 < 0x7FF0_0000_0000_0000
  {
    hide AllFinite;
    forall b | b in blocks && b.SketchBlock?
      ensures AllFinite(b.rows) <==> forall r :: r in b.rows ==> r.value % 0x8000_0000_0000_0000 < 0x7FF0_0000_0000_0000
    {
      FiniteRows(b.rows);
    }
  }

  lemma DecodeWritten(blocks: seq<Block>)
    requires AllGood(blocks)
    ensures Decoded(Written(blocks)) == if AllReadable(blocks) then Ok(AbsorbAll(EMPTY, blocks)) else Err(Shape)
    ensures AllReadable(blocks) <==>
            forall b, r :: b in blocks && b.SketchBlock? && r in b.rows ==> r.value % 0x8000_0000_0000_0000 < 0x7FF0_0000_0000_0000
  {
    ReadableBits(blocks);
    hide Written, Scan, SegmentsOf, AbsorbAll, OpenAll, AllReadable;
    ScanWritten(blocks);
    OpenAllWritten(blocks);
  }
}
