/** Writing a delta to a stored series: the merge, and the fast path that only appends. */
module Appending {
  import opened Words
  import opened Varint
  import opened Reader
  import opened FloatModel
  import opened Pendings
  import opened Blocks
  import opened BlockCodec
  import opened Segments
  import opened Marshalling
  import P = SampleState
  import N = CounterState
  import K = SketchState

  // ----- What an append may return -----

  /** Every entry of the delta is later than every segment of the series. */
  ghost predicate Later(s: bytes, d: State) {
    forall x, t :: x in SegmentsIn(s) && t in AllTimes(d) ==> x.to < t
  }

  /** The result of encoding a state, after merging it into an empty one if it is out of order. */
  ghost predicate MarshalsTo(F: Floats, d: State, out: bytes)
    requires Fits(d)
  {
    if Appendable(d) then out == Marshalled(d) else exists m :: MergesTo(F, EMPTY, d, m, out)
  }

  ghost predicate MergesTo(F: Floats, p: State, d: State, m: State, out: bytes) {
    MergedInto(F, p, d, m) && Appendable(m) && Fits(m) && out == Marshalled(m)
  }

  ghost predicate FastPath(s: bytes, d: State) {
    s != [] && Size(d) >= SEGMENT_SIZE && Appendable(d) && Later(s, d)
  }

  /** `series.append`, up to the order a merge gives to entries with the same time. */
  ghost predicate AppendsTo(F: Floats, s: bytes, d: State, r: Result<bytes>)
    requires Fits(d)
  {
    if Size(d) == 0 then r == if ScanSeries(s).error.Some? then Err(ScanSeries(s).error.value) else Ok(s)
    else if s == [] then r.Ok? && MarshalsTo(F, d, r.value)
    else if ScanSeries(s).error.Some? then r == Err(ScanSeries(s).error.value)
    else if FastPath(s, d) then BlocksGood(d); r == Ok(s + Blob(BlocksOf(d)))
    else match Decoded(s)
         case Err(e) => r == Err(e)
         case Ok(p) => r.Ok? && exists m :: MergesTo(F, p, d, m, r.value)
  }

  /** A merge of the two can be encoded. */
  ghost predicate Room(F: Floats, p: State, d: State) {
    && Mergeable(F, p, d)
    && CountsFit(P.MergeBuckets(F, p.samples.buckets, d.samples.buckets))
    && forall b :: b in K.ToBuckets(F, K.MergedMap(F, p.sketches.buckets, d.sketches.buckets)) ==> |b.data| <= MAX_DATA
  }

  /** The state a delta would be merged with, if it has to be, leaves room for it. */
  ghost predicate Roomy(F: Floats, s: bytes, d: State) {
    s != [] || !Appendable(d) ==> Decoded(s).Ok? ==> Room(F, Decoded(s).value, d)
  }

  /** The fast path is taken for at least 1024 entries in order, all later than what is stored, and leaves the
      stored bytes as they are; for fewer or other entries the result is a merge, and of nothing it is what was stored. */
  lemma AppendCases(F: Floats, s: bytes, d: State, r: Result<bytes>)
    requires s != [] && Decoded(s).Ok? && Fits(d) && AppendsTo(F, s, d, r)
    ensures r.Ok?
    ensures Size(d) == 0 ==> r.value == s
    ensures 0 < Size(d) < 1024 || (Size(d) > 0 && !Appendable(d)) ==> exists m :: MergesTo(F, Decoded(s).value, d, m, r.value)
    ensures Size(d) > 0 && (exists x, t :: x in SegmentsIn(s) && t in AllTimes(d) && t <= x.to) ==>
              exists m :: MergesTo(F, Decoded(s).value, d, m, r.value)
    ensures Size(d) >= 1024 && Appendable(d) && (forall x, t :: x in SegmentsIn(s) && t in AllTimes(d) ==> x.to < t) ==> s <= r.value
  {
    hide Appendable, Fits, MergesTo, Blob, BlocksOf, AllTimes, SegmentsIn, AllGood;
  }

  lemma MergeFits(F: Floats, p: State, d: State, m: State)
    requires MergedInto(F, p, d, m) && Room(F, p, d)
    ensures Fits(m)
  {
  }

  // ----- Scanning, one segment at a time -----

  method NextSegment(r: CodecReader) returns (x: Result<Segment>)
    requires r.err.None? && r.data != []
    modifies r
    ensures match ReadSegment(old(r.data))
            case Bad(e) => x == Err(e)
            case Got(y, rest) => x == Ok(y) && r.err.None? && r.data == rest
  {
    hide ReadUvarint;
    ghost var data := r.data;
    var kind := r.Byte();
    var from, to, count, rawLen := ReadHeader(r);
    if r.err.None? {
      ReadOne(r.data);
    }
    var size := r.Count();
    var bytes := r.Bytes(size);
    if r.err.Some? {
      return Err(r.err.value);
    }
    if count <= 0 || count > SEGMENT_SIZE || from > to {
      return Err(Large);
    }
    if kind == 0 || kind > 6 {
      return Err(BadVarint);
    }
    x := Ok(Segment(kind, from, to, count, rawLen, bytes));
  }

  method ReadHeader(r: CodecReader) returns (from: u64, to: u64, count: nat, rawLen: nat)
    requires r.err.None?
    modifies r
    ensures match ReadWords(old(r.data), 2)
            case Bad(e) => r.At() == Bad(e)
            case Got(bounds, more) =>
              match ReadCount(more)
              case Bad(e) => r.At() == Bad(e)
              case Got(n, more) =>
                match ReadCount(more)
                case Bad(e) => r.At() == Bad(e)
                case Got(m, more) => r.At() == Got((), more) && bounds == [from, to] && n == count && m == rawLen
  {
    hide ReadUvarint, ReadWords;
    TakeSplit(r.At(), 1, 1);
    from := r.Uvarint();
    to := r.Uvarint();
    if r.err.None? {
      ReadOne(r.data);
    }
    count := r.Count();
    if r.err.None? {
      ReadOne(r.data);
    }
    rawLen := r.Count();
  }

  /** `all` is the scan once `seen` has been yielded and `rest` is to be read. */
  ghost predicate ScanAt(all: Scanned, seen: seq<Segment>, rest: bytes) {
    all == Scanned(seen + Scan(rest).segments, Scan(rest).error)
  }

  lemma ScanStart(data: bytes)
    ensures ScanAt(Scan(data), [], data)
  {
    assert [] + Scan(data).segments == Scan(data).segments;
  }

  lemma ScanStep(all: Scanned, seen: seq<Segment>, data: bytes)
    requires ScanAt(all, seen, data) && data != []
    ensures match ReadSegment(data)
            case Bad(e) => all == Scanned(seen, Some(e))
            case Got(x, rest) => ScanAt(all, seen + [x], rest)
  {
    hide ReadSegment;
    match ReadSegment(data)
    case Bad(e) => assert seen + [] == seen;
    case Got(x, rest) => assert seen + ([x] + Scan(rest).segments) == (seen + [x]) + Scan(rest).segments;
  }

  lemma ScanEnd(all: Scanned, seen: seq<Segment>)
    requires ScanAt(all, seen, [])
    ensures all == Scanned(seen, None)
  {
    assert seen + [] == seen;
  }

  /** `series.valid`. */
  method Validate(s: bytes) returns (e: Option<Error>)
    ensures e == ScanSeries(s).error
  {
    if |s| == 0 {
      return None;
    }
    if s[0] != VERSION {
      return Some(Version);
    }
    hide Scan, ReadSegment;
    var r := new CodecReader(s[1..]);
    ghost var seen := [];
    ScanStart(s[1..]);
    while |r.data| > 0
      invariant r.err.None? && ScanAt(Scan(s[1..]), seen, r.data)
      decreases |r.data|
    {
      ScanStep(Scan(s[1..]), seen, r.data);
      var x := NextSegment(r);
      if x.Err? {
        return Some(x.error);
      }
      seen := seen + [x.value];
    }
    ScanEnd(Scan(s[1..]), seen);
    e := None;
  }

  ghost predicate IsLargest(most: Option<u64>, xs: seq<Segment>) {
    match most
    case None => xs == []
    case Some(t) => (exists x :: x in xs && x.to == t) && forall x :: x in xs ==> x.to <= t
  }

  /** `maxTime`: an error only ends the scan. */
  method MaxTime(s: bytes) returns (most: Option<u64>)
    ensures IsLargest(most, SegmentsIn(s))
  {
    most := None;
    if |s| == 0 || s[0] != VERSION {
      return;
    }
    hide Scan, ReadSegment;
    var r := new CodecReader(s[1..]);
    ghost var seen := [];
    ScanStart(s[1..]);
    while |r.data| > 0
      invariant r.err.None? && ScanAt(Scan(s[1..]), seen, r.data)
      invariant IsLargest(most, seen)
      decreases |r.data|
    {
      ScanStep(Scan(s[1..]), seen, r.data);
      var x := NextSegment(r);
      if x.Err? {
        return;
      }
      LargestSnoc(most, seen, x.value);
      if most.None? || x.value.to > most.value {
        most := Some(x.value.to);
      }
      seen := seen + [x.value];
    }
    ScanEnd(Scan(s[1..]), seen);
  }

  lemma LargestSnoc(most: Option<u64>, seen: seq<Segment>, x: Segment)
    requires IsLargest(most, seen)
    ensures IsLargest(if most.None? || x.to > most.value then Some(x.to) else most, seen + [x])
  {
    assert x in seen + [x];
    if most.Some? {
      var y :| y in seen && y.to == most.value;
      assert y in seen + [x];
    }
  }

  method CanAppend(s: bytes, d: State) returns (yes: bool)
    ensures yes <==> Later(s, d)
  {
    hide AllTimes, SegmentsIn;
    var next := MinTime(d);
    if next.None? {
      return true;
    }
    var last := MaxTime(s);
    yes := last.None? || next.value > last.value;
    if !yes {
      var x :| x in SegmentsIn(s) && x.to == last.value;
      assert !(x.to < next.value);
    }
  }

  /** `decodeInto`: with compression taken as the identity. */
  method OpenSegment(x: Segment) returns (b: Result<Block>)
    requires 1 <= x.kind <= 6
    ensures b == Open(x)
  {
    if |x.data| != x.rawLen {
      return Err(Short);
    }
    b := DecodeBlock(x.kind, x.data, x.count);
  }

  lemma OpenAllSnoc(xs: seq<Segment>, x: Segment)
    requires KindsKnown(xs) && 1 <= x.kind <= 6
    ensures OpenAll(xs + [x]) == match OpenAll(xs)
                                 case Err(e) => Err(e)
                                 case Ok(blocks) =>
                                   match Open(x)
                                   case Err(e) => Err(e)
                                   case Ok(b) => Ok(blocks + [b])
  {
    hide Open;
    assert (xs + [x])[..|xs|] == xs;
  }

  lemma {:induction false} OpenFails(xs: seq<Segment>, n: nat)
    requires KindsKnown(xs) && n <= |xs| && OpenAll(xs[..n]).Err?
    ensures OpenAll(xs) == Err(OpenAll(xs[..n]).error)
  {
    hide Open;
    if n == |xs| {
      assert xs[..n] == xs;
    } else {
      assert xs[..|xs| - 1][..n] == xs[..n];
      OpenFails(xs[..|xs| - 1], n);
    }
  }

  method Decode(s: bytes) returns (r: Result<State>)
    ensures r == Decoded(s)
  {
    hide Scan, ReadSegment, OpenAll, Open, Absorb, AbsorbAll;
    if |s| == 0 || s[0] != VERSION {
      NothingToOpen();
      return if |s| == 0 then Ok(EMPTY) else Err(Version);
    }
    ScanKinds(s[1..]);
    var reader := new CodecReader(s[1..]);
    ghost var seen, blocks := [], [];
    var out := EMPTY;
    ScanStart(s[1..]);
    NothingToOpen();
    while |reader.data| > 0
      invariant reader.err.None? && ScanAt(Scan(s[1..]), seen, reader.data)
      invariant KindsKnown(seen) && OpenAll(seen) == Ok(blocks) && out == AbsorbAll(EMPTY, blocks)
      decreases |reader.data|
    {
      ScanStep(Scan(s[1..]), seen, reader.data);
      var x := NextSegment(reader);
      if x.Err? {
        return Err(x.error);
      }
      assert x.value in Scan(s[1..]).segments;
      OpenAllSnoc(seen, x.value);
      seen := seen + [x.value];
      var b := OpenSegment(x.value);
      if b.Err? {
        assert Scan(s[1..]).segments[..|seen|] == seen;
        OpenFails(Scan(s[1..]).segments, |seen|);
        return Err(b.error);
      }
      AbsorbSnoc(blocks, b.value);
      out := Absorb(out, b.value);
      blocks := blocks + [b.value];
    }
    ScanEnd(Scan(s[1..]), seen);
    r := Ok(out);
  }

  lemma NothingToOpen()
    ensures OpenAll([]) == Ok([])
    ensures AbsorbAll(EMPTY, []) == EMPTY
  {
  }

  lemma AbsorbSnoc(blocks: seq<Block>, b: Block)
    ensures AbsorbAll(EMPTY, blocks + [b]) == Absorb(AbsorbAll(EMPTY, blocks), b)
  {
    assert (blocks + [b])[..|blocks|] == blocks;
  }

  // ----- Writing segments -----

  method AppendSegment(dst: bytes, kind: byte, from: u64, to: u64, count: nat, raw: bytes) returns (out: bytes)
    requires count < W && |raw| < W
    ensures out == dst + SegmentBytes(Segment(kind, from, to, count, |raw|, raw))
  {
    hide Leb;
    EncodeTwo(from, to);
    out := dst + [kind];
    out := AppendUvarint(out, from);
    out := AppendUvarint(out, to);
    out := AppendUvarint(out, count);
    out := AppendUvarint(out, |raw|);
    out := AppendUvarint(out, |raw|);
    out := out + raw;
    Regroup7(dst, [kind], Leb(from), Leb(to), Leb(count), Leb(|raw|), raw);
  }

  lemma EncodeTwo(a: u64, b: u64)
    ensures Encode([a, b]) == Leb(a) + Leb(b)
  {
    hide Leb;
    assert [a, b][1..] == [b];
    EncodeOne(b);
  }

  lemma Regroup7(dst: bytes, k: bytes, a: bytes, b: bytes, c: bytes, d: bytes, raw: bytes)
    ensures dst + k + a + b + c + d + d + raw == dst + (k + (a + b) + c + d + d + raw)
  {
  }

  ghost predicate Timed<T(!new)>(wrap: seq<T> -> Block, time: T -> u64) {
    forall s :: EntryTimes(wrap(s)) == TimesOf(s, time)
  }

  lemma TimedAt<T(!new)>(wrap: seq<T> -> Block, time: T -> u64, s: seq<T>)
    requires Timed(wrap, time)
    ensures EntryTimes(wrap(s)) == TimesOf(s, time)
  {
  }

  /** The loops of block.go: one segment for each run of at most 1024 entries. */
  method AppendRun<T(!new)>(dst: bytes, items: seq<T>, wrap: seq<T> -> Block, time: T -> u64) returns (out: bytes)
    requires Writable(items, wrap)
    requires Timed(wrap, time)
    ensures AllGood(Cut(items, wrap)) && out == dst + Blob(Cut(items, wrap))
  {
    hide Good, SegmentBytes, TimesOf, Cut, Writable, Blob, AllGood, Timed, SegmentOf;
    CutGood(items, wrap);
    var left := items;
    out := dst;
    while |left| > 0
      invariant Writable(left, wrap) && AllGood(Cut(left, wrap))
      invariant out + Blob(Cut(left, wrap)) == dst + Blob(Cut(items, wrap))
      decreases |left|
    {
      var n := if |left| < SEGMENT_SIZE then |left| else SEGMENT_SIZE;
      var b := wrap(left[..n]);
      TimedAt(wrap, time, left[..n]);
      PieceStep(left, n, wrap, time, b);
      ghost var before := out;
      out := AppendBlock(out, b, time(left[0]), time(left[n - 1]), n);
      assert before + (SegmentBytes(SegmentOf(b)) + Blob(Cut(left[n..], wrap))) == out + Blob(Cut(left[n..], wrap));
      left := left[n..];
    }
    NothingCut(left, wrap);
    assert out + [] == out;
  }

  lemma NothingCut<T>(left: seq<T>, wrap: seq<T> -> Block)
    requires left == []
    ensures AllGood(Cut(left, wrap)) && Blob(Cut(left, wrap)) == []
  {
  }

  lemma PieceStep<T(!new)>(left: seq<T>, n: nat, wrap: seq<T> -> Block, time: T -> u64, b: Block)
    requires 0 < |left| && n == (if |left| < SEGMENT_SIZE then |left| else SEGMENT_SIZE) && b == wrap(left[..n])
    requires Writable(left, wrap) && AllGood(Cut(left, wrap)) && EntryTimes(b) == TimesOf(left[..n], time)
    ensures Good(b) && Encodes(b) && First(b) == time(left[0]) && Last(b) == time(left[n - 1]) && Entries(b) == n
    ensures Writable(left[n..], wrap) && AllGood(Cut(left[n..], wrap))
    ensures Blob(Cut(left, wrap)) == SegmentBytes(SegmentOf(b)) + Blob(Cut(left[n..], wrap))
  {
    hide Good, SegmentBytes, EntryTimes, TimesOf, Cut, Writable, Blob, AllGood, SegmentOf;
    CutStep(left, n, wrap, b);
    WritableRest(left, n, wrap);
    CutGood(left[n..], wrap);
    PieceTimes(left, n, wrap, time, b);
    BlobStep(b, Cut(left[n..], wrap));
  }

  method AppendBlock(dst: bytes, b: Block, from: u64, to: u64, n: nat) returns (out: bytes)
    requires Good(b) && from == First(b) && to == Last(b) && n == Entries(b)
    ensures out == dst + SegmentBytes(SegmentOf(b))
  {
    hide SegmentBytes, Payload;
    var raw := EncodeBlock(b);
    out := AppendSegment(dst, Kind(b), from, to, n, raw);
  }

  lemma CutStep<T>(left: seq<T>, n: nat, wrap: seq<T> -> Block, b: Block)
    requires 0 < |left| && n == (if |left| < SEGMENT_SIZE then |left| else SEGMENT_SIZE) && b == wrap(left[..n])
    ensures Cut(left, wrap) == [b] + Cut(left[n..], wrap)
  {
    if n == |left| {
      assert left[..n] == left && left[n..] == [];
    }
  }

  lemma BlobStep(b: Block, rest: seq<Block>)
    requires Good(b) && AllGood(rest)
    ensures AllGood([b] + rest)
    ensures Blob([b] + rest) == SegmentBytes(SegmentOf(b)) + Blob(rest)
  {
    hide SegmentBytes, Payload, EntryTimes, Encodes;
    assert ([b] + rest)[1..] == rest;
  }

  lemma WritableRest<T>(s: seq<T>, n: nat, wrap: seq<T> -> Block)
    requires Writable(s, wrap) && n <= |s|
    ensures Writable(s[n..], wrap)
  {
    hide Good;
    forall i, j | 0 <= i < j <= |s| - n && j - i <= SEGMENT_SIZE
      ensures Good(wrap(s[n..][i..j]))
    {
      assert s[n..][i..j] == s[n + i..n + j];
    }
  }

  lemma PieceTimes<T>(left: seq<T>, n: nat, wrap: seq<T> -> Block, time: T -> u64, b: Block)
    requires 0 < n <= |left| && n <= SEGMENT_SIZE && Writable(left, wrap) && b == wrap(left[..n])
    requires EntryTimes(b) == TimesOf(left[..n], time)
    ensures Good(b) && Encodes(b) && First(b) == time(left[0]) && Last(b) == time(left[n - 1]) && Entries(b) == n
  {
    assert Good(b) ==> Encodes(b);
    hide Good, EntryTimes;
    assert left[0..n] == left[..n];
  }

  lemma {:induction false} BlobConcat(a: seq<Block>, b: seq<Block>)
    requires AllGood(a) && AllGood(b)
    ensures AllGood(a + b) && Blob(a + b) == Blob(a) + Blob(b)
  {
    hide Good;
    if a == [] {
      assert a + b == b;
      assert Blob(a) + Blob(b) == Blob(b);
    } else {
      hide Blob;
      var rest := a[1..];
      assert a == [a[0]] + rest && a + b == [a[0]] + (rest + b);
      BlobConcat(rest, b);
      BlobHead(a[0], rest, b);
    }
  }

  lemma BlobHead(x: Block, a: seq<Block>, b: seq<Block>)
    requires Good(x) && AllGood(a) && AllGood(b) && AllGood(a + b) && Blob(a + b) == Blob(a) + Blob(b)
    ensures AllGood([x] + a) && AllGood([x] + (a + b))
    ensures Blob([x] + (a + b)) == Blob([x] + a) + Blob(b)
  {
    hide Blob, Payload, EntryTimes, Encodes, SegmentBytes;
    BlobStep(x, a);
    BlobStep(x, a + b);
  }

  /** `appendTo`. */
  method AppendTo(dst: bytes, d: State) returns (out: bytes)
    requires Appendable(d) && Fits(d)
    ensures AllGood(BlocksOf(d))
    ensures out == (if dst == [] then [VERSION] else dst) + Blob(BlocksOf(d))
  {
    hide Good, Cut, Blob, Writable;
    P.InTimeOrder(d.samples.rows);
    RowsWritable(d.samples.rows);
    RowsWritable(d.counters.rows);
    RowsWritable(d.sketches.rows);
    SampleBucketsWritable(d.samples.buckets);
    CounterBucketsWritable(d.counters.buckets);
    SketchBucketsWritable(d.sketches.buckets);
    out := if |dst| == 0 then [VERSION] else dst;
    ghost var base, blocks := out, Cut(d.samples.buckets, WrapSampleBuckets);
    out := AppendRun(out, d.samples.buckets, WrapSampleBuckets, P.BucketTime);
    out := AppendMore(out, d.samples.rows, WrapSamples, P.RowTime, base, blocks);
    blocks := blocks + Cut(d.samples.rows, WrapSamples);
    out := AppendMore(out, d.counters.buckets, WrapCounterBuckets, N.BucketTime, base, blocks);
    blocks := blocks + Cut(d.counters.buckets, WrapCounterBuckets);
    out := AppendMore(out, d.counters.rows, WrapCounters, P.RowTime, base, blocks);
    blocks := blocks + Cut(d.counters.rows, WrapCounters);
    out := AppendMore(out, d.sketches.buckets, WrapSketchBuckets, K.BucketTime, base, blocks);
    blocks := blocks + Cut(d.sketches.buckets, WrapSketchBuckets);
    out := AppendMore(out, d.sketches.rows, WrapSketches, P.RowTime, base, blocks);
  }

  method AppendMore<T(!new)>(dst: bytes, items: seq<T>, wrap: seq<T> -> Block, time: T -> u64, ghost base: bytes, ghost blocks: seq<Block>)
    returns (out: bytes)
    requires AllGood(blocks) && dst == base + Blob(blocks)
    requires Writable(items, wrap)
    requires Timed(wrap, time)
    ensures AllGood(blocks + Cut(items, wrap)) && out == base + Blob(blocks + Cut(items, wrap))
  {
    hide Good, Cut, Blob, Writable;
    out := AppendRun(dst, items, wrap, time);
    BlobConcat(blocks, Cut(items, wrap));
  }

  // ----- Append and marshal call each other -----

  method Append(F: Floats, s: bytes, delta: Pending?) returns (r: Result<bytes>)
    requires delta != null ==> delta.Valid() && Fits(delta.View()) && Roomy(F, s, delta.View())
    ensures AppendsTo(F, s, if delta == null then EMPTY else delta.View(), r)
    decreases |s|, if delta != null && !Appendable(delta.View()) then 1 else 0, 1
  {
    hide Decoded, ScanSeries, BlocksOf, Blob, Appendable, Room;
    var d := EMPTY;
    if delta != null {
      d := delta.Clone();
    }
    if Size(d) == 0 {
      var e := Validate(s);
      return if e.Some? then Err(e.value) else Ok(s);
    }
    var appendable := IsAppendable(d);
    if |s| == 0 {
      if !appendable {
        DecodedEmpty();
        r := MergeAndMarshal(F, [], EMPTY, d);
        return;
      }
      BlocksGood(d);
      var out := AppendTo([], d);
      return Ok(out);
    }
    var e := Validate(s);
    if e.Some? {
      return Err(e.value);
    }
    if Size(d) >= SEGMENT_SIZE && appendable {
      var later := CanAppend(s, d);
      if later {
        BlocksGood(d);
        var out := AppendTo(s, d);
        return Ok(out);
      }
    }
    var p := Decode(s);
    if p.Err? {
      return Err(p.error);
    }
    r := MergeAndMarshal(F, s, p.value, d);
  }

  lemma DecodedEmpty()
    ensures Decoded([]) == Ok(EMPTY)
  {
    NothingToOpen();
  }

  /** Merges a delta into a copy of the current state and encodes that. */
  method MergeAndMarshal(F: Floats, ghost s: bytes, p: State, d: State) returns (r: Result<bytes>)
    requires Room(F, p, d)
    requires s != [] || !Appendable(d)
    ensures r.Ok? && exists m :: MergesTo(F, p, d, m, r.value)
    decreases |s|, if Appendable(d) then 0 else 1, 0
  {
    hide Appendable, Marshalled;
    var current := new Pending.Of(p);
    current.Merge(F, d);
    MergeAppendable(F, p, d, current.View());
    MergeFits(F, p, d, current.View());
    ghost var m := current.View();
    r := Marshal(F, current);
    assert MergesTo(F, p, d, m, r.value);
  }

  method Marshal(F: Floats, p: Pending) returns (r: Result<bytes>)
    requires p.Valid() && Fits(p.View())
    requires Appendable(p.View()) || Room(F, EMPTY, p.View())
    ensures r.Ok? && MarshalsTo(F, p.View(), r.value)
    decreases 0, if Appendable(p.View()) then 0 else 1, 2
  {
    if Size(p.View()) == 0 {
      NothingHeld(p.View());
    }
    DecodedEmpty();
    hide Appendable, Room, Decoded;
    r := Append(F, [], p);
  }
}
