/** The bytes of small examples: which words each kind of payload holds, in which order, and how they are written. */
module WireFormat {
  import opened Words
  import opened Sorted
  import opened Varint
  import opened Reader
  import opened Rows
  import opened Pendings
  import opened Blocks
  import opened Segments
  import opened Marshalling
  import P = SampleState
  import N = CounterState
  import K = SketchState
  import S = Sketches
  import H = Histograms
  import C = SketchCodec
  import Q = SketchQueries

  /** The patterns of 2, -2, 2^513 and two more, whose reversals are small. */
  const TWO: u64 := 0x4000_0000_0000_0000
  const MINUS_TWO: u64 := 0xC000_0000_0000_0000
  const BIG: u64 := 0x6000_0000_0000_0000
  const MINUS_ZERO: u64 := 0x8000_0000_0000_0000
  const SMALL: u64 := 0x2000_0000_0000_0000

  lemma HighPowers()
    ensures Pow2(63) == 0x8000_0000_0000_0000 && Pow2(62) == 0x4000_0000_0000_0000 && Pow2(61) == 0x2000_0000_0000_0000
  {
    Pow2Of64();
    assert Pow2(64) == 2 * Pow2(63) && Pow2(63) == 2 * Pow2(62) && Pow2(62) == 2 * Pow2(61);
  }

  lemma ReversedSmall()
    ensures Reverse64(2) == TWO && Reverse64(3) == MINUS_TWO && Reverse64(6) == BIG && Reverse64(1) == MINUS_ZERO && Reverse64(4) == SMALL
    ensures Reverse64(0) == 0
  {
    HighPowers();
    ReverseZero(61);
    ReverseZero(62);
    ReverseZero(63);
    ReverseZero(64);
    assert Reverse(62, 1) == Pow2(61) + Reverse(61, 0);
    assert Reverse(63, 1) == Pow2(62) + Reverse(62, 0);
    assert Reverse(64, 1) == Pow2(63) + Reverse(63, 0);
    assert Reverse(64, 2) == Reverse(63, 1);
    assert Reverse(64, 3) == Pow2(63) + Reverse(63, 1);
    assert Reverse(63, 2) == Reverse(62, 1);
    assert Reverse(64, 4) == Reverse(63, 2);
    assert Reverse(63, 3) == Pow2(62) + Reverse(62, 1);
    assert Reverse(64, 6) == Reverse(63, 3);
  }

  /** Reversals of the patterns, as they are written. */
  lemma Patterns()
    ensures Reverse64(TWO) == 2 && Reverse64(MINUS_TWO) == 3 && Reverse64(BIG) == 6 && Reverse64(MINUS_ZERO) == 1 && Reverse64(SMALL) == 4
    ensures Reverse64(0) == 0
  {
    hide Reverse64;
    ReversedSmall();
    Reverse64Twice(2);
    Reverse64Twice(3);
    Reverse64Twice(6);
    Reverse64Twice(1);
    Reverse64Twice(4);
  }

  lemma XorSmall()
    ensures Xor64(3, 2) == 1 && Xor64(2, 0) == 2 && Xor64(3, 0) == 3 && Xor64(6, 0) == 6 && Xor64(1, 0) == 1 && Xor64(4, 0) == 4
    ensures Xor64(0, 0) == 0
  {
    assert Xor(0, 0) == 0 && Xor(1, 0) == 1 && Xor(1, 1) == 0 && Xor(3, 2) == 1;
  }

  // ----- Payloads -----

  const POINTS := [Row(5, TWO, 3, 7), Row(9, MINUS_TWO, 4, 7)]
  const ADDS := [Row(5, 10, 3, 7), Row(9, 310, 4, 7)]
  const BUCKETS := [P.SampleBucket(60, 2, TWO, MINUS_TWO, BIG, MINUS_ZERO, SMALL), P.SampleBucket(120, 5, TWO, MINUS_TWO, BIG, MINUS_ZERO, SMALL)]
  const SUMS := [N.CounterBucket(60, 10), N.CounterBucket(120, 30)]
  const SKETCHES := [K.SketchBucket(60, [9, 8]), K.SketchBucket(120, [7])]

  /** Times, values, clocks and replicas: steps, but values chained with their bits reversed. */
  lemma PointBytes()
    ensures Encode(SampleWords(POINTS)) == [5, 4, 2, 1, 3, 1, 7, 0]
  {
    hide Reverse64, Xor64, Encode;
    Patterns();
    XorSmall();
    assert Deltas(Times(POINTS)) == [5, 4] && Deltas(Clocks(POINTS)) == [3, 1] && Deltas(Replicas(POINTS)) == [7, 0];
    assert Xors(Values(POINTS)) == [2, 1];
    assert SampleWords(POINTS) == [5, 4, 2, 1, 3, 1, 7, 0];
    SmallWords([5, 4, 2, 1, 3, 1, 7, 0]);
  }

  /** Times, values, replicas and clocks, all as steps. */
  lemma AddBytes()
    ensures Encode(CounterWords(ADDS)) == [5, 4, 10, 0xAC, 2, 7, 0, 3, 1]
  {
    hide Encode;
    assert Deltas(Times(ADDS)) == [5, 4] && Deltas(Values(ADDS)) == [10, 300];
    assert Deltas(Clocks(ADDS)) == [3, 1] && Deltas(Replicas(ADDS)) == [7, 0];
    assert CounterWords(ADDS) == [5, 4, 10] + [300] + [7, 0, 3, 1];
    EncodeConcat([5, 4, 10] + [300], [7, 0, 3, 1]);
    EncodeConcat([5, 4, 10], [300]);
    SmallWords([5, 4, 10]);
    SmallWords([7, 0, 3, 1]);
    EncodeOne(300);
    assert Leb(300) == [0xAC, 2];
  }

  /** Time and count as steps, then sum, least, greatest, first and last, chained. */
  lemma BucketBytes()
    ensures CountsFit(BUCKETS) && Encode(BucketWords(BUCKETS)) == [60, 2, 2, 3, 6, 1, 4, 60, 3, 0, 0, 0, 0, 0]
  {
    hide Reverse64, Xor64, Encode;
    Patterns();
    XorSmall();
    SameXor(2);
    SameXor(3);
    SameXor(6);
    SameXor(1);
    SameXor(4);
    assert BUCKETS[..1] == [BUCKETS[0]] && BUCKETS[..1][..0] == [];
    assert BucketStep(NO_BUCKET, BUCKETS[0]) == [60, 2, 2, 3, 6, 1, 4];
    assert BucketStep(BUCKETS[0], BUCKETS[1]) == [60, 3, 0, 0, 0, 0, 0];
    assert BucketWords(BUCKETS[..1]) == [60, 2, 2, 3, 6, 1, 4];
    assert BucketWords(BUCKETS) == [60, 2, 2, 3, 6, 1, 4] + [60, 3, 0, 0, 0, 0, 0];
    assert BucketWords(BUCKETS) == [60, 2, 2, 3, 6, 1, 4, 60, 3, 0, 0, 0, 0, 0];
    SmallWords([60, 2, 2, 3, 6, 1, 4, 60, 3, 0, 0, 0, 0, 0]);
  }

  lemma SameXor(a: u64)
    ensures Xor64(a, a) == 0
  {
    XorSame(a);
  }

  lemma {:induction false} XorSame(a: nat)
    ensures Xor(a, a) == 0
  {
    if a > 0 {
      XorSame(a / 2);
    }
  }

  lemma SumBytes()
    ensures Encode(SumWords(SUMS)) == [60, 10, 60, 20]
  {
    hide Encode;
    assert SUMS[..1] == [SUMS[0]] && SUMS[..1][..0] == [];
    assert SumWords(SUMS[..1]) == [60, 10];
    assert SumWords(SUMS) == [60, 10, 60, 20];
    SmallWords([60, 10, 60, 20]);
  }

  /** Time as a step, length, and the bytes of the sketch. */
  lemma SketchItemBytes()
    ensures (forall b :: b in SKETCHES ==> |b.data| <= MAX_INT) && ItemBytes(SKETCHES, 0) == [60, 2, 9, 8, 60, 1, 7]
  {
    assert SKETCHES[1..] == [SKETCHES[1]] && SKETCHES[1..][1..] == [];
    assert Leb(60) == [60] && Leb(2) == [2] && Leb(1) == [1];
    assert ItemBytes(SKETCHES[1..][1..], 120) == [];
    assert ItemBytes(SKETCHES[1..], 60) == [60] + [1] + [7] + [] == [60, 1, 7];
    assert ItemBytes(SKETCHES, 0) == [60] + [2] + [9, 8] + [60, 1, 7];
  }

  // ----- Sketches -----

  const FEW := S.Summary(2, TWO, MINUS_TWO, BIG, Some([TWO, MINUS_TWO]), H.EMPTY)
  const BINNED := S.Summary(5, TWO, MINUS_TWO, BIG, None, H.Hist(1, map[0 := 2, 3 := 1], map[-1 := 1]))

  /** The kind, the count, sum, least and greatest with their bits reversed, and the values, chained. */
  lemma ExactSketchBytes()
    ensures C.ExactBytes(FEW) == [1, 2, 2, 3, 6, 2, 1]
  {
    hide Reverse64, Xor64, Encode;
    Patterns();
    XorSmall();
    assert Xors([TWO, MINUS_TWO]) == [2, 1];
    SmallWords([2, 2, 3, 6]);
    SmallWords([2, 1]);
  }

  /** Then zero and, negative bins first, the number of bins, the first key, and key steps with counts. */
  lemma BinnedSketchBytes()
    ensures C.Storable(BINNED) && C.ApproxBytes(BINNED) == [2, 5, 2, 3, 6, 1, 2, 0, 2, 3, 1, 1, 1, 1]
  {
    NegativeWords();
    PositiveWords();
    hide Reverse64, Xor64, Encode, C.BinWords, C.Fits;
    Patterns();
    assert C.HeaderWords(BINNED) == [5, 2, 3, 6];
    SmallWords([5, 2, 3, 6]);
    SmallWords([1]);
    SmallWords([2, 0, 2, 3, 1]);
    SmallWords([1, 1, 1]);
    assert C.ApproxBytes(BINNED) == [2] + [5, 2, 3, 6] + ([1] + [2, 0, 2, 3, 1] + [1, 1, 1]);
  }

  lemma NegativeWords()
    ensures C.Fits(map[0 := 2, 3 := 1]) && C.BinWords(map[0 := 2, 3 := 1]) == [2, 0, 2, 3, 1]
  {
    var m: map<int, nat> := map[0 := 2, 3 := 1];
    assert m.Keys == {0, 3};
    AscendingUnique({0, 3}, [0, 3]);
    ZigzagOrder(0);
    hide Zigzag, Ascending;
    assert C.KeyWord([0, 3], 0) == 0 && C.KeyWord([0, 3], 1) == 3;
    assert C.PairWords([0, 3], m, 2) == [];
    assert C.PairWords([0, 3], m, 1) == [3, 1];
    assert C.PairWords([0, 3], m, 0) == [0, 2, 3, 1];
  }

  lemma PositiveWords()
    ensures C.Fits(map[-1 := 1]) && C.BinWords(map[-1 := 1]) == [1, 1, 1]
  {
    var m: map<int, nat> := map[-1 := 1];
    assert m.Keys == {-1};
    AscendingUnique({-1}, [-1]);
    ZigzagOrder(-1);
    hide Zigzag, Ascending;
    assert C.KeyWord([-1], 0) == 1;
    assert C.PairWords([-1], m, 1) == [];
    assert C.PairWords([-1], m, 0) == [1, 1];
  }

  /** Exact values that are served as stored keep their chain. */
  lemma ServedBytes()
    ensures Q.StoredSketch(C.ExactBytes(FEW)) == Some(Q.Sketch([2, 1], 2, TWO, MINUS_TWO, BIG, 3))
  {
    hide Reverse64, Xor64, Encode, Q.StoredSketch, C.ExactBytes;
    FewXors();
    SmallWords([2, 1]);
    Q.StoredExact(FEW);
  }

  lemma FewXors()
    ensures Xors([TWO, MINUS_TWO]) == [2, 1]
  {
    hide Reverse64, Xor64;
    Patterns();
    XorSmall();
  }

  /** Values that are encoded for reading take eight bytes each, the low byte first. */
  lemma LittleFirst()
    ensures Q.Little(0x0807_0605_0403_0201, 8) == [1, 2, 3, 4, 5, 6, 7, 8]
  {
    assert Q.Little(0x08, 1) == [8] + Q.Little(0, 0) == [8];
    assert Q.Little(0x0807, 2) == [7] + Q.Little(0x08, 1);
    assert Q.Little(0x08_0706, 3) == [6] + Q.Little(0x0807, 2);
    assert Q.Little(0x0807_0605, 4) == [5] + Q.Little(0x08_0706, 3);
    assert Q.Little(0x08_0706_0504, 5) == [4] + Q.Little(0x0807_0605, 4);
    assert Q.Little(0x0807_0605_0403, 6) == [3] + Q.Little(0x08_0706_0504, 5);
    assert Q.Little(0x08_0706_0504_0302, 7) == [2] + Q.Little(0x0807_0605_0403, 6);
    assert Q.Little(0x0807_0605_0403_0201, 8) == [1] + Q.Little(0x08_0706_0504_0302, 7);
  }

  // ----- Segments and states -----

  /** The kind, the least and greatest time, the number of entries, and twice the length of the payload. */
  lemma SmallSegment(x: Segment)
    requires x.from < 0x80 && x.to < 0x80 && x.count < 0x80 && x.rawLen == |x.data| < 0x80
    ensures SegmentBytes(x) == [x.kind, x.from, x.to, x.count, |x.data|, |x.data|] + x.data
  {
    SmallWords([x.from, x.to]);
    assert Leb(x.count) == [x.count] && Leb(x.rawLen) == [x.rawLen];
    hide Encode, Leb;
  }

  lemma TwoTimes<T>(s: seq<T>, time: T -> u64)
    requires |s| == 2
    ensures TimesOf(s, time) == [time(s[0]), time(s[1])]
  {
  }

  /** A block of two entries. */
  lemma TwoEntries(b: Block, from: u64, to: u64)
    requires Encodes(b) && EntryTimes(b) == [from, to] && from <= to < 0x80 && |Payload(b)| < 0x80
    ensures Good(b) && SegmentBytes(SegmentOf(b)) == [Kind(b), from, to, 2, |Payload(b)|, |Payload(b)|] + Payload(b)
  {
    hide SegmentBytes, EntryTimes, Payload, Encodes;
    SmallSegment(SegmentOf(b));
  }

  lemma PointSegment()
    ensures Good(SampleBlock(POINTS)) && Good(SketchBlock(POINTS))
    ensures SegmentBytes(SegmentOf(SampleBlock(POINTS))) == [1, 5, 9, 2, 8, 8] + [5, 4, 2, 1, 3, 1, 7, 0]
    ensures SegmentBytes(SegmentOf(SketchBlock(POINTS))) == [5, 5, 9, 2, 8, 8] + [5, 4, 2, 1, 3, 1, 7, 0]
  {
    PointBytes();
    hide SegmentBytes, SegmentOf, Good, SampleWords, Encode, TimesOf;
    TwoTimes(POINTS, P.RowTime);
    TwoEntries(SampleBlock(POINTS), 5, 9);
    TwoEntries(SketchBlock(POINTS), 5, 9);
  }

  lemma AddSegment()
    ensures Good(CounterBlock(ADDS))
    ensures SegmentBytes(SegmentOf(CounterBlock(ADDS))) == [2, 5, 9, 2, 9, 9] + [5, 4, 10, 0xAC, 2, 7, 0, 3, 1]
  {
    AddBytes();
    hide SegmentBytes, SegmentOf, Good, CounterWords, Encode, TimesOf;
    TwoTimes(ADDS, P.RowTime);
    TwoEntries(CounterBlock(ADDS), 5, 9);
  }

  lemma BucketSegment()
    ensures Good(SampleBucketBlock(BUCKETS))
    ensures SegmentBytes(SegmentOf(SampleBucketBlock(BUCKETS))) ==
            [3, 60, 120, 2, 14, 14] + [60, 2, 2, 3, 6, 1, 4, 60, 3, 0, 0, 0, 0, 0]
  {
    BucketBytes();
    hide SegmentBytes, SegmentOf, Good, BucketWords, Encode, TimesOf;
    TwoTimes(BUCKETS, P.BucketTime);
    TwoEntries(SampleBucketBlock(BUCKETS), 60, 120);
  }

  lemma SumSegment()
    ensures Good(CounterBucketBlock(SUMS))
    ensures SegmentBytes(SegmentOf(CounterBucketBlock(SUMS))) == [4, 60, 120, 2, 4, 4] + [60, 10, 60, 20]
  {
    SumBytes();
    hide SegmentBytes, SegmentOf, Good, SumWords, Encode, TimesOf;
    TwoTimes(SUMS, N.BucketTime);
    TwoEntries(CounterBucketBlock(SUMS), 60, 120);
  }

  lemma SketchSegment()
    ensures Good(SketchBucketBlock(SKETCHES))
    ensures SegmentBytes(SegmentOf(SketchBucketBlock(SKETCHES))) == [6, 60, 120, 2, 7, 7] + [60, 2, 9, 8, 60, 1, 7]
  {
    SketchItemBytes();
    hide SegmentBytes, SegmentOf, Good, ItemBytes, TimesOf;
    TwoTimes(SKETCHES, K.BucketTime);
    TwoEntries(SketchBucketBlock(SKETCHES), 60, 120);
  }

  const ALL := State(P.Samples(POINTS, BUCKETS), N.Counters(ADDS, SUMS), K.Series(POINTS, SKETCHES))

  /** A version byte, then family by family the buckets before the raw entries. */
  lemma StateBytes()
    ensures var b := BlocksOf(ALL);
            AllGood(b) && Written(b) ==
            [4] + (([3, 60, 120, 2, 14, 14] + [60, 2, 2, 3, 6, 1, 4, 60, 3, 0, 0, 0, 0, 0]) +
            (([1, 5, 9, 2, 8, 8] + [5, 4, 2, 1, 3, 1, 7, 0]) +
            (([4, 60, 120, 2, 4, 4] + [60, 10, 60, 20]) +
            (([2, 5, 9, 2, 9, 9] + [5, 4, 10, 0xAC, 2, 7, 0, 3, 1]) +
            (([6, 60, 120, 2, 7, 7] + [60, 2, 9, 8, 60, 1, 7]) +
            ([5, 5, 9, 2, 8, 8] + [5, 4, 2, 1, 3, 1, 7, 0]))))))
  {
    BucketSegment();
    PointSegment();
    SumSegment();
    AddSegment();
    SketchSegment();
    hide SegmentBytes, SegmentOf, Good;
    AllBlocks();
    hide BlocksOf, Cut, Blob;
    SixBlocks(BlocksOf(ALL));
  }

  lemma SixBlocks(b: seq<Block>)
    requires |b| == 6 && Good(b[0]) && Good(b[1]) && Good(b[2]) && Good(b[3]) && Good(b[4]) && Good(b[5])
    ensures AllGood(b)
    ensures Blob(b) == SegmentBytes(SegmentOf(b[0])) + (SegmentBytes(SegmentOf(b[1])) + (SegmentBytes(SegmentOf(b[2])) +
                       (SegmentBytes(SegmentOf(b[3])) + (SegmentBytes(SegmentOf(b[4])) + SegmentBytes(SegmentOf(b[5]))))))
  {
    assert AllGood(b[6..]) && Blob(b[6..]) == [];
    hide Good, SegmentBytes, SegmentOf, Blob, AllGood;
    BlobFrom(b, 5);
    BlobFrom(b, 4);
    BlobFrom(b, 3);
    BlobFrom(b, 2);
    BlobFrom(b, 1);
    BlobFrom(b, 0);
    assert b[0..] == b;
    NothingBehind(SegmentBytes(SegmentOf(b[5])));
  }

  lemma NothingBehind(s: bytes)
    ensures s + [] == s
  {
  }

  /** Nothing is written of an empty state. */
  lemma NothingWritten()
    ensures Appendable(EMPTY) && Fits(EMPTY) && Marshalled(EMPTY) == []
  {
  }

  lemma AllBlocks()
    ensures BlocksOf(ALL) == [SampleBucketBlock(BUCKETS), SampleBlock(POINTS), CounterBucketBlock(SUMS), CounterBlock(ADDS),
                              SketchBucketBlock(SKETCHES), SketchBlock(POINTS)]
  {
  }

  lemma BlobFrom(b: seq<Block>, i: nat)
    requires i < |b| && Good(b[i]) && AllGood(b[i + 1..])
    ensures AllGood(b[i..]) && Blob(b[i..]) == SegmentBytes(SegmentOf(b[i])) + Blob(b[i + 1..])
  {
    hide Good;
    assert b[i..] == [b[i]] + b[i + 1..];
    assert b[i..][1..] == b[i + 1..];
    assert forall x :: x in b[i..] ==> x == b[i] || x in b[i + 1..];
  }
}
