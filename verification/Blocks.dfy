/** Payloads of segments: runs of entries of one of six kinds, delta and XOR coded. */
module Blocks {
  import opened Words
  import opened Varint
  import opened Reader
  import opened Rows
  import opened Pendings
  import P = SampleState
  import N = CounterState
  import K = SketchState

  datatype Block =
    | SampleBlock(rows: seq<Row>)
    | CounterBlock(rows: seq<Row>)
    | SampleBucketBlock(samples: seq<P.SampleBucket>)
    | CounterBucketBlock(counters: seq<N.CounterBucket>)
    | SketchBlock(rows: seq<Row>)
    | SketchBucketBlock(sketches: seq<K.SketchBucket>)

  function Kind(b: Block): (k: byte)
    ensures 1 <= k <= 6
  {
    match b
    case SampleBlock(_) => 1
    case CounterBlock(_) => 2
    case SampleBucketBlock(_) => 3
    case CounterBucketBlock(_) => 4
    case SketchBlock(_) => 5
    case SketchBucketBlock(_) => 6
  }

  /** The entry times of a block. */
  function EntryTimes(b: Block): seq<u64> {
    match b
    case SampleBlock(rows) => TimesOf(rows, P.RowTime)
    case CounterBlock(rows) => TimesOf(rows, P.RowTime)
    case SampleBucketBlock(bs) => TimesOf(bs, P.BucketTime)
    case CounterBucketBlock(bs) => TimesOf(bs, N.BucketTime)
    case SketchBlock(rows) => TimesOf(rows, P.RowTime)
    case SketchBucketBlock(bs) => TimesOf(bs, K.BucketTime)
  }

  function Entries(b: Block): nat { |EntryTimes(b)| }

  // ----- Words of each kind -----

  function SampleWords(rows: seq<Row>): (ws: seq<u64>)
    ensures |ws| == 4 * |rows|
  {
    Deltas(Times(rows)) + Xors(Values(rows)) + Deltas(Clocks(rows)) + Deltas(Replicas(rows))
  }

  function CounterWords(rows: seq<Row>): (ws: seq<u64>)
    ensures |ws| == 4 * |rows|
  {
    Deltas(Times(rows)) + Deltas(Values(rows)) + Deltas(Replicas(rows)) + Deltas(Clocks(rows))
  }

  const NO_BUCKET := P.SampleBucket(0, 0, 0, 0, 0, 0, 0)

  predicate CountsFit(bs: seq<P.SampleBucket>) {
    forall b :: b in bs ==> b.count < W
  }

  function FloatWord(x: u64, previous: u64): u64 { Xor64(Reverse64(x), Reverse64(previous)) }

  function FloatOfWord(w: u64, previous: u64): u64 { Reverse64(Xor64(Reverse64(previous), w)) }

  /** A bucket relative to the one before it. */
  function BucketStep(a: P.SampleBucket, b: P.SampleBucket): (ws: seq<u64>)
    requires a.count < W && b.count < W
    ensures |ws| == 7
  {
    [Sub(b.time, a.time), Sub(b.count, a.count), FloatWord(b.sum, a.sum), FloatWord(b.min, a.min),
     FloatWord(b.max, a.max), FloatWord(b.first, a.first), FloatWord(b.last, a.last)]
  }

  function NextBucket(a: P.SampleBucket, ws: seq<u64>): (b: P.SampleBucket)
    requires a.count < W && |ws| == 7
    ensures b.count < W
  {
    P.SampleBucket(Add(a.time, ws[0]), Add(a.count, ws[1]), FloatOfWord(ws[2], a.sum), FloatOfWord(ws[3], a.min),
                   FloatOfWord(ws[4], a.max), FloatOfWord(ws[5], a.first), FloatOfWord(ws[6], a.last))
  }

  function LastSample(bs: seq<P.SampleBucket>): P.SampleBucket {
    if bs == [] then NO_BUCKET else bs[|bs| - 1]
  }

  function BucketWords(bs: seq<P.SampleBucket>): (ws: seq<u64>)
    requires CountsFit(bs)
    ensures |ws| == 7 * |bs|
  {
    if bs == [] then [] else
    var n := |bs| - 1;
    BucketWords(bs[..n]) + BucketStep(LastSample(bs[..n]), bs[n])
  }

  function BucketsOf(ws: seq<u64>, n: nat): (bs: seq<P.SampleBucket>)
    requires |ws| == 7 * n
    ensures |bs| == n && CountsFit(bs)
  {
    if n == 0 then [] else
    var bs := BucketsOf(ws[..7 * (n - 1)], n - 1);
    bs + [NextBucket(LastSample(bs), ws[7 * (n - 1)..])]
  }

  function LastCounter(bs: seq<N.CounterBucket>): N.CounterBucket {
    if bs == [] then N.CounterBucket(0, 0) else bs[|bs| - 1]
  }

  function SumWords(bs: seq<N.CounterBucket>): (ws: seq<u64>)
    ensures |ws| == 2 * |bs|
  {
    if bs == [] then [] else
    var n := |bs| - 1;
    var a := LastCounter(bs[..n]);
    SumWords(bs[..n]) + [Sub(bs[n].time, a.time), Sub(bs[n].sum, a.sum)]
  }

  function SumsOf(ws: seq<u64>, n: nat): (bs: seq<N.CounterBucket>)
    requires |ws| == 2 * n
    ensures |bs| == n
  {
    if n == 0 then [] else
    var bs := SumsOf(ws[..2 * (n - 1)], n - 1);
    var a := LastCounter(bs);
    bs + [N.CounterBucket(Add(a.time, ws[2 * n - 2]), Add(a.sum, ws[2 * n - 1]))]
  }

  /** Encoded sketches in the order of their buckets: time step, length, bytes. */
  function ItemBytes(bs: seq<K.SketchBucket>, previous: u64): bytes
    requires forall b :: b in bs ==> |b.data| <= MAX_INT
  {
    if bs == [] then [] else
    Leb(Sub(bs[0].time, previous)) + Leb(|bs[0].data|) + bs[0].data + ItemBytes(bs[1..], bs[0].time)
  }

  // ----- Reading -----

  /** Exactly `n` integers and nothing after them. */
  function WholeWords(raw: bytes, n: nat): (r: Result<seq<u64>>)
    ensures r.Ok? ==> |r.value| == n
  {
    match ReadWords(raw, n)
    case Bad(e) => Err(e)
    case Got(ws, rest) => if rest == [] then Ok(ws) else Err(Long)
  }

  function SampleRows(ws: seq<u64>, n: nat): (rows: seq<Row>)
    requires |ws| == 4 * n
    ensures |rows| == n
  {
    Zip(Undelta(ws[..n]), Unxor(ws[n..2 * n]), Undelta(ws[2 * n..3 * n]), Undelta(ws[3 * n..]))
  }

  function CounterRows(ws: seq<u64>, n: nat): (rows: seq<Row>)
    requires |ws| == 4 * n
    ensures |rows| == n
  {
    Zip(Undelta(ws[..n]), Undelta(ws[n..2 * n]), Undelta(ws[3 * n..]), Undelta(ws[2 * n..3 * n]))
  }

  /** Neither infinite nor not a number: the exponent bits are not all ones. */
  predicate Finite(x: u64) { x / 0x10_0000_0000_0000 % 0x800 != 0x7FF }

  predicate AllFinite(rows: seq<Row>) {
    forall r :: r in rows ==> Finite(r.value)
  }

  function ReadItems(data: bytes, n: nat, previous: u64): (r: Parse<seq<K.SketchBucket>>)
    ensures r.Got? ==> |r.value| == n
    decreases n
  {
    if n == 0 then Got([], data) else
    match ReadUvarint(data)
    case Bad(e) => Bad(e)
    case Got(step, more) =>
      match ReadCount(more)
      case Bad(e) => Bad(e)
      case Got(size, more) =>
        if size > |more| then Bad(Short) else
        var t := Add(previous, step);
        match ReadItems(more[size..], n - 1, t)
        case Bad(e) => Bad(e)
        case Got(bs, rest) => Got([K.SketchBucket(t, more[..size])] + bs, rest)
  }

  /** The entries read before an error, and the error. */
  datatype Read<+E> = Read(entries: seq<E>, error: Option<Error>)

  function WholeItems(raw: bytes, n: nat): Result<seq<K.SketchBucket>> {
    match ReadItems(raw, n, 0)
    case Bad(e) => Err(e)
    case Got(bs, rest) => if rest == [] then Ok(bs) else Err(Long)
  }

  function WholeSamples(raw: bytes, n: nat): Result<seq<Row>> {
    match WholeWords(raw, 4 * n)
    case Err(e) => Err(e)
    case Ok(ws) => Ok(SampleRows(ws, n))
  }

  function WholeCounters(raw: bytes, n: nat): Result<seq<Row>> {
    match WholeWords(raw, 4 * n)
    case Err(e) => Err(e)
    case Ok(ws) => Ok(CounterRows(ws, n))
  }

  function WholeSketches(raw: bytes, n: nat): Result<seq<Row>> {
    match WholeSamples(raw, n)
    case Err(e) => Err(e)
    case Ok(rows) => if AllFinite(rows) then Ok(rows) else Err(Shape)
  }

  function WholeBuckets(raw: bytes, n: nat): Result<seq<P.SampleBucket>> {
    match WholeWords(raw, 7 * n)
    case Err(e) => Err(e)
    case Ok(ws) => Ok(BucketsOf(ws, n))
  }

  function WholeSums(raw: bytes, n: nat): Result<seq<N.CounterBucket>> {
    match WholeWords(raw, 2 * n)
    case Err(e) => Err(e)
    case Ok(ws) => Ok(SumsOf(ws, n))
  }

  function Wrap<T>(r: Result<T>, block: T -> Block): Result<Block> {
    match r
    case Err(e) => Err(e)
    case Ok(x) => Ok(block(x))
  }

  function ReadBlock(kind: byte, raw: bytes, n: nat): Result<Block>
    requires 1 <= kind <= 6
  {
    if kind == 1 then Wrap(WholeSamples(raw, n), (rows: seq<Row>) => SampleBlock(rows))
    else if kind == 2 then Wrap(WholeCounters(raw, n), (rows: seq<Row>) => CounterBlock(rows))
    else if kind == 3 then Wrap(WholeBuckets(raw, n), (bs: seq<P.SampleBucket>) => SampleBucketBlock(bs))
    else if kind == 4 then Wrap(WholeSums(raw, n), (bs: seq<N.CounterBucket>) => CounterBucketBlock(bs))
    else if kind == 5 then Wrap(WholeSketches(raw, n), (rows: seq<Row>) => SketchBlock(rows))
    else Wrap(WholeItems(raw, n), (bs: seq<K.SketchBucket>) => SketchBucketBlock(bs))
  }

  // ----- Round trips -----

  /** What a payload can hold: uint64 counts and slices of the size of an int. */
  predicate Encodes(b: Block) {
    match b
    case SampleBucketBlock(bs) => CountsFit(bs)
    case SketchBucketBlock(bs) => forall x :: x in bs ==> |x.data| <= MAX_INT
    case _ => true
  }

  function Payload(b: Block): bytes
    requires Encodes(b)
  {
    match b
    case SampleBlock(rows) => Encode(SampleWords(rows))
    case CounterBlock(rows) => Encode(CounterWords(rows))
    case SampleBucketBlock(bs) => Encode(BucketWords(bs))
    case CounterBucketBlock(bs) => Encode(SumWords(bs))
    case SketchBlock(rows) => Encode(SampleWords(rows))
    case SketchBucketBlock(bs) => ItemBytes(bs, 0)
  }

  lemma SampleRowsRoundTrip(rows: seq<Row>)
    ensures SampleRows(SampleWords(rows), |rows|) == rows
  {
    hide Deltas, Xors, Undelta, Unxor, Times, Values, Clocks, Replicas, Zip;
    var ws, n := SampleWords(rows), |rows|;
    Quarters(Deltas(Times(rows)), Xors(Values(rows)), Deltas(Clocks(rows)), Deltas(Replicas(rows)), n);
    DeltaRoundTrip(Times(rows));
    XorRoundTrip(Values(rows));
    DeltaRoundTrip(Clocks(rows));
    DeltaRoundTrip(Replicas(rows));
    ZipColumns(rows);
  }

  lemma CounterRowsRoundTrip(rows: seq<Row>)
    ensures CounterRows(CounterWords(rows), |rows|) == rows
  {
    hide Deltas, Undelta, Times, Values, Clocks, Replicas, Zip;
    var ws, n := CounterWords(rows), |rows|;
    Quarters(Deltas(Times(rows)), Deltas(Values(rows)), Deltas(Replicas(rows)), Deltas(Clocks(rows)), n);
    DeltaRoundTrip(Times(rows));
    DeltaRoundTrip(Values(rows));
    DeltaRoundTrip(Clocks(rows));
    DeltaRoundTrip(Replicas(rows));
    ZipColumns(rows);
  }

  lemma Quarters(a: seq<u64>, b: seq<u64>, c: seq<u64>, d: seq<u64>, n: nat)
    requires |a| == |b| == |c| == |d| == n
    ensures var ws := a + b + c + d;
            ws[..n] == a && ws[n..2 * n] == b && ws[2 * n..3 * n] == c && ws[3 * n..] == d
  {
  }

  lemma WordInverts(x: u64, previous: u64)
    ensures FloatOfWord(FloatWord(x, previous), previous) == x
    ensures Add(previous, Sub(x, previous)) == x
  {
    hide Xor, Reverse;
    XorCancels(Reverse64(x), Reverse64(previous));
    Reverse64Twice(x);
  }

  lemma NextOfStep(a: P.SampleBucket, b: P.SampleBucket)
    requires a.count < W && b.count < W
    ensures NextBucket(a, BucketStep(a, b)) == b
  {
    hide FloatWord, FloatOfWord, Add, Sub;
    WordInverts(b.time, a.time);
    WordInverts(b.count, a.count);
    WordInverts(b.sum, a.sum);
    WordInverts(b.min, a.min);
    WordInverts(b.max, a.max);
    WordInverts(b.first, a.first);
    WordInverts(b.last, a.last);
  }

  lemma {:induction false} BucketsRoundTrip(bs: seq<P.SampleBucket>)
    requires CountsFit(bs)
    ensures BucketsOf(BucketWords(bs), |bs|) == bs
  {
    if bs != [] {
      hide BucketStep, NextBucket, BucketWords, BucketsOf, CountsFit;
      var n := |bs| - 1;
      var front, ws := bs[..n], BucketWords(bs);
      assert bs == front + [bs[n]];
      BucketWordsFront(bs, n);
      BucketsRoundTrip(front);
      NextOfStep(LastSample(front), bs[n]);
      BucketsOfFront(ws, n);
    } else {
      hide BucketStep, NextBucket;
    }
  }

  lemma BucketWordsFront(bs: seq<P.SampleBucket>, n: nat)
    requires CountsFit(bs) && n == |bs| - 1
    ensures CountsFit(bs[..n]) && LastSample(bs[..n]).count < W && bs[n].count < W
    ensures var ws := BucketWords(bs);
            ws[..7 * n] == BucketWords(bs[..n]) && ws[7 * n..] == BucketStep(LastSample(bs[..n]), bs[n])
  {
    hide BucketStep;
  }

  lemma BucketsOfFront(ws: seq<u64>, n: nat)
    requires |ws| == 7 * (n + 1)
    ensures var front := BucketsOf(ws[..7 * n], n);
            BucketsOf(ws, n + 1) == front + [NextBucket(LastSample(front), ws[7 * n..])]
  {
    hide NextBucket;
  }

  lemma {:induction false} SumsRoundTrip(bs: seq<N.CounterBucket>)
    ensures SumsOf(SumWords(bs), |bs|) == bs
  {
    if bs != [] {
      hide Add, Sub, LastCounter;
      var n := |bs| - 1;
      SumsRoundTrip(bs[..n]);
      var a, ws := LastCounter(bs[..n]), SumWords(bs);
      WordInverts(bs[n].time, a.time);
      WordInverts(bs[n].sum, a.sum);
      assert ws[..2 * n] == SumWords(bs[..n]) && ws[2 * n] == Sub(bs[n].time, a.time) && ws[2 * n + 1] == Sub(bs[n].sum, a.sum);
      assert bs == bs[..n] + [bs[n]];
    }
  }

  lemma {:induction false} ItemsRoundTrip(bs: seq<K.SketchBucket>, previous: u64, rest: bytes)
    requires forall b :: b in bs ==> |b.data| <= MAX_INT
    ensures ReadItems(ItemBytes(bs, previous) + rest, |bs|, previous) == Got(bs, rest)
  {
    hide Leb, ReadUvarint, ReadCount, ItemBytes, ReadItems;
    if bs == [] {
      NoItemBytes(bs, previous, rest);
    } else {
      var b := bs[0];
      var tail := ItemBytes(bs[1..], b.time) + rest;
      var more := Leb(|b.data|) + (b.data + tail);
      ItemBytesHead(bs, previous, rest);
      UvarintRoundTrip(Sub(b.time, previous), more);
      CountRoundTrip(|b.data|, b.data + tail);
      ItemsRoundTrip(bs[1..], b.time, rest);
      assert [b] + bs[1..] == bs;
      ItemsHead(ItemBytes(bs, previous) + rest, |bs|, previous, more, b.data, tail);
    }
  }

  lemma NoItemBytes(bs: seq<K.SketchBucket>, previous: u64, rest: bytes)
    requires bs == []
    ensures ReadItems(ItemBytes(bs, previous) + rest, |bs|, previous) == Got(bs, rest)
  {
    assert ItemBytes(bs, previous) + rest == rest;
  }

  lemma ItemBytesHead(bs: seq<K.SketchBucket>, previous: u64, rest: bytes)
    requires bs != [] && forall b :: b in bs ==> |b.data| <= MAX_INT
    ensures var b := bs[0];
            && (forall x :: x in bs[1..] ==> |x.data| <= MAX_INT)
            && ItemBytes(bs, previous) + rest ==
               Leb(Sub(b.time, previous)) + (Leb(|b.data|) + (b.data + (ItemBytes(bs[1..], b.time) + rest)))
  {
    hide Leb;
  }

  /** One item in front of others. */
  lemma ItemsHead(all: bytes, n: nat, previous: u64, more: bytes, data: bytes, tail: bytes)
    requires n > 0 && ReadUvarint(all).Got? && ReadUvarint(all).rest == more && ReadCount(more) == Got(|data|, data + tail)
    ensures var t := Add(previous, ReadUvarint(all).value);
            ReadItems(all, n, previous) ==
            match ReadItems(tail, n - 1, t)
            case Bad(e) => Bad(e)
            case Got(bs, rest) => Got([K.SketchBucket(t, data)] + bs, rest)
  {
    hide ReadUvarint, ReadCount;
    assert (data + tail)[..|data|] == data && (data + tail)[|data|..] == tail;
  }

  lemma WholeRoundTrip(ws: seq<u64>)
    ensures WholeWords(Encode(ws), |ws|) == Ok(ws)
  {
    WordsRoundTrip(ws, []);
    assert Encode(ws) + [] == Encode(ws);
  }

  /** The refused patterns are those that without the sign bit are at least that of infinity. */
  lemma FiniteBits(x: u64)
    ensures Finite(x) <==> x % 0x8000_0000_0000_0000 < 0x7FF0_0000_0000_0000
  {
    var s, e, m := x / 0x8000_0000_0000_0000, x / 0x10_0000_0000_0000 % 0x800, x % 0x10_0000_0000_0000;
    var q := x / 0x10_0000_0000_0000;
    assert x == q * 0x10_0000_0000_0000 + m && q == (q / 0x800) * 0x800 + e;
    assert x % 0x8000_0000_0000_0000 == e * 0x10_0000_0000_0000 + m;
  }

  /** A number and its negation are accepted alike. */
  lemma NegationAlike(x: u64)
    requires x < 0x8000_0000_0000_0000
    ensures Finite(x) <==> Finite(x + 0x8000_0000_0000_0000)
  {
    FiniteBits(x);
    FiniteBits(x + 0x8000_0000_0000_0000);
  }

  lemma FiniteRows(rows: seq<Row>)
    ensures AllFinite(rows) <==> forall r :: r in rows ==> r.value % 0x8000_0000_0000_0000 < 0x7FF0_0000_0000_0000
  {
    hide Finite;
    forall r | r in rows
      ensures Finite(r.value) <==> r.value % 0x8000_0000_0000_0000 < 0x7FF0_0000_0000_0000
    {
      FiniteBits(r.value);
    }
  }

  /** Decoding a payload gives back the block bit for bit, for unsorted data too; only a sketch block
      with an infinite or not-a-number value is refused. */
  lemma BlockRoundTrip(b: Block)
    requires Encodes(b)
    ensures ReadBlock(Kind(b), Payload(b), Entries(b)) ==
            if b.SketchBlock? && exists r :: r in b.rows && r.value % 0x8000_0000_0000_0000 >= 0x7FF0_0000_0000_0000
            then Err(Shape) else Ok(b)
    ensures b.SketchBlock? ==>
              (AllFinite(b.rows) <==> forall r :: r in b.rows ==> r.value % 0x8000_0000_0000_0000 < 0x7FF0_0000_0000_0000)
  {
    if b.SketchBlock? {
      FiniteRows(b.rows);
    }
    hide ReadBlock, Payload, AllFinite;
    BlockReads(b);
  }

  lemma BlockReads(b: Block)
    requires Encodes(b)
    ensures ReadBlock(Kind(b), Payload(b), Entries(b)) == if b.SketchBlock? && !AllFinite(b.rows) then Err(Shape) else Ok(b)
  {
    hide WholeWords, SampleRows, CounterRows, SampleWords, CounterWords, BucketWords, BucketsOf, SumWords, SumsOf,
         Encode, ItemBytes, ReadItems, AllFinite;
    match b
    case SampleBlock(rows) => SampleRowsRoundTrip(rows); WholeRoundTrip(SampleWords(rows));
    case SketchBlock(rows) => SampleRowsRoundTrip(rows); WholeRoundTrip(SampleWords(rows));
    case CounterBlock(rows) => CounterRowsRoundTrip(rows); WholeRoundTrip(CounterWords(rows));
    case SampleBucketBlock(bs) => BucketsRoundTrip(bs); WholeRoundTrip(BucketWords(bs));
    case CounterBucketBlock(bs) => SumsRoundTrip(bs); WholeRoundTrip(SumWords(bs));
    case SketchBucketBlock(bs) =>
      ItemsRoundTrip(bs, 0, []);
      assert ItemBytes(bs, 0) + [] == ItemBytes(bs, 0);
  }

  // ----- Prefix decoders -----

  /** `decodeSampleValues`: the first two columns, whatever follows them. */
  function SamplePrefix(raw: bytes, n: nat): (r: Result<(seq<u64>, seq<u64>)>)
    ensures r.Ok? ==> |r.value.0| == |r.value.1| == n
  {
    match ReadWords(raw, 2 * n)
    case Bad(e) => Err(e)
    case Got(ws, _) => Ok((Undelta(ws[..n]), Unxor(ws[n..])))
  }

  function CounterPrefix(raw: bytes, n: nat): (r: Result<(seq<u64>, seq<u64>)>)
    ensures r.Ok? ==> |r.value.0| == |r.value.1| == n
  {
    match ReadWords(raw, 2 * n)
    case Bad(e) => Err(e)
    case Got(ws, _) => Ok((Undelta(ws[..n]), Undelta(ws[n..])))
  }

  /** Whenever the full decoder accepts any bytes, the prefix decoder reads the same times and values. */
  lemma PrefixAgrees(raw: bytes, n: nat)
    requires WholeWords(raw, 4 * n).Ok?
    ensures var rows := SampleRows(WholeWords(raw, 4 * n).value, n);
            SamplePrefix(raw, n) == Ok((Times(rows), Values(rows)))
    ensures var rows := CounterRows(WholeWords(raw, 4 * n).value, n);
            CounterPrefix(raw, n) == Ok((Times(rows), Values(rows)))
  {
    hide Undelta, Unxor, Zip, Times, Values;
    ReadWordsSplit(raw, 2 * n, 2 * n);
    var ws := WholeWords(raw, 4 * n).value;
    var front := ReadWords(raw, 2 * n).value;
    assert ws[..n] == front[..n] && ws[n..2 * n] == front[n..];
    ColumnsOfZip(Undelta(ws[..n]), Unxor(ws[n..2 * n]), Undelta(ws[2 * n..3 * n]), Undelta(ws[3 * n..]));
    ColumnsOfZip(Undelta(ws[..n]), Undelta(ws[n..2 * n]), Undelta(ws[3 * n..]), Undelta(ws[2 * n..3 * n]));
  }
}
