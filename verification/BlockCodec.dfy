/** The loops that write and read payloads. */
module BlockCodec {
  import opened Words
  import opened Varint
  import opened Reader
  import opened Rows
  import opened Blocks
  import P = SampleState
  import N = CounterState
  import K = SketchState

  // ----- Writing -----

  lemma FourColumns(dst: bytes, a: seq<u64>, b: seq<u64>, c: seq<u64>, d: seq<u64>)
    ensures dst + Encode(a) + Encode(b) + Encode(c) + Encode(d) == dst + Encode(a + b + c + d)
  {
    hide Encode;
    Regroup(dst, Encode(a), Encode(b), Encode(c), Encode(d));
    EncodeConcat(a, b);
    EncodeConcat(a + b, c);
    EncodeConcat(a + b + c, d);
  }

  lemma Regroup(dst: bytes, a: bytes, b: bytes, c: bytes, d: bytes)
    ensures dst + a + b + c + d == dst + (a + b + c + d)
  {
  }

  method AppendSampleRaw(dst: bytes, rows: seq<Row>) returns (out: bytes)
    ensures out == dst + Encode(SampleWords(rows))
  {
    hide Encode, Deltas, Xors;
    FourColumns(dst, Deltas(Times(rows)), Xors(Values(rows)), Deltas(Clocks(rows)), Deltas(Replicas(rows)));
    out := AppendDelta(dst, Times(rows));
    out := AppendFloatXor(out, Values(rows));
    out := AppendDelta(out, Clocks(rows));
    out := AppendDelta(out, Replicas(rows));
  }

  method AppendCounterRaw(dst: bytes, rows: seq<Row>) returns (out: bytes)
    ensures out == dst + Encode(CounterWords(rows))
  {
    hide Encode, Deltas;
    FourColumns(dst, Deltas(Times(rows)), Deltas(Values(rows)), Deltas(Replicas(rows)), Deltas(Clocks(rows)));
    out := AppendDelta(dst, Times(rows));
    out := AppendDelta(out, Values(rows));
    out := AppendDelta(out, Replicas(rows));
    out := AppendDelta(out, Clocks(rows));
  }

  /** Appends one more word to an encoded run. */
  method AppendWord(out: bytes, ghost dst: bytes, ghost ws: seq<u64>, w: u64) returns (more: bytes)
    requires out == dst + Encode(ws)
    ensures more == dst + Encode(ws + [w])
  {
    hide Encode, Leb;
    EncodeConcat(ws, [w]);
    EncodeOne(w);
    more := AppendUvarint(out, w);
  }

  method AppendFloatWord(out: bytes, ghost dst: bytes, ghost ws: seq<u64>, v: u64, ghost before: u64, previous: u64)
    returns (more: bytes, current: u64)
    requires out == dst + Encode(ws) && previous == Reverse64(before)
    ensures current == Reverse64(v) && more == dst + Encode(ws + [FloatWord(v, before)])
  {
    hide Encode, Leb, Reverse64, Xor64;
    EncodeConcat(ws, [FloatWord(v, before)]);
    EncodeOne(FloatWord(v, before));
    more, current := AppendFloat(out, v, previous);
  }

  method AppendSampleBuckets(dst: bytes, buckets: seq<P.SampleBucket>) returns (out: bytes)
    requires CountsFit(buckets)
    ensures out == dst + Encode(BucketWords(buckets))
  {
    hide Encode, Reverse64, FloatWord, BucketWords;
    ReversedZero();
    NoBucketWords(buckets);
    out := dst;
    var prevTime, prevCount: u64 := 0, 0;
    var prevSum, prevMin, prevMax, prevFirst, prevLast := 0, 0, 0, 0, 0;
    for i := 0 to |buckets|
      invariant out == dst + Encode(BucketWords(buckets[..i]))
      invariant var a := LastSample(buckets[..i]);
                && prevTime == a.time && prevCount == a.count
                && prevSum == Reverse64(a.sum) && prevMin == Reverse64(a.min) && prevMax == Reverse64(a.max)
                && prevFirst == Reverse64(a.first) && prevLast == Reverse64(a.last)
    {
      var b := buckets[i];
      ghost var a, ws := LastSample(buckets[..i]), BucketWords(buckets[..i]);
      out := AppendWord(out, dst, ws, Sub(b.time, prevTime));
      ws := ws + [Sub(b.time, a.time)];
      out := AppendWord(out, dst, ws, Sub(b.count, prevCount));
      ws := ws + [Sub(b.count, a.count)];
      out, prevSum := AppendFloatWord(out, dst, ws, b.sum, a.sum, prevSum);
      ws := ws + [FloatWord(b.sum, a.sum)];
      out, prevMin := AppendFloatWord(out, dst, ws, b.min, a.min, prevMin);
      ws := ws + [FloatWord(b.min, a.min)];
      out, prevMax := AppendFloatWord(out, dst, ws, b.max, a.max, prevMax);
      ws := ws + [FloatWord(b.max, a.max)];
      out, prevFirst := AppendFloatWord(out, dst, ws, b.first, a.first, prevFirst);
      ws := ws + [FloatWord(b.first, a.first)];
      out, prevLast := AppendFloatWord(out, dst, ws, b.last, a.last, prevLast);
      ws := ws + [FloatWord(b.last, a.last)];
      prevTime, prevCount := b.time, b.count;
      BucketWordsSnoc(buckets, i);
      assert ws == BucketWords(buckets[..i]) + BucketStep(a, b);
    }
    assert buckets[..|buckets|] == buckets;
  }

  lemma ReversedZero()
    ensures Reverse64(0) == 0
  {
    ReverseZero(64);
  }

  lemma NoBucketWords(buckets: seq<P.SampleBucket>)
    ensures BucketWords(buckets[..0]) == [] && Encode([]) == []
  {
  }

  lemma BucketWordsSnoc(buckets: seq<P.SampleBucket>, i: nat)
    requires i < |buckets| && CountsFit(buckets)
    ensures BucketWords(buckets[..i + 1]) == BucketWords(buckets[..i]) + BucketStep(LastSample(buckets[..i]), buckets[i])
  {
    assert buckets[..i + 1][..i] == buckets[..i];
  }

  method AppendCounterBuckets(dst: bytes, buckets: seq<N.CounterBucket>) returns (out: bytes)
    ensures out == dst + Encode(SumWords(buckets))
  {
    hide Encode;
    EncodeEmpty([]);
    out := dst;
    var prevTime, prevSum := 0, 0;
    for i := 0 to |buckets|
      invariant out == dst + Encode(SumWords(buckets[..i]))
      invariant prevTime == LastCounter(buckets[..i]).time && prevSum == LastCounter(buckets[..i]).sum
    {
      var b := buckets[i];
      ghost var ws := SumWords(buckets[..i]);
      out := AppendWord(out, dst, ws, Sub(b.time, prevTime));
      out := AppendWord(out, dst, ws + [Sub(b.time, prevTime)], Sub(b.sum, prevSum));
      assert buckets[..i + 1][..i] == buckets[..i];
      assert ws + [Sub(b.time, prevTime)] + [Sub(b.sum, prevSum)] == SumWords(buckets[..i + 1]);
      prevTime, prevSum := b.time, b.sum;
    }
    assert buckets[..|buckets|] == buckets;
  }

  method AppendSketchBuckets(dst: bytes, buckets: seq<K.SketchBucket>) returns (out: bytes)
    requires forall b :: b in buckets ==> |b.data| <= MAX_INT
    ensures out == dst + ItemBytes(buckets, 0)
  {
    hide Leb, ItemBytes;
    out := dst;
    var previous := 0;
    assert buckets[0..] == buckets;
    for i := 0 to |buckets|
      invariant out + ItemBytes(buckets[i..], previous) == dst + ItemBytes(buckets, 0)
    {
      var b := buckets[i];
      assert b in buckets;
      ItemAppended(out, buckets, i, previous);
      out := AppendUvarint(out, Sub(b.time, previous));
      out := AppendUvarint(out, |b.data|);
      out := out + b.data;
      previous := b.time;
    }
    assert ItemBytes(buckets[|buckets|..], previous) == [] by { NoBytes(buckets[|buckets|..], previous); }
    assert out + [] == out;
  }

  lemma NoBytes(buckets: seq<K.SketchBucket>, previous: u64)
    requires buckets == []
    ensures ItemBytes(buckets, previous) == []
  {
  }

  lemma ItemAppended(dst: bytes, buckets: seq<K.SketchBucket>, i: nat, previous: u64)
    requires i < |buckets| && forall b :: b in buckets ==> |b.data| <= MAX_INT
    ensures var b := buckets[i];
            dst + Leb(Sub(b.time, previous)) + Leb(|b.data|) + b.data + ItemBytes(buckets[i + 1..], b.time)
            == dst + ItemBytes(buckets[i..], previous)
  {
    hide Leb;
    assert buckets[i..][1..] == buckets[i + 1..];
    assert forall x :: x in buckets[i..] ==> x in buckets;
  }

  method EncodeBlock(b: Block) returns (raw: bytes)
    requires Encodes(b)
    ensures raw == Payload(b)
  {
    match b
    case SampleBlock(rows) => raw := AppendSampleRaw([], rows);
    case CounterBlock(rows) => raw := AppendCounterRaw([], rows);
    case SampleBucketBlock(bs) => raw := AppendSampleBuckets([], bs);
    case CounterBucketBlock(bs) => raw := AppendCounterBuckets([], bs);
    case SketchBlock(rows) => raw := AppendSampleRaw([], rows);
    case SketchBucketBlock(bs) => raw := AppendSketchBuckets([], bs);
  }

  // ----- Reading -----

  /** A reader over `raw` that has read the words `ws`, as long as it met no error. */
  ghost predicate Has(r: CodecReader, raw: bytes, n: nat, ws: seq<u64>)
    reads r
  {
    r.At() == Forget(ReadWords(raw, n)) && (r.At().Got? ==> ws == ReadWords(raw, n).value)
  }

  /** What `done` then says. */
  lemma HasWhole(r: CodecReader, raw: bytes, n: nat, ws: seq<u64>)
    requires Has(r, raw, n, ws)
    ensures WholeWords(raw, n) == match r.At()
                                  case Bad(e) => Err(e)
                                  case Got(_, data) => if data == [] then Ok(ws) else Err(Long)
  {
  }

  lemma HasNone(r: CodecReader, raw: bytes)
    requires r.At() == Got((), raw)
    ensures Has(r, raw, 0, [])
  {
  }

  lemma PrefixGot(raw: bytes, m: nat, n: nat)
    requires ReadWords(raw, m + n).Got?
    ensures ReadWords(raw, m).Got?
  {
    ReadWordsSplit(raw, m, n);
  }

  method ReadDelta(r: CodecReader, n: nat, ghost raw: bytes, ghost m: nat, ghost ws: seq<u64>)
    returns (dst: seq<u64>, ghost more: seq<u64>)
    requires Has(r, raw, m, ws)
    modifies r
    ensures |dst| == |more| == n && Has(r, raw, m + n, ws + more)
    ensures ReadWords(raw, m + n).Got? ==> dst == Undelta(more)
  {
    hide ReadWords, Undelta;
    TakeSplit(Got((), raw), m, n);
    more := if Take(r.At(), n).Got? then Take(r.At(), n).value else seq(n, _ => 0);
    dst := r.Delta(n);
  }

  method ReadFloatXor(r: CodecReader, n: nat, ghost raw: bytes, ghost m: nat, ghost ws: seq<u64>)
    returns (dst: seq<u64>, ghost more: seq<u64>)
    requires Has(r, raw, m, ws)
    modifies r
    ensures |dst| == |more| == n && Has(r, raw, m + n, ws + more)
    ensures ReadWords(raw, m + n).Got? ==> dst == Unxor(more)
  {
    hide ReadWords, Unxor;
    TakeSplit(Got((), raw), m, n);
    more := if Take(r.At(), n).Got? then Take(r.At(), n).value else seq(n, _ => 0);
    dst := r.FloatXor(n);
  }

  /** `n` integers, one after the other. */
  method ReadRun(r: CodecReader, n: nat, ghost raw: bytes, ghost m: nat, ghost ws: seq<u64>) returns (run: seq<u64>)
    requires Has(r, raw, m, ws)
    modifies r
    ensures |run| == n && Has(r, raw, m + n, ws + run)
  {
    hide ReadWords;
    run := [];
    assert ws + [] == ws;
    for i := 0 to n
      invariant |run| == i && Has(r, raw, m + i, ws + run)
    {
      TakeSplit(Got((), raw), m + i, 1);
      var w := r.Uvarint();
      assert (ws + run) + [w] == ws + (run + [w]);
      run := run + [w];
    }
  }

  method DecodeSampleRaw(raw: bytes, n: nat) returns (out: Result<seq<Row>>)
    ensures out == WholeSamples(raw, n)
  {
    hide ReadWords, Undelta, Unxor, Has, Zip;
    var r := new CodecReader(raw);
    HasNone(r, raw);
    ghost var a, b, c, d;
    var times, values, clock, replica;
    times, a := ReadDelta(r, n, raw, 0, []);
    assert [] + a == a;
    values, b := ReadFloatXor(r, n, raw, n, a);
    clock, c := ReadDelta(r, n, raw, n + n, a + b);
    replica, d := ReadDelta(r, n, raw, n + n + n, a + b + c);
    HasWhole(r, raw, n + n + n + n, a + b + c + d);
    var e := r.Done();
    if e.Some? {
      return Err(e.value);
    }
    PrefixGot(raw, n + n + n, n);
    PrefixGot(raw, n + n, n);
    PrefixGot(raw, n, n);
    Quarters(a, b, c, d, n);
    out := Ok(Zip(times, values, clock, replica));
  }

  method DecodeCounterRaw(raw: bytes, n: nat) returns (out: Result<seq<Row>>)
    ensures out == WholeCounters(raw, n)
  {
    hide ReadWords, Undelta, Has, Zip;
    var r := new CodecReader(raw);
    HasNone(r, raw);
    ghost var a, b, c, d;
    var times, values, clock, replica;
    times, a := ReadDelta(r, n, raw, 0, []);
    assert [] + a == a;
    values, b := ReadDelta(r, n, raw, n, a);
    replica, c := ReadDelta(r, n, raw, n + n, a + b);
    clock, d := ReadDelta(r, n, raw, n + n + n, a + b + c);
    HasWhole(r, raw, n + n + n + n, a + b + c + d);
    var e := r.Done();
    if e.Some? {
      return Err(e.value);
    }
    PrefixGot(raw, n + n + n, n);
    PrefixGot(raw, n + n, n);
    PrefixGot(raw, n, n);
    Quarters(a, b, c, d, n);
    out := Ok(Zip(times, values, clock, replica));
  }

  method DecodeSketches(raw: bytes, n: nat) returns (out: Result<seq<Row>>)
    ensures out == WholeSketches(raw, n)
  {
    hide WholeWords, SampleRows, Finite;
    out := DecodeSampleRaw(raw, n);
    if out.Ok? {
      for i := 0 to |out.value|
        invariant AllFinite(out.value[..i])
      {
        if !Finite(out.value[i].value) {
          assert out.value[i] in out.value;
          return Err(Shape);
        }
      }
      assert out.value[..|out.value|] == out.value;
    }
  }

  /** Reads times and values only, and does not look at what follows. */
  method DecodeSampleValues(raw: bytes, n: nat) returns (out: Result<(seq<u64>, seq<u64>)>)
    ensures out == SamplePrefix(raw, n)
  {
    hide ReadWords, Undelta, Unxor, Has;
    var r := new CodecReader(raw);
    HasNone(r, raw);
    ghost var a, b;
    var times, values;
    times, a := ReadDelta(r, n, raw, 0, []);
    assert [] + a == a;
    values, b := ReadFloatXor(r, n, raw, n, a);
    HasPrefix(r, raw, n, a, b);
    if r.err.Some? {
      return Err(r.err.value);
    }
    PrefixGot(raw, n, n);
    out := Ok((times, values));
  }

  method DecodeCounterValues(raw: bytes, n: nat) returns (out: Result<(seq<u64>, seq<u64>)>)
    ensures out == CounterPrefix(raw, n)
  {
    hide ReadWords, Undelta, Has;
    var r := new CodecReader(raw);
    HasNone(r, raw);
    ghost var a, b;
    var times, values;
    times, a := ReadDelta(r, n, raw, 0, []);
    assert [] + a == a;
    values, b := ReadDelta(r, n, raw, n, a);
    HasPrefix(r, raw, n, a, b);
    if r.err.Some? {
      return Err(r.err.value);
    }
    PrefixGot(raw, n, n);
    out := Ok((times, values));
  }

  lemma HasPrefix(r: CodecReader, raw: bytes, n: nat, a: seq<u64>, b: seq<u64>)
    requires |a| == |b| == n && Has(r, raw, n + n, a + b)
    ensures r.err.Some? ==> ReadWords(raw, 2 * n) == Bad(r.err.value)
    ensures r.err.None? ==> ReadWords(raw, 2 * n).Got? && ReadWords(raw, 2 * n).value == a + b
    ensures (a + b)[..n] == a && (a + b)[n..] == b
  {
  }

  method DecodeSampleBuckets(raw: bytes, n: nat) returns (out: Result<seq<P.SampleBucket>>)
    ensures out == WholeBuckets(raw, n)
  {
    hide ReadWords, Has, Reverse64;
    ReversedZero();
    var r := new CodecReader(raw);
    HasNone(r, raw);
    ghost var ws := [];
    var prevTime, prevCount: u64 := 0, 0;
    var prevSum, prevMin, prevMax, prevFirst, prevLast := 0, 0, 0, 0, 0;
    var buckets := [];
    for i := 0 to n
      invariant |ws| == 7 * i && Has(r, raw, 7 * i, ws)
      invariant buckets == BucketsOf(ws, i)
      invariant var a := LastSample(buckets);
                && prevTime == a.time && prevCount == a.count
                && prevSum == Reverse64(a.sum) && prevMin == Reverse64(a.min) && prevMax == Reverse64(a.max)
                && prevFirst == Reverse64(a.first) && prevLast == Reverse64(a.last)
    {
      var w := ReadRun(r, 7, raw, 7 * i, ws);
      prevTime, prevCount := Add(prevTime, w[0]), Add(prevCount, w[1]);
      prevSum, prevMin, prevMax := Xor64(prevSum, w[2]), Xor64(prevMin, w[3]), Xor64(prevMax, w[4]);
      prevFirst, prevLast := Xor64(prevFirst, w[5]), Xor64(prevLast, w[6]);
      BucketStepRead(LastSample(buckets), w, prevSum, prevMin, prevMax, prevFirst, prevLast);
      buckets := buckets + [P.SampleBucket(prevTime, prevCount, Reverse64(prevSum), Reverse64(prevMin),
                                           Reverse64(prevMax), Reverse64(prevFirst), Reverse64(prevLast))];
      BucketsOfSnoc(ws, w, i);
      ws := ws + w;
    }
    HasWhole(r, raw, 7 * n, ws);
    var e := r.Done();
    out := if e.Some? then Err(e.value) else Ok(buckets);
  }

  /** The reversed patterns the loop keeps are those of the bucket it appends. */
  lemma BucketStepRead(a: P.SampleBucket, w: seq<u64>, sum: u64, min: u64, max: u64, first: u64, last: u64)
    requires a.count < W && |w| == 7
    requires sum == Xor64(Reverse64(a.sum), w[2]) && min == Xor64(Reverse64(a.min), w[3])
    requires max == Xor64(Reverse64(a.max), w[4]) && first == Xor64(Reverse64(a.first), w[5])
    requires last == Xor64(Reverse64(a.last), w[6])
    ensures var b := NextBucket(a, w);
            && sum == Reverse64(b.sum) && min == Reverse64(b.min) && max == Reverse64(b.max)
            && first == Reverse64(b.first) && last == Reverse64(b.last)
            && b == P.SampleBucket(Add(a.time, w[0]), Add(a.count, w[1]), Reverse64(sum), Reverse64(min),
                                   Reverse64(max), Reverse64(first), Reverse64(last))
  {
    Reverse64Twice(sum);
    Reverse64Twice(min);
    Reverse64Twice(max);
    Reverse64Twice(first);
    Reverse64Twice(last);
  }

  lemma BucketsOfSnoc(ws: seq<u64>, w: seq<u64>, i: nat)
    requires |ws| == 7 * i && |w| == 7
    ensures BucketsOf(ws + w, i + 1) == BucketsOf(ws, i) + [NextBucket(LastSample(BucketsOf(ws, i)), w)]
  {
    assert (ws + w)[..7 * i] == ws && (ws + w)[7 * i..] == w;
  }

  method DecodeCounterBuckets(raw: bytes, n: nat) returns (out: Result<seq<N.CounterBucket>>)
    ensures out == WholeSums(raw, n)
  {
    hide ReadWords, Has;
    var r := new CodecReader(raw);
    HasNone(r, raw);
    ghost var ws := [];
    var prevTime, prevSum := 0, 0;
    var buckets := [];
    for i := 0 to n
      invariant |ws| == 2 * i && Has(r, raw, 2 * i, ws)
      invariant buckets == SumsOf(ws, i)
      invariant prevTime == LastCounter(buckets).time && prevSum == LastCounter(buckets).sum
    {
      var w := ReadRun(r, 2, raw, 2 * i, ws);
      prevTime, prevSum := Add(prevTime, w[0]), Add(prevSum, w[1]);
      assert (ws + w)[..2 * i] == ws;
      buckets := buckets + [N.CounterBucket(prevTime, prevSum)];
      ws := ws + w;
    }
    HasWhole(r, raw, 2 * n, ws);
    var e := r.Done();
    out := if e.Some? then Err(e.value) else Ok(buckets);
  }

  /** Reads one encoded sketch with its time. */
  method NextItem(r: CodecReader, previous: u64) returns (t: u64, data: bytes)
    requires r.err.None?
    modifies r
    ensures match ReadItem(old(r.data), previous)
            case Bad(e) => r.At() == Bad(e)
            case Got(x, rest) => r.At() == Got((), rest) && x == K.SketchBucket(t, data)
  {
    hide ReadUvarint;
    ReadOne(r.data);
    var step := r.Uvarint();
    t := Add(previous, step);
    if r.err.None? {
      ReadOne(r.data);
    }
    var size := r.Count();
    data := r.Bytes(size);
  }

  function ReadItem(data: bytes, previous: u64): Parse<K.SketchBucket> {
    match ReadUvarint(data)
    case Bad(e) => Bad(e)
    case Got(step, more) =>
      match ReadCount(more)
      case Bad(e) => Bad(e)
      case Got(size, more) =>
        if size > |more| then Bad(Short) else Got(K.SketchBucket(Add(previous, step), more[..size]), more[size..])
  }

  lemma ItemsStep(data: bytes, n: nat, previous: u64)
    requires n > 0
    ensures ReadItems(data, n, previous) ==
            match ReadItem(data, previous)
            case Bad(e) => Bad(e)
            case Got(x, rest) =>
              match ReadItems(rest, n - 1, x.time)
              case Bad(e) => Bad(e)
              case Got(bs, rest) => Got([x] + bs, rest)
  {
  }

  /** The sketch buckets of a payload up to its first error. */
  function Items(data: bytes, n: nat, previous: u64): Read<K.SketchBucket>
    decreases n
  {
    if n == 0 then Read([], if data == [] then None else Some(Long)) else
    match ReadItem(data, previous)
    case Bad(e) => Read([], Some(e))
    case Got(x, rest) =>
      var more := Items(rest, n - 1, x.time);
      Read([x] + more.entries, more.error)
  }

  /** Without an error they are all the payload holds; the error is that of reading it as a whole. */
  lemma {:induction false} ItemsWhole(data: bytes, n: nat, previous: u64)
    ensures var r := Items(data, n, previous);
            match ReadItems(data, n, previous) {
              case Bad(e) => r.error == Some(e)
              case Got(bs, rest) => r == Read(bs, if rest == [] then None else Some(Long))
            }
    decreases n
  {
    hide ReadItems, ReadItem;
    if n == 0 {
      NoItems(data, previous);
    } else {
      ItemsStep(data, n, previous);
      var x := ReadItem(data, previous);
      if x.Got? {
        ItemsWhole(x.rest, n - 1, x.value.time);
      }
    }
  }

  lemma NoItems(data: bytes, previous: u64)
    ensures ReadItems(data, 0, previous) == Got([], data)
  {
  }

  /** `all` is what there is to read when `bs` has been read and `n` items are to come. */
  ghost predicate Continues(all: Read<K.SketchBucket>, bs: seq<K.SketchBucket>, data: bytes, n: nat, previous: u64) {
    var more := Items(data, n, previous);
    all == Read(bs + more.entries, more.error)
  }

  /** `scanSketchBuckets`: what it yields, and its error. */
  method ScanSketchBuckets(raw: bytes, n: nat) returns (out: seq<K.SketchBucket>, error: Option<Error>)
    ensures Read(out, error) == Items(raw, n, 0)
  {
    hide ReadItem;
    var r := new CodecReader(raw);
    var previous := 0;
    out := [];
    ghost var all := Items(raw, n, 0);
    assert [] + all.entries == all.entries;
    for i := 0 to n
      invariant r.err.None? && Continues(all, out, r.data, n - i, previous)
    {
      ghost var before := out;
      var data;
      previous, data := NextItem(r, previous);
      if r.err.Some? {
        assert out + [] == out;
        return out, r.err;
      }
      out := out + [K.SketchBucket(previous, data)];
      ghost var rest := Items(r.data, n - i - 1, previous);
      assert before + ([K.SketchBucket(previous, data)] + rest.entries) == out + rest.entries;
    }
    assert out + [] == out;
    error := r.Done();
  }

  method DecodeSketchBuckets(raw: bytes, n: nat) returns (out: Result<seq<K.SketchBucket>>)
    ensures out == WholeItems(raw, n)
  {
    hide ReadItems, Items;
    var buckets, error := ScanSketchBuckets(raw, n);
    ItemsWhole(raw, n, 0);
    out := if error.Some? then Err(error.value) else Ok(buckets);
  }

  method DecodeBlock(kind: byte, raw: bytes, n: nat) returns (out: Result<Block>)
    requires 1 <= kind <= 6
    ensures out == ReadBlock(kind, raw, n)
  {
    hide WholeWords, WholeItems, SampleRows, CounterRows, BucketsOf, SumsOf, AllFinite;
    if kind == 1 {
      var rows := DecodeSampleRaw(raw, n);
      out := match rows case Ok(rows) => Ok(SampleBlock(rows)) case Err(e) => Err(e);
    } else if kind == 2 {
      var rows := DecodeCounterRaw(raw, n);
      out := match rows case Ok(rows) => Ok(CounterBlock(rows)) case Err(e) => Err(e);
    } else if kind == 3 {
      var bs := DecodeSampleBuckets(raw, n);
      out := match bs case Ok(bs) => Ok(SampleBucketBlock(bs)) case Err(e) => Err(e);
    } else if kind == 4 {
      var bs := DecodeCounterBuckets(raw, n);
      out := match bs case Ok(bs) => Ok(CounterBucketBlock(bs)) case Err(e) => Err(e);
    } else if kind == 5 {
      var rows := DecodeSketches(raw, n);
      out := match rows case Ok(rows) => Ok(SketchBlock(rows)) case Err(e) => Err(e);
    } else {
      var bs := DecodeSketchBuckets(raw, n);
      out := match bs case Ok(bs) => Ok(SketchBucketBlock(bs)) case Err(e) => Err(e);
    }
  }
}
