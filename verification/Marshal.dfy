/** A state cut into segments and put together again. */
module Marshalling {
  import opened Words
  import opened Varint
  import opened Rows
  import opened Pendings
  import opened Blocks
  import opened Segments
  import P = SampleState
  import N = CounterState
  import K = SketchState

  /** The longest encoded sketch a series may hold, in bytes. */
  const MAX_DATA := 0x4_0000_0000_0000

  /** What fits the machine: uint64 counts, and buffers that an int can measure. */
  predicate Fits(p: State) {
    CountsFit(p.samples.buckets) && forall b :: b in p.sketches.buckets ==> |b.data| <= MAX_DATA
  }

  function Concat(p: State, d: State): State {
    State(P.Samples(p.samples.rows + d.samples.rows, p.samples.buckets + d.samples.buckets),
          N.Counters(p.counters.rows + d.counters.rows, p.counters.buckets + d.counters.buckets),
          K.Series(p.sketches.rows + d.sketches.rows, p.sketches.buckets + d.sketches.buckets))
  }

  lemma ConcatLaws(p: State, q: State, r: State)
    ensures Concat(p, EMPTY) == p && Concat(EMPTY, p) == p
    ensures Concat(Concat(p, q), r) == Concat(p, Concat(q, r))
  {
    assert Concat(Concat(p, q), r).samples == Concat(p, Concat(q, r)).samples by {
      ConcatSamples(p.samples, q.samples, r.samples);
    }
    assert Concat(Concat(p, q), r).counters == Concat(p, Concat(q, r)).counters by {
      ConcatCounters(p.counters, q.counters, r.counters);
    }
    assert Concat(Concat(p, q), r).sketches == Concat(p, Concat(q, r)).sketches by {
      ConcatSketches(p.sketches, q.sketches, r.sketches);
    }
  }

  lemma ConcatSamples(p: P.Samples, q: P.Samples, r: P.Samples)
    ensures p.rows + q.rows + r.rows == p.rows + (q.rows + r.rows)
    ensures p.buckets + q.buckets + r.buckets == p.buckets + (q.buckets + r.buckets)
  {
  }

  lemma ConcatCounters(p: N.Counters, q: N.Counters, r: N.Counters)
    ensures p.rows + q.rows + r.rows == p.rows + (q.rows + r.rows)
    ensures p.buckets + q.buckets + r.buckets == p.buckets + (q.buckets + r.buckets)
  {
  }

  lemma ConcatSketches(p: K.Series, q: K.Series, r: K.Series)
    ensures p.rows + q.rows + r.rows == p.rows + (q.rows + r.rows)
    ensures p.buckets + q.buckets + r.buckets == p.buckets + (q.buckets + r.buckets)
  {
  }

  /** One block as a state of its own. */
  function Alone(b: Block): State { Absorb(EMPTY, b) }

  lemma AbsorbIsConcat(p: State, b: Block)
    ensures Absorb(p, b) == Concat(p, Alone(b))
  {
  }

  lemma {:induction false} AbsorbAllConcat(p: State, a: seq<Block>, b: seq<Block>)
    ensures AbsorbAll(p, a + b) == AbsorbAll(AbsorbAll(p, a), b)
  {
    if b == [] {
      assert a + b == a;
    } else {
      assert (a + b)[..|a| + |b| - 1] == a + b[..|b| - 1];
      AbsorbAllConcat(p, a, b[..|b| - 1]);
    }
  }

  lemma {:induction false} AbsorbAllIsConcat(p: State, blocks: seq<Block>)
    ensures AbsorbAll(p, blocks) == Concat(p, AbsorbAll(EMPTY, blocks))
  {
    hide Absorb, Concat;
    if blocks == [] {
      ConcatLaws(p, EMPTY, EMPTY);
    } else {
      var n := |blocks| - 1;
      AbsorbAllIsConcat(p, blocks[..n]);
      AbsorbIsConcat(AbsorbAll(p, blocks[..n]), blocks[n]);
      AbsorbIsConcat(AbsorbAll(EMPTY, blocks[..n]), blocks[n]);
      ConcatLaws(p, AbsorbAll(EMPTY, blocks[..n]), Alone(blocks[n]));
    }
  }

  // ----- Cutting loses nothing -----

  ghost predicate Splits<T>(wrap: seq<T> -> Block, s: seq<T>, i: nat)
    requires i <= |s|
  {
    Alone(wrap(s)) == Concat(Alone(wrap(s[..i])), Alone(wrap(s[i..])))
  }

  /** `wrap` makes blocks whose states concatenate as the entries do. */
  ghost predicate Additive<T(!new)>(wrap: seq<T> -> Block) {
    Alone(wrap([])) == EMPTY && forall s, i: nat :: i <= |s| ==> Splits(wrap, s, i)
  }

  lemma {:induction false} CutAbsorbed<T(!new)>(s: seq<T>, wrap: seq<T> -> Block)
    requires Additive(wrap)
    ensures AbsorbAll(EMPTY, Cut(s, wrap)) == Alone(wrap(s))
    decreases |s|
  {
    hide Absorb, Concat;
    if 0 < |s| <= SEGMENT_SIZE {
      assert [wrap(s)][..0] == [];
    } else if |s| > SEGMENT_SIZE {
      var a, b := s[..SEGMENT_SIZE], s[SEGMENT_SIZE..];
      assert Splits(wrap, s, SEGMENT_SIZE);
      CutAbsorbed(b, wrap);
      AbsorbAllConcat(EMPTY, [wrap(a)], Cut(b, wrap));
      AbsorbAllIsConcat(Absorb(EMPTY, wrap(a)), Cut(b, wrap));
      AbsorbOne(wrap(a));
    }
  }

  lemma AbsorbOne(b: Block)
    ensures AbsorbAll(EMPTY, [b]) == Alone(b)
  {
    assert [b][..0] == [];
  }

  lemma WrapsAdd()
    ensures Additive(WrapSampleBuckets) && Additive(WrapSamples) && Additive(WrapCounterBuckets)
    ensures Additive(WrapCounters) && Additive(WrapSketchBuckets) && Additive(WrapSketches)
  {
    SplitsRows();
    SplitsBuckets();
  }

  lemma SplitsRows()
    ensures Additive(WrapSamples) && Additive(WrapCounters) && Additive(WrapSketches)
  {
    forall s: seq<Row>, i: nat | i <= |s|
      ensures Splits(WrapSamples, s, i) && Splits(WrapCounters, s, i) && Splits(WrapSketches, s, i)
    {
      assert s[..i] + s[i..] == s;
    }
  }

  lemma SplitsBuckets()
    ensures Additive(WrapSampleBuckets) && Additive(WrapCounterBuckets) && Additive(WrapSketchBuckets)
  {
    forall s: seq<P.SampleBucket>, i: nat | i <= |s| ensures Splits(WrapSampleBuckets, s, i) { assert s[..i] + s[i..] == s; }
    forall s: seq<N.CounterBucket>, i: nat | i <= |s| ensures Splits(WrapCounterBuckets, s, i) { assert s[..i] + s[i..] == s; }
    forall s: seq<K.SketchBucket>, i: nat | i <= |s| ensures Splits(WrapSketchBuckets, s, i) { assert s[..i] + s[i..] == s; }
  }

  lemma WrapsMakeState(p: State)
    ensures p == Concat(Concat(Concat(Concat(Concat(
              Alone(WrapSampleBuckets(p.samples.buckets)), Alone(WrapSamples(p.samples.rows))),
              Alone(WrapCounterBuckets(p.counters.buckets))), Alone(WrapCounters(p.counters.rows))),
              Alone(WrapSketchBuckets(p.sketches.buckets))), Alone(WrapSketches(p.sketches.rows)))
  {
  }

  lemma AbsorbNext(a: seq<Block>, b: seq<Block>)
    ensures AbsorbAll(EMPTY, a + b) == Concat(AbsorbAll(EMPTY, a), AbsorbAll(EMPTY, b))
  {
    hide Absorb, Concat, AbsorbAll;
    AbsorbAllConcat(EMPTY, a, b);
    AbsorbAllIsConcat(AbsorbAll(EMPTY, a), b);
  }

  /** The blocks of a state, taken together, are the state. */
  lemma BlocksAbsorbed(p: State)
    ensures AbsorbAll(EMPTY, BlocksOf(p)) == p
  {
    hide Absorb, Concat, Alone, AbsorbAll, Cut, Additive;
    WrapsAdd();
    var a, b := Cut(p.samples.buckets, WrapSampleBuckets), Cut(p.samples.rows, WrapSamples);
    var c, d := Cut(p.counters.buckets, WrapCounterBuckets), Cut(p.counters.rows, WrapCounters);
    var e, f := Cut(p.sketches.buckets, WrapSketchBuckets), Cut(p.sketches.rows, WrapSketches);
    CutAbsorbed(p.samples.buckets, WrapSampleBuckets);
    CutAbsorbed(p.samples.rows, WrapSamples);
    CutAbsorbed(p.counters.buckets, WrapCounterBuckets);
    CutAbsorbed(p.counters.rows, WrapCounters);
    CutAbsorbed(p.sketches.buckets, WrapSketchBuckets);
    CutAbsorbed(p.sketches.rows, WrapSketches);
    AbsorbNext(a, b);
    AbsorbNext(a + b, c);
    AbsorbNext(a + b + c, d);
    AbsorbNext(a + b + c + d, e);
    AbsorbNext(a + b + c + d + e, f);
    WrapsMakeState(p);
  }

  // ----- The pieces can be written -----

  /** Every run of at most 1024 of these entries makes a block that can be written. */
  ghost predicate Writable<T>(s: seq<T>, wrap: seq<T> -> Block) {
    forall i, j :: 0 <= i < j <= |s| && j - i <= SEGMENT_SIZE ==> Good(wrap(s[i..j]))
  }

  lemma {:induction false} CutGood<T>(s: seq<T>, wrap: seq<T> -> Block)
    requires Writable(s, wrap)
    ensures AllGood(Cut(s, wrap))
    decreases |s|
  {
    hide Good;
    if 0 < |s| <= SEGMENT_SIZE {
      assert s[0..|s|] == s;
    } else if |s| > SEGMENT_SIZE {
      var n := SEGMENT_SIZE;
      assert s[0..n] == s[..n];
      assert Writable(s[n..], wrap) by {
        forall i, j | 0 <= i < j <= |s| - n && j - i <= n
          ensures Good(wrap(s[n..][i..j]))
        {
          assert s[n..][i..j] == s[n + i..n + j];
        }
      }
      CutGood(s[n..], wrap);
    }
  }

  lemma RowsGood(b: Block, rows: seq<Row>)
    requires b == SampleBlock(rows) || b == CounterBlock(rows) || b == SketchBlock(rows)
    requires 0 < |rows| <= SEGMENT_SIZE && Nondecreasing(rows)
    ensures Good(b)
  {
    hide Encode, SampleWords, CounterWords;
    var ts := TimesOf(rows, P.RowTime);
    forall i, j | 0 <= i < j < |ts|
      ensures ts[i] <= ts[j]
    {
      RowTimes(rows, i);
      RowTimes(rows, j);
    }
    EncodeLength(SampleWords(rows));
    EncodeLength(CounterWords(rows));
  }

  lemma RowsWritable(rows: seq<Row>)
    requires Nondecreasing(rows)
    ensures Writable(rows, WrapSamples) && Writable(rows, WrapCounters) && Writable(rows, WrapSketches)
  {
    hide Good;
    forall i, j | 0 <= i < j <= |rows| && j - i <= SEGMENT_SIZE
      ensures Good(WrapSamples(rows[i..j])) && Good(WrapCounters(rows[i..j])) && Good(WrapSketches(rows[i..j]))
    {
      var piece := rows[i..j];
      assert Nondecreasing(piece);
      RowsGood(SampleBlock(piece), piece);
      RowsGood(CounterBlock(piece), piece);
      RowsGood(SketchBlock(piece), piece);
    }
  }

  lemma TimesInOrder<T>(s: seq<T>, time: T -> u64, i: nat, j: nat)
    requires IncreasingBy(s, time) && i <= j <= |s|
    ensures Sequential(TimesOf(s[i..j], time))
  {
    var ts := TimesOf(s[i..j], time);
    forall k, l | 0 <= k < l < |ts|
      ensures ts[k] <= ts[l]
    {
      assert time(s[i + k]) < time(s[i + l]);
    }
  }

  lemma SampleBucketsWritable(bs: seq<P.SampleBucket>)
    requires IncreasingBy(bs, P.BucketTime) && CountsFit(bs)
    ensures Writable(bs, WrapSampleBuckets)
  {
    hide Good;
    forall i, j | 0 <= i < j <= |bs| && j - i <= SEGMENT_SIZE
      ensures Good(WrapSampleBuckets(bs[i..j]))
    {
      TimesInOrder(bs, P.BucketTime, i, j);
      BucketsGood(bs[i..j]);
    }
  }

  lemma BucketsGood(bs: seq<P.SampleBucket>)
    requires 0 < |bs| <= SEGMENT_SIZE && Sequential(TimesOf(bs, P.BucketTime)) && CountsFit(bs)
    ensures Good(SampleBucketBlock(bs))
  {
    hide Encode, BucketWords, Sequential;
    EncodeLength(BucketWords(bs));
  }

  lemma CounterBucketsWritable(bs: seq<N.CounterBucket>)
    requires IncreasingBy(bs, N.BucketTime)
    ensures Writable(bs, WrapCounterBuckets)
  {
    hide Good;
    forall i, j | 0 <= i < j <= |bs| && j - i <= SEGMENT_SIZE
      ensures Good(WrapCounterBuckets(bs[i..j]))
    {
      TimesInOrder(bs, N.BucketTime, i, j);
      SumsGood(bs[i..j]);
    }
  }

  lemma SumsGood(bs: seq<N.CounterBucket>)
    requires 0 < |bs| <= SEGMENT_SIZE && Sequential(TimesOf(bs, N.BucketTime))
    ensures Good(CounterBucketBlock(bs))
  {
    hide Encode, SumWords, Sequential;
    EncodeLength(SumWords(bs));
  }

  lemma {:induction false} ItemsLength(bs: seq<K.SketchBucket>, previous: u64)
    requires forall b :: b in bs ==> |b.data| <= MAX_DATA
    ensures |ItemBytes(bs, previous)| <= |bs| * (MAX_DATA + 20)
  {
    if bs != [] {
      hide Leb, Weight;
      WeightOf9();
      LebLength(Sub(bs[0].time, previous), 10);
      LebLength(|bs[0].data|, 10);
      ItemsLength(bs[1..], bs[0].time);
    }
  }

  lemma SketchBucketsWritable(bs: seq<K.SketchBucket>)
    requires IncreasingBy(bs, K.BucketTime)
    requires forall b :: b in bs ==> |b.data| <= MAX_DATA
    ensures Writable(bs, WrapSketchBuckets)
  {
    hide Good;
    forall i, j | 0 <= i < j <= |bs| && j - i <= SEGMENT_SIZE
      ensures Good(WrapSketchBuckets(bs[i..j]))
    {
      assert forall b :: b in bs[i..j] ==> b in bs;
      TimesInOrder(bs, K.BucketTime, i, j);
      ItemsGood(bs[i..j]);
    }
  }

  lemma ItemsGood(bs: seq<K.SketchBucket>)
    requires 0 < |bs| <= SEGMENT_SIZE && Sequential(TimesOf(bs, K.BucketTime))
    requires forall b :: b in bs ==> |b.data| <= MAX_DATA
    ensures Good(SketchBucketBlock(bs))
  {
    hide ItemBytes;
    ItemsLength(bs, 0);
  }

  /** An appendable state that fits can be written. */
  lemma BlocksGood(p: State)
    requires Appendable(p) && Fits(p)
    ensures AllGood(BlocksOf(p))
  {
    hide Good, Cut, Writable;
    P.InTimeOrder(p.samples.rows);
    RowsWritable(p.samples.rows);
    RowsWritable(p.counters.rows);
    RowsWritable(p.sketches.rows);
    SampleBucketsWritable(p.samples.buckets);
    CounterBucketsWritable(p.counters.buckets);
    SketchBucketsWritable(p.sketches.buckets);
    CutGood(p.samples.buckets, WrapSampleBuckets);
    CutGood(p.samples.rows, WrapSamples);
    CutGood(p.counters.buckets, WrapCounterBuckets);
    CutGood(p.counters.rows, WrapCounters);
    CutGood(p.sketches.buckets, WrapSketchBuckets);
    CutGood(p.sketches.rows, WrapSketches);
  }

  // ----- Which states read back -----

  /** Every sketch value is finite exactly when every sketch block is readable. */
  lemma {:induction false} AbsorbedReadable(blocks: seq<Block>)
    ensures AllReadable(blocks) <==> AllFinite(AbsorbAll(EMPTY, blocks).sketches.rows)
  {
    hide Finite;
    if blocks != [] {
      var n := |blocks| - 1;
      assert blocks == blocks[..n] + [blocks[n]];
      AbsorbedReadable(blocks[..n]);
      var p := AbsorbAll(EMPTY, blocks[..n]);
      assert AllReadable(blocks) <==> AllReadable(blocks[..n]) && (blocks[n].SketchBlock? ==> AllFinite(blocks[n].rows));
      if blocks[n].SketchBlock? {
        FiniteConcat(p.sketches.rows, blocks[n].rows);
      }
    }
  }

  lemma FiniteConcat(a: seq<Row>, b: seq<Row>)
    ensures AllFinite(a + b) <==> AllFinite(a) && AllFinite(b)
  {
    assert forall r :: r in a + b <==> r in a || r in b;
  }

  function Marshalled(p: State): bytes
    requires Appendable(p) && Fits(p)
  {
    BlocksGood(p);
    if Size(p) == 0 then [] else Written(BlocksOf(p))
  }

  lemma NothingHeld(p: State)
    requires Size(p) == 0
    ensures p == EMPTY
  {
  }

  /** Decoding what an appendable state was marshalled to gives the state back field by field and bit for
      bit, across any number of segments, exactly when all its raw sketch values are finite; otherwise it
      is refused. */
  lemma MarshalRoundTrip(p: State)
    requires Appendable(p) && Fits(p)
    ensures Decoded(Marshalled(p)) ==
            if exists r :: r in p.sketches.rows && r.value % 0x8000_0000_0000_0000 >= 0x7FF0_0000_0000_0000
            then Err(Shape) else Ok(p)
    ensures AllFinite(p.sketches.rows) <==>
            forall r :: r in p.sketches.rows ==> r.value % 0x8000_0000_0000_0000 < 0x7FF0_0000_0000_0000
  {
    FiniteRows(p.sketches.rows);
    BlocksGood(p);
    if Size(p) == 0 {
      NothingHeld(p);
    } else {
      hide Written, AllGood, AllReadable, BlocksOf, Decoded, AllFinite;
      DecodeWritten(BlocksOf(p));
      BlocksAbsorbed(p);
      AbsorbedReadable(BlocksOf(p));
    }
  }
}
