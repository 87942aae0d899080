/** Where the append that does not merge goes wrong: a delta that repeats one counter add. */
module Repetition {
  import opened Words
  import opened Varint
  import opened FloatModel
  import opened Rows
  import opened Pendings
  import opened Blocks
  import opened Segments
  import opened Marshalling
  import opened Appending
  import opened AppendLaws
  import opened FastPaths
  import P = SampleState
  import N = CounterState
  import K = SketchState

  /** A delta of `n` copies of one add. */
  function Copies(r: Row, n: nat): State { EMPTY.(counters := N.Counters(seq(n, i => r), [])) }

  lemma CopiesInOrder(r: Row, n: nat)
    ensures var d := Copies(r, n);
            && Appendable(d) && Fits(d) && Size(d) == n && AllFinite(d.sketches.rows)
            && Canonical(d.sketches.buckets) && K.DistinctTags(d.sketches.rows)
            && (forall t :: t in AllTimes(d) ==> t == r.time)
  {
    var d := Copies(r, n);
    forall t | t in AllTimes(d)
      ensures t == r.time
    {
      PartTimes(d, t);
      var i :| 0 <= i < n && TimesOf(d.counters.rows, P.RowTime)[i] == t;
      RowTimes(d.counters.rows, i);
    }
  }

  lemma {:induction false} CopiesTotal(r: Row, n: nat)
    ensures N.RowTotal(seq(n, i => r)) == n * r.value
  {
    var rows: seq<Row> := seq(n, i => r);
    if n > 0 {
      var less: seq<Row> := seq(n - 1, i => r);
      assert rows[..n - 1] == less;
      CopiesTotal(r, n - 1);
      assert n * r.value == (n - 1) * r.value + r.value;
    }
  }

  lemma CopiesDistinct(r: Row, n: nat)
    ensures N.Distinct(Copies(r, n).counters.rows) <==> n <= 1
    ensures n > 0 ==> N.Ops(Copies(r, n).counters.rows) == {r}
  {
    var rows := Copies(r, n).counters.rows;
    if n > 0 {
      assert rows[0] == r;
    }
    if n > 1 {
      assert rows[0] == rows[1];
    }
  }

  /** Behind every entry is behind every segment. */
  lemma BeforeMeansLater(s: bytes, blocks: seq<Block>, d: State)
    requires Backed(s, blocks) && Before(AbsorbAll(EMPTY, blocks), d)
    ensures Later(s, d)
  {
    hide Written, Encodes, Payload, Appendable, BucketsFirst, AllTimes, AllReadable, EntryTimes, AbsorbAll, Decoded, ScanSeries;
    BackedDecodes(s, blocks);
    AbsorbedTimes(blocks);
    forall x, t | x in SegmentsIn(s) && t in AllTimes(d)
      ensures x.to < t
    {
      var i :| 0 <= i < |blocks| && SegmentsOf(blocks)[i] == x;
      var b := blocks[i];
      assert b in blocks && x == SegmentOf(b);
      GoodBounds(b);
      assert Last(b) in AllTimes(AbsorbAll(EMPTY, blocks));
    }
  }

  /** 1023 is odd, so 1023 times a count is no multiple of 2^64 unless the count is one. */
  lemma OddMultiple(v: u64)
    requires 1023 * v % W == 0
    ensures v == 0
  {
    var k := 1023 * v / W;
    assert 1023 * v == k * W;
    var c := 0xEFFB_FEFF_BFEF_FBFF;
    assert 1023 * c == 1 + 959 * W;
    assert c * (1023 * v) == v + 959 * W * v;
    assert v == (c * k - 959 * v) * W;
  }

  lemma Differs(a: int, b: int, v: u64)
    requires a == b + 1023 * v && v != 0
    ensures a % W != b % W
  {
    if a % W == b % W {
      var p, q := a / W, b / W;
      assert a == p * W + a % W && b == q * W + b % W;
      assert 1023 * v == (p - q) * W;
      OddMultiple(v);
    }
  }

  /** Any merge of the copies holds the add once. */
  lemma MergedOnce(p: N.Counters, r: Row, n: nat, m: N.Counters)
    requires n > 0 && N.MergedInto(p, Copies(r, n).counters, m) && N.Distinct(p.rows) && r !in p.rows
    ensures N.RowTotal(m.rows) == N.RowTotal(p.rows) + r.value
    ensures m.buckets == N.MergeBuckets(p.buckets, [])
  {
    CopiesDistinct(r, n);
    CopiesDistinct(r, 1);
    CopiesTotal(r, 1);
    hide N.RowTotal, N.MergeBuckets;
    N.MergedRowTotal(p.rows, Copies(r, 1).counters.rows, m.rows);
  }

  /** The delta is the fast path's, append accepts it, and the bytes decode to both states put together. */
  lemma CopiesAppended(F: Floats, s: bytes, blocks: seq<Block>, r: Row)
    requires Backed(s, blocks) && s != [] && forall t :: t in AllTimes(AbsorbAll(EMPTY, blocks)) ==> t < r.time
    ensures var d := Copies(r, SEGMENT_SIZE);
            && FastPath(s, d) && Fits(d) && AllGood(BlocksOf(d)) && Before(AbsorbAll(EMPTY, blocks), d)
            && AppendsTo(F, s, d, Ok(s + Blob(BlocksOf(d))))
            && Decoded(s + Blob(BlocksOf(d))) == Ok(Concat(AbsorbAll(EMPTY, blocks), d))
  {
    hide AllTimes, AbsorbAll, Backed, Decoded, BlocksOf, Blob, Copies, Appendable, Canonical, ScanSeries, AllGood, Later, Size;
    var d := Copies(r, SEGMENT_SIZE);
    CopiesInOrder(r, SEGMENT_SIZE);
    BeforeMeansLater(s, blocks, d);
    FastBacked(s, blocks, d);
    BackedDecodes(s, blocks);
    BackedDecodes(s + Blob(BlocksOf(d)), blocks + BlocksOf(d));
  }

  lemma MergeExists(F: Floats, p: State, r: Row) returns (once: State)
    requires Normal(p) && Before(p, Copies(r, SEGMENT_SIZE)) && forall x :: F.add(0, x) == x
    requires forall t :: t in AllTimes(p) ==> t < r.time
    ensures MergedInto(F, p, Copies(r, SEGMENT_SIZE), once)
  {
    hide AllTimes, Normal, Canonical, K.MergedInto, P.Merged, N.MergeBuckets, Nondecreasing;
    var d := Copies(r, 1);
    CopiesInOrder(r, 1);
    CopiesDistinct(r, 1);
    CopiesDistinct(r, SEGMENT_SIZE);
    hide N.Ops, N.Distinct;
    once := Concat(p, d);
    FastPathMerges(F, p, d);
  }

  lemma TwiceIn(a: seq<Row>, r: Row)
    ensures multiset(a + Copies(r, SEGMENT_SIZE).counters.rows)[r] >= 2
  {
    var rows := Copies(r, SEGMENT_SIZE).counters.rows;
    assert rows == [r] + ([r] + rows[2..]);
    assert multiset(rows) == multiset{r} + (multiset{r} + multiset(rows[2..]));
  }

  lemma AtMostOnce(rows: seq<Row>, r: Row)
    requires N.Distinct(rows)
    ensures multiset(rows)[r] <= 1
  {
    N.DistinctMultiset(rows);
  }

  lemma LaterRowIsNew(p: State, r: Row)
    requires forall t :: t in AllTimes(p) ==> t < r.time
    ensures r !in p.counters.rows
  {
    if r in p.counters.rows {
      var i :| 0 <= i < |p.counters.rows| && p.counters.rows[i] == r;
      RowTimes(p.counters.rows, i);
      PartTimes(p, r.time);
    }
  }

  /** What any merge counts, and what both states put together count. */
  lemma MissedTotals(F: Floats, p: State, r: Row, m: State)
    requires Normal(p) && MergedInto(F, p, Copies(r, SEGMENT_SIZE), m)
    requires forall t :: t in AllTimes(p) ==> t < r.time
    ensures var q := Concat(p, Copies(r, SEGMENT_SIZE));
            && multiset(m.counters.rows) != multiset(q.counters.rows)
            && N.RowTotal(q.counters.rows) == N.RowTotal(m.counters.rows) + 1023 * r.value
            && (r.value != 0 ==> N.Counted(q.counters) != N.Counted(m.counters))
  {
    hide Copies, K.MergedInto, P.Merged, N.MergeBuckets, N.RowTotal, N.Counted, Canonical, K.DistinctTags, AllTimes, IncreasingBy,
         Nondecreasing, N.Distinct;
    var a, b := p.counters, Copies(r, SEGMENT_SIZE).counters;
    LaterRowIsNew(p, r);
    MergedOnce(a, r, SEGMENT_SIZE, m.counters);
    CopiesCount(a.rows, r);
    AtMostOnce(m.counters.rows, r);
    KeptBuckets(a);
    NoMoreBuckets(a.buckets, r);
    TotalsDiffer(m.counters, N.Counters(a.rows + b.rows, a.buckets), r.value);
  }

  lemma CopiesCount(rows: seq<Row>, r: Row)
    ensures var more := rows + Copies(r, SEGMENT_SIZE).counters.rows;
            N.RowTotal(more) == N.RowTotal(rows) + 1024 * r.value && multiset(more)[r] >= 2
  {
    hide N.RowTotal;
    CopiesTotal(r, SEGMENT_SIZE);
    N.RowTotalConcat(rows, Copies(r, SEGMENT_SIZE).counters.rows);
    TwiceIn(rows, r);
  }

  lemma NoMoreBuckets(bs: seq<N.CounterBucket>, r: Row)
    ensures Copies(r, SEGMENT_SIZE).counters.buckets == [] && bs + Copies(r, SEGMENT_SIZE).counters.buckets == bs
  {
  }

  lemma KeptBuckets(p: N.Counters)
    requires IncreasingBy(p.buckets, N.BucketTime)
    ensures N.MergeBuckets(p.buckets, []) == p.buckets
  {
    ToBucketsOfSums(p.buckets);
    hide N.ToBuckets, IncreasingBy;
  }

  lemma TotalsDiffer(m: N.Counters, q: N.Counters, v: u64)
    requires N.RowTotal(q.rows) == N.RowTotal(m.rows) + 1023 * v && m.buckets == q.buckets
    ensures v != 0 ==> N.Counted(q) != N.Counted(m)
  {
    hide N.RowTotal, N.BucketTotal;
    if v != 0 {
      Differs(N.RowTotal(q.rows) + N.BucketTotal(q.buckets), N.RowTotal(m.rows) + N.BucketTotal(m.buckets), v);
    }
  }

  /** The condition of the fast path is needed. Behind any stored series that holds something, a delta of
      1024 copies of one later add is appended without a merge. The bytes then decode to the add 1024 times,
      while every merge of the two states, and there is one, holds it once: the totals differ, also
      modulo 2^64, unless the add counts nothing. */
  lemma CountedAgain(F: Floats, s: bytes, blocks: seq<Block>, r: Row) returns (q: State, once: State)
    requires Backed(s, blocks) && s != [] && Normal(AbsorbAll(EMPTY, blocks)) && forall x :: F.add(0, x) == x
    requires forall t :: t in AllTimes(AbsorbAll(EMPTY, blocks)) ==> t < r.time
    ensures var p, d := AbsorbAll(EMPTY, blocks), Copies(r, SEGMENT_SIZE);
            && FastPath(s, d) && Fits(d) && AllGood(BlocksOf(d))
            && AppendsTo(F, s, d, Ok(s + Blob(BlocksOf(d)))) && Decoded(s + Blob(BlocksOf(d))) == Ok(q)
            && MergedInto(F, p, d, once)
            && forall m :: MergedInto(F, p, d, m) ==>
                 && multiset(m.counters.rows) != multiset(q.counters.rows)
                 && N.RowTotal(q.counters.rows) == N.RowTotal(m.counters.rows) + 1023 * r.value
                 && (r.value != 0 ==> N.Counted(q.counters) != N.Counted(m.counters))
  {
    hide AllTimes, AbsorbAll, Backed, Decoded, BlocksOf, Blob, Copies, Normal, AppendsTo, FastPath, MergedInto, Before;
    var p, d := AbsorbAll(EMPTY, blocks), Copies(r, SEGMENT_SIZE);
    CopiesAppended(F, s, blocks, r);
    q := Concat(p, d);
    once := MergeExists(F, p, r);
    forall m | MergedInto(F, p, d, m)
      ensures multiset(m.counters.rows) != multiset(q.counters.rows)
      ensures N.RowTotal(q.counters.rows) == N.RowTotal(m.counters.rows) + 1023 * r.value
      ensures r.value != 0 ==> N.Counted(q.counters) != N.Counted(m.counters)
    {
      MissedTotals(F, p, r, m);
    }
  }
}
