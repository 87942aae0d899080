/** What reading counters answers, said of the adds and bucket sums that are stored: a sum for every time, or an
    aggregate for every output bucket. */
module CounterAnswers {
  import opened Words
  import opened Varint
  import opened Reader
  import opened FloatModel
  import opened Rows
  import opened Pendings
  import opened Blocks
  import opened Segments
  import opened Runs
  import opened Streams
  import opened Interleavings
  import opened Aggregates
  import opened CounterReaders
  import opened Answers
  import P = SampleState
  import N = CounterState
  import R = SampleReaders

  // ----- What is counted at a time -----

  function AddsAt(rows: seq<Row>, t: u64): nat {
    if rows == [] then 0 else (if rows[0].time == t then rows[0].value else 0) + AddsAt(rows[1..], t)
  }

  function BucketsAt(bs: seq<N.CounterBucket>, t: u64): nat {
    if bs == [] then 0 else (if bs[0].time == t then bs[0].sum else 0) + BucketsAt(bs[1..], t)
  }

  /** The adds and the bucket sums at a time, added up as integers. */
  function CountedAt(d: N.Counters, t: u64): nat { AddsAt(d.rows, t) + BucketsAt(d.buckets, t) }

  ghost predicate HasTime(d: N.Counters, t: u64) {
    (exists r :: r in d.rows && r.time == t) || exists b :: b in d.buckets && b.time == t
  }

  /** Every time of the window that has an add or a bucket is listed once, in order, with what is counted at
      it modulo 2^64. */
  ghost predicate Summed(F: Floats, d: N.Counters, from: u64, to: u64, out: seq<(u64, u64)>) {
    && InOrder(out) && (forall i :: 0 <= i < |out| ==> SummedAt(F, d, from, to, out[i]))
    && (forall t: u64 :: from <= t <= to && HasTime(d, t) ==> Listed(out, t))
  }

  ghost predicate SummedAt(F: Floats, d: N.Counters, from: u64, to: u64, x: (u64, u64)) {
    from <= x.0 <= to && HasTime(d, x.0) && x.1 == F.ofUint(CountedAt(d, x.0) % W)
  }

  // ----- Entries of one time -----

  function AmountAt(es: seq<Amount>, t: u64): nat {
    if es == [] then 0 else AmountAt(es[..|es| - 1], t) + if es[|es| - 1].at == t then es[|es| - 1].value else 0
  }

  ghost predicate AtTime(es: seq<Amount>, t: u64) { exists e :: e in es && e.at == t }

  lemma AmountSnoc(es: seq<Amount>, e: Amount, t: u64)
    ensures AmountAt(es + [e], t) == AmountAt(es, t) + if e.at == t then e.value else 0
  {
    assert (es + [e])[..|es|] == es;
  }

  lemma {:induction false} AmountConcat(a: seq<Amount>, b: seq<Amount>, t: u64)
    ensures AmountAt(a + b, t) == AmountAt(a, t) + AmountAt(b, t)
  {
    if b == [] {
      assert a + b == a;
    } else {
      assert (a + b)[..|a| + |b| - 1] == a + b[..|b| - 1];
      AmountConcat(a, b[..|b| - 1], t);
    }
  }

  lemma AmountOne(e: Amount, t: u64)
    ensures AmountAt([e], t) == if e.at == t then e.value else 0
  {
    AmountSnoc([], e, t);
    assert [] + [e] == [e];
  }

  lemma SumAgain(a: nat, b: u64)
    ensures Add(a % W, b) == (a + b) % W
  {
  }

  /** The open sum of a time is that of its entries modulo 2^64. */
  lemma {:induction false} TallyIs(es: seq<Amount>, t: u64)
    ensures FoldAll(ByTimes(), Select(ByTimes(), es, t)) ==
            Tally(AtTime(es, t), AmountAt(es, t) % W)
  {
    hide Select, FoldAll, AmountAt, Add;
    if es == [] {
      NoTally(es, t);
    } else {
      var g := ByTimes();
      var front, e := es[..|es| - 1], es[|es| - 1];
      assert es == front + [e];
      TallyIs(front, t);
      SelectSnoc(g, front, e, t);
      AmountSnoc(front, e, t);
      TimeSnoc(front, e, t);
      var s := Select(g, front, t);
      if e.at == t {
        FoldSnoc(g, s, e);
        SumAgain(AmountAt(front, t), e.value);
      } else {
        assert s + [] == s;
      }
    }
  }

  lemma NoTally(es: seq<Amount>, t: u64)
    requires es == []
    ensures FoldAll(ByTimes(), Select(ByTimes(), es, t)) == Tally(false, 0) && AmountAt(es, t) == 0 && !AtTime(es, t)
  {
  }

  lemma TimeSnoc(es: seq<Amount>, e: Amount, t: u64)
    ensures AtTime(es + [e], t) <==> AtTime(es, t) || e.at == t
  {
    assert e in es + [e];
    assert forall x :: x in es + [e] <==> x in es || x == e;
  }

  lemma {:induction false} InterleavedAt(bs: seq<N.CounterBucket>, rows: seq<Row>, t: u64)
    ensures AmountAt(Interleave(Feeds(), bs, rows), t) == AddsAt(rows, t) + BucketsAt(bs, t)
    decreases |bs| + |rows|
  {
    if bs == [] && rows == [] {
    } else if rows == [] || (bs != [] && bs[0].time <= rows[0].time) {
      hide AmountAt;
      InterleavedAt(bs[1..], rows, t);
      AmountConcat([TotalOf(bs[0])], Interleave(Feeds(), bs[1..], rows), t);
      AmountOne(TotalOf(bs[0]), t);
    } else {
      hide AmountAt;
      InterleavedAt(bs, rows[1..], t);
      AmountConcat([AddOf(rows[0])], Interleave(Feeds(), bs, rows[1..]), t);
      AmountOne(AddOf(rows[0]), t);
    }
  }

  lemma {:induction false} BetweenAt(es: seq<Amount>, from: u64, to: u64, t: u64)
    ensures AmountAt(Between(es, TimeOf, from, to), t) == if from <= t <= to then AmountAt(es, t) else 0
  {
    hide AmountAt, Between;
    if es == [] {
      NothingAt(es, from, to, t);
    } else {
      var front, e := es[..|es| - 1], es[|es| - 1];
      assert es == front + [e];
      BetweenAt(front, from, to, t);
      BetweenSnoc(front, e, TimeOf, from, to);
      AmountSnoc(front, e, t);
      AmountSnoc(Between(front, TimeOf, from, to), e, t);
      assert Between(front, TimeOf, from, to) + [] == Between(front, TimeOf, from, to);
    }
  }

  lemma NothingAt(es: seq<Amount>, from: u64, to: u64, t: u64)
    requires es == []
    ensures Between(es, TimeOf, from, to) == [] && AmountAt(es, t) == 0
  {
  }

  lemma {:induction false} InterleavedTimes(bs: seq<N.CounterBucket>, rows: seq<Row>, t: u64)
    ensures AtTime(Interleave(Feeds(), bs, rows), t) <==>
            (exists r :: r in rows && r.time == t) || exists b :: b in bs && b.time == t
    decreases |bs| + |rows|
  {
    if bs == [] && rows == [] {
    } else if rows == [] || (bs != [] && bs[0].time <= rows[0].time) {
      InterleavedTimes(bs[1..], rows, t);
      hide Interleave;
      assert bs == [bs[0]] + bs[1..] && forall b :: b in bs <==> b == bs[0] || b in bs[1..];
      HeadTime(TotalOf(bs[0]), Interleave(Feeds(), bs[1..], rows), t);
    } else {
      InterleavedTimes(bs, rows[1..], t);
      hide Interleave;
      assert rows == [rows[0]] + rows[1..] && forall r :: r in rows <==> r == rows[0] || r in rows[1..];
      HeadTime(AddOf(rows[0]), Interleave(Feeds(), bs, rows[1..]), t);
    }
  }

  lemma HeadTime(e: Amount, es: seq<Amount>, t: u64)
    ensures AtTime([e] + es, t) <==> e.at == t || AtTime(es, t)
  {
    assert forall x :: x in [e] + es <==> x == e || x in es;
    assert e in [e] + es;
  }

  /** What the reader meets at one time. */
  lemma WindowAt(d: N.Counters, from: u64, to: u64, t: u64)
    requires Timely(d.buckets, N.BucketTime) && Timely(d.rows, P.RowTime)
    ensures var es := InMemory(d, from, to);
            && (from <= t <= to ==> AmountAt(es, t) == CountedAt(d, t))
            && (AtTime(es, t) <==> from <= t <= to && HasTime(d, t))
  {
    hide Interleave, Visited, Between, Timely, AmountAt, AddsAt, BucketsAt;
    FeedsLabels();
    VisitedIsWindow(Feeds(), d.buckets, d.rows, from, to);
    var all := Interleave(Feeds(), d.buckets, d.rows);
    BetweenAt(all, from, to, t);
    InterleavedAt(d.buckets, d.rows, t);
    InterleavedTimes(d.buckets, d.rows, t);
    BetweenElements(all, TimeOf, from, to);
    assert forall e :: e in Between(all, TimeOf, from, to) <==> e in all && from <= e.at <= to;
  }

  /** Grouping the window by time lists what is counted at each. */
  lemma WindowSummed(F: Floats, d: N.Counters, from: u64, to: u64)
    requires Timely(d.buckets, N.BucketTime) && Timely(d.rows, P.RowTime)
    ensures Summed(F, d, from, to, Sums(F, Grouped(ByTimes(), InMemory(d, from, to))))
  {
    hide Timely, InMemory, Grouped, AmountAt, CountedAt, HasTime, Select, FoldAll, KeysInOrder;
    var g, es := ByTimes(), InMemory(d, from, to);
    TimelyWindow(d, from, to);
    GroupKeysInOrder(F, 0, es);
    TallyLaws();
    forall e | e in es
      ensures g.some(FoldAll(g, Select(g, es, g.key(e))))
    {
      assert AtTime(es, e.at);
      TallyIs(es, e.at);
    }
    GroupedPairs(g, es);
    var pairs := Grouped(g, es);
    var out := Sums(F, pairs);
    forall i | 0 <= i < |out|
      ensures SummedAt(F, d, from, to, out[i])
    {
      assert HasKey(g, es, pairs[i].0) && AtTime(es, pairs[i].0);
      TallyIs(es, pairs[i].0);
      WindowAt(d, from, to, pairs[i].0);
    }
    forall t: u64 | from <= t <= to && HasTime(d, t)
      ensures Listed(out, t)
    {
      WindowAt(d, from, to, t);
      assert AtTime(es, t);
      var e :| e in es && e.at == t;
      assert g.key(e) == t;
      var i :| 0 <= i < |pairs| && pairs[i].0 == t;
      assert out[i].0 == t;
    }
  }

  lemma TimelyWindow(d: N.Counters, from: u64, to: u64)
    requires Timely(d.buckets, N.BucketTime) && Timely(d.rows, P.RowTime)
    ensures Timely(InMemory(d, from, to), TimeOf)
    ensures WindowOf(Feeds(), d.buckets, d.rows, from, to, InMemory(d, from, to))
    ensures Passed(Feeds(), d.buckets, d.rows, from, to) == InMemory(d, from, to)
  {
    hide Timely, Interleave, Between, Only, Map, Visited, Passed, WindowOf;
    FeedsLabels();
    VisitedIsWindow(Feeds(), d.buckets, d.rows, from, to);
    VisitedWindow(Feeds(), d.buckets, d.rows, from, to);
  }

  lemma FlowsTimely(s: bytes, blocks: seq<Block>)
    requires Flows(s, blocks)
    ensures var d := AbsorbAll(EMPTY, blocks).counters; Timely(d.buckets, N.BucketTime) && Timely(d.rows, P.RowTime)
  {
    hide AbsorbAll, Timely, Opening, Holds, Labels, BucketsIn, RowsIn, StreamOf;
    FeedsReady(s, blocks);
  }

  /** Reading a series without a span sums the adds and buckets of each time. */
  lemma CounterValuesAnswers(F: Floats, s: bytes, blocks: seq<Block>, from: u64, to: u64, out: seq<(u64, u64)>, error: Option<Error>)
    requires Flows(s, blocks) && Lists(F, s, from, to, out, error)
    ensures error.None? && Summed(F, AbsorbAll(EMPTY, blocks).counters, from, to, out)
  {
    hide AbsorbAll, Timely, InMemory, Report, AscendingKeys, Flows, Streamed, Grouped, Sums, Summed, Passed;
    FlowsTimely(s, blocks);
    CounterRangesAgree(F, s, blocks, from, to, 0);
    WindowSummed(F, AbsorbAll(EMPTY, blocks).counters, from, to);
  }

  /** And so do the cursors over a decoded state. */
  lemma MemoryValuesAnswers(F: Floats, d: N.Counters, from: u64, to: u64, out: seq<(u64, u64)>)
    requires Timely(d.buckets, N.BucketTime) && Timely(d.rows, P.RowTime)
    requires out == Sums(F, Grouped(ByTimes(), Passed(Feeds(), d.buckets, d.rows, from, to)))
    ensures Summed(F, d, from, to, out)
  {
    hide Timely, InMemory, Grouped, Sums, Summed, Passed;
    TimelyWindow(d, from, to);
    WindowSummed(F, d, from, to);
  }

  // ----- The sums behind all pairs -----

  function Behind(d: N.Counters, out: seq<(u64, u64)>): nat {
    if out == [] then 0 else CountedAt(d, out[0].0) + Behind(d, out[1..])
  }

  /** The first row, or the first bucket, and all others. */
  lemma {:induction false} BehindRow(bs: seq<N.CounterBucket>, rows: seq<Row>, out: seq<(u64, u64)>)
    requires rows != []
    ensures Behind(N.Counters(rows, bs), out) == Behind(N.Counters([rows[0]], []), out) + Behind(N.Counters(rows[1..], bs), out)
  {
    if out != [] {
      hide CountedAt;
      BehindRow(bs, rows, out[1..]);
      CountedHead(bs, rows, out[0].0);
    }
  }

  lemma {:induction false} BehindBucket(bs: seq<N.CounterBucket>, rows: seq<Row>, out: seq<(u64, u64)>)
    requires bs != []
    ensures Behind(N.Counters(rows, bs), out) == Behind(N.Counters([], [bs[0]]), out) + Behind(N.Counters(rows, bs[1..]), out)
  {
    if out != [] {
      hide CountedAt;
      BehindBucket(bs, rows, out[1..]);
      CountedHead(bs, rows, out[0].0);
    }
  }

  lemma CountedHead(bs: seq<N.CounterBucket>, rows: seq<Row>, t: u64)
    ensures rows != [] ==> CountedAt(N.Counters(rows, bs), t) ==
                           CountedAt(N.Counters([rows[0]], []), t) + CountedAt(N.Counters(rows[1..], bs), t)
    ensures bs != [] ==> CountedAt(N.Counters(rows, bs), t) ==
                         CountedAt(N.Counters([], [bs[0]]), t) + CountedAt(N.Counters(rows, bs[1..]), t)
  {
    if rows != [] { CountedOne(rows[0], N.CounterBucket(0, 0), t); }
    if bs != [] { CountedOne(Row(0, 0, 0, 0), bs[0], t); }
  }

  ghost predicate Listed(out: seq<(u64, u64)>, t: u64) { exists i :: 0 <= i < |out| && out[i].0 == t }

  predicate InOrder(out: seq<(u64, u64)>) { forall i, j :: 0 <= i < j < |out| ==> out[i].0 < out[j].0 }

  lemma ListedHead(out: seq<(u64, u64)>, t: u64)
    requires out != [] && InOrder(out)
    ensures InOrder(out[1..])
    ensures Listed(out, t) <==> out[0].0 == t || Listed(out[1..], t)
    ensures out[0].0 == t ==> !Listed(out[1..], t)
  {
    var rest := out[1..];
    forall i | 0 <= i < |rest|
      ensures rest[i] == out[i + 1] && out[0].0 < rest[i].0
    {
      assert out[0].0 < out[i + 1].0;
    }
    if i :| 0 <= i < |out| && out[i].0 == t && i > 0 {
      assert rest[i - 1].0 == t;
    }
    if i :| 0 <= i < |rest| && rest[i].0 == t {
      assert out[i + 1].0 == t;
    }
  }

  /** What is counted at one time is behind the one pair of that time. */
  lemma {:induction false} BehindOne(d: N.Counters, out: seq<(u64, u64)>, t: u64)
    requires InOrder(out) && forall u: u64 :: u != t ==> CountedAt(d, u) == 0
    ensures Behind(d, out) == if Listed(out, t) then CountedAt(d, t) else 0
  {
    hide CountedAt, Listed, InOrder;
    if out == [] {
      NothingListed(out, t);
    } else {
      ListedHead(out, t);
      BehindOne(d, out[1..], t);
    }
  }

  lemma NothingListed(out: seq<(u64, u64)>, t: u64)
    requires out == []
    ensures !Listed(out, t)
  {
  }

  lemma {:induction false} NothingBehind(out: seq<(u64, u64)>)
    ensures Behind(N.Counters([], []), out) == 0
  {
    if out != [] {
      NothingBehind(out[1..]);
    }
  }

  /** If every time is listed once, everything is behind the pairs. */
  lemma {:induction false} BehindAll(bs: seq<N.CounterBucket>, rows: seq<Row>, out: seq<(u64, u64)>)
    requires InOrder(out)
    requires (forall r :: r in rows ==> Listed(out, r.time)) && forall b :: b in bs ==> Listed(out, b.time)
    ensures Behind(N.Counters(rows, bs), out) == N.RowTotal(rows) + N.BucketTotal(bs)
    decreases |rows| + |bs|
  {
    hide Listed, InOrder, Behind;
    if rows != [] {
      assert forall r :: r in rows[1..] ==> r in rows;
      BehindAll(bs, rows[1..], out);
      BehindRow(bs, rows, out);
      OneRow(rows[0], out);
      RowsHead(rows);
    } else if bs != [] {
      assert forall b :: b in bs[1..] ==> b in bs;
      BehindAll(bs[1..], rows, out);
      BehindBucket(bs, rows, out);
      OneBucket(bs[0], out);
      BucketsHead(bs);
    } else {
      NothingBehind(out);
    }
  }

  lemma CountedOne(r: Row, b: N.CounterBucket, t: u64)
    ensures CountedAt(N.Counters([r], []), t) == if t == r.time then r.value else 0
    ensures CountedAt(N.Counters([], [b]), t) == if t == b.time then b.sum else 0
  {
    assert [r][1..] == [] && [b][1..] == [];
    assert AddsAt([], t) == 0 && BucketsAt([], t) == 0;
  }

  lemma {:induction false} OneRow(r: Row, out: seq<(u64, u64)>)
    requires InOrder(out) && Listed(out, r.time)
    ensures Behind(N.Counters([r], []), out) == r.value
  {
    hide Listed, InOrder, Behind, CountedAt;
    var d := N.Counters([r], []);
    forall u: u64
      ensures CountedAt(d, u) == if u == r.time then r.value else 0
    {
      CountedOne(r, N.CounterBucket(0, 0), u);
    }
    BehindOne(d, out, r.time);
  }

  lemma {:induction false} OneBucket(b: N.CounterBucket, out: seq<(u64, u64)>)
    requires InOrder(out) && Listed(out, b.time)
    ensures Behind(N.Counters([], [b]), out) == b.sum
  {
    hide Listed, InOrder, Behind, CountedAt;
    var d := N.Counters([], [b]);
    forall u: u64
      ensures CountedAt(d, u) == if u == b.time then b.sum else 0
    {
      CountedOne(Row(0, 0, 0, 0), b, u);
    }
    BehindOne(d, out, b.time);
  }

  lemma {:induction false} RowsHead(rows: seq<Row>)
    requires rows != []
    ensures N.RowTotal(rows) == rows[0].value + N.RowTotal(rows[1..])
  {
    if |rows| > 1 {
      var front := rows[..|rows| - 1];
      RowsHead(front);
      assert rows[1..][..|rows| - 2] == front[1..];
    }
  }

  lemma {:induction false} BucketsHead(bs: seq<N.CounterBucket>)
    requires bs != []
    ensures N.BucketTotal(bs) == bs[0].sum + N.BucketTotal(bs[1..])
  {
    if |bs| > 1 {
      var front := bs[..|bs| - 1];
      BucketsHead(front);
      assert bs[1..][..|bs| - 2] == front[1..];
    }
  }

  /** Over all times, the sums behind the pairs add up to everything the state has counted. */
  lemma AllCounted(F: Floats, d: N.Counters, out: seq<(u64, u64)>)
    requires Summed(F, d, 0, W - 1, out)
    ensures Behind(d, out) % W == N.Counted(d)
  {
    hide CountedAt, N.RowTotal, N.BucketTotal, Summed, Listed, InOrder, Behind, HasTime;
    forall r | r in d.rows ensures Listed(out, r.time) { TimeListed(F, d, out, r.time); }
    forall b | b in d.buckets ensures Listed(out, b.time) { TimeListed(F, d, out, b.time); }
    SummedInOrder(F, d, out);
    BehindAll(d.buckets, d.rows, out);
  }

  lemma TimeListed(F: Floats, d: N.Counters, out: seq<(u64, u64)>, t: u64)
    requires Summed(F, d, 0, W - 1, out)
    ensures (exists r :: r in d.rows && r.time == t) || (exists b :: b in d.buckets && b.time == t) ==> Listed(out, t)
  {
  }

  lemma SummedInOrder(F: Floats, d: N.Counters, out: seq<(u64, u64)>)
    requires Summed(F, d, 0, W - 1, out)
    ensures InOrder(out)
  {
  }

  // ----- By output bucket -----

  /** Every add and every bucket sum is one value. */
  function OneValue(F: Floats): Amount -> seq<u64> { (e: Amount) => [F.ofUint(e.value)] }

  function Into(span: u64): Amount -> u64 { (e: Amount) => BucketOf(e.at, span) }

  lemma AmountsAnswered(F: Floats, es: seq<Amount>, span: u64, agg: Agg)
    requires Timely(es, TimeOf)
    ensures Answered(F, es, Into(span), OneValue(F), agg, R.Valued(F, Grouped(ByBucket(F, span), es), agg))
  {
    hide BucketOf, FoldCame, Added, Timely, Grouped, KeysInOrder, Answered;
    GroupKeysInOrder(F, span, es);
    FoldLaws(F, span);
    forall e | e in es
      ensures AddsValues(F, ByBucket(F, span), e, OneValue(F))
    {
      forall f, vs | FoldCame(F, f, vs)
        ensures FoldCame(F, AddAmount(F, f, e), vs + [F.ofUint(e.value)])
      {
        FoldAdds(F, f, vs, F.ofUint(e.value));
      }
    }
    RangeAnswered(F, ByBucket(F, span), es, Into(span), OneValue(F), agg);
  }

  /** Every aggregate that streaming a series reports is that of the adds and bucket sums in each output
      bucket of the window. */
  lemma CounterRangeAnswers(F: Floats, s: bytes, blocks: seq<Block>, from: u64, to: u64, span: u64, agg: Agg,
                            out: seq<(u64, u64)>, error: Option<Error>) returns (es: seq<Amount>)
    requires Flows(s, blocks) && Ranges(F, s, from, to, span, agg, out, error)
    ensures var d := AbsorbAll(EMPTY, blocks).counters; WindowOf(Feeds(), d.buckets, d.rows, from, to, es)
    ensures error.None? && Answered(F, es, Into(span), OneValue(F), agg, out)
  {
    hide AbsorbAll, Timely, InMemory, Report, AscendingKeys, Flows, Streamed, Grouped, R.Valued, Passed, Answered, WindowOf;
    var d := AbsorbAll(EMPTY, blocks).counters;
    es := InMemory(d, from, to);
    FlowsTimely(s, blocks);
    TimelyWindow(d, from, to);
    CounterRangesAgree(F, s, blocks, from, to, span);
    AmountsAnswered(F, es, span, agg);
  }

  /** And so do the cursors over a decoded state. */
  lemma MemoryRangeAnswers(F: Floats, d: N.Counters, from: u64, to: u64, span: u64, agg: Agg) returns (es: seq<Amount>)
    requires Timely(d.buckets, N.BucketTime) && Timely(d.rows, P.RowTime)
    ensures WindowOf(Feeds(), d.buckets, d.rows, from, to, es)
    ensures Answered(F, es, Into(span), OneValue(F), agg, R.Valued(F, Grouped(ByBucket(F, span), InMemory(d, from, to)), agg))
  {
    hide Timely, InMemory, Grouped, R.Valued, Passed, Answered, WindowOf;
    es := InMemory(d, from, to);
    TimelyWindow(d, from, to);
    AmountsAnswered(F, es, span, agg);
  }
}
