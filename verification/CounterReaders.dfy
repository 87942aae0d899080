/** Reading counters: sums per time or aggregates per bucket, from a stored series or a decoded state. */
module CounterReaders {
  import opened Words
  import opened Varint
  import opened Reader
  import opened FloatModel
  import opened Rows
  import opened Pendings
  import opened Blocks
  import opened BlockCodec
  import opened Segments
  import opened Appending
  import opened AppendLaws
  import opened Runs
  import opened Streams
  import opened Interleavings
  import opened Aggregates
  import P = SampleState
  import N = CounterState
  import R = SampleReaders
  import Y = SampleMemory

  /** What a reader meets: one raw add, or the sum of a compacted bucket. */
  datatype Amount = Amount(at: u64, value: u64, raw: bool)

  function TimeOf(e: Amount): u64 { e.at }

  /** The open sum of one time. */
  datatype Tally = Tally(have: bool, sum: u64)

  /** Adds with the same time are summed modulo 2^64. */
  function ByTimes(): Grouping<Amount, Tally> {
    Grouping(TimeOf, (t: Tally, e: Amount) => Tally(true, Add(t.sum, e.value)), Tally(false, 0), (t: Tally) => t.have)
  }

  function AddAmount(F: Floats, f: Fold, e: Amount): Fold { Added(F, f, F.ofUint(e.value)) }

  /** Every add and every bucket is one value of the aggregate. */
  function ByBucket(F: Floats, span: u64): Grouping<Amount, Fold> {
    Grouping((e: Amount) => BucketOf(e.at, span), (f: Fold, e: Amount) => AddAmount(F, f, e), NO_FOLD,
             (f: Fold) => f.count > 0)
  }

  lemma GroupingLaws(F: Floats, span: u64)
    ensures Laws(ByTimes()) && Laws(ByBucket(F, span))
  {
    TallyLaws();
    FoldLaws(F, span);
  }

  lemma TallyLaws()
    ensures Laws(ByTimes())
  {
  }

  lemma FoldLaws(F: Floats, span: u64)
    ensures Laws(ByBucket(F, span))
  {
  }

  function Sums(F: Floats, out: seq<(u64, Tally)>): (vs: seq<(u64, u64)>)
    ensures |vs| == |out|
  {
    seq(|out|, i requires 0 <= i < |out| => (out[i].0, F.ofUint(out[i].1.sum)))
  }

  // ----- Opening segments -----

  function Adds(times: seq<u64>, values: seq<u64>): (es: seq<Amount>)
    requires |times| == |values|
    ensures |es| == |times|
  {
    seq(|times|, i requires 0 <= i < |times| => Amount(times[i], values[i], true))
  }

  function Totals(bs: seq<N.CounterBucket>): (es: seq<Amount>)
    ensures |es| == |bs|
  {
    seq(|bs|, i requires 0 <= i < |bs| => Amount(bs[i].time, bs[i].sum, false))
  }

  function OpenCounters(x: Segment): Result<seq<Amount>> {
    if x.kind != 2 && x.kind != 4 then Ok([])
    else if |x.data| != x.rawLen then Err(Short)
    else if x.kind == 2 then
      match CounterPrefix(x.data, x.count)
      case Err(e) => Err(e)
      case Ok(columns) => Ok(Adds(columns.0, columns.1))
    else
      match WholeWords(x.data, 2 * x.count)
      case Err(e) => Err(e)
      case Ok(ws) => Ok(Totals(SumsOf(ws, x.count)))
  }

  method Open(x: Segment) returns (r: Result<seq<Amount>>)
    ensures r == OpenCounters(x)
  {
    hide CounterPrefix, WholeWords, SumsOf;
    if x.kind != 2 && x.kind != 4 {
      return Ok([]);
    }
    if |x.data| != x.rawLen {
      return Err(Short);
    }
    if x.kind == 2 {
      var columns := DecodeCounterValues(x.data, x.count);
      return if columns.Ok? then Ok(Adds(columns.value.0, columns.value.1)) else Err(columns.error);
    }
    var bs := DecodeCounterBuckets(x.data, x.count);
    r := if bs.Ok? then Ok(Totals(bs.value)) else Err(bs.error);
  }

  // ----- Adding entries, with the groups they close -----

  /** The locals of a reader without a span agree with a run. */
  ghost predicate Tallied(F: Floats, run: Run<Tally>, current: u64, have: bool, sum: u64, out: seq<(u64, u64)>) {
    run.current == current && run.acc == Tally(have, sum) && out == Sums(F, run.out)
  }

  method AddTally(F: Floats, e: Amount, current: u64, have: bool, sum: u64, out: seq<(u64, u64)>, ghost run: Run<Tally>)
    returns (current': u64, have': bool, sum': u64, out': seq<(u64, u64)>)
    requires Tallied(F, run, current, have, sum, out)
    ensures Tallied(F, Step(ByTimes(), run, e), current', have', sum', out')
  {
    have', sum', out' := have, sum, out;
    if have && e.at != current {
      out' := out + [(current, F.ofUint(sum))];
      have', sum' := false, 0;
    }
    current', have' := e.at, true;
    sum' := Add(sum', e.value);
  }

  method FlushTally(F: Floats, current: u64, have: bool, sum: u64, out: seq<(u64, u64)>, ghost run: Run<Tally>)
    returns (out': seq<(u64, u64)>)
    requires Tallied(F, run, current, have, sum, out)
    ensures out' == Sums(F, Flush(ByTimes(), run))
  {
    out' := if have then out + [(current, F.ofUint(sum))] else out;
  }

  ghost predicate Folded(F: Floats, agg: Agg, run: Run<Fold>, current: u64, f: Fold, out: seq<(u64, u64)>) {
    run.current == current && run.acc == f && out == R.Valued(F, run.out, agg)
  }

  method AddFold(F: Floats, span: u64, agg: Agg, e: Amount, f: Accumulator, current: u64, out: seq<(u64, u64)>, ghost run: Run<Fold>)
    returns (current': u64, out': seq<(u64, u64)>)
    requires Folded(F, agg, run, current, f.View(), out)
    modifies f
    ensures Folded(F, agg, Step(ByBucket(F, span), run, e), current', f.View(), out')
  {
    hide Added, BucketOf, ValueOf;
    var k := BucketOf(e.at, span);
    out' := out;
    if f.count > 0 && k != current {
      out' := out + [(current, ValueOf(F, f.View(), agg))];
      f.Reset();
    }
    current' := k;
    f.Add(F, F.ofUint(e.value));
  }

  method FlushFold(F: Floats, span: u64, agg: Agg, f: Accumulator, current: u64, out: seq<(u64, u64)>, ghost run: Run<Fold>)
    returns (out': seq<(u64, u64)>)
    requires Folded(F, agg, run, current, f.View(), out)
    ensures out' == R.Valued(F, Flush(ByBucket(F, span), run), agg)
  {
    hide ValueOf;
    out' := if f.count > 0 then out + [(current, ValueOf(F, f.View(), agg))] else out;
  }

  // ----- The streaming readers -----

  /** What `counterValues` yields, and its error. */
  ghost predicate Lists(F: Floats, s: bytes, from: u64, to: u64, out: seq<(u64, u64)>, error: Option<Error>) {
    var y := Streamed(ByTimes(), s, OpenCounters, TimeOf, from, to);
    out == Sums(F, y.out) && error == y.error
  }

  /** What `counterRange` yields with a positive span, and its error. */
  ghost predicate Ranges(F: Floats, s: bytes, from: u64, to: u64, span: u64, agg: Agg, out: seq<(u64, u64)>, error: Option<Error>) {
    var y := Streamed(ByBucket(F, span), s, OpenCounters, TimeOf, from, to);
    out == R.Valued(F, y.out, agg) && error == y.error
  }

  lemma WindowStep(seen: seq<Amount>, es: seq<Amount>, i: nat, from: u64, to: u64)
    requires i < |es|
    ensures seen + Between(es[..i + 1], TimeOf, from, to) ==
            if from <= es[i].at <= to then seen + Between(es[..i], TimeOf, from, to) + [es[i]]
            else seen + Between(es[..i], TimeOf, from, to)
  {
    hide Between;
    assert es[..i + 1] == es[..i] + [es[i]];
    BetweenSnoc(es[..i], es[i], TimeOf, from, to);
    var w := Between(es[..i], TimeOf, from, to);
    assert seen + (w + []) == seen + w && seen + (w + [es[i]]) == seen + w + [es[i]];
  }

  lemma WindowStart(seen: seq<Amount>, es: seq<Amount>, from: u64, to: u64)
    ensures seen + Between(es[..0], TimeOf, from, to) == seen
    ensures es[..|es|] == es
  {
  }

  lemma NothingRead(F: Floats, span: u64, agg: Agg, from: u64, to: u64)
    ensures RunAll(ByTimes(), []) == Run([], 0, Tally(false, 0)) && RunAll(ByBucket(F, span), []) == Run([], 0, NO_FOLD)
    ensures R.Valued(F, [], agg) == [] && Sums(F, []) == []
    ensures ReadAll([], OpenCounters, TimeOf, from, to) == Read([], None)
    ensures Flush(ByTimes(), RunAll(ByTimes(), [])) == [] && Flush(ByBucket(F, span), RunAll(ByBucket(F, span), [])) == []
  {
  }

  /** `counterValues`. */
  method CounterValues(F: Floats, s: bytes, from: u64, to: u64) returns (out: seq<(u64, u64)>, error: Option<Error>)
    ensures Lists(F, s, from, to, out, error)
  {
    hide Scan, ReadSegment, OpenCounters, RunAll, Step, ByTimes, ReadAll, Sums;
    out := [];
    NothingRead(F, 0, Sum, from, to);
    if |s| == 0 {
      return out, None;
    }
    if s[0] != VERSION {
      return out, Some(Version);
    }
    var reader := new CodecReader(s[1..]);
    var current, have, sum := 0, false, 0;
    ghost var seen, entries: seq<Amount>, run := [], [], RunAll(ByTimes(), []);
    ScanStart(s[1..]);
    while |reader.data| > 0
      invariant reader.err.None? && ScanAt(Scan(s[1..]), seen, reader.data)
      invariant ReadAll(seen, OpenCounters, TimeOf, from, to) == Read(entries, None)
      invariant run == RunAll(ByTimes(), entries) && Tallied(F, run, current, have, sum, out)
      decreases |reader.data|
    {
      ScanStep(Scan(s[1..]), seen, reader.data);
      var x := NextSegment(reader);
      if x.Err? {
        return out, Some(x.error);
      }
      ReadAllSnoc(seen, x.value, OpenCounters, TimeOf, from, to);
      seen := seen + [x.value];
      if x.value.to < from || x.value.from > to {
        continue;
      }
      var es := Open(x.value);
      if es.Err? {
        assert Scan(s[1..]).segments[..|seen|] == seen;
        ReadFails(Scan(s[1..]).segments, |seen|, OpenCounters, TimeOf, from, to);
        return out, Some(es.error);
      }
      current, have, sum, out, run := FeedTally(F, es.value, from, to, current, have, sum, out, entries, run);
      entries := entries + Between(es.value, TimeOf, from, to);
    }
    ScanEnd(Scan(s[1..]), seen);
    out := FlushTally(F, current, have, sum, out, run);
    error := None;
  }

  method FeedTally(F: Floats, es: seq<Amount>, from: u64, to: u64, current: u64, have: bool, sum: u64, out: seq<(u64, u64)>,
                   ghost seen: seq<Amount>, ghost run: Run<Tally>)
    returns (current': u64, have': bool, sum': u64, out': seq<(u64, u64)>, ghost run': Run<Tally>)
    requires run == RunAll(ByTimes(), seen) && Tallied(F, run, current, have, sum, out)
    ensures run' == RunAll(ByTimes(), seen + Between(es, TimeOf, from, to)) && Tallied(F, run', current', have', sum', out')
  {
    hide RunAll, Step, ByTimes, Sums, Between, Tallied;
    current', have', sum', out', run' := current, have, sum, out, run;
    WindowStart(seen, es, from, to);
    for i := 0 to |es|
      invariant run' == RunAll(ByTimes(), seen + Between(es[..i], TimeOf, from, to))
      invariant Tallied(F, run', current', have', sum', out')
    {
      var e := es[i];
      WindowStep(seen, es, i, from, to);
      if e.at < from || e.at > to {
        continue;
      }
      RunSnoc(ByTimes(), seen + Between(es[..i], TimeOf, from, to), e);
      current', have', sum', out' := AddTally(F, e, current', have', sum', out', run');
      run' := Step(ByTimes(), run', e);
    }
  }

  /** `counterRange`. */
  method CounterRange(F: Floats, s: bytes, from: u64, to: u64, span: u64, agg: Agg)
    returns (out: seq<(u64, u64)>, error: Option<Error>)
    ensures if span == 0 then Lists(F, s, from, to, out, error) else Ranges(F, s, from, to, span, agg, out, error)
  {
    if span == 0 {
      out, error := CounterValues(F, s, from, to);
    } else {
      out, error := SpanRange(F, s, from, to, span, agg);
    }
  }

  /** Its loop. */
  method SpanRange(F: Floats, s: bytes, from: u64, to: u64, span: u64, agg: Agg)
    returns (out: seq<(u64, u64)>, error: Option<Error>)
    ensures Ranges(F, s, from, to, span, agg, out, error)
  {
    hide Scan, ReadSegment, OpenCounters, RunAll, Step, ByBucket, ReadAll, R.Valued;
    out := [];
    NothingRead(F, span, agg, from, to);
    if |s| == 0 {
      return out, None;
    }
    if s[0] != VERSION {
      return out, Some(Version);
    }
    var reader := new CodecReader(s[1..]);
    var f := new Accumulator();
    var current := 0;
    ghost var seen, entries: seq<Amount>, run := [], [], RunAll(ByBucket(F, span), []);
    ScanStart(s[1..]);
    while |reader.data| > 0
      invariant reader.err.None? && ScanAt(Scan(s[1..]), seen, reader.data)
      invariant ReadAll(seen, OpenCounters, TimeOf, from, to) == Read(entries, None)
      invariant run == RunAll(ByBucket(F, span), entries) && Folded(F, agg, run, current, f.View(), out)
      decreases |reader.data|
    {
      ScanStep(Scan(s[1..]), seen, reader.data);
      var x := NextSegment(reader);
      if x.Err? {
        return out, Some(x.error);
      }
      ReadAllSnoc(seen, x.value, OpenCounters, TimeOf, from, to);
      seen := seen + [x.value];
      if x.value.to < from || x.value.from > to {
        continue;
      }
      var es := Open(x.value);
      if es.Err? {
        assert Scan(s[1..]).segments[..|seen|] == seen;
        ReadFails(Scan(s[1..]).segments, |seen|, OpenCounters, TimeOf, from, to);
        return out, Some(es.error);
      }
      current, out, run := FeedFold(F, span, agg, es.value, from, to, f, current, out, entries, run);
      entries := entries + Between(es.value, TimeOf, from, to);
    }
    ScanEnd(Scan(s[1..]), seen);
    out := FlushFold(F, span, agg, f, current, out, run);
    error := None;
  }

  method FeedFold(F: Floats, span: u64, agg: Agg, es: seq<Amount>, from: u64, to: u64, f: Accumulator, current: u64,
                  out: seq<(u64, u64)>, ghost seen: seq<Amount>, ghost run: Run<Fold>)
    returns (current': u64, out': seq<(u64, u64)>, ghost run': Run<Fold>)
    requires run == RunAll(ByBucket(F, span), seen) && Folded(F, agg, run, current, f.View(), out)
    modifies f
    ensures run' == RunAll(ByBucket(F, span), seen + Between(es, TimeOf, from, to))
    ensures Folded(F, agg, run', current', f.View(), out')
  {
    hide RunAll, Step, ByBucket, R.Valued, Between, Folded;
    current', out', run' := current, out, run;
    WindowStart(seen, es, from, to);
    for i := 0 to |es|
      invariant run' == RunAll(ByBucket(F, span), seen + Between(es[..i], TimeOf, from, to))
      invariant Folded(F, agg, run', current', f.View(), out')
    {
      var e := es[i];
      WindowStep(seen, es, i, from, to);
      if e.at < from || e.at > to {
        continue;
      }
      RunSnoc(ByBucket(F, span), seen + Between(es[..i], TimeOf, from, to), e);
      current', out' := AddFold(F, span, agg, e, f, current', out', run');
      run' := Step(ByBucket(F, span), run', e);
    }
  }

  // ----- The readers of a decoded state -----

  function AddOf(r: Row): Amount { Amount(r.time, r.value, true) }

  function TotalOf(b: N.CounterBucket): Amount { Amount(b.time, b.sum, false) }

  function BucketsOfBlock(b: Block): seq<N.CounterBucket> { if b.CounterBucketBlock? then b.counters else [] }

  function RowsOfBlock(b: Block): seq<Row> { if b.CounterBlock? then b.rows else [] }

  function IsAdd(e: Amount): bool { e.raw }

  function Feeds(): Source<N.CounterBucket, Row, Amount> {
    Source(1, BucketsOfBlock, RowsOfBlock, N.BucketTime, P.RowTime, TotalOf, AddOf, TimeOf, IsAdd)
  }

  function InMemory(d: N.Counters, from: u64, to: u64): seq<Amount> { Visited(Feeds(), d.buckets, d.rows, from, to) }

  lemma FeedsLabels()
    ensures Labels(Feeds())
  {
  }

  lemma SeenSnoc(seen: seq<Amount>, e: Amount, rest: seq<Amount>)
    ensures seen + ([e] + rest) == (seen + [e]) + rest
    ensures seen + [] == seen && [] + rest == rest
  {
  }

  lemma StartPassed(d: N.Counters, from: u64, to: u64)
    ensures Passed(Feeds(), d.buckets, d.rows, from, to) ==
            TakeTo(Interleave(Feeds(), SkipTo(d.buckets, N.BucketTime, from), SkipTo(d.rows, P.RowTime, from)), TimeOf, to)
    ensures InMemory(d, from, to) ==
            Interleave(Feeds(), TakeTo(SkipTo(d.buckets, N.BucketTime, from), N.BucketTime, to),
                       TakeTo(SkipTo(d.rows, P.RowTime, from), P.RowTime, to))
  {
  }

  /** What is left of `all` when `seen` has been passed. */
  ghost predicate ToPass(d: N.Counters, bucket: nat, item: nat, to: u64, seen: seq<Amount>, all: seq<Amount>)
    requires bucket <= |d.buckets| && item <= |d.rows|
  {
    all == seen + TakeTo(Interleave(Feeds(), d.buckets[bucket..], d.rows[item..]), TimeOf, to)
  }

  /** One turn of the loop of `values`. */
  lemma PassOne(d: N.Counters, bucket: nat, item: nat, to: u64, seen: seq<Amount>, all: seq<Amount>)
    requires bucket <= |d.buckets| && item <= |d.rows| && (bucket < |d.buckets| || item < |d.rows|)
    requires ToPass(d, bucket, item, to, seen, all)
    ensures var takeBucket := item >= |d.rows| || (bucket < |d.buckets| && d.buckets[bucket].time <= d.rows[item].time);
            var e := if takeBucket then TotalOf(d.buckets[bucket]) else AddOf(d.rows[item]);
            var i, j := if takeBucket then bucket + 1 else bucket, if takeBucket then item else item + 1;
            if e.at > to then all == seen else ToPass(d, i, j, to, seen + [e], all)
  {
    FeedsLabels();
    hide Interleave, TakeTo;
    NextPassed(Feeds(), d.buckets, d.rows, bucket, item, to);
    assert seen + [] == seen;
    var takeBucket := item >= |d.rows| || (bucket < |d.buckets| && d.buckets[bucket].time <= d.rows[item].time);
    var e := if takeBucket then TotalOf(d.buckets[bucket]) else AddOf(d.rows[item]);
    var i, j := if takeBucket then bucket + 1 else bucket, if takeBucket then item else item + 1;
    SeenSnoc(seen, e, TakeTo(Interleave(Feeds(), d.buckets[i..], d.rows[j..]), TimeOf, to));
  }

  /** `values`. */
  method ReadValues(F: Floats, d: N.Counters, from: u64, to: u64) returns (out: seq<(u64, u64)>)
    ensures out == Sums(F, Grouped(ByTimes(), Passed(Feeds(), d.buckets, d.rows, from, to)))
  {
    hide RunAll, Step, ByTimes, Sums, SkipTo, TakeTo, Interleave, Tallied, Passed, Feeds, ToPass, AddOf, TotalOf;
    var current, have, sum := 0, false, 0;
    out := [];
    var bucket: nat := Skip(d.buckets, N.BucketTime, from);
    var item: nat := Skip(d.rows, P.RowTime, from);
    ghost var all, seen: seq<Amount>, run := Passed(Feeds(), d.buckets, d.rows, from, to), [], RunAll(ByTimes(), []);
    StartTally(F);
    StartToPass(d, from, to, bucket, item);
    while bucket < |d.buckets| || item < |d.rows|
      invariant bucket <= |d.buckets| && item <= |d.rows|
      invariant ToPass(d, bucket, item, to, seen, all)
      invariant run == RunAll(ByTimes(), seen) && Tallied(F, run, current, have, sum, out)
      decreases |d.buckets| - bucket + |d.rows| - item
    {
      PassOne(d, bucket, item, to, seen, all);
      var takeBucket := item >= |d.rows| || (bucket < |d.buckets| && d.buckets[bucket].time <= d.rows[item].time);
      var e := if takeBucket then TotalOf(d.buckets[bucket]) else AddOf(d.rows[item]);
      if e.at > to {
        out := FlushTally(F, current, have, sum, out, run);
        return;
      }
      RunSnoc(ByTimes(), seen, e);
      current, have, sum, out := AddTally(F, e, current, have, sum, out, run);
      run, seen := Step(ByTimes(), run, e), seen + [e];
      if takeBucket {
        bucket := bucket + 1;
      } else {
        item := item + 1;
      }
    }
    EndPassed(d, to, seen, all);
    out := FlushTally(F, current, have, sum, out, run);
  }

  lemma StartToPass(d: N.Counters, from: u64, to: u64, bucket: nat, item: nat)
    requires bucket <= |d.buckets| && item <= |d.rows|
    requires d.buckets[bucket..] == SkipTo(d.buckets, N.BucketTime, from) && d.rows[item..] == SkipTo(d.rows, P.RowTime, from)
    ensures ToPass(d, bucket, item, to, [], Passed(Feeds(), d.buckets, d.rows, from, to))
  {
    hide SkipTo, TakeTo, Interleave;
    var all := Passed(Feeds(), d.buckets, d.rows, from, to);
    assert [] + all == all;
  }

  lemma EndPassed(d: N.Counters, to: u64, seen: seq<Amount>, all: seq<Amount>)
    requires ToPass(d, |d.buckets|, |d.rows|, to, seen, all)
    ensures all == seen
  {
    NothingPassed(Feeds(), d.buckets[|d.buckets|..], d.rows[|d.rows|..], to);
    assert seen + [] == seen;
  }

  lemma StartTally(F: Floats)
    ensures Tallied(F, RunAll(ByTimes(), []), 0, false, 0, [])
  {
    NothingRead(F, 0, Sum, 0, 0);
  }

  lemma StartFold(F: Floats, span: u64, agg: Agg)
    ensures Folded(F, agg, RunAll(ByBucket(F, span), []), 0, NO_FOLD, [])
  {
    NothingRead(F, span, agg, 0, 0);
  }

  /** What is left of `all` when `seen` has been visited. */
  ghost predicate ToVisit(d: N.Counters, bucket: nat, item: nat, to: u64, seen: seq<Amount>, all: seq<Amount>)
    requires bucket <= |d.buckets| && item <= |d.rows|
  {
    all == seen + Interleave(Feeds(), TakeTo(d.buckets[bucket..], N.BucketTime, to), TakeTo(d.rows[item..], P.RowTime, to))
  }

  lemma StartToVisit(d: N.Counters, from: u64, to: u64, bucket: nat, item: nat)
    requires bucket <= |d.buckets| && item <= |d.rows|
    requires d.buckets[bucket..] == SkipTo(d.buckets, N.BucketTime, from) && d.rows[item..] == SkipTo(d.rows, P.RowTime, from)
    ensures ToVisit(d, bucket, item, to, [], InMemory(d, from, to))
  {
    hide SkipTo, TakeTo, Interleave;
    StartPassed(d, from, to);
    var all := InMemory(d, from, to);
    assert [] + all == all;
  }

  /** One turn of the loop of `rangeValues`. */
  lemma VisitOne(d: N.Counters, bucket: nat, item: nat, to: u64, seen: seq<Amount>, all: seq<Amount>)
    requires bucket <= |d.buckets| && item <= |d.rows| && ToVisit(d, bucket, item, to, seen, all)
    ensures var hasBucket := bucket < |d.buckets| && d.buckets[bucket].time <= to;
            var hasItem := item < |d.rows| && d.rows[item].time <= to;
            var takeBucket := !hasItem || (hasBucket && d.buckets[bucket].time <= d.rows[item].time);
            var i, j := if takeBucket then bucket + 1 else bucket, if takeBucket then item else item + 1;
            if !hasBucket && !hasItem then all == seen
            else ToVisit(d, i, j, to, seen + [if takeBucket then TotalOf(d.buckets[bucket]) else AddOf(d.rows[item])], all)
  {
    hide Interleave, TakeTo;
    NextVisited(Feeds(), d.buckets, d.rows, bucket, item, to);
  }

  /** `rangeValues`. */
  method RangeValues(F: Floats, d: N.Counters, from: u64, to: u64, span: u64, agg: Agg) returns (out: seq<(u64, u64)>)
    ensures out == if span == 0 then Sums(F, Grouped(ByTimes(), Passed(Feeds(), d.buckets, d.rows, from, to)))
                   else R.Valued(F, Grouped(ByBucket(F, span), InMemory(d, from, to)), agg)
  {
    if span == 0 {
      out := ReadValues(F, d, from, to);
    } else {
      out := SpanValues(F, d, from, to, span, agg);
    }
  }

  /** Its loop. */
  method SpanValues(F: Floats, d: N.Counters, from: u64, to: u64, span: u64, agg: Agg) returns (out: seq<(u64, u64)>)
    ensures out == R.Valued(F, Grouped(ByBucket(F, span), InMemory(d, from, to)), agg)
  {
    hide RunAll, Step, ByBucket, R.Valued, SkipTo, TakeTo, Interleave, Folded, InMemory, Feeds, ToVisit, AddOf, TotalOf;
    var f := new Accumulator();
    var current := 0;
    out := [];
    var bucket: nat := Skip(d.buckets, N.BucketTime, from);
    var item: nat := Skip(d.rows, P.RowTime, from);
    ghost var all, seen: seq<Amount>, run := InMemory(d, from, to), [], RunAll(ByBucket(F, span), []);
    StartFold(F, span, agg);
    StartToVisit(d, from, to, bucket, item);
    while true
      invariant bucket <= |d.buckets| && item <= |d.rows|
      invariant ToVisit(d, bucket, item, to, seen, all)
      invariant run == RunAll(ByBucket(F, span), seen) && Folded(F, agg, run, current, f.View(), out)
      decreases |d.buckets| - bucket + |d.rows| - item
    {
      var hasBucket := bucket < |d.buckets| && d.buckets[bucket].time <= to;
      var hasItem := item < |d.rows| && d.rows[item].time <= to;
      VisitOne(d, bucket, item, to, seen, all);
      if !hasBucket && !hasItem {
        break;
      }
      var takeBucket := !hasItem || (hasBucket && d.buckets[bucket].time <= d.rows[item].time);
      var e := if takeBucket then TotalOf(d.buckets[bucket]) else AddOf(d.rows[item]);
      RunSnoc(ByBucket(F, span), seen, e);
      current, out := AddFold(F, span, agg, e, f, current, out, run);
      run, seen := Step(ByBucket(F, span), run, e), seen + [e];
      if takeBucket {
        bucket := bucket + 1;
      } else {
        item := item + 1;
      }
    }
    out := FlushFold(F, span, agg, f, current, out, run);
  }

  // ----- Why they agree -----

  lemma BlockFeeds(b: Block)
    ensures Holds(Feeds(), b)
  {
    if b.CounterBlock? {
      forall r | r in b.rows ensures r.time in EntryTimes(b) {
        var i :| 0 <= i < |b.rows| && b.rows[i] == r;
        RowTimes(b.rows, i);
      }
    } else if b.CounterBucketBlock? {
      forall x | x in b.counters ensures x.time in EntryTimes(b) {
        var i :| 0 <= i < |b.counters| && b.counters[i] == x;
        TimesAt(b.counters, N.BucketTime, i);
      }
    }
  }

  lemma OpensAs(b: Block)
    requires Good(b) && (b.SketchBlock? ==> AllFinite(b.rows))
    ensures OpenCounters(SegmentOf(b)) == Ok(Entered(Feeds(), b))
  {
    BlockRoundTrip(b);
    hide Payload, Encodes, AllFinite, ReadBlock, EntryTimes, OpenCounters;
    var x := SegmentOf(b);
    if b.CounterBlock? {
      OpensRows(x, b);
    } else if b.CounterBucketBlock? {
      OpensBuckets(x, b);
    } else {
      OpensNothing(x, b);
    }
  }

  lemma OpensNothing(x: Segment, b: Block)
    requires x.kind == Kind(b) && !b.CounterBlock? && !b.CounterBucketBlock?
    ensures OpenCounters(x) == Ok(Entered(Feeds(), b))
  {
    assert Entered(Feeds(), b) == [];
  }

  lemma OpensRows(x: Segment, b: Block)
    requires x.kind == 2 && |x.data| == x.rawLen && b.CounterBlock? && x.count == |b.rows|
    requires ReadBlock(2, x.data, x.count) == Ok(b)
    ensures OpenCounters(x) == Ok(Entered(Feeds(), b))
  {
    AddsOfRows(b);
    hide CounterRows, CounterPrefix, WholeWords, Times, Values, Adds, Entered;
    PrefixAgrees(x.data, x.count);
  }

  lemma AddsOfRows(b: Block)
    requires b.CounterBlock?
    ensures Adds(Times(b.rows), Values(b.rows)) == Entered(Feeds(), b)
  {
    var es := Entered(Feeds(), b);
    assert |Feeds().buckets(b)| == 0 && Feeds().rows(b) == b.rows;
    forall i | 0 <= i < |b.rows|
      ensures es[i] == Adds(Times(b.rows), Values(b.rows))[i]
    {
      assert Map(b.rows, AddOf)[i] == AddOf(b.rows[i]);
    }
  }

  lemma TotalsOfBuckets(b: Block)
    requires b.CounterBucketBlock?
    ensures Totals(b.counters) == Entered(Feeds(), b)
  {
    var es := Entered(Feeds(), b);
    assert |Feeds().rows(b)| == 0 && Feeds().buckets(b) == b.counters;
    forall i | 0 <= i < |b.counters|
      ensures es[i] == Totals(b.counters)[i]
    {
      assert Map(b.counters, TotalOf)[i] == TotalOf(b.counters[i]);
    }
  }

  lemma OpensBuckets(x: Segment, b: Block)
    requires x.kind == 4 && |x.data| == x.rawLen && b.CounterBucketBlock? && x.count == |b.counters|
    requires ReadBlock(4, x.data, x.count) == Ok(b)
    ensures OpenCounters(x) == Ok(Entered(Feeds(), b))
  {
    TotalsOfBuckets(b);
    hide SumsOf, WholeWords, Totals, Entered;
  }

  lemma {:induction false} FeedsState(blocks: seq<Block>)
    ensures var d := AbsorbAll(EMPTY, blocks).counters;
            BucketsIn(Feeds(), blocks) == d.buckets && RowsIn(Feeds(), blocks) == d.rows
  {
    if blocks != [] {
      FeedsState(blocks[..|blocks| - 1]);
    }
  }

  lemma RowsTimely(rows: seq<Row>)
    requires Nondecreasing(rows)
    ensures Timely(rows, P.RowTime)
  {
    forall i, j | 0 <= i < j < |rows| ensures P.RowTime(rows[i]) <= P.RowTime(rows[j]) { assert rows[i].time <= rows[j].time; }
  }

  /** A stored series whose counter entries come out in time order. */
  ghost predicate Flows(s: bytes, blocks: seq<Block>) {
    Backed(s, blocks) && Timely(StreamOf(Feeds(), blocks), TimeOf)
  }

  lemma FeedsReady(s: bytes, blocks: seq<Block>)
    requires Backed(s, blocks)
    ensures Labels(Feeds()) && (forall b :: b in blocks ==> Holds(Feeds(), b)) && Opening(Feeds(), OpenCounters, blocks)
    ensures var d := AbsorbAll(EMPTY, blocks).counters;
            && BucketsIn(Feeds(), blocks) == d.buckets && RowsIn(Feeds(), blocks) == d.rows
            && Timely(d.buckets, N.BucketTime) && Timely(d.rows, P.RowTime)
  {
    hide AbsorbAll, AllReadable, Written, BucketsFirst, Labels, Holds, IncreasingBy, Timely, Good, OpenCounters, EntryTimes,
         BucketsIn, RowsIn, AllFinite, Entered;
    FeedsLabels();
    FeedsState(blocks);
    Y.SortedTimely(AbsorbAll(EMPTY, blocks).counters.buckets, N.BucketTime);
    RowsTimely(AbsorbAll(EMPTY, blocks).counters.rows);
    forall b | b in blocks
      ensures Good(b) && Holds(Feeds(), b) && Opens(b, OpenCounters, Enter(Feeds()), TimeOf)
    {
      Y.GoodReadable(blocks, b);
      BlockFeeds(b);
      OpensAs(b);
      forall e | e in Entered(Feeds(), b) ensures TimeOf(e) in EntryTimes(b) { EnteredAt(Feeds(), b, e); }
    }
  }

  /** The stored counters come out in the order of the two cursors exactly when they do not go back in time. */
  lemma CounterOrder(s: bytes, blocks: seq<Block>)
    requires Backed(s, blocks)
    ensures var d := AbsorbAll(EMPTY, blocks).counters;
            StreamOf(Feeds(), blocks) == Interleave(Feeds(), d.buckets, d.rows) <==> Flows(s, blocks)
  {
    hide AbsorbAll, AllReadable, Written, Labels, Holds, Timely, StreamOf, Interleave, AllGood, BucketsFirst, Opening;
    FeedsReady(s, blocks);
    StreamIsMemory(Feeds(), blocks);
  }

  /** All ways of reading counters meet the same entries: those of the window, in time order. */
  lemma CounterReadsAgree(s: bytes, blocks: seq<Block>, from: u64, to: u64)
    requires Flows(s, blocks)
    ensures var d := AbsorbAll(EMPTY, blocks).counters;
            && ReadAll(SegmentsIn(s), OpenCounters, TimeOf, from, to) == Read(InMemory(d, from, to), None)
            && ScanSeries(s).error.None?
            && Passed(Feeds(), d.buckets, d.rows, from, to) == InMemory(d, from, to)
            && InMemory(d, from, to) == Between(Interleave(Feeds(), d.buckets, d.rows), TimeOf, from, to)
            && Timely(InMemory(d, from, to), TimeOf)
  {
    hide AbsorbAll, AllReadable, Written, Labels, Holds, Timely, StreamOf, Interleave, AllGood, BucketsFirst, Opening, ReadAll,
         Between, Visited, Passed, BucketsIn, RowsIn;
    FeedsReady(s, blocks);
    ReadsAgree(Feeds(), s, blocks, OpenCounters, from, to);
  }

  lemma GroupKeysInOrder(F: Floats, span: u64, es: seq<Amount>)
    requires Timely(es, TimeOf)
    ensures KeysInOrder(ByBucket(F, span), es) && KeysInOrder(ByTimes(), es)
  {
    hide BucketOf;
    forall i, j | 0 <= i < j < |es|
      ensures BucketOf(es[i].at, span) <= BucketOf(es[j].at, span) && es[i].at <= es[j].at
    {
      assert TimeOf(es[i]) <= TimeOf(es[j]);
      BucketMonotone(es[i].at, es[j].at, span);
    }
  }

  /** On every series with the layout whose counters come out in time order: the streaming readers yield
      what the cursors over the decoded state yield, and both are the plain selection of the window,
      grouped by time and summed modulo 2^64, or grouped by bucket and folded. */
  lemma CounterRangesAgree(F: Floats, s: bytes, blocks: seq<Block>, from: u64, to: u64, span: u64)
    requires Flows(s, blocks)
    ensures var d := AbsorbAll(EMPTY, blocks).counters;
            var t, g, es := ByTimes(), ByBucket(F, span), InMemory(d, from, to);
            && Streamed(t, s, OpenCounters, TimeOf, from, to) == Yielded(Grouped(t, es), None)
            && Grouped(t, Passed(Feeds(), d.buckets, d.rows, from, to)) == Grouped(t, es) == Report(t, es, AscendingKeys(t, es))
            && Streamed(g, s, OpenCounters, TimeOf, from, to) == Yielded(Grouped(g, es), None)
            && Grouped(g, es) == Report(g, es, AscendingKeys(g, es))
  {
    hide AbsorbAll, ReadAll, Timely, InMemory, Report, AscendingKeys, RunAll, Flows, Interleave, Between, Passed;
    CounterReadsAgree(s, blocks, from, to);
    var es := InMemory(AbsorbAll(EMPTY, blocks).counters, from, to);
    GroupKeysInOrder(F, span, es);
    GroupingLaws(F, span);
    StreamingIsGrouping(ByTimes(), es);
    StreamingIsGrouping(ByBucket(F, span), es);
  }
}
