/** Reading samples: straight from a stored series, and from a decoded state. */
module SampleReaders {
  import opened Words
  import opened Varint
  import opened Reader
  import opened FloatModel
  import opened Rows
  import opened Blocks
  import opened BlockCodec
  import opened Segments
  import opened Appending
  import opened Runs
  import opened Streams
  import opened Aggregates
  import P = SampleState

  /** What a reader meets: a raw value or a compacted bucket. */
  datatype Sample = Point(at: u64, value: u64) | Total(bucket: P.SampleBucket)

  function TimeOf(e: Sample): u64 {
    match e
    case Point(at, _) => at
    case Total(b) => b.time
  }

  function AddSample(F: Floats, f: Fold, e: Sample): Fold {
    match e
    case Point(_, v) => Added(F, f, v)
    case Total(b) => Joined(F, f, b)
  }

  function ByBucket(F: Floats, span: u64): Grouping<Sample, Fold> {
    Grouping((e: Sample) => BucketOf(TimeOf(e), span), (f: Fold, e: Sample) => AddSample(F, f, e), NO_FOLD,
             (f: Fold) => f.count > 0)
  }

  lemma ByBucketLaws(F: Floats, span: u64)
    ensures Laws(ByBucket(F, span))
  {
  }

  function Valued(F: Floats, out: seq<(u64, Fold)>, agg: Agg): (vs: seq<(u64, u64)>)
    ensures |vs| == |out|
  {
    seq(|out|, i requires 0 <= i < |out| => (out[i].0, ValueOf(F, out[i].1, agg)))
  }

  /** Without a span every entry is yielded on its own, a bucket as its mean. */
  function Single(F: Floats, e: Sample): (u64, u64) {
    match e
    case Point(at, v) => (at, v)
    case Total(b) => (b.time, F.div(b.sum, F.ofUint(b.count % W)))
  }

  function Singles(F: Floats, es: seq<Sample>): (vs: seq<(u64, u64)>)
    ensures |vs| == |es|
  {
    seq(|es|, i requires 0 <= i < |es| => Single(F, es[i]))
  }

  // ----- Opening segments -----

  function Points(times: seq<u64>, values: seq<u64>): (es: seq<Sample>)
    requires |times| == |values|
    ensures |es| == |times|
  {
    seq(|times|, i requires 0 <= i < |times| => Point(times[i], values[i]))
  }

  function Totals(bs: seq<P.SampleBucket>): (es: seq<Sample>)
    ensures |es| == |bs|
  {
    seq(|bs|, i requires 0 <= i < |bs| => Total(bs[i]))
  }

  /** Raw segments are decoded as far as times and values; other kinds hold no samples. */
  function OpenSamples(x: Segment): Result<seq<Sample>> {
    if x.kind != 1 && x.kind != 3 then Ok([])
    else if |x.data| != x.rawLen then Err(Short)
    else if x.kind == 1 then
      match SamplePrefix(x.data, x.count)
      case Err(e) => Err(e)
      case Ok(columns) => Ok(Points(columns.0, columns.1))
    else
      match WholeWords(x.data, 7 * x.count)
      case Err(e) => Err(e)
      case Ok(ws) => Ok(Totals(BucketsOf(ws, x.count)))
  }

  method Open(x: Segment) returns (r: Result<seq<Sample>>)
    ensures r == OpenSamples(x)
  {
    hide SamplePrefix, WholeWords, BucketsOf;
    if x.kind != 1 && x.kind != 3 {
      return Ok([]);
    }
    if |x.data| != x.rawLen {
      return Err(Short);
    }
    if x.kind == 1 {
      var columns := DecodeSampleValues(x.data, x.count);
      return if columns.Ok? then Ok(Points(columns.value.0, columns.value.1)) else Err(columns.error);
    }
    var bs := DecodeSampleBuckets(x.data, x.count);
    r := if bs.Ok? then Ok(Totals(bs.value)) else Err(bs.error);
  }

  // ----- The streaming readers -----

  /** Adds the entries of one segment that fall into the window, closing groups on the way. */
  method Feed(F: Floats, span: u64, agg: Agg, es: seq<Sample>, from: u64, to: u64, f: Accumulator, current: u64,
              out: seq<(u64, u64)>, ghost seen: seq<Sample>, ghost run: Run<Fold>)
    returns (current': u64, out': seq<(u64, u64)>, ghost run': Run<Fold>)
    requires run == RunAll(ByBucket(F, span), seen)
    requires run.current == current && run.acc == f.View() && out == Valued(F, run.out, agg)
    modifies f
    ensures run' == RunAll(ByBucket(F, span), seen + Between(es, TimeOf, from, to))
    ensures run'.current == current' && run'.acc == f.View() && out' == Valued(F, run'.out, agg)
  {
    hide RunAll, Added, Joined, Between, BucketOf, ValueOf;
    current', out', run' := current, out, run;
    ghost var all := seen;
    NothingBetween(es, from, to);
    assert seen + [] == seen;
    for i := 0 to |es|
      invariant all == seen + Between(es[..i], TimeOf, from, to) && run' == RunAll(ByBucket(F, span), all)
      invariant run'.current == current' && run'.acc == f.View() && out' == Valued(F, run'.out, agg)
    {
      var e := es[i];
      assert es[..i + 1] == es[..i] + [e];
      BetweenSnoc(es[..i], e, TimeOf, from, to);
      if TimeOf(e) < from || TimeOf(e) > to {
        assert Between(es[..i], TimeOf, from, to) + [] == Between(es[..i], TimeOf, from, to);
        continue;
      }
      RunSnoc(ByBucket(F, span), all, e);
      assert seen + (Between(es[..i], TimeOf, from, to) + [e]) == all + [e];
      run', all := Step(ByBucket(F, span), run', e), all + [e];
      var k := BucketOf(TimeOf(e), span);
      if f.count > 0 && k != current' {
        out' := out' + [(current', ValueOf(F, f.View(), agg))];
        f.Reset();
      }
      current' := k;
      match e {
        case Point(_, v) => f.Add(F, v);
        case Total(b) => f.Merge(F, b);
      }
    }
    assert es[..|es|] == es;
  }

  lemma NothingBetween(es: seq<Sample>, from: u64, to: u64)
    ensures Between(es[..0], TimeOf, from, to) == []
  {
  }

  /** What `sampleRange` yields with a positive span, and its error. */
  ghost predicate Ranges(F: Floats, s: bytes, from: u64, to: u64, span: u64, agg: Agg, out: seq<(u64, u64)>, error: Option<Error>) {
    var y := Streamed(ByBucket(F, span), s, OpenSamples, TimeOf, from, to);
    out == Valued(F, y.out, agg) && error == y.error
  }

  /** `sampleRange`. */
  method SampleRange(F: Floats, s: bytes, from: u64, to: u64, span: u64, agg: Agg)
    returns (out: seq<(u64, u64)>, error: Option<Error>)
    ensures if span == 0 then Lists(F, s, from, to, out, error) else Ranges(F, s, from, to, span, agg, out, error)
  {
    if span == 0 {
      out, error := SampleValues(F, s, from, to);
    } else {
      out, error := SpanRange(F, s, from, to, span, agg);
    }
  }

  /** Its loop. */
  method SpanRange(F: Floats, s: bytes, from: u64, to: u64, span: u64, agg: Agg)
    returns (out: seq<(u64, u64)>, error: Option<Error>)
    ensures Ranges(F, s, from, to, span, agg, out, error)
  {
    hide Scan, ReadSegment, OpenSamples, Valued, RunAll, ByBucket, ReadAll, ValueOf;
    out := [];
    NothingRead(F, span, agg, from, to);
    if |s| == 0 {
      return out, None;
    }
    if s[0] != VERSION {
      return out, Some(Version);
    }
    var reader := new CodecReader(s[1..]);
    var f := new Accumulator();
    var current := 0;
    ghost var seen, entries: seq<Sample> := [], [];
    ghost var run := RunAll(ByBucket(F, span), []);
    ScanStart(s[1..]);
    while |reader.data| > 0
      invariant reader.err.None? && ScanAt(Scan(s[1..]), seen, reader.data)
      invariant ReadAll(seen, OpenSamples, TimeOf, from, to) == Read(entries, None)
      invariant run == RunAll(ByBucket(F, span), entries)
      invariant run.current == current && run.acc == f.View() && out == Valued(F, run.out, agg)
      decreases |reader.data|
    {
      ScanStep(Scan(s[1..]), seen, reader.data);
      var x := NextSegment(reader);
      if x.Err? {
        return out, Some(x.error);
      }
      ReadAllSnoc(seen, x.value, OpenSamples, TimeOf, from, to);
      seen := seen + [x.value];
      if x.value.to < from || x.value.from > to {
        continue;
      }
      var es := Open(x.value);
      if es.Err? {
        assert Scan(s[1..]).segments[..|seen|] == seen;
        ReadFails(Scan(s[1..]).segments, |seen|, OpenSamples, TimeOf, from, to);
        return out, Some(es.error);
      }
      current, out, run := Feed(F, span, agg, es.value, from, to, f, current, out, entries, run);
      entries := entries + Between(es.value, TimeOf, from, to);
    }
    ScanEnd(Scan(s[1..]), seen);
    error := None;
    ValuedFlush(F, span, run, agg);
    if f.count > 0 {
      out := out + [(current, ValueOf(F, f.View(), agg))];
    }
  }

  lemma NothingRead(F: Floats, span: u64, agg: Agg, from: u64, to: u64)
    ensures var run := RunAll(ByBucket(F, span), []);
            run == Run([], 0, NO_FOLD) && Flush(ByBucket(F, span), run) == []
    ensures Valued(F, [], agg) == [] && ReadAll([], OpenSamples, TimeOf, from, to) == Read([], None)
  {
  }

  lemma ValuedFlush(F: Floats, span: u64, run: Run<Fold>, agg: Agg)
    ensures Valued(F, Flush(ByBucket(F, span), run), agg) ==
            Valued(F, run.out, agg) + if run.acc.count > 0 then [(run.current, ValueOf(F, run.acc, agg))] else []
  {
  }

  /** What `sampleValues` yields, and its error. */
  ghost predicate Lists(F: Floats, s: bytes, from: u64, to: u64, out: seq<(u64, u64)>, error: Option<Error>) {
    var r := ReadAll(SegmentsIn(s), OpenSamples, TimeOf, from, to);
    && out == Singles(F, r.entries)
    && error == if r.error.Some? then r.error else ScanSeries(s).error
  }

  /** `sampleValues`. */
  method SampleValues(F: Floats, s: bytes, from: u64, to: u64) returns (out: seq<(u64, u64)>, error: Option<Error>)
    ensures Lists(F, s, from, to, out, error)
  {
    hide Scan, ReadSegment, OpenSamples, ReadAll, Single;
    out := [];
    assert ReadAll([], OpenSamples, TimeOf, from, to) == Read([], None) by { NothingRead(F, 0, Sum, from, to); }
    assert Singles(F, []) == [];
    if |s| == 0 {
      return out, None;
    }
    if s[0] != VERSION {
      return out, Some(Version);
    }
    var reader := new CodecReader(s[1..]);
    ghost var seen, entries: seq<Sample> := [], [];
    ScanStart(s[1..]);
    while |reader.data| > 0
      invariant reader.err.None? && ScanAt(Scan(s[1..]), seen, reader.data)
      invariant ReadAll(seen, OpenSamples, TimeOf, from, to) == Read(entries, None)
      invariant out == Singles(F, entries)
      decreases |reader.data|
    {
      ScanStep(Scan(s[1..]), seen, reader.data);
      var x := NextSegment(reader);
      if x.Err? {
        return out, Some(x.error);
      }
      ReadAllSnoc(seen, x.value, OpenSamples, TimeOf, from, to);
      seen := seen + [x.value];
      if x.value.to < from || x.value.from > to {
        continue;
      }
      var es := Open(x.value);
      if es.Err? {
        assert Scan(s[1..]).segments[..|seen|] == seen;
        ReadFails(Scan(s[1..]).segments, |seen|, OpenSamples, TimeOf, from, to);
        return out, Some(es.error);
      }
      out := YieldEach(F, es.value, from, to, out, entries);
      entries := entries + Between(es.value, TimeOf, from, to);
    }
    ScanEnd(Scan(s[1..]), seen);
    error := None;
  }

  method YieldEach(F: Floats, es: seq<Sample>, from: u64, to: u64, out: seq<(u64, u64)>, ghost seen: seq<Sample>)
    returns (more: seq<(u64, u64)>)
    requires out == Singles(F, seen)
    ensures more == Singles(F, seen + Between(es, TimeOf, from, to))
  {
    hide Between, Single;
    more := out;
    NothingBetween(es, from, to);
    assert seen + [] == seen;
    for i := 0 to |es|
      invariant more == Singles(F, seen + Between(es[..i], TimeOf, from, to))
    {
      var e := es[i];
      assert es[..i + 1] == es[..i] + [e];
      BetweenSnoc(es[..i], e, TimeOf, from, to);
      if TimeOf(e) >= from && TimeOf(e) <= to {
        more := more + [Single(F, e)];
      }
    }
    assert es[..|es|] == es;
  }
}
