/** Reading sketches: raw observations streamed, stored buckets served as they lie, or both merged. */
module SketchReaders {
  import opened Words
  import opened Varint
  import opened Reader
  import opened FloatModel
  import opened Rows
  import opened Blocks
  import opened BlockCodec
  import opened Segments
  import opened Appending
  import opened Runs
  import opened Streams
  import opened SketchValues
  import K = SketchState
  import S = Sketches
  import C = SketchCodec
  import B = SketchBytes
  import Q = SketchQueries

  /** What a reader meets: a raw observation or an encoded sketch. */
  datatype Entry = Value(at: u64, value: u64) | Stored(bucket: K.SketchBucket)

  function TimeOf(e: Entry): u64 {
    match e
    case Value(at, _) => at
    case Stored(b) => b.time
  }

  // ----- Opening segments -----

  function ValuesOf(times: seq<u64>, values: seq<u64>): (es: seq<Entry>)
    requires |times| == |values|
    ensures |es| == |times|
  {
    seq(|times|, i requires 0 <= i < |times| => Value(times[i], values[i]))
  }

  function StoredOf(bs: seq<K.SketchBucket>): (es: seq<Entry>)
    ensures |es| == |bs|
  {
    seq(|bs|, i requires 0 <= i < |bs| => Stored(bs[i]))
  }

  predicate FiniteValues(values: seq<u64>) { forall v :: v in values ==> Finite(v) }

  /** How many values there are before the first infinite or not-a-number one. */
  function LeadingFinite(values: seq<u64>): (n: nat)
    ensures n <= |values| && FiniteValues(values[..n]) && (n < |values| ==> !Finite(values[n]))
  {
    if values == [] || !Finite(values[0]) then 0 else
    var n := LeadingFinite(values[1..]);
    assert values[..n + 1] == [values[0]] + values[1..][..n];
    n + 1
  }

  /** The observations of a raw segment, one at a time up to an infinite or not-a-number value. */
  function RawItems(x: Segment): Read<Entry> {
    if x.kind != 5 then Read([], None)
    else if |x.data| != x.rawLen then Read([], Some(Short))
    else
      match SamplePrefix(x.data, x.count)
      case Err(e) => Read([], Some(e))
      case Ok(columns) =>
        var n := LeadingFinite(columns.1);
        Read(ValuesOf(columns.0[..n], columns.1[..n]), if n == |columns.1| then None else Some(Shape))
  }

  function StoredItems(x: Segment): Read<Entry> {
    if x.kind != 6 then Read([], None)
    else if |x.data| != x.rawLen then Read([], Some(Short))
    else var r := Items(x.data, x.count, 0); Read(StoredOf(r.entries), r.error)
  }

  function BothItems(x: Segment): Read<Entry> {
    if x.kind == 5 then RawItems(x) else StoredItems(x)
  }

  function OpenRaw(x: Segment): Result<seq<Entry>> { Whole(RawItems(x)) }

  function OpenStored(x: Segment): Result<seq<Entry>> { Whole(StoredItems(x)) }

  function OpenBoth(x: Segment): Result<seq<Entry>> { Whole(BothItems(x)) }

  lemma {:induction false} LeadingIs(values: seq<u64>, i: nat)
    requires i <= |values| && FiniteValues(values[..i]) && (i < |values| ==> !Finite(values[i]))
    ensures LeadingFinite(values) == i
  {
    if i > 0 {
      assert values[..i] == [values[0]] + values[1..][..i - 1];
      LeadingIs(values[1..], i - 1);
    }
  }

  method Open(x: Segment) returns (es: seq<Entry>, error: Option<Error>)
    ensures Read(es, error) == BothItems(x)
  {
    hide SamplePrefix, Items, Finite, LeadingFinite;
    if x.kind != 5 && x.kind != 6 {
      return [], None;
    }
    if |x.data| != x.rawLen {
      return [], Some(Short);
    }
    if x.kind == 5 {
      var columns := DecodeSampleValues(x.data, x.count);
      if columns.Err? {
        return [], Some(columns.error);
      }
      var times, values := columns.value.0, columns.value.1;
      for i := 0 to |values|
        invariant FiniteValues(values[..i])
      {
        if !Finite(values[i]) {
          LeadingIs(values, i);
          return ValuesOf(times[..i], values[..i]), Some(Shape);
        }
        assert values[..i + 1] == values[..i] + [values[i]];
      }
      LeadingIs(values, |values|);
      assert times[..|values|] == times && values[..|values|] == values;
      return ValuesOf(times, values), None;
    }
    var bs;
    bs, error := ScanSketchBuckets(x.data, x.count);
    es := StoredOf(bs);
  }

  // ----- Merging everything by bucket -----

  /** Why an entry cannot be merged. */
  ghost function Undecodable(e: Entry): Option<Error> {
    match e
    case Value(_, _) => None
    case Stored(b) => match C.Decode(b.data) case Ok(_) => None case Err(e) => Some(e)
  }

  ghost predicate Decodes(e: Entry) { Undecodable(e).None? }

  ghost function Mixed(F: Floats, v: S.Summary, e: Entry): S.Summary {
    match e
    case Value(_, x) => S.AddExact(F, v, x)
    case Stored(b) => B.MergeBytes(F, v, b.data)
  }

  ghost function MixOne(F: Floats, span: u64, m: map<u64, S.Summary>, e: Entry): map<u64, S.Summary> {
    var k := BucketOf(TimeOf(e), span);
    m[k := Mixed(F, K.At(m, k), e)]
  }

  /** The sketches of a window by output bucket. */
  ghost function Mix(F: Floats, span: u64, es: seq<Entry>): map<u64, S.Summary> {
    if es == [] then map[] else MixOne(F, span, Mix(F, span, es[..|es| - 1]), es[|es| - 1])
  }

  /** Sketches are encoded for the caller, in time order. */
  ghost predicate Encodable(m: map<u64, S.Summary>) {
    forall t :: t in m ==> m[t].exact.None? ==> C.Storable(m[t])
  }

  ghost function Rendered(F: Floats, m: map<u64, S.Summary>): (out: seq<(u64, Q.Sketch)>)
    requires Encodable(m)
    ensures |out| == |m|
  {
    var q := SortedTimes(m);
    seq(|q|, i requires 0 <= i < |q| => assert q[i] in q; (q[i], Q.Encoded(F, m[q[i]])))
  }

  lemma MixSnoc(F: Floats, span: u64, es: seq<Entry>, e: Entry)
    ensures Mix(F, span, es + [e]) == MixOne(F, span, Mix(F, span, es), e)
  {
    assert (es + [e])[..|es|] == es;
  }

  /** `encode`: sorts the exact values in place. */
  method Encode(F: Floats, v: SketchValue) returns (h: Q.Sketch)
    requires v.exact.None? ==> C.Storable(v.View())
    modifies v
    ensures h == Q.Encoded(F, old(v.View()))
  {
    if v.exact.Some? {
      v.exact := Some(Q.Sort(F, v.exact.value));
      var data := Q.AppendExactValues([], v.exact.value);
      assert [] + Q.ExactData(v.exact.value) == Q.ExactData(v.exact.value);
      return Q.Sketch(data, v.count, v.sum, v.min, v.max, C.EXACT);
    }
    var data := C.AppendSketchApproxData([], v.View());
    assert [] + C.ApproxData(v.View().hist) == C.ApproxData(v.View().hist);
    h := Q.Sketch(data, v.count, v.sum, v.min, v.max, C.APPROX);
  }

  /** Adds one entry to the sketch of its output bucket. */
  method AddEntry(F: Floats, span: u64, buckets: map<u64, SketchValue>, ghost m: map<u64, S.Summary>, e: Entry)
    returns (out: map<u64, SketchValue>, error: Option<Error>)
    requires K.Views(buckets, m)
    modifies K.Objects(buckets)
    ensures error == Undecodable(e)
    ensures K.Views(out, MixOne(F, span, m, e))
    ensures fresh(K.Objects(out) - K.Objects(buckets))
  {
    hide S.AddExact, B.MergeBytes, C.Decode, BucketOf, SketchValue.View;
    var k := BucketOf(TimeOf(e), span);
    out := K.Present(buckets, m, k);
    error := None;
    match e {
      case Value(_, x) => out[k].AddExact(F, x);
      case Stored(b) => error := out[k].MergeBytes(F, b.data);
    }
  }

  method AddEntries(F: Floats, span: u64, buckets: map<u64, SketchValue>, ghost seen: seq<Entry>, es: seq<Entry>, from: u64, to: u64)
    returns (out: map<u64, SketchValue>, error: Option<Error>)
    requires K.Views(buckets, Mix(F, span, seen))
    modifies K.Objects(buckets)
    ensures error == Until(Between(es, TimeOf, from, to), Undecodable).error
    ensures error.None? ==> K.Views(out, Mix(F, span, seen + Between(es, TimeOf, from, to)))
    ensures fresh(K.Objects(out) - K.Objects(buckets))
  {
    hide Mix, MixOne, Undecodable, Between, K.Views, Until;
    out, error := buckets, None;
    NothingBetween(es, from, to);
    assert seen + [] == seen;
    for i := 0 to |es|
      invariant error.None? && Until(Between(es[..i], TimeOf, from, to), Undecodable).error.None?
      invariant K.Views(out, Mix(F, span, seen + Between(es[..i], TimeOf, from, to)))
      invariant fresh(K.Objects(out) - K.Objects(buckets))
    {
      var e := es[i];
      WindowStep(seen, es, i, from, to);
      if TimeOf(e) < from || TimeOf(e) > to {
        continue;
      }
      UntilSnoc(Between(es[..i], TimeOf, from, to), e, Undecodable);
      ghost var m := Mix(F, span, seen + Between(es[..i], TimeOf, from, to));
      MixSnoc(F, span, seen + Between(es[..i], TimeOf, from, to), e);
      out, error := AddEntry(F, span, out, m, e);
      if error.Some? {
        WindowFails(es, i, Undecodable, from, to);
        return;
      }
    }
    assert es[..|es|] == es;
  }

  ghost predicate AllDecode(es: seq<Entry>) { forall e :: e in es ==> Decodes(e) }

  lemma NothingBetween(es: seq<Entry>, from: u64, to: u64)
    ensures Between(es[..0], TimeOf, from, to) == []
    ensures Until([], Undecodable) == Until([], Unservable) == Read([], None)
  {
  }

  lemma WindowStep(seen: seq<Entry>, es: seq<Entry>, i: nat, from: u64, to: u64)
    requires i < |es|
    ensures var w := Between(es[..i], TimeOf, from, to);
            Between(es[..i + 1], TimeOf, from, to) == (if from <= TimeOf(es[i]) <= to then w + [es[i]] else w)
            && (from <= TimeOf(es[i]) <= to ==> seen + Between(es[..i + 1], TimeOf, from, to) == (seen + w) + [es[i]])
  {
    hide Between;
    assert es[..i + 1] == es[..i] + [es[i]];
    BetweenSnoc(es[..i], es[i], TimeOf, from, to);
    var w := Between(es[..i], TimeOf, from, to);
    assert w + [] == w && seen + (w + [es[i]]) == seen + w + [es[i]];
  }

  /** The first entry of a window that is refused ends the reading of the window. */
  lemma WindowFails(es: seq<Entry>, i: nat, refused: Entry -> Option<Error>, from: u64, to: u64)
    requires i < |es| && Until(Between(es[..i + 1], TimeOf, from, to), refused).error.Some?
    ensures Until(Between(es, TimeOf, from, to), refused) == Until(Between(es[..i + 1], TimeOf, from, to), refused)
  {
    hide Between, Until;
    assert es == es[..i + 1] + es[i + 1..];
    BetweenConcat(es[..i + 1], es[i + 1..], TimeOf, from, to);
    UntilConcat(Between(es[..i + 1], TimeOf, from, to), Between(es[i + 1..], TimeOf, from, to), refused);
  }

  /** Everything in a window, in the order it is stored, up to the first error. */
  function ReadBoth(s: bytes, from: u64, to: u64): Read<Entry> {
    ReadIn(s, BothItems, TimeOf, from, to)
  }

  /** Nothing is wrong with the segments and the sketches of a window. */
  ghost predicate Sane(s: bytes, from: u64, to: u64) {
    Used(ReadBoth(s, from, to), Undecodable).error.None?
  }

  lemma NothingMixed(F: Floats, span: u64, from: u64, to: u64)
    ensures Mix(F, span, []) == map[] && K.Views(map[], map[]) && K.Objects(map[]) == {}
    ensures Encodable(map[]) && Rendered(F, map[]) == []
    ensures ReadEach([], BothItems, TimeOf, from, to) == Read([], None) && Until([], Undecodable) == Read([], None)
  {
  }

  /** Encodes the sketches in time order. */
  method Render(F: Floats, values: map<u64, SketchValue>, ghost m: map<u64, S.Summary>) returns (out: seq<(u64, Q.Sketch)>)
    requires K.Views(values, m) && Encodable(m)
    modifies K.Objects(values)
    ensures out == Rendered(F, m)
  {
    hide Q.Encoded, C.Storable, SortedTimes, Rendered, SketchValue.View, K.ToEncode;
    assert K.ToEncode(values, m, SortedTimes(values), 0) by { K.StartToEncode(values, m); }
    var times := SortedTimes(values);
    K.TimesOfViews(values, m);
    out := [];
    for i := 0 to |times|
      invariant K.ToEncode(values, m, times, i)
      invariant out == Rendered(F, m)[..i]
    {
      var t := times[i];
      RenderedIndex(F, m, i);
      var h := EncodeNext(F, values, m, times, i);
      out := out + [(t, h)];
    }
  }

  method EncodeNext(F: Floats, values: map<u64, SketchValue>, ghost m: map<u64, S.Summary>, times: seq<u64>, i: nat)
    returns (h: Q.Sketch)
    requires K.ToEncode(values, m, times, i) && times == SortedTimes(values) && i < |times|
    requires times[i] in m && (m[times[i]].exact.None? ==> C.Storable(m[times[i]]))
    requires forall s, t :: s in values && t in values && s != t ==> values[s] != values[t]
    modifies values[times[i]]
    ensures h == Q.Encoded(F, m[times[i]])
    ensures K.ToEncode(values, m, times, i + 1)
  {
    hide C.Storable, Q.Encoded, SketchValue.View;
    K.DistinctTimes(values, m, times, i);
    h := EncodeAs(F, values[times[i]], m[times[i]]);
  }

  method EncodeAs(F: Floats, v: SketchValue, ghost w: S.Summary) returns (h: Q.Sketch)
    requires v.View() == w && (w.exact.None? ==> C.Storable(w))
    modifies v
    ensures h == Q.Encoded(F, w)
  {
    hide C.Storable, Q.Encoded;
    h := Encode(F, v);
  }

  lemma RenderedIndex(F: Floats, m: map<u64, S.Summary>, i: nat)
    requires Encodable(m) && i < |m|
    ensures var t := SortedTimes(m)[i];
            t in m && (m[t].exact.None? ==> C.Storable(m[t])) && Rendered(F, m)[i] == (t, Q.Encoded(F, m[t]))
  {
    assert SortedTimes(m)[i] in SortedTimes(m);
  }

  /** What merging everything by bucket yields: nothing at all if there is an error. */
  ghost predicate MixedYields(F: Floats, s: bytes, from: u64, to: u64, span: u64, out: seq<(u64, Q.Sketch)>, error: Option<Error>) {
    && error == Used(ReadBoth(s, from, to), Undecodable).error
    && if error.Some? then out == [] else
       var m := Mix(F, span, ReadBoth(s, from, to).entries);
       Encodable(m) && out == Rendered(F, m)
  }

  /** `sketchMixedRange`. */
  method SketchMixedRange(F: Floats, s: bytes, from: u64, to: u64, span: u64)
    returns (out: seq<(u64, Q.Sketch)>, error: Option<Error>)
    requires Sane(s, from, to) ==> Encodable(Mix(F, span, ReadBoth(s, from, to).entries))
    ensures MixedYields(F, s, from, to, span, out, error)
  {
    hide Scan, ReadSegment, BothItems, Mix, ReadEach, K.Views, Undecodable, Rendered, Encodable, Until;
    out := [];
    NothingMixed(F, span, from, to);
    var values: map<u64, SketchValue> := map[];
    if |s| == 0 {
      return out, None;
    }
    if s[0] != VERSION {
      return out, Some(Version);
    }
    var reader := new CodecReader(s[1..]);
    ghost var seen, entries: seq<Entry> := [], [];
    ScanStart(s[1..]);
    while |reader.data| > 0
      invariant reader.err.None? && ScanAt(Scan(s[1..]), seen, reader.data)
      invariant ReadEach(seen, BothItems, TimeOf, from, to) == Read(entries, None) && Until(entries, Undecodable).error.None?
      invariant K.Views(values, Mix(F, span, entries)) && fresh(K.Objects(values))
      decreases |reader.data|
    {
      ScanStep(Scan(s[1..]), seen, reader.data);
      var x := NextSegment(reader);
      if x.Err? {
        return out, Some(x.error);
      }
      ReadEachSnoc(seen, x.value, BothItems, TimeOf, from, to);
      seen := seen + [x.value];
      assert Scan(s[1..]).segments[..|seen|] == seen;
      if x.value.to < from || x.value.from > to {
        continue;
      }
      var es, e := Open(x.value);
      values, error := AddEntries(F, span, values, entries, es, from, to);
      UntilConcat(entries, Between(es, TimeOf, from, to), Undecodable);
      entries := entries + Between(es, TimeOf, from, to);
      if error.Some? {
        UntilStays(Scan(s[1..]).segments, |seen|, BothItems, Undecodable, TimeOf, from, to);
        return;
      }
      if e.Some? {
        ReadEachFails(Scan(s[1..]).segments, |seen|, BothItems, TimeOf, from, to);
        return out, e;
      }
    }
    ScanEnd(Scan(s[1..]), seen);
    out := Render(F, values, Mix(F, span, entries));
    error := None;
  }

  // ----- Only raw observations: exact sketches, streamed -----

  function Observation(e: Entry): u64 { match e case Value(_, x) => x case Stored(_) => 0 }

  ghost function Observe(F: Floats, v: S.Summary, e: Entry): S.Summary { S.AddExact(F, v, Observation(e)) }

  ghost function Exactly(F: Floats, span: u64): Grouping<Entry, S.Summary> {
    Grouping((e: Entry) => BucketOf(TimeOf(e), span), (v: S.Summary, e: Entry) => Observe(F, v, e), S.NEW,
             (v: S.Summary) => v.count > 0)
  }

  lemma ExactlyLaws(F: Floats, span: u64)
    ensures Laws(Exactly(F, span))
  {
    hide S.AddApprox;
    forall v, e: Entry
      ensures Observe(F, v, e).count == v.count + 1
    {
      AddCounts(F, v, Observation(e));
    }
  }

  lemma AddCounts(F: Floats, v: S.Summary, x: u64)
    ensures S.AddExact(F, v, x).count == v.count + 1
  {
  }

  ghost predicate AllExact(out: seq<(u64, S.Summary)>) { forall i :: 0 <= i < |out| ==> out[i].1.exact.Some? }

  ghost function Encodings(F: Floats, out: seq<(u64, S.Summary)>): (hs: seq<(u64, Q.Sketch)>)
    requires AllExact(out)
    ensures |hs| == |out|
  {
    seq(|out|, i requires 0 <= i < |out| => (out[i].0, Q.Encoded(F, out[i].1)))
  }

  /** The locals of the raw reader agree with a run. */
  ghost predicate Locals(F: Floats, run: Run<S.Summary>, current: u64, count: nat, sum: u64, min: u64, max: u64, exact: seq<u64>,
                         out: seq<(u64, Q.Sketch)>) {
    && run.current == current && AllExact(run.out) && out == Encodings(F, run.out)
    && (if count == 0 then run.acc == S.NEW && sum == 0 && exact == []
        else run.acc == S.Summary(count, sum, min, max, Some(exact), S.NEW.hist))
  }

  method FlushExact(F: Floats, span: u64, current: u64, count: nat, sum: u64, min: u64, max: u64, exact: seq<u64>,
                    out: seq<(u64, Q.Sketch)>, ghost run: Run<S.Summary>)
    returns (out': seq<(u64, Q.Sketch)>)
    requires Locals(F, run, current, count, sum, min, max, exact, out)
    ensures AllExact(Flush(Exactly(F, span), run)) && out' == Encodings(F, Flush(Exactly(F, span), run))
  {
    hide Q.Sort, Q.ExactData;
    out' := out;
    if count == 0 {
      return;
    }
    var sorted := Q.Sort(F, exact);
    var data := Q.AppendExactValues([], sorted);
    assert [] + Q.ExactData(sorted) == Q.ExactData(sorted);
    out' := out' + [(current, Q.Sketch(data, count, sum, min, max, C.EXACT))];
  }

  method AddObservation(F: Floats, span: u64, at: u64, value: u64, current: u64, count: nat, sum: u64, min: u64, max: u64,
                        exact: seq<u64>, out: seq<(u64, Q.Sketch)>, ghost run: Run<S.Summary>)
    returns (current': u64, count': nat, sum': u64, min': u64, max': u64, exact': seq<u64>, out': seq<(u64, Q.Sketch)>)
    requires Locals(F, run, current, count, sum, min, max, exact, out)
    ensures Locals(F, Step(Exactly(F, span), run, Value(at, value)), current', count', sum', min', max', exact', out')
  {
    hide S.AddApprox, BucketOf, Q.Encoded;
    count', sum', min', max', exact', out' := count, sum, min, max, exact, out;
    var outputTime := if span > 0 then BucketOf(at, span) else at;
    assert outputTime == BucketOf(at, span) by { BucketAtZero(at, span); }
    if count' > 0 && outputTime != current {
      out' := FlushExact(F, span, current, count', sum', min', max', exact', out', run);
      exact', count', sum' := [], 0, 0;
    }
    current' := outputTime;
    if count' == 0 {
      min', max' := value, value;
    } else {
      min', max' := F.Min(min', value), F.Max(max', value);
    }
    count', sum', exact' := count' + 1, F.add(sum', value), exact' + [value];
  }

  lemma BucketAtZero(t: u64, span: u64)
    ensures span == 0 ==> BucketOf(t, span) == t
  {
  }

  function ReadRaw(s: bytes, from: u64, to: u64): Read<Entry> {
    ReadIn(s, RawItems, TimeOf, from, to)
  }

  method FeedRaw(F: Floats, span: u64, es: seq<Entry>, from: u64, to: u64, current: u64, count: nat, sum: u64, min: u64, max: u64,
                 exact: seq<u64>, out: seq<(u64, Q.Sketch)>, ghost seen: seq<Entry>, ghost run: Run<S.Summary>)
    returns (current': u64, count': nat, sum': u64, min': u64, max': u64, exact': seq<u64>, out': seq<(u64, Q.Sketch)>,
             ghost run': Run<S.Summary>)
    requires forall e :: e in es ==> e.Value?
    requires run == RunAll(Exactly(F, span), seen) && Locals(F, run, current, count, sum, min, max, exact, out)
    ensures run' == RunAll(Exactly(F, span), seen + Between(es, TimeOf, from, to))
    ensures Locals(F, run', current', count', sum', min', max', exact', out')
  {
    hide RunAll, Step, Exactly, Locals, Between;
    current', count', sum', min', max', exact', out', run' := current, count, sum, min, max, exact, out, run;
    NothingBetween(es, from, to);
    assert seen + [] == seen;
    for i := 0 to |es|
      invariant run' == RunAll(Exactly(F, span), seen + Between(es[..i], TimeOf, from, to))
      invariant Locals(F, run', current', count', sum', min', max', exact', out')
    {
      var e := es[i];
      WindowStep(seen, es, i, from, to);
      if TimeOf(e) < from || TimeOf(e) > to {
        continue;
      }
      RunSnoc(Exactly(F, span), seen + Between(es[..i], TimeOf, from, to), e);
      current', count', sum', min', max', exact', out' :=
        AddObservation(F, span, e.at, e.value, current', count', sum', min', max', exact', out', run');
      run' := Step(Exactly(F, span), run', e);
    }
    assert es[..|es|] == es;
  }

  method OnlyRaw(x: Segment) returns (es: seq<Entry>, error: Option<Error>)
    ensures Read(es, error) == RawItems(x)
    ensures forall e :: e in es ==> e.Value?
  {
    if x.kind != 5 {
      return [], None;
    }
    es, error := Open(x);
  }

  /** What streaming raw observations yields: with an error, every bucket but the last one it began. */
  ghost predicate RawYields(F: Floats, s: bytes, from: u64, to: u64, span: u64, out: seq<(u64, Q.Sketch)>, error: Option<Error>) {
    && error == ReadRaw(s, from, to).error
    && var g := Closed(Exactly(F, span), ReadRaw(s, from, to));
       AllExact(g) && out == Encodings(F, g)
  }

  /** `sketchRawRange`. */
  method SketchRawRange(F: Floats, s: bytes, from: u64, to: u64, span: u64)
    returns (out: seq<(u64, Q.Sketch)>, error: Option<Error>)
    ensures RawYields(F, s, from, to, span, out, error)
  {
    hide Scan, ReadSegment, RawItems, RunAll, Exactly, Locals, ReadEach;
    var current, count, sum, min, max, exact := 0, 0, 0, 0, 0, [];
    out := [];
    NothingRaw(F, span, from, to);
    if |s| == 0 {
      out := FlushExact(F, span, current, count, sum, min, max, exact, out, RunAll(Exactly(F, span), []));
      return out, None;
    }
    if s[0] != VERSION {
      LocalsExact(F, RunAll(Exactly(F, span), []), current, count, sum, min, max, exact, out);
      return out, Some(Version);
    }
    var reader := new CodecReader(s[1..]);
    ghost var seen, entries: seq<Entry>, run := [], [], RunAll(Exactly(F, span), []);
    ScanStart(s[1..]);
    while |reader.data| > 0
      invariant reader.err.None? && ScanAt(Scan(s[1..]), seen, reader.data)
      invariant ReadEach(seen, RawItems, TimeOf, from, to) == Read(entries, None)
      invariant run == RunAll(Exactly(F, span), entries) && Locals(F, run, current, count, sum, min, max, exact, out)
      decreases |reader.data|
    {
      ScanStep(Scan(s[1..]), seen, reader.data);
      var x := NextSegment(reader);
      if x.Err? {
        LocalsExact(F, run, current, count, sum, min, max, exact, out);
        return out, Some(x.error);
      }
      ReadEachSnoc(seen, x.value, RawItems, TimeOf, from, to);
      seen := seen + [x.value];
      if x.value.kind != 5 || x.value.to < from || x.value.from > to {
        SkippedRaw(x.value, entries, from, to);
        continue;
      }
      var es, e := OnlyRaw(x.value);
      current, count, sum, min, max, exact, out, run :=
        FeedRaw(F, span, es, from, to, current, count, sum, min, max, exact, out, entries, run);
      entries := entries + Between(es, TimeOf, from, to);
      if e.Some? {
        assert Scan(s[1..]).segments[..|seen|] == seen;
        ReadEachFails(Scan(s[1..]).segments, |seen|, RawItems, TimeOf, from, to);
        LocalsExact(F, run, current, count, sum, min, max, exact, out);
        return out, e;
      }
    }
    ScanEnd(Scan(s[1..]), seen);
    out := FlushExact(F, span, current, count, sum, min, max, exact, out, run);
    error := None;
  }

  lemma LocalsExact(F: Floats, run: Run<S.Summary>, current: u64, count: nat, sum: u64, min: u64, max: u64, exact: seq<u64>,
                    out: seq<(u64, Q.Sketch)>)
    requires Locals(F, run, current, count, sum, min, max, exact, out)
    ensures AllExact(run.out) && out == Encodings(F, run.out)
  {
  }

  lemma NothingRaw(F: Floats, span: u64, from: u64, to: u64)
    ensures Locals(F, RunAll(Exactly(F, span), []), 0, 0, 0, 0, 0, [], [])
    ensures ReadEach([], RawItems, TimeOf, from, to) == Read([], None)
  {
  }

  lemma SkippedRaw(x: Segment, entries: seq<Entry>, from: u64, to: u64)
    ensures x.kind != 5 ==> RawItems(x) == Read([], None) && entries + Between([], TimeOf, from, to) == entries
  {
  }

  // ----- Only stored buckets: served as they lie -----

  function ReadStored(s: bytes, from: u64, to: u64): Read<Entry> {
    ReadIn(s, StoredItems, TimeOf, from, to)
  }

  /** Why an entry cannot be served. */
  function Unservable(e: Entry): Option<Error> {
    match e
    case Value(_, _) => None
    case Stored(b) => match Q.StoredResult(b.data) case Ok(_) => None case Err(e) => Some(e)
  }

  predicate Servable(e: Entry) { e.Stored? ==> Q.StoredSketch(e.bucket.data).Some? }

  lemma ServableIs(e: Entry)
    ensures Servable(e) <==> Unservable(e).None?
  {
    hide Q.StoredSketch, Q.StoredResult;
    if e.Stored? {
      Q.ResultIsSketch(e.bucket.data);
    }
  }

  ghost predicate AllServable(es: seq<Entry>) { forall e :: e in es ==> Servable(e) }

  function Served(e: Entry): (u64, Q.Sketch)
    requires e.Stored? && Servable(e)
  {
    (e.bucket.time, Q.StoredSketch(e.bucket.data).value)
  }

  ghost predicate Serves(es: seq<Entry>, out: seq<(u64, Q.Sketch)>) {
    |out| == |es| && forall i :: 0 <= i < |es| ==> es[i].Stored? && Servable(es[i]) && out[i] == Served(es[i])
  }

  method OnlyStored(x: Segment) returns (es: seq<Entry>, error: Option<Error>)
    ensures Read(es, error) == StoredItems(x)
    ensures forall e :: e in es ==> e.Stored?
  {
    if x.kind != 6 {
      return [], None;
    }
    es, error := Open(x);
  }

  method ServeAll(es: seq<Entry>, from: u64, to: u64, out: seq<(u64, Q.Sketch)>, ghost seen: seq<Entry>)
    returns (more: seq<(u64, Q.Sketch)>, error: Option<Error>)
    requires Serves(seen, out) && forall e :: e in es ==> e.Stored?
    ensures var r := Until(Between(es, TimeOf, from, to), Unservable); error == r.error && Serves(seen + r.entries, more)
  {
    hide Q.StoredSketch, Q.StoredResult, Between, Until;
    more, error := out, None;
    NothingBetween(es, from, to);
    assert seen + [] == seen;
    for i := 0 to |es|
      invariant error.None? && Until(Between(es[..i], TimeOf, from, to), Unservable) == Read(Between(es[..i], TimeOf, from, to), None)
      invariant Serves(seen + Between(es[..i], TimeOf, from, to), more)
    {
      var e := es[i];
      WindowStep(seen, es, i, from, to);
      if TimeOf(e) < from || TimeOf(e) > to {
        continue;
      }
      UntilSnoc(Between(es[..i], TimeOf, from, to), e, Unservable);
      var h := Q.ServeStored(e.bucket.data);
      Q.ResultIsSketch(e.bucket.data);
      if h.Err? {
        WindowFails(es, i, Unservable, from, to);
        return more, Some(h.error);
      }
      more := more + [(e.bucket.time, h.value)];
    }
    assert es[..|es|] == es;
  }

  /** What serving stored buckets one by one yields: with an error, those before it. */
  ghost predicate StoredYields(s: bytes, from: u64, to: u64, out: seq<(u64, Q.Sketch)>, error: Option<Error>) {
    var r := Used(ReadStored(s, from, to), Unservable);
    error == r.error && Serves(r.entries, out)
  }

  /** `sketchBucketValues`. */
  method SketchBucketValues(s: bytes, from: u64, to: u64) returns (out: seq<(u64, Q.Sketch)>, error: Option<Error>)
    ensures StoredYields(s, from, to, out, error)
  {
    hide Scan, ReadSegment, StoredItems, ReadEach, Unservable, Serves, Until;
    out := [];
    NothingStored(from, to);
    if |s| == 0 {
      return out, None;
    }
    if s[0] != VERSION {
      return out, Some(Version);
    }
    var reader := new CodecReader(s[1..]);
    ghost var seen, entries: seq<Entry> := [], [];
    ScanStart(s[1..]);
    while |reader.data| > 0
      invariant reader.err.None? && ScanAt(Scan(s[1..]), seen, reader.data)
      invariant ReadEach(seen, StoredItems, TimeOf, from, to) == Read(entries, None)
      invariant Until(entries, Unservable) == Read(entries, None) && Serves(entries, out)
      decreases |reader.data|
    {
      ScanStep(Scan(s[1..]), seen, reader.data);
      var x := NextSegment(reader);
      if x.Err? {
        return out, Some(x.error);
      }
      ReadEachSnoc(seen, x.value, StoredItems, TimeOf, from, to);
      seen := seen + [x.value];
      assert Scan(s[1..]).segments[..|seen|] == seen;
      if x.value.kind != 6 || x.value.to < from || x.value.from > to {
        SkippedStored(x.value, entries, from, to);
        continue;
      }
      var es, e := OnlyStored(x.value);
      out, error := ServeAll(es, from, to, out, entries);
      UntilConcat(entries, Between(es, TimeOf, from, to), Unservable);
      UntilAll(Between(es, TimeOf, from, to), Unservable);
      entries := entries + Between(es, TimeOf, from, to);
      if error.Some? {
        UntilStays(Scan(s[1..]).segments, |seen|, StoredItems, Unservable, TimeOf, from, to);
        return;
      }
      if e.Some? {
        ReadEachFails(Scan(s[1..]).segments, |seen|, StoredItems, TimeOf, from, to);
        return out, e;
      }
    }
    ScanEnd(Scan(s[1..]), seen);
    error := None;
  }

  lemma NothingStored(from: u64, to: u64)
    ensures ReadEach([], StoredItems, TimeOf, from, to) == Read([], None) && Until([], Unservable) == Read([], None) && Serves([], [])
  {
  }

  lemma SkippedStored(x: Segment, entries: seq<Entry>, from: u64, to: u64)
    ensures x.kind != 6 ==> StoredItems(x) == Read([], None) && entries + Between([], TimeOf, from, to) == entries
  {
  }

  // ----- Which path -----

  predicate Has(xs: seq<Segment>, kind: byte, from: u64, to: u64) {
    exists x :: x in xs && x.kind == kind && !Outside(x, from, to)
  }

  /** The first pass of `sketchRange`. */
  method Kinds(s: bytes, from: u64, to: u64) returns (hasRaw: bool, hasBuckets: bool, error: Option<Error>)
    ensures error == ScanSeries(s).error
    ensures error.None? ==> (hasRaw <==> Has(SegmentsIn(s), 5, from, to)) && (hasBuckets <==> Has(SegmentsIn(s), 6, from, to))
  {
    hide Scan, ReadSegment;
    hasRaw, hasBuckets := false, false;
    if |s| == 0 {
      return false, false, None;
    }
    if s[0] != VERSION {
      return false, false, Some(Version);
    }
    var reader := new CodecReader(s[1..]);
    ghost var seen := [];
    ScanStart(s[1..]);
    while |reader.data| > 0
      invariant reader.err.None? && ScanAt(Scan(s[1..]), seen, reader.data)
      invariant (hasRaw <==> Has(seen, 5, from, to)) && (hasBuckets <==> Has(seen, 6, from, to))
      decreases |reader.data|
    {
      ScanStep(Scan(s[1..]), seen, reader.data);
      var x := NextSegment(reader);
      if x.Err? {
        return hasRaw, hasBuckets, Some(x.error);
      }
      HasSnoc(seen, x.value, 5, from, to);
      HasSnoc(seen, x.value, 6, from, to);
      seen := seen + [x.value];
      if x.value.to < from || x.value.from > to {
        continue;
      }
      if x.value.kind == 5 {
        hasRaw := true;
      } else if x.value.kind == 6 {
        hasBuckets := true;
      }
    }
    ScanEnd(Scan(s[1..]), seen);
    error := None;
  }

  lemma HasSnoc(xs: seq<Segment>, x: Segment, kind: byte, from: u64, to: u64)
    ensures Has(xs + [x], kind, from, to) <==> Has(xs, kind, from, to) || (x.kind == kind && !Outside(x, from, to))
  {
    assert x in xs + [x];
    assert forall y :: y in xs ==> y in xs + [x];
  }

  /** The cheapest path that sees everything in the window. */
  ghost predicate Yields(F: Floats, s: bytes, from: u64, to: u64, span: u64, out: seq<(u64, Q.Sketch)>, error: Option<Error>) {
    var raw, buckets := Has(SegmentsIn(s), 5, from, to), Has(SegmentsIn(s), 6, from, to);
    if ScanSeries(s).error.Some? || (!raw && !buckets) then error == ScanSeries(s).error && out == []
    else if !buckets then RawYields(F, s, from, to, span, out, error)
    else if !raw && span == 0 then StoredYields(s, from, to, out, error)
    else MixedYields(F, s, from, to, span, out, error)
  }

  /** `sketchRange`. */
  method SketchRange(F: Floats, s: bytes, from: u64, to: u64, span: u64)
    returns (out: seq<(u64, Q.Sketch)>, error: Option<Error>)
    requires Sane(s, from, to) ==> Encodable(Mix(F, span, ReadBoth(s, from, to).entries))
    ensures Yields(F, s, from, to, span, out, error)
  {
    hide Has, RawYields, StoredYields, MixedYields, ReadBoth, Mix, ScanSeries, Sane, Encodable, SegmentsIn;
    var hasRaw, hasBuckets;
    hasRaw, hasBuckets, error := Kinds(s, from, to);
    if error.Some? || (!hasRaw && !hasBuckets) {
      return [], error;
    }
    if !hasBuckets {
      out, error := SketchRawRange(F, s, from, to, span);
      return;
    }
    if !hasRaw && span == 0 {
      out, error := SketchBucketValues(s, from, to);
      return;
    }
    out, error := SketchMixedRange(F, s, from, to, span);
  }
}
