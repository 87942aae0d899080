/** A series in memory: samples, counters and sketches together. */
module Pendings {
  import opened Words
  import opened Reader
  import opened FloatModel
  import opened Rows
  import P = SampleState
  import N = CounterState
  import K = SketchState

  datatype State = State(samples: P.Samples, counters: N.Counters, sketches: K.Series)

  const SECOND := 1_000_000_000

  const EMPTY := State(P.Samples([], []), N.Counters([], []), K.Series([], []))

  function WithSample(p: State, r: Row): State { p.(samples := p.samples.(rows := p.samples.rows + [r])) }

  function WithCounter(p: State, r: Row): State { p.(counters := p.counters.(rows := p.counters.rows + [r])) }

  function WithSketch(p: State, r: Row): State { p.(sketches := p.sketches.(rows := p.sketches.rows + [r])) }

  function Size(p: State): nat {
    |p.samples.rows| + |p.samples.buckets| + |p.counters.rows| + |p.counters.buckets| +
    |p.sketches.rows| + |p.sketches.buckets|
  }

  // ----- Order -----

  /** Samples have distinct times in order; counters and sketches are in order; so are all buckets. */
  predicate Appendable(p: State) {
    && IncreasingBy(p.samples.rows, P.RowTime) && IncreasingBy(p.samples.buckets, P.BucketTime)
    && Nondecreasing(p.counters.rows) && IncreasingBy(p.counters.buckets, N.BucketTime)
    && Nondecreasing(p.sketches.rows) && IncreasingBy(p.sketches.buckets, K.BucketTime)
  }

  /** What one merge may yield: the three parts merge on their own. */
  ghost predicate MergedInto(F: Floats, p: State, delta: State, out: State) {
    && out.samples == P.Merged(F, p.samples, delta.samples)
    && N.MergedInto(p.counters, delta.counters, out.counters)
    && K.MergedInto(F, p.sketches, delta.sketches, out.sketches)
  }

  /** The sketches of both sides can be merged and encoded. */
  ghost predicate Mergeable(F: Floats, p: State, delta: State) {
    K.Encodable(F, K.MergedMap(F, p.sketches.buckets, delta.sketches.buckets))
  }

  ghost predicate Compactable(F: Floats, p: State, cutoff: u64, span: u64) {
    K.Encodable(F, K.CompactedMap(F, p.sketches, cutoff, span))
  }

  ghost function Compacted(F: Floats, p: State, cutoff: u64, span: u64): State
    requires Compactable(F, p, cutoff, span)
  {
    State(P.Compacted(F, p.samples, cutoff, span), N.Compacted(p.counters, cutoff, span),
          K.Compacted(F, p.sketches, cutoff, span))
  }

  /** A merge is appendable whatever it was made of, so encoding it merges no further. */
  lemma MergeAppendable(F: Floats, p: State, delta: State, out: State)
    requires MergedInto(F, p, delta, out)
    ensures Appendable(out)
  {
    P.MergeNormal(F, p.samples, delta.samples);
    CounterBucketsOrdered(N.SumBuckets(N.SumBuckets(map[], p.counters.buckets), delta.counters.buckets));
    SketchBucketsOrdered(F, K.MergedMap(F, p.sketches.buckets, delta.sketches.buckets));
  }

  lemma CounterBucketsOrdered(m: map<u64, u64>)
    ensures IncreasingBy(N.ToBuckets(m), N.BucketTime)
  {
    N.ToBucketsAt(m);
  }

  lemma SketchBucketsOrdered(F: Floats, m: map<u64, K.S.Summary>)
    requires K.Encodable(F, m)
    ensures IncreasingBy(K.ToBuckets(F, m), K.BucketTime)
  {
  }

  // ----- The loops of the order checks -----

  method StrictlyIncreasing<T>(s: seq<T>, time: T -> u64) returns (yes: bool)
    ensures yes <==> IncreasingBy(s, time)
  {
    var i := 1;
    while i < |s|
      invariant 1 <= i && (i <= |s| ==> IncreasingBy(s[..i], time))
      invariant i <= |s| || |s| == 0
    {
      if time(s[i]) <= time(s[i - 1]) {
        return false;
      }
      IncreasingSnoc(s, time, i);
      i := i + 1;
    }
    assert |s| > 0 ==> s[..|s|] == s;
    yes := true;
  }

  lemma IncreasingSnoc<T>(s: seq<T>, time: T -> u64, i: nat)
    requires 0 < i < |s| && IncreasingBy(s[..i], time) && time(s[i - 1]) < time(s[i])
    ensures IncreasingBy(s[..i + 1], time)
  {
    forall j | 0 <= j < i
      ensures time(s[j]) < time(s[i])
    {
      assert s[..i][j] == s[j] && s[..i][i - 1] == s[i - 1];
    }
  }

  method InTimeOrder(rows: seq<Row>) returns (yes: bool)
    ensures yes <==> Nondecreasing(rows)
  {
    var i := 1;
    while i < |rows|
      invariant 1 <= i && (i <= |rows| ==> Nondecreasing(rows[..i]))
      invariant i <= |rows| || |rows| == 0
    {
      if rows[i].time < rows[i - 1].time {
        return false;
      }
      assert forall j :: 0 <= j < i ==> rows[..i][j] == rows[j];
      i := i + 1;
    }
    assert |rows| > 0 ==> rows[..|rows|] == rows;
    yes := true;
  }

  // ----- The earliest time -----

  function TimesOf<T>(s: seq<T>, time: T -> u64): (ts: seq<u64>)
    ensures |ts| == |s|
  {
    seq(|s|, i requires 0 <= i < |s| => time(s[i]))
  }

  lemma TimesAt<T>(s: seq<T>, time: T -> u64, i: nat)
    requires i < |s|
    ensures TimesOf(s, time)[i] == time(s[i]) && time(s[i]) in TimesOf(s, time)
  {
    assert TimesOf(s, time)[i] == time(s[i]);
  }

  lemma RowTimes(rows: seq<Row>, i: nat)
    requires i < |rows|
    ensures TimesOf(rows, P.RowTime)[i] == rows[i].time
    ensures rows[i].time in TimesOf(rows, P.RowTime)
  {
    assert TimesOf(rows, P.RowTime)[i] == rows[i].time;
  }

  /** The times of all entries. */
  function AllTimes(p: State): seq<u64> {
    TimesOf(p.samples.rows, P.RowTime) + TimesOf(p.samples.buckets, P.BucketTime) +
    TimesOf(p.counters.rows, P.RowTime) + TimesOf(p.counters.buckets, N.BucketTime) +
    TimesOf(p.sketches.rows, P.RowTime) + TimesOf(p.sketches.buckets, K.BucketTime)
  }

  ghost predicate IsLeast(least: Option<u64>, ts: seq<u64>) {
    match least
    case None => ts == []
    case Some(t) => t in ts && forall x :: x in ts ==> t <= x
  }

  method Earlier<T>(least: Option<u64>, s: seq<T>, time: T -> u64, ghost before: seq<u64>) returns (out: Option<u64>)
    requires IsLeast(least, before)
    ensures IsLeast(out, before + TimesOf(s, time))
  {
    out := least;
    assert before + TimesOf(s[..0], time) == before;
    for i := 0 to |s|
      invariant IsLeast(out, before + TimesOf(s[..i], time))
    {
      assert before + TimesOf(s[..i + 1], time) == (before + TimesOf(s[..i], time)) + [time(s[i])];
      if out.None? || time(s[i]) < out.value {
        out := Some(time(s[i]));
      }
    }
    assert s[..|s|] == s;
  }

  // ----- In place -----

  class Pending {
    const samples: P.SampleData
    const counters: N.CounterData
    const sketches: K.SketchData

    predicate Valid()
      reads samples, counters, sketches
    {
      samples.Valid() && counters.Valid() && sketches.Valid()
    }

    ghost function View(): State
      reads samples, counters, sketches
      requires Valid()
    {
      State(samples.View(), counters.View(), sketches.View())
    }

    constructor ()
      ensures Valid() && View() == EMPTY
      ensures fresh(samples) && fresh(counters) && fresh(sketches)
    {
      samples := new P.SampleData();
      counters := new N.CounterData();
      sketches := new K.SketchData();
    }

    constructor Of(p: State)
      ensures Valid() && View() == p
      ensures fresh(samples) && fresh(counters) && fresh(sketches)
    {
      samples := new P.SampleData.Of(p.samples);
      counters := new N.CounterData.Of(p.counters);
      sketches := new K.SketchData.Of(p.sketches);
    }

    method AddSample(at: u64, value: u64, clock: u64, replica: u64)
      requires Valid()
      modifies samples
      ensures Valid()
      ensures View() == WithSample(old(View()), Row(at, value, clock, replica))
    {
      samples.Add(at, value, clock, replica);
    }

    method AddCounter(at: u64, replica: u64, clock: u64, value: u64)
      requires Valid()
      modifies counters
      ensures Valid()
      ensures View() == WithCounter(old(View()), Row(at, value, clock, replica))
    {
      counters.Add(at, replica, clock, value);
    }

    method AddSketch(at: u64, value: u64, clock: u64, replica: u64)
      requires Valid()
      modifies sketches
      ensures Valid()
      ensures View() == WithSketch(old(View()), Row(at, value, clock, replica))
    {
      sketches.Add(at, value, clock, replica);
    }

    method Merge(F: Floats, delta: State)
      requires Valid() && Mergeable(F, View(), delta)
      modifies samples, counters, sketches
      ensures Valid() && MergedInto(F, old(View()), delta, View())
    {
      samples.Merge(F, delta.samples);
      counters.Merge(delta.counters);
      sketches.Merge(F, delta.sketches);
    }

    method Reset()
      modifies samples, counters, sketches
      ensures Valid() && View() == EMPTY
    {
      samples.Reset();
      counters.Reset();
      sketches.Reset();
    }

    /** The span is in nanoseconds; one that is not positive compacts nothing. */
    method Compact(F: Floats, cutoff: u64, span: i64)
      requires Valid()
      requires span > 0 ==> Compactable(F, View(), cutoff, span / SECOND)
      modifies samples, counters, sketches
      ensures Valid()
      ensures View() == if span > 0 then Compacted(F, old(View()), cutoff, span / SECOND) else old(View())
    {
      if span <= 0 {
        return;
      }
      samples.Compact(F, cutoff, span / SECOND);
      counters.Compact(cutoff, span / SECOND);
      sketches.Compact(F, cutoff, span / SECOND);
    }

    method Count() returns (n: nat)
      requires Valid()
      ensures n == Size(View())
    {
      n := |samples.Time| + |samples.Buckets| + |counters.Time| + |counters.Buckets| +
           |sketches.Time| + |sketches.Buckets|;
    }

    /** `clonePending`: a copy of the contents. */
    method Clone() returns (p: State)
      requires Valid()
      ensures p == View()
    {
      p := State(P.Samples(Zip(samples.Time, samples.Data, samples.Clock, samples.Replica), samples.Buckets),
                 N.Counters(Zip(counters.Time, counters.Value, counters.Clock, counters.Replica), counters.Buckets),
                 K.Series(Zip(sketches.Time, sketches.Data, sketches.Clock, sketches.Replica), sketches.Buckets));
    }
  }

  method IsAppendable(p: State) returns (yes: bool)
    ensures yes <==> Appendable(p)
  {
    yes := StrictlyIncreasing(p.samples.rows, P.RowTime);
    if yes { yes := StrictlyIncreasing(p.samples.buckets, P.BucketTime); }
    if yes { yes := InTimeOrder(p.counters.rows); }
    if yes { yes := StrictlyIncreasing(p.counters.buckets, N.BucketTime); }
    if yes { yes := InTimeOrder(p.sketches.rows); }
    if yes { yes := StrictlyIncreasing(p.sketches.buckets, K.BucketTime); }
  }

  method MinTime(p: State) returns (least: Option<u64>)
    ensures IsLeast(least, AllTimes(p))
  {
    assert IsLeast(None, []);
    hide TimesOf, IsLeast;
    least := Earlier(None, p.samples.rows, P.RowTime, []);
    ghost var s := TimesOf(p.samples.rows, P.RowTime);
    assert [] + s == s;
    least := Earlier(least, p.samples.buckets, P.BucketTime, s);
    s := s + TimesOf(p.samples.buckets, P.BucketTime);
    least := Earlier(least, p.counters.rows, P.RowTime, s);
    s := s + TimesOf(p.counters.rows, P.RowTime);
    least := Earlier(least, p.counters.buckets, N.BucketTime, s);
    s := s + TimesOf(p.counters.buckets, N.BucketTime);
    least := Earlier(least, p.sketches.rows, P.RowTime, s);
    s := s + TimesOf(p.sketches.rows, P.RowTime);
    least := Earlier(least, p.sketches.buckets, K.BucketTime, s);
  }
}
