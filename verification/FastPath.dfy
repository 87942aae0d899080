/** When appending without a merge means the same as merging. */
module FastPaths {
  import opened Words
  import opened Varint
  import opened FloatModel
  import opened Sorted
  import G = Histograms
  import opened Rows
  import opened Pendings
  import opened Blocks
  import opened Segments
  import opened Marshalling
  import opened Appending
  import opened AppendLaws
  import P = SampleState
  import N = CounterState
  import K = SketchState
  import M = SketchMerges
  import S = Sketches
  import C = SketchCodec
  import B = SketchBytes

  // ----- Samples -----

  lemma NewTime<T>(s: seq<T>, x: T, time: T -> u64)
    requires IncreasingBy(s + [x], time)
    ensures IncreasingBy(s, time) && time(x) !in ByTime(s, time)
  {
    ByTimeKeyed(s, time);
    assert (s + [x])[|s|] == x;
    forall i, j | 0 <= i < j < |s| ensures time(s[i]) < time(s[j]) { assert (s + [x])[i] == s[i] && (s + [x])[j] == s[j]; }
    forall t | t in ByTime(s, time)
      ensures t < time(x)
    {
      var y := ByTime(s, time)[t];
      var i :| 0 <= i < |s| && s[i] == y;
      assert (s + [x])[i] == y && time((s + [x])[i]) < time((s + [x])[|s|]);
    }
  }

  lemma ByTimeSnoc<T>(s: seq<T>, x: T, time: T -> u64)
    ensures ByTime(s + [x], time) == ByTime(s, time)[time(x) := x]
  {
    assert (s + [x])[..|s|] == s;
  }

  lemma {:induction false} ApplyLater(a: seq<Row>, b: seq<Row>)
    requires IncreasingBy(a + b, P.RowTime)
    ensures P.Apply(P.Load(a), b) == P.Load(a + b)
  {
    if b == [] {
      assert a + b == a;
    } else {
      hide ByTime, P.Newer;
      var front, x := b[..|b| - 1], b[|b| - 1];
      assert a + b == (a + front) + [x];
      NewTime(a + front, x, P.RowTime);
      ApplyLater(a, front);
      ByTimeSnoc(a + front, x, P.RowTime);
    }
  }

  lemma {:induction false} ApplyBucketsLater(F: Floats, a: seq<P.SampleBucket>, b: seq<P.SampleBucket>)
    requires IncreasingBy(a + b, P.BucketTime)
    ensures P.ApplyBuckets(F, P.BucketMap(a), b) == P.BucketMap(a + b)
  {
    if b == [] {
      assert a + b == a;
    } else {
      hide ByTime, P.Combine;
      var front, x := b[..|b| - 1], b[|b| - 1];
      assert a + b == (a + front) + [x];
      NewTime(a + front, x, P.BucketTime);
      ApplyBucketsLater(F, a, front);
      ByTimeSnoc(a + front, x, P.BucketTime);
    }
  }

  lemma SamplesLater(F: Floats, p: P.Samples, d: P.Samples)
    requires IncreasingBy(p.rows + d.rows, P.RowTime) && IncreasingBy(p.buckets + d.buckets, P.BucketTime)
    ensures P.Merged(F, p, d) == P.Samples(p.rows + d.rows, p.buckets + d.buckets)
  {
    hide ByTime, InOrder, P.Apply, P.ApplyBuckets;
    ApplyLater(p.rows, d.rows);
    InOrderOfByTime(p.rows + d.rows, P.RowTime);
    ApplyBucketsLater(F, p.buckets, d.buckets);
    InOrderOfByTime(p.buckets + d.buckets, P.BucketTime);
  }

  // ----- Counters -----

  lemma {:induction false} SumBucketsConcat(m: map<u64, u64>, a: seq<N.CounterBucket>, b: seq<N.CounterBucket>)
    ensures N.SumBuckets(m, a + b) == N.SumBuckets(N.SumBuckets(m, a), b)
  {
    if b == [] {
      assert a + b == a;
    } else {
      assert (a + b)[..|a| + |b| - 1] == a + b[..|b| - 1];
      SumBucketsConcat(m, a, b[..|b| - 1]);
    }
  }

  lemma BucketOrders(bs: seq<N.CounterBucket>)
    requires IncreasingBy(bs, N.BucketTime)
    ensures N.BucketsIncreasing(bs)
  {
    forall i, j | 0 <= i < j < |bs| ensures bs[i].time < bs[j].time { assert N.BucketTime(bs[i]) < N.BucketTime(bs[j]); }
  }

  /** Summing buckets with distinct times in order and listing them again changes nothing. */
  lemma ToBucketsOfSums(bs: seq<N.CounterBucket>)
    requires IncreasingBy(bs, N.BucketTime)
    ensures N.ToBuckets(N.SumBuckets(map[], bs)) == bs
  {
    hide N.SumBuckets, N.ToBuckets, TimesOf, SortedTimes, IncreasingBy, N.BucketsIncreasing;
    BucketOrders(bs);
    N.SumDistinct(bs);
    var m := N.SumBuckets(map[], bs);
    var q := TimesOf(bs, N.BucketTime);
    MapTimes(bs, N.BucketTime, m);
    SortedTimesUnique(m, q);
    forall i | 0 <= i < |bs|
      ensures N.ToBuckets(m)[i] == bs[i]
    {
      N.ToBucketsIndex(m, i);
      TimesAt(bs, N.BucketTime, i);
      assert bs[i] in bs;
    }
  }

  lemma MapTimes<T, V>(s: seq<T>, time: T -> u64, m: map<u64, V>)
    requires IncreasingBy(s, time)
    requires forall t :: t in m <==> exists x :: x in s && time(x) == t
    ensures Increasing(TimesOf(s, time)) && forall t: u64 :: t in TimesOf(s, time) <==> t in m
    ensures |m| == |s|
  {
    var q := TimesOf(s, time);
    forall t: u64
      ensures t in q <==> t in m
    {
      if t in q {
        var i :| 0 <= i < |q| && q[i] == t;
        assert s[i] in s;
      }
      if t in m {
        var x :| x in s && time(x) == t;
        var i :| 0 <= i < |s| && s[i] == x;
        assert q[i] == t;
      }
    }
    forall i, j | 0 <= i < j < |q| ensures q[i] < q[j] { assert time(s[i]) < time(s[j]); }
    SortedTimesUnique(m, q);
  }

  lemma DistinctParts(a: seq<Row>, b: seq<Row>)
    requires N.Distinct(a)
    requires forall t, u :: t in TimesOf(a, P.RowTime) && u in TimesOf(b, P.RowTime) ==> t < u
    ensures N.Distinct(a + b) <==> N.Distinct(b)
  {
    var s := a + b;
    if N.Distinct(b) {
      forall i, j | 0 <= i < j < |s|
        ensures s[i] != s[j]
      {
        if i < |a| <= j {
          assert TimesOf(a, P.RowTime)[i] in TimesOf(a, P.RowTime);
          assert TimesOf(b, P.RowTime)[j - |a|] in TimesOf(b, P.RowTime);
        }
      }
    }
    if N.Distinct(s) {
      forall i, j | 0 <= i < j < |b| ensures b[i] != b[j] { assert s[|a| + i] == b[i] && s[|a| + j] == b[j]; }
    }
  }

  lemma CountersLater(p: N.Counters, d: N.Counters)
    requires Nondecreasing(p.rows + d.rows) && N.Distinct(p.rows)
    requires forall t, u :: t in TimesOf(p.rows, P.RowTime) && u in TimesOf(d.rows, P.RowTime) ==> t < u
    requires IncreasingBy(p.buckets + d.buckets, N.BucketTime)
    ensures N.MergedInto(p, d, N.Counters(p.rows + d.rows, p.buckets + d.buckets)) <==> N.Distinct(d.rows)
  {
    hide N.SumBuckets, N.ToBuckets, N.Distinct, Nondecreasing, TimesOf, IncreasingBy;
    DistinctParts(p.rows, d.rows);
    SumBucketsConcat(map[], p.buckets, d.buckets);
    ToBucketsOfSums(p.buckets + d.buckets);
    assert forall r :: r in p.rows + d.rows <==> r in p.rows || r in d.rows;
    assert N.Ops(p.rows + d.rows) == N.Ops(p.rows) + N.Ops(d.rows);
  }

  // ----- Sketches -----

  /** Bytes a merge or a compaction writes: an approximated sketch that accounts for what it holds. */
  ghost predicate Canon(data: bytes) {
    exists v :: CanonOf(data, v)
  }

  ghost predicate CanonOf(data: bytes, v: S.Summary) {
    M.Sound(v) && C.Storable(v) && v.exact.None? && data == C.ApproxBytes(v)
  }

  ghost predicate Canonical(bs: seq<K.SketchBucket>) {
    forall b :: b in bs ==> Canon(b.data)
  }

  /** Canonical bytes merged into an empty sketch and encoded again come out the same. */
  lemma CanonReencodes(F: Floats, data: bytes)
    requires Canon(data) && forall x :: F.add(0, x) == x
    ensures var v := B.MergeBytes(F, S.NEW, data);
            M.Sound(v) && S.Approximate(F, v) == v && C.Storable(v) && C.ApproxBytes(v) == data
  {
    hide C.ApproxBytes, C.Storable, B.MergeBytes, M.Sound;
    var v :| CanonOf(data, v);
    M.StoreAndLoad(F, v);
  }

  lemma {:induction false} MergeItemsLater(F: Floats, a: seq<K.SketchBucket>, b: seq<K.SketchBucket>)
    requires IncreasingBy(a + b, K.BucketTime)
    ensures K.MergeItems(F, K.DecodeItems(F, a), b) == K.DecodeItems(F, a + b)
  {
    if b == [] {
      assert a + b == a;
    } else {
      hide B.MergeBytes, K.DecodeItems;
      var front, x := b[..|b| - 1], b[|b| - 1];
      assert a + b == (a + front) + [x];
      NewTime(a + front, x, K.BucketTime);
      DecodeTimes(F, a + front);
      MergeItemsLater(F, a, front);
      M.DecodeSnoc(F, a + b);
    }
  }

  lemma {:induction false} DecodeTimes(F: Floats, s: seq<K.SketchBucket>)
    ensures forall t :: t in K.DecodeItems(F, s) <==> t in ByTime(s, K.BucketTime)
  {
    hide B.MergeBytes;
    if s != [] {
      DecodeTimes(F, s[..|s| - 1]);
    }
  }

  lemma SketchOrders(bs: seq<K.SketchBucket>)
    requires IncreasingBy(bs, K.BucketTime)
    ensures M.BucketsIncreasing(bs)
  {
    forall i, j | 0 <= i < j < |bs| ensures bs[i].time < bs[j].time { assert K.BucketTime(bs[i]) < K.BucketTime(bs[j]); }
  }

  /** Decoding canonical buckets gives sound sketches, and encoding those the same buckets. */
  lemma CanonicalReencodes(F: Floats, bs: seq<K.SketchBucket>)
    requires IncreasingBy(bs, K.BucketTime) && Canonical(bs) && forall x :: F.add(0, x) == x
    ensures var m := K.DecodeItems(F, bs); M.AllSound(m) && K.Encodable(F, m) && K.ToBuckets(F, m) == bs
  {
    hide B.MergeBytes, C.ApproxBytes, C.Storable, M.Sound, S.Approximate, K.DecodeItems, Canon, K.ToBuckets, SortedTimes, TimesOf,
         IncreasingBy, M.BucketsIncreasing;
    SketchOrders(bs);
    M.DecodeDistinct(F, bs);
    var m := K.DecodeItems(F, bs);
    forall t | t in m
      ensures M.Sound(m[t]) && C.Storable(S.Approximate(F, m[t]))
    {
      var b :| b in bs && b.time == t;
      CanonReencodes(F, b.data);
    }
    var q := TimesOf(bs, K.BucketTime);
    MapTimes(bs, K.BucketTime, m);
    SortedTimesUnique(m, q);
    forall i | 0 <= i < |bs|
      ensures K.ToBuckets(F, m)[i] == bs[i]
    {
      TimesAt(bs, K.BucketTime, i);
      K.ToBucketsIndex(F, m, i);
      assert bs[i] in bs;
      CanonReencodes(F, bs[i].data);
    }
  }

  lemma TagsParts(a: seq<Row>, b: seq<Row>)
    requires K.DistinctTags(a)
    requires forall t, u :: t in TimesOf(a, P.RowTime) && u in TimesOf(b, P.RowTime) ==> t < u
    ensures K.DistinctTags(a + b) <==> K.DistinctTags(b)
  {
    var s := a + b;
    if K.DistinctTags(b) {
      forall i, j | 0 <= i < j < |s|
        ensures K.TagOf(s[i]) != K.TagOf(s[j])
      {
        if j < |a| {
          assert K.TagOf(a[i]) != K.TagOf(a[j]);
        } else if |a| <= i {
          assert K.TagOf(b[i - |a|]) != K.TagOf(b[j - |a|]);
        } else {
          var x, y := a[i], b[j - |a|];
          RowTimes(a, i);
          RowTimes(b, j - |a|);
        }
      }
    }
    if K.DistinctTags(s) {
      forall i, j | 0 <= i < j < |b| ensures K.TagOf(b[i]) != K.TagOf(b[j]) { assert s[|a| + i] == b[i] && s[|a| + j] == b[j]; }
    }
  }

  lemma SketchesLater(F: Floats, p: K.Series, d: K.Series)
    requires Nondecreasing(p.rows + d.rows) && K.DistinctTags(p.rows)
    requires forall t, u :: t in TimesOf(p.rows, P.RowTime) && u in TimesOf(d.rows, P.RowTime) ==> t < u
    requires IncreasingBy(p.buckets + d.buckets, K.BucketTime)
    requires Canonical(p.buckets) && Canonical(d.buckets) && forall x :: F.add(0, x) == x
    ensures K.MergedInto(F, p, d, K.Series(p.rows + d.rows, p.buckets + d.buckets)) <==> K.DistinctTags(d.rows)
  {
    hide K.Ops, K.ToBuckets, K.DistinctTags, K.Encodable, K.DecodeItems, K.MergeItems, Nondecreasing, TimesOf, IncreasingBy, Canon,
         M.AllSound;
    TagsParts(p.rows, d.rows);
    M.OpsConcat(map[], p.rows, d.rows);
    var s := p.buckets + d.buckets;
    assert Canonical(s);
    NothingDecoded(F);
    assert [] + p.buckets == p.buckets;
    IncreasingParts(p.buckets, d.buckets, K.BucketTime);
    MergeItemsLater(F, [], p.buckets);
    MergeItemsLater(F, p.buckets, d.buckets);
    CanonicalReencodes(F, s);
  }

  lemma NothingDecoded(F: Floats)
    ensures K.DecodeItems(F, []) == map[]
  {
  }

  lemma IncreasingParts<T>(a: seq<T>, b: seq<T>, time: T -> u64)
    requires IncreasingBy(a + b, time)
    ensures IncreasingBy(a, time)
  {
    forall i, j | 0 <= i < j < |a| ensures time(a[i]) < time(a[j]) { assert (a + b)[i] == a[i] && (a + b)[j] == a[j]; }
  }

  // ----- The refinement -----

  /** States reached by merging and compacting. */
  ghost predicate Normal(p: State) {
    Appendable(p) && N.Distinct(p.counters.rows) && K.DistinctTags(p.sketches.rows) && Canonical(p.sketches.buckets)
  }

  /** Appending a later delta without a merge gives what a merge may give exactly when no counter add and
      no sketch tag occurs twice in the delta. */
  lemma FastPathMerges(F: Floats, p: State, d: State)
    requires Normal(p) && Appendable(d) && Canonical(d.sketches.buckets) && Before(p, d)
    requires forall x :: F.add(0, x) == x
    ensures MergedInto(F, p, d, Concat(p, d)) <==>
            N.Distinct(d.counters.rows) && K.DistinctTags(d.sketches.rows)
  {
    ConcatAppendable(p, d);
    hide TimesOf, IncreasingBy, Nondecreasing, AllTimes, N.Distinct, K.DistinctTags, Canonical;
    forall t { PartTimes(p, t); }
    forall t { PartTimes(d, t); }
    SamplesLater(F, p.samples, d.samples);
    CountersLater(p.counters, d.counters);
    SketchesLater(F, p.sketches, d.sketches);
  }

  // ----- Normal states stay normal -----

  lemma SoundMerge(F: Floats, v: S.Summary, w: S.Summary)
    requires M.Sound(v) && M.Sound(w) && w.exact.None?
    ensures M.Sound(S.Merge(F, v, w))
  {
    hide G.Collapse, G.Plus, G.Codes, S.HistOf, G.Mass, G.Positive;
    if w.count > 0 {
      M.SoundApproximate(F, v);
      var a, b := S.Approximate(F, v).hist, w.hist;
      G.CollapseShape(G.Plus(a, b));
      G.MassPlus(a, b);
      G.PlusPositive(a, b);
    }
  }

  lemma {:induction false} MergeItemsSound(F: Floats, m: map<u64, S.Summary>, items: seq<K.SketchBucket>)
    requires M.AllSound(m) && Canonical(items) && forall x :: F.add(0, x) == x
    ensures M.AllSound(K.MergeItems(F, m, items))
  {
    hide M.AllSound, Canonical, Canon, K.At, B.MergeBytes;
    if items != [] {
      hide K.MergeItems;
      var front, x := items[..|items| - 1], items[|items| - 1];
      CanonicalParts(items);
      assert items == front + [x];
      MergeItemsSound(F, m, front);
      MergeOneSound(F, K.MergeItems(F, m, front), x);
      K.MergeItemsSnoc(F, m, front, x);
    }
  }

  lemma CanonicalParts(items: seq<K.SketchBucket>)
    requires Canonical(items) && items != []
    ensures Canonical(items[..|items| - 1]) && Canon(items[|items| - 1].data)
  {
    hide Canon;
  }

  lemma MergeOneSound(F: Floats, m: map<u64, S.Summary>, x: K.SketchBucket)
    requires M.AllSound(m) && Canon(x.data)
    ensures M.AllSound(m[x.time := B.MergeBytes(F, K.At(m, x.time), x.data)])
  {
    hide B.MergeBytes, M.Sound, Canon;
    M.NewSound(F);
    MergeCanonSound(F, K.At(m, x.time), x.data);
  }

  lemma MergeCanonSound(F: Floats, v: S.Summary, data: bytes)
    requires M.Sound(v) && Canon(data)
    ensures M.Sound(B.MergeBytes(F, v, data))
  {
    hide C.ApproxBytes, C.Storable, C.Decode, S.Merge;
    var w :| CanonOf(data, w);
    B.ApproxRoundTrip(w);
    SoundMerge(F, v, w);
  }

  /** Encoded sound sketches are canonical. */
  lemma SoundBuckets(F: Floats, m: map<u64, S.Summary>)
    requires M.AllSound(m) && K.Encodable(F, m)
    ensures Canonical(K.ToBuckets(F, m))
  {
    hide C.ApproxBytes, C.Storable, M.Sound, S.Approximate, K.ToBuckets, SortedTimes;
    M.ToBucketsAt(F, m);
    forall b | b in K.ToBuckets(F, m)
      ensures Canon(b.data)
    {
      M.SoundApproximate(F, m[b.time]);
      assert CanonOf(b.data, S.Approximate(F, m[b.time]));
    }
  }

  /** Whatever rows are merged in, and in whatever order they came, the result is normal. */
  lemma MergeNormal(F: Floats, p: State, d: State, m: State)
    requires MergedInto(F, p, d, m)
    requires Canonical(p.sketches.buckets) && Canonical(d.sketches.buckets) && forall x :: F.add(0, x) == x
    ensures Normal(m)
  {
    hide M.Sound, Canonical, K.ToBuckets, K.Encodable;
    MergeAppendable(F, p, d, m);
    M.NewSound(F);
    MergeItemsSound(F, map[], p.sketches.buckets);
    MergeItemsSound(F, K.MergeItems(F, map[], p.sketches.buckets), d.sketches.buckets);
    SoundBuckets(F, K.MergedMap(F, p.sketches.buckets, d.sketches.buckets));
  }

  lemma YoungParts(rows: seq<Row>, cutoff: u64)
    requires Nondecreasing(rows)
    ensures Nondecreasing(Young(rows, cutoff))
    ensures N.Distinct(rows) ==> N.Distinct(Young(rows, cutoff))
    ensures K.DistinctTags(rows) ==> K.DistinctTags(Young(rows, cutoff))
  {
    hide Old, Young;
    var o, y := Old(rows, cutoff), Young(rows, cutoff);
    OldThenYoung(rows, cutoff);
    NondecreasingParts(o, y);
    forall i, j | 0 <= i < j < |y|
      ensures N.Distinct(rows) ==> y[i] != y[j]
      ensures K.DistinctTags(rows) ==> K.TagOf(y[i]) != K.TagOf(y[j])
    {
      assert rows[|o| + i] == y[i] && rows[|o| + j] == y[j];
    }
  }

  lemma CompactKeepsNormal(F: Floats, p: State, cutoff: u64, span: u64)
    requires Normal(p) && Compactable(F, p, cutoff, span)
    requires forall x :: F.add(0, x) == x
    ensures Normal(Compacted(F, p, cutoff, span))
  {
    hide M.Sound, Canonical, K.ToBuckets, K.Encodable, P.Compacted, Nondecreasing, IncreasingBy, Young, Old;
    P.CompactNormal(F, p.samples, cutoff, span);
    YoungParts(p.counters.rows, cutoff);
    YoungParts(p.sketches.rows, cutoff);
    CounterBucketsOrdered(N.GroupSums(N.SumBuckets(map[], p.counters.buckets), Old(p.counters.rows, cutoff), span));
    if p.sketches.rows != [] {
      CanonicalReencodes(F, p.sketches.buckets);
      var m := K.DecodeItems(F, p.sketches.buckets);
      M.GroupSound(F, m, Old(p.sketches.rows, cutoff), span);
      SoundBuckets(F, K.CompactedMap(F, p.sketches, cutoff, span));
      SketchBucketsOrdered(F, K.CompactedMap(F, p.sketches, cutoff, span));
    }
  }

  // ----- Appends keep the layout and mean the merge -----

  lemma {:induction false} OpsFinite(ops: map<K.Tag, u64>, rows: seq<Row>)
    requires AllFinite(rows) && forall g :: g in ops ==> Finite(ops[g])
    ensures forall g :: g in K.Ops(ops, rows) ==> Finite(K.Ops(ops, rows)[g])
  {
    if rows != [] {
      hide Finite;
      var n := |rows| - 1;
      assert rows == rows[..n] + [rows[n]];
      OpsFinite(ops, rows[..n]);
    }
  }

  lemma MergeFinite(F: Floats, p: State, d: State, m: State)
    requires MergedInto(F, p, d, m) && AllFinite(p.sketches.rows) && AllFinite(d.sketches.rows)
    ensures AllFinite(m.sketches.rows)
  {
    hide Finite;
    OpsFinite(map[], p.sketches.rows);
    OpsFinite(K.Ops(map[], p.sketches.rows), d.sketches.rows);
    K.OpsOfDistinct(m.sketches.rows);
  }

  /** What an append turns a stored state into: nothing new, both put together, or a merge of both. */
  ghost predicate Grows(F: Floats, p: State, d: State, q: State) {
    MergedInto(F, p, d, q) || (Appendable(d) && Before(p, d) && q == Concat(p, d))
  }

  /** Appending to a series with the layout succeeds and gives a series with the layout: its segments
      carry true bounds, its times are in order and it decodes to both states merged or put together. */
  lemma AppendKeeps(F: Floats, s: bytes, d: State, r: Result<bytes>, blocks: seq<Block>) returns (after: seq<Block>)
    requires Backed(s, blocks) && Fits(d) && AllFinite(d.sketches.rows) && AppendsTo(F, s, d, r)
    ensures r.Ok? && Backed(r.value, after)
    ensures Grows(F, AbsorbAll(EMPTY, blocks), d, AbsorbAll(EMPTY, after))
  {
    hide Appendable, Decoded, AbsorbAll, BlocksOf, Later, AllFinite, BucketsFirst, Written, SegmentsOf, Before, Concat, AllReadable,
         AllGood, Blob;
    BackedDecodes(s, blocks);
    var p := AbsorbAll(EMPTY, blocks);
    ConcatLaws(p, EMPTY, EMPTY);
    ConcatLaws(d, EMPTY, EMPTY);
    if Size(d) == 0 {
      NothingHeld(d);
      NothingBefore(p);
      after := blocks;
    } else if s == [] {
      NothingBacked(blocks);
      NothingBefore(d);
      if Appendable(d) {
        MarshalledBacked(d);
        after :| Backed(Marshalled(d), after) && AbsorbAll(EMPTY, after) == d;
      } else {
        var m :| MergesTo(F, EMPTY, d, m, r.value);
        after := MergedBacked(F, EMPTY, d, m, r.value);
      }
    } else if FastPath(s, d) {
      FastBacked(s, blocks, d);
      LaterMeansBefore(s, blocks, d);
      after := blocks + BlocksOf(d);
    } else {
      var m :| MergesTo(F, p, d, m, r.value);
      BackedFinite(s, blocks);
      after := MergedBacked(F, p, d, m, r.value);
    }
  }

  lemma NothingBefore(p: State)
    ensures Before(p, EMPTY) && Before(EMPTY, p) && Appendable(EMPTY) && AllFinite(EMPTY.sketches.rows)
  {
    hide TimesOf;
    NoTimes();
  }

  lemma NothingBacked(blocks: seq<Block>)
    requires Backed([], blocks)
    ensures AbsorbAll(EMPTY, blocks) == EMPTY
  {
    assert |Written(blocks)| > 0;
  }

  lemma BackedFinite(s: bytes, blocks: seq<Block>)
    requires Backed(s, blocks)
    ensures AllFinite(AbsorbAll(EMPTY, blocks).sketches.rows)
  {
    hide AbsorbAll, AllFinite;
    AbsorbedReadable(blocks);
  }

  lemma MergedBacked(F: Floats, p: State, d: State, m: State, out: bytes) returns (after: seq<Block>)
    requires MergesTo(F, p, d, m, out) && AllFinite(p.sketches.rows) && AllFinite(d.sketches.rows)
    ensures Backed(out, after) && AbsorbAll(EMPTY, after) == m
  {
    hide AbsorbAll, AllFinite, Appendable, BlocksOf, Backed;
    MergeFinite(F, p, d, m);
    MarshalledBacked(m);
    after :| Backed(Marshalled(m), after) && AbsorbAll(EMPTY, after) == m;
  }

  /** The fast path refines the slow one: if no add and no tag occurs twice in the delta, the bytes it
      writes decode to what any merge of the two states holds, up to the order of entries with the same time. */
  lemma FastAppendRefines(F: Floats, s: bytes, blocks: seq<Block>, d: State, m: State) returns (q: State)
    requires Backed(s, blocks) && Normal(AbsorbAll(EMPTY, blocks))
    requires FastPath(s, d) && Fits(d) && AllFinite(d.sketches.rows) && Canonical(d.sketches.buckets)
    requires N.Distinct(d.counters.rows) && K.DistinctTags(d.sketches.rows)
    requires MergedInto(F, AbsorbAll(EMPTY, blocks), d, m) && forall x :: F.add(0, x) == x
    ensures AllGood(BlocksOf(d)) && Decoded(s + Blob(BlocksOf(d))) == Ok(q)
    ensures q.samples == m.samples
    ensures multiset(q.counters.rows) == multiset(m.counters.rows) && q.counters.buckets == m.counters.buckets
    ensures multiset(q.sketches.rows) == multiset(m.sketches.rows) && q.sketches.buckets == m.sketches.buckets
  {
    hide Normal, Appendable, AbsorbAll, Backed, Decoded, BlocksOf, Blob, Before, Later, Canonical, AllGood, AllFinite, Concat,
         P.Merged, N.MergedInto, K.MergedInto;
    var p := AbsorbAll(EMPTY, blocks);
    FastBacked(s, blocks, d);
    BackedDecodes(s + Blob(BlocksOf(d)), blocks + BlocksOf(d));
    LaterMeansBefore(s, blocks, d);
    FastPathMerges(F, p, d);
    q := Concat(p, d);
    N.MergesAgree(p.counters, d.counters, q.counters, m.counters);
    M.MergesAgree(F, p.sketches, d.sketches, q.sketches, m.sketches);
  }
}
