/** What merging two series makes of their stored buckets, said of the rows that were folded into them. */
module MergedBuckets {
  import opened Words
  import opened FloatModel
  import opened Rows
  import opened Provenance
  import P = SampleState
  import K = SketchState
  import S = Sketches
  import C = SketchCodec
  import B = SketchBytes
  import M = SketchMerges
  import Answers
  import AlignedReads
  import AlignedSketches
  import FastPaths
  import SketchRuns
  import SketchAnswers

  /** The rows of both sides, time by time. */
  function Both(w: Origins, u: Origins): Origins { map t | t in w.Keys + u.Keys :: From(w, t) + From(u, t) }

  lemma BothAt(w: Origins, u: Origins, t: u64)
    ensures t in Both(w, u) <==> t in w || t in u
    ensures t in Both(w, u) ==> Both(w, u)[t] == From(w, t) + From(u, t)
    ensures t in w && t !in u ==> Both(w, u)[t] == w[t]
    ensures t !in w && t in u ==> Both(w, u)[t] == u[t]
  {
    assert From(w, t) + [] == From(w, t) && [] + From(u, t) == From(u, t);
  }

  lemma ValuesConcat(a: seq<Row>, b: seq<Row>)
    ensures Values(a + b) == Values(a) + Values(b)
  {
  }

  // ----- Samples -----

  /** One bucket for each of the times, with the aggregates of its rows. */
  ghost predicate Came(F: Floats, bs: seq<P.SampleBucket>, w: Origins) {
    && IncreasingBy(bs, P.BucketTime)
    && (forall b :: b in bs ==> b.time in w && Answers.Came(F, b, Values(w[b.time])))
    && forall t :: t in w ==> exists b :: b in bs && b.time == t
  }

  ghost predicate MapCame(F: Floats, m: map<u64, P.SampleBucket>, w: Origins) {
    m.Keys == w.Keys && forall t :: t in m ==> m[t].time == t && Answers.Came(F, m[t], Values(w[t]))
  }

  lemma {:induction false} ApplyAt(F: Floats, m: map<u64, P.SampleBucket>, bs: seq<P.SampleBucket>, t: u64)
    requires IncreasingBy(bs, P.BucketTime)
    ensures var n, b := P.ApplyBuckets(F, m, bs), P.BucketMap(bs);
            && (t in n <==> t in m || t in b)
            && (t in n ==> n[t] == if t !in b then m[t] else if t in m then P.Combine(F, m[t], b[t]) else b[t])
  {
    if bs != [] {
      hide P.Combine, IncreasingBy;
      var front, b := bs[..|bs| - 1], bs[|bs| - 1];
      assert bs == front + [b];
      FastPaths.NewTime(front, b, P.BucketTime);
      ApplyAt(F, m, front, t);
    }
  }

  lemma ApplyCame(F: Floats, m: map<u64, P.SampleBucket>, w: Origins, bs: seq<P.SampleBucket>, u: Origins)
    requires MapCame(F, m, w) && IncreasingBy(bs, P.BucketTime) && MapCame(F, P.BucketMap(bs), u) && AlignedReads.Regroups(F)
    ensures MapCame(F, P.ApplyBuckets(F, m, bs), Both(w, u))
  {
    hide Answers.Came, AlignedReads.Regroups, IncreasingBy, P.Combine, P.ApplyBuckets, P.BucketMap, Both;
    var n, b := P.ApplyBuckets(F, m, bs), P.BucketMap(bs);
    forall t: u64
      ensures t in n <==> t in Both(w, u)
      ensures t in n ==> n[t].time == t && Answers.Came(F, n[t], Values(Both(w, u)[t]))
    {
      ApplyAt(F, m, bs, t);
      BothAt(w, u, t);
      if t in m && t in b {
        Answers.CombinedCame(F, m[t], b[t], Values(w[t]), Values(u[t]));
        ValuesConcat(w[t], u[t]);
      }
    }
  }

  lemma CameByTime(F: Floats, bs: seq<P.SampleBucket>, w: Origins)
    requires Came(F, bs, w)
    ensures MapCame(F, P.BucketMap(bs), w)
  {
    hide Answers.Came;
    ByTimeKeyed(bs, P.BucketTime);
  }

  /** Merged buckets hold the aggregates of the rows of both sides, those of the receiving side first. */
  lemma MergedCame(F: Floats, a: seq<P.SampleBucket>, b: seq<P.SampleBucket>, w: Origins, u: Origins)
    requires Came(F, a, w) && Came(F, b, u) && AlignedReads.Regroups(F)
    ensures Came(F, P.MergeBuckets(F, a, b), Both(w, u))
  {
    CameByTime(F, a, w);
    CameByTime(F, b, u);
    hide Answers.Came, AlignedReads.Regroups, P.ApplyBuckets, P.BucketMap, InOrder, SortedTimes, IncreasingBy, Both;
    ApplyCame(F, P.BucketMap(a), w, b, u);
    CameInOrder(F, P.ApplyBuckets(F, P.BucketMap(a), b), Both(w, u));
  }

  lemma CameInOrder(F: Floats, m: map<u64, P.SampleBucket>, w: Origins)
    requires MapCame(F, m, w)
    ensures Came(F, InOrder(m), w)
  {
    hide Answers.Came, InOrder, SortedTimes, IncreasingBy;
    InOrderIncreasing(m, P.BucketTime);
    forall t | t in w
      ensures exists b :: b in InOrder(m) && b.time == t
    {
      assert t in SortedTimes(m);
      var i :| 0 <= i < |m| && SortedTimes(m)[i] == t;
      assert InOrder(m)[i] in InOrder(m);
    }
  }

  // ----- Sketches -----

  /** One bucket for each of the times, with a sketch of its rows. */
  ghost predicate Held(F: Floats, bs: seq<K.SketchBucket>, w: Origins) {
    && IncreasingBy(bs, K.BucketTime)
    && (forall b :: b in bs ==> b.time in w && w[b.time] != [] && SketchRuns.Holds(F, b, w[b.time]))
    && forall t :: t in w ==> exists b :: b in bs && b.time == t
  }

  ghost predicate Sketched(F: Floats, t: u64, v: S.Summary, rows: seq<Row>) {
    rows != [] && SketchRuns.Of(F, t, v, rows) && S.Unmixed(v) && M.Sound(v) && v.exact.None?
  }

  ghost predicate MapHeld(F: Floats, m: map<u64, S.Summary>, w: Origins) {
    m.Keys == w.Keys && forall t :: t in m ==> Sketched(F, t, m[t], w[t])
  }

  ghost predicate ListHeld(F: Floats, bs: seq<K.SketchBucket>, w: Origins) {
    && IncreasingBy(bs, K.BucketTime)
    && (forall t :: t in w <==> t in ByTime(bs, K.BucketTime))
    && (forall b :: b in bs ==> b.time in w && w[b.time] != [] && SketchRuns.Holds(F, b, w[b.time]))
  }

  lemma HeldByTime(F: Floats, bs: seq<K.SketchBucket>, w: Origins)
    requires Held(F, bs, w)
    ensures ListHeld(F, bs, w)
  {
    hide SketchRuns.Holds;
    ByTimeKeyed(bs, K.BucketTime);
  }

  lemma TakesBytes(F: Floats, t: u64, v: S.Summary, rows: seq<Row>, b: K.SketchBucket, more: seq<Row>)
    requires Sketched(F, t, v, rows) || (v == S.NEW && rows == [])
    requires b.time == t && more != [] && SketchRuns.Holds(F, b, more)
    ensures Sketched(F, t, B.MergeBytes(F, v, b.data), rows + more)
  {
    hide S.Represents, FastPaths.CanonOf, S.Merge, M.Sound;
    var w :| FastPaths.CanonOf(b.data, w) && SketchRuns.Of(F, t, w, more);
    AlignedSketches.CanonMerges(F, b.data, v, w);
    AlignedSketches.CanonExact(b.data, w);
    M.NewSound(F);
    S.NewRepresents(F);
    ValuesConcat(rows, more);
    ValuesConcat([], more);
    Unmix(F, w, more);
    SketchAnswers.BinnedMerge(F, v, Values(rows), w, Values(more));
    FastPaths.SoundMerge(F, v, w);
  }

  lemma Unmix(F: Floats, w: S.Summary, rows: seq<Row>)
    requires S.Represents(F, w, Values(rows)) && rows != []
    ensures w.count > 0
  {
  }

  lemma {:induction false} MergeItemsAt(F: Floats, m: map<u64, S.Summary>, bs: seq<K.SketchBucket>, t: u64)
    requires IncreasingBy(bs, K.BucketTime)
    ensures var n, b := K.MergeItems(F, m, bs), ByTime(bs, K.BucketTime);
            && (t in n <==> t in m || t in b)
            && (t in n ==> n[t] == if t in b then B.MergeBytes(F, K.At(m, t), b[t].data) else m[t])
  {
    if bs != [] {
      hide B.MergeBytes, IncreasingBy;
      var front, b := bs[..|bs| - 1], bs[|bs| - 1];
      assert bs == front + [b];
      FastPaths.NewTime(front, b, K.BucketTime);
      MergeItemsAt(F, m, front, t);
    }
  }

  lemma MergeItemsHeld(F: Floats, m: map<u64, S.Summary>, w: Origins, bs: seq<K.SketchBucket>, u: Origins)
    requires MapHeld(F, m, w) && ListHeld(F, bs, u)
    ensures MapHeld(F, K.MergeItems(F, m, bs), Both(w, u))
  {
    hide Sketched, SketchRuns.Holds, IncreasingBy, B.MergeBytes, K.MergeItems, ByTime, Both;
    var n, b := K.MergeItems(F, m, bs), ByTime(bs, K.BucketTime);
    ByTimeKeyed(bs, K.BucketTime);
    forall t: u64
      ensures t in n <==> t in Both(w, u)
      ensures t in n ==> Sketched(F, t, n[t], Both(w, u)[t])
    {
      MergeItemsAt(F, m, bs, t);
      BothAt(w, u, t);
      if t in b {
        TakesBytes(F, t, K.At(m, t), From(w, t), b[t], u[t]);
      }
    }
  }

  lemma Encodes(F: Floats, t: u64, v: S.Summary, rows: seq<Row>, b: K.SketchBucket)
    requires Sketched(F, t, v, rows) && b.time == t
    requires C.Storable(S.Approximate(F, v)) && b.data == C.ApproxBytes(S.Approximate(F, v))
    ensures SketchRuns.Holds(F, b, rows)
  {
    hide S.Represents, M.Sound, C.Storable, C.ApproxBytes;
    assert FastPaths.CanonOf(b.data, v);
  }

  /** Merged buckets hold sketches of the rows of both sides. */
  lemma MergedHeld(F: Floats, a: seq<K.SketchBucket>, b: seq<K.SketchBucket>, w: Origins, u: Origins)
    requires Held(F, a, w) && Held(F, b, u) && K.Encodable(F, K.MergedMap(F, a, b))
    ensures Held(F, K.ToBuckets(F, K.MergedMap(F, a, b)), Both(w, u))
  {
    HeldByTime(F, a, w);
    HeldByTime(F, b, u);
    hide Held, MapHeld, ListHeld, K.ToBuckets, K.MergeItems, K.Encodable, Both;
    NothingHeld(F, a, w);
    MergeItemsHeld(F, K.MergeItems(F, map[], a), w, b, u);
    HeldAgain(F, K.MergedMap(F, a, b), Both(w, u));
  }

  lemma NothingHeld(F: Floats, a: seq<K.SketchBucket>, w: Origins)
    requires ListHeld(F, a, w)
    ensures MapHeld(F, K.MergeItems(F, map[], a), w)
  {
    hide ListHeld, K.MergeItems, Sketched;
    MergeItemsHeld(F, map[], map[], a, w);
    assert Both(map[], w) == w by {
      assert forall t :: t in w ==> From(map[], t) + From(w, t) == w[t];
    }
  }

  lemma HeldAgain(F: Floats, m: map<u64, S.Summary>, w: Origins)
    requires MapHeld(F, m, w) && K.Encodable(F, m)
    ensures Held(F, K.ToBuckets(F, m), w)
  {
    hide Sketched, SketchRuns.Holds, SortedTimes, K.ToBuckets, S.Approximate, C.Storable, C.ApproxBytes;
    M.ToBucketsAt(F, m);
    var bs := K.ToBuckets(F, m);
    forall b | b in bs
      ensures b.time in w && w[b.time] != [] && SketchRuns.Holds(F, b, w[b.time])
    {
      Encodes(F, b.time, m[b.time], w[b.time], b);
      SomeRows(F, b.time, m[b.time], w[b.time]);
    }
    forall i, j | 0 <= i < j < |bs|
      ensures K.BucketTime(bs[i]) < K.BucketTime(bs[j])
    {
      assert bs[i].time < bs[j].time;
    }
    forall t | t in w
      ensures exists b :: b in bs && b.time == t
    {
      assert t in SortedTimes(m);
      var i :| 0 <= i < |m| && SortedTimes(m)[i] == t;
      K.ToBucketsIndex(F, m, i);
      assert bs[i] in bs;
    }
  }

  lemma SomeRows(F: Floats, t: u64, v: S.Summary, rows: seq<Row>)
    requires Sketched(F, t, v, rows)
    ensures rows != []
  {
  }
}
