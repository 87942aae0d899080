/** The approximated sketches of aligned reads are the same before and after a compaction. */
module AlignedSketches {
  import opened Words
  import opened FloatModel
  import opened Rows
  import opened Pendings
  import opened Streams
  import opened Interleavings
  import opened SketchReaders
  import opened SketchPaths
  import opened AlignedFolds
  import opened AlignedReads
  import K = SketchState
  import M = SketchMerges
  import S = Sketches
  import C = SketchCodec
  import B = SketchBytes
  import H = Histograms
  import Z = FastPaths

  // ----- The approximated view of a mixed read -----

  /** An entry with its sketch in the clear. */
  datatype Part = Obs(at: u64, value: u64) | Whole(at: u64, sketch: S.Summary)

  function PartTime(p: Part): u64 { p.at }

  /** What one entry does to an approximated sketch. */
  ghost function Approached(F: Floats, v: S.Summary, p: Part): S.Summary {
    match p
    case Obs(_, x) => S.AddApprox(F, S.Approximate(F, v), x)
    case Whole(_, w) => S.Merge(F, S.Approximate(F, v), w)
  }

  ghost function BinOne(F: Floats, span: u64, m: map<u64, S.Summary>, p: Part): map<u64, S.Summary> {
    var k := BucketOf(p.at, span);
    m[k := Approached(F, K.At(m, k), p)]
  }

  function ObsOf(r: Row): Part { Obs(r.time, r.value) }

  /** Stored sketches and observations as they are binned by output bucket. Stored sketches are binned,
      accounted for, and not empty. */
  ghost function Sketches(F: Floats, span: u64): Family<S.Summary, Part, map<u64, S.Summary>> {
    Family((k: u64) => S.NEW, (v: S.Summary, x: u64) => S.AddApprox(F, v, x), (v: S.Summary, x: u64) => true,
           (k: u64, v: S.Summary) => M.Sound(v) && v.exact.None? && v.count > 0,
           (k: u64, v: S.Summary) => Whole(k, v), ObsOf, PartTime,
           map[], (m: map<u64, S.Summary>, p: Part) => BinOne(F, span, m, p))
  }

  /** The part is what the entry holds. */
  ghost predicate Stands(p: Part, e: Entry) {
    match e
    case Value(at, x) => p == Obs(at, x)
    case Stored(b) => p.Whole? && p.at == b.time && Z.CanonOf(b.data, p.sketch)
  }

  ghost predicate StandAll(ps: seq<Part>, es: seq<Entry>) {
    |ps| == |es| && forall i :: 0 <= i < |es| ==> Stands(ps[i], es[i])
  }

  lemma CanonMerges(F: Floats, data: bytes, v: S.Summary, w: S.Summary)
    requires Z.CanonOf(data, w)
    ensures B.MergeBytes(F, v, data) == S.Merge(F, v, w)
  {
    hide C.ApproxBytes, C.Storable, C.Decode, S.Merge;
    CanonShape(data, w);
    B.ApproxRoundTrip(w);
  }

  lemma ApproximateExact(F: Floats, v: S.Summary, x: u64)
    ensures S.Approximate(F, S.AddExact(F, v, x)) == S.AddApprox(F, S.Approximate(F, v), x)
  {
    if v.count > 0 && v.exact.None? {
      hide S.HistOf, H.Collapse, H.Plus, S.Bins;
    } else {
      hide S.HistOf, H.Collapse, H.Plus, S.Bins;
      var e, b := S.HistOf(F, S.ExactOf(v)), S.Bins(F, x, 1);
      S.HistOfConcat(F, S.ExactOf(v), [x]);
      S.HistOfOne(F, x);
      H.PlusAssociative(v.hist, e, b);
      H.CollapseOfPlus(H.Plus(v.hist, e), b);
      if v.exact.None? {
        NoHist(F);
        H.PlusEmpty(v.hist);
      }
    }
  }

  lemma NoHist(F: Floats)
    ensures S.HistOf(F, []) == H.EMPTY
  {
  }

  lemma ApproximateMerge(F: Floats, v: S.Summary, w: S.Summary)
    requires w.exact.None?
    ensures S.Approximate(F, S.Merge(F, v, w)) == S.Merge(F, S.Approximate(F, v), w)
  {
    hide S.HistOf, H.Collapse, H.Plus;
  }

  lemma MixedApproached(F: Floats, v: S.Summary, e: Entry, p: Part)
    requires Stands(p, e)
    ensures S.Approximate(F, Mixed(F, v, e)) == Approached(F, S.Approximate(F, v), p)
  {
    assert S.Approximate(F, S.Approximate(F, v)) == S.Approximate(F, v) by { hide S.HistOf, H.Collapse; }
    hide S.AddExact, S.AddApprox, S.Merge, S.Approximate, B.MergeBytes, Z.CanonOf;
    match e
    case Value(_, x) => ApproximateExact(F, v, x);
    case Stored(b) =>
      CanonMerges(F, b.data, v, p.sketch);
      CanonExact(b.data, p.sketch);
      ApproximateMerge(F, v, p.sketch);
  }

  lemma CanonExact(data: bytes, w: S.Summary)
    requires Z.CanonOf(data, w)
    ensures w.exact.None? && M.Sound(w)
  {
  }

  lemma SettledStep(F: Floats, span: u64, m: map<u64, S.Summary>, n: map<u64, S.Summary>, e: Entry, p: Part)
    requires M.Settled(F, m, n) && Stands(p, e)
    ensures M.Settled(F, MixOne(F, span, m, e), BinOne(F, span, n, p))
  {
    hide M.Settled, Stands, Mixed, Approached, S.Approximate, K.At, BucketOf;
    SameTime(p, e);
    var k := BucketOf(TimeOf(e), span);
    M.SettledAt(F, m, n, k);
    MixedApproached(F, K.At(m, k), e, p);
    M.SettledUpdate(F, m, n, k, Mixed(F, K.At(m, k), e));
  }

  lemma NothingViewed(F: Floats, span: u64, es: seq<Entry>, ps: seq<Part>)
    requires es == [] && ps == []
    ensures M.Settled(F, Mix(F, span, es), Seen(Sketches(F, span), ps))
  {
    hide S.Approximate;
  }

  /** Approximating every sketch of a mixed read at the end, or binning from the start, is the same. */
  lemma {:induction false} MixViewed(F: Floats, span: u64, es: seq<Entry>, ps: seq<Part>)
    requires StandAll(ps, es)
    ensures M.Settled(F, Mix(F, span, es), Seen(Sketches(F, span), ps))
  {
    hide Mix, Seen, M.Settled, Stands, MixOne, BinOne;
    if es == [] {
      NothingViewed(F, span, es, ps);
    } else {
      var n := |es| - 1;
      assert es == es[..n] + [es[n]] && ps == ps[..n] + [ps[n]];
      MixViewed(F, span, es[..n], ps[..n]);
      MixSnoc(F, span, es[..n], es[n]);
      SeenSnoc(Sketches(F, span), ps[..n], ps[n]);
      SettledStep(F, span, Mix(F, span, es[..n]), Seen(Sketches(F, span), ps[..n]), es[n], ps[n]);
    }
  }

  lemma SameTime(p: Part, e: Entry)
    requires Stands(p, e)
    ensures p.at == TimeOf(e)
  {
  }

  lemma {:induction false} StandBetween(ps: seq<Part>, es: seq<Entry>, from: u64, to: u64)
    requires StandAll(ps, es)
    ensures StandAll(Between(ps, PartTime, from, to), Between(es, TimeOf, from, to))
  {
    hide Stands, Between, StandAll;
    if |es| == 0 {
      NothingStands(ps, es, from, to);
    } else {
      var n := LastStands(ps, es);
      SameTime(ps[n], es[n]);
      StandBetween(ps[..n], es[..n], from, to);
      BetweenSnoc(ps[..n], ps[n], PartTime, from, to);
      BetweenSnoc(es[..n], es[n], TimeOf, from, to);
      var a, b := Between(ps[..n], PartTime, from, to), Between(es[..n], TimeOf, from, to);
      assert a + [] == a && b + [] == b;
      StandSnoc(a, b, ps[n], es[n]);
    }
  }

  lemma NothingStands(ps: seq<Part>, es: seq<Entry>, from: u64, to: u64)
    requires StandAll(ps, es) && es == []
    ensures StandAll(Between(ps, PartTime, from, to), Between(es, TimeOf, from, to))
  {
  }

  lemma LastStands(ps: seq<Part>, es: seq<Entry>) returns (n: nat)
    requires StandAll(ps, es) && es != []
    ensures n == |es| - 1 == |ps| - 1 && StandAll(ps[..n], es[..n]) && Stands(ps[n], es[n])
    ensures ps == ps[..n] + [ps[n]] && es == es[..n] + [es[n]]
  {
    hide Stands;
    n := |es| - 1;
  }

  lemma StandSnoc(ps: seq<Part>, es: seq<Entry>, p: Part, e: Entry)
    requires StandAll(ps, es) && Stands(p, e)
    ensures StandAll(ps + [p], es + [e])
  {
    hide Stands;
  }

  // ----- One row into its bucket -----

  lemma LeastOf(F: Floats, a: u64, b: u64, x: u64)
    ensures F.Min(a, F.Min(b, x)) == F.Min(F.Min(a, b), x)
    ensures F.Max(a, F.Max(b, x)) == F.Max(F.Max(a, b), x)
  {
  }

  /** Merging a sketch with one more observation is merging it and adding the observation. */
  lemma MergeThenAdd(F: Floats, a: S.Summary, w: S.Summary, x: u64)
    requires Regroups(F) && a.exact.None? && w.exact.None? && w.count > 0
    ensures S.Merge(F, a, S.AddApprox(F, w, x)) == S.AddApprox(F, S.Merge(F, a, w), x)
  {
    hide H.Collapse, H.Plus, S.Bins, S.HistOf;
    var b := S.Bins(F, x, 1);
    calc {
      H.Collapse(H.Plus(a.hist, H.Collapse(H.Plus(w.hist, b))));
      { H.PlusCommutes(a.hist, H.Collapse(H.Plus(w.hist, b))); H.CollapseOfPlus(H.Plus(w.hist, b), a.hist); H.PlusCommutes(H.Plus(w.hist, b), a.hist); }
      H.Collapse(H.Plus(a.hist, H.Plus(w.hist, b)));
      { H.PlusAssociative(a.hist, w.hist, b); }
      H.Collapse(H.Plus(H.Plus(a.hist, w.hist), b));
      { H.CollapseOfPlus(H.Plus(a.hist, w.hist), b); }
      H.Collapse(H.Plus(H.Collapse(H.Plus(a.hist, w.hist)), b));
    }
    LeastOf(F, a.min, w.min, x);
    LeastOf(F, a.max, w.max, x);
    assert F.add(F.add(a.sum, w.sum), x) == F.add(a.sum, F.add(w.sum, x));
  }

  lemma MergeNew(F: Floats, a: S.Summary, x: u64)
    requires Regroups(F) && a.exact.None?
    ensures S.Merge(F, a, S.AddApprox(F, S.NEW, x)) == S.AddApprox(F, a, x)
  {
    hide H.Collapse, H.Plus, S.Bins, S.HistOf;
    var b := S.Bins(F, x, 1);
    H.PlusEmpty(b);
    H.PlusCommutes(a.hist, H.Collapse(b));
    H.CollapseOfPlus(b, a.hist);
    H.PlusCommutes(b, a.hist);
  }

  /** In one output bucket, a stored sketch and the next observation do what the sketch with it does. */
  lemma StepOnce(F: Floats, span: u64, m: map<u64, S.Summary>, k: u64, w: S.Summary, t: u64, x: u64)
    requires Regroups(F) && BucketOf(k, span) == BucketOf(t, span) && w.exact.None? && w.count > 0
    ensures BinOne(F, span, BinOne(F, span, m, Whole(k, w)), Obs(t, x)) == BinOne(F, span, m, Whole(k, S.AddApprox(F, w, x)))
  {
    hide BucketOf, S.Merge, S.AddApprox, S.Approximate;
    var j := BucketOf(k, span);
    var a := S.Approximate(F, K.At(m, j));
    Binned(F, K.At(m, j), w);
    Binned(F, a, w);
    MergeThenAdd(F, a, w, x);
    var b := S.Merge(F, a, w);
    var n := BinOne(F, span, m, Whole(k, w));
    assert n == m[j := b] && K.At(n, j) == b;
    assert BinOne(F, span, n, Obs(t, x)) == n[j := S.AddApprox(F, b, x)];
  }

  lemma Binned(F: Floats, v: S.Summary, w: S.Summary)
    requires w.exact.None? && w.count > 0
    ensures S.Approximate(F, v).exact.None? && S.Approximate(F, S.Merge(F, v, w)) == S.Merge(F, v, w)
  {
    hide H.Collapse, H.Plus, S.HistOf;
  }

  lemma StepNew(F: Floats, span: u64, m: map<u64, S.Summary>, k: u64, t: u64, x: u64)
    requires Regroups(F) && BucketOf(k, span) == BucketOf(t, span)
    ensures BinOne(F, span, m, Obs(t, x)) == BinOne(F, span, m, Whole(k, S.AddApprox(F, S.NEW, x)))
  {
    hide BucketOf, S.Merge, S.AddApprox, S.HistOf, H.Collapse, H.Plus;
    MergeNew(F, S.Approximate(F, K.At(m, BucketOf(k, span))), x);
  }

  lemma SketchesLaws(F: Floats, span: u64)
    requires Regroups(F)
    ensures Absorbing(Sketches(F, span), span)
  {
    var f := Sketches(F, span);
    hide BucketOf, S.AddApprox, BinOne, M.Sound, Regroups;
    SketchesFill(F, span);
    forall m, k: u64, v: S.Summary, r: Row | f.fits(k, v) && BucketOf(k, span) == BucketOf(r.time, span)
      ensures f.step(f.step(m, f.ofBucket(k, v)), f.ofRow(r)) == f.step(m, f.ofBucket(k, f.add(v, r.value)))
    {
      StepOnce(F, span, m, k, v, r.time, r.value);
    }
    forall m, k: u64, r: Row | BucketOf(k, span) == BucketOf(r.time, span)
      ensures f.step(m, f.ofRow(r)) == f.step(m, f.ofBucket(k, f.add(f.start(k), r.value)))
    {
      StepNew(F, span, m, k, r.time, r.value);
    }
  }

  lemma SketchesFill(F: Floats, span: u64)
    ensures Fills(Sketches(F, span))
  {
    var f := Sketches(F, span);
    hide S.AddApprox, BinOne, M.Sound;
    forall k: u64, v: S.Summary, x: u64 | v == S.NEW || f.fits(k, v)
      ensures f.fits(k, S.AddApprox(F, v, x))
    {
      OneMoreFits(F, v, x);
    }
  }

  lemma OneMoreFits(F: Floats, v: S.Summary, x: u64)
    requires v == S.NEW || (M.Sound(v) && v.exact.None?)
    ensures var w := S.AddApprox(F, v, x); M.Sound(w) && w.exact.None? && w.count > 0
  {
    hide M.Sound, H.Collapse, H.Plus, S.Bins;
    M.NewSound(F);
    M.SoundAdd(F, v, x);
  }

  /** Observations taken into sketches are what a compaction groups. */
  lemma {:induction false} SketchesTake(F: Floats, span: u64, m: map<u64, S.Summary>, rows: seq<Row>, c: u64)
    ensures Take(Sketches(F, span), m, rows, c) == K.GroupRows(F, m, rows, c) && Roomy(Sketches(F, span), m, rows, c)
  {
    hide Group, K.GroupRows, Take, Sketches, S.AddApprox, BucketOf, Roomy;
    NothingTaken(F, span, m, rows, c);
    if rows != [] {
      var front, r := rows[..|rows| - 1], rows[|rows| - 1];
      assert rows == front + [r];
      SketchesTake(F, span, m, front, c);
      TakeSnoc(Sketches(F, span), m, front, r, c);
      K.GroupSnoc(F, m, front, r, c);
      PutSketch(F, span, K.GroupRows(F, m, front, c), BucketOf(r.time, c), r.value);
    }
  }

  lemma NothingTaken(F: Floats, span: u64, m: map<u64, S.Summary>, rows: seq<Row>, c: u64)
    ensures rows == [] ==> Take(Sketches(F, span), m, rows, c) == m == K.GroupRows(F, m, rows, c)
    ensures Roomy(Sketches(F, span), m, rows, c)
  {
    hide S.AddApprox, BucketOf, BinOne, M.Sound;
    AlwaysRoomy(Sketches(F, span), m, rows, c);
  }

  lemma PutSketch(F: Floats, span: u64, m: map<u64, S.Summary>, k: u64, x: u64)
    ensures Put(Sketches(F, span), m, k, x) == m[k := S.AddApprox(F, K.At(m, k), x)]
  {
    hide S.AddApprox, BinOne, M.Sound;
  }

  // ----- Whole states -----

  /** Buckets on boundaries and before all raw observations, as compactions leave them. */
  ghost predicate Layered(d: K.Series, cutoff: u64, span: u64) {
    && Nondecreasing(d.rows) && IncreasingBy(d.buckets, K.BucketTime)
    && (forall r :: r in d.rows ==> r.time >= cutoff)
    && (forall b :: b in d.buckets ==> b.time < cutoff && BucketOf(b.time, span) == b.time)
  }

  ghost predicate HoldsSome(d: K.Series) {
    forall b :: b in d.buckets ==> exists v :: Z.CanonOf(b.data, v) && v.count > 0
  }

  /** The entries of a layered state, in order. */
  function EntriesOf(d: K.Series): seq<Entry> { Map(d.buckets, Held) + Map(d.rows, ValueOf) }

  lemma SketchAt(F: Floats, data: bytes, v: S.Summary)
    requires Z.CanonOf(data, v) && forall x :: F.add(0, x) == x
    ensures B.MergeBytes(F, S.NEW, data) == v && M.Sound(v) && v.exact.None?
  {
    hide C.ApproxBytes, C.Storable, B.MergeBytes, M.Sound;
    M.StoreAndLoad(F, v);
  }

  /** The buckets of a state are the sketches they decode to. */
  lemma BucketsStand(F: Floats, d: K.Series, span: u64)
    requires IncreasingBy(d.buckets, K.BucketTime) && HoldsSome(d) && forall x :: F.add(0, x) == x
    ensures var m := K.DecodeItems(F, d.buckets);
            && Filled(Sketches(F, span), m) && StandAll(Buckets(Sketches(F, span), m), Map(d.buckets, Held))
            && forall t :: t in m ==> exists b :: b in d.buckets && b.time == t
  {
    hide B.MergeBytes, K.DecodeItems, SortedTimes, TimesOf, IncreasingBy, M.Sound, Z.CanonOf, M.BucketsIncreasing, Buckets, Stands;
    Z.SketchOrders(d.buckets);
    M.DecodeDistinct(F, d.buckets);
    var m := K.DecodeItems(F, d.buckets);
    forall t | t in m
      ensures M.Sound(m[t]) && m[t].exact.None? && m[t].count > 0
    {
      var b :| b in d.buckets && b.time == t;
      var v := HeldSketch(F, d, b);
    }
    Z.MapTimes(d.buckets, K.BucketTime, m);
    SortedTimesUnique(m, TimesOf(d.buckets, K.BucketTime));
    forall i | 0 <= i < |d.buckets|
      ensures Stands(Buckets(Sketches(F, span), m)[i], Map(d.buckets, Held)[i])
    {
      var b := d.buckets[i];
      TimesAt(d.buckets, K.BucketTime, i);
      BucketShown(Sketches(F, span), m, i);
      assert b in d.buckets && Map(d.buckets, Held)[i] == Held(b);
      var v := HeldSketch(F, d, b);
    }
  }

  lemma HeldSketch(F: Floats, d: K.Series, b: K.SketchBucket) returns (v: S.Summary)
    requires HoldsSome(d) && b in d.buckets && forall x :: F.add(0, x) == x
    ensures v == B.MergeBytes(F, S.NEW, b.data) && v.count > 0 && v.exact.None? && M.Sound(v)
    ensures Stands(Whole(b.time, v), Held(b))
  {
    hide B.MergeBytes, Z.CanonOf, M.Sound;
    v :| Z.CanonOf(b.data, v) && v.count > 0;
    SketchAt(F, b.data, v);
  }

  lemma RowsStand(ps: seq<Part>, es: seq<Entry>, rows: seq<Row>)
    requires StandAll(ps, es)
    ensures StandAll(ps + Map(rows, ObsOf), es + Map(rows, ValueOf))
  {
    hide Z.CanonOf;
    var a, b := ps + Map(rows, ObsOf), es + Map(rows, ValueOf);
    forall i | 0 <= i < |b|
      ensures Stands(a[i], b[i])
    {
      if i < |es| {
        assert a[i] == ps[i] && b[i] == es[i];
      } else {
        assert a[i] == ObsOf(rows[i - |es|]) && b[i] == ValueOf(rows[i - |es|]);
      }
    }
  }

  /** What an aligned or any other window of a layered state looks like once approximated. */
  lemma WindowViewed(F: Floats, d: K.Series, from: u64, to: u64, span: u64)
    requires IncreasingBy(d.buckets, K.BucketTime) && HoldsSome(d) && forall x :: F.add(0, x) == x
    ensures var f := Sketches(F, span);
            M.Settled(F, Mix(F, span, Between(EntriesOf(d), TimeOf, from, to)),
                      Seen(f, Window(f, K.DecodeItems(F, d.buckets), d.rows, from, to)))
  {
    hide K.DecodeItems, Buckets, Map, Between, Mix, Seen, HoldsSome, M.Settled, Stands;
    var bs := Buckets(Sketches(F, span), K.DecodeItems(F, d.buckets));
    BucketsStand(F, d, span);
    RowsStand(bs, Map(d.buckets, Held), d.rows);
    StandBetween(bs + Map(d.rows, ObsOf), EntriesOf(d), from, to);
    MixViewed(F, span, Between(EntriesOf(d), TimeOf, from, to), Between(bs + Map(d.rows, ObsOf), PartTime, from, to));
  }

  lemma OldRowsBehind(F: Floats, d: K.Series, before: u64, c: u64, cutoff: u64, span: u64)
    requires Layered(d, before, c) && HoldsSome(d) && forall x :: F.add(0, x) == x
    ensures var o, m := Old(d.rows, cutoff), K.DecodeItems(F, d.buckets);
            && Filled(Sketches(F, span), m) && Nondecreasing(o) && d.rows == o + Young(d.rows, cutoff)
            && forall t, r :: t in m && r in o ==> t <= BucketOf(r.time, c)
  {
    hide Old, Young, BucketOf, K.DecodeItems, HoldsSome, Buckets, Stands, IncreasingBy;
    OldThenYoung(d.rows, cutoff);
    NondecreasingParts(Old(d.rows, cutoff), Young(d.rows, cutoff));
    OldYoungElements(d.rows, cutoff);
    BucketsStand(F, d, span);
    var m := K.DecodeItems(F, d.buckets);
    forall t, r | t in m && r in Old(d.rows, cutoff)
      ensures t <= BucketOf(r.time, c)
    {
      var b :| b in d.buckets && b.time == t;
      BucketMonotone(t, r.time, c);
    }
  }

  /** Encoding filled sketches gives buckets that decode to them. */
  lemma FilledBuckets(F: Floats, m: map<u64, S.Summary>, rows: seq<Row>, span: u64)
    requires Filled(Sketches(F, span), m) && K.Encodable(F, m) && forall x :: F.add(0, x) == x
    ensures var bs := K.ToBuckets(F, m);
            IncreasingBy(bs, K.BucketTime) && HoldsSome(K.Series(rows, bs)) && K.DecodeItems(F, bs) == m
  {
    hide C.ApproxBytes, C.Storable, M.Sound, K.ToBuckets, SortedTimes, K.DecodeItems, M.Settled;
    M.ToBucketsAt(F, m);
    SketchBucketsOrdered(F, m);
    forall b | b in K.ToBuckets(F, m)
      ensures exists v :: Z.CanonOf(b.data, v) && v.count > 0
    {
      assert Z.CanonOf(b.data, m[b.time]);
    }
    M.DecodeWritten(F, m);
    SettledSame(F, m, K.DecodeItems(F, K.ToBuckets(F, m)), span);
  }

  lemma SettledSame(F: Floats, m: map<u64, S.Summary>, n: map<u64, S.Summary>, span: u64)
    requires Filled(Sketches(F, span), m) && M.Settled(F, m, n)
    ensures n == m
  {
    hide M.Sound;
  }

  /** The approximation of every sketch is the same. */
  ghost predicate SameView(F: Floats, m: map<u64, S.Summary>, n: map<u64, S.Summary>) {
    m.Keys == n.Keys && forall t :: t in m ==> S.Approximate(F, m[t]) == S.Approximate(F, n[t])
  }

  lemma SettledView(F: Floats, m: map<u64, S.Summary>, n: map<u64, S.Summary>, v: map<u64, S.Summary>)
    requires M.Settled(F, m, v) && M.Settled(F, n, v)
    ensures SameView(F, m, n)
  {
    hide S.Approximate;
  }

  /** Rounding set aside, compacting a layered sketch series changes no approximated sketch of any read
      whose window and span fall on boundaries of the compaction span. */
  lemma SketchesCompactUnseen(F: Floats, d: K.Series, before: u64, cutoff: u64, c: u64, from: u64, to: u64, span: u64)
    requires Regroups(F) && Aligned(from, to, span, c)
    requires Layered(d, before, c) && HoldsSome(d) && before <= cutoff
    requires K.Encodable(F, K.CompactedMap(F, d, cutoff, c))
    ensures SameView(F, Mix(F, span, Between(EntriesOf(K.Compacted(F, d, cutoff, c)), TimeOf, from, to)),
                     Mix(F, span, Between(EntriesOf(d), TimeOf, from, to)))
  {
    if d.rows == [] {
      assert K.Compacted(F, d, cutoff, c) == d;
    } else {
      var f, m, o := Sketches(F, span), K.DecodeItems(F, d.buckets), Old(d.rows, cutoff);
      var g := K.CompactedMap(F, d, cutoff, c);
      var d' := K.Compacted(F, d, cutoff, c);
      assert d' == K.Series(Young(d.rows, cutoff), K.ToBuckets(F, g)) && g == K.GroupRows(F, m, o, c);
      hide K.GroupRows, K.DecodeItems, BucketOf, Seen, Window, Old, Young, Nondecreasing, Aligned, Filled, K.Compacted,
           K.CompactedMap, Mix, HoldsSome, K.ToBuckets, K.Encodable, EntriesOf, Between, M.Settled, IncreasingBy, SameView, Sketches,
           Absorbing, Roomy, Take;
      OldRowsBehind(F, d, before, c, cutoff, span);
      SketchesLaws(F, span);
      SketchesTake(F, span, m, o, c);
      AllFilled(F, span, m, o, c);
      FilledBuckets(F, g, d'.rows, span);
      WindowViewed(F, d, from, to, span);
      WindowViewed(F, d', from, to, span);
      CompactUnseen(f, m, o, d'.rows, c, from, to, span);
      SettledView(F, Mix(F, span, Between(EntriesOf(d'), TimeOf, from, to)), Mix(F, span, Between(EntriesOf(d), TimeOf, from, to)),
                  Seen(f, Window(f, m, d.rows, from, to)));
    }
  }

  /** A compaction leaves filled sketches, at earlier buckets or those of its observations. */
  lemma AllFilled(F: Floats, span: u64, m: map<u64, S.Summary>, rows: seq<Row>, c: u64)
    requires Filled(Sketches(F, span), m)
    ensures Filled(Sketches(F, span), K.GroupRows(F, m, rows, c))
    ensures forall t :: t in K.GroupRows(F, m, rows, c) ==> t in m || exists r :: r in rows && BucketOf(r.time, c) == t
  {
    hide K.GroupRows, BucketOf, Sketches, Filled, Take, Roomy, Fills;
    SketchesFill(F, span);
    SketchesTake(F, span, m, rows, c);
    TakeShape(Sketches(F, span), m, rows, c);
  }
}
