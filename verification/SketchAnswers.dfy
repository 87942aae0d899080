/** What a mixed sketch read yields, said of the observations: for every output bucket a sketch of the raw
    observations of the window and of those that were folded into its stored buckets. */
module SketchAnswers {
  import opened Words
  import opened Varint
  import opened Reader
  import opened FloatModel
  import opened Rows
  import opened Pendings
  import opened Blocks
  import opened Segments
  import opened AppendLaws
  import opened Streams
  import opened Interleavings
  import opened SketchReaders
  import opened Provenance
  import opened Answers
  import K = SketchState
  import S = Sketches
  import C = SketchCodec
  import B = SketchBytes
  import Q = SketchQueries
  import H = Histograms
  import A = SketchAccuracy
  import U = Quantiles
  import O = Observations
  import Y = Keys
  import FastPaths
  import SketchPaths
  import LayeredStates
  import AlignedSketches
  import SketchRuns

  // ----- Observations -----

  /** The observations behind an entry: its own, or those that were folded into the stored sketch. */
  function ObservationsOf(o: Origins, e: Entry): seq<u64> {
    match e
    case Value(_, x) => [x]
    case Stored(b) => Values(From(o, b.time))
  }

  function Observed(o: Origins): Entry -> seq<u64> { (e: Entry) => ObservationsOf(o, e) }

  function Into(span: u64): Entry -> u64 { (e: Entry) => BucketOf(TimeOf(e), span) }

  /** What was folded into the stored buckets of a window that fall into the output bucket `k`. */
  function FoldedInto(bs: seq<K.SketchBucket>, o: Origins, from: u64, to: u64, span: u64, k: u64): seq<u64> {
    if bs == [] then [] else
    var front, b := bs[..|bs| - 1], bs[|bs| - 1];
    FoldedInto(front, o, from, to, span, k) +
    if from <= b.time <= to && BucketOf(b.time, span) == k then Values(From(o, b.time)) else []
  }

  /** The raw observations of a window that fall into the output bucket `k`. */
  function RawInto(rows: seq<Row>, from: u64, to: u64, span: u64, k: u64): seq<u64> {
    if rows == [] then [] else
    var front, r := rows[..|rows| - 1], rows[|rows| - 1];
    RawInto(front, from, to, span, k) + if from <= r.time <= to && BucketOf(r.time, span) == k then [r.value] else []
  }

  /** Every stored bucket holds a sketch of observations, of some at least. */
  ghost predicate AllHold(F: Floats, bs: seq<K.SketchBucket>, o: Origins) {
    forall b :: b in bs ==> b.time in o && o[b.time] != [] && SketchRuns.Holds(F, b, o[b.time])
  }

  ghost predicate EntriesHold(F: Floats, es: seq<Entry>, o: Origins) {
    forall e :: e in es && e.Stored? ==> ObservationsOf(o, e) != [] && SketchRuns.Holds(F, e.bucket, From(o, e.bucket.time))
  }

  // ----- A sketch that takes observations -----

  /** The sketch represents the observations, keeps them exactly if all came raw, and is binned otherwise. */
  ghost predicate Sketched(F: Floats, v: S.Summary, obs: seq<u64>, raw: bool) {
    && S.Represents(F, v, obs) && S.Unmixed(v)
    && (if raw then (obs == [] && v == S.NEW) || v.exact == Some(obs) else obs != [] && v.exact.None?)
  }

  lemma NothingSketched(F: Floats)
    ensures Sketched(F, S.NEW, [], true)
  {
    hide S.Represents;
    S.NewRepresents(F);
  }

  lemma TakesRaw(F: Floats, v: S.Summary, obs: seq<u64>, raw: bool, x: u64)
    requires Sketched(F, v, obs, raw)
    ensures Sketched(F, S.AddExact(F, v, x), obs + [x], raw)
  {
    hide S.Represents, H.Collapse, S.Bins, H.Plus;
    S.AddExactRepresents(F, v, obs, x);
    CountIs(F, v, obs);
    assert [] + [x] == [x];
  }

  lemma CountIs(F: Floats, v: S.Summary, obs: seq<u64>)
    requires S.Represents(F, v, obs)
    ensures v.count == |obs|
  {
  }

  lemma TakesStored(F: Floats, v: S.Summary, obs: seq<u64>, raw: bool, b: K.SketchBucket, rows: seq<Row>)
    requires Sketched(F, v, obs, raw) && rows != [] && SketchRuns.Holds(F, b, rows)
    ensures Sketched(F, B.MergeBytes(F, v, b.data), obs + Values(rows), false)
  {
    hide S.Represents, FastPaths.CanonOf, S.Merge;
    var w :| FastPaths.CanonOf(b.data, w) && SketchRuns.Of(F, b.time, w, rows);
    AlignedSketches.CanonMerges(F, b.data, v, w);
    AlignedSketches.CanonExact(b.data, w);
    CountIs(F, w, Values(rows));
    BinnedMerge(F, v, obs, w, Values(rows));
  }

  lemma BinnedMerge(F: Floats, v: S.Summary, obs: seq<u64>, w: S.Summary, more: seq<u64>)
    requires S.Represents(F, v, obs) && S.Unmixed(v) && S.Represents(F, w, more) && w.exact.None? && w.count > 0
    ensures S.Represents(F, S.Merge(F, v, w), obs + more) && S.Unmixed(S.Merge(F, v, w)) && S.Merge(F, v, w).exact.None?
  {
    hide S.Represents, H.Collapse, H.Plus;
    S.MergeRepresents(F, v, w, obs, more);
  }

  // ----- All entries of a window -----

  /** All entries of the output bucket are raw observations. */
  ghost predicate RawOnly(es: seq<Entry>, span: u64, k: u64) { forall e :: e in es && BucketOf(TimeOf(e), span) == k ==> e.Value? }

  ghost predicate Reached(es: seq<Entry>, span: u64, k: u64) { exists e :: e in es && BucketOf(TimeOf(e), span) == k }

  lemma ReachedSnoc(es: seq<Entry>, e: Entry, span: u64, k: u64)
    ensures Reached(es + [e], span, k) <==> Reached(es, span, k) || BucketOf(TimeOf(e), span) == k
    ensures RawOnly(es + [e], span, k) <==> RawOnly(es, span, k) && (BucketOf(TimeOf(e), span) == k ==> e.Value?)
  {
    hide BucketOf;
    assert e in es + [e];
    assert forall x :: x in es + [e] <==> x in es || x == e;
  }

  /** Merging a window by bucket leaves under each output bucket a sketch of the observations behind it. */
  lemma {:induction false} MixIs(F: Floats, span: u64, es: seq<Entry>, o: Origins, k: u64)
    requires EntriesHold(F, es, o)
    ensures Sketched(F, K.At(Mix(F, span, es), k), Behind(es, Into(span), Observed(o), k), RawOnly(es, span, k))
    ensures k in Mix(F, span, es) <==> Reached(es, span, k)
  {
    hide Mix, Behind, Sketched, MixOne, RawOnly, Reached, SketchRuns.Holds;
    if es == [] {
      NothingMixedIn(F, span, es, o, k);
    } else {
      var front, e := es[..|es| - 1], es[|es| - 1];
      assert es == front + [e] && forall x :: x in front ==> x in es;
      MixIs(F, span, front, o, k);
      MixSnoc(F, span, front, e);
      BehindSnoc(front, e, Into(span), Observed(o), k);
      ReachedSnoc(front, e, span, k);
      MixedIn(F, span, Mix(F, span, front), e, k);
      var v, obs, raw := K.At(Mix(F, span, front), k), Behind(front, Into(span), Observed(o), k), RawOnly(front, span, k);
      if BucketOf(TimeOf(e), span) == k {
        EntryTaken(F, v, obs, raw, o, e);
      } else {
        assert obs + [] == obs;
      }
    }
  }

  lemma NothingMixedIn(F: Floats, span: u64, es: seq<Entry>, o: Origins, k: u64)
    requires es == []
    ensures Sketched(F, K.At(Mix(F, span, es), k), Behind(es, Into(span), Observed(o), k), RawOnly(es, span, k))
    ensures k !in Mix(F, span, es) && !Reached(es, span, k)
  {
    hide Sketched;
    NothingSketched(F);
  }

  lemma MixedIn(F: Floats, span: u64, m: map<u64, S.Summary>, e: Entry, k: u64)
    ensures var j, n := BucketOf(TimeOf(e), span), MixOne(F, span, m, e);
            && (k in n <==> k in m || k == j)
            && K.At(n, k) == if k == j then Mixed(F, K.At(m, k), e) else K.At(m, k)
  {
    hide Mixed, BucketOf;
  }

  lemma EntryTaken(F: Floats, v: S.Summary, obs: seq<u64>, raw: bool, o: Origins, e: Entry)
    requires Sketched(F, v, obs, raw)
    requires e.Stored? ==> ObservationsOf(o, e) != [] && SketchRuns.Holds(F, e.bucket, From(o, e.bucket.time))
    ensures Sketched(F, Mixed(F, v, e), obs + ObservationsOf(o, e), raw && e.Value?)
  {
    hide Sketched, SketchRuns.Holds, S.AddExact, B.MergeBytes;
    match e
    case Value(_, x) => TakesRaw(F, v, obs, raw, x);
    case Stored(b) => TakesStored(F, v, obs, raw, b, From(o, b.time));
  }

  // ----- The order of observations does not matter -----

  lemma {:induction false} CountPermuted(a: seq<u64>, b: seq<u64>, p: u64 -> bool)
    requires multiset(a) == multiset(b)
    ensures O.Count(a, p) == O.Count(b, p)
    decreases |a|
  {
    if a == [] {
      assert |multiset(b)| == 0;
    } else {
      hide O.Count;
      var n := |a| - 1;
      var front, back := S.RemoveLast(a, b);
      CountPermuted(a[..n], front + back, p);
      assert a == a[..n] + [a[n]];
      Q.CountConcat(a[..n], [a[n]], p);
      Q.CountConcat(front + [a[n]], back, p);
      Q.CountConcat(front, [a[n]], p);
      Q.CountConcat(front, back, p);
    }
  }

  lemma SameElements(a: seq<u64>, b: seq<u64>)
    requires multiset(a) == multiset(b)
    ensures |a| == |b| && forall x :: x in a <==> x in b
  {
    assert |multiset(a)| == |multiset(b)|;
    assert forall x :: x in a <==> x in multiset(a);
    assert forall x :: x in b <==> x in multiset(b);
  }

  lemma RankPermuted(F: Floats, a: seq<u64>, b: seq<u64>, rank: nat, t: u64)
    requires multiset(a) == multiset(b) && U.IsRank(F, a, rank, t)
    ensures U.IsRank(F, b, rank, t)
  {
    hide O.Count;
    SameElements(a, b);
    CountPermuted(a, b, (x: u64) => F.val(x) < F.val(t));
    CountPermuted(a, b, (x: u64) => F.val(x) <= F.val(t));
  }

  lemma RepresentsPermuted(F: Floats, v: S.Summary, a: seq<u64>, b: seq<u64>)
    requires multiset(a) == multiset(b) && S.Represents(F, v, a)
    ensures S.Represents(F, v, b)
  {
    hide H.Plus, H.Collapse, H.Codes, S.Bins;
    SameElements(a, b);
    S.HistogramsAbelian();
    S.FoldPermuted(x => S.Bins(F, x, 1), H.Plus, H.EMPTY, a, b);
    if F.Exact() {
      S.FoldPermuted(x => x, F.add, 0, a, b);
    }
  }

  /** Two patterns of one rank stand for the same number. */
  lemma RankOnce(F: Floats, obs: seq<u64>, rank: nat, t: u64, u: u64)
    requires U.IsRank(F, obs, rank, t) && U.IsRank(F, obs, rank, u)
    ensures F.val(t) == F.val(u)
  {
    hide O.Count;
    RanksOrdered(F, obs, rank, t, u);
    RanksOrdered(F, obs, rank, u, t);
  }

  lemma RanksOrdered(F: Floats, obs: seq<u64>, rank: nat, t: u64, u: u64)
    requires U.IsRank(F, obs, rank, t) && U.IsRank(F, obs, rank, u)
    ensures F.val(t) >= F.val(u)
  {
    hide O.Count;
    if F.val(t) < F.val(u) {
      O.CountImplies(obs, (x: u64) => F.val(x) <= F.val(t), (x: u64) => F.val(x) < F.val(u));
      assert false;
    }
  }

  // ----- From the stored stream to the decoded lists -----

  lemma NoEntries(es: seq<Entry>, o: Origins, span: u64, k: u64)
    requires es == []
    ensures Behind(es, Into(span), Observed(o), k) == []
  {
  }

  lemma {:induction false} BehindConcat(a: seq<Entry>, b: seq<Entry>, o: Origins, span: u64, k: u64)
    ensures Behind(a + b, Into(span), Observed(o), k) ==
            Behind(a, Into(span), Observed(o), k) + Behind(b, Into(span), Observed(o), k)
  {
    hide BucketOf, Behind;
    var x := Behind(a, Into(span), Observed(o), k);
    if b == [] {
      NoEntries(b, o, span, k);
      assert a + b == a && x + [] == x;
    } else {
      var front, e := b[..|b| - 1], b[|b| - 1];
      assert a + b == (a + front) + [e] && b == front + [e];
      BehindConcat(a, front, o, span, k);
      BehindSnoc(a + front, e, Into(span), Observed(o), k);
      BehindSnoc(front, e, Into(span), Observed(o), k);
    }
  }

  lemma {:induction false} FoldedConcat(a: seq<K.SketchBucket>, b: seq<K.SketchBucket>, o: Origins, from: u64, to: u64, span: u64, k: u64)
    ensures FoldedInto(a + b, o, from, to, span, k) == FoldedInto(a, o, from, to, span, k) + FoldedInto(b, o, from, to, span, k)
  {
    var x := FoldedInto(a, o, from, to, span, k);
    if b == [] {
      assert a + b == a && x + [] == x;
    } else {
      hide FoldedInto, BucketOf, From, Values;
      var front, e := b[..|b| - 1], b[|b| - 1];
      assert a + b == (a + front) + [e] && b == front + [e];
      FoldedConcat(a, front, o, from, to, span, k);
      FoldedSnoc(a + front, e, o, from, to, span, k);
      FoldedSnoc(front, e, o, from, to, span, k);
    }
  }

  lemma FoldedSnoc(a: seq<K.SketchBucket>, b: K.SketchBucket, o: Origins, from: u64, to: u64, span: u64, k: u64)
    ensures FoldedInto(a + [b], o, from, to, span, k) == FoldedInto(a, o, from, to, span, k) +
            if from <= b.time <= to && BucketOf(b.time, span) == k then Values(From(o, b.time)) else []
  {
    assert (a + [b])[..|a|] == a;
  }

  lemma {:induction false} RawConcat(a: seq<Row>, b: seq<Row>, from: u64, to: u64, span: u64, k: u64)
    ensures RawInto(a + b, from, to, span, k) == RawInto(a, from, to, span, k) + RawInto(b, from, to, span, k)
  {
    var x := RawInto(a, from, to, span, k);
    if b == [] {
      assert a + b == a && x + [] == x;
    } else {
      hide RawInto, BucketOf;
      var front, r := b[..|b| - 1], b[|b| - 1];
      assert a + b == (a + front) + [r] && b == front + [r];
      RawConcat(a, front, from, to, span, k);
      RawSnoc(a + front, r, from, to, span, k);
      RawSnoc(front, r, from, to, span, k);
    }
  }

  lemma RawSnoc(a: seq<Row>, r: Row, from: u64, to: u64, span: u64, k: u64)
    ensures RawInto(a + [r], from, to, span, k) == RawInto(a, from, to, span, k) +
            if from <= r.time <= to && BucketOf(r.time, span) == k then [r.value] else []
  {
    assert (a + [r])[..|a|] == a;
  }

  function Shown(es: seq<Entry>, o: Origins, from: u64, to: u64, span: u64, k: u64): seq<u64> {
    Behind(Between(es, TimeOf, from, to), Into(span), Observed(o), k)
  }

  lemma ShownConcat(a: seq<Entry>, b: seq<Entry>, o: Origins, from: u64, to: u64, span: u64, k: u64)
    ensures Shown(a + b, o, from, to, span, k) == Shown(a, o, from, to, span, k) + Shown(b, o, from, to, span, k)
  {
    hide Between, Behind;
    BetweenConcat(a, b, TimeOf, from, to);
    BehindConcat(Between(a, TimeOf, from, to), Between(b, TimeOf, from, to), o, span, k);
  }

  lemma ShownOne(e: Entry, o: Origins, from: u64, to: u64, span: u64, k: u64)
    ensures Shown([e], o, from, to, span, k) ==
            if from <= TimeOf(e) <= to && BucketOf(TimeOf(e), span) == k then ObservationsOf(o, e) else []
  {
    hide BucketOf;
    BetweenSnoc([], e, TimeOf, from, to);
    BetweenNone<Entry>([], TimeOf, from, to);
    BehindSnoc([], e, Into(span), Observed(o), k);
    assert [] + [e] == [e] && Behind<Entry>([], Into(span), Observed(o), k) == [];
    assert [] + ObservationsOf(o, e) == ObservationsOf(o, e);
  }

  lemma ShownNothing(es: seq<Entry>, o: Origins, from: u64, to: u64, span: u64, k: u64)
    requires es == []
    ensures Shown(es, o, from, to, span, k) == []
  {
  }

  lemma {:induction false} HeldShown(bs: seq<K.SketchBucket>, o: Origins, from: u64, to: u64, span: u64, k: u64)
    ensures Shown(Map(bs, SketchPaths.Held), o, from, to, span, k) == FoldedInto(bs, o, from, to, span, k)
  {
    if bs == [] {
      ShownNothing(Map(bs, SketchPaths.Held), o, from, to, span, k);
    } else {
      HeldShown(bs[..|bs| - 1], o, from, to, span, k);
      hide BucketOf, Shown, Map;
      MapSnoc(bs, SketchPaths.Held);
      var b := bs[|bs| - 1];
      ShownConcat(Map(bs[..|bs| - 1], SketchPaths.Held), [SketchPaths.Held(b)], o, from, to, span, k);
      ShownOne(SketchPaths.Held(b), o, from, to, span, k);
    }
  }

  lemma {:induction false} RowsShown(rows: seq<Row>, o: Origins, from: u64, to: u64, span: u64, k: u64)
    ensures Shown(Map(rows, SketchPaths.ValueOf), o, from, to, span, k) == RawInto(rows, from, to, span, k)
  {
    if rows == [] {
      ShownNothing(Map(rows, SketchPaths.ValueOf), o, from, to, span, k);
    } else {
      RowsShown(rows[..|rows| - 1], o, from, to, span, k);
      hide BucketOf, Shown, Map;
      MapSnoc(rows, SketchPaths.ValueOf);
      var r := rows[|rows| - 1];
      ShownConcat(Map(rows[..|rows| - 1], SketchPaths.ValueOf), [SketchPaths.ValueOf(r)], o, from, to, span, k);
      ShownOne(SketchPaths.ValueOf(r), o, from, to, span, k);
    }
  }

  /** The stored stream shows what the decoded lists do, in some order. */
  lemma {:induction false} StreamShows(blocks: seq<Block>, o: Origins, from: u64, to: u64, span: u64, k: u64)
    ensures var f := LayeredStates.Feeds();
            multiset(Shown(StreamOf(f, blocks), o, from, to, span, k)) ==
            multiset(FoldedInto(BucketsIn(f, blocks), o, from, to, span, k)) + multiset(RawInto(RowsIn(f, blocks), from, to, span, k))
  {
    var f := LayeredStates.Feeds();
    hide Shown, FoldedInto, RawInto, StreamOf, BucketsIn, RowsIn, Map;
    if blocks == [] {
      NothingShown(blocks, o, from, to, span, k);
    } else {
      var front, b := blocks[..|blocks| - 1], blocks[|blocks| - 1];
      StreamStep(f, blocks);
      StreamShows(front, o, from, to, span, k);
      ShownConcat(StreamOf(f, front), Entered(f, b), o, from, to, span, k);
      ShownConcat(Map(f.buckets(b), SketchPaths.Held), Map(f.rows(b), SketchPaths.ValueOf), o, from, to, span, k);
      HeldShown(f.buckets(b), o, from, to, span, k);
      RowsShown(f.rows(b), o, from, to, span, k);
      FoldedConcat(BucketsIn(f, front), f.buckets(b), o, from, to, span, k);
      RawConcat(RowsIn(f, front), f.rows(b), from, to, span, k);
    }
  }

  lemma NothingShown(blocks: seq<Block>, o: Origins, from: u64, to: u64, span: u64, k: u64)
    requires blocks == []
    ensures var f := LayeredStates.Feeds();
            && Shown(StreamOf(f, blocks), o, from, to, span, k) == []
            && FoldedInto(BucketsIn(f, blocks), o, from, to, span, k) == [] && RawInto(RowsIn(f, blocks), from, to, span, k) == []
  {
    NothingStreamed(LayeredStates.Feeds(), blocks);
  }

  /** Something folded is shown exactly if a stored bucket of the window falls into the output bucket. */
  lemma {:induction false} FoldedSome(bs: seq<K.SketchBucket>, o: Origins, from: u64, to: u64, span: u64, k: u64)
    requires forall b :: b in bs ==> b.time in o && o[b.time] != []
    ensures FoldedInto(bs, o, from, to, span, k) != [] <==>
            exists b :: b in bs && from <= b.time <= to && BucketOf(b.time, span) == k
  {
    if bs != [] {
      hide BucketOf;
      var front, b := bs[..|bs| - 1], bs[|bs| - 1];
      assert bs == front + [b] && b in bs && (forall x :: x in bs <==> x in front || x == b);
      FoldedSome(front, o, from, to, span, k);
      assert Values(From(o, b.time)) != [];
    }
  }

  /** The entries of a window hold what the stored buckets hold; they are raw where nothing was folded. */
  lemma WindowHolds(F: Floats, s: bytes, blocks: seq<Block>, o: Origins, from: u64, to: u64)
    requires Backed(s, blocks) && AllHold(F, AbsorbAll(EMPTY, blocks).sketches.buckets, o)
    ensures EntriesHold(F, Between(StreamOf(LayeredStates.Feeds(), blocks), TimeOf, from, to), o)
  {
    hide AbsorbAll, Backed, Between, StreamOf, SketchRuns.Holds, Map;
    var f := LayeredStates.Feeds();
    var es := Between(StreamOf(f, blocks), TimeOf, from, to);
    forall e | e in es && e.Stored?
      ensures ObservationsOf(o, e) != [] && SketchRuns.Holds(F, e.bucket, From(o, e.bucket.time))
    {
      StoredFrom(blocks, from, to, e);
    }
  }

  lemma StoredFrom(blocks: seq<Block>, from: u64, to: u64, e: Entry)
    requires e in Between(StreamOf(LayeredStates.Feeds(), blocks), TimeOf, from, to) && e.Stored?
    ensures e.bucket in AbsorbAll(EMPTY, blocks).sketches.buckets && from <= e.bucket.time <= to
  {
    hide AbsorbAll, Between, StreamOf, BucketsIn, RowsIn;
    var f := LayeredStates.Feeds();
    LayeredStates.FeedsLabels();
    LayeredStates.FeedsState(blocks);
    BetweenElements(StreamOf(f, blocks), TimeOf, from, to);
    StreamFrom(f, blocks, e);
  }

  lemma StoredIn(blocks: seq<Block>, from: u64, to: u64, b: K.SketchBucket)
    requires b in AbsorbAll(EMPTY, blocks).sketches.buckets && from <= b.time <= to
    ensures Stored(b) in Between(StreamOf(LayeredStates.Feeds(), blocks), TimeOf, from, to)
  {
    hide AbsorbAll, Between, StreamOf, BucketsIn, RowsIn;
    var f := LayeredStates.Feeds();
    LayeredStates.FeedsState(blocks);
    StreamHolds(f, blocks);
    BetweenElements(StreamOf(f, blocks), TimeOf, from, to);
    assert f.ofBucket(b) == Stored(b);
  }

  lemma RawWhereNothingFolded(blocks: seq<Block>, o: Origins, from: u64, to: u64, span: u64, k: u64)
    requires forall b :: b in AbsorbAll(EMPTY, blocks).sketches.buckets ==> b.time in o && o[b.time] != []
    ensures RawOnly(Between(StreamOf(LayeredStates.Feeds(), blocks), TimeOf, from, to), span, k) <==>
            FoldedInto(AbsorbAll(EMPTY, blocks).sketches.buckets, o, from, to, span, k) == []
  {
    hide AbsorbAll, Between, StreamOf, FoldedInto, BucketOf;
    var bs := AbsorbAll(EMPTY, blocks).sketches.buckets;
    var es := Between(StreamOf(LayeredStates.Feeds(), blocks), TimeOf, from, to);
    FoldedSome(bs, o, from, to, span, k);
    if b :| b in bs && from <= b.time <= to && BucketOf(b.time, span) == k {
      StoredIn(blocks, from, to, b);
      assert Stored(b) in es && TimeOf(Stored(b)) == b.time;
    }
    if e :| e in es && BucketOf(TimeOf(e), span) == k && e.Stored? {
      StoredFrom(blocks, from, to, e);
      assert e.bucket in bs;
    }
  }

  lemma ReachedWhereBehind(F: Floats, es: seq<Entry>, o: Origins, span: u64, k: u64)
    requires EntriesHold(F, es, o)
    ensures Reached(es, span, k) <==> Behind(es, Into(span), Observed(o), k) != []
  {
    hide BucketOf, Behind, SketchRuns.Holds;
    if e :| e in es && BucketOf(TimeOf(e), span) == k {
      BehindSome(es, Into(span), Observed(o), e);
    }
    if !Reached(es, span, k) {
      NothingBehind(es, o, span, k);
    }
  }

  lemma {:induction false} NothingBehind(es: seq<Entry>, o: Origins, span: u64, k: u64)
    requires !Reached(es, span, k)
    ensures Behind(es, Into(span), Observed(o), k) == []
  {
    if es != [] {
      var front, e := es[..|es| - 1], es[|es| - 1];
      assert es == front + [e];
      ReachedSnoc(front, e, span, k);
      NothingBehind(front, o, span, k);
    }
  }

  // ----- What is answered -----

  /** All observations have one sign, and one nearest to zero is within the bound of `t`. */
  ghost predicate EdgeNear(F: Floats, obs: seq<u64>, t: u64, bound: real) {
    || (exists x :: Least(F, obs, x) && F.val(x) > 0.0 && A.Within(F.val(x), F.val(t), bound))
    || (exists x :: Greatest(F, obs, x) && F.val(x) < 0.0 && A.Within(F.val(x), F.val(t), bound))
  }

  /** The condition on the observations under which `t` is answered within the bound. */
  ghost predicate Allows(F: Floats, obs: seq<u64>, t: u64, bound: real) {
    F.val(t) == 0.0 || |A.BinsAbove(F, obs, t)| < H.MAX_BINS || EdgeNear(F, obs, t, bound)
  }

  /** What a sketch answers for the rank of `t`: exactly `t`, or within any bound that is allowed. */
  ghost predicate AnswersRank(F: Floats, h: Q.Sketch, obs: seq<u64>, exact: bool, rank: nat, t: u64) {
    && Q.Queryable(h, rank) && Q.QuantileAt(F, h, rank).Some?
    && var x := Q.QuantileAt(F, h, rank).value;
       if exact then x == F.val(t)
       else forall bound: real :: Y.BIN_ALPHA <= bound < 1.0 ==> (A.Within(x, F.val(t), bound) <==> Allows(F, obs, t, bound))
  }

  /** The sketch counts exactly these observations, has their extremes and their sum, and answers every rank:
      exactly if nothing was folded, else as close as the observations allow. */
  ghost predicate AnswersFor(F: Floats, h: Q.Sketch, folded: seq<u64>, raw: seq<u64>) {
    var obs := folded + raw;
    && h.count == |obs| > 0 && Least(F, obs, h.min) && Greatest(F, obs, h.max) && (F.Exact() ==> h.sum == S.SumOf(F, obs))
    && (|obs| < W ==> forall rank, t :: 0 < rank <= |obs| && U.IsRank(F, obs, rank, t) ==> AnswersRank(F, h, obs, folded == [], rank, t))
  }

  lemma EdgesAgree(F: Floats, v: S.Summary, obs: seq<u64>, t: u64, bound: real)
    requires S.Represents(F, v, obs) && obs != []
    ensures A.NearEdge(F, v, t, bound) <==> EdgeNear(F, obs, t, bound)
    ensures Least(F, obs, v.min) && Greatest(F, obs, v.max)
  {
    hide H.Collapse, H.Plus, S.HistOf, H.Codes, A.Within;
    assert Least(F, obs, v.min) && Greatest(F, obs, v.max);
    if x :| Least(F, obs, x) && F.val(x) > 0.0 && A.Within(F.val(x), F.val(t), bound) {
      assert F.val(x) == F.val(v.min);
    }
    if x :| Greatest(F, obs, x) && F.val(x) < 0.0 && A.Within(F.val(x), F.val(t), bound) {
      assert F.val(x) == F.val(v.max);
    }
  }

  lemma ExactRank(F: Floats, v: S.Summary, obs: seq<u64>, all: seq<u64>, rank: nat, t: u64)
    requires S.Represents(F, v, obs) && v.exact == Some(obs) && multiset(obs) == multiset(all)
    requires 0 < rank <= |all| < W && U.IsRank(F, all, rank, t)
    ensures AnswersRank(F, Q.Encoded(F, v), all, true, rank, t)
  {
    hide S.Represents, U.IsRank, Q.Queryable, Q.QuantileAt, Q.Sort, Q.Encoded;
    SameElements(obs, all);
    RankPermuted(F, all, obs, rank, t);
    Q.ExactAnswers(F, v, obs, rank);
    RankOnce(F, obs, rank, t, Q.Sort(F, obs)[rank - 1]);
  }

  lemma BinnedRank(F: Floats, v: S.Summary, all: seq<u64>, rank: nat, t: u64)
    requires S.Represents(F, v, all) && v.exact.None? && C.Storable(v) && F.Ranged()
    requires 0 < rank <= |all| < W && U.IsRank(F, all, rank, t)
    ensures AnswersRank(F, Q.Encoded(F, v), all, false, rank, t)
  {
    hide S.Represents, U.IsRank, A.Within, A.BinsAbove, A.NearEdge, EdgeNear, Q.QuantileAt, Q.Queryable, A.StoredAnswer, C.Storable,
         Q.Encoded;
    BinnedServes(F, v, all, rank);
    A.CoversRank(Q.Encoded(F, v), rank);
    A.WithinExactly(F, v, all, rank, t, Y.BIN_ALPHA);
    forall bound: real | Y.BIN_ALPHA <= bound < 1.0
      ensures A.Within(Q.QuantileAt(F, Q.Encoded(F, v), rank).value, F.val(t), bound) <==> Allows(F, all, t, bound)
    {
      A.WithinExactly(F, v, all, rank, t, bound);
      EdgesAgree(F, v, all, t, bound);
    }
  }

  lemma BinnedServes(F: Floats, v: S.Summary, all: seq<u64>, rank: nat)
    requires S.Represents(F, v, all) && v.exact.None? && C.Storable(v) && 0 < rank <= |all| < W
    ensures Q.Queryable(Q.Encoded(F, v), rank) && A.StoredAnswer(F, v, rank) == Q.QuantileAt(F, Q.Encoded(F, v), rank)
  {
    hide S.Represents, Q.Queryable, Q.QuantileAt, Q.StoredSketch, C.ApproxBytes, C.Storable, H.Mass, H.Codes, H.Positive, Q.Encoded,
         U.Answer;
    MassIs(F, v, all);
    CountIs(F, v, all);
    Represented(F, v, all);
    Q.ServedAnswer(F, v, rank);
    A.CoversRank(Q.Encoded(F, v), rank);
  }

  lemma MassIs(F: Floats, v: S.Summary, obs: seq<u64>)
    requires S.Represents(F, v, obs) && v.exact.None?
    ensures v.count == H.Mass(v.hist) && S.Approximate(F, v) == v
  {
    hide S.Represents, H.Total;
    S.CountedOnce(F, v, obs);
  }

  lemma Represented(F: Floats, v: S.Summary, obs: seq<u64>)
    requires S.Represents(F, v, obs)
    ensures H.Positive(v.hist) && |H.Codes(v.hist)| <= H.MAX_BINS
  {
  }

  /** What is rendered for one output bucket. */
  lemma EncodedAnswers(F: Floats, v: S.Summary, obs: seq<u64>, folded: seq<u64>, raw: seq<u64>)
    requires Sketched(F, v, obs, folded == []) && obs != [] && multiset(obs) == multiset(folded + raw)
    requires F.Ranged() && (v.exact.None? ==> C.Storable(v))
    ensures AnswersFor(F, Q.Encoded(F, v), folded, raw)
  {
    hide S.Represents, U.IsRank, AnswersRank, C.Storable, Least, Greatest;
    var all := folded + raw;
    RepresentsPermuted(F, v, obs, all);
    SameElements(obs, all);
    CountIs(F, v, all);
    EdgesAgree(F, v, all, 0, 0.5);
    SumIs(F, v, all);
    NewIsEmpty(F, v, obs);
    if |all| < W {
      forall rank, t | 0 < rank <= |all| && U.IsRank(F, all, rank, t)
        ensures AnswersRank(F, Q.Encoded(F, v), all, folded == [], rank, t)
      {
        if folded == [] {
          ExactRank(F, v, obs, all, rank, t);
        } else {
          BinnedRank(F, v, all, rank, t);
        }
      }
    }
  }

  lemma SumIs(F: Floats, v: S.Summary, obs: seq<u64>)
    requires S.Represents(F, v, obs)
    ensures F.Exact() ==> v.sum == S.SumOf(F, obs)
  {
  }

  lemma NewIsEmpty(F: Floats, v: S.Summary, obs: seq<u64>)
    requires S.Represents(F, v, obs) && obs != []
    ensures v != S.NEW
  {
  }

  /** A pair for every output bucket with observations in the window, in time order, each with a sketch that
      answers for these observations. */
  ghost predicate Answered(F: Floats, d: K.Series, o: Origins, from: u64, to: u64, span: u64, out: seq<(u64, Q.Sketch)>) {
    && (forall i, j :: 0 <= i < j < |out| ==> out[i].0 < out[j].0)
    && (forall i :: 0 <= i < |out| ==>
          AnswersFor(F, out[i].1, FoldedInto(d.buckets, o, from, to, span, out[i].0), RawInto(d.rows, from, to, span, out[i].0)))
    && (forall k: u64 :: FoldedInto(d.buckets, o, from, to, span, k) + RawInto(d.rows, from, to, span, k) != [] ==>
          exists i :: 0 <= i < |out| && out[i].0 == k)
  }

  /** The sketch merged under an output bucket is one of its observations. */
  lemma BucketSketched(F: Floats, s: bytes, blocks: seq<Block>, o: Origins, from: u64, to: u64, span: u64, k: u64) returns (obs: seq<u64>)
    requires Backed(s, blocks) && AllHold(F, AbsorbAll(EMPTY, blocks).sketches.buckets, o)
    ensures var m, d := Mix(F, span, ReadBoth(s, from, to).entries), AbsorbAll(EMPTY, blocks).sketches;
            var folded, raw := FoldedInto(d.buckets, o, from, to, span, k), RawInto(d.rows, from, to, span, k);
            && Sketched(F, K.At(m, k), obs, folded == []) && multiset(obs) == multiset(folded + raw)
            && (k in m <==> obs != []) && (obs != [] <==> folded + raw != [])
  {
    hide AbsorbAll, Backed, Between, StreamOf, BucketsIn, RowsIn, Mix, Behind, Sketched, EntriesHold, SketchRuns.Holds, RawOnly, Reached,
         FoldedInto, RawInto, ReadBoth;
    var f, d := LayeredStates.Feeds(), AbsorbAll(EMPTY, blocks).sketches;
    var es := Between(StreamOf(f, blocks), TimeOf, from, to);
    LayeredStates.SketchesRead(s, blocks, from, to);
    LayeredStates.FeedsState(blocks);
    WindowHolds(F, s, blocks, o, from, to);
    MixIs(F, span, es, o, k);
    obs := Behind(es, Into(span), Observed(o), k);
    assert obs == Shown(StreamOf(f, blocks), o, from, to, span, k);
    StreamShows(blocks, o, from, to, span, k);
    RawWhereNothingFolded(blocks, o, from, to, span, k);
    ReachedWhereBehind(F, es, o, span, k);
    var folded, raw := FoldedInto(d.buckets, o, from, to, span, k), RawInto(d.rows, from, to, span, k);
    assert multiset(folded + raw) == multiset(folded) + multiset(raw);
    SameElements(obs, folded + raw);
  }

  /** On every series with the layout whose buckets hold sketches of observations, merging a window by bucket
      answers for the observations in each output bucket. */
  lemma MixedAnswers(F: Floats, s: bytes, blocks: seq<Block>, o: Origins, from: u64, to: u64, span: u64,
                     out: seq<(u64, Q.Sketch)>, error: Option<Error>)
    requires Backed(s, blocks) && AllHold(F, AbsorbAll(EMPTY, blocks).sketches.buckets, o) && F.Ranged()
    requires MixedYields(F, s, from, to, span, out, error)
    ensures error.None? && Answered(F, AbsorbAll(EMPTY, blocks).sketches, o, from, to, span, out)
  {
    hide AbsorbAll, Backed, Between, StreamOf, Mix, EntriesHold, SketchRuns.Holds, FoldedInto, RawInto, Undecodable, Until, ReadBoth,
         Sketched, AnswersFor, SortedTimes, Rendered, Encodable;
    var d := AbsorbAll(EMPTY, blocks).sketches;
    NothingUndecodable(F, s, blocks, o, from, to);
    var m := Mix(F, span, ReadBoth(s, from, to).entries);
    forall i | 0 <= i < |out|
      ensures out[i].0 in m && out[i].0 == SortedTimes(m)[i]
      ensures AnswersFor(F, out[i].1, FoldedInto(d.buckets, o, from, to, span, out[i].0), RawInto(d.rows, from, to, span, out[i].0))
    {
      RenderedIndex(F, m, i);
      var k := SortedTimes(m)[i];
      var obs := BucketSketched(F, s, blocks, o, from, to, span, k);
      EncodedAnswers(F, m[k], obs, FoldedInto(d.buckets, o, from, to, span, k), RawInto(d.rows, from, to, span, k));
    }
    forall k: u64 | FoldedInto(d.buckets, o, from, to, span, k) + RawInto(d.rows, from, to, span, k) != []
      ensures exists i :: 0 <= i < |out| && out[i].0 == k
    {
      var obs := BucketSketched(F, s, blocks, o, from, to, span, k);
      assert k in SortedTimes(m);
      var i :| 0 <= i < |m| && SortedTimes(m)[i] == k;
      assert out[i].0 == k;
    }
    forall i, j | 0 <= i < j < |out|
      ensures out[i].0 < out[j].0
    {
      assert SortedTimes(m)[i] < SortedTimes(m)[j];
    }
  }

  lemma NothingUndecodable(F: Floats, s: bytes, blocks: seq<Block>, o: Origins, from: u64, to: u64)
    requires Backed(s, blocks) && AllHold(F, AbsorbAll(EMPTY, blocks).sketches.buckets, o)
    ensures Used(ReadBoth(s, from, to), Undecodable).error.None?
  {
    hide AbsorbAll, Backed, Between, StreamOf, SketchRuns.Holds, Undecodable, Until, ReadBoth;
    LayeredStates.SketchesRead(s, blocks, from, to);
    WindowHolds(F, s, blocks, o, from, to);
    var es := Between(StreamOf(LayeredStates.Feeds(), blocks), TimeOf, from, to);
    forall e | e in es
      ensures Undecodable(e).None?
    {
      HeldDecodes(F, o, e);
    }
    UntilAll(es, Undecodable);
  }

  lemma HeldDecodes(F: Floats, o: Origins, e: Entry)
    requires e.Stored? ==> SketchRuns.Holds(F, e.bucket, From(o, e.bucket.time))
    ensures Undecodable(e).None?
  {
    hide FastPaths.CanonOf, C.Decode, SketchRuns.Of;
    if e.Stored? {
      var w :| FastPaths.CanonOf(e.bucket.data, w) && SketchRuns.Of(F, e.bucket.time, w, From(o, e.bucket.time));
      CanonDecodes(e.bucket.data, w);
    }
  }

  lemma CanonDecodes(data: bytes, w: S.Summary)
    requires FastPaths.CanonOf(data, w)
    ensures C.Decode(data).Ok?
  {
    hide C.ApproxBytes, C.Storable, C.Decode;
    SketchPaths.CanonShape(data, w);
    B.ApproxRoundTrip(w);
  }

  // ----- Every read path -----

  lemma HeldProper(F: Floats, bs: seq<K.SketchBucket>, o: Origins)
    requires AllHold(F, bs, o)
    ensures SketchPaths.AllProper(bs)
  {
    hide FastPaths.CanonOf, SketchRuns.Of;
    forall b | b in bs
      ensures SketchPaths.Proper(b.data)
    {
      var v :| FastPaths.CanonOf(b.data, v) && SketchRuns.Of(F, b.time, v, o[b.time]);
      OfProper(F, b, v, o[b.time]);
    }
  }

  lemma OfProper(F: Floats, b: K.SketchBucket, v: S.Summary, rows: seq<Row>)
    requires FastPaths.CanonOf(b.data, v) && SketchRuns.Of(F, b.time, v, rows) && rows != []
    ensures SketchPaths.ProperOf(b.data, v)
  {
  }

  /** Sketches that are alike answer alike. */
  lemma AlikeAnswers(F: Floats, h: Q.Sketch, g: Q.Sketch, folded: seq<u64>, raw: seq<u64>)
    requires AnswersFor(F, g, folded, raw) && SketchPaths.Alike(F, h, g)
    ensures AnswersFor(F, h, folded, raw)
  {
    hide U.IsRank, Q.Queryable, Q.QuantileAt, Allows, Least, Greatest, A.Within, S.SumOf;
    var obs := folded + raw;
    if |obs| < W {
      forall rank, t | 0 < rank <= |obs| && U.IsRank(F, obs, rank, t)
        ensures AnswersRank(F, h, obs, folded == [], rank, t)
      {
        assert AnswersRank(F, g, obs, folded == [], rank, t);
        assert SketchPaths.SameAt(F, h, g, rank);
      }
    }
  }

  lemma PairsAnswer(F: Floats, d: K.Series, o: Origins, from: u64, to: u64, span: u64, out: seq<(u64, Q.Sketch)>,
                    mixed: seq<(u64, Q.Sketch)>)
    requires Answered(F, d, o, from, to, span, mixed) && SketchPaths.SamePairs(F, out, mixed)
    ensures Answered(F, d, o, from, to, span, out)
  {
    hide AnswersFor, SketchPaths.Alike, FoldedInto, RawInto;
    forall i | 0 <= i < |out|
      ensures AnswersFor(F, out[i].1, FoldedInto(d.buckets, o, from, to, span, out[i].0), RawInto(d.rows, from, to, span, out[i].0))
    {
      AlikeAnswers(F, out[i].1, mixed[i].1, FoldedInto(d.buckets, o, from, to, span, out[i].0), RawInto(d.rows, from, to, span, out[i].0));
    }
    forall k: u64 | FoldedInto(d.buckets, o, from, to, span, k) + RawInto(d.rows, from, to, span, k) != []
      ensures exists i :: 0 <= i < |out| && out[i].0 == k
    {
      var i :| 0 <= i < |mixed| && mixed[i].0 == k;
      assert out[i].0 == k;
    }
  }

  lemma NothingToAnswer(F: Floats, s: bytes, blocks: seq<Block>, o: Origins, from: u64, to: u64, span: u64)
    requires Backed(s, blocks) && AllHold(F, AbsorbAll(EMPTY, blocks).sketches.buckets, o)
    requires !Has(SegmentsIn(s), 5, from, to) && !Has(SegmentsIn(s), 6, from, to)
    ensures Answered(F, AbsorbAll(EMPTY, blocks).sketches, o, from, to, span, [])
  {
    hide AbsorbAll, Backed, Between, StreamOf, SketchRuns.Holds, FoldedInto, RawInto, SegmentsIn, ScanSeries, Has, ReadEach, Sketched;
    var d := AbsorbAll(EMPTY, blocks).sketches;
    SketchPaths.NothingRead(SegmentsIn(s), from, to);
    SketchPaths.ReadsStored(s, blocks, from, to);
    NothingMixed(F, span, from, to);
    forall k: u64
      ensures FoldedInto(d.buckets, o, from, to, span, k) + RawInto(d.rows, from, to, span, k) == []
    {
      var obs := BucketSketched(F, s, blocks, o, from, to, span, k);
    }
  }

  /** Whichever path a sketch read takes, it answers for the observations in each output bucket. */
  lemma RangeAnswers(F: Floats, s: bytes, blocks: seq<Block>, o: Origins, from: u64, to: u64, span: u64,
                     out: seq<(u64, Q.Sketch)>, error: Option<Error>)
    requires Backed(s, blocks) && AllHold(F, AbsorbAll(EMPTY, blocks).sketches.buckets, o)
    requires F.Ranged() && forall x :: F.add(0, x) == x
    requires Yields(F, s, from, to, span, out, error)
    ensures error.None? && Answered(F, AbsorbAll(EMPTY, blocks).sketches, o, from, to, span, out)
  {
    hide AbsorbAll, Backed, AllHold, SegmentsIn, ScanSeries, Has, RawYields, StoredYields, MixedYields, SketchPaths.SamePairs, Mix,
         Answered, SketchPaths.AllProper, Rendered, Encodable, ReadBoth, ReadStored;
    var xs := SegmentsIn(s);
    SketchPaths.ReadsStored(s, blocks, from, to);
    if !Has(xs, 5, from, to) && !Has(xs, 6, from, to) {
      NothingToAnswer(F, s, blocks, o, from, to, span);
    } else if !Has(xs, 6, from, to) {
      SketchPaths.RawPathAgrees(F, s, blocks, from, to, span, out, error);
      MixedAnswers(F, s, blocks, o, from, to, span, out, error);
    } else if !Has(xs, 5, from, to) && span == 0 {
      HeldProper(F, AbsorbAll(EMPTY, blocks).sketches.buckets, o);
      SketchPaths.StoredPathAgrees(F, s, blocks, from, to, out, error);
      var mixed := Rendered(F, Mix(F, 0, ReadBoth(s, from, to).entries));
      MixedAnswers(F, s, blocks, o, from, to, 0, mixed, None);
      PairsAnswer(F, AbsorbAll(EMPTY, blocks).sketches, o, from, to, 0, out, mixed);
    } else {
      MixedAnswers(F, s, blocks, o, from, to, span, out, error);
    }
  }
}
