/** Over any run every observation is held once, raw or in the one stored sketch that represents it, no tag
    repeats, and a fast append means the merge. */
module SketchRuns {
  import opened Words
  import opened Varint
  import opened FloatModel
  import opened Rows
  import opened Pendings
  import opened Blocks
  import opened Segments
  import opened Marshalling
  import opened Appending
  import opened AppendLaws
  import opened FastPaths
  import opened Database
  import opened Provenance
  import P = SampleState
  import N = CounterState
  import K = SketchState
  import M = SketchMerges
  import S = Sketches
  import B = SketchBytes
  import C = SketchCodec
  import H = Histograms
  import LayeredStates
  import A = SketchAccuracy
  import Y = Keys
  import Q = Quantiles

  // ----- Raw observations, wherever they are -----

  /** No row twice, and no two rows with one tag. */
  ghost predicate TagsOnce(rows: multiset<Row>) {
    && (forall r :: r in rows ==> rows[r] == 1)
    && (forall r, s :: r in rows && s in rows && K.TagOf(r) == K.TagOf(s) ==> r == s)
  }

  ghost function LooseIn(ds: seq<State>): multiset<Row> {
    if ds == [] then multiset{} else LooseIn(ds[..|ds| - 1]) + multiset(ds[|ds| - 1].sketches.rows)
  }

  /** The raw observations of the store, of the deltas in flight and of the buffer. */
  ghost function Loose(p: State, ds: seq<State>): multiset<Row> { multiset(p.sketches.rows) + LooseIn(ds) }

  lemma {:induction false} LooseConcat(a: seq<State>, b: seq<State>)
    ensures LooseIn(a + b) == LooseIn(a) + LooseIn(b)
  {
    if b == [] {
      assert a + b == a;
    } else {
      assert (a + b)[..|a| + |b| - 1] == a + b[..|b| - 1];
      LooseConcat(a, b[..|b| - 1]);
    }
  }

  lemma LooseOne(d: State)
    ensures LooseIn([d]) == multiset(d.sketches.rows)
  {
    assert [d][..0] == [];
  }

  lemma LooseParts(p: State, front: seq<State>, d: State, back: seq<State>)
    ensures Loose(p, front + [d] + back) == Loose(p, front + back) + multiset(d.sketches.rows)
  {
    hide LooseIn;
    LooseConcat(front + [d], back);
    LooseConcat(front, [d]);
    LooseConcat(front, back);
    LooseOne(d);
  }

  lemma TwoPlaces(rows: seq<Row>, i: nat, j: nat)
    requires i < j < |rows| && rows[i] == rows[j]
    ensures multiset(rows)[rows[i]] >= 2
  {
    var a, b, c := rows[..i], rows[i + 1..j], rows[j + 1..];
    var r := rows[i];
    assert rows == a + ([r] + (b + ([r] + c)));
    assert multiset(rows) == multiset(a) + (multiset{r} + (multiset(b) + (multiset{r} + multiset(c))));
  }

  lemma DistinctIsOnce(rows: seq<Row>)
    ensures K.DistinctTags(rows) <==> TagsOnce(multiset(rows))
  {
    if K.DistinctTags(rows) {
      M.DistinctRows(rows);
      forall r, s | r in rows && s in rows && K.TagOf(r) == K.TagOf(s)
        ensures r == s
      {
        var i :| 0 <= i < |rows| && rows[i] == r;
        var j :| 0 <= j < |rows| && rows[j] == s;
      }
    }
    if TagsOnce(multiset(rows)) {
      forall i, j | 0 <= i < j < |rows|
        ensures K.TagOf(rows[i]) != K.TagOf(rows[j])
      {
        assert rows[i] in multiset(rows) && rows[j] in multiset(rows);
        if rows[i] == rows[j] { TwoPlaces(rows, i, j); }
      }
    }
  }

  lemma OnceIn(part: multiset<Row>, rest: multiset<Row>)
    requires TagsOnce(part + rest)
    ensures TagsOnce(part) && TagsOnce(rest)
  {
    assert forall r :: r in part ==> r in part + rest && part[r] <= (part + rest)[r];
    assert forall r :: r in rest ==> r in part + rest && rest[r] <= (part + rest)[r];
  }

  ghost predicate AllKnown(rows: multiset<Row>, clocks: Clocks) { forall r :: r in rows ==> Known(r, clocks) }

  ghost predicate NoneKnown(rows: multiset<Row>, clocks: Clocks) { forall r :: r in rows ==> !Known(r, clocks) }

  /** Observations with new ticks repeat no tag. */
  lemma OnceMore(rows: multiset<Row>, more: multiset<Row>, clocks: Clocks)
    requires TagsOnce(rows) && TagsOnce(more) && AllKnown(rows, clocks) && NoneKnown(more, clocks)
    ensures TagsOnce(rows + more)
  {
    forall r, s | r in rows && s in more
      ensures K.TagOf(r) != K.TagOf(s)
    {
      assert Known(r, clocks) && !Known(s, clocks);
    }
    assert forall r :: r in rows + more ==> r in rows || r in more;
    assert forall r :: r in rows ==> r !in more;
  }

  lemma SubOnce(part: multiset<Row>, all: multiset<Row>)
    requires TagsOnce(all) && part <= all
    ensures TagsOnce(part)
  {
    assert all == part + (all - part);
    OnceIn(part, all - part);
  }

  // ----- What stored sketches have observed -----

  /** The sketch represents these observations, none of them before the bucket. */
  ghost predicate Of(F: Floats, t: u64, v: S.Summary, rows: seq<Row>) {
    S.Represents(F, v, Values(rows)) && forall r :: r in rows ==> t <= r.time
  }

  ghost predicate AllOf(F: Floats, m: map<u64, S.Summary>, w: Origins) {
    m.Keys == w.Keys && forall t :: t in m ==> w[t] != [] && Of(F, t, m[t], w[t])
  }

  function Often(w: Origins, r: Row): map<u64, nat> { map t | t in w :: multiset(w[t])[r] }

  /** How often an observation has been folded into a stored sketch. */
  ghost function Folds(w: Origins, r: Row): nat { H.Total(Often(w, r)) }

  /** All observations are the loose ones and those folded into stored sketches. */
  ghost predicate Parts(all: multiset<Row>, loose: multiset<Row>, w: Origins) {
    forall r :: all[r] == loose[r] + Folds(w, r)
  }

  lemma OfOneMore(F: Floats, t: u64, v: S.Summary, rows: seq<Row>, r: Row)
    requires Of(F, t, v, rows) && t <= r.time
    ensures Of(F, t, S.AddApprox(F, v, r.value), rows + [r])
  {
    hide S.Represents, S.AddApprox;
    S.AddApproxRepresents(F, v, Values(rows), r.value);
    ValuesSnoc(rows, r);
  }

  lemma NothingOf(F: Floats, t: u64)
    ensures Of(F, t, S.NEW, [])
  {
    hide S.Represents;
    S.NewRepresents(F);
    assert Values([]) == [];
  }

  /** Grouping observations into sketches is taking them into what the sketches represent. */
  lemma {:induction false} TakenOf(F: Floats, m: map<u64, S.Summary>, w: Origins, rows: seq<Row>, span: u64)
    requires AllOf(F, m, w)
    ensures AllOf(F, K.GroupRows(F, m, rows, span), Taken(w, rows, span))
  {
    hide Of, AllOf, S.AddApprox, K.GroupRows, Taken;
    if rows == [] {
      NothingTaken(F, m, w, rows, span);
    } else {
      var front, r := rows[..|rows| - 1], rows[|rows| - 1];
      var k := BucketOf(r.time, span);
      hide BucketOf;
      assert rows == front + [r];
      TakenOf(F, m, w, front, span);
      K.GroupSnoc(F, m, front, r, span);
      TakenSnoc(w, front, r, span);
      var g, o := K.GroupRows(F, m, front, span), Taken(w, front, span);
      OfAt(F, g, o, k);
      OfOneMore(F, k, K.At(g, k), From(o, k), r);
      AllOfPut(F, g, o, k, S.AddApprox(F, K.At(g, k), r.value), From(o, k) + [r]);
    }
  }

  lemma NothingTaken(F: Floats, m: map<u64, S.Summary>, w: Origins, rows: seq<Row>, span: u64)
    requires rows == []
    ensures K.GroupRows(F, m, rows, span) == m && Taken(w, rows, span) == w
  {
  }

  lemma OfAt(F: Floats, m: map<u64, S.Summary>, w: Origins, k: u64)
    requires AllOf(F, m, w)
    ensures Of(F, k, K.At(m, k), From(w, k))
  {
    hide Of;
    NothingOf(F, k);
  }

  lemma AllOfPut(F: Floats, m: map<u64, S.Summary>, w: Origins, k: u64, v: S.Summary, rows: seq<Row>)
    requires AllOf(F, m, w) && rows != [] && Of(F, k, v, rows)
    ensures AllOf(F, m[k := v], w[k := rows])
  {
    hide Of;
  }

  lemma {:induction false} TakenFolds(w: Origins, rows: seq<Row>, span: u64, r: Row)
    ensures Folds(Taken(w, rows, span), r) == Folds(w, r) + multiset(rows)[r]
  {
    if rows != [] {
      hide Folds, BucketOf;
      var front, x := rows[..|rows| - 1], rows[|rows| - 1];
      assert rows == front + [x];
      TakenFolds(w, front, span, r);
      FoldsPut(Taken(w, front, span), BucketOf(x.time, span), x, r);
    }
  }

  lemma FoldsPut(w: Origins, k: u64, x: Row, r: Row)
    ensures Folds(w[k := From(w, k) + [x]], r) == Folds(w, r) + (if x == r then 1 else 0)
  {
    hide H.Total;
    var n := multiset(From(w, k) + [x])[r];
    assert Often(w[k := From(w, k) + [x]], r) == Often(w, r)[k := n];
    assert n == multiset(From(w, k))[r] + (if x == r then 1 else 0);
    assert H.Get(Often(w, r), k) == multiset(From(w, k))[r];
    H.TotalPut(Often(w, r), k, n);
  }

  lemma SettledOf(F: Floats, m: map<u64, S.Summary>, n: map<u64, S.Summary>, w: Origins)
    requires M.Settled(F, m, n) && AllOf(F, m, w)
    ensures AllOf(F, n, w)
  {
    hide S.Approximate, S.Represents;
    forall t | t in n
      ensures w[t] != [] && Of(F, t, n[t], w[t])
    {
      S.ApproximateRepresents(F, m[t], Values(w[t]));
    }
  }

  /** Compaction moves exactly the old observations into what the stored sketches represent. */
  lemma CompactTakes(F: Floats, p: State, w: Origins, cutoff: u64, span: u64)
    requires Normal(p) && Compactable(F, p, cutoff, span) && forall x :: F.add(0, x) == x
    requires AllOf(F, K.DecodeItems(F, p.sketches.buckets), w)
    ensures var q := Compacted(F, p, cutoff, span);
            AllOf(F, K.DecodeItems(F, q.sketches.buckets), Taken(w, Old(p.sketches.rows, cutoff), span))
  {
    var d := p.sketches;
    var m, o := K.DecodeItems(F, d.buckets), Old(d.rows, cutoff);
    if d.rows != [] {
      var g := K.CompactedMap(F, d, cutoff, span);
      assert K.Compacted(F, d, cutoff, span) == K.Series(Young(d.rows, cutoff), K.ToBuckets(F, g));
      hide K.GroupRows, K.DecodeItems, K.ToBuckets, K.Encodable, Old, Young, Canonical, K.DistinctTags, IncreasingBy, M.AllSound,
           M.Settled, AllOf, Taken;
      CanonicalReencodes(F, d.buckets);
      M.GroupSound(F, m, o, span);
      TakenOf(F, m, w, o, span);
      M.DecodeWritten(F, g);
      SettledOf(F, g, K.DecodeItems(F, K.ToBuckets(F, g)), Taken(w, o, span));
    }
  }

  // ----- Counting them -----

  /** The number of observations that compactions have folded into the stored buckets. */
  ghost function Folded(F: Floats, p: State): nat { H.Total(CountsOf(K.DecodeItems(F, p.sketches.buckets))) }

  ghost function CountsOf(m: map<u64, S.Summary>): map<u64, nat> { map t | t in m :: m[t].count }

  function Lengths(w: Origins): map<u64, nat> { map t | t in w :: |w[t]| }

  lemma {:induction false} PartsCount(all: multiset<Row>, loose: multiset<Row>, w: Origins)
    requires Parts(all, loose, w)
    ensures |all| == |loose| + H.Total(Lengths(w))
    decreases |w|
  {
    if w == map[] {
      NothingFoldedIn(w);
      assert all == loose;
    } else {
      hide Folds, H.Total, Lengths;
      var k := SomeTime(w);
      var rest, here := w - {k}, multiset(w[k]);
      OneLess(w, k);
      assert forall r :: all[r] == loose[r] + (here[r] + Folds(rest, r));
      assert all == (all - here) + here;
      PartsCount(all - here, loose, rest);
    }
  }

  lemma OneLess(w: Origins, k: u64)
    requires k in w
    ensures |w - {k}| < |w| && H.Total(Lengths(w)) == |w[k]| + H.Total(Lengths(w - {k}))
    ensures forall r :: Folds(w, r) == multiset(w[k])[r] + Folds(w - {k}, r)
  {
    hide H.Total;
    var rest := w - {k};
    assert w.Keys == rest.Keys + {k};
    forall r
      ensures Folds(w, r) == multiset(w[k])[r] + Folds(rest, r)
    {
      assert Often(w, r) - {k} == Often(rest, r);
      H.TotalTake(Often(w, r), k);
    }
    assert Lengths(w) - {k} == Lengths(rest);
    H.TotalTake(Lengths(w), k);
  }

  lemma SomeTime(w: Origins) returns (k: u64)
    requires w != map[]
    ensures k in w
  {
    assert w.Keys != {};
    k :| k in w;
  }

  lemma NothingFoldedIn(w: Origins)
    requires w == map[]
    ensures H.Total(Lengths(w)) == 0 && forall r :: Folds(w, r) == 0
  {
    assert Lengths(w) == map[] && forall r :: Often(w, r) == map[];
  }

  lemma CountsAreLengths(F: Floats, m: map<u64, S.Summary>, w: Origins)
    requires AllOf(F, m, w)
    ensures CountsOf(m) == Lengths(w)
  {
    hide Of;
    forall t | t in m
      ensures CountsOf(m)[t] == Lengths(w)[t]
    {
      OfCount(F, t, m[t], w[t]);
    }
  }

  lemma OfCount(F: Floats, t: u64, v: S.Summary, rows: seq<Row>)
    requires Of(F, t, v, rows)
    ensures v.count == |rows|
  {
  }

  // ----- The invariant -----

  /** What is held of sketches: no tag repeats, nothing comes from the future, stored sketches re-encode to
      themselves, and every observation is held once, raw or by the stored sketch that represents it. */
  ghost predicate Kept(F: Floats, db: Db, p: State, w: Origins) {
    && TagsOnce(db.observed) && AllKnown(db.observed, db.clocks)
    && Canonical(p.sketches.buckets) && AllOf(F, K.DecodeItems(F, p.sketches.buckets), w)
    && Parts(db.observed, Loose(p, db.flight + [db.buffer]), w)
  }

  ghost predicate Tidy(F: Floats, db: Db, blocks: seq<Block>, w: Origins) {
    Sound(db, blocks) && Kept(F, db, AbsorbAll(EMPTY, blocks), w)
  }

  lemma LooseOnce(all: multiset<Row>, loose: multiset<Row>, w: Origins)
    requires Parts(all, loose, w) && TagsOnce(all)
    ensures loose <= all && TagsOnce(loose)
  {
    hide TagsOnce, Folds;
    assert forall r :: loose[r] <= all[r];
    SubOnce(loose, all);
  }

  lemma DeltaOnce(p: State, ds: seq<State>, i: nat)
    requires TagsOnce(Loose(p, ds)) && i < |ds|
    ensures K.DistinctTags(ds[i].sketches.rows)
  {
    hide TagsOnce, Loose, K.DistinctTags;
    assert ds == ds[..i] + [ds[i]] + ds[i + 1..];
    LooseParts(p, ds[..i], ds[i], ds[i + 1..]);
    OnceIn(Loose(p, ds[..i] + ds[i + 1..]), multiset(ds[i].sketches.rows));
    DistinctIsOnce(ds[i].sketches.rows);
  }

  lemma StoredOnce(p: State, ds: seq<State>)
    requires TagsOnce(Loose(p, ds))
    ensures K.DistinctTags(p.sketches.rows)
  {
    hide TagsOnce, LooseIn, K.DistinctTags;
    OnceIn(multiset(p.sketches.rows), LooseIn(ds));
    DistinctIsOnce(p.sketches.rows);
  }

  lemma BackedInOrder(s: bytes, blocks: seq<Block>)
    requires Backed(s, blocks)
    ensures Appendable(AbsorbAll(EMPTY, blocks))
  {
  }

  lemma ConservedCounters(db: Db, p: State)
    requires Conserved(db, p)
    ensures N.Distinct(p.counters.rows)
    ensures forall d :: d in db.flight ==> N.Distinct(d.counters.rows) && AllFinite(d.sketches.rows) && d.sketches.buckets == []
  {
    hide N.Distinct, AllFinite, Known;
    forall d | d in db.flight ensures Delta(d, db.clocks) { assert d in db.flight + [db.buffer]; }
  }

  /** The stored state of a tidy database is normal. */
  lemma TidyNormal(F: Floats, db: Db, blocks: seq<Block>, w: Origins)
    requires Tidy(F, db, blocks, w)
    ensures Normal(AbsorbAll(EMPTY, blocks)) && TagsOnce(Loose(AbsorbAll(EMPTY, blocks), db.flight + [db.buffer]))
  {
    hide AbsorbAll, Backed, Conserved, Loose, TagsOnce, AllKnown, Canonical, K.DistinctTags, N.Distinct, Appendable, AllOf, Parts;
    var p := AbsorbAll(EMPTY, blocks);
    BackedInOrder(db.store, blocks);
    ConservedCounters(db, p);
    LooseOnce(db.observed, Loose(p, db.flight + [db.buffer]), w);
    StoredOnce(p, db.flight + [db.buffer]);
  }

  // ----- Each step -----

  /** Some part gains new observations. */
  lemma Gains(p: State, front: seq<State>, d: State, back: seq<State>, e: State, more: multiset<Row>)
    requires multiset(e.sketches.rows) == multiset(d.sketches.rows) + more
    ensures Loose(p, front + [e] + back) == Loose(p, front + [d] + back) + more
  {
    hide Loose;
    LooseParts(p, front, d, back);
    LooseParts(p, front, e, back);
  }

  /** Accepting new observations into some part. */
  lemma Accepts(all: multiset<Row>, loose: multiset<Row>, w: Origins, more: multiset<Row>, before: Clocks, now: Clocks)
    requires TagsOnce(all) && AllKnown(all, before) && Parts(all, loose, w) && Ahead(now, before)
    requires TagsOnce(more) && NoneKnown(more, before) && AllKnown(more, now)
    ensures TagsOnce(all + more) && AllKnown(all + more, now) && Parts(all + more, loose + more, w)
  {
    hide TagsOnce, Folds;
    OnceMore(all, more, before);
    assert forall r :: r in all + more ==> r in all || r in more;
  }

  lemma PutObservation(d: State, w: Write, clocks: Clocks, replica: u64)
    requires ClockOf(clocks, replica) + 1 < W
    ensures var clock := ClockOf(clocks, replica) + 1;
            var more := if w.Sketch? then multiset{Row(w.t, w.v, clock, replica)} else multiset{};
            && multiset(Put(d, w, clock, replica).sketches.rows) == multiset(d.sketches.rows) + more
            && TagsOnce(more) && NoneKnown(more, clocks) && AllKnown(more, clocks[replica := clock])
  {
  }

  lemma BuffersKept(F: Floats, a: Db, b: Db, w: Write, p: State, o: Origins)
    requires Kept(F, a, p, o) && Buffers(a, b, w)
    ensures Kept(F, b, p, o)
  {
    hide Loose, TagsOnce, AllKnown, Put, AllOf, Parts, Canonical, NoneKnown, Ahead;
    var clock := Clock(a) + 1;
    var more := if w.Sketch? then multiset{Row(w.t, w.v, clock, a.replica)} else multiset{};
    PutObservation(a.buffer, w, a.clocks, a.replica);
    TickAhead(a.clocks, a.replica, clock);
    assert a.flight + [a.buffer] + [] == a.flight + [a.buffer] && b.flight + [b.buffer] + [] == b.flight + [b.buffer];
    Gains(p, a.flight, a.buffer, [], b.buffer, more);
    Accepts(a.observed, Loose(p, a.flight + [a.buffer]), o, more, a.clocks, b.clocks);
  }

  lemma SameLoose(p: State, front: seq<State>, back: seq<State>)
    ensures Loose(p, front + [EMPTY] + back) == Loose(p, front + back)
  {
    hide Loose;
    LooseParts(p, front, EMPTY, back);
  }

  lemma SwapsKept(F: Floats, a: Db, b: Db, p: State, o: Origins)
    requires Kept(F, a, p, o) && Swaps(a, b)
    ensures Kept(F, b, p, o)
  {
    hide Loose, TagsOnce, AllKnown, AllOf, Parts, Canonical;
    if Size(a.buffer) == 0 {
      NothingHeld(a.buffer);
      assert b == a;
    } else {
      var all := a.flight + [a.buffer];
      assert all + [] == all && all + [EMPTY] + [] == all + [EMPTY] && b.flight == all;
      SameLoose(p, all, []);
    }
  }

  lemma ShippedRows(d: State, replica: u64, clocks: Clocks, now: u64)
    requires ClockOf(clocks, replica) <= now && Shipped(d, replica, ClockOf(clocks, replica), now)
    ensures var more := multiset(d.sketches.rows);
            TagsOnce(more) && NoneKnown(more, clocks) && AllKnown(more, clocks[replica := now])
  {
    hide AllFinite, N.Distinct, TagsOnce;
    DistinctIsOnce(d.sketches.rows);
  }

  lemma ArrivesKept(F: Floats, a: Db, b: Db, d: State, replica: u64, now: u64, p: State, o: Origins)
    requires Kept(F, a, p, o) && Arrives(a, b, d, replica, now)
    ensures Kept(F, b, p, o)
  {
    hide Loose, TagsOnce, AllKnown, AllOf, Parts, Canonical, NoneKnown, Ahead, Shipped;
    var more := multiset(d.sketches.rows);
    ShippedRows(d, replica, a.clocks, now);
    TickAhead(a.clocks, replica, now);
    SameLoose(p, a.flight, [a.buffer]);
    assert b.flight + [b.buffer] == a.flight + [d] + [a.buffer];
    assert more == multiset(EMPTY.sketches.rows) + more;
    Gains(p, a.flight, EMPTY, [a.buffer], d, more);
    Accepts(a.observed, Loose(p, a.flight + [a.buffer]), o, more, a.clocks, b.clocks);
  }

  /** Merged or put behind, the observations of a delta join those that are stored. */
  lemma GrowsLoose(F: Floats, p: State, d: State, q: State)
    requires Grows(F, p, d, q) && TagsOnce(multiset(p.sketches.rows) + multiset(d.sketches.rows)) && d.sketches.buckets == []
    requires IncreasingBy(p.sketches.buckets, K.BucketTime) && Canonical(p.sketches.buckets) && forall x :: F.add(0, x) == x
    ensures multiset(q.sketches.rows) == multiset(p.sketches.rows) + multiset(d.sketches.rows)
    ensures q.sketches.buckets == p.sketches.buckets
  {
    hide P.Merged, N.MergedInto, Before, Appendable, TagsOnce, Canonical, IncreasingBy, K.ToBuckets, K.MergedMap, K.Encodable, K.Ops,
         Nondecreasing, K.DistinctTags;
    var a, b := p.sketches.rows, d.sketches.rows;
    assert multiset(a + b) == multiset(a) + multiset(b);
    if MergedInto(F, p, d, q) {
      DistinctIsOnce(a + b);
      M.OpsConcat(map[], a, b);
      M.TagsDetermine(q.sketches.rows, a + b);
      LayeredStates.SameBuckets(F, p.sketches);
    } else {
      assert p.sketches.buckets + [] == p.sketches.buckets;
    }
  }

  lemma StoreKept(F: Floats, p: State, front: seq<State>, d: State, back: seq<State>, q: State)
    requires Grows(F, p, d, q) && TagsOnce(Loose(p, front + [d] + back)) && d.sketches.buckets == []
    requires IncreasingBy(p.sketches.buckets, K.BucketTime) && Canonical(p.sketches.buckets) && forall x :: F.add(0, x) == x
    ensures Loose(q, front + back) == Loose(p, front + [d] + back) && q.sketches.buckets == p.sketches.buckets
  {
    hide Grows, TagsOnce, Canonical, IncreasingBy, LooseIn;
    LooseParts(p, front, d, back);
    var a, b, rest := multiset(p.sketches.rows), multiset(d.sketches.rows), LooseIn(front + back);
    assert Loose(p, front + [d] + back) == (a + b) + rest;
    OnceIn(a + b, rest);
    GrowsLoose(F, p, d, q);
  }

  lemma MergesKept(F: Floats, a: Db, b: Db, i: nat, p: State, o: Origins, q: State)
    requires Kept(F, a, p, o) && Merges(F, a, b, i) && Grows(F, p, a.flight[i], q)
    requires forall d :: d in a.flight ==> d.sketches.buckets == []
    requires IncreasingBy(p.sketches.buckets, K.BucketTime) && forall x :: F.add(0, x) == x
    ensures Kept(F, b, q, o)
  {
    hide Loose, TagsOnce, AllKnown, Canonical, Grows, AppendsTo, Fits, K.DecodeItems, IncreasingBy, AllOf, Parts;
    var front, back := a.flight[..i], a.flight[i + 1..] + [a.buffer];
    assert a.flight + [a.buffer] == front + [a.flight[i]] + back && b.flight + [b.buffer] == front + back;
    LooseOnce(a.observed, Loose(p, a.flight + [a.buffer]), o);
    StoreKept(F, p, front, a.flight[i], back, q);
  }

  lemma NothingCompacted(w: Write, clock: u64, replica: u64)
    ensures Put(EMPTY, w, clock, replica).sketches.buckets == []
  {
  }

  lemma ThroughKept(F: Floats, a: Db, b: Db, w: Write, p: State, o: Origins, q: State)
    requires Kept(F, a, p, o) && WritesThrough(F, a, b, w) && Grows(F, p, Put(EMPTY, w, Clock(a) + 1, a.replica), q)
    requires IncreasingBy(p.sketches.buckets, K.BucketTime) && forall x :: F.add(0, x) == x
    ensures Kept(F, b, q, o)
  {
    hide Loose, TagsOnce, AllKnown, NoneKnown, Ahead, Canonical, Grows, AppendsTo, Fits, K.DecodeItems, IncreasingBy, AllOf, Parts, Put;
    var clock, all := Clock(a) + 1, a.flight + [a.buffer];
    var d, more := Put(EMPTY, w, clock, a.replica), if w.Sketch? then multiset{Row(w.t, w.v, clock, a.replica)} else multiset{};
    assert b.flight + [b.buffer] == all + [] && all + [] == all;
    PutObservation(EMPTY, w, a.clocks, a.replica);
    TickAhead(a.clocks, a.replica, clock);
    SameLoose(p, all, []);
    Gains(p, all, EMPTY, [], d, more);
    Accepts(a.observed, Loose(p, all), o, more, a.clocks, b.clocks);
    LooseOnce(b.observed, Loose(p, all + [d] + []), o);
    NothingCompacted(w, clock, a.replica);
    StoreKept(F, p, all, d, [], q);
  }

  /** Compaction takes the old observations out. */
  lemma CompactLoose(p: State, q: State, ds: seq<State>, cutoff: u64)
    requires Nondecreasing(p.sketches.rows) && q.sketches.rows == Young(p.sketches.rows, cutoff)
    ensures Loose(p, ds) == Loose(q, ds) + multiset(Old(p.sketches.rows, cutoff))
  {
    hide LooseIn, Young, Old, Nondecreasing;
    OldThenYoung(p.sketches.rows, cutoff);
    var o, y := Old(p.sketches.rows, cutoff), Young(p.sketches.rows, cutoff);
    assert multiset(o + y) == multiset(o) + multiset(y);
  }

  lemma CompactParts(all: multiset<Row>, before: multiset<Row>, after: multiset<Row>, w: Origins, o: seq<Row>, span: u64)
    requires Parts(all, before, w) && before == after + multiset(o)
    ensures Parts(all, after, Taken(w, o, span))
  {
    hide Folds, Taken;
    forall r
      ensures all[r] == after[r] + Folds(Taken(w, o, span), r)
    {
      TakenFolds(w, o, span, r);
    }
  }

  lemma CompactsKept(F: Floats, a: Db, b: Db, cutoff: u64, span: u64, p: State, o: Origins)
    requires Kept(F, a, p, o) && Normal(p) && Compactable(F, p, cutoff, span) && b == a.(store := b.store, cutoff := b.cutoff)
    requires forall x :: F.add(0, x) == x
    ensures Kept(F, b, Compacted(F, p, cutoff, span), Taken(o, Old(p.sketches.rows, cutoff), span))
  {
    var q, ds := Compacted(F, p, cutoff, span), a.flight + [a.buffer];
    assert q.sketches.rows == Young(p.sketches.rows, cutoff);
    NormalParts(p);
    CompactKeepsNormal(F, p, cutoff, span);
    NormalParts(q);
    hide Compacted, Loose, TagsOnce, Canonical, Young, Old, Compactable, Normal, AllOf, Parts, Taken, K.DecodeItems, Nondecreasing, AllKnown;
    CompactTakes(F, p, o, cutoff, span);
    CompactLoose(p, q, ds, cutoff);
    CompactParts(a.observed, Loose(p, ds), Loose(q, ds), o, Old(p.sketches.rows, cutoff), span);
  }

  lemma NormalParts(p: State)
    requires Normal(p)
    ensures Nondecreasing(p.sketches.rows) && Canonical(p.sketches.buckets)
  {
    hide Canonical, Nondecreasing;
  }

  // ----- Runs -----

  lemma NothingKept(F: Floats)
    ensures Loose(EMPTY, [] + [EMPTY]) == multiset{} && TagsOnce(multiset{}) && AllKnown(multiset{}, map[])
    ensures Canonical([]) && AllOf(F, K.DecodeItems(F, []), map[]) && Parts(multiset{}, multiset{}, map[])
  {
    LooseOne(EMPTY);
    assert [] + [EMPTY] == [EMPTY];
    NothingFoldedIn(map[]);
  }

  lemma StartTidy(F: Floats, replica: u64)
    ensures Tidy(F, Start(replica), [], map[])
  {
    NothingKept(F);
    hide Loose, TagsOnce, AllKnown, AllOf, Parts, Canonical, Backed, Conserved, K.DecodeItems;
    StartSound(replica);
    assert AbsorbAll(EMPTY, []) == EMPTY;
  }

  lemma NextTidy(F: Floats, a: Db, b: Db, blocks: seq<Block>, o: Origins) returns (after: seq<Block>, now: Origins)
    requires Tidy(F, a, blocks, o) && Next(F, a, b) && forall x :: F.add(0, x) == x
    ensures Tidy(F, b, after, now)
  {
    hide Backed, Conserved, AbsorbAll, Buffers, WritesThrough, Swaps, Arrives, Merges, Compacts, Kept, Normal, Loose, TagsOnce, Taken, Old, Appendable, Compactable,
         Grows;
    var p := AbsorbAll(EMPTY, blocks);
    TidyNormal(F, a, blocks, o);
    now := o;
    TidyParts(F, a, blocks, o);
    if w :| Buffers(a, b, w) {
      after := blocks;
      BuffersKeeps(a, b, w, p);
      BuffersStore(a, b, w);
      BuffersKept(F, a, b, w, p, o);
    } else if w :| WritesThrough(F, a, b, w) {
      after := ThroughBacked(F, a, b, w, blocks);
      ThroughKeeps(F, a, b, w, p, AbsorbAll(EMPTY, after));
      ThroughKept(F, a, b, w, p, o, AbsorbAll(EMPTY, after));
    } else if Swaps(a, b) {
      after := blocks;
      SwapsKeeps(a, b, p);
      SwapsStore(a, b);
      SwapsKept(F, a, b, p, o);
    } else if d, replica, tick :| Arrives(a, b, d, replica, tick) {
      after := blocks;
      ArrivesKeeps(a, b, d, replica, tick, p);
      ArrivesStore(a, b, d, replica, tick);
      ArrivesKept(F, a, b, d, replica, tick, p, o);
    } else if i :| Merges(F, a, b, i) {
      after := MergesBacked(F, a, b, i, blocks);
      MergesKeeps(F, a, b, i, p, AbsorbAll(EMPTY, after));
      MergesKept(F, a, b, i, p, o, AbsorbAll(EMPTY, after));
    } else {
      var cutoff: u64, span: u64 :| Compacts(F, a, b, cutoff, span);
      after := CompactsBacked(F, a, b, cutoff, span, blocks);
      CompactsKeeps(F, a, b, cutoff, span, p);
      CompactsKept(F, a, b, cutoff, span, p, o);
      now := Taken(o, Old(p.sketches.rows, cutoff), span);
    }
  }

  lemma TidyParts(F: Floats, db: Db, blocks: seq<Block>, o: Origins)
    requires Tidy(F, db, blocks, o)
    ensures IncreasingBy(AbsorbAll(EMPTY, blocks).sketches.buckets, K.BucketTime)
    ensures forall d :: d in db.flight ==> d.sketches.buckets == [] && AllFinite(d.sketches.rows) && N.Distinct(d.counters.rows)
  {
    hide AbsorbAll, Backed, Conserved, Kept, IncreasingBy, AllFinite, N.Distinct;
    BackedInOrder(db.store, blocks);
    ConservedCounters(db, AbsorbAll(EMPTY, blocks));
  }

  lemma {:induction false} RunTidy(F: Floats, run: seq<Db>, n: nat) returns (blocks: seq<Block>, o: Origins)
    requires Runs(F, run) && n < |run| && forall x :: F.add(0, x) == x
    ensures Tidy(F, run[n], blocks, o)
  {
    hide Next, Tidy;
    if n == 0 {
      StartTidy(F, run[0].replica);
      blocks, o := [], map[];
    } else {
      var before, was := RunTidy(F, run, n - 1);
      assert Next(F, run[n - 1], run[n - 1 + 1]);
      blocks, o := NextTidy(F, run[n - 1], run[n], before, was);
    }
  }

  /** What a stored bucket is: bytes of a sketch of these observations, none of them before the bucket. */
  ghost predicate Holds(F: Floats, b: K.SketchBucket, rows: seq<Row>) {
    exists v :: CanonOf(b.data, v) && Of(F, b.time, v, rows)
  }

  lemma BucketHolds(F: Floats, bs: seq<K.SketchBucket>, o: Origins, b: K.SketchBucket)
    requires IncreasingBy(bs, K.BucketTime) && Canonical(bs) && AllOf(F, K.DecodeItems(F, bs), o) && b in bs
    requires forall x :: F.add(0, x) == x
    ensures b.time in o && o[b.time] != [] && Holds(F, b, o[b.time])
  {
    hide Canon, CanonOf, Of, B.MergeBytes, K.DecodeItems, IncreasingBy, M.BucketsIncreasing;
    SketchOrders(bs);
    M.DecodeDistinct(F, bs);
    CanonAgain(F, b.data);
    assert CanonOf(b.data, K.DecodeItems(F, bs)[b.time]);
  }

  lemma CanonAgain(F: Floats, data: bytes)
    requires Canon(data) && forall x :: F.add(0, x) == x
    ensures CanonOf(data, B.MergeBytes(F, S.NEW, data))
  {
    hide B.MergeBytes, M.Sound, C.Storable, C.ApproxBytes;
    CanonReencodes(F, data);
  }

  /** Over any run every observation that was accepted is held exactly once: raw in the store, in flight or
      buffered, or folded into the one stored bucket whose sketch represents it. No tag repeats. */
  lemma RunObservations(F: Floats, run: seq<Db>, n: nat) returns (blocks: seq<Block>, o: Origins)
    requires Runs(F, run) && n < |run| && forall x :: F.add(0, x) == x
    ensures Decoded(run[n].store) == Ok(AbsorbAll(EMPTY, blocks))
    ensures var p := AbsorbAll(EMPTY, blocks);
            var loose := Loose(p, run[n].flight + [run[n].buffer]);
            && Normal(p) && TagsOnce(run[n].observed) && Parts(run[n].observed, loose, o)
            && |run[n].observed| == |loose| + Folded(F, p)
            && (forall b :: b in p.sketches.buckets ==> b.time in o && o[b.time] != [] && Holds(F, b, o[b.time]))
            && forall t :: t in o ==> exists b :: b in p.sketches.buckets && b.time == t
  {
    hide Backed, Conserved, AbsorbAll, Decoded, Loose, TagsOnce, AllKnown, Canonical, Normal, AllOf, Parts, H.Total, Holds, K.DecodeItems,
         IncreasingBy, M.BucketsIncreasing, B.MergeBytes;
    blocks, o := RunTidy(F, run, n);
    var p := AbsorbAll(EMPTY, blocks);
    TidyNormal(F, run[n], blocks, o);
    TidyParts(F, run[n], blocks, o);
    BackedDecodes(run[n].store, blocks);
    var bs := p.sketches.buckets;
    PartsCount(run[n].observed, Loose(p, run[n].flight + [run[n].buffer]), o);
    CountsAreLengths(F, K.DecodeItems(F, bs), o);
    forall b | b in bs
      ensures b.time in o && o[b.time] != [] && Holds(F, b, o[b.time])
    {
      BucketHolds(F, bs, o, b);
    }
    SketchOrders(bs);
    M.DecodeDistinct(F, bs);
    SameTimes(F, K.DecodeItems(F, bs), o);
  }

  lemma SameTimes(F: Floats, m: map<u64, S.Summary>, o: Origins)
    requires AllOf(F, m, o)
    ensures forall t :: t in o ==> t in m
  {
    hide Of;
  }

  /** Every bucket that a run stores answers a rank within a bound if and only if the observations that were
      folded into it allow that. */
  lemma BucketAnswers(F: Floats, b: K.SketchBucket, rows: seq<Row>, rank: nat, t: u64, bound: real) returns (v: S.Summary)
    requires Holds(F, b, rows) && F.Ranged() && 0 < rank <= |rows| && Q.IsRank(F, Values(rows), rank, t)
    requires Y.BIN_ALPHA <= bound < 1.0
    ensures CanonOf(b.data, v) && S.Represents(F, v, Values(rows))
    ensures A.BytesAnswer(F, b.data, rank).Some?
    ensures A.Within(A.BytesAnswer(F, b.data, rank).value, F.val(t), bound) <==>
            F.val(t) == 0.0 || |A.BinsAbove(F, Values(rows), t)| < H.MAX_BINS || A.NearEdge(F, v, t, bound)
  {
    hide S.Represents, Q.IsRank, A.Within, A.BinsAbove, A.NearEdge, A.BytesAnswer, M.Sound, C.Storable, C.ApproxBytes;
    v :| CanonOf(b.data, v) && Of(F, b.time, v, rows);
    StoredCount(F, v, Values(rows));
    A.WithinExactly(F, v, Values(rows), rank, t, bound);
  }

  lemma StoredCount(F: Floats, v: S.Summary, obs: seq<u64>)
    requires C.Storable(v) && S.Represents(F, v, obs) && v.exact.None?
    ensures |obs| < W && S.Approximate(F, v) == v
  {
  }

  /** At every step of any run, if a delta in flight would be appended without a merge, the bytes then decode
      to what any merge holds, up to the order of entries with the same time: no delta of a run repeats an add
      or a tag. */
  lemma RunFastAppends(F: Floats, run: seq<Db>, n: nat, i: nat, m: State) returns (blocks: seq<Block>, q: State)
    requires Runs(F, run) && n < |run| && i < |run[n].flight| && forall x :: F.add(0, x) == x
    requires var d := run[n].flight[i];
             && FastPath(run[n].store, d) && Fits(d)
             && Decoded(run[n].store).Ok? && MergedInto(F, Decoded(run[n].store).value, d, m)
    ensures var d := run[n].flight[i];
            && N.Distinct(d.counters.rows) && K.DistinctTags(d.sketches.rows)
            && AllGood(BlocksOf(d)) && Decoded(run[n].store + Blob(BlocksOf(d))) == Ok(q)
    ensures q.samples == m.samples
    ensures multiset(q.counters.rows) == multiset(m.counters.rows) && q.counters.buckets == m.counters.buckets
    ensures multiset(q.sketches.rows) == multiset(m.sketches.rows) && q.sketches.buckets == m.sketches.buckets
  {
    hide Next, Backed, Conserved, AbsorbAll, Decoded, Loose, TagsOnce, AllKnown, Normal, FastPath, Fits, MergedInto, AllFinite,
         BlocksOf, Blob, AllGood, N.Distinct, K.DistinctTags;
    var o;
    blocks, o := RunTidy(F, run, n);
    var d := run[n].flight[i];
    TidyNormal(F, run[n], blocks, o);
    TidyParts(F, run[n], blocks, o);
    assert (run[n].flight + [run[n].buffer])[i] == d;
    DeltaOnce(AbsorbAll(EMPTY, blocks), run[n].flight + [run[n].buffer], i);
    BackedDecodes(run[n].store, blocks);
    q := FastAppendRefines(F, run[n].store, blocks, d, m);
  }
}
