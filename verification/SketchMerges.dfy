/** What merging and compacting sketch series preserves. */
module SketchMerges {
  import opened Words
  import opened FloatModel
  import opened Histograms
  import S = Sketches
  import C = SketchCodec
  import B = SketchBytes
  import opened Rows
  import opened SketchState

  // ----- Raw observations: the larger pattern per tag -----

  function Larger(a: u64, b: u64): u64 { if b > a then b else a }

  function Join(a: map<Tag, u64>, b: map<Tag, u64>): map<Tag, u64> {
    map g | g in a.Keys + b.Keys :: if g !in b then a[g] else if g !in a then b[g] else Larger(a[g], b[g])
  }

  /** The join of tagged patterns is a semilattice: order, grouping and repetition do not matter. */
  lemma JoinLaws(a: map<Tag, u64>, b: map<Tag, u64>, c: map<Tag, u64>)
    ensures Join(a, b) == Join(b, a)
    ensures Join(Join(a, b), c) == Join(a, Join(b, c))
    ensures Join(a, a) == a
  {
    JoinAssociative(a, b, c);
  }

  lemma JoinAssociative(a: map<Tag, u64>, b: map<Tag, u64>, c: map<Tag, u64>)
    ensures Join(Join(a, b), c) == Join(a, Join(b, c))
  {
    var l, r := Join(Join(a, b), c), Join(a, Join(b, c));
    forall g
      ensures g in l <==> g in r
      ensures g in l ==> l[g] == r[g]
    {
    }
    assert l == r;
  }

  /** Adding rows to a state is joining it with what they make of an empty one. */
  lemma {:induction false} OpsIsJoin(ops: map<Tag, u64>, rows: seq<Row>)
    ensures Ops(ops, rows) == Join(ops, Ops(map[], rows))
  {
    if rows == [] {
      assert Join(ops, map[]) == ops;
    } else {
      var n := |rows| - 1;
      OpsIsJoin(ops, rows[..n]);
      PutIsJoin(ops, Ops(map[], rows[..n]), rows[n]);
    }
  }

  lemma PutIsJoin(a: map<Tag, u64>, b: map<Tag, u64>, r: Row)
    ensures PutOp(Join(a, b), r) == Join(a, PutOp(b, r))
  {
    var l, q := PutOp(Join(a, b), r), Join(a, PutOp(b, r));
    assert l.Keys == q.Keys;
    forall g | g in l
      ensures l[g] == q[g]
    {
    }
  }

  lemma {:induction false} OpsConcat(ops: map<Tag, u64>, a: seq<Row>, b: seq<Row>)
    ensures Ops(ops, a + b) == Ops(Ops(ops, a), b)
  {
    if b == [] {
      assert a + b == a;
    } else {
      assert (a + b)[..|a| + |b| - 1] == a + b[..|b| - 1];
      OpsConcat(ops, a, b[..|b| - 1]);
    }
  }

  /** A merge holds the join of the observations of both sides. */
  lemma MergeIsJoin(F: Floats, d: Series, delta: Series, out: Series)
    requires MergedInto(F, d, delta, out)
    ensures Ops(map[], out.rows) == Join(Ops(map[], d.rows), Ops(map[], delta.rows))
  {
    OpsIsJoin(Ops(map[], d.rows), delta.rows);
  }

  /** Under each tag the largest pattern of those that were there or came. */
  lemma {:induction false} OpsKeepLargest(ops: map<Tag, u64>, rows: seq<Row>, g: Tag)
    ensures g in Ops(ops, rows) <==> g in ops || exists r :: r in rows && TagOf(r) == g
    ensures g in Ops(ops, rows) ==>
              var kept := Ops(ops, rows)[g];
              && ((g in ops && kept == ops[g]) || Row(g.time, kept, g.clock, g.replica) in rows)
              && (g in ops ==> ops[g] <= kept)
              && (forall r :: r in rows && TagOf(r) == g ==> r.value <= kept)
  {
    if rows != [] {
      var n := |rows| - 1;
      OpsKeepLargest(ops, rows[..n], g);
      assert rows == rows[..n] + [rows[n]];
    }
  }

  lemma Distinguished(rows: seq<Row>, r: Row)
    requires DistinctTags(rows) && r in rows
    ensures TagOf(r) in Ops(map[], rows) && Ops(map[], rows)[TagOf(r)] == r.value
  {
    OpsKeepLargest(map[], rows, TagOf(r));
    var v := Row(r.time, Ops(map[], rows)[TagOf(r)], r.clock, r.replica);
    assert v in rows && TagOf(v) == TagOf(r);
    var i :| 0 <= i < |rows| && rows[i] == r;
    var j :| 0 <= j < |rows| && rows[j] == v;
    var a, b := TagOf(rows[i]), TagOf(rows[j]);
    assert i == j;
  }

  /** The same write: made at one time with one tag. */
  predicate Same(a: Row, b: Row) { a.time == b.time && a.clock == b.clock && a.replica == b.replica }

  /** A merge holds every write of either side once, in time order, with the largest pattern a side has for it. */
  lemma MergeKeepsLargest(F: Floats, d: Series, delta: Series, out: Series)
    requires MergedInto(F, d, delta, out)
    ensures forall r :: r in d.rows || r in delta.rows ==> exists x :: x in out.rows && Same(x, r) && r.value <= x.value
    ensures forall x :: x in out.rows ==> x in d.rows || x in delta.rows
    ensures forall i, j :: 0 <= i < j < |out.rows| ==> !Same(out.rows[i], out.rows[j]) && out.rows[i].time <= out.rows[j].time
  {
    hide Ops, Encodable, ToBuckets, MergedMap;
    forall r | r in d.rows || r in delta.rows
      ensures exists x :: x in out.rows && Same(x, r) && r.value <= x.value
    {
      var g := TagOf(r);
      OpsKeepLargest(map[], d.rows, g);
      OpsKeepLargest(Ops(map[], d.rows), delta.rows, g);
      OpsKeepLargest(map[], out.rows, g);
      var x := Row(g.time, Ops(map[], out.rows)[g], g.clock, g.replica);
      assert x in out.rows && Same(x, r);
    }
    forall x | x in out.rows
      ensures x in d.rows || x in delta.rows
    {
      var g := TagOf(x);
      Distinguished(out.rows, x);
      OpsKeepLargest(map[], d.rows, g);
      OpsKeepLargest(Ops(map[], d.rows), delta.rows, g);
    }
    forall i, j | 0 <= i < j < |out.rows|
      ensures !Same(out.rows[i], out.rows[j])
    {
      assert TagOf(out.rows[i]) != TagOf(out.rows[j]);
    }
  }

  /** Merging in two batches holds what merging at once does. */
  lemma MergeBatches(F: Floats, d: Series, a: seq<Row>, b: seq<Row>, first: Series, second: Series, once: Series)
    requires MergedInto(F, d, Series(a, []), first) && MergedInto(F, first, Series(b, []), second)
    requires MergedInto(F, d, Series(a + b, []), once)
    ensures Ops(map[], second.rows) == Ops(map[], once.rows)
  {
    OpsConcat(Ops(map[], d.rows), a, b);
  }

  /** Rows with distinct tags are determined by their patterns, up to order. */
  lemma TagsDetermine(a: seq<Row>, b: seq<Row>)
    requires DistinctTags(a) && DistinctTags(b) && Ops(map[], a) == Ops(map[], b)
    ensures multiset(a) == multiset(b)
  {
    OpsOfDistinct(a);
    OpsOfDistinct(b);
    DistinctRows(a);
    DistinctRows(b);
    SameMembers(a, b);
    SameMembers(b, a);
    assert (set r | r in a) == (set r | r in b);
  }

  lemma SameMembers(a: seq<Row>, b: seq<Row>)
    requires DistinctTags(b) && Ops(map[], a) == Ops(map[], b)
    requires forall r :: r in a ==> TagOf(r) in Ops(map[], a) && Ops(map[], a)[TagOf(r)] == r.value
    ensures forall r :: r in a ==> r in b
  {
    OpsOfDistinct(b);
    forall r | r in a
      ensures r in b
    {
      var x :| x in b && TagOf(x) == TagOf(r);
      assert x.value == r.value;
    }
  }

  lemma {:induction false} DistinctRows(rows: seq<Row>)
    requires DistinctTags(rows)
    ensures multiset(rows) == multiset(set r | r in rows)
  {
    if rows == [] {
      assert (set r | r in rows) == {};
    } else {
      var n := |rows| - 1;
      var front, r := rows[..n], rows[n];
      DistinctRows(front);
      assert rows == front + [r];
      assert r !in front by {
        forall i | 0 <= i < n ensures rows[i] != r { assert TagOf(rows[i]) != TagOf(r); }
      }
      OneRowMore(front, r);
    }
  }

  lemma OneRowMore(rows: seq<Row>, r: Row)
    requires r !in rows
    ensures multiset(set x | x in rows + [r]) == multiset(set x | x in rows) + multiset{r}
  {
    assert (set x | x in rows + [r]) == (set x | x in rows) + {r};
  }

  /** A merge is determined up to the order of observations with the same time. */
  lemma MergesAgree(F: Floats, d: Series, delta: Series, a: Series, b: Series)
    requires MergedInto(F, d, delta, a) && MergedInto(F, d, delta, b)
    ensures multiset(a.rows) == multiset(b.rows) && a.buckets == b.buckets
  {
    TagsDetermine(a.rows, b.rows);
  }

  // ----- Stored sketches -----

  /** A sketch that stores well: every observation is in one place, no bin is empty or too many. */
  ghost predicate Sound(v: S.Summary) {
    && v.count == |S.ExactOf(v)| + Mass(v.hist)
    && Positive(v.hist) && |Codes(v.hist)| <= MAX_BINS
    && (v.count == 0 ==> v == S.NEW)
  }

  lemma SoundAdd(F: Floats, v: S.Summary, x: u64)
    requires Sound(v)
    ensures Sound(S.AddApprox(F, v, x))
  {
    hide Collapse, Plus, Codes, S.Bins;
    CollapseShape(Plus(v.hist, S.Bins(F, x, 1)));
    MassPlus(v.hist, S.Bins(F, x, 1));
    S.BinsMass(F, x, 1);
    PlusPositive(v.hist, S.Bins(F, x, 1));
  }

  lemma SoundApproximate(F: Floats, v: S.Summary)
    requires Sound(v)
    ensures Sound(S.Approximate(F, v)) && S.Approximate(F, v).exact.None?
  {
    hide Collapse, Plus, Codes, S.HistOf;
    if v.exact.Some? {
      var e := S.HistOf(F, v.exact.value);
      CollapseShape(Plus(v.hist, e));
      MassPlus(v.hist, e);
      S.HistOfMass(F, v.exact.value);
      PlusPositive(v.hist, e);
    }
  }

  /** Writing a sound sketch and merging the bytes into an empty one gives its approximation. */
  lemma StoreAndLoad(F: Floats, v: S.Summary)
    requires Sound(v) && C.Storable(S.Approximate(F, v))
    requires forall x :: F.add(0, x) == x
    ensures B.MergeBytes(F, S.NEW, C.ApproxBytes(S.Approximate(F, v))) == S.Approximate(F, v)
  {
    hide S.Approximate, C.ApproxBytes, C.Decode, Mass, Positive, Codes;
    var w := S.Approximate(F, v);
    SoundApproximate(F, v);
    B.ApproxRoundTrip(w);
    MergeIntoNew(F, w);
  }

  lemma MergeIntoNew(F: Floats, w: S.Summary)
    requires Sound(w) && w.exact.None?
    requires forall x :: F.add(0, x) == x
    ensures S.Merge(F, S.NEW, w) == w
  {
    hide Collapse, Plus, Codes;
    PlusEmpty(w.hist);
    CollapseShape(w.hist);
  }

  /** Approximating before or after binning another observation ends in the same sketch. */
  lemma ApproximateAdd(F: Floats, v: S.Summary, x: u64)
    ensures S.Approximate(F, S.AddApprox(F, v, x)) == S.AddApprox(F, S.Approximate(F, v), x)
  {
    hide Collapse, Plus, S.Bins, S.HistOf;
    if v.exact.Some? {
      var b, e := S.Bins(F, x, 1), S.HistOf(F, v.exact.value);
      calc {
        Collapse(Plus(Collapse(Plus(v.hist, b)), e));
        { CollapseOfPlus(Plus(v.hist, b), e); }
        Collapse(Plus(Plus(v.hist, b), e));
        { PlusAssociative(v.hist, b, e); PlusCommutes(b, e); PlusAssociative(v.hist, e, b); }
        Collapse(Plus(Plus(v.hist, e), b));
        { CollapseOfPlus(Plus(v.hist, e), b); }
        Collapse(Plus(Collapse(Plus(v.hist, e)), b));
      }
    }
  }

  ghost predicate AllSound(m: map<u64, S.Summary>) {
    forall t :: t in m ==> Sound(m[t])
  }

  /** Each sketch of `n` is the approximation of the one of `m`. */
  ghost predicate Settled(F: Floats, m: map<u64, S.Summary>, n: map<u64, S.Summary>) {
    n.Keys == m.Keys && forall t :: t in m ==> n[t] == S.Approximate(F, m[t])
  }

  lemma NewSound(F: Floats)
    ensures Sound(S.NEW) && S.Approximate(F, S.NEW) == S.NEW
  {
    hide Mass, Positive, Codes, S.HistOf;
    EmptyHist();
    assert S.NEW.hist == EMPTY;
  }

  lemma EmptyHist()
    ensures Codes(EMPTY) == {} && Mass(EMPTY) == 0 && Positive(EMPTY)
  {
    TotalEmpty();
  }

  lemma TotalEmpty()
    ensures Total(map[]) == 0
  {
  }

  lemma {:induction false} GroupSound(F: Floats, m: map<u64, S.Summary>, rows: seq<Row>, span: u64)
    requires AllSound(m)
    ensures AllSound(GroupRows(F, m, rows, span))
  {
    hide AllSound, Sound, BucketOf, At, S.AddApprox;
    if rows != [] {
      hide GroupRows;
      var front, r := rows[..|rows| - 1], rows[|rows| - 1];
      GroupSound(F, m, front, span);
      PutSound(F, GroupRows(F, m, front, span), BucketOf(r.time, span), r.value);
      GroupSnoc(F, m, front, r, span);
      assert front + [r] == rows;
    }
  }

  lemma PutSound(F: Floats, m: map<u64, S.Summary>, t: u64, x: u64)
    requires AllSound(m)
    ensures AllSound(m[t := S.AddApprox(F, At(m, t), x)])
  {
    hide Sound, S.AddApprox;
    NewSound(F);
    SoundAdd(F, At(m, t), x);
  }

  /** Binning rows into approximated sketches approximates binning them into the sketches. */
  lemma {:induction false} GroupSettled(F: Floats, m: map<u64, S.Summary>, n: map<u64, S.Summary>, rows: seq<Row>, span: u64)
    requires Settled(F, m, n)
    ensures Settled(F, GroupRows(F, m, rows, span), GroupRows(F, n, rows, span))
  {
    if rows != [] {
      hide Settled, GroupRows;
      var front, r := rows[..|rows| - 1], rows[|rows| - 1];
      GroupSettled(F, m, n, front, span);
      PutSettled(F, GroupRows(F, m, front, span), GroupRows(F, n, front, span), BucketOf(r.time, span), r.value);
      GroupSnoc(F, m, front, r, span);
      GroupSnoc(F, n, front, r, span);
      assert front + [r] == rows;
    }
  }

  lemma SettledAt(F: Floats, m: map<u64, S.Summary>, n: map<u64, S.Summary>, t: u64)
    requires Settled(F, m, n)
    ensures At(n, t) == S.Approximate(F, At(m, t))
  {
    hide S.Approximate;
    NewSound(F);
  }

  lemma SettledUpdate(F: Floats, m: map<u64, S.Summary>, n: map<u64, S.Summary>, t: u64, v: S.Summary)
    requires Settled(F, m, n)
    ensures Settled(F, m[t := v], n[t := S.Approximate(F, v)])
  {
    hide S.Approximate;
  }

  lemma PutSettled(F: Floats, m: map<u64, S.Summary>, n: map<u64, S.Summary>, t: u64, x: u64)
    requires Settled(F, m, n)
    ensures Settled(F, m[t := S.AddApprox(F, At(m, t), x)], n[t := S.AddApprox(F, At(n, t), x)])
  {
    hide S.AddApprox, S.Approximate, Settled, At;
    SettledAt(F, m, n, t);
    ApproximateAdd(F, At(m, t), x);
    SettledUpdate(F, m, n, t, S.AddApprox(F, At(m, t), x));
  }

  lemma {:induction false} GroupRowsConcat(F: Floats, m: map<u64, S.Summary>, a: seq<Row>, b: seq<Row>, span: u64)
    ensures GroupRows(F, m, a + b, span) == GroupRows(F, GroupRows(F, m, a, span), b, span)
  {
    if b == [] {
      assert a + b == a;
    } else {
      hide GroupRows;
      var front, r := b[..|b| - 1], b[|b| - 1];
      assert a + b == (a + front) + [r] && front + [r] == b;
      GroupRowsConcat(F, m, a, front, span);
      GroupSnoc(F, m, a + front, r, span);
      GroupSnoc(F, GroupRows(F, m, a, span), front, r, span);
    }
  }

  predicate BucketsIncreasing(bs: seq<SketchBucket>) {
    forall i, j :: 0 <= i < j < |bs| ==> bs[i].time < bs[j].time
  }

  lemma {:induction false} DecodeDistinct(F: Floats, bs: seq<SketchBucket>)
    requires BucketsIncreasing(bs)
    ensures forall t :: t in DecodeItems(F, bs) <==> exists b :: b in bs && b.time == t
    ensures forall b :: b in bs ==> b.time in DecodeItems(F, bs) && DecodeItems(F, bs)[b.time] == B.MergeBytes(F, S.NEW, b.data)
  {
    if bs != [] {
      hide B.MergeBytes, DecodeItems, BucketsIncreasing;
      var n := |bs| - 1;
      LastBucket(bs);
      DecodeDistinct(F, bs[..n]);
      DecodeSnoc(F, bs);
    }
  }

  lemma LastBucket(bs: seq<SketchBucket>)
    requires BucketsIncreasing(bs) && bs != []
    ensures BucketsIncreasing(bs[..|bs| - 1])
    ensures forall b :: b in bs <==> b in bs[..|bs| - 1] || b == bs[|bs| - 1]
    ensures forall b :: b in bs[..|bs| - 1] ==> b.time < bs[|bs| - 1].time
  {
    var n := |bs| - 1;
    assert bs == bs[..n] + [bs[n]];
    forall b | b in bs[..n]
      ensures b.time < bs[n].time
    {
      var i :| 0 <= i < n && bs[i] == b;
    }
  }

  lemma DecodeSnoc(F: Floats, bs: seq<SketchBucket>)
    requires bs != []
    ensures var x := bs[|bs| - 1];
            DecodeItems(F, bs) == DecodeItems(F, bs[..|bs| - 1])[x.time := B.MergeBytes(F, S.NEW, x.data)]
  {
  }

  lemma ToBucketsAt(F: Floats, m: map<u64, S.Summary>)
    requires Encodable(F, m)
    ensures BucketsIncreasing(ToBuckets(F, m))
    ensures forall b :: b in ToBuckets(F, m) ==> b.time in m && b.data == C.ApproxBytes(S.Approximate(F, m[b.time]))
    ensures forall t :: t in m ==> SketchBucket(t, C.ApproxBytes(S.Approximate(F, m[t]))) in ToBuckets(F, m)
  {
    hide C.ApproxBytes, S.Approximate, SortedTimes;
    var q := SortedTimes(m);
    forall i | 0 <= i < |q|
      ensures q[i] in m
    {
      assert q[i] in q;
    }
    forall t | t in m
      ensures SketchBucket(t, C.ApproxBytes(S.Approximate(F, m[t]))) in ToBuckets(F, m)
    {
      assert t in q;
      var i :| 0 <= i < |q| && q[i] == t;
      assert ToBuckets(F, m)[i].time == t;
    }
  }

  /** What compaction wrote reads back as the approximated sketches. */
  lemma DecodeWritten(F: Floats, m: map<u64, S.Summary>)
    requires Encodable(F, m) && AllSound(m)
    requires forall x :: F.add(0, x) == x
    ensures Settled(F, m, DecodeItems(F, ToBuckets(F, m)))
  {
    hide C.ApproxBytes, S.Approximate, Sound, ToBuckets, B.MergeBytes, C.Storable, DecodeItems;
    var bs := ToBuckets(F, m);
    ToBucketsAt(F, m);
    DecodeDistinct(F, bs);
    var back := DecodeItems(F, bs);
    forall t: u64
      ensures t in back <==> t in m
      ensures t in m ==> back[t] == S.Approximate(F, m[t])
    {
      if t in m {
        StoreAndLoad(F, m[t]);
        assert SketchBucket(t, C.ApproxBytes(S.Approximate(F, m[t]))) in bs;
      }
    }
    assert back.Keys == m.Keys;
  }

  lemma SettledBuckets(F: Floats, m: map<u64, S.Summary>, n: map<u64, S.Summary>)
    requires Settled(F, m, n) && Encodable(F, m)
    ensures Encodable(F, n) && ToBuckets(F, n) == ToBuckets(F, m)
  {
    hide C.ApproxBytes, C.Storable;
    forall t | t in m
      ensures S.Approximate(F, n[t]) == S.Approximate(F, m[t])
    {
    }
    SortedTimesUnique(m, SortedTimes(n));
  }

  /** Compacting a sketch series in two steps, with the sketches encoded and decoded in between, stores
      byte for byte what compacting it at once does, as long as adding to zero changes nothing. */
  lemma CompactTwice(F: Floats, d: Series, c1: u64, c2: u64, span: u64)
    requires Nondecreasing(d.rows) && c1 <= c2
    requires AllSound(DecodeItems(F, d.buckets))
    requires forall x :: F.add(0, x) == x
    requires Encodable(F, CompactedMap(F, d, c1, span)) && Encodable(F, CompactedMap(F, d, c2, span))
    ensures Encodable(F, CompactedMap(F, Compacted(F, d, c1, span), c2, span))
    ensures Compacted(F, Compacted(F, d, c1, span), c2, span) == Compacted(F, d, c2, span)
  {
    hide ToBuckets, GroupRows, DecodeItems, Old, Young, AllSound, Settled, Encodable;
    if d.rows != [] {
      var base := DecodeItems(F, d.buckets);
      var o1, y1 := Old(d.rows, c1), Young(d.rows, c1);
      var m1 := GroupRows(F, base, o1, span);
      GroupSound(F, base, o1, span);
      DecodeWritten(F, m1);
      CutTwice(d.rows, c1, c2);
      GroupRowsConcat(F, base, o1, Old(y1, c2), span);
      GroupSettled(F, m1, DecodeItems(F, ToBuckets(F, m1)), Old(y1, c2), span);
      SettledBuckets(F, GroupRows(F, m1, Old(y1, c2), span),
                     GroupRows(F, DecodeItems(F, ToBuckets(F, m1)), Old(y1, c2), span));
      if y1 == [] {
        AllOld([], c2);
        assert o1 + [] == o1;
      }
    }
  }
}
