/** What a reported aggregate is of the values behind it. */
module Answers {
  import opened Words
  import opened FloatModel
  import opened Runs
  import opened Aggregates
  import opened SampleReaders
  import P = SampleState
  import AlignedReads

  /** Some value of the list has no smaller one beside it. */
  predicate Least(F: Floats, vs: seq<u64>, x: u64) { x in vs && forall v :: v in vs ==> F.val(x) <= F.val(v) }

  predicate Greatest(F: Floats, vs: seq<u64>, x: u64) { x in vs && forall v :: v in vs ==> F.val(v) <= F.val(x) }

  /** `x` is the aggregate of `vs`. Sums are added up in order; where stored sums are added as a whole, that
      takes an addition that may be regrouped. */
  ghost predicate Meets(F: Floats, agg: Agg, vs: seq<u64>, x: u64)
    requires vs != []
  {
    match agg
    case Count => x == F.ofUint(|vs| % W)
    case Min => Least(F, vs, x)
    case Max => Greatest(F, vs, x)
    case First => x == vs[0]
    case Last => x == vs[|vs| - 1]
    case Sum => AlignedReads.Regroups(F) ==> x == AddedUp(F, vs)
    case Mean => AlignedReads.Regroups(F) ==> x == F.div(AddedUp(F, vs), F.ofUint(|vs| % W))
  }

  /** The bucket holds the aggregates of these values. */
  ghost predicate Came(F: Floats, b: P.SampleBucket, vs: seq<u64>) {
    && vs != [] && b.count == |vs| && b.sum == AddedUp(F, vs) && b.first == vs[0] && b.last == vs[|vs| - 1]
    && Least(F, vs, b.min) && Greatest(F, vs, b.max)
  }

  /** And so does the open fold of a reader; its sum may be regrouped. */
  ghost predicate FoldCame(F: Floats, f: Fold, vs: seq<u64>) {
    if vs == [] then f == NO_FOLD else
    && f.count == |vs| && f.first == vs[0] && f.last == vs[|vs| - 1]
    && Least(F, vs, f.min) && Greatest(F, vs, f.max)
    && (AlignedReads.Regroups(F) ==> f.sum == AddedUp(F, vs))
  }

  lemma FoldMeets(F: Floats, f: Fold, vs: seq<u64>, agg: Agg)
    requires vs != [] && FoldCame(F, f, vs)
    ensures Meets(F, agg, vs, ValueOf(F, f, agg))
  {
    hide Least, Greatest, AddedUp, AlignedReads.Regroups;
  }

  lemma {:induction false} AddedUpConcat(F: Floats, a: seq<u64>, b: seq<u64>)
    requires AlignedReads.Regroups(F) && b != []
    ensures AddedUp(F, a + b) == F.add(AddedUp(F, a), AddedUp(F, b))
  {
    var front, v := b[..|b| - 1], b[|b| - 1];
    assert (a + b)[..|a| + |b| - 1] == a + front;
    if front == [] {
      assert a + front == a;
    } else {
      AddedUpConcat(F, a, front);
    }
  }

  lemma ExtremeSnoc(F: Floats, vs: seq<u64>, v: u64, lo: u64, hi: u64)
    requires vs != [] ==> Least(F, vs, lo) && Greatest(F, vs, hi)
    ensures Least(F, vs + [v], if vs == [] || F.Less(v, lo) then v else lo)
    ensures Greatest(F, vs + [v], if vs == [] || F.Less(hi, v) then v else hi)
  {
  }

  lemma ExtremeConcat(F: Floats, a: seq<u64>, b: seq<u64>, lo: u64, hi: u64, low: u64, high: u64)
    requires a != [] ==> Least(F, a, lo) && Greatest(F, a, hi)
    requires Least(F, b, low) && Greatest(F, b, high)
    ensures Least(F, a + b, if a == [] || F.Less(low, lo) then low else lo)
    ensures Greatest(F, a + b, if a == [] || F.Less(hi, high) then high else hi)
  {
  }

  /** One value more in the open fold. */
  lemma FoldAdds(F: Floats, f: Fold, vs: seq<u64>, v: u64)
    requires FoldCame(F, f, vs)
    ensures FoldCame(F, Added(F, f, v), vs + [v])
  {
    hide Least, Greatest, AlignedReads.Regroups, AddedUp;
    AddedUpSnoc(F, vs, v);
    ExtremeSnoc(F, vs, v, f.min, f.max);
    assert vs + [v] != [] && (vs != [] ==> (vs + [v])[0] == vs[0]);
  }

  lemma AddedUpSnoc(F: Floats, vs: seq<u64>, v: u64)
    ensures AddedUp(F, vs + [v]) == F.add(AddedUp(F, vs), v) && AddedUp(F, []) == 0
  {
    assert (vs + [v])[..|vs|] == vs;
  }

  /** One bucket more. */
  lemma FoldJoins(F: Floats, f: Fold, vs: seq<u64>, b: P.SampleBucket, us: seq<u64>)
    requires FoldCame(F, f, vs) && Came(F, b, us)
    ensures FoldCame(F, Joined(F, f, b), vs + us)
  {
    hide Least, Greatest, AlignedReads.Regroups, AddedUp;
    ExtremeConcat(F, vs, us, f.min, f.max, b.min, b.max);
    if vs == [] {
      assert vs + us == us;
    }
    if AlignedReads.Regroups(F) {
      FromZero(F, us);
      AddedUpConcat(F, vs, us);
    }
  }

  lemma FromZero(F: Floats, vs: seq<u64>)
    requires AlignedReads.Regroups(F)
    ensures F.add(0, AddedUp(F, vs)) == AddedUp(F, vs)
  {
  }

  /** One value more in a bucket, or the first one in a new bucket. */
  lemma BucketAdds(F: Floats, b: P.SampleBucket, t: u64, vs: seq<u64>, v: u64)
    requires Came(F, b, vs) || (b == P.EmptyBucket(t) && vs == [])
    ensures Came(F, P.AddPoint(F, b, v), vs + [v])
  {
    hide Least, Greatest, AddedUp;
    AddedUpSnoc(F, vs, v);
    ExtremeSnoc(F, vs, v, b.min, b.max);
    assert vs + [v] != [] && (vs != [] ==> (vs + [v])[0] == vs[0]);
  }

  /** Two buckets of one time together hold the aggregates of both lists. */
  lemma CombinedCame(F: Floats, a: P.SampleBucket, b: P.SampleBucket, vs: seq<u64>, us: seq<u64>)
    requires Came(F, a, vs) && Came(F, b, us) && AlignedReads.Regroups(F)
    ensures Came(F, P.Combine(F, a, b), vs + us) && P.Combine(F, a, b).time == a.time
  {
    hide Least, Greatest, AlignedReads.Regroups, AddedUp;
    ExtremeConcat(F, vs, us, a.min, a.max, b.min, b.max);
    AddedUpConcat(F, vs, us);
  }

  /** A bucket nothing was folded into changes nothing, on either side. */
  lemma NothingCombined(F: Floats, a: P.SampleBucket, b: P.SampleBucket, f: Fold)
    requires b.count == 0
    ensures Joined(F, f, b) == f && P.Combine(F, b, a) == a && (a.count > 0 ==> P.Combine(F, a, b) == a)
  {
  }

  // ----- By output bucket -----

  /** The values of the entries that fall into the output bucket `k`, in order. */
  function Behind<E>(es: seq<E>, key: E -> u64, values: E -> seq<u64>, k: u64): seq<u64> {
    if es == [] then [] else
    var front, e := es[..|es| - 1], es[|es| - 1];
    Behind(front, key, values, k) + if key(e) == k then values(e) else []
  }

  ghost predicate AnsweredAt(F: Floats, vs: seq<u64>, agg: Agg, x: u64) { vs != [] && Meets(F, agg, vs, x) }

  /** Every output bucket with an entry is reported once, in time order, with the aggregate of its values. */
  ghost predicate Answered<E>(F: Floats, es: seq<E>, key: E -> u64, values: E -> seq<u64>, agg: Agg, out: seq<(u64, u64)>) {
    && (forall i, j :: 0 <= i < j < |out| ==> out[i].0 < out[j].0)
    && (forall i :: 0 <= i < |out| ==> AnsweredAt(F, Behind(es, key, values, out[i].0), agg, out[i].1))
    && (forall e :: e in es ==> exists i :: 0 <= i < |out| && out[i].0 == key(e))
  }

  /** Adding an entry to a fold is adding its values. */
  ghost predicate AddsValues<E>(F: Floats, g: Grouping<E, Fold>, e: E, values: E -> seq<u64>) {
    values(e) != [] && forall f, vs :: FoldCame(F, f, vs) ==> FoldCame(F, g.add(f, e), vs + values(e))
  }

  lemma BehindSnoc<E>(es: seq<E>, e: E, key: E -> u64, values: E -> seq<u64>, k: u64)
    ensures Behind(es + [e], key, values, k) == Behind(es, key, values, k) + if key(e) == k then values(e) else []
  {
    assert (es + [e])[..|es|] == es;
  }

  lemma {:induction false} BehindCame<E(!new)>(F: Floats, g: Grouping<E, Fold>, es: seq<E>, key: E -> u64, values: E -> seq<u64>, k: u64)
    requires g.zero == NO_FOLD && (forall e :: g.key(e) == key(e)) && forall e :: e in es ==> AddsValues(F, g, e, values)
    ensures FoldCame(F, FoldAll(g, Select(g, es, k)), Behind(es, key, values, k))
  {
    if es != [] {
      hide FoldCame, Select, FoldAll, Behind;
      var front, e := es[..|es| - 1], es[|es| - 1];
      assert es == front + [e];
      BehindCame(F, g, front, key, values, k);
      BehindSnoc(front, e, key, values, k);
      SelectSnoc(g, front, e, k);
      var s, vs := Select(g, front, k), Behind(front, key, values, k);
      if key(e) == k {
        FoldSnoc(g, s, e);
        assert AddsValues(F, g, e, values);
      } else {
        assert s + [] == s && vs + [] == vs;
      }
    }
  }

  lemma {:induction false} BehindSome<E(!new)>(es: seq<E>, key: E -> u64, values: E -> seq<u64>, e: E)
    requires e in es && forall e :: e in es ==> values(e) != []
    ensures Behind(es, key, values, key(e)) != []
  {
    hide Behind;
    var front, x := es[..|es| - 1], es[|es| - 1];
    assert es == front + [x];
    BehindSnoc(front, x, key, values, key(e));
    if e in front {
      BehindSome(front, key, values, e);
    }
  }

  lemma CameSome(F: Floats, f: Fold, vs: seq<u64>)
    requires FoldCame(F, f, vs) && vs != []
    ensures f.count > 0
  {
  }

  /** A reader by bucket, on entries whose buckets do not go back, answers for every bucket. */
  lemma RangeAnswered<E(!new)>(F: Floats, g: Grouping<E, Fold>, es: seq<E>, key: E -> u64, values: E -> seq<u64>, agg: Agg)
    requires Laws(g) && KeysInOrder(g, es)
    requires g.zero == NO_FOLD && (forall e :: g.key(e) == key(e)) && forall f: Fold :: g.some(f) <==> f.count > 0
    requires forall e :: e in es ==> AddsValues(F, g, e, values)
    ensures Answered(F, es, key, values, agg, Valued(F, Grouped(g, es), agg))
  {
    hide FoldCame, Select, FoldAll, Behind, Grouped, KeysInOrder, Answered, Laws;
    forall e | e in es
      ensures values(e) != []
    {
      assert AddsValues(F, g, e, values);
    }
    hide AddsValues;
    forall e | e in es
      ensures g.some(FoldAll(g, Select(g, es, g.key(e))))
    {
      BehindCame(F, g, es, key, values, g.key(e));
      BehindSome(es, key, values, e);
      CameSome(F, FoldAll(g, Select(g, es, g.key(e))), Behind(es, key, values, g.key(e)));
    }
    GroupedPairs(g, es);
    var out := Grouped(g, es);
    forall i | 0 <= i < |out|
      ensures Behind(es, key, values, out[i].0) != [] && FoldCame(F, out[i].1, Behind(es, key, values, out[i].0))
    {
      assert HasKey(g, es, out[i].0);
      var e :| e in es && g.key(e) == out[i].0;
      BehindCame(F, g, es, key, values, out[i].0);
      BehindSome(es, key, values, e);
    }
    ReportAnswered(F, es, key, values, agg, out);
  }

  lemma ReportAnswered<E>(F: Floats, es: seq<E>, key: E -> u64, values: E -> seq<u64>, agg: Agg, out: seq<(u64, Fold)>)
    requires forall i, j :: 0 <= i < j < |out| ==> out[i].0 < out[j].0
    requires forall i :: 0 <= i < |out| ==>
               Behind(es, key, values, out[i].0) != [] && FoldCame(F, out[i].1, Behind(es, key, values, out[i].0))
    requires forall e :: e in es ==> exists i :: 0 <= i < |out| && out[i].0 == key(e)
    ensures Answered(F, es, key, values, agg, Valued(F, out, agg))
  {
    hide FoldCame, Behind, ValueOf, Meets;
    var xs := Valued(F, out, agg);
    forall i | 0 <= i < |xs|
      ensures AnsweredAt(F, Behind(es, key, values, xs[i].0), agg, xs[i].1)
    {
      FoldMeets(F, out[i].1, Behind(es, key, values, out[i].0), agg);
    }
    forall e | e in es
      ensures exists i :: 0 <= i < |xs| && xs[i].0 == key(e)
    {
      var i :| 0 <= i < |out| && out[i].0 == key(e);
      assert xs[i].0 == out[i].0;
    }
  }
}
