/** When a stored sketch answers a rank within the promised relative error: exactly when, in terms of the
    observations, and an input for which it does not. */
module SketchAccuracy {
  import opened Words
  import opened FloatModel
  import opened Reader
  import opened Sorted
  import opened Keys
  import opened Histograms
  import opened Sketches
  import opened Observations
  import opened SketchCodec
  import opened SketchBytes
  import opened Quantiles
  import opened QuantileError
  import opened SketchQueries
  import opened Float64

  /** The distinct bins that observations above the bin of `t` fall into, in eviction order. */
  ghost function BinsAbove(F: Floats, obs: seq<u64>, t: u64): set<int>
    requires F.val(t) != 0.0
  {
    set x | x in obs && F.val(x) != 0.0 && Code(F, x) > Code(F, t) :: Code(F, x)
  }

  /** `x` is within a fraction of `t`. */
  predicate Within(x: real, t: real, bound: real) { Magnitude(x - t) <= Share(bound, Magnitude(t)) }

  function Share(bound: real, x: real): real { bound * x }

  /** All observations have one sign, and the one nearest to zero is within the bound of `t`. */
  predicate NearEdge(F: Floats, v: Summary, t: u64, bound: real) {
    || (F.val(v.min) > 0.0 && Within(F.val(v.min), F.val(t), bound))
    || (F.val(v.max) < 0.0 && Within(F.val(v.max), F.val(t), bound))
  }

  lemma AboveAre(F: Floats, obs: seq<u64>, t: u64)
    requires F.val(t) != 0.0
    ensures Above(Codes(HistOf(F, obs)), Code(F, t)) == BinsAbove(F, obs, t)
  {
    hide HistOf, Codes, Code;
    forall c
      ensures c in Codes(HistOf(F, obs)) <==> exists x :: x in obs && F.val(x) != 0.0 && Code(F, x) == c
    {
      BinHolds(F, obs, c);
    }
  }

  /** The bin of an observation survives the cap exactly when observations fall into fewer than `MAX_BINS`
      bins above it. */
  lemma SurvivesExactly(F: Floats, obs: seq<u64>, t: u64)
    requires t in obs && F.val(t) != 0.0
    ensures Alive(F, Collapse(HistOf(F, obs)), t) <==> |BinsAbove(F, obs, t)| < 1024
  {
    hide HistOf, Codes, Code, Collapse;
    CollapseShape(HistOf(F, obs));
    AboveAre(F, obs, t);
    BinHolds(F, obs, Code(F, t));
    assert HasCode(F, t, Code(F, t));
  }

  /** What stored bytes answer for a rank. */
  ghost function BytesAnswer(F: Floats, data: bytes, rank: nat): Option<real> {
    match StoredSketch(data)
    case None => None
    case Some(h) => if 0 < rank <= h.count < W then QuantileAt(F, h, rank) else None
  }

  /** What the stored sketch of some observations answers for a rank. */
  ghost function StoredAnswer(F: Floats, v: Summary, rank: nat): Option<real> {
    var w := Approximate(F, v);
    if !Storable(w) then None else BytesAnswer(F, ApproxBytes(w), rank)
  }

  lemma AnswerMeets(F: Floats, v: Summary, obs: seq<u64>, rank: nat, t: u64)
    requires Represents(F, v, obs) && F.Ranged() && 0 < rank <= |obs| < W && IsRank(F, obs, rank, t)
    ensures StoredAnswer(F, v, rank).Some?
    ensures var q, h := StoredAnswer(F, v, rank).value, Collapse(HistOf(F, obs));
            && (Alive(F, h, t) ==> Within(q, F.val(t), 0.009999))
            && (!Alive(F, h, t) ==> q == Clamp(0.0, F.val(v.min), F.val(v.max)))
    ensures t in obs && F.val(v.min) <= F.val(t) <= F.val(v.max)
  {
    hide Represents, Approximate, HistOf, StoredSketch, ApproxBytes, Alive, QuantileAt, Collapse, Storable, Clamp, Count, Magnitude,
         Queryable;
    StoredQuantileAccurate(F, v, obs, rank, t);
    ApproximateRepresents(F, v, obs);
    ApproximateKeeps(F, v);
    RankWithin(F, v, obs, t);
    assert Queryable(StoredSketch(ApproxBytes(Approximate(F, v))).value, rank);
    CoversRank(StoredSketch(ApproxBytes(Approximate(F, v))).value, rank);
  }

  lemma CoversRank(h: Sketch, rank: nat)
    requires Queryable(h, rank)
    ensures 0 < rank <= h.count < W
  {
  }

  lemma ZeroMoved(lo: real, hi: real, t: real, bound: real)
    requires lo <= t <= hi && 0.0 <= bound < 1.0
    ensures Within(Clamp(0.0, lo, hi), t, bound) <==>
            t == 0.0 || (lo > 0.0 && Within(lo, t, bound)) || (hi < 0.0 && Within(hi, t, bound))
  {
    if lo > 0.0 {
      assert Clamp(0.0, lo, hi) == lo;
    } else if hi < 0.0 {
      assert Clamp(0.0, lo, hi) == hi;
    } else {
      assert Clamp(0.0, lo, hi) == 0.0;
      hide Clamp;
      ZeroWithin(Clamp(0.0, lo, hi), t, bound);
    }
  }

  lemma ZeroWithin(x: real, t: real, bound: real)
    requires x == 0.0 && bound < 1.0
    ensures Within(x, t, bound) <==> t == 0.0
  {
    hide Share;
    ShareIsLess(bound, Magnitude(t));
  }

  lemma ShareIsLess(bound: real, x: real)
    requires x >= 0.0 && bound < 1.0
    ensures x <= Share(bound, x) <==> x == 0.0
  {
    if x > 0.0 {
      assert (1.0 - bound) * x > 0.0;
      assert (1.0 - bound) * x == x - bound * x;
    }
  }

  lemma Loosened(x: real, t: real, a: real, b: real)
    requires Within(x, t, a) && a <= b
    ensures Within(x, t, b)
  {
    assert a * Magnitude(t) <= b * Magnitude(t);
  }

  /** The answer for a rank is within the bound of the true ranked observation `t` if and only if `t` is
      zero, observations fall into fewer than `MAX_BINS` bins above that of `t`, or all have one sign and
      the one nearest to zero happens to be within the bound of `t`. */
  lemma WithinExactly(F: Floats, v: Summary, obs: seq<u64>, rank: nat, t: u64, bound: real)
    requires Represents(F, v, obs) && F.Ranged() && 0 < rank <= |obs| < W && IsRank(F, obs, rank, t)
    requires 0.009999 <= bound < 1.0
    ensures StoredAnswer(F, v, rank).Some?
    ensures Within(StoredAnswer(F, v, rank).value, F.val(t), bound) <==>
            F.val(t) == 0.0 || |BinsAbove(F, obs, t)| < 1024 || NearEdge(F, v, t, bound)
  {
    hide Represents, HistOf, Alive, Collapse, Clamp, Count, Magnitude, StoredAnswer, BinsAbove, IsRank, Within;
    AnswerMeets(F, v, obs, rank, t);
    var q := StoredAnswer(F, v, rank).value;
    ZeroMoved(F.val(v.min), F.val(v.max), F.val(t), bound);
    if F.val(t) == 0.0 {
      ZeroEvicted(F, Collapse(HistOf(F, obs)), t);
    } else {
      SurvivesExactly(F, obs, t);
      if Alive(F, Collapse(HistOf(F, obs)), t) {
        Loosened(q, F.val(t), BIN_ALPHA, bound);
      }
    }
  }

  lemma ZeroEvicted(F: Floats, h: Hist, t: u64)
    requires F.val(t) == 0.0
    ensures !Alive(F, h, t)
  {
  }

  /** The promised 1 % hold, for observations on both sides of zero, if and only if observations fall into
      fewer than `MAX_BINS` bins above that of the true ranked one; otherwise the answer is 0. */
  lemma OnePercentExactly(F: Floats, v: Summary, obs: seq<u64>, rank: nat, t: u64)
    requires Represents(F, v, obs) && F.Ranged() && 0 < rank <= |obs| < W && IsRank(F, obs, rank, t)
    requires F.val(v.min) <= 0.0 <= F.val(v.max) && F.val(t) != 0.0
    ensures StoredAnswer(F, v, rank).Some?
    ensures Within(StoredAnswer(F, v, rank).value, F.val(t), 0.01) <==> |BinsAbove(F, obs, t)| < 1024
    ensures |BinsAbove(F, obs, t)| >= 1024 ==> StoredAnswer(F, v, rank).value == 0.0
  {
    hide Represents, HistOf, Alive, Collapse, Count, Magnitude, StoredAnswer, BinsAbove, IsRank, Within;
    WithinExactly(F, v, obs, rank, t, ALPHA);
    AnswerMeets(F, v, obs, rank, t);
    SurvivesExactly(F, obs, t);
  }

  /** Observations in at most `MAX_BINS` bins altogether are answered within 1 % at every rank. */
  lemma FewBins(F: Floats, v: Summary, obs: seq<u64>, rank: nat, t: u64)
    requires Represents(F, v, obs) && F.Ranged() && 0 < rank <= |obs| < W && IsRank(F, obs, rank, t)
    requires |Codes(HistOf(F, obs))| <= 1024
    ensures StoredAnswer(F, v, rank).Some? && Within(StoredAnswer(F, v, rank).value, F.val(t), 0.01)
  {
    hide Represents, HistOf, Codes, Count, Magnitude, StoredAnswer, BinsAbove, Within, Code;
    WithinExactly(F, v, obs, rank, t, ALPHA);
    if F.val(t) != 0.0 {
      AboveAre(F, obs, t);
      BinHolds(F, obs, Code(F, t));
      assert HasCode(F, t, Code(F, t));
      OthersFewer(Codes(HistOf(F, obs)), Code(F, t));
    }
  }

  lemma OthersFewer(s: set<int>, c: int)
    requires c in s
    ensures |Above(s, c)| < |s|
  {
    SubsetSize(Above(s, c), s - {c});
  }

  /** What the stored sketch of some observations answers for a quantile. */
  ghost function StoredQuantile(F: Floats, v: Summary, q: real): Option<real> {
    var w := Approximate(F, v);
    if !Storable(w) then None else
    match StoredSketch(ApproxBytes(w))
    case None => None
    case Some(h) => if h.count < W then Answered(F, h, q) else None
  }

  lemma ServedFigures(F: Floats, v: Summary, obs: seq<u64>)
    requires Represents(F, v, obs) && F.Ranged() && 0 < |obs| < W
    ensures var w := Approximate(F, v);
            && Storable(w) && StoredSketch(ApproxBytes(w)).Some?
            && var h := StoredSketch(ApproxBytes(w)).value;
            h.count == |obs| && h.min == v.min && h.max == v.max
  {
    hide Represents, Approximate, HistOf, StoredSketch, ApproxBytes, Collapse, Storable, Mass, Codes, Positive, QuantileAt;
    Settled(F, v, obs);
    ApproximateKeeps(F, v);
    Represented(F, v, obs);
    ServedAnswer(F, Approximate(F, v), 1);
  }

  /** A quantile of the observations: the ends are exact, and in between the answer is within the bound of
      the nearest-rank observation under the same condition. */
  lemma QuantileWithin(F: Floats, v: Summary, obs: seq<u64>, q: real, bound: real)
    requires Represents(F, v, obs) && F.Ranged() && 0 < |obs| < W && 0.0 <= q <= 1.0
    requires 0.009999 <= bound < 1.0
    ensures StoredQuantile(F, v, q).Some?
    ensures q == 0.0 ==> StoredQuantile(F, v, q).value == F.val(v.min)
    ensures q == 1.0 ==> StoredQuantile(F, v, q).value == F.val(v.max)
    ensures 0.0 < q < 1.0 ==>
              var t := Sort(F, obs)[RankOf(q, |obs|) - 1];
              && IsRank(F, obs, RankOf(q, |obs|), t)
              && (Within(StoredQuantile(F, v, q).value, F.val(t), bound) <==>
                  F.val(t) == 0.0 || |BinsAbove(F, obs, t)| < 1024 || NearEdge(F, v, t, bound))
  {
    hide Represents, Approximate, HistOf, StoredSketch, ApproxBytes, Storable, QuantileAt, IsRank, Within, BinsAbove, NearEdge, Sort;
    ServedFigures(F, v, obs);
    if 0.0 < q < 1.0 {
      var rank := RankOf(q, |obs|);
      SortedRank(F, obs, rank);
      WithinExactly(F, v, obs, rank, Sort(F, obs)[rank - 1], bound);
      assert StoredQuantile(F, v, q) == StoredAnswer(F, v, rank);
    }
  }

  // ----- An input whose answer is lost -----

  /** The plan that bins observations one by one. */
  function Each(obs: seq<u64>): (p: Plan)
    ensures Observed(p) == obs
  {
    if obs == [] then Nothing else Binned(Each(obs[..|obs| - 1]), obs[|obs| - 1])
  }

  /** The patterns of 0 and of the powers of two from 2^-1 up to 2^1023. */
  function Powers(): (obs: seq<u64>)
    ensures |obs| == 1026
  {
    [0] + seq(MAX_BINS + 1, i requires 0 <= i < MAX_BINS + 1 => Pattern(i))
  }

  function Pattern(i: nat): u64
    requires i <= 1024
  {
    PowerPattern(1022 + i);
    (1022 + i) * STEP
  }

  lemma PowersAre(F: Floats, i: nat)
    requires OnFloat64(F) && i < |Powers()|
    ensures F.val(Powers()[i]) == if i == 0 then 0.0 else Power(i - 2)
    ensures Powers()[i] in Powers()
  {
    hide Power;
    if i > 0 {
      PowerPattern(1022 + (i - 1));
    } else {
      assert Value(0) == 0.0;
    }
  }

  lemma PowersOrdered(F: Floats)
    requires OnFloat64(F)
    ensures Ordered(F, Powers())
  {
    hide Power, Powers;
    forall i, j | 0 <= i < j < |Powers()|
      ensures F.val(Powers()[i]) <= F.val(Powers()[j])
    {
      PowersAre(F, i);
      PowersAre(F, j);
      if i > 0 {
        PowerGrows(i - 2, j - 2);
      }
    }
  }

  /** Doubling a magnitude moves it up at least one bin. */
  lemma DoubleKey(x: real)
    requires x > 0.0
    ensures Key(x) < Key(2.0 * x)
  {
    hide Key;
    var k := Key(x);
    KeyBounds(x, k);
    GammaStep(k - 1);
    if Key(2.0 * x) <= k {
      KeyBounds(2.0 * x, Key(2.0 * x));
      GammaIncreases(Key(2.0 * x), k);
    }
  }

  lemma PowerKeys(i: int, j: int)
    requires i < j
    ensures Key(Power(i)) < Key(Power(j))
    decreases j - i
  {
    hide Key, Power;
    PowerStep(j - 1);
    DoubleKey(Power(j - 1));
    if i < j - 1 {
      PowerKeys(i, j - 1);
    }
  }

  function CodeOfPower(i: int): int { 2 * Key(Power(i)) + 1 }

  lemma CodeAt(F: Floats, i: nat)
    requires OnFloat64(F) && 0 < i < |Powers()|
    ensures F.val(Powers()[i]) > 0.0 && Code(F, Powers()[i]) == CodeOfPower(i - 2)
  {
    hide Key, Power, Powers;
    PowersAre(F, i);
  }

  function UpperCodes(): (q: seq<int>)
    ensures |q| == 1024
  {
    seq(MAX_BINS, i requires 0 <= i < MAX_BINS => CodeOfPower(i))
  }

  lemma UpperCodesIncrease()
    ensures Increasing(UpperCodes())
  {
    hide Key, Power;
    forall i, j | 0 <= i < j < |UpperCodes()|
      ensures UpperCodes()[i] < UpperCodes()[j]
    {
      PowerKeys(i, j);
    }
  }

  lemma UpperCodeAbove(F: Floats, i: nat)
    requires OnFloat64(F) && i < 1024 && F.val(Powers()[1]) > 0.0
    ensures UpperCodes()[i] in BinsAbove(F, Powers(), Powers()[1])
  {
    hide Key, Power, Powers, Code;
    CodeAt(F, 1);
    CodeAt(F, i + 2);
    PowersAre(F, i + 2);
    PowerKeys(-1, i);
  }

  /** All powers but the smallest are in distinct bins above its bin. */
  lemma PowersAbove(F: Floats)
    requires OnFloat64(F)
    ensures F.val(Powers()[1]) > 0.0 && |BinsAbove(F, Powers(), Powers()[1])| >= 1024
  {
    hide Powers, Code, BinsAbove, CodeOfPower, UpperCodes, Increasing;
    CodeAt(F, 1);
    var q, above := UpperCodes(), BinsAbove(F, Powers(), Powers()[1]);
    var s := set c | c in q;
    UpperCodesIncrease();
    AscendingUnique(s, q);
    forall c | c in s
      ensures c in above
    {
      var i: nat :| i < |q| && q[i] == c;
      UpperCodeAbove(F, i);
    }
    SubsetSize(s, above);
  }

  /** The promise fails: of 0 and 1025 powers of two, binned one by one, stored and queried, the second
      smallest is 0.5, and the answer is 0. This is so however float64 addition rounds. */
  lemma SmallestLost(F: Floats)
    requires OnFloat64(F)
    ensures F.Ranged()
    ensures var obs, v := Powers(), Build(F, Each(Powers()));
            && Represents(F, v, obs)
            && IsRank(F, obs, 2, obs[1]) && F.val(obs[1]) == 0.5
            && StoredAnswer(F, v, 2) == Some(0.0)
            && !Within(0.0, 0.5, 0.01)
  {
    hide Powers, Represents, BinsAbove, StoredAnswer, Within, IsRank, Power, Each, Build;
    Float64Ranged(F);
    hide FloatModel.Two;
    var obs, v := Powers(), Build(F, Each(Powers()));
    PowersRank(F);
    PowersAbove(F);
    PowersSpan(F, v);
    OnePercentExactly(F, v, obs, 2, obs[1]);
    assert !Within(0.0, 0.5, ALPHA) by { HalfMissed(); }
  }

  lemma HalfMissed()
    ensures !Within(0.0, 0.5, 0.01)
  {
  }

  lemma PowersRank(F: Floats)
    requires OnFloat64(F)
    ensures var obs := Powers(); IsRank(F, obs, 2, obs[1]) && F.val(obs[1]) == 0.5
  {
    hide Powers, Count;
    PowersAre(F, 1);
    assert Power(-1) == 0.5 by { assert Half(0) == 1.0; }
    PowersOrdered(F);
    RankBelow(F, Powers(), 2);
    RankUpTo(F, Powers(), 2);
  }

  lemma PowersSpan(F: Floats, v: Summary)
    requires OnFloat64(F) && Represents(F, v, Powers())
    ensures F.val(v.min) <= 0.0 <= F.val(v.max)
  {
    hide Represents, Powers, Power;
    PowersAre(F, 0);
    RankWithin(F, v, Powers(), Powers()[0]);
  }
}
