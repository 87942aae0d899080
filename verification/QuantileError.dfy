/** The answer to a rank query is within the bin error of the true ranked observation. */
module QuantileError {
  import opened Words
  import opened FloatModel
  import opened Keys
  import opened Sorted
  import opened Histograms
  import opened Sketches
  import opened Observations
  import opened SketchCodec
  import opened SketchBytes
  import opened Quantiles

  /** The observation's bin survived the cap. */
  predicate Alive(F: Floats, h: Hist, x: u64) {
    F.val(x) != 0.0 && Code(F, x) in Codes(h)
  }

  /** It did, among the negative (odd = 0) or the positive (odd = 1) bins. */
  predicate Side(F: Floats, h: Hist, x: u64, odd: int) {
    Alive(F, h, x) && Code(F, x) % 2 == odd
  }

  predicate Below(F: Floats, h: Hist, x: u64, odd: int, k: int) {
    Side(F, h, x, odd) && Code(F, x) / 2 < k
  }

  predicate UpTo(F: Floats, h: Hist, x: u64, odd: int, k: int) {
    Side(F, h, x, odd) && Code(F, x) / 2 <= k
  }

  lemma SideSign(F: Floats, h: Hist, x: u64)
    requires F.val(x) != 0.0
    ensures Code(F, x) % 2 == (if F.val(x) < 0.0 then 0 else 1)
    ensures Code(F, x) / 2 == Key(Magnitude(F.val(x)))
  {
    hide Key;
  }

  /** Of two observations with the same sign, if the bin of the smaller magnitude survived then so did
      the other's, whose key is at least as large. */
  lemma AliveOutwards(F: Floats, obs: seq<u64>, h: Hist, x: u64, t: u64)
    requires h == Collapse(HistOf(F, obs)) && x in obs
    requires Alive(F, h, t)
    requires F.val(x) <= F.val(t) < 0.0 || 0.0 < F.val(t) <= F.val(x)
    ensures Alive(F, h, x) && Code(F, t) <= Code(F, x)
  {
    hide Key, Collapse, HistOf, Codes;
    KeyMonotone(Magnitude(F.val(t)), Magnitude(F.val(x)));
    CollapseShape(HistOf(F, obs));
    BinHolds(F, obs, Code(F, x));
    assert HasCode(F, x, Code(F, x));
    TopUpward(Codes(HistOf(F, obs)), Code(F, t), Code(F, x));
  }

  lemma TopUpward(s: set<int>, c: int, d: int)
    requires c in Top(s) && d in s && c <= d
    ensures d in Top(s)
  {
    SubsetSize(Above(s, d), Above(s, c));
  }

  // ----- Counting on one side -----

  function Bins1(h: Hist, odd: int): map<int, nat> {
    if odd == 0 then h.negative else h.positive
  }

  lemma SideKeys(F: Floats, h: Hist, x: u64, odd: int)
    requires odd == 0 || odd == 1
    ensures Side(F, h, x, odd) <==> Among(F, x, Bins1(h, odd).Keys, odd)
  {
    if F.val(x) != 0.0 {
      InCodes(h, Code(F, x));
    }
  }

  lemma StoredKeys(m: map<int, nat>)
    requires Fits(m)
    ensures |Stored(m)| == |Ascending(m.Keys)|
    ensures forall j :: 0 <= j < |Stored(m)| ==> Stored(m)[j].0 == Ascending(m.Keys)[j]
    ensures forall j :: 0 <= j < |Stored(m)| ==> Stored(m)[j].0 in m && Stored(m)[j].1 == m[Stored(m)[j].0]
    ensures forall j, k :: 0 <= j < k < |Stored(m)| ==> Stored(m)[j].0 < Stored(m)[k].0
    ensures KeySet(Stored(m)) == m.Keys
  {
    hide EntriesOf, Ascending;
    var keys := Ascending(m.Keys);
    forall j | 0 <= j < |keys|
      ensures keys[j] in m && Stored(m)[j] == (keys[j], m[keys[j]])
    {
      EntryAt(keys, m, 0, j);
    }
    forall k
      ensures k in KeySet(Stored(m)) <==> k in m
    {
      if k in m {
        assert k in keys;
        var j :| 0 <= j < |keys| && keys[j] == k;
        assert Stored(m)[j] in Stored(m);
      }
    }
  }

  lemma KeysBefore(es: seq<Entry>, i: nat, k: int)
    requires i < |es|
    requires forall j, k :: 0 <= j < k < |es| ==> es[j].0 < es[k].0
    ensures k in KeySet(es[..i]) <==> k in KeySet(es) && k < es[i].0
    ensures k in KeySet(es[..i + 1]) <==> k in KeySet(es) && k <= es[i].0
  {
    forall j | 0 <= j < |es|
      ensures es[j].0 in KeySet(es[..i]) <==> j < i
      ensures es[j].0 in KeySet(es[..i + 1]) <==> j <= i
    {
      if j < i { assert es[..i][j] == es[j]; }
      if j <= i { assert es[..i + 1][j] == es[j]; }
    }
    assert forall e :: e in es[..i] ==> e in es;
    assert forall e :: e in es[..i + 1] ==> e in es;
  }

  /** Running counts over the stored bins are counts of observations. */
  lemma RunningCounts(F: Floats, obs: seq<u64>, h: Hist, odd: int, i: nat)
    requires h == Collapse(HistOf(F, obs)) && (odd == 0 || odd == 1)
    requires Fits(Bins1(h, odd)) && i < |Stored(Bins1(h, odd))|
    ensures var es := Stored(Bins1(h, odd));
            && Held(es[..i]) == Count(obs, (x: u64) => Below(F, h, x, odd, es[i].0))
            && Held(es[..i + 1]) == Count(obs, (x: u64) => UpTo(F, h, x, odd, es[i].0))
  {
    hide Collapse, HistOf, Codes, Stored, Held, Code, Count, Tallied, Among, Side;
    var es := Stored(Bins1(h, odd));
    var k := es[i].0;
    StoredKeys(Bins1(h, odd));
    StoredCounts(F, obs, h, odd);
    PrefixHolds(F, obs, es, odd, i);
    PrefixHolds(F, obs, es, odd, i + 1);
    forall x: u64
      ensures Among(F, x, KeySet(es[..i]), odd) <==> Below(F, h, x, odd, k)
      ensures Among(F, x, KeySet(es[..i + 1]), odd) <==> UpTo(F, h, x, odd, k)
    {
      PrefixKeys(F, h, x, odd, i);
    }
    CountSame(obs, (x: u64) => Among(F, x, KeySet(es[..i]), odd), (x: u64) => Below(F, h, x, odd, k));
    CountSame(obs, (x: u64) => Among(F, x, KeySet(es[..i + 1]), odd), (x: u64) => UpTo(F, h, x, odd, k));
  }

  lemma PrefixKeys(F: Floats, h: Hist, x: u64, odd: int, i: nat)
    requires odd == 0 || odd == 1
    requires Fits(Bins1(h, odd)) && i < |Stored(Bins1(h, odd))|
    ensures var es := Stored(Bins1(h, odd));
            && (Among(F, x, KeySet(es[..i]), odd) <==> Below(F, h, x, odd, es[i].0))
            && (Among(F, x, KeySet(es[..i + 1]), odd) <==> UpTo(F, h, x, odd, es[i].0))
  {
    hide Codes, Stored, Code;
    StoredKeys(Bins1(h, odd));
    SideKeys(F, h, x, odd);
    if F.val(x) != 0.0 {
      KeysBefore(Stored(Bins1(h, odd)), i, Code(F, x) / 2);
    }
  }

  lemma CountSame(s: seq<u64>, p: u64 -> bool, q: u64 -> bool)
    requires forall x :: x in s ==> (p(x) <==> q(x))
    ensures Count(s, p) == Count(s, q)
  {
    CountImplies(s, p, q);
    CountImplies(s, q, p);
  }

  lemma StoredCounts(F: Floats, obs: seq<u64>, h: Hist, odd: int)
    requires h == Collapse(HistOf(F, obs)) && (odd == 0 || odd == 1)
    requires Fits(Bins1(h, odd))
    ensures var es := Stored(Bins1(h, odd));
            forall e :: e in es ==> Tallied(F, obs, e, odd)
  {
    hide Collapse, HistOf, Codes, Stored, Tallied;
    var m := Bins1(h, odd);
    StoredKeys(m);
    forall e | e in Stored(m)
      ensures Tallied(F, obs, e, odd)
    {
      var j :| 0 <= j < |Stored(m)| && Stored(m)[j] == e;
      BinTallied(F, obs, h, e, odd);
    }
  }

  lemma BinTallied(F: Floats, obs: seq<u64>, h: Hist, e: Entry, odd: int)
    requires h == Collapse(HistOf(F, obs)) && (odd == 0 || odd == 1)
    requires e.0 in Bins1(h, odd) && e.1 == Bins1(h, odd)[e.0]
    ensures Tallied(F, obs, e, odd)
  {
    hide Collapse, HistOf, Codes, Count;
    var c := 2 * e.0 + odd;
    assert c / 2 == e.0 && c % 2 == odd;
    BinHolds(F, obs, c);
    CollapsedBin(HistOf(F, obs), c);
    CollapseShape(HistOf(F, obs));
    InCodes(h, c);
  }

  /** All the stored bins of one side, and the zero count. */
  lemma SideTotals(F: Floats, obs: seq<u64>, h: Hist)
    requires h == Collapse(HistOf(F, obs)) && Fits(h.negative) && Fits(h.positive)
    ensures Held(Stored(h.negative)) == Count(obs, (x: u64) => Side(F, h, x, 0))
    ensures Held(Stored(h.positive)) == Count(obs, (x: u64) => Side(F, h, x, 1))
    ensures h.zero == Count(obs, (x: u64) => !Alive(F, h, x))
    ensures |obs| == Held(Stored(h.negative)) + h.zero + Held(Stored(h.positive))
  {
    hide Collapse, HistOf, Codes, Stored, Held, Code, Count, Total;
    SideTotal(F, obs, h, 0);
    SideTotal(F, obs, h, 1);
    HeldTotal(h.negative);
    HeldTotal(h.positive);
    CollapseShape(HistOf(F, obs));
    HistOfMass(F, obs);
    var all, alive, dead := (x: u64) => true, (x: u64) => Alive(F, h, x), (x: u64) => !Alive(F, h, x);
    CountAll(obs, all);
    CountSplit(obs, all, alive, dead);
    CountSplit(obs, alive, (x: u64) => Side(F, h, x, 0), (x: u64) => Side(F, h, x, 1));
  }

  lemma SideTotal(F: Floats, obs: seq<u64>, h: Hist, odd: int)
    requires h == Collapse(HistOf(F, obs)) && (odd == 0 || odd == 1)
    requires Fits(Bins1(h, odd))
    ensures Held(Stored(Bins1(h, odd))) == Count(obs, (x: u64) => Side(F, h, x, odd))
  {
    hide Collapse, HistOf, Codes, Stored, Held, Code, Count, Tallied, Among, Side, KeySet;
    var es := Stored(Bins1(h, odd));
    StoredKeys(Bins1(h, odd));
    StoredCounts(F, obs, h, odd);
    PrefixHolds(F, obs, es, odd, |es|);
    assert es[..|es|] == es;
    AllAmong(F, obs, h, odd, es[..|es|]);
  }

  lemma AllAmong(F: Floats, obs: seq<u64>, h: Hist, odd: int, es: seq<Entry>)
    requires odd == 0 || odd == 1
    requires KeySet(es) == Bins1(h, odd).Keys
    ensures Count(obs, (x: u64) => Among(F, x, KeySet(es), odd)) == Count(obs, (x: u64) => Side(F, h, x, odd))
  {
    hide Codes, Count, Among, Side, KeySet;
    forall x: u64
      ensures Among(F, x, KeySet(es), odd) <==> Side(F, h, x, odd)
    {
      SideKeys(F, h, x, odd);
    }
    CountSame(obs, (x: u64) => Among(F, x, KeySet(es), odd), (x: u64) => Side(F, h, x, odd));
  }

  lemma HeldTotal(m: map<int, nat>)
    requires Fits(m)
    ensures Held(Stored(m)) == Total(m)
  {
    hide Stored, Held, MapOf, Total;
    StoredKeys(m);
    StoredMap(m);
    HeldOfMap(Stored(m));
  }

  lemma {:induction false} HeldOfMap(es: seq<Entry>)
    requires forall j, k :: 0 <= j < k < |es| ==> es[j].0 < es[k].0
    ensures Held(es) == Total(MapOf(es))
    ensures MapOf(es).Keys == KeySet(es)
  {
    hide Total;
    if es == [] {
      TotalNone();
    } else {
      var n := |es| - 1;
      HeldOfMap(es[..n]);
      KeySetSnoc(es, |es|);
      assert es[..|es|] == es;
      TotalPut(MapOf(es[..n]), es[n].0, es[n].1);
    }
  }

  // ----- The three answers -----

  lemma NegativeAnswer(F: Floats, obs: seq<u64>, h: Hist, rank: nat, t: u64, k: int)
    requires h == Collapse(HistOf(F, obs)) && IsRank(F, obs, rank, t)
    requires var total := Count(obs, (x: u64) => Side(F, h, x, 0));
             && Count(obs, (x: u64) => Below(F, h, x, 0, k)) < total - rank + 1
             && total - rank + 1 <= Count(obs, (x: u64) => UpTo(F, h, x, 0, k))
    ensures Side(F, h, t, 0) && Code(F, t) / 2 == k
  {
    hide Collapse, HistOf, Codes, Count, Code;
    var side := (x: u64) => Side(F, h, x, 0);
    var from, beyond := (x: u64) => Side(F, h, x, 0) && Code(F, x) / 2 >= k,
                        (x: u64) => Side(F, h, x, 0) && Code(F, x) / 2 > k;
    CountSplit(obs, side, (x: u64) => Below(F, h, x, 0, k), from);
    CountSplit(obs, side, (x: u64) => UpTo(F, h, x, 0, k), beyond);
    if !Side(F, h, t, 0) || Code(F, t) / 2 < k {
      forall x | x in obs && from(x)
        ensures F.val(x) < F.val(t)
      {
        SideSign(F, h, x);
        if F.val(t) <= F.val(x) {
          SideSign(F, h, t);
          AliveOutwards(F, obs, h, t, x);
        }
      }
      CountImplies(obs, from, (x: u64) => F.val(x) < F.val(t));
    } else if Code(F, t) / 2 > k {
      forall x | x in obs && F.val(x) <= F.val(t)
        ensures beyond(x)
      {
        SideSign(F, h, t);
        AliveOutwards(F, obs, h, x, t);
        SideSign(F, h, x);
      }
      CountImplies(obs, (x: u64) => F.val(x) <= F.val(t), beyond);
    }
  }

  lemma ZeroAnswer(F: Floats, obs: seq<u64>, h: Hist, rank: nat, t: u64)
    requires h == Collapse(HistOf(F, obs)) && IsRank(F, obs, rank, t)
    requires Count(obs, (x: u64) => Side(F, h, x, 0)) < rank
    requires rank <= Count(obs, (x: u64) => Side(F, h, x, 0)) + Count(obs, (x: u64) => !Alive(F, h, x))
    ensures !Alive(F, h, t)
  {
    hide Collapse, HistOf, Codes, Count, Code;
    var low := (x: u64) => !Side(F, h, x, 1);
    CountSplit(obs, low, (x: u64) => Side(F, h, x, 0), (x: u64) => !Alive(F, h, x)) by {
      forall x: u64 ensures Alive(F, h, x) ==> Side(F, h, x, 0) || Side(F, h, x, 1) {}
    }
    if Side(F, h, t, 0) {
      forall x | x in obs && F.val(x) <= F.val(t)
        ensures Side(F, h, x, 0)
      {
        SideSign(F, h, t);
        AliveOutwards(F, obs, h, x, t);
        SideSign(F, h, x);
      }
      CountImplies(obs, (x: u64) => F.val(x) <= F.val(t), (x: u64) => Side(F, h, x, 0));
    } else if Side(F, h, t, 1) {
      LowBelow(F, obs, h, t);
      CountImplies(obs, low, (x: u64) => F.val(x) < F.val(t));
    }
  }

  /** Whatever did not survive on the positive side lies below everything that did. */
  lemma LowBelow(F: Floats, obs: seq<u64>, h: Hist, t: u64)
    requires h == Collapse(HistOf(F, obs)) && Side(F, h, t, 1)
    ensures forall x :: x in obs && !Side(F, h, x, 1) ==> F.val(x) < F.val(t)
  {
    hide Collapse, HistOf, Codes, Code;
    SideSign(F, h, t);
    forall x | x in obs && F.val(x) >= F.val(t)
      ensures Side(F, h, x, 1)
    {
      AliveOutwards(F, obs, h, x, t);
      SideSign(F, h, x);
    }
  }

  lemma PositiveAnswer(F: Floats, obs: seq<u64>, h: Hist, rank: nat, t: u64, k: int)
    requires h == Collapse(HistOf(F, obs)) && IsRank(F, obs, rank, t)
    requires var low := Count(obs, (x: u64) => Side(F, h, x, 0)) + Count(obs, (x: u64) => !Alive(F, h, x));
             && low + Count(obs, (x: u64) => Below(F, h, x, 1, k)) < rank
             && rank <= low + Count(obs, (x: u64) => UpTo(F, h, x, 1, k))
    ensures Side(F, h, t, 1) && Code(F, t) / 2 == k
  {
    hide Collapse, HistOf, Codes, Count, Code;
    var low := (x: u64) => !Side(F, h, x, 1);
    CountSplit(obs, low, (x: u64) => Side(F, h, x, 0), (x: u64) => !Alive(F, h, x)) by {
      forall x: u64 ensures Alive(F, h, x) ==> Side(F, h, x, 0) || Side(F, h, x, 1) {}
    }
    var below, upto := (x: u64) => Below(F, h, x, 1, k), (x: u64) => UpTo(F, h, x, 1, k);
    var before, through := (x: u64) => low(x) || below(x), (x: u64) => low(x) || upto(x);
    CountSplit(obs, before, low, below);
    CountSplit(obs, through, low, upto);
    if !Side(F, h, t, 1) || Code(F, t) / 2 < k {
      forall x | x in obs && F.val(x) <= F.val(t)
        ensures before(x)
      {
        if Side(F, h, x, 1) {
          SideSign(F, h, x);
          AliveOutwards(F, obs, h, t, x);
          SideSign(F, h, t);
        }
      }
      CountImplies(obs, (x: u64) => F.val(x) <= F.val(t), before);
    } else if Code(F, t) / 2 > k {
      LowBelow(F, obs, h, t);
      forall x | x in obs && through(x)
        ensures F.val(x) < F.val(t)
      {
        if upto(x) && F.val(x) >= F.val(t) {
          SideSign(F, h, t);
          AliveOutwards(F, obs, h, x, t);
          SideSign(F, h, x);
        }
      }
      CountImplies(obs, through, (x: u64) => F.val(x) < F.val(t));
    }
  }

  /** The answer the bins give for rank `rank`, when the rank-th smallest observation is `t`. */
  ghost predicate Accurate(F: Floats, h: Hist, t: u64, answer: real) {
    if Alive(F, h, t) then Magnitude(answer - F.val(t)) <= BIN_ALPHA * Magnitude(F.val(t))
    else answer == 0.0
  }

  /** For every rank: the answer is within `BIN_ALPHA` of the true ranked observation, relative to
      it, if that observation's bin survived the cap, and 0 otherwise. */
  lemma AnswerAccurate(F: Floats, obs: seq<u64>, h: Hist, rank: nat, t: u64)
    requires h == Collapse(HistOf(F, obs)) && Fits(h.negative) && Fits(h.positive)
    requires 0 < rank <= |obs| && IsRank(F, obs, rank, t)
    ensures Accurate(F, h, t, Answer(h.zero, Stored(h.negative), Stored(h.positive), rank))
  {
    hide Collapse, HistOf, Codes, Stored, Held, Nth, Count, IsRank;
    SideTotals(F, obs, h);
    var n, p := Stored(h.negative), Stored(h.positive);
    if rank <= Held(n) {
      var i := NthReaches(n, Held(n) - rank + 1);
      RunningCounts(F, obs, h, 0, i);
      NegativeAnswer(F, obs, h, rank, t, n[i].0);
      BinAnswer(F, h, t);
    } else if rank - Held(n) <= h.zero {
      ZeroAnswer(F, obs, h, rank, t);
    } else {
      var i := NthReaches(p, rank - Held(n) - h.zero);
      RunningCounts(F, obs, h, 1, i);
      PositiveAnswer(F, obs, h, rank, t, p[i].0);
      BinAnswer(F, h, t);
    }
  }

  lemma BinAnswer(F: Floats, h: Hist, t: u64)
    requires Alive(F, h, t)
    ensures var answer := BinValue(Code(F, t) / 2);
            Accurate(F, h, t, if Code(F, t) % 2 == 0 then -answer else answer)
  {
    hide Key, BinValue, Codes;
    SideSign(F, h, t);
    BinValueError(Magnitude(F.val(t)));
  }
}
