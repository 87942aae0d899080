/** The mutable sketch, updated in place. */
module SketchValues {
  import opened Words
  import opened Varint
  import opened Reader
  import opened FloatModel
  import opened Keys
  import opened Sorted
  import opened Histograms
  import S = Sketches
  import C = SketchCodec
  import B = SketchBytes

  class SketchValue {
    var count: nat
    var sum: u64
    var min: u64
    var max: u64
    var exact: Option<seq<u64>>
    var zero: nat
    var negative: map<int, nat>
    var positive: map<int, nat>

    constructor ()
      ensures View() == S.NEW
    {
      count, sum, min, max := 0, 0, 0, 0;
      exact := None;
      zero, negative, positive := 0, map[], map[];
    }

    constructor Of(v: S.Summary)
      ensures View() == v
    {
      count, sum, min, max := v.count, v.sum, v.min, v.max;
      exact := v.exact;
      zero, negative, positive := v.hist.zero, v.hist.negative, v.hist.positive;
    }

    function View(): S.Summary
      reads this
    {
      S.Summary(count, sum, min, max, exact, Hist(zero, negative, positive))
    }

    method AddStats(F: Floats, value: u64)
      modifies this
      ensures View() == S.AddStats(F, old(View()), value)
    {
      if count == 0 {
        min, max := value, value;
      }
      count := count + 1;
      sum := F.add(sum, value);
      if F.Less(value, min) {
        min := value;
      }
      if F.Less(max, value) {
        max := value;
      }
    }

    method AddExact(F: Floats, value: u64)
      modifies this
      ensures View() == S.AddExact(F, old(View()), value)
    {
      if count > 0 && exact.None? {
        AddApprox(F, value);
        return;
      }
      AddStats(F, value);
      exact := Some((if exact.None? then [] else exact.value) + [value]);
    }

    method AddApprox(F: Floats, value: u64)
      modifies this
      ensures View() == S.AddApprox(F, old(View()), value)
    {
      AddStats(F, value);
      AddBin(F, value, 1);
      Collapse();
    }

    method AddBin(F: Floats, value: u64, n: nat)
      modifies this
      ensures View() == old(View()).(hist := Plus(old(View()).hist, S.Bins(F, value, n)))
    {
      ghost var before := Hist(zero, negative, positive);
      var r := F.val(value);
      if r == 0.0 {
        zero := zero + n;
      } else if r < 0.0 {
        var key := Key(-r);
        negative := negative[key := Get(negative, key) + n];
      } else {
        var key := Key(r);
        positive := positive[key := Get(positive, key) + n];
      }
      PlusBin(F, before, value, n);
    }

    method Approximate(F: Floats)
      modifies this
      ensures View() == S.Approximate(F, old(View()))
    {
      if exact.None? {
        return;
      }
      hide Plus, S.HistOf, S.Bins, Histograms.Collapse;
      ghost var start := View();
      var values := exact.value;
      BinnedEnds(F, start.hist, values);
      for i := 0 to |values|
        invariant View() == start.(hist := Plus(start.hist, S.HistOf(F, values[..i])))
      {
        BinnedStep(F, start.hist, values, i);
        AddBin(F, values[i], 1);
      }
      exact := None;
      Collapse();
    }

    /** Evicts the lowest bin while there are too many. */
    method Collapse()
      modifies this
      ensures View() == old(View()).(hist := Histograms.Collapse(old(View()).hist))
    {
      hide Evicting, Histograms.Collapse;
      ghost var start := Hist(zero, negative, positive);
      Untouched(start);
      while |negative| + |positive| > MAX_BINS
        invariant unchanged(`count, `sum, `min, `max, `exact)
        invariant Evicting(start, Hist(zero, negative, positive))
        decreases |negative| + |positive|
      {
        EvictLowest(start);
      }
      Settled(start, Hist(zero, negative, positive));
    }

    /** One round of the eviction loop: the lowest key goes, the negative bin first when keys tie. */
    method EvictLowest(ghost start: Hist)
      requires |negative| + |positive| > MAX_BINS
      requires Evicting(start, Hist(zero, negative, positive))
      modifies `zero, `negative, `positive
      ensures Evicting(start, Hist(zero, negative, positive))
      ensures |negative| + |positive| == |old(negative)| + |old(positive)| - 1
    {
      hide Evicting;
      ghost var h := Hist(zero, negative, positive);
      var nk, hasNegative := MinKey(negative);
      var pk, hasPositive := MinKey(positive);
      EvictionSound(start, h, nk, hasNegative, pk, hasPositive);
      if hasNegative && (!hasPositive || nk <= pk) {
        zero := zero + negative[nk];
        negative := negative - {nk};
        assert Hist(zero, negative, positive) == Hist(h.zero + h.negative[nk], h.negative - {nk}, h.positive);
      } else {
        zero := zero + positive[pk];
        positive := positive - {pk};
        assert Hist(zero, negative, positive) == Hist(h.zero + h.positive[pk], h.negative, h.positive - {pk});
      }
    }

    /** Merges an encoded sketch. Bytes that do not decode leave the sketch as it was. */
    method MergeBytes(F: Floats, data: bytes) returns (err: Option<Error>)
      modifies this
      ensures err == match C.Decode(data) case Ok(_) => None case Err(e) => Some(e)
      ensures View() == B.MergeBytes(F, old(View()), data)
    {
      hide C.Decode, S.HistOf, Histograms.Collapse, Plus;
      var decoded := C.DecodeSketch(data);
      if decoded.Err? {
        return Some(decoded.error);
      }
      err := None;
      var other := decoded.value;
      if other.count == 0 {
        return;
      }
      var wasEmpty := count == 0;
      if wasEmpty {
        min, max := other.min, other.max;
      } else {
        min := F.Min(min, other.min);
        max := F.Max(max, other.max);
      }
      count := count + other.count;
      sum := F.add(sum, other.sum);
      if wasEmpty && other.exact.Some? {
        exact := Some((if exact.None? then [] else exact.value) + other.exact.value);
        return;
      }
      if other.exact.Some? && exact.Some? {
        exact := Some(exact.value + other.exact.value);
        return;
      }
      AddBinsOf(F, other);
    }

    /** Bins the exact values of both sides and adds the other side's bins. */
    method AddBinsOf(F: Floats, other: S.Summary)
      modifies this
      ensures View() == old(View()).(exact := None, hist := Histograms.Collapse(Plus(
                          S.Approximate(F, old(View())).hist, S.Approximate(F, other).hist)))
    {
      hide S.HistOf, Histograms.Collapse;
      Approximate(F);
      var o := new SketchValue.Of(other);
      o.Approximate(F);
      zero := zero + o.zero;
      negative := AddCounts(negative, o.negative);
      positive := AddCounts(positive, o.positive);
      Collapse();
    }

    /** The bytes of the sketch once its exact values are binned. */
    method EncodeApprox(F: Floats) returns (data: bytes)
      requires C.Storable(S.Approximate(F, View()))
      modifies this
      ensures View() == S.Approximate(F, old(View()))
      ensures data == C.ApproxBytes(View())
    {
      Approximate(F);
      data := C.AppendSketchApprox([], View());
      assert [] + C.ApproxBytes(View()) == C.ApproxBytes(View());
    }
  }

  method MinKey(values: map<int, nat>) returns (out: int, ok: bool)
    ensures ok <==> values != map[]
    ensures ok ==> out in values && forall k :: k in values ==> out <= k
  {
    out, ok := 0, false;
    var left := values.Keys;
    while left != {}
      invariant left <= values.Keys
      invariant !ok ==> left == values.Keys
      invariant ok ==> out in values && forall k :: k in values && k !in left ==> out <= k
      decreases |left|
    {
      Inhabited(left);
      var k :| k in left;
      if !ok || k < out {
        out, ok := k, true;
      }
      left := left - {k};
    }
  }

  method AddCounts(a: map<int, nat>, b: map<int, nat>) returns (out: map<int, nat>)
    ensures out == Sum(a, b)
  {
    hide Sum, Get;
    out := a;
    var left := b.Keys;
    CountsEnds(a, b);
    while left != {}
      invariant left <= b.Keys
      invariant out == Sum(a, b - left)
      decreases |left|
    {
      Inhabited(left);
      var k :| k in left;
      CountsStep(a, b, left, k);
      out := out[k := Get(out, k) + b[k]];
      left := left - {k};
    }
  }

  lemma BinnedEnds(F: Floats, h: Hist, values: seq<u64>)
    ensures Plus(h, S.HistOf(F, values[..0])) == h && values[..|values|] == values
  {
    PlusEmpty(h);
    assert values[..0] == [];
  }

  lemma BinnedStep(F: Floats, h: Hist, values: seq<u64>, i: nat)
    requires i < |values|
    ensures Plus(h, S.HistOf(F, values[..i + 1])) == Plus(Plus(h, S.HistOf(F, values[..i])), S.Bins(F, values[i], 1))
  {
    hide Plus, S.HistOf, S.Bins;
    assert values[..i + 1] == values[..i] + [values[i]];
    S.HistOfConcat(F, values[..i], [values[i]]);
    S.HistOfOne(F, values[i]);
    PlusAssociative(h, S.HistOf(F, values[..i]), S.Bins(F, values[i], 1));
  }

  lemma CountsEnds(a: map<int, nat>, b: map<int, nat>)
    ensures Sum(a, b - b.Keys) == a && b - {} == b
  {
  }

  lemma CountsStep(a: map<int, nat>, b: map<int, nat>, left: set<int>, k: int)
    requires left <= b.Keys && k in left
    ensures var before := Sum(a, b - left); Sum(a, b - (left - {k})) == before[k := Get(before, k) + b[k]]
  {
  }

  lemma PlusBin(F: Floats, h: Hist, value: u64, n: nat)
    ensures var r := F.val(value);
            Plus(h, S.Bins(F, value, n)) ==
              if r == 0.0 then h.(zero := h.zero + n)
              else if r < 0.0 then h.(negative := h.negative[Key(-r) := Get(h.negative, Key(-r)) + n])
              else h.(positive := h.positive[Key(r) := Get(h.positive, Key(r)) + n])
  {
    hide Key, Sum;
    var r := F.val(value);
    SumNone(h.negative);
    SumNone(h.positive);
    if r < 0.0 {
      SumOne(h.negative, Key(-r), n);
    } else if r > 0.0 {
      SumOne(h.positive, Key(r), n);
    }
  }

  lemma SumNone(m: map<int, nat>)
    ensures Sum(m, map[]) == m
  {
  }

  lemma SumOne(m: map<int, nat>, k: int, n: nat)
    ensures Sum(m, map[k := n]) == m[k := Get(m, k) + n]
  {
  }

  // ----- The eviction loop -----

  /** Some of the lowest bins of `start` are gone, no more than the cap asks, and their mass is kept. */
  ghost predicate Evicting(start: Hist, h: Hist) {
    && Mass(h) == Mass(start)
    && Codes(h) <= Codes(start)
    && (forall c :: c in Codes(h) ==> Bin(h, c) == Bin(start, c))
    && (forall c, d :: c in Codes(start) && c !in Codes(h) && d in Codes(h) ==> c < d)
    && (|Codes(start)| <= MAX_BINS ==> Codes(h) == Codes(start))
    && (|Codes(start)| > MAX_BINS ==> |Codes(h)| >= MAX_BINS)
  }

  lemma Untouched(h: Hist)
    ensures Evicting(h, h)
  {
  }

  lemma RemoveSize(m: map<int, nat>, k: int)
    requires k in m
    ensures |m - {k}| == |m| - 1
  {
    assert (m - {k}).Keys == m.Keys - {k};
  }

  lemma EvictionSound(start: Hist, h: Hist, nk: int, hasNegative: bool, pk: int, hasPositive: bool)
    requires |h.negative| + |h.positive| > MAX_BINS && Evicting(start, h)
    requires hasNegative <==> h.negative != map[]
    requires hasNegative ==> nk in h.negative && forall k :: k in h.negative ==> nk <= k
    requires hasPositive <==> h.positive != map[]
    requires hasPositive ==> pk in h.positive && forall k :: k in h.positive ==> pk <= k
    ensures hasNegative || hasPositive
    ensures hasNegative && (!hasPositive || nk <= pk) ==>
              && |h.negative - {nk}| == |h.negative| - 1
              && Evicting(start, Hist(h.zero + h.negative[nk], h.negative - {nk}, h.positive))
    ensures !(hasNegative && (!hasPositive || nk <= pk)) ==>
              && |h.positive - {pk}| == |h.positive| - 1
              && Evicting(start, Hist(h.zero + h.positive[pk], h.negative, h.positive - {pk}))
  {
    hide Evicting, Codes, Mass;
    CodesCount(h);
    BinExists(h);
    if hasNegative && (!hasPositive || nk <= pk) {
      EvictNegative(start, h, nk);
      RemoveSize(h.negative, nk);
    } else {
      EvictPositive(start, h, pk);
      RemoveSize(h.positive, pk);
    }
  }

  lemma BinExists(h: Hist)
    ensures |h.negative| + |h.positive| > 0 ==> h.negative != map[] || h.positive != map[]
  {
  }

  lemma EvictNegative(start: Hist, h: Hist, k: int)
    requires Evicting(start, h) && |Codes(h)| > MAX_BINS
    requires k in h.negative
    requires forall j :: j in h.negative ==> k <= j
    requires forall j :: j in h.positive ==> k <= j
    ensures Evicting(start, h.(zero := h.zero + h.negative[k], negative := h.negative - {k}))
  {
    hide Evicting, Codes, Total;
    var after := h.(zero := h.zero + h.negative[k], negative := h.negative - {k});
    TotalTake(h.negative, k);
    EvictCode(start, h, after, 2 * k);
  }

  lemma EvictPositive(start: Hist, h: Hist, k: int)
    requires Evicting(start, h) && |Codes(h)| > MAX_BINS
    requires k in h.positive
    requires forall j :: j in h.negative ==> k < j
    requires forall j :: j in h.positive ==> k <= j
    ensures Evicting(start, h.(zero := h.zero + h.positive[k], positive := h.positive - {k}))
  {
    hide Evicting, Codes, Total;
    var after := h.(zero := h.zero + h.positive[k], positive := h.positive - {k});
    TotalTake(h.positive, k);
    EvictCode(start, h, after, 2 * k + 1);
  }

  /** `after` is `h` without its lowest bin. */
  ghost predicate Dropped(h: Hist, after: Hist, code: int) {
    && code / 2 in (if code % 2 == 0 then h.negative else h.positive)
    && after.negative == (if code % 2 == 0 then h.negative - {code / 2} else h.negative)
    && after.positive == (if code % 2 == 0 then h.positive else h.positive - {code / 2})
    && (forall j :: j in h.negative ==> code <= 2 * j)
    && (forall j :: j in h.positive ==> code <= 2 * j + 1)
  }

  lemma EvictCode(start: Hist, h: Hist, after: Hist, code: int)
    requires Evicting(start, h) && |Codes(h)| > MAX_BINS
    requires Mass(after) == Mass(h) && Dropped(h, after, code)
    ensures Evicting(start, after)
  {
    hide Mass, Codes, Bin, Dropped;
    DroppedCodes(h, after, code);
  }

  lemma DroppedCodes(h: Hist, after: Hist, code: int)
    requires Dropped(h, after, code)
    ensures code in Codes(h) && Codes(after) == Codes(h) - {code}
    ensures forall c :: c in Codes(h) ==> code <= c
    ensures forall c :: c in Codes(after) ==> Bin(after, c) == Bin(h, c)
  {
    InCodes(h, code);
    assert code == 2 * (code / 2) + code % 2;
    forall c
      ensures c in Codes(after) <==> c in Codes(h) - {code}
      ensures c in Codes(h) ==> code <= c
      ensures c in Codes(after) ==> Bin(after, c) == Bin(h, c)
    {
      InCodes(h, c);
      InCodes(after, c);
      assert c == 2 * (c / 2) + c % 2;
    }
  }

  lemma Settled(start: Hist, h: Hist)
    requires Evicting(start, h) && |h.negative| + |h.positive| <= MAX_BINS
    ensures h == Collapse(start)
  {
    hide Mass, Codes, Collapse, Top, Bin;
    CodesCount(h);
    TopIsTop(Codes(start));
    IsTopUnique(Codes(start), Codes(h), Top(Codes(start)));
    CollapseShape(start);
    forall c | c in Codes(h)
      ensures Bin(h, c) == Bin(Collapse(start), c)
    {
      CollapsedBin(start, c);
    }
    SameTotals(h, Collapse(start));
    SameBins(h, Collapse(start));
  }
}
