/** Histograms of signed logarithmic bins, and the cap on how many bins survive. */
module Histograms {
  import opened Sorted

  const MAX_BINS := 1024

  /** Observations counted as zero, and per key the negative and the positive ones. */
  datatype Hist = Hist(zero: nat, negative: map<int, nat>, positive: map<int, nat>)

  const EMPTY := Hist(0, map[], map[])

  function Get(m: map<int, nat>, k: int): nat {
    if k in m then m[k] else 0
  }

  // ----- Totals -----

  ghost function Total(m: map<int, nat>): nat
    decreases |m|
  {
    if m == map[] then 0 else
    Inhabited(m.Keys);
    var k :| k in m;
    m[k] + Total(m - {k})
  }

  /** The total does not depend on the order the keys are visited in. */
  lemma {:induction false} TotalTake(m: map<int, nat>, k: int)
    requires k in m
    ensures Total(m) == m[k] + Total(m - {k})
    decreases |m|
  {
    Inhabited(m.Keys);
    var j :| j in m && Total(m) == m[j] + Total(m - {j});
    if j != k {
      TotalTake(m - {j}, k);
      TotalTake(m - {k}, j);
      assert (m - {j}) - {k} == (m - {k}) - {j};
    }
  }

  lemma TotalPut(m: map<int, nat>, k: int, n: nat)
    ensures Total(m[k := n]) + Get(m, k) == Total(m) + n
  {
    TotalTake(m[k := n], k);
    assert m[k := n] - {k} == m - {k};
    if k in m {
      TotalTake(m, k);
    } else {
      assert m - {k} == m;
    }
  }

  function Sum(a: map<int, nat>, b: map<int, nat>): map<int, nat> {
    map k | k in a.Keys + b.Keys :: Get(a, k) + Get(b, k)
  }

  lemma {:induction false} TotalSum(a: map<int, nat>, b: map<int, nat>)
    ensures Total(Sum(a, b)) == Total(a) + Total(b)
    decreases |b|
  {
    if b == map[] {
      assert Sum(a, b) == a;
    } else {
      Inhabited(b.Keys);
      var k :| k in b;
      TotalSum(a, b - {k});
      TotalTake(b, k);
      SumPut(a, b, k);
      TotalPut(Sum(a, b - {k}), k, Get(a, k) + b[k]);
    }
  }

  lemma SumPut(a: map<int, nat>, b: map<int, nat>, k: int)
    requires k in b
    ensures Sum(a, b) == Sum(a, b - {k})[k := Get(a, k) + b[k]]
    ensures Get(Sum(a, b - {k}), k) == Get(a, k)
  {
  }

  lemma {:induction false} TotalSplit(m: map<int, nat>, s: set<int>)
    ensures Total(m) == Total(m - s) + Total(m - (m.Keys - s))
  {
    assert Sum(m - s, m - (m.Keys - s)) == m;
    TotalSum(m - s, m - (m.Keys - s));
  }

  ghost function Mass(h: Hist): nat {
    h.zero + Total(h.negative) + Total(h.positive)
  }

  // ----- Adding histograms -----

  function Plus(a: Hist, b: Hist): Hist {
    Hist(a.zero + b.zero, Sum(a.negative, b.negative), Sum(a.positive, b.positive))
  }

  lemma PlusAssociative(a: Hist, b: Hist, c: Hist)
    ensures Plus(Plus(a, b), c) == Plus(a, Plus(b, c))
  {
    SumAssociative(a.negative, b.negative, c.negative);
    SumAssociative(a.positive, b.positive, c.positive);
  }

  lemma SumGet(a: map<int, nat>, b: map<int, nat>, k: int)
    ensures Get(Sum(a, b), k) == Get(a, k) + Get(b, k)
    ensures k in Sum(a, b) <==> k in a || k in b
  {
  }

  lemma SumAssociative(a: map<int, nat>, b: map<int, nat>, c: map<int, nat>)
    ensures Sum(Sum(a, b), c) == Sum(a, Sum(b, c))
  {
    var l, r := Sum(Sum(a, b), c), Sum(a, Sum(b, c));
    forall k
      ensures k in l <==> k in r
      ensures k in l ==> l[k] == r[k]
    {
      SumGet(a, b, k);
      SumGet(b, c, k);
    }
    assert l == r;
  }

  lemma PlusCommutes(a: Hist, b: Hist)
    ensures Plus(a, b) == Plus(b, a)
  {
    assert Sum(a.negative, b.negative) == Sum(b.negative, a.negative);
    assert Sum(a.positive, b.positive) == Sum(b.positive, a.positive);
  }

  lemma PlusEmpty(a: Hist)
    ensures Plus(a, EMPTY) == a && Plus(EMPTY, a) == a
  {
    assert Sum(a.negative, map[]) == a.negative == Sum(map[], a.negative);
    assert Sum(a.positive, map[]) == a.positive == Sum(map[], a.positive);
  }

  lemma MassPlus(a: Hist, b: Hist)
    ensures Mass(Plus(a, b)) == Mass(a) + Mass(b)
  {
    TotalSum(a.negative, b.negative);
    TotalSum(a.positive, b.positive);
  }

  /** Every bin that exists holds something. */
  predicate Positive(h: Hist) {
    && (forall k :: k in h.negative ==> h.negative[k] > 0)
    && (forall k :: k in h.positive ==> h.positive[k] > 0)
  }

  lemma PlusPositive(a: Hist, b: Hist)
    requires Positive(a) && Positive(b)
    ensures Positive(Plus(a, b))
  {
  }

  // ----- Which bins survive -----

  /** Bins in eviction order: by key, the negative bin of a key before the positive one. */
  function Codes(h: Hist): set<int> {
    (set k | k in h.negative :: 2 * k) + (set k | k in h.positive :: 2 * k + 1)
  }

  /** What the bin with code `c` holds. */
  function Bin(h: Hist, c: int): nat {
    Get(if c % 2 == 0 then h.negative else h.positive, c / 2)
  }

  lemma InCodes(h: Hist, c: int)
    ensures c in Codes(h) <==> c / 2 in if c % 2 == 0 then h.negative else h.positive
  {
    assert c == 2 * (c / 2) + c % 2;
  }

  /** Codes, bins and the zero count determine a histogram. */
  lemma SameBins(a: Hist, b: Hist)
    requires a.zero == b.zero && Codes(a) == Codes(b)
    requires forall c :: c in Codes(a) ==> Bin(a, c) == Bin(b, c)
    ensures a == b
  {
    forall k: int
      ensures k in a.negative <==> k in b.negative
      ensures k in a.negative ==> a.negative[k] == b.negative[k]
      ensures k in a.positive <==> k in b.positive
      ensures k in a.positive ==> a.positive[k] == b.positive[k]
    {
      var c := 2 * k;
      assert c / 2 == k && (c + 1) / 2 == k;
      InCodes(a, c);
      InCodes(b, c);
      InCodes(a, c + 1);
      InCodes(b, c + 1);
      assert c in Codes(a) ==> Bin(a, c) == Bin(b, c);
      assert c + 1 in Codes(a) ==> Bin(a, c + 1) == Bin(b, c + 1);
    }
    assert a.negative == b.negative && a.positive == b.positive;
  }

  /** There is one code for each bin. */
  lemma CodesCount(h: Hist)
    ensures |Codes(h)| == |h.negative| + |h.positive|
  {
    var n, p := (set k | k in h.negative :: 2 * k), (set k | k in h.positive :: 2 * k + 1);
    ImageCount(h.negative.Keys, n, 0);
    ImageCount(h.positive.Keys, p, 1);
    assert n !! p;
  }

  lemma {:induction false} ImageCount(keys: set<int>, image: set<int>, odd: int)
    requires image == set k | k in keys :: 2 * k + odd
    ensures |image| == |keys|
  {
    if keys == {} {
      assert image == {};
    } else {
      Inhabited(keys);
      var k :| k in keys;
      var c := 2 * k + odd;
      forall d
        ensures d in image - {c} <==> d in set j | j in keys - {k} :: 2 * j + odd
      {
        if d in image - {c} {
          var j :| j in keys && d == 2 * j + odd;
          assert j in keys - {k};
        }
      }
      ImageCount(keys - {k}, image - {c}, odd);
    }
  }

  function Above(s: set<int>, c: int): set<int> {
    set d | d in s && d > c
  }

  /** The `MAX_BINS` largest codes. */
  function Top(s: set<int>): set<int> {
    set c | c in s && |Above(s, c)| < MAX_BINS
  }

  /** What being the top codes means: as many as allowed, and all above the rest. */
  ghost predicate IsTop(s: set<int>, top: set<int>) {
    && top <= s
    && (|s| <= MAX_BINS ==> top == s)
    && (|s| > MAX_BINS ==> |top| == MAX_BINS)
    && (forall x, y :: x in top && y in s && y !in top ==> y < x)
  }

  lemma IsTopUnique(s: set<int>, a: set<int>, b: set<int>)
    requires IsTop(s, a) && IsTop(s, b)
    ensures a == b
  {
    SameSizeDiffers(a, b);
    SameSizeDiffers(b, a);
  }

  lemma SameSizeDiffers(a: set<int>, b: set<int>)
    requires |a| == |b|
    ensures a == b || exists x :: x in a && x !in b
  {
    if forall x :: x in a ==> x in b {
      SubsetSize(a, b);
    }
  }

  lemma {:induction false} TopIsTop(s: set<int>)
    ensures IsTop(s, Top(s))
    decreases |s|
  {
    forall x, y | x in Top(s) && y in s && y !in Top(s)
      ensures y < x
    {
      if x <= y {
        SubsetSize(Above(s, y), Above(s, x));
      }
    }
    if |s| <= MAX_BINS {
      forall c | c in s
        ensures c in Top(s)
      {
        SubsetSize(Above(s, c), s - {c});
      }
    } else {
      var m := MinOf(s);
      assert Above(s, m) == s - {m};
      assert m !in Top(s);
      TopIsTop(s - {m});
      forall c | c in s && c != m
        ensures Above(s, c) == Above(s - {m}, c)
      {
      }
      assert Top(s) == Top(s - {m});
    }
  }

  /** Dropping to the top early changes nothing: a code that misses the top once never returns to it. */
  lemma TopOfTop(a: set<int>, b: set<int>)
    ensures Top(Top(a) + b) == Top(a + b)
  {
    TopIsTop(a);
    TopIsTop(Top(a) + b);
    TopIsTop(a + b);
    var top := Top(Top(a) + b);
    if |a| <= MAX_BINS {
      assert Top(a) == a;
    } else {
      SubsetSize(Top(a), Top(a) + b);
      SubsetSize(Top(a), a);
      SubsetSize(a, a + b);
      assert |top| == MAX_BINS by {
        if |Top(a) + b| == MAX_BINS {
          assert top == Top(a) + b;
        }
      }
      forall x, y | x in top && y in a + b && y !in top
        ensures y < x
      {
        if y !in Top(a) + b && x !in Top(a) {
          SameSizeDiffers(Top(a), top);
          var z :| z in Top(a) && z !in top;
          assert y < z;
        }
      }
      IsTopUnique(a + b, top, Top(a + b));
    }
  }

  // ----- Collapsing -----

  /** The bins whose code is in `top`; what the others held now counts as zero. */
  ghost function Keep(h: Hist, top: set<int>): Hist {
    var negative := map k | k in h.negative && 2 * k in top :: h.negative[k];
    var positive := map k | k in h.positive && 2 * k + 1 in top :: h.positive[k];
    Hist(h.zero + Total(h.negative - negative.Keys) + Total(h.positive - positive.Keys), negative, positive)
  }

  /** Only the top bins stay. */
  ghost function Collapse(h: Hist): Hist {
    Keep(h, Top(Codes(h)))
  }

  lemma KeepMass(h: Hist, top: set<int>)
    ensures Mass(Keep(h, top)) == Mass(h)
    ensures Codes(Keep(h, top)) == Codes(h) * top
    ensures Positive(h) ==> Positive(Keep(h, top))
  {
    var kept := Keep(h, top);
    TotalSplit(h.negative, kept.negative.Keys);
    TotalSplit(h.positive, kept.positive.Keys);
    assert h.negative - (h.negative.Keys - kept.negative.Keys) == kept.negative;
    assert h.positive - (h.positive.Keys - kept.positive.Keys) == kept.positive;
    forall c
      ensures c in Codes(kept) <==> c in Codes(h) * top
    {
      InCodes(h, c);
      InCodes(kept, c);
      assert c == 2 * (c / 2) + c % 2;
    }
  }

  /** Collapsing keeps every observation, leaves at most `MAX_BINS` bins, and is settled after once. */
  lemma CollapseShape(h: Hist)
    ensures Mass(Collapse(h)) == Mass(h)
    ensures Codes(Collapse(h)) == Top(Codes(h))
    ensures |Codes(Collapse(h))| <= MAX_BINS
    ensures Positive(h) ==> Positive(Collapse(h))
    ensures |Codes(h)| <= MAX_BINS ==> Collapse(h) == h
  {
    KeepMass(h, Top(Codes(h)));
    TopIsTop(Codes(h));
    assert Codes(h) * Top(Codes(h)) == Top(Codes(h));
    if |Codes(h)| <= MAX_BINS {
      KeepAll(h);
    }
  }

  /** Which bins are given up: none of at most 1024, and else as many as are too many, those with the least keys,
      and of a negative and a positive bin with one key the negative one first. The others are as they were. */
  lemma LeastGivenUp(h: Hist)
    ensures var c := Collapse(h);
            && (|h.negative| + |h.positive| <= 1024 ==> c == h)
            && (|h.negative| + |h.positive| > 1024 ==> |c.negative| + |c.positive| == 1024)
            && (forall k :: k in c.negative ==> k in h.negative && c.negative[k] == h.negative[k])
            && (forall k :: k in c.positive ==> k in h.positive && c.positive[k] == h.positive[k])
            && (forall j, k :: Out(h.negative, c.negative, j) && k in c.negative ==> j < k)
            && (forall j, k :: Out(h.negative, c.negative, j) && k in c.positive ==> j <= k)
            && (forall j, k :: Out(h.positive, c.positive, j) && k in c.negative ==> j < k)
            && (forall j, k :: Out(h.positive, c.positive, j) && k in c.positive ==> j < k)
            && c.zero + Total(c.negative) + Total(c.positive) == h.zero + Total(h.negative) + Total(h.positive)
  {
    hide Collapse, Total, Codes, Top, IsTop, Out, Positive;
    CollapseShape(h);
    CodesCount(h);
    CodesCount(Collapse(h));
    TopIsTop(Codes(h));
    TopCount(Codes(h));
    OthersStay(h);
    forall j, k | Out(h.negative, Collapse(h).negative, j)
      ensures k in Collapse(h).negative ==> j < k
      ensures k in Collapse(h).positive ==> j <= k
    {
      Ranks(h, j, k);
    }
    forall j, k | Out(h.positive, Collapse(h).positive, j)
      ensures k in Collapse(h).negative ==> j < k
      ensures k in Collapse(h).positive ==> j < k
    {
      Ranks(h, j, k);
    }
  }

  predicate Out(m: map<int, nat>, n: map<int, nat>, k: int) { k in m && k !in n }

  lemma TopCount(s: set<int>)
    ensures |s| > 1024 ==> |Top(s)| == 1024
  {
    TopIsTop(s);
  }

  lemma OthersStay(h: Hist)
    ensures forall k :: k in Collapse(h).negative ==> k in h.negative && Collapse(h).negative[k] == h.negative[k]
    ensures forall k :: k in Collapse(h).positive ==> k in h.positive && Collapse(h).positive[k] == h.positive[k]
  {
    hide Top, Codes;
  }

  lemma Ranks(h: Hist, j: int, k: int)
    ensures var c := Collapse(h);
            && (Out(h.negative, c.negative, j) && k in c.negative ==> j < k)
            && (Out(h.negative, c.negative, j) && k in c.positive ==> j <= k)
            && (Out(h.positive, c.positive, j) && k in c.negative ==> j < k)
            && (Out(h.positive, c.positive, j) && k in c.positive ==> j < k)
  {
    hide Collapse, Codes, Top;
    var c := Collapse(h);
    CollapseShape(h);
    TopIsTop(Codes(h));
    InCodes(h, 2 * j);
    InCodes(h, 2 * j + 1);
    InCodes(c, 2 * j);
    InCodes(c, 2 * j + 1);
    InCodes(c, 2 * k);
    InCodes(c, 2 * k + 1);
  }

  lemma KeepAll(h: Hist)
    ensures Keep(h, Codes(h)) == h
  {
    var c := Keep(h, Codes(h));
    assert forall k :: k in h.negative ==> 2 * k in Codes(h);
    assert forall k :: k in h.positive ==> 2 * k + 1 in Codes(h);
    assert c.negative == h.negative && c.positive == h.positive;
    assert h.negative - h.negative.Keys == map[] && h.positive - h.positive.Keys == map[];
  }

  lemma PlusBins(a: Hist, b: Hist)
    ensures Codes(Plus(a, b)) == Codes(a) + Codes(b)
    ensures forall c :: Bin(Plus(a, b), c) == Bin(a, c) + Bin(b, c)
  {
    forall c
      ensures c in Codes(Plus(a, b)) <==> c in Codes(a) + Codes(b)
    {
      InCodes(a, c);
      InCodes(b, c);
      InCodes(Plus(a, b), c);
    }
  }

  /** A code among the top of a sum is among the top of every part it occurs in. */
  lemma TopOfPart(a: set<int>, b: set<int>, c: int)
    requires c in a && c in Top(a + b)
    ensures c in Top(a)
  {
    SubsetSize(Above(a, c), Above(a + b, c));
  }

  lemma CollapsedBin(h: Hist, c: int)
    ensures Bin(Collapse(h), c) == if c in Top(Codes(h)) then Bin(h, c) else 0
  {
    InCodes(h, c);
    assert c == 2 * (c / 2) + c % 2;
  }

  lemma EarlyBin(a: Hist, b: Hist, c: int)
    requires c in Top(Codes(a) + Codes(b))
    ensures Bin(Plus(Collapse(a), b), c) == Bin(Plus(a, b), c)
  {
    PlusBins(Collapse(a), b);
    PlusBins(a, b);
    CollapsedBin(a, c);
    InCodes(a, c);
    if c in Codes(a) {
      TopOfPart(Codes(a), Codes(b), c);
    }
  }

  /** Collapsing one part first and the sum later is collapsing the sum once. */
  lemma CollapseOfPlus(a: Hist, b: Hist)
    ensures Collapse(Plus(Collapse(a), b)) == Collapse(Plus(a, b))
  {
    hide Collapse, Plus, Codes, Bin, Positive;
    EarlyBins(a, b);
    SameTotals(Collapse(Plus(Collapse(a), b)), Collapse(Plus(a, b)));
    CollapseShape(a);
    MassPlus(Collapse(a), b);
    MassPlus(a, b);
    CollapseShape(Plus(Collapse(a), b));
    CollapseShape(Plus(a, b));
    SameBins(Collapse(Plus(Collapse(a), b)), Collapse(Plus(a, b)));
  }

  lemma EarlyBins(a: Hist, b: Hist)
    ensures Codes(Collapse(Plus(Collapse(a), b))) == Codes(Collapse(Plus(a, b)))
    ensures forall c :: c in Codes(Collapse(Plus(a, b))) ==>
              Bin(Collapse(Plus(Collapse(a), b)), c) == Bin(Collapse(Plus(a, b)), c)
  {
    EarlyCodes(a, b);
    CollapseShape(Plus(Collapse(a), b));
    CollapseShape(Plus(a, b));
    PlusBins(a, b);
    forall c | c in Codes(Collapse(Plus(a, b)))
      ensures Bin(Collapse(Plus(Collapse(a), b)), c) == Bin(Collapse(Plus(a, b)), c)
    {
      CollapsedBin(Plus(Collapse(a), b), c);
      CollapsedBin(Plus(a, b), c);
      EarlyBin(a, b, c);
    }
  }

  lemma EarlyCodes(a: Hist, b: Hist)
    ensures Top(Codes(Plus(Collapse(a), b))) == Top(Codes(Plus(a, b)))
  {
    CollapseShape(a);
    PlusBins(Collapse(a), b);
    PlusBins(a, b);
    TopOfTop(Codes(a), Codes(b));
  }

  lemma SameTotals(a: Hist, b: Hist)
    requires Codes(a) == Codes(b)
    requires forall c :: c in Codes(a) ==> Bin(a, c) == Bin(b, c)
    ensures Mass(a) - a.zero == Mass(b) - b.zero
  {
    SameBins(a, b.(zero := a.zero));
  }

  /** Both parts may be collapsed early. */
  lemma CollapseOfParts(a: Hist, b: Hist)
    ensures Collapse(Plus(Collapse(a), Collapse(b))) == Collapse(Plus(a, b))
  {
    CollapseOfPlus(a, Collapse(b));
    PlusCommutes(a, Collapse(b));
    CollapseOfPlus(b, a);
    PlusCommutes(b, a);
  }
}
