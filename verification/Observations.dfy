/** Counting observations, and what the bins of a histogram say about them. */
module Observations {
  import opened Words
  import opened FloatModel
  import opened Keys
  import opened Histograms
  import opened Sketches

  /** How many of `s` satisfy `p`. */
  ghost function Count(s: seq<u64>, p: u64 -> bool): nat {
    if s == [] then 0 else Count(s[..|s| - 1], p) + if p(s[|s| - 1]) then 1 else 0
  }

  lemma {:induction false} CountImplies(s: seq<u64>, p: u64 -> bool, q: u64 -> bool)
    requires forall x :: x in s && p(x) ==> q(x)
    ensures Count(s, p) <= Count(s, q)
  {
    if s != [] {
      assert forall x :: x in s[..|s| - 1] ==> x in s;
      assert s[|s| - 1] in s;
      CountImplies(s[..|s| - 1], p, q);
    }
  }

  lemma {:induction false} CountSplit(s: seq<u64>, p: u64 -> bool, q: u64 -> bool, r: u64 -> bool)
    requires forall x :: x in s ==> (p(x) <==> q(x) || r(x)) && !(q(x) && r(x))
    ensures Count(s, p) == Count(s, q) + Count(s, r)
  {
    if s != [] {
      assert forall x :: x in s[..|s| - 1] ==> x in s;
      assert s[|s| - 1] in s;
      CountSplit(s[..|s| - 1], p, q, r);
    }
  }

  lemma {:induction false} CountNone(s: seq<u64>, p: u64 -> bool)
    requires forall x :: x in s ==> !p(x)
    ensures Count(s, p) == 0
  {
    if s != [] {
      assert forall x :: x in s[..|s| - 1] ==> x in s;
      assert s[|s| - 1] in s;
      CountNone(s[..|s| - 1], p);
    }
  }

  lemma {:induction false} CountAll(s: seq<u64>, p: u64 -> bool)
    requires forall x :: x in s ==> p(x)
    ensures Count(s, p) == |s|
  {
    if s != [] {
      assert forall x :: x in s[..|s| - 1] ==> x in s;
      assert s[|s| - 1] in s;
      CountAll(s[..|s| - 1], p);
    }
  }

  /** The bin of a nonzero observation. */
  function Code(F: Floats, x: u64): int
    requires F.val(x) != 0.0
  {
    if F.val(x) < 0.0 then 2 * Key(-F.val(x)) else 2 * Key(F.val(x)) + 1
  }

  predicate HasCode(F: Floats, x: u64, c: int) {
    F.val(x) != 0.0 && Code(F, x) == c
  }

  lemma BinsOfOne(F: Floats, x: u64, c: int)
    ensures c in Codes(Bins(F, x, 1)) <==> HasCode(F, x, c)
    ensures Bin(Bins(F, x, 1), c) == if HasCode(F, x, c) then 1 else 0
  {
    InCodes(Bins(F, x, 1), c);
    assert c == 2 * (c / 2) + c % 2;
  }

  /** Each bin of the full histogram holds as many observations as fall in it. */
  lemma {:induction false} BinHolds(F: Floats, obs: seq<u64>, c: int)
    ensures c in Codes(HistOf(F, obs)) <==> exists x :: x in obs && HasCode(F, x, c)
    ensures Bin(HistOf(F, obs), c) == Count(obs, (x: u64) => HasCode(F, x, c))
  {
    hide HistOf, Plus, Codes, Bins, HasCode, Bin;
    HistOfOne(F, 0);
    if obs == [] {
      EmptyCodes();
    } else {
      var n := |obs| - 1;
      assert obs == obs[..n] + [obs[n]];
      BinHolds(F, obs[..n], c);
      BinsOfOne(F, obs[n], c);
      HistOfConcat(F, obs[..n], [obs[n]]);
      HistOfOne(F, obs[n]);
      PlusBins(HistOf(F, obs[..n]), Bins(F, obs[n], 1));
      assert forall x :: x in obs <==> x in obs[..n] || x == obs[n];
    }
  }

  lemma EmptyCodes()
    ensures Codes(EMPTY) == {} && forall c :: Bin(EMPTY, c) == 0
  {
  }

  /** Float64 observations land in bins whose keys a machine integer holds. */
  lemma CodeRange(F: Floats, x: u64)
    requires F.Ranged() && F.val(x) != 0.0
    ensures -0x4_0000 <= Code(F, x) <= 0x4_0000
  {
    hide Key, Two;
    var r := Magnitude(F.val(x));
    assert 1.0 <= r * Two(1074) && r <= Two(1024);
    KeyAtLeast(r, 1074);
    KeyAtMost(r, 1024);
  }
}
