/** Logarithmic bins: the bin key of a magnitude and the value a bin answers with. */
module Keys {
  import opened FloatModel

  const ALPHA := 0.01
  const BIN_ALPHA := 0.009999
  const GAMMA := (1.0 + BIN_ALPHA) / (1.0 - BIN_ALPHA)

  /** One bin up and one bin down: times and divided by `GAMMA`. */
  function Up(x: real): real { x * 1.009999 / 0.990001 }

  function Down(x: real): real { x * 0.990001 / 1.009999 }

  /** `GAMMA` to the power `k`. */
  function Gamma(k: int): (p: real)
    ensures p > 0.0
    decreases if k < 0 then -k else k
  {
    if k == 0 then 1.0 else if k > 0 then Up(Gamma(k - 1)) else Down(Gamma(k + 1))
  }

  lemma GammaStep(k: int)
    ensures Gamma(k + 1) == Up(Gamma(k))
  {
  }

  /** The ends of neighbouring bins are a factor of `GAMMA` apart. */
  lemma GammaRatio(k: int)
    ensures Gamma(0) == 1.0 && Gamma(k + 1) == GAMMA * Gamma(k) && GAMMA == 1.009999 / 0.990001
  {
    var g, p := 1.009999 / 0.990001, Gamma(k);
    GammaStep(k);
    assert GAMMA == g;
    assert Up(p) == g * p;
  }

  lemma {:induction false} GammaIncreases(j: int, k: int)
    requires j <= k
    ensures Gamma(j) <= Gamma(k)
    ensures j < k ==> Gamma(j) < Gamma(k)
    decreases k - j
  {
    if j < k {
      GammaIncreases(j, k - 1);
      GammaStep(k - 1);
    }
  }

  /** How many bins x lies above 1, and below it. */
  function KeyUp(x: real): int
    requires Up(x) > 1.0
    decreases (x * 60.0).Floor
  {
    if x <= 1.0 then 0 else 1 + KeyUp(Down(x))
  }

  function KeyDown(x: real): int
    requires 0.0 < x <= 1.0
    decreases (60.0 / x).Floor
  {
    if Up(x) > 1.0 then 0 else
    assert 60.0 / Up(x) <= 60.0 / x - 1.0 by { Shrinks(x); }
    1 + KeyDown(Up(x))
  }

  lemma Shrinks(x: real)
    requires 0.0 < x && Up(x) <= 1.0
    ensures 60.0 / Up(x) <= 60.0 / x - 1.0
  {
    var y, z := 60.0 / x, 60.0 / Up(x);
    assert z * Up(x) == 60.0 && y * x == 60.0;
    assert z * Up(x) == Up(z) * x;
    assert Up(z) * x == y * x ==> Up(z) == y;
    assert (y - 60.0) * x >= 0.0;
  }

  /** The bin key of a magnitude. */
  function Key(x: real): int
    requires x > 0.0
  {
    if x > 1.0 then KeyUp(x) else -KeyDown(x)
  }

  lemma {:induction false} KeyUpBounds(x: real)
    requires Up(x) > 1.0
    ensures Gamma(KeyUp(x) - 1) < x <= Gamma(KeyUp(x))
    decreases (x * 60.0).Floor
  {
    if x > 1.0 {
      KeyUpBounds(Down(x));
      GammaStep(KeyUp(x) - 1);
      GammaStep(KeyUp(x) - 2);
    } else {
      assert Gamma(-1) == Down(Gamma(0));
    }
  }

  lemma {:induction false} KeyDownBounds(x: real)
    requires 0.0 < x <= 1.0
    ensures Gamma(-KeyDown(x) - 1) < x <= Gamma(-KeyDown(x))
    decreases (60.0 / x).Floor
  {
    if Up(x) <= 1.0 {
      Shrinks(x);
      KeyDownBounds(Up(x));
      GammaStep(-KeyDown(x));
      GammaStep(-KeyDown(x) - 1);
    } else {
      assert Gamma(-1) == Down(Gamma(0));
    }
  }

  /** The bin of key k holds exactly the magnitudes above GAMMA^(k-1) and up to GAMMA^k. */
  lemma KeyBounds(x: real, k: int)
    requires x > 0.0
    ensures Key(x) == k <==> Gamma(k - 1) < x <= Gamma(k)
  {
    if x > 1.0 {
      KeyUpBounds(x);
      assert Gamma(0) == 1.0;
    } else {
      KeyDownBounds(x);
    }
    var key := Key(x);
    assert Gamma(key - 1) < x <= Gamma(key);
    if k < key {
      GammaIncreases(k, key - 1);
    } else if k > key {
      GammaIncreases(key, k - 1);
    }
  }

  /** Larger magnitudes have larger keys. */
  lemma KeyMonotone(x: real, y: real)
    requires 0.0 < x <= y
    ensures Key(x) <= Key(y)
  {
    KeyBounds(x, Key(x));
    KeyBounds(y, Key(y));
    if Key(y) < Key(x) {
      GammaIncreases(Key(y), Key(x) - 1);
    }
  }

  /** What a bin answers: the point whose relative distance to both ends of the bin is the same. */
  function BinValue(key: int): real {
    2.0 * Gamma(key) / (GAMMA + 1.0)
  }

  /** Every magnitude is within `BIN_ALPHA` of its bin's answer, relative to itself. */
  lemma BinValueError(x: real)
    requires x > 0.0
    ensures Magnitude(BinValue(Key(x)) - x) <= 0.009999 * x
  {
    KeyBounds(x, Key(x));
    GammaStep(Key(x) - 1);
  }

  // ----- The keys of float64 magnitudes are small -----

  lemma GammaDoubles(k: int)
    ensures Gamma(k + 40) >= 2.0 * Gamma(k)
  {
    GammaFive(k);
    GammaFive(k + 5);
    GammaFive(k + 10);
    GammaFive(k + 15);
    GammaFive(k + 20);
    GammaFive(k + 25);
    GammaFive(k + 30);
    GammaFive(k + 35);
  }

  lemma GammaFive(k: int)
    ensures Gamma(k + 5) >= 1.1 * Gamma(k)
  {
    GammaStep(k);
    GammaStep(k + 1);
    GammaStep(k + 2);
    GammaStep(k + 3);
    GammaStep(k + 4);
  }

  lemma {:induction false} TwoBelowGamma(n: nat)
    ensures Two(n) <= Gamma(40 * n)
  {
    if n > 0 {
      TwoBelowGamma(n - 1);
      GammaDoubles(40 * (n - 1));
    }
  }

  /** `2^-n`. */
  function Half(n: nat): real
    ensures Half(n) > 0.0
  {
    if n == 0 then 1.0 else Half(n - 1) / 2.0
  }

  lemma {:induction false} HalfOfTwo(n: nat)
    ensures Half(n) * Two(n) == 1.0
  {
    if n > 0 {
      HalfOfTwo(n - 1);
      var h, t := Half(n - 1), Two(n - 1);
      assert (h / 2.0) * (2.0 * t) == h * t;
    }
  }

  lemma {:induction false} GammaBelowHalf(n: nat)
    ensures Gamma(-40 * n) <= Half(n)
  {
    if n > 0 {
      GammaBelowHalf(n - 1);
      GammaDoubles(-40 * n);
      assert -40 * n + 40 == -40 * (n - 1);
    }
  }

  /** The key of a magnitude up to 2^m, and from 2^-n. */
  lemma KeyAtMost(x: real, m: nat)
    requires 0.0 < x <= Two(m)
    ensures Key(x) <= 40 * m + 1
  {
    var key := Key(x);
    KeyBounds(x, key);
    if key > 40 * m + 1 {
      TwoBelowGamma(m);
      GammaIncreases(40 * m, key - 1);
    }
  }

  lemma KeyAtLeast(x: real, n: nat)
    requires x > 0.0 && 1.0 <= x * Two(n)
    ensures Key(x) >= -40 * n
  {
    hide Key, Gamma, Two, Half;
    var k, t, h := -40 * n, Two(n), Half(n);
    if Key(x) < k {
      BelowKey(x, k);
      GammaBelowHalf(n);
      HalfOfTwo(n);
      SmallProduct(x, t, h);
    }
  }

  lemma BelowKey(x: real, k: int)
    requires x > 0.0 && Key(x) < k
    ensures x < Gamma(k)
  {
    KeyBounds(x, Key(x));
    GammaIncreases(Key(x), k);
  }

  lemma SmallProduct(x: real, t: real, h: real)
    requires x < h && t > 0.0 && h * t == 1.0
    ensures x * t < 1.0
  {
    var d := h - x;
    var p, q, r := x * t, h * t, d * t;
    assert r > 0.0;
    assert p == q - r;
  }
}
