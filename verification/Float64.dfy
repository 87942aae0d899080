/** The numbers that 64-bit float patterns stand for. */
module Float64 {
  import opened Words
  import opened FloatModel
  import opened Keys

  const STEP := 0x10_0000_0000_0000

  /** `2^k`. */
  function Power(k: int): (p: real)
    ensures p > 0.0
  {
    if k >= 0 then Two(k) else Half(-k)
  }

  function Times(a: real, b: real): real { a * b }

  /** Sign, eleven bits of exponent, 52 bits of fraction; infinities and not-a-number, which no sketch
      accepts, read as 0. */
  function Value(p: u64): real {
    var e, m := p / STEP % 0x800, p % STEP;
    var x := if e == 0x7FF then 0.0
             else if e == 0 then Times(m as real, Power(-1074))
             else Times((STEP + m) as real, Power(e - 1075));
    if p >= 0x8000_0000_0000_0000 then -x else x
  }

  lemma PowerStep(k: int)
    ensures Power(k + 1) == 2.0 * Power(k)
  {
    if k < 0 {
      assert Half(-k) == Half(-k - 1) / 2.0;
    }
  }

  lemma {:induction false} PowerSum(k: int, n: nat)
    ensures Power(k + n) == Times(Power(k), Two(n))
  {
    hide Power;
    if n > 0 {
      PowerSum(k, n - 1);
      PowerStep(k + (n - 1));
      assert k + (n - 1) + 1 == k + n;
      Twice(Power(k), Two(n - 1));
    }
  }

  lemma Twice(a: real, b: real)
    ensures 2.0 * Times(a, b) == Times(a, 2.0 * b)
  {
  }

  lemma PowerGrows(j: int, k: int)
    requires j <= k
    ensures Power(j) <= Power(k)
    decreases k - j
  {
    hide Power;
    if j < k {
      PowerGrows(j, k - 1);
      PowerStep(k - 1);
    }
  }

  lemma StepIsPower()
    ensures Two(52) == STEP as real
  {
    hide Two;
    TwoSum(10, 10);
    TwoSum(20, 20);
    TwoSum(40, 10);
    TwoSum(50, 2);
    TwoTen();
  }

  lemma TwoTen()
    ensures Two(10) == 1024.0 && Two(2) == 4.0
  {
    assert Two(5) == 32.0;
  }

  lemma {:induction false} TwoSum(m: nat, n: nat)
    ensures Two(m + n) == Times(Two(m), Two(n))
  {
    if n > 0 {
      TwoSum(m, n - 1);
      assert Two(m + n) == 2.0 * Two(m + (n - 1));
      Twice(Two(m), Two(n - 1));
    }
  }

  lemma Commutes(a: real, b: real)
    ensures Times(a, b) == Times(b, a)
  {
  }

  lemma Regroup(a: real, b: real, c: real)
    ensures Times(Times(a, b), c) == Times(a, Times(b, c))
  {
  }

  lemma Monotone(a: real, b: real, p: real)
    requires a <= b && p > 0.0
    ensures Times(a, p) <= Times(b, p)
  {
  }

  lemma Unit(a: real)
    ensures Times(1.0, a) == a && Times(2.0, a) == 2.0 * a
  {
  }

  lemma StepTimes(k: int)
    ensures Times(STEP as real, Power(k)) == Power(k + 52)
  {
    hide Power, Two, Times;
    StepIsPower();
    PowerSum(k, 52);
    Commutes(STEP as real, Power(k));
  }

  lemma PowerZero()
    ensures Power(0) == 1.0 && Power(1024) == Two(1024)
  {
    hide Two;
    assert Two(0) == 1.0 by { TwoZero(); }
  }

  lemma TwoZero()
    ensures Two(0) == 1.0
  {
  }

  /** The exponents that occur, and the ends of the range they span. */
  lemma ExponentRange(k: int)
    requires -1074 <= k <= 1023
    ensures 1.0 <= Times(Power(k), Two(1074)) && 2.0 * Power(k) <= Two(1024)
  {
    hide Power, Two, Times;
    PowerSum(k, 1074);
    PowerGrows(0, k + 1074);
    PowerZero();
    PowerStep(k);
    PowerGrows(k + 1, 1024);
  }

  lemma SubnormalRange(m: nat)
    requires 0 < m < STEP
    ensures var x := Times(m as real, Power(-1074)); 1.0 <= Times(x, Two(1074)) && 0.0 < x <= Two(1024)
  {
    hide Two, Power, Times;
    ExponentRange(-1074);
    ExponentRange(-1022);
    StepTimes(-1074);
    var p, t := Power(-1074), Two(1074);
    Regroup(m as real, p, t);
    Monotone(1.0, m as real, Times(p, t));
    Monotone(1.0, m as real, p);
    Unit(Times(p, t));
    Unit(p);
    Monotone(m as real, STEP as real, p);
  }

  lemma NormalRange(e: nat, m: nat)
    requires 0 < e < 0x7FF && m < STEP
    ensures var x := Times((STEP + m) as real, Power(e - 1075)); 1.0 <= Times(x, Two(1074)) && 0.0 < x <= Two(1024)
  {
    hide Power, Two, Times;
    var p := Power(e - 1075);
    var x := Times((STEP + m) as real, p);
    StepTimes(e - 1075);
    ExponentRange(e - 1023);
    Monotone(STEP as real, (STEP + m) as real, p);
    Monotone((STEP + m) as real, Times(2.0, STEP as real), p) by { Unit(STEP as real); }
    Regroup(2.0, STEP as real, p);
    Unit(Power(e - 1023));
    Monotone(Power(e - 1023), x, Two(1074));
  }

  /** Patterns that stand for nonzero numbers stand for magnitudes from 2^-1074 to 2^1024. */
  lemma ValueRange(p: u64)
    requires Value(p) != 0.0
    ensures 1.0 <= Times(Magnitude(Value(p)), Two(1074)) && Magnitude(Value(p)) <= Two(1024)
  {
    var e, m := p / STEP % 0x800, p % STEP;
    assert e != 0x7FF;
    assert e == 0 ==> m > 0;
    hide Two, Power, Times;
    if e == 0 {
      SubnormalRange(m);
    } else {
      NormalRange(e, m);
    }
  }

  /** The pattern whose exponent bits are `e` and whose other bits are zero stands for a power of two. */
  lemma PowerPattern(e: nat)
    requires 0 < e < 0x7FF
    ensures e * STEP < W && Value(e * STEP) == Power(e - 1023)
  {
    StepTimes(e - 1075);
  }

  /** An arithmetic over float64 numbers; how it adds and divides is left open. */
  ghost predicate OnFloat64(F: Floats) { forall p: u64 :: F.val(p) == Value(p) }

  lemma Float64Ranged(F: Floats)
    requires OnFloat64(F)
    ensures F.Ranged()
  {
    hide Value, Two;
    forall a | F.val(a) != 0.0
      ensures 1.0 <= Magnitude(F.val(a)) * Two(1074) && Magnitude(F.val(a)) <= Two(1024)
    {
      ValueRange(a);
    }
  }
}
