/** Machine words: 64-bit arithmetic with wrap-around, exclusive or, bit reversal and zigzag. */
module Words {

  const W := 0x1_0000_0000_0000_0000
  const MAX_INT := 0x7FFF_FFFF_FFFF_FFFF

  type u64 = x: int | 0 <= x < 0x1_0000_0000_0000_0000
  type i64 = x: int | -0x8000_0000_0000_0000 <= x < 0x8000_0000_0000_0000
  type byte = x: int | 0 <= x < 0x100
  type bytes = seq<byte>

  /** `a + b` on uint64. */
  function Add(a: u64, b: u64): u64 {
    if a + b < W then a + b else a + b - W
  }

  /** `a - b` on uint64. */
  function Sub(a: u64, b: u64): u64 {
    if b <= a then a - b else a - b + W
  }

  function Pow2(n: nat): nat
    ensures Pow2(n) > 0
  {
    if n == 0 then 1 else 2 * Pow2(n - 1)
  }

  lemma Pow2Of64()
    ensures Pow2(64) == W
  {
    assert Pow2(8) == 0x100;
    assert Pow2(16) == 0x1_0000;
    assert Pow2(24) == 0x100_0000;
    assert Pow2(32) == 0x1_0000_0000;
    assert Pow2(40) == 0x100_0000_0000;
    assert Pow2(48) == 0x1_0000_0000_0000;
    assert Pow2(56) == 0x100_0000_0000_0000;
  }

  /** Bitwise exclusive or, bit by bit from the low end. */
  function Xor(a: nat, b: nat): nat
    decreases a + b
  {
    if a == 0 && b == 0 then 0 else (a % 2 + b % 2) % 2 + 2 * Xor(a / 2, b / 2)
  }

  lemma {:induction false} XorBound(a: nat, b: nat, n: nat)
    requires a < Pow2(n) && b < Pow2(n)
    ensures Xor(a, b) < Pow2(n)
  {
    if n > 0 {
      XorBound(a / 2, b / 2, n - 1);
    }
  }

  lemma {:induction false} XorBits(a: nat, b: nat)
    ensures a == 0 && b == 0 ==> Xor(a, b) == 0
    ensures Xor(a, b) % 2 == (a % 2 + b % 2) % 2
    ensures Xor(a, b) / 2 == Xor(a / 2, b / 2)
  {
  }

  /** Exclusive or with the same word twice changes nothing. */
  lemma {:induction false} XorCancels(a: nat, b: nat)
    ensures Xor(b, Xor(a, b)) == a
    decreases a + b
  {
    hide Xor;
    XorBits(a, b);
    XorBits(b, Xor(a, b));
    if a > 0 || b > 0 {
      XorCancels(a / 2, b / 2);
    }
  }

  lemma {:induction false} XorZero(a: nat)
    ensures Xor(a, 0) == a
  {
    if a > 0 {
      XorZero(a / 2);
    }
  }

  /** Exclusive or with all ones is the one's complement. */
  lemma {:induction false} XorOnes(a: nat, n: nat)
    requires a < Pow2(n)
    ensures Xor(a, Pow2(n) - 1) == Pow2(n) - 1 - a
  {
    if n > 0 {
      hide Xor;
      var p := Pow2(n - 1);
      assert Pow2(n) == 2 * p;
      hide Pow2;
      OnesMinus(a, p);
      XorOnes(a / 2, n - 1);
      XorBits(a, 2 * p - 1);
    }
  }

  lemma OnesMinus(a: nat, p: nat)
    requires a < 2 * p
    ensures a / 2 < p && (a % 2 + 1) % 2 + 2 * (p - 1 - a / 2) == 2 * p - 1 - a
    ensures (2 * p - 1) / 2 == p - 1 && (2 * p - 1) % 2 == 1
  {
    assert a % 2 == 0 || a % 2 == 1;
  }

  /** `a ^ b` on uint64. */
  function Xor64(a: u64, b: u64): u64 {
    Pow2Of64();
    XorBound(a, b, 64);
    Xor(a, b)
  }

  /** The lowest `n` bits of `x` in the opposite order. */
  function Reverse(n: nat, x: nat): nat {
    if n == 0 then 0 else (if x % 2 == 1 then Pow2(n - 1) else 0) + Reverse(n - 1, x / 2)
  }

  lemma {:induction false} ReverseBound(n: nat, x: nat)
    ensures Reverse(n, x) < Pow2(n)
  {
    if n > 0 {
      ReverseBound(n - 1, x / 2);
    }
  }

  /** Reversing moves the top bit to the bottom. */
  lemma {:induction false} ReverseTop(n: nat, y: nat, high: bool)
    requires y < Pow2(n)
    ensures Reverse(n + 1, y + if high then Pow2(n) else 0) == 2 * Reverse(n, y) + if high then 1 else 0
  {
    var x := y + if high then Pow2(n) else 0;
    if n == 0 {
      assert Reverse(0, x / 2) == 0;
    } else {
      ReverseTop(n - 1, y / 2, high);
      assert x % 2 == y % 2 && x / 2 == y / 2 + if high then Pow2(n - 1) else 0;
    }
  }

  lemma {:induction false} ReverseReverse(n: nat, x: nat)
    requires x < Pow2(n)
    ensures Reverse(n, Reverse(n, x)) == x
  {
    if n > 0 {
      ReverseReverse(n - 1, x / 2);
      ReverseBound(n - 1, x / 2);
      ReverseTop(n - 1, Reverse(n - 1, x / 2), x % 2 == 1);
    }
  }

  lemma {:induction false} ReverseZero(n: nat)
    ensures Reverse(n, 0) == 0
  {
    if n > 0 {
      ReverseZero(n - 1);
    }
  }

  /** `bits.Reverse64`. */
  function Reverse64(x: u64): u64 {
    Pow2Of64();
    ReverseBound(64, x);
    Reverse(64, x)
  }

  lemma Reverse64Twice(x: u64)
    ensures Reverse64(Reverse64(x)) == x
  {
    Pow2Of64();
    ReverseReverse(64, x);
  }

  /** Two's complement: the uint64 with the bits of `x`, and back. */
  function ToUnsigned(x: i64): u64 {
    if x < 0 then x + W else x
  }

  function ToSigned(x: u64): i64 {
    if x <= MAX_INT then x else x - W
  }

  /** `uint64(value<<1) ^ uint64(value>>63)`. */
  function Zigzag(x: i64): u64 {
    Xor64(if x < 0 then 2 * x + W else 2 * x, if x < 0 then W - 1 else 0)
  }

  /** `int64(value>>1) ^ -int64(value&1)`. */
  function Unzigzag(x: u64): i64 {
    ToSigned(Xor64(x / 2, if x % 2 == 1 then W - 1 else 0))
  }

  /** Zigzag interleaves the integers by magnitude: 0, -1, 1, -2, 2, ... */
  lemma ZigzagOrder(x: i64)
    ensures Zigzag(x) == if x < 0 then -2 * x - 1 else 2 * x
  {
    Pow2Of64();
    if x < 0 {
      XorOnes(2 * x + W, 64);
    } else {
      XorZero(2 * x);
    }
  }

  lemma UnzigzagOrder(x: u64)
    ensures Unzigzag(x) == if x % 2 == 1 then -(x / 2) - 1 else x / 2
  {
    Pow2Of64();
    if x % 2 == 1 {
      XorOnes(x / 2, 64);
    } else {
      XorZero(x / 2);
    }
  }

  /** Zigzag is a bijection between int64 and uint64. */
  lemma ZigzagRoundTrip(x: i64, y: u64)
    ensures Unzigzag(Zigzag(x)) == x
    ensures Zigzag(Unzigzag(y)) == y
  {
    ZigzagOrder(x);
    UnzigzagOrder(Zigzag(x));
    UnzigzagOrder(y);
    ZigzagOrder(Unzigzag(y));
  }
}
