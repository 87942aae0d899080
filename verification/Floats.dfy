/** Float64 values are kept as their 64-bit patterns; what the hardware does with them is a parameter. */
module FloatModel {
  import opened Words

  /** `val` reads a pattern as the number it stands for, `add`, `div` and `ofUint` are the float
      operations the program uses. Nothing is assumed of them unless a predicate below is required. */
  datatype Floats = Floats(add: (u64, u64) -> u64, div: (u64, u64) -> u64,
                           ofUint: u64 -> u64, val: u64 -> real)
  {
    predicate Less(a: u64, b: u64) { val(a) < val(b) }

    /** Go's `min` and `max` on numbers. */
    function Min(a: u64, b: u64): u64 { if Less(b, a) then b else a }

    function Max(a: u64, b: u64): u64 { if Less(a, b) then b else a }

    /** Rounding set aside: addition regroups, reorders and starts from the zero pattern. */
    ghost predicate Exact() {
      && (forall a, b, c :: add(add(a, b), c) == add(a, add(b, c)))
      && (forall a, b :: add(a, b) == add(b, a))
      && (forall a :: add(0, a) == a)
    }

    /** No two patterns stand for the same number (signed zeros set aside). */
    ghost predicate Distinct() {
      forall a, b :: val(a) == val(b) ==> a == b
    }

    /** The magnitudes of float64: nonzero numbers lie between 2^-1074 and 2^1024. */
    ghost predicate Ranged() {
      forall a :: val(a) != 0.0 ==> 1.0 <= Magnitude(val(a)) * Two(1074) && Magnitude(val(a)) <= Two(1024)
    }
  }

  function Magnitude(x: real): real { if x < 0.0 then -x else x }

  function Two(n: nat): real
    ensures Two(n) > 0.0
  {
    if n == 0 then 1.0 else 2.0 * Two(n - 1)
  }
}
