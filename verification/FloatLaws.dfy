/** The laws that results set rounding aside with: whole numbers have all of them at once. */
module FloatLaws {
  import opened Words
  import opened FloatModel
  import Float64
  import AlignedReads
  import AlignedCounters

  function Plus(a: u64, b: u64): u64 { Add(a, b) }

  function Quotient(a: u64, b: u64): u64 { a }

  function Count(a: u64): u64 { a }

  function Number(a: u64): real { ToSigned(a) as real }

  /** Whole numbers in two's complement. */
  const WHOLE := Floats(Plus, Quotient, Count, Number)

  /** Patterns add as the numbers they stand for, negative ones too, as long as the sum is in range; and
      counts stand for themselves. */
  lemma NumbersAdd(a: u64, b: u64)
    ensures -0x8000_0000_0000_0000 <= ToSigned(a) + ToSigned(b) < 0x8000_0000_0000_0000 ==>
              WHOLE.val(WHOLE.add(a, b)) == WHOLE.val(a) + WHOLE.val(b)
    ensures a <= MAX_INT ==> WHOLE.val(WHOLE.ofUint(a)) == a as real
  {
  }

  lemma NumberBounds(a: u64)
    requires Number(a) != 0.0
    ensures 1.0 <= Magnitude(Number(a)) <= Two(63)
  {
    Float64.StepIsPower();
    Float64.TwoSum(52, 11);
    assert Two(11) == 2048.0 by { assert Two(6) == 64.0; }
    hide Two;
  }

  lemma LargePowers()
    ensures Two(1074) >= 1.0 && Two(63) <= Two(1024)
  {
    Float64.PowerGrows(0, 1074);
    Float64.PowerGrows(63, 1024);
    Float64.PowerZero();
    hide Two;
  }

  /** No result here that asks for laws of addition or of values holds for want of such an arithmetic. */
  lemma LawsHold()
    ensures WHOLE.Exact() && WHOLE.Distinct() && WHOLE.Ranged()
    ensures AlignedReads.Regroups(WHOLE) && AlignedCounters.Converts(WHOLE)
  {
    WholeRanged();
    hide FloatModel.Floats.Ranged;
    forall a, b | WHOLE.val(a) == WHOLE.val(b)
      ensures a == b
    {
      assert ToSigned(a) == ToSigned(b);
    }
  }

  lemma WholeRanged()
    ensures WHOLE.Ranged()
  {
    LargePowers();
    hide Two;
    forall a | WHOLE.val(a) != 0.0
      ensures 1.0 <= Magnitude(WHOLE.val(a)) * Two(1074) && Magnitude(WHOLE.val(a)) <= Two(1024)
    {
      NumberBounds(a);
      assert Magnitude(Number(a)) * Two(1074) >= 1.0 * 1.0;
    }
  }
}
