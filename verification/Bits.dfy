/** Bit-level facts behind the ring masks: powers of two, bitwise AND on
    unsigned integers, and the capacity check that every ring runs. */
module Bits {
  import opened Wrappers

  /** The number of values of a 64-bit counter. */
  const WORD: nat := 0x1_0000_0000_0000_0000

  function Pow2(k: nat): nat {
    if k == 0 then 1 else 2 * Pow2(k - 1)
  }

  /** Bitwise AND of two unsigned integers, bit by bit from the lowest. */
  function And(x: nat, y: nat): nat {
    if x == 0 then 0 else (x % 2) * (y % 2) + 2 * And(x / 2, y / 2)
  }

  /** The bit trick of `is_power_of_two`. */
  predicate IsPowerOfTwo(x: nat) {
    x != 0 && And(x, x - 1) == 0
  }

  /** `validate_capacity`: None stands for the exception. */
  function ValidateCapacity(x: nat): (r: Option<nat>) {
    if IsPowerOfTwo(x) then Some(x) else None
  }

  /** x & (x - 1) keeps at least the bits of half of x. */
  lemma {:induction false} AndPredOfOdd(x: nat)
    requires x % 2 == 1
    ensures And(x, x - 1) == x - 1
  {
    assert (x - 1) / 2 == x / 2;
    AndSelf(x / 2);
  }

  lemma {:induction false} AndSelf(x: nat)
    ensures And(x, x) == x
  {
    if x != 0 {
      AndSelf(x / 2);
    }
  }

  /** The bit trick decides exactly the powers of two. */
  lemma {:induction false} PowerOfTwoTrick(x: nat)
    ensures IsPowerOfTwo(x) <==> exists k: nat :: x == Pow2(k)
  {
    if x == 0 {
      forall k: nat ensures x != Pow2(k) { Pow2Positive(k); }
    } else if x == 1 {
      AndPredOfOdd(1);
      assert x == Pow2(0);
    } else if x % 2 == 1 {
      AndPredOfOdd(x);
      forall k: nat ensures x != Pow2(k) {
        Pow2Positive(k);
      }
    } else {
      assert (x - 1) / 2 == x / 2 - 1;
      PowerOfTwoTrick(x / 2);
      if IsPowerOfTwo(x / 2) {
        var k: nat :| x / 2 == Pow2(k);
        assert x == Pow2(k + 1);
      }
      if k: nat :| x == Pow2(k) {
        assert x / 2 == Pow2(k - 1);
      }
    }
  }

  lemma {:induction false} Pow2Positive(k: nat)
    ensures Pow2(k) >= 1
    ensures k > 0 ==> Pow2(k) % 2 == 0
  {
    if k > 0 {
      Pow2Positive(k - 1);
      DoubleIsEven(Pow2(k - 1));
    }
  }

  lemma DoubleIsEven(h: nat)
    ensures (2 * h) % 2 == 0
  {
  }

  /** A validated capacity is a power of two, and only those are accepted. */
  lemma ValidatedCapacity(x: nat)
    ensures ValidateCapacity(x) == (if exists k: nat :: x == Pow2(k) then Some(x) else None)
    ensures ValidateCapacity(x).Some? ==> x >= 1
  {
    PowerOfTwoTrick(x);
  }

  lemma {:induction false} Pow2Splits(j: nat, k: nat)
    requires j <= k
    ensures Pow2(k) == Pow2(j) * Pow2(k - j)
  {
    if j > 0 {
      Pow2Splits(j - 1, k - 1);
    }
  }

  lemma {:induction false} Pow2Monotone(j: nat, k: nat)
    requires j < k
    ensures Pow2(j) < Pow2(k)
  {
    Pow2Positive(j);
    if j + 1 < k {
      Pow2Monotone(j, k - 1);
    }
  }

  lemma WordIsPow2()
    ensures Pow2(64) == WORD
  {
    assert Pow2(8) == 0x100;
    Pow2Splits(8, 16);
    Pow2Splits(16, 32);
    Pow2Splits(32, 64);
  }

  /** A capacity that fits in 64 bits and passes the check divides 2^64. */
  lemma CapacityDividesWord(cap: nat) returns (rounds: nat)
    requires IsPowerOfTwo(cap) && cap < WORD
    ensures rounds >= 2 && cap * rounds == WORD
  {
    PowerOfTwoTrick(cap);
    var k: nat :| cap == Pow2(k);
    WordIsPow2();
    if k >= 64 {
      if k > 64 { Pow2Monotone(64, k); }
      assert false;
    }
    Pow2Splits(k, 64);
    rounds := Pow2(64 - k);
    Pow2Positive(64 - k);
  }

  /** Such a capacity is at most 2^63. */
  lemma HalfWord(cap: nat)
    requires IsPowerOfTwo(cap) && cap < WORD
    ensures 1 <= cap && cap + 1 < WORD
  {
    var rounds := CapacityDividesWord(cap);
    assert cap * rounds >= 2 * cap;
  }
}
