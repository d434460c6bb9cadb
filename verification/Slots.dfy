/** How a logical position maps to a slot of a ring of `cap` slots. */
module Slots {
  import opened Bits

  /** The slot of position `p`: positions `cap` apart share a slot. */
  function Slot(p: nat, cap: nat): (s: nat)
    requires cap > 0
    ensures s < cap
  {
    if p < cap then p else Slot(p - cap, cap)
  }

  lemma {:induction false} SlotManyRounds(p: nat, k: nat, cap: nat)
    requires cap > 0
    ensures Slot(p + k * cap, cap) == Slot(p, cap)
    decreases k
  {
    if k > 0 {
      assert p + k * cap == (p + (k - 1) * cap) + cap;
      SlotManyRounds(p, k - 1, cap);
    }
  }

  /** Two positions less than `cap` apart never share a slot. */
  lemma {:induction false} SlotInjective(p: nat, q: nat, cap: nat)
    requires cap > 0
    requires p <= q < p + cap && Slot(p, cap) == Slot(q, cap)
    ensures p == q
    decreases p
  {
    if p >= cap {
      SlotInjective(p - cap, q - cap, cap);
    }
  }

  /** The position of the window `[base, base + cap)` that uses the slot of `p`. */
  function Live(base: nat, p: nat, cap: nat): (r: nat)
    requires cap > 0 && base <= p
    ensures base <= r < base + cap && r <= p
    ensures Slot(r, cap) == Slot(p, cap)
    ensures if p < base + cap then r == p else r + cap <= p
    decreases p
  {
    if p < base + cap then p else Live(base, p - cap, cap)
  }

  /** The position of the window `[base, base + cap)` that uses slot `k`. */
  function PositionOf(base: nat, k: nat, cap: nat): (r: nat)
    requires k < cap
    ensures base <= r < base + cap
    ensures Slot(r, cap) == k
  {
    if base == 0 then k
    else
      var p := PositionOf(base - 1, k, cap);
      if p < base then p + cap else p
  }

  /** `pos & (cap - 1)` is the slot, for every power-of-two capacity. */
  lemma {:induction false} MaskIsSlot(p: nat, k: nat)
    ensures Pow2(k) > 0
    ensures And(p, Pow2(k) - 1) == Slot(p, Pow2(k))
    decreases k
  {
    Pow2Positive(k);
    SlotIsRemainder(p, Pow2(k));
    MaskIsRemainder(p, k);
  }

  /** The same for any capacity that passed the check. */
  lemma CapacityMaskIsSlot(p: nat, cap: nat)
    requires IsPowerOfTwo(cap)
    ensures And(p, cap - 1) == Slot(p, cap)
  {
    PowerOfTwoTrick(cap);
    var k: nat :| cap == Pow2(k);
    MaskIsSlot(p, k);
  }

  lemma {:induction false} MaskIsRemainder(p: nat, k: nat)
    ensures Pow2(k) > 0
    ensures And(p, Pow2(k) - 1) == p % Pow2(k)
    decreases k
  {
    Pow2Positive(k);
    if k == 0 {
      AndZero(p);
    } else {
      Pow2Positive(k - 1);
      MaskIsRemainder(p / 2, k - 1);
      MaskDoubles(p, Pow2(k - 1));
      RemainderBits(p, Pow2(k - 1));
    }
  }

  /** The mask of twice `m` keeps the lowest bit and masks the rest by `m`. */
  lemma MaskDoubles(p: nat, m: nat)
    requires m > 0
    ensures And(p, 2 * m - 1) == p % 2 + 2 * And(p / 2, m - 1)
  {
    assert (2 * m - 1) / 2 == m - 1 && (2 * m - 1) % 2 == 1;
  }

  lemma RemainderBits(p: nat, m: nat)
    requires m > 0
    ensures p % (2 * m) == p % 2 + 2 * ((p / 2) % m)
  {
    var q, r := (p / 2) / m, (p / 2) % m;
    assert p / 2 == q * m + r;
    assert p == (2 * m) * q + (2 * r + p % 2);
    RemainderUnique(p, 2 * m, q, 2 * r + p % 2);
  }

  lemma RemainderUnique(p: nat, d: nat, q: nat, r: nat)
    requires r < d && p == d * q + r
    ensures p % d == r && p / d == q
  {
    var e := p / d - q;
    assert d * (p / d) + p % d == p;
    assert d * e == r - p % d;
    NoSmallMultiple(d, e);
  }

  lemma NoSmallMultiple(d: int, e: int)
    requires -d < d * e < d
    ensures e == 0
  {
  }

  lemma {:induction false} AndZero(p: nat)
    ensures And(p, 0) == 0
  {
    if p != 0 {
      AndZero(p / 2);
    }
  }

  lemma {:induction false} SlotIsRemainder(p: nat, cap: nat)
    requires cap > 0
    ensures Slot(p, cap) == p % cap
    decreases p
  {
    if p >= cap {
      SlotIsRemainder(p - cap, cap);
      var q, r := (p - cap) / cap, (p - cap) % cap;
      assert p == cap * (q + 1) + r;
      RemainderUnique(p, cap, q + 1, r);
    } else {
      RemainderUnique(p, cap, 0, p);
    }
  }
}
