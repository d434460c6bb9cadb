/** Arithmetic of unsigned 64-bit counters. */
module Words {
  import opened Bits
  import opened Slots

  /** The stored value of a counter that has counted to `n`: n modulo 2^64. */
  function Wrap(n: nat): (r: nat)
    ensures r < WORD
  {
    Slot(n, WORD)
  }

  function Add64(a: nat, b: nat): (r: nat)
    requires a < WORD && b < WORD
    ensures r < WORD
  {
    if a + b < WORD then a + b else a + b - WORD
  }

  function Sub64(a: nat, b: nat): (r: nat)
    requires a < WORD && b < WORD
    ensures r < WORD
  {
    if b <= a then a - b else a + WORD - b
  }

  lemma WrapOnce(n: nat)
    requires n < 2 * WORD
    ensures Wrap(n) == if n < WORD then n else n - WORD
  {
    if n >= WORD {
      assert Slot(n - WORD, WORD) == n - WORD;
    }
  }

  /** Wrapped counters keep their distance while it fits in 64 bits. */
  lemma {:induction false} DistanceSurvivesWrap(a: nat, b: nat)
    requires b <= a < b + WORD
    ensures Sub64(Wrap(a), Wrap(b)) == a - b
    ensures Wrap(a) == Wrap(b) <==> a == b
    decreases b
  {
    if b >= WORD {
      DistanceSurvivesWrap(a - WORD, b - WORD);
    } else {
      WrapOnce(a);
    }
  }

  /** Counting on a wrapped counter is counting, then wrapping. */
  lemma {:induction false} IncrementWraps(a: nat)
    ensures Add64(Wrap(a), 1) == Wrap(a + 1)
    decreases a
  {
    if a >= WORD {
      IncrementWraps(a - WORD);
    } else if a + 1 == WORD {
      assert Slot(WORD, WORD) == Slot(0, WORD);
    }
  }

  /** Wrapping a counter does not change its slot. */
  lemma {:induction false} SlotAfterWrap(p: nat, cap: nat)
    requires IsPowerOfTwo(cap) && cap < WORD
    ensures Slot(Wrap(p), cap) == Slot(p, cap)
    decreases p
  {
    if p >= WORD {
      SlotAfterWrap(p - WORD, cap);
      var rounds := CapacityDividesWord(cap);
      SlotManyRounds(p - WORD, rounds, cap);
      assert p == (p - WORD) + rounds * cap;
    }
  }
}
