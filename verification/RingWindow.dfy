/** The items stored at consecutive positions of a ring. */
module RingWindow {
  import opened Bits
  import opened Slots
  import opened Words

  function Window<T>(buf: seq<T>, start: nat, n: nat): (w: seq<T>)
    requires |buf| > 0
    ensures |w| == n
  {
    seq(n, (k: nat) => buf[Slot(start + k, |buf|)])
  }

  /** Writing the next free slot appends. */
  lemma WindowAppend<T>(buf: seq<T>, start: nat, n: nat, v: T)
    requires n < |buf|
    ensures Window(buf[Slot(start + n, |buf|) := v], start, n + 1) == Window(buf, start, n) + [v]
  {
    var buf' := buf[Slot(start + n, |buf|) := v];
    forall k: nat | k < n + 1
      ensures Window(buf', start, n + 1)[k] == (Window(buf, start, n) + [v])[k]
    {
      if k < n && Slot(start + k, |buf|) == Slot(start + n, |buf|) {
        SlotInjective(start + k, start + n, |buf|);
      }
    }
  }

  /** Moving the start up drops the first item. */
  lemma WindowDrop<T>(buf: seq<T>, start: nat, n: nat)
    requires |buf| > 0 && n > 0
    ensures Window(buf, start, n)[0] == buf[Slot(start, |buf|)]
    ensures Window(buf, start + 1, n - 1) == Window(buf, start, n)[1..]
  {
    forall k: nat | k < n - 1
      ensures Window(buf, start + 1, n - 1)[k] == Window(buf, start, n)[1..][k]
    {
      assert start + 1 + k == start + (k + 1);
    }
  }

  /** A wrapped start names the same items. */
  lemma WindowWrap<T>(buf: seq<T>, start: nat, n: nat)
    requires IsPowerOfTwo(|buf|) && |buf| < WORD
    ensures Window(buf, Wrap(start), n) == Window(buf, start, n)
  {
    forall k: nat | k < n ensures Window(buf, Wrap(start), n)[k] == Window(buf, start, n)[k] {
      ShiftAfterWrap(start, k, |buf|);
    }
  }

  lemma {:induction false} ShiftAfterWrap(start: nat, k: nat, cap: nat)
    requires IsPowerOfTwo(cap) && cap < WORD
    ensures Slot(Wrap(start) + k, cap) == Slot(start + k, cap)
    decreases start
  {
    if start >= WORD {
      ShiftAfterWrap(start - WORD, k, cap);
      SlotAfterWrap(start + k, cap);
      SlotAfterWrap(start - WORD + k, cap);
    }
  }
}
