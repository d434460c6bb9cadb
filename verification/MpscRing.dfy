/** The multi-producer ring as an object, each call running alone. What
    interleaved calls do is the subject of MpscProtocol. */
module MpscRingObject {
  import opened Wrappers
  import opened Bits
  import opened Slots
  import opened RingWindow

  class MpscRing<T(0)> {
    const cap: nat
    const seqs: array<nat>
    const values: array<T>
    var head: nat
    var tail: nat

    /** Between calls every position of the window is free or published. */
    ghost predicate Valid()
      reads this, seqs, values
    {
      IsPowerOfTwo(cap) && seqs.Length == values.Length == cap && seqs as object != values &&
      tail <= head <= tail + cap &&
      forall p {:trigger Slot(p, cap)} :: tail <= p < tail + cap ==>
        seqs[Slot(p, cap)] == (if p < head then p + 1 else p)
    }

    ghost function Contents(): (q: seq<T>)
      requires Valid()
      reads this, seqs, values
      ensures |q| == head - tail
    {
      Window(values[..], tail, head - tail)
    }

    constructor (capacity: nat)
      requires IsPowerOfTwo(capacity)
      ensures Valid() && Contents() == [] && cap == capacity
      ensures fresh(seqs) && fresh(values)
    {
      cap := capacity;
      seqs := new nat[capacity](i => i);
      values := new T[capacity];
      head, tail := 0, 0;
    }

    /** Construction throws exactly when the capacity is not a power of two. */
    static method Create(capacity: nat) returns (r: Option<MpscRing<T>>)
      ensures r.Some? <==> exists k: nat :: capacity == Pow2(k)
      ensures r.Some? ==> fresh(r.value) && r.value.Valid() && r.value.Contents() == [] && r.value.cap == capacity
    {
      PowerOfTwoTrick(capacity);
      match ValidateCapacity(capacity)
      case None => r := None;
      case Some(c) =>
        var ring := new MpscRing(c);
        r := Some(ring);
    }

    /** `spurious` is how often the weak CAS fails for no reason. From two
        slots on, `false` means full; with one slot the call always succeeds,
        and on a full ring that overwrites the pending value. */
    method TryPush(v: T, spurious: nat) returns (ok: bool)
      requires Valid()
      modifies this`head, seqs, values
      ensures cap >= 2 ==> Valid() && ok == (old(|Contents()|) < cap)
      ensures cap >= 2 ==> Contents() == if ok then old(Contents()) + [v] else old(Contents())
      ensures cap == 1 ==> ok && (old(|Contents()|) == 1 ==> !Valid() && values[0] == v)
    {
      var pos := head;
      var failures := spurious;
      while true
        invariant pos == head == old(head)
        invariant Valid() && Contents() == old(Contents())
        decreases failures
      {
        CapacityMaskIsSlot(pos, cap);
        var i := And(pos, cap - 1);
        assert cap > 1 && pos == tail + cap ==> Slot(pos, cap) == Slot(tail, cap);
        if seqs[i] != pos {
          return false;
        }
        if failures == 0 {
          ghost var was := values[..];
          head := pos + 1;
          values[i] := v;
          seqs[i] := pos + 1;
          forall p | tail <= p < tail + cap && p != pos ensures cap >= 2 ==> Slot(p, cap) != i {
            if cap >= 2 && Slot(p, cap) == i { SlotInjective(if p < pos then p else pos, if p < pos then pos else p, cap); }
          }
          if cap >= 2 {
            WindowAppend(was, tail, pos - tail, v);
            assert values[..] == was[i := v];
          }
          return true;
        }
        failures := failures - 1;
      }
    }

    method TryPop() returns (r: Option<T>)
      requires Valid()
      modifies this`tail, seqs
      ensures Valid()
      ensures r == if old(Contents()) == [] then None else Some(old(Contents())[0])
      ensures Contents() == if r.Some? then old(Contents())[1..] else []
    {
      CapacityMaskIsSlot(tail, cap);
      var i := And(tail, cap - 1);
      if seqs[i] != tail + 1 {
        return None;
      }
      assert Slot(tail, cap) == i;
      WindowDrop(values[..], tail, head - tail);
      r := Some(values[i]);
      seqs[i] := tail + cap;
      forall p | tail < p < tail + cap ensures Slot(p, cap) != i {
        if Slot(p, cap) == i { SlotInjective(tail, p, cap); }
      }
      tail := tail + 1;
    }
  }
}
