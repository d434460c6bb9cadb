/** The single-producer sequencer, the slot storage, and the single-consumer
    pipeline made of the two. */
module Sequencer {
  import opened Wrappers
  import opened Bits
  import opened Words
  import opened Slots
  import opened RingWindow
  import opened Gating

  /** `remaining_capacity` in unsigned 64-bit arithmetic. */
  function Remaining(capacity: nat, next: nat, gating: nat): (r: nat)
    requires capacity < WORD && next < WORD && gating < WORD
    ensures r < WORD
  {
    var inFlight := if gating == NONE then next else Sub64(Sub64(next, gating), 1);
    Sub64(capacity, inFlight)
  }

  /** With `claimed` sequences claimed and everything up to `Signed(gating)`
      consumed, the result is the free room as long as no more than `capacity`
      are in flight; beyond that the subtraction wraps to a huge value. */
  lemma RemainingIsFreeRoom(capacity: nat, claimed: nat, gating: nat)
    requires capacity < WORD && claimed < WORD && gating < WORD
    requires Signed(gating) < claimed
    ensures var inFlight := claimed - (Signed(gating) + 1);
            Remaining(capacity, claimed, gating) ==
            if inFlight <= capacity then capacity - inFlight else WORD + capacity - inFlight
    ensures Remaining(capacity, claimed, gating) == 0 <==> claimed - (Signed(gating) + 1) == capacity
    ensures Remaining(capacity, claimed, gating) == Sub64(capacity, Sub64(Sub64(claimed, gating), 1))
  {
  }

  class SingleProducerSequencer {
    const capacity: nat
    var next: nat
    var cursor: nat
    var gating: nat
    var gatingSequences: GatingSequences?

    ghost predicate Valid()
      reads this, gatingSequences, if gatingSequences == null then {} else {gatingSequences.sequences}
    {
      IsPowerOfTwo(capacity) && capacity < WORD && next < WORD && cursor < WORD && gating < WORD &&
      (gatingSequences != null ==> gatingSequences.Valid())
    }

    constructor (cap: nat)
      requires IsPowerOfTwo(cap) && cap < WORD
      ensures Valid() && capacity == cap && next == 0 && cursor == NONE && gating == NONE && gatingSequences == null
    {
      capacity := cap;
      next, cursor, gating := 0, NONE, NONE;
      gatingSequences := null;
    }

    method SetGatingSequences(g: GatingSequences?)
      requires Valid() && (g != null ==> g.Valid())
      modifies this`gatingSequences
      ensures Valid() && gatingSequences == g
    {
      gatingSequences := g;
    }

    /** The producer's own record of its consumer, or the minimum over the
        fan-out consumers once they have been set. */
    method GatingMin() returns (m: nat)
      requires Valid()
      ensures m < WORD
      ensures gatingSequences == null ==> m == gating
      ensures gatingSequences != null && gatingSequences.sequences.Length == 0 ==> m == NONE
      ensures gatingSequences != null && gatingSequences.sequences.Length > 0 ==>
                exists k :: 0 <= k < gatingSequences.sequences.Length && m == gatingSequences.sequences[k] &&
                  forall i :: 0 <= i < gatingSequences.sequences.Length ==> m <= gatingSequences.sequences[i]
    {
      if gatingSequences != null {
        m := gatingSequences.Min();
        assert forall i :: 0 <= i < gatingSequences.sequences.Length ==>
            gatingSequences.sequences[i] == gatingSequences.sequences[..][i];
      } else {
        m := gating;
      }
    }

    /** The room left: with the claimed and less the consumed it makes up the
        capacity, modulo 2^64. */
    method RemainingCapacity() returns (r: nat)
      requires Valid()
      ensures r < WORD
      ensures gatingSequences == null ==> Add64(r, next) == Add64(Signed(gating) + 1, capacity)
      ensures gatingSequences != null && gatingSequences.sequences.Length == 0 ==> Add64(r, next) == capacity
      ensures gatingSequences != null && gatingSequences.sequences.Length > 0 ==>
                exists k :: 0 <= k < gatingSequences.sequences.Length &&
                  (forall i :: 0 <= i < gatingSequences.sequences.Length ==>
                    gatingSequences.sequences[k] <= gatingSequences.sequences[i]) &&
                  Add64(r, next) == Add64(Signed(gatingSequences.sequences[k]) + 1, capacity)
    {
      var g := GatingMin();
      r := Remaining(capacity, next, g);
      assert Add64(r, next) == Add64(Signed(g) + 1, capacity);
    }

    /** Claims the next sequence unless exactly `capacity` are in flight past
        the internal sequence or the slowest scanned consumer. */
    method TryNext() returns (r: Option<nat>)
      requires Valid()
      modifies this`next
      ensures Valid()
      ensures gatingSequences == null ==>
                (r.None? <==> old(next) == Add64(Signed(gating) + 1, capacity))
      ensures gatingSequences != null && gatingSequences.sequences.Length == 0 ==>
                (r.None? <==> old(next) == capacity)
      ensures gatingSequences != null && gatingSequences.sequences.Length > 0 ==>
                exists k :: 0 <= k < gatingSequences.sequences.Length &&
                  (forall i :: 0 <= i < gatingSequences.sequences.Length ==>
                    gatingSequences.sequences[k] <= gatingSequences.sequences[i]) &&
                  (r.None? <==> old(next) == Add64(Signed(gatingSequences.sequences[k]) + 1, capacity))
      ensures r.None? ==> next == old(next)
      ensures r.Some? ==> r.value == old(next) && next == Add64(old(next), 1)
    {
      var room := RemainingCapacity();
      if room == 0 {
        return None;
      }
      r := Some(next);
      next := Add64(next, 1);
    }

    method Publish(sequence: nat)
      requires Valid() && sequence < WORD
      modifies this`cursor
      ensures Valid() && cursor == sequence
    {
      cursor := sequence;
    }

    method MarkConsumed(sequence: nat)
      requires Valid() && sequence < WORD
      modifies this`gating
      ensures Valid() && gating == sequence
    {
      gating := sequence;
    }

    method IsAvailable(sequence: nat) returns (b: bool)
      requires Valid()
      ensures b <==> sequence <= Signed(cursor)
    {
      if cursor == NONE {
        return false;
      }
      return sequence <= cursor;
    }
  }

  class SequencedRing<T(0)> {
    const capacity: nat
    const storage: array<T>

    ghost predicate Valid() {
      IsPowerOfTwo(capacity) && capacity < WORD && storage.Length == capacity > 0
    }

    constructor (cap: nat)
      requires IsPowerOfTwo(cap) && cap < WORD
      ensures Valid() && capacity == cap && fresh(storage)
    {
      capacity := cap;
      storage := new T[cap];
    }

    /** Construction throws exactly when the capacity is not a power of two. */
    static method Create(capacity: nat) returns (r: Option<SequencedRing<T>>)
      requires capacity < WORD
      ensures r.Some? <==> exists k: nat :: capacity == Pow2(k)
      ensures r.Some? ==> fresh(r.value) && r.value.Valid() && r.value.capacity == capacity
    {
      PowerOfTwoTrick(capacity);
      match ValidateCapacity(capacity)
      case None => r := None;
      case Some(c) =>
        var ring := new SequencedRing(c);
        r := Some(ring);
    }

    method Write(sequence: nat, v: T)
      requires Valid()
      modifies storage
      ensures storage[..] == old(storage[..])[Slot(sequence, capacity) := v]
    {
      CapacityMaskIsSlot(sequence, capacity);
      storage[And(sequence, capacity - 1)] := v;
    }

    method Read(sequence: nat) returns (v: T)
      requires Valid()
      ensures v == storage[Slot(sequence, capacity)]
    {
      CapacityMaskIsSlot(sequence, capacity);
      v := storage[And(sequence, capacity - 1)];
    }
  }

  /** Sequencer, storage and barrier for one consumer. */
  class EventPipeline<T(0)> {
    const sequencer: SingleProducerSequencer
    const ring: SequencedRing<T>
    ghost const Repr: set<object>

    /** Between events: everything claimed is published, and between 0 and
        `capacity` of it is not yet consumed. */
    ghost predicate Valid()
      reads this, sequencer, ring.storage
    {
      Repr == {sequencer, ring.storage} &&
      sequencer.gatingSequences == null && sequencer.Valid() && ring.Valid() && ring.capacity == sequencer.capacity &&
      Signed(sequencer.cursor) == sequencer.next - 1 &&
      Consumed() <= sequencer.next <= Consumed() + ring.capacity
    }

    /** How many events have been consumed. */
    ghost function Consumed(): (n: nat)
      reads this, sequencer
    {
      Signed(sequencer.gating) + 1
    }

    ghost function Contents(): seq<T>
      requires Valid()
      reads this, sequencer, ring.storage
    {
      Window(ring.storage[..], Consumed(), sequencer.next - Consumed())
    }

    constructor (cap: nat)
      requires IsPowerOfTwo(cap) && cap < WORD
      ensures Valid() && fresh(Repr) && Contents() == [] && ring.capacity == cap
      ensures sequencer.next == 0
    {
      var s := new SingleProducerSequencer(cap);
      var r := new SequencedRing<T>(cap);
      sequencer, ring := s, r;
      Repr := {s, r.storage};
    }

    /** The producer's turn: claim, write, publish. Sequences stop before the
        sentinel, as a 64-bit message count does. */
    method Offer(v: T) returns (ok: bool)
      requires Valid() && sequencer.next < NONE
      modifies Repr
      ensures Valid() && Consumed() == old(Consumed())
      ensures ok == (old(|Contents()|) < ring.capacity)
      ensures Contents() == if ok then old(Contents()) + [v] else old(Contents())
    {
      ghost var was, n, first := ring.storage[..], sequencer.next, Consumed();
      var claim := sequencer.TryNext();
      match claim
      case None => ok := false;
      case Some(sequence) =>
        ring.Write(sequence, v);
        sequencer.Publish(sequence);
        WindowAppend(was, first, n - first, v);
        ok := true;
    }

    /** The consumer's turn on the next sequence, when it is available. */
    method Take() returns (r: Option<T>)
      requires Valid()
      modifies Repr
      ensures Valid()
      ensures r == if old(Contents()) == [] then None else Some(old(Contents())[0])
      ensures Contents() == if r.Some? then old(Contents())[1..] else []
      ensures Consumed() == old(Consumed()) + (if r.Some? then 1 else 0)
    {
      var expected := if sequencer.gating == NONE then 0 else sequencer.gating + 1;
      var available := sequencer.IsAvailable(expected);
      if !available {
        return None;
      }
      WindowDrop(ring.storage[..], expected, sequencer.next - expected);
      var v := ring.Read(expected);
      sequencer.MarkConsumed(expected);
      return Some(v);
    }
  }
}
