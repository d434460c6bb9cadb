/** The single-producer single-consumer ring as an object with wrapping
    64-bit counters, each call running alone. */
module SpscRingObject {
  import opened Bits
  import opened Words
  import opened Wrappers
  import opened Slots
  import opened RingWindow

  class SpscRing<T(0)> {
    const cap: nat
    const buf: array<T>
    var head: nat
    var tail: nat

    ghost predicate Valid()
      reads this
    {
      IsPowerOfTwo(cap) && cap < WORD && buf.Length == cap > 0 &&
      head < WORD && tail < WORD && Sub64(head, tail) <= cap
    }

    ghost function Contents(): (q: seq<T>)
      requires Valid()
      reads this, buf
    {
      Window(buf[..], tail, Sub64(head, tail))
    }

    /** The counters start equal; the program starts them at 0. */
    constructor (capacity: nat, start: nat)
      requires IsPowerOfTwo(capacity) && capacity < WORD && start < WORD
      ensures Valid() && Contents() == [] && cap == capacity && head == tail == start && fresh(buf)
    {
      cap := capacity;
      buf := new T[capacity];
      head, tail := start, start;
    }

    /** Construction throws exactly when the capacity is not a power of two;
        the counters of a new ring are 0. */
    static method Create(capacity: nat) returns (r: Option<SpscRing<T>>)
      requires capacity < WORD
      ensures r.Some? <==> exists k: nat :: capacity == Pow2(k)
      ensures r.Some? ==> fresh(r.value) && r.value.Valid() && r.value.Contents() == [] &&
                          r.value.cap == capacity && r.value.head == 0
    {
      PowerOfTwoTrick(capacity);
      match ValidateCapacity(capacity)
      case None => r := None;
      case Some(c) =>
        var ring := new SpscRing(c, 0);
        r := Some(ring);
    }

    method TryPush(v: T) returns (ok: bool)
      requires Valid()
      modifies this`head, buf
      ensures Valid()
      ensures ok == (old(|Contents()|) < cap)
      ensures Contents() == if ok then old(Contents()) + [v] else old(Contents())
    {
      HalfWord(cap);
      var next := Add64(head, 1);
      ghost var n, was := Sub64(head, tail), buf[..];
      if Sub64(next, tail) > cap {
        return false;
      }
      CapacityMaskIsSlot(head, cap);
      SlotAfterWrap(tail + n, cap);
      WrapOnce(tail + n);
      WindowAppend(was, tail, n, v);
      buf[And(head, cap - 1)] := v;
      head := next;
      assert buf[..] == was[Slot(tail + n, cap) := v];
      return true;
    }

    method TryPop() returns (r: Option<T>)
      requires Valid()
      modifies this`tail
      ensures Valid()
      ensures r == if old(Contents()) == [] then None else Some(old(Contents())[0])
      ensures Contents() == if r.Some? then old(Contents())[1..] else []
    {
      HalfWord(cap);
      if head == tail {
        return None;
      }
      CapacityMaskIsSlot(tail, cap);
      WindowDrop(buf[..], tail, Sub64(head, tail));
      WrapOnce(tail + 1);
      WindowWrap(buf[..], tail + 1, Sub64(head, tail) - 1);
      r := Some(buf[And(tail, cap - 1)]);
      tail := Add64(tail, 1);
    }
  }
}
