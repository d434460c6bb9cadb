/** The blocking queue: its critical sections as an object, and the protocol of
    sleeping and waking around them as a step system. */
module BlockingQueueObject {
  import opened Wrappers

  /** How one pass through a critical section ends. `Sleeps` gives the lock up
      and waits; the pass is repeated after waking. */
  datatype PushOutcome = Pushed | Threw | PushSleeps
  datatype PopOutcome<T> = Popped(v: T) | Closed | PopSleeps

  /** `push` under the lock: closed is tested before room, and it throws. */
  function PushSection<T>(capacity: nat, q: seq<T>, closed: bool, v: T): (r: (PushOutcome, seq<T>))
    ensures r.0.Pushed? <==> !closed && |q| < capacity
    ensures r.0.Threw? <==> closed
    ensures r.1 == if r.0.Pushed? then q + [v] else q
  {
    if !(closed || |q| < capacity) then (PushSleeps, q)
    else if closed then (Threw, q)
    else (Pushed, q + [v])
  }

  /** `pop` under the lock: a closed queue is still drained. */
  function PopSection<T>(q: seq<T>, closed: bool): (r: (PopOutcome<T>, seq<T>))
    ensures r.0.Popped? <==> q != []
    ensures r.0.Closed? <==> q == [] && closed
    ensures q == if r.0.Popped? then [r.0.v] + r.1 else r.1
  {
    if !(closed || q != []) then (PopSleeps, q)
    else if q == [] then (Closed, q)
    else (Popped(q[0]), q[1..])
  }

  class BlockingQueue<T> {
    const capacity: nat
    var q: seq<T>
    var closed: bool

    ghost predicate Valid()
      reads this
    {
      capacity > 0 && |q| <= capacity
    }

    constructor (cap: nat)
      requires cap > 0
      ensures Valid() && q == [] && !closed && capacity == cap
    {
      capacity := cap;
      q := [];
      closed := false;
    }

    /** Construction throws exactly at capacity 0. */
    static method Create(cap: nat) returns (r: Option<BlockingQueue<T>>)
      ensures r.None? <==> cap == 0
      ensures r.Some? ==> fresh(r.value) && r.value.Valid() && r.value.q == [] && !r.value.closed
    {
      if cap == 0 {
        return None;
      }
      var b := new BlockingQueue<T>(cap);
      return Some(b);
    }

    method Push(v: T) returns (o: PushOutcome)
      requires Valid()
      modifies this`q
      ensures Valid()
      ensures (o, q) == PushSection(capacity, old(q), closed, v)
    {
      if !(closed || |q| < capacity) {
        return PushSleeps;
      }
      if closed {
        return Threw;
      }
      q := q + [v];
      return Pushed;
    }

    method Pop() returns (o: PopOutcome<T>)
      requires Valid()
      modifies this`q
      ensures Valid()
      ensures (o, q) == PopSection(old(q), closed)
    {
      if !(closed || q != []) {
        return PopSleeps;
      }
      if q == [] {
        return Closed;
      }
      var front := q[0];
      q := q[1..];
      return Popped(front);
    }

    method Close()
      requires Valid()
      modifies this`closed
      ensures Valid() && closed
    {
      closed := true;
    }
  }
}
