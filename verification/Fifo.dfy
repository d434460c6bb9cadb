/** The plain first-in-first-out queue that the rings and the blocking queue
    are compared with. */
module Fifo {
  import opened Wrappers

  datatype Event<T> = Enq(v: T) | Deq(v: T)

  /** The queue after the events, or None when a Deq does not return its head. */
  ghost function Replay<T>(q: seq<T>, es: seq<Event<T>>): Option<seq<T>>
    decreases |es|
  {
    if es == [] then Some(q)
    else match es[0]
      case Enq(v) => Replay(q + [v], es[1..])
      case Deq(v) => if q != [] && q[0] == v then Replay(q[1..], es[1..]) else None
  }

  ghost function Enqueued<T>(es: seq<Event<T>>): seq<T> {
    if es == [] then [] else (if es[0].Enq? then [es[0].v] else []) + Enqueued(es[1..])
  }

  ghost function Dequeued<T>(es: seq<Event<T>>): seq<T> {
    if es == [] then [] else (if es[0].Deq? then [es[0].v] else []) + Dequeued(es[1..])
  }

  lemma {:induction false} ReplayConcat<T>(q: seq<T>, a: seq<Event<T>>, b: seq<Event<T>>)
    requires Replay(q, a).Some?
    ensures Replay(q, a + b) == Replay(Replay(q, a).value, b)
    decreases |a|
  {
    if a == [] {
      assert a + b == b;
    } else {
      assert (a + b)[1..] == a[1..] + b;
      match a[0]
      case Enq(v) => ReplayConcat(q + [v], a[1..], b);
      case Deq(v) => ReplayConcat(q[1..], a[1..], b);
    }
  }

  /** Two accepted histories in a row are an accepted history. */
  lemma ReplayThen<T>(q: seq<T>, a: seq<Event<T>>, mid: seq<T>, b: seq<Event<T>>, end: seq<T>)
    requires Replay(q, a) == Some(mid) && Replay(mid, b) == Some(end)
    ensures Replay(q, a + b) == Some(end)
  {
    ReplayConcat(q, a, b);
  }

  lemma {:induction false} DequeuedConcat<T>(a: seq<Event<T>>, b: seq<Event<T>>)
    ensures Dequeued(a + b) == Dequeued(a) + Dequeued(b)
    decreases |a|
  {
    if a == [] {
      assert a + b == b;
    } else {
      var first := if a[0].Deq? then [a[0].v] else [];
      DequeuedConcat(a[1..], b);
      assert (a + b)[0] == a[0] && (a + b)[1..] == a[1..] + b;
      assert Dequeued(a + b) == first + (Dequeued(a[1..]) + Dequeued(b));
      assert first + (Dequeued(a[1..]) + Dequeued(b)) == (first + Dequeued(a[1..])) + Dequeued(b);
    }
  }

  lemma DequeuedThen<T>(out: seq<T>, a: seq<Event<T>>, b: seq<Event<T>>)
    ensures (out + Dequeued(a)) + Dequeued(b) == out + Dequeued(a + b)
  {
    DequeuedConcat(a, b);
  }

  /** A history the queue accepts loses, repeats and reorders nothing. */
  lemma {:induction false} ReplayConserves<T>(q: seq<T>, es: seq<Event<T>>)
    requires Replay(q, es).Some?
    ensures q + Enqueued(es) == Dequeued(es) + Replay(q, es).value
    decreases |es|
  {
    if es == [] {
    } else {
      var e, rest := es[0], es[1..];
      match e
      case Enq(v) =>
        ReplayConserves(q + [v], rest);
        EnqRegroups(q, v, Enqueued(rest), Dequeued(rest), Replay(q, es).value);
      case Deq(v) =>
        ReplayConserves(q[1..], rest);
        DeqRegroups(q, v, Enqueued(rest), Dequeued(rest), Replay(q, es).value);
    }
  }

  lemma EnqRegroups<T>(q: seq<T>, v: T, entered: seq<T>, left: seq<T>, end: seq<T>)
    requires (q + [v]) + entered == left + end
    ensures q + ([v] + entered) == ([] + left) + end
  {
    assert q + ([v] + entered) == (q + [v]) + entered;
    assert [] + left == left;
  }

  lemma DeqRegroups<T>(q: seq<T>, v: T, entered: seq<T>, left: seq<T>, end: seq<T>)
    requires q != [] && q[0] == v && q[1..] + entered == left + end
    ensures q + ([] + entered) == ([v] + left) + end
  {
    assert q == [v] + q[1..];
    assert [] + entered == entered;
    assert q + entered == [v] + (q[1..] + entered);
    assert ([v] + left) + end == [v] + (left + end);
  }
}
