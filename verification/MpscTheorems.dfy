/** What the ring promises, for every run of the step system: it is a FIFO in
    claim order, no payload is read or written by two threads at once, claims
    are exclusive, failures have a reason, and it never gets stuck. */
module MpscTheorems {
  import opened Wrappers
  import opened Slots
  import opened Bits
  import opened Fifo
  import opened MpscProtocol
  import opened MpscInvariant

  // ----- refinement of a FIFO ordered by claim

  function Values<T>(log: seq<Claim<T>>): (vs: seq<T>)
    ensures |vs| == |log|
  {
    seq(|log|, i requires 0 <= i < |log| => log[i].v)
  }

  /** The claimed and not yet popped values, oldest first. */
  ghost function Pending<T>(s: State<T>): seq<T>
    requires s.tail <= |s.log|
  {
    Values(s.log)[s.tail..]
  }

  ghost function EventOf<T>(s: State<T>, l: Label<T>): seq<Event<T>>
    requires Enabled(s, l)
  {
    match l
    case StartPush(_, v) => [Enq(v)]
    case CasOk(t) => [Enq(s.prod[t].v)]
    case PopAdvance => [Deq(s.cons.out)]
    case _ => []
  }

  ghost function Events<T>(s: State<T>, ls: seq<Label<T>>): seq<Event<T>>
    requires Exec(s, ls).Some?
    decreases |ls|
  {
    if ls == [] then [] else EventOf(s, ls[0]) + Events(Apply(s, ls[0]), ls[1..])
  }

  lemma PendingAfterClaim<T>(s: State<T>, t: nat, v: T)
    requires s.tail <= |s.log|
    ensures Pending(TakeHead(s, t, v)) == Pending(s) + [v]
  {
    assert Values(s.log + [Claim(t, v)]) == Values(s.log) + [v];
  }

  lemma StepRefinesFifo<T>(s: State<T>, l: Label<T>)
    requires Inv(s) && Enabled(s, l)
    ensures Apply(s, l).tail <= |Apply(s, l).log|
    ensures Replay(Pending(s), EventOf(s, l)) == Some(Pending(Apply(s, l)))
  {
    var s' := Apply(s, l);
    StepKeepsInv(s, l);
    match l
    case StartPush(_, v) =>
      PendingAfterClaim(s, l.t, v);
      assert Pending(s') == Pending(s) + [v];
    case CasOk(t) =>
      PendingAfterClaim(s, t, s.prod[t].v);
      assert Pending(s') == Pending(s) + [s.prod[t].v];
    case PopAdvance =>
      assert Pending(s)[0] == s.cons.out;
      assert Pending(s') == Pending(s)[1..];
    case _ =>
      assert s'.log == s.log && s'.tail == s.tail;
  }

  /** Every run replays on the FIFO, claim by claim and pop by pop. */
  lemma {:induction false} RunRefinesFifo<T>(s: State<T>, ls: seq<Label<T>>)
    requires Inv(s) && Exec(s, ls).Some?
    ensures Inv(Exec(s, ls).value)
    ensures Replay(Pending(s), Events(s, ls)) == Some(Pending(Exec(s, ls).value))
    decreases |ls|
  {
    if ls != [] {
      var s1, e := Apply(s, ls[0]), EventOf(s, ls[0]);
      StepRefinesFifo(s, ls[0]);
      StepKeepsInv(s, ls[0]);
      RunRefinesFifo(s1, ls[1..]);
      var end := Exec(s1, ls[1..]).value;
      ReplayThen(Pending(s), e, Pending(s1), Events(s1, ls[1..]), Pending(end));
    }
  }

  lemma StepPopsAreDequeues<T>(s: State<T>, l: Label<T>)
    requires Enabled(s, l)
    ensures Apply(s, l).popped == s.popped + Dequeued(EventOf(s, l))
  {
    if l.PopAdvance? {
      assert Dequeued(EventOf(s, l)) == [s.cons.out];
    } else {
      assert Dequeued(EventOf(s, l)) == [];
    }
  }

  /** What `try_pop` returns is what the FIFO hands out. */
  lemma {:induction false} PopsAreDequeues<T>(s: State<T>, ls: seq<Label<T>>)
    requires Exec(s, ls).Some?
    ensures Exec(s, ls).value.popped == s.popped + Dequeued(Events(s, ls))
    decreases |ls|
  {
    if ls != [] {
      var s1, e := Apply(s, ls[0]), EventOf(s, ls[0]);
      PopsAreDequeues(s1, ls[1..]);
      StepPopsAreDequeues(s, ls[0]);
      DequeuedThen(s.popped, e, Events(s1, ls[1..]));
    }
  }

  /** The k-th successful pop returns the value of the one producer that claimed k. */
  lemma PopsFollowClaims<T(!new)>(cap: nat, producers: nat, s: State<T>)
    requires cap >= 2 && Reachable(cap, producers, s)
    ensures s.tail <= |s.log| && |s.popped| == s.tail && |s.log| == s.head
    ensures s.popped == Values(s.log)[..s.tail]
  {
    ReachableInv(cap, producers, s);
  }

  /** Over a whole run from the start: what was claimed, in claim order, is
      what was popped followed by what is still pending. */
  lemma NothingLostOrRepeated<T>(cap: nat, producers: nat, ls: seq<Label<T>>)
    requires cap >= 2 && Exec(Init<T>(cap, producers), ls).Some?
    ensures var s := Exec(Init<T>(cap, producers), ls).value;
            s.tail <= |s.log| && Enqueued(Events(Init<T>(cap, producers), ls)) == s.popped + Pending(s)
  {
    var s0 := Init<T>(cap, producers);
    InitInv<T>(cap, producers);
    RunRefinesFifo(s0, ls);
    PopsAreDequeues(s0, ls);
    ReplayConserves(Pending(s0), Events(s0, ls));
    var es := Events(s0, ls);
    assert Pending(s0) + Enqueued(es) == Enqueued(es);
    assert s0.popped + Dequeued(es) == Dequeued(es);
  }

  // ----- no two threads touch a payload at once

  predicate Touches<T>(p: Producer<T>) {
    p.Ready? || p.Writing? || p.Written?
  }

  /** Two producers never write the same slot, the consumer never copies a slot
      that a producer may write, a payload being written is incomplete, and
      what the consumer copies is complete. */
  lemma NoPayloadRace<T>(s: State<T>, t: nat)
    requires Inv(s) && t < |s.prod|
    ensures forall j :: 0 <= j < |s.prod| && j != t && Touches(s.prod[t]) && Touches(s.prod[j]) ==>
              Slot(s.prod[j].pos, s.cap) != Slot(s.prod[t].pos, s.cap)
    ensures (s.cons.Seen? || s.cons.Copied?) && Touches(s.prod[t]) ==>
              Slot(s.prod[t].pos, s.cap) != Slot(s.tail, s.cap)
    ensures s.prod[t].Writing? ==> CellAt(s, s.prod[t].pos).value == None
    ensures s.cons.Seen? || s.cons.Copied? ==> CellAt(s, s.tail).value == Some(s.log[s.tail].v)
  {
    assert ProducerOk(s, t);
    if Touches(s.prod[t]) {
      forall j | 0 <= j < |s.prod| && j != t && Touches(s.prod[j])
        ensures Slot(s.prod[j].pos, s.cap) != Slot(s.prod[t].pos, s.cap)
      {
        assert ProducerOk(s, j);
        OwnersUseDistinctSlots(s, t, s.prod[j].pos);
      }
      if s.cons.Seen? || s.cons.Copied? {
        OwnersUseDistinctSlots(s, t, s.tail);
        assert s.prod[t].pos == s.tail ==> Held(s, s.tail);
      }
    }
    assert SlotOk(s, s.tail) || s.cons.Recycled?;
  }

  /** Between operations the cells are laid out as the ring object's `Valid`
      says: free or published, each published payload the claimed value. */
  lemma IdleRingLayout<T>(s: State<T>, p: nat)
    requires Inv(s) && s.cons.Resting? && (forall t :: 0 <= t < |s.prod| ==> !Owns(s.prod[t]))
    ensures s.tail <= s.head <= s.tail + s.cap
    ensures s.tail <= p < s.tail + s.cap ==> Seq(CellAt(s, p)) == (if p < s.head then p + 1 else p)
    ensures s.tail <= p < s.head ==> CellAt(s, p).value == Some(s.log[p].v)
  {
    OvershootIsSpinners(s);
    assert Spinners(s) == {};
    if s.tail <= p < s.tail + s.cap {
      assert SlotOk(s, p);
    }
  }

  // ----- sequence numbers only grow, and fit in 64 bits

  /** No store repeats a number a cell has held, so equality with a message
      identifies one moment of the cell's life. */
  lemma SeqsNeverRepeat<T>(s: State<T>, l: Label<T>, k: nat)
    requires Inv(s) && Enabled(s, l) && k < s.cap
    ensures s.cells[k].hist <= Apply(s, l).cells[k].hist
    ensures Apply(s, l).cells[k].hist == s.cells[k].hist || Seq(Apply(s, l).cells[k]) > Seq(s.cells[k])
    ensures Increasing(Apply(s, l).cells[k].hist)
  {
    StepKeepsInv(s, l);
    var h := Apply(s, l).cells[k].hist;
    assert Increasing(h);
    assert s.cells[k].hist <= h;
    if h != s.cells[k].hist {
      assert h[|h| - 2] < h[|h| - 1];
    }
  }

  /** While head + cap stays within 64 bits, no number the ring stores or
      compares wraps around. */
  lemma NumbersFitInWord<T>(s: State<T>, k: nat, m: nat)
    requires Inv(s) && s.head + s.cap < WORD
    requires k < s.cap && m < |s.cells[k].hist|
    ensures s.cells[k].hist[m] < WORD && s.tail + s.cap < WORD && s.tail + 1 < WORD
    ensures forall t :: 0 <= t < |s.prod| && !s.prod[t].Idle? ==> s.prod[t].pos + 1 < WORD
  {
    MessageBound(s.cells[k], m);
    var p := PositionOf(Base(s), k, s.cap);
    assert SlotOk(s, p);
    forall t | 0 <= t < |s.prod| && !s.prod[t].Idle? ensures s.prod[t].pos + 1 < WORD {
      assert ProducerOk(s, t);
    }
  }

  // ----- try_push

  /** The thread a step belongs to, if it is a producer's. */
  predicate IsStepOf<T>(l: Label<T>, t: nat) {
    !l.PopCheck? && !l.PopCopy? && !l.PopRecycle? && !l.PopAdvance? && l.t == t
  }

  /** `try_push` returns `false` at the check alone, never at the CAS, and for
      a reason: the message was stale, someone else had taken the position, or
      the ring had at least `cap` claimed positions not handed back. */
  lemma FailureHasWitness<T>(s: State<T>, l: Label<T>, t: nat)
    requires Inv(s) && Enabled(s, l) && t < |s.prod|
    requires (s.prod[t].Loaded? || s.prod[t].Checked?) && Apply(s, l).prod[t].Idle?
    ensures l.CheckSeq? && l.t == t
    ensures var pos := s.prod[t].pos;
            l.m + 1 < |CellAt(s, pos).hist| ||
            (if pos < s.head then s.log[pos].owner != t && s.log[pos].owner < |s.prod|
             else s.head >= Base(s) + s.cap)
  {
    assert ProducerOk(s, t);
    var pos := s.prod[t].pos;
    if s.head < Base(s) + s.cap {
      assert SlotOk(s, s.head);
    }
  }

  /** A fresh check passes exactly when its position is in the window and not
      published: free, or claimed by a producer still on its way. */
  lemma FreshCheckPassesIff<T>(s: State<T>, t: nat, m: nat)
    requires Inv(s) && Enabled(s, CheckSeq(t, m))
    requires m + 1 == |CellAt(s, s.prod[t].pos).hist|
    ensures var p := s.prod[t];
            Apply(s, CheckSeq(t, m)) ==
            SetProd(s, t, if Base(s) <= p.pos < Base(s) + s.cap && (p.pos < s.head ==> Held(s, p.pos))
                          then Checked(p.pos, p.v) else Idle)
  {
    var pos := s.prod[t].pos;
    if pos >= Base(s) {
      SeqBound(s, pos);
      if pos < Base(s) + s.cap {
        assert SlotOk(s, pos);
      }
    } else {
      var q := NextUse(Base(s), pos, s.cap);
      assert SlotOk(s, q);
    }
  }

  /** The position of the window `[base, base + cap)` that reuses the slot of
      an earlier position `p`. */
  lemma {:induction false} NextUse(base: nat, p: nat, cap: nat) returns (q: nat)
    requires cap > 0 && p < base
    ensures base <= q < base + cap && Slot(q, cap) == Slot(p, cap) && q >= p + cap
    decreases base - p
  {
    if p + cap < base {
      q := NextUse(base, p + cap, cap);
    } else {
      q := p + cap;
    }
  }

  /** With an up-to-date position and load, `false` means exactly "full", at
      whatever step of its call the producer is. */
  lemma FreshFailureIffFull<T>(s: State<T>, l: Label<T>, t: nat)
    requires Inv(s) && Enabled(s, l) && t < |s.prod| && IsStepOf(l, t)
    requires (s.prod[t].Loaded? || s.prod[t].Checked?) && s.prod[t].pos == s.head
    requires l.CheckSeq? ==> l.m + 1 == |CellAt(s, s.head).hist|
    ensures Apply(s, l).prod[t].Idle? <==> s.head - Base(s) >= s.cap
  {
    assert ProducerOk(s, t);
    SeqBound(s, s.head);
    if s.head < Base(s) + s.cap {
      assert SlotOk(s, s.head);
    }
  }

  // ----- how far claims can run ahead of the consumer

  /** Producers waiting in `push` on a position outside the window. */
  ghost function Spinners<T>(s: State<T>): set<nat> {
    set t | 0 <= t < |s.prod| && s.prod[t].Claimed? && s.prod[t].pos >= Base(s) + s.cap
  }

  ghost function OwnersIn<T>(s: State<T>, lo: nat, hi: nat): set<nat>
    requires hi <= |s.log|
  {
    set p | lo <= p < hi :: s.log[p].owner
  }

  lemma {:induction false} OwnersAreDistinct<T>(s: State<T>, hi: nat)
    requires Inv(s) && Base(s) + s.cap <= hi <= s.head
    ensures |OwnersIn(s, Base(s) + s.cap, hi)| == hi - (Base(s) + s.cap)
    decreases hi
  {
    var lo := Base(s) + s.cap;
    if lo < hi {
      OwnersAreDistinct(s, hi - 1);
      var t := s.log[hi - 1].owner;
      assert Held(s, hi - 1);
      forall p | lo <= p < hi - 1 ensures s.log[p].owner != t {
        assert Held(s, p);
      }
      assert OwnersIn(s, lo, hi) == OwnersIn(s, lo, hi - 1) + {t};
    }
  }

  /** The overshoot is exactly the number of producers spinning outside the window. */
  lemma OvershootIsSpinners<T>(s: State<T>)
    requires Inv(s)
    ensures |Spinners(s)| == if s.head > Base(s) + s.cap then s.head - (Base(s) + s.cap) else 0
    ensures s.head - Base(s) <= s.cap + |Spinners(s)|
  {
    var lo := Base(s) + s.cap;
    if s.head > lo {
      OwnersAreDistinct(s, s.head);
      var os := OwnersIn(s, lo, s.head);
      forall t ensures t in Spinners(s) <==> t in os {
        if t in Spinners(s) {
          assert ProducerOk(s, t);
          assert s.log[s.prod[t].pos].owner == t;
        }
        if t in os {
          var p :| lo <= p < s.head && s.log[p].owner == t;
          assert Held(s, p);
          assert ProducerOk(s, t);
        }
      }
      assert Spinners(s) == os;
    } else {
      forall t | 0 <= t < |s.prod| ensures t !in Spinners(s) {
        assert ProducerOk(s, t);
      }
      assert Spinners(s) == {};
    }
  }

  ghost predicate TryOnly<T>(ls: seq<Label<T>>) {
    forall i :: 0 <= i < |ls| ==> !ls[i].StartPush?
  }

  /** Runs that only use `try_push` never hold more than `cap` positions. */
  lemma {:induction false} TryOnlyStaysWithinCapacity<T>(s: State<T>, ls: seq<Label<T>>)
    requires Inv(s) && Exec(s, ls).Some? && TryOnly(ls)
    requires forall t :: 0 <= t < |s.prod| ==> !s.prod[t].Claimed?
    ensures Exec(s, ls).value.head - Base(Exec(s, ls).value) <= s.cap
    decreases |ls|
  {
    if ls == [] {
      OvershootIsSpinners(s);
      assert Spinners(s) == {};
    } else {
      StepKeepsInv(s, ls[0]);
      assert forall i :: 0 <= i < |ls[1..]| ==> ls[1..][i] == ls[i + 1];
      TryOnlyStaysWithinCapacity(Apply(s, ls[0]), ls[1..]);
    }
  }
}
