/** Sleeping and waking in the blocking queue, for any number of threads,
    with `notify_one`, spurious wake-ups and any choice of the woken thread. */
module BlockingProtocol {
  import opened Wrappers
  import opened Fifo
  import opened BlockingQueueObject

  datatype Op<T> = Push(v: T) | Pop

  /** A Waiting thread sleeps on its condition variable and nobody has woken
      it; a Signalled one was notified and a Woken one woke up for no reason,
      and both will take the lock again and retest. */
  datatype Thread<T> = Outside | Waiting(op: Op<T>) | Signalled(op: Op<T>) | Woken(op: Op<T>)

  datatype State<T> = State(capacity: nat, q: seq<T>, closed: bool, threads: seq<Thread<T>>)

  /** `pick` is the thread that `notify_one` wakes if the step notifies. */
  datatype Label<T> =
    | Enter(t: nat, op: Op<T>, pick: nat)
    | Resume(t: nat, pick: nat)
    | WakeSpuriously(t: nat)
    | Close

  predicate Waits<T>(th: Thread<T>, pops: bool) {
    th.Waiting? && th.op.Pop? == pops
  }

  predicate IsSignalled<T>(th: Thread<T>, pops: bool) {
    th.Signalled? && th.op.Pop? == pops
  }

  ghost predicate SomeWaits<T>(ts: seq<Thread<T>>, pops: bool) {
    exists i :: 0 <= i < |ts| && Waits(ts[i], pops)
  }

  function CountSignalled<T>(ts: seq<Thread<T>>, pops: bool): nat {
    if ts == [] then 0 else (if IsSignalled(ts[0], pops) then 1 else 0) + CountSignalled(ts[1..], pops)
  }

  /** `notify_one` on the consumers' or the producers' condition variable. */
  function NotifyOne<T>(ts: seq<Thread<T>>, pops: bool, pick: nat): seq<Thread<T>> {
    if pick < |ts| && Waits(ts[pick], pops) then ts[pick := Signalled(ts[pick].op)] else ts
  }

  /** `notify_all` on both condition variables. */
  function NotifyAll<T>(ts: seq<Thread<T>>): (r: seq<Thread<T>>)
    ensures |r| == |ts|
  {
    seq(|ts|, i requires 0 <= i < |ts| => if ts[i].Waiting? then Signalled(ts[i].op) else ts[i])
  }

  ghost predicate GoodPick<T>(ts: seq<Thread<T>>, pops: bool, pick: nat) {
    SomeWaits(ts, pops) ==> pick < |ts| && Waits(ts[pick], pops)
  }

  /** A full pass of thread `t` through the critical section of `op`. */
  function Section<T>(s: State<T>, t: nat, op: Op<T>, pick: nat): State<T>
    requires t < |s.threads|
  {
    var out := s.threads[t := Outside];
    match op
    case Push(v) =>
      var r := PushSection(s.capacity, s.q, s.closed, v);
      if r.0.PushSleeps? then s.(threads := s.threads[t := Waiting(op)])
      else s.(q := r.1, threads := if r.0.Pushed? then NotifyOne(out, true, pick) else out)
    case Pop =>
      var r := PopSection(s.q, s.closed);
      if r.0.PopSleeps? then s.(threads := s.threads[t := Waiting(op)])
      else s.(q := r.1, threads := if r.0.Popped? then NotifyOne(out, false, pick) else out)
  }

  ghost predicate Enabled<T>(s: State<T>, l: Label<T>) {
    match l
    case Enter(t, op, pick) =>
      t < |s.threads| && s.threads[t].Outside? && GoodPick(s.threads[t := Outside], op.Push?, pick)
    case Resume(t, pick) =>
      t < |s.threads| && (s.threads[t].Signalled? || s.threads[t].Woken?) &&
      GoodPick(s.threads[t := Outside], s.threads[t].op.Push?, pick)
    case WakeSpuriously(t) => t < |s.threads| && s.threads[t].Waiting?
    case Close => true
  }

  function Apply<T>(s: State<T>, l: Label<T>): State<T>
    requires Enabled(s, l)
  {
    match l
    case Enter(t, op, pick) => Section(s, t, op, pick)
    case Resume(t, pick) => Section(s, t, s.threads[t].op, pick)
    case WakeSpuriously(t) => s.(threads := s.threads[t := Woken(s.threads[t].op)])
    case Close => s.(closed := true, threads := NotifyAll(s.threads))
  }

  function Init<T>(capacity: nat, threads: nat): State<T> {
    State(capacity, [], false, seq(threads, (i: nat) => Outside))
  }

  ghost function Exec<T>(s: State<T>, ls: seq<Label<T>>): Option<State<T>>
    decreases |ls|
  {
    if ls == [] then Some(s)
    else if Enabled(s, ls[0]) then Exec(Apply(s, ls[0]), ls[1..])
    else None
  }

  // ----- the invariant

  /** Every sleeper's reason to wake has been handed to a signalled thread. */
  ghost predicate WakeupsCover<T>(ts: seq<Thread<T>>, pops: bool, units: int) {
    SomeWaits(ts, pops) ==> units <= CountSignalled(ts, pops)
  }

  ghost predicate Inv<T>(s: State<T>) {
    s.capacity > 0 && |s.q| <= s.capacity &&
    WakeupsCover(s.threads, true, |s.q|) &&
    WakeupsCover(s.threads, false, s.capacity - |s.q|) &&
    (s.closed ==> !SomeWaits(s.threads, true) && !SomeWaits(s.threads, false))
  }

  // ----- counting

  lemma {:induction false} CountUpdate<T>(ts: seq<Thread<T>>, t: nat, th: Thread<T>, pops: bool)
    requires t < |ts|
    ensures CountSignalled(ts[t := th], pops) ==
            CountSignalled(ts, pops) - (if IsSignalled(ts[t], pops) then 1 else 0) + (if IsSignalled(th, pops) then 1 else 0)
  {
    if t == 0 {
      assert ts[t := th][1..] == ts[1..];
    } else {
      assert ts[t := th][1..] == ts[1..][t - 1 := th];
      CountUpdate(ts[1..], t - 1, th, pops);
    }
  }

  lemma {:induction false} CountPositive<T>(ts: seq<Thread<T>>, pops: bool) returns (t: nat)
    requires CountSignalled(ts, pops) > 0
    ensures t < |ts| && IsSignalled(ts[t], pops)
  {
    if IsSignalled(ts[0], pops) {
      t := 0;
    } else {
      t := CountPositive(ts[1..], pops);
      t := t + 1;
    }
  }

  /** A notification that adds one unit also signals one more sleeper. */
  lemma NotifyCovers<T>(ts: seq<Thread<T>>, pops: bool, pick: nat, units: int)
    requires WakeupsCover(ts, pops, units) && GoodPick(ts, pops, pick)
    ensures WakeupsCover(NotifyOne(ts, pops, pick), pops, units + 1)
    ensures CountSignalled(NotifyOne(ts, pops, pick), !pops) == CountSignalled(ts, !pops)
    ensures SomeWaits(NotifyOne(ts, pops, pick), !pops) ==> SomeWaits(ts, !pops)
    ensures SomeWaits(NotifyOne(ts, pops, pick), pops) ==> SomeWaits(ts, pops)
  {
    var r := NotifyOne(ts, pops, pick);
    if pick < |ts| && Waits(ts[pick], pops) {
      CountUpdate(ts, pick, Signalled(ts[pick].op), pops);
      CountUpdate(ts, pick, Signalled(ts[pick].op), !pops);
    }
    forall k: bool | SomeWaits(r, k) ensures SomeWaits(ts, k) {
      var i :| 0 <= i < |r| && Waits(r[i], k);
      assert Waits(ts[i], k);
    }
  }

  /** A thread that stops being signalled may take one unit with it. */
  lemma LeaveCovers<T>(ts: seq<Thread<T>>, t: nat, th: Thread<T>, pops: bool, units: int)
    requires t < |ts| && !ts[t].Waiting? && !th.Signalled?
    requires WakeupsCover(ts, pops, units)
    ensures !Waits(th, pops) ==> SomeWaits(ts[t := th], pops) ==> SomeWaits(ts, pops)
    ensures !Waits(th, pops) ==> WakeupsCover(ts[t := th], pops, units - (if IsSignalled(ts[t], pops) then 1 else 0))
    ensures units <= 0 ==> WakeupsCover(ts[t := th], pops, units)
  {
    CountUpdate(ts, t, th, pops);
    if !Waits(th, pops) && SomeWaits(ts[t := th], pops) {
      var i :| 0 <= i < |ts| && Waits(ts[t := th][i], pops);
      assert Waits(ts[i], pops);
    }
  }

  // ----- every step keeps the invariant

  lemma NobodyWaitsAfterLeaving<T>(s: State<T>, t: nat)
    requires Inv(s) && s.closed && t < |s.threads|
    ensures !SomeWaits(s.threads[t := Outside], true) && !SomeWaits(s.threads[t := Outside], false)
  {
    LeaveCovers(s.threads, t, Outside, true, 0);
    LeaveCovers(s.threads, t, Outside, false, 0);
  }

  lemma PushSectionKeepsInv<T>(s: State<T>, t: nat, op: Op<T>, pick: nat)
    requires Inv(s) && t < |s.threads| && !s.threads[t].Waiting? && op.Push?
    requires s.threads[t].Signalled? ==> s.threads[t].op == op
    requires GoodPick(s.threads[t := Outside], true, pick)
    ensures Inv(Section(s, t, op, pick))
  {
    var out := s.threads[t := Outside];
    if s.closed {
      NobodyWaitsAfterLeaving(s, t);
    } else if |s.q| < s.capacity {
      LeaveCovers(s.threads, t, Outside, true, |s.q|);
      LeaveCovers(s.threads, t, Outside, false, s.capacity - |s.q|);
      NotifyCovers(out, true, pick, |s.q|);
    } else {
      LeaveCovers(s.threads, t, Waiting(op), true, |s.q|);
      LeaveCovers(s.threads, t, Waiting(op), false, s.capacity - |s.q|);
    }
  }

  lemma PopSectionKeepsInv<T>(s: State<T>, t: nat, op: Op<T>, pick: nat)
    requires Inv(s) && t < |s.threads| && !s.threads[t].Waiting? && op.Pop?
    requires s.threads[t].Signalled? ==> s.threads[t].op == op
    requires GoodPick(s.threads[t := Outside], false, pick)
    ensures Inv(Section(s, t, op, pick))
  {
    var out := s.threads[t := Outside];
    if s.q != [] {
      LeaveCovers(s.threads, t, Outside, true, |s.q|);
      LeaveCovers(s.threads, t, Outside, false, s.capacity - |s.q|);
      NotifyCovers(out, false, pick, s.capacity - |s.q|);
      if s.closed {
        NobodyWaitsAfterLeaving(s, t);
      }
    } else if s.closed {
      NobodyWaitsAfterLeaving(s, t);
    } else {
      LeaveCovers(s.threads, t, Waiting(op), true, |s.q|);
      LeaveCovers(s.threads, t, Waiting(op), false, s.capacity - |s.q|);
    }
  }

  lemma WakeKeepsInv<T>(s: State<T>, t: nat)
    requires Inv(s) && Enabled(s, WakeSpuriously(t))
    ensures Inv(Apply(s, WakeSpuriously(t)))
  {
    var ts' := Apply(s, WakeSpuriously(t)).threads;
    forall pops: bool
      ensures CountSignalled(ts', pops) == CountSignalled(s.threads, pops)
      ensures SomeWaits(ts', pops) ==> SomeWaits(s.threads, pops)
    {
      CountUpdate(s.threads, t, Woken(s.threads[t].op), pops);
      if SomeWaits(ts', pops) {
        var i :| 0 <= i < |ts'| && Waits(ts'[i], pops);
        assert Waits(s.threads[i], pops);
      }
    }
  }

  lemma StepKeepsInv<T>(s: State<T>, l: Label<T>)
    requires Inv(s) && Enabled(s, l)
    ensures Inv(Apply(s, l))
  {
    match l
    case Enter(t, op, pick) =>
      if op.Push? { PushSectionKeepsInv(s, t, op, pick); } else { PopSectionKeepsInv(s, t, op, pick); }
    case Resume(t, pick) =>
      var op := s.threads[t].op;
      if op.Push? { PushSectionKeepsInv(s, t, op, pick); } else { PopSectionKeepsInv(s, t, op, pick); }
    case WakeSpuriously(t) => WakeKeepsInv(s, t);
    case Close =>
      forall pops: bool ensures !SomeWaits(NotifyAll(s.threads), pops) {
      }
  }

  lemma {:induction false} RunKeepsInv<T>(s: State<T>, ls: seq<Label<T>>)
    requires Inv(s) && Exec(s, ls).Some?
    ensures Inv(Exec(s, ls).value)
    decreases |ls|
  {
    if ls != [] {
      StepKeepsInv(s, ls[0]);
      RunKeepsInv(Apply(s, ls[0]), ls[1..]);
    }
  }

  lemma InitInv<T>(capacity: nat, threads: nat)
    requires capacity > 0
    ensures Inv(Init<T>(capacity, threads))
  {
  }

  // ----- what it promises

  /** A thread that was notified, or woke by itself, and can take the lock. */
  ghost predicate CanRun<T>(s: State<T>, t: nat) {
    t < |s.threads| && (s.threads[t].Signalled? || s.threads[t].Woken?)
  }

  /** No wake-up is lost: a sleeper whose condition holds is matched by a
      signalled thread of its own kind that is about to run. */
  lemma NoLostWakeup<T>(capacity: nat, threads: nat, ls: seq<Label<T>>, t: nat)
    requires capacity > 0 && Exec(Init<T>(capacity, threads), ls).Some?
    ensures var s := Exec(Init<T>(capacity, threads), ls).value;
            t < |s.threads| && s.threads[t].Waiting? ==>
              !s.closed &&
              (s.threads[t].op.Pop? && s.q != [] ==>
                exists r: nat :: CanRun(s, r) && IsSignalled(s.threads[r], true)) &&
              (s.threads[t].op.Push? && |s.q| < s.capacity ==>
                exists r: nat :: CanRun(s, r) && IsSignalled(s.threads[r], false))
  {
    InitInv<T>(capacity, threads);
    RunKeepsInv(Init<T>(capacity, threads), ls);
    var s := Exec(Init<T>(capacity, threads), ls).value;
    if t < |s.threads| && s.threads[t].Waiting? {
      var pops := s.threads[t].op.Pop?;
      assert Waits(s.threads[t], pops);
      if CountSignalled(s.threads, pops) > 0 {
        var r := CountPositive(s.threads, pops);
        assert CanRun(s, r) && IsSignalled(s.threads[r], pops);
      }
    }
  }

  /** Both sides are never asleep together: some thread can run, because the
      queue cannot be full and empty at once. */
  lemma NeverBothAsleep<T>(s: State<T>) returns (t: nat)
    requires Inv(s) && SomeWaits(s.threads, true) && SomeWaits(s.threads, false)
    ensures CanRun(s, t) && s.threads[t].Signalled?
  {
    if CountSignalled(s.threads, true) > 0 {
      t := CountPositive(s.threads, true);
    } else {
      t := CountPositive(s.threads, false);
    }
  }

  /** When nobody inside can run, each sleeper has a true reason to sleep:
      consumers an empty open queue, producers a full open one. */
  lemma QuietSleepersAreRight<T>(s: State<T>, t: nat)
    requires Inv(s) && (forall r :: !CanRun(s, r))
    requires t < |s.threads| && s.threads[t].Waiting?
    ensures !s.closed
    ensures if s.threads[t].op.Pop? then s.q == [] else |s.q| == s.capacity
  {
    var pops := s.threads[t].op.Pop?;
    assert Waits(s.threads[t], pops);
    if CountSignalled(s.threads, pops) > 0 {
      var r := CountPositive(s.threads, pops);
      assert CanRun(s, r);
    }
  }

  /** A turn of thread `t` with operation `op`. */
  ghost predicate IsTurn<T>(s: State<T>, l: Label<T>, t: nat, op: Op<T>) {
    t < |s.threads| &&
    ((l.Enter? && l.t == t && l.op == op) ||
     (l.Resume? && l.t == t && !s.threads[t].Outside? && s.threads[t].op == op))
  }

  /** Nothing but its own sleep keeps a thread from taking its turn, and any
      sleeper of the other kind may be the one it wakes. */
  lemma TurnIsPossible<T>(s: State<T>, t: nat, op: Op<T>) returns (pick: nat)
    requires t < |s.threads|
    ensures s.threads[t].Outside? ==> Enabled(s, Enter(t, op, pick))
    ensures CanRun(s, t) && s.threads[t].op == op ==> Enabled(s, Resume(t, pick))
    ensures forall w: nat :: w < |s.threads| && w != t && Waits(s.threads[w], op.Push?) ==>
              (s.threads[t].Outside? ==> Enabled(s, Enter(t, op, w))) &&
              (CanRun(s, t) && s.threads[t].op == op ==> Enabled(s, Resume(t, w)))
  {
    var out := s.threads[t := Outside];
    pick := 0;
    if SomeWaits(out, op.Push?) {
      pick :| 0 <= pick < |out| && Waits(out[pick], op.Push?);
    }
  }

  /** A turn ends the call exactly when the awaited condition holds, and puts
      the thread to sleep with its operation otherwise. */
  lemma TurnEndsIff<T>(s: State<T>, l: Label<T>, t: nat, op: Op<T>)
    requires Enabled(s, l) && IsTurn(s, l, t, op)
    ensures Apply(s, l).threads[t].Outside? <==>
              s.closed || if op.Push? then |s.q| < s.capacity else s.q != []
    ensures !Apply(s, l).threads[t].Outside? ==> Apply(s, l) == s.(threads := s.threads[t := Waiting(op)])
    ensures Apply(s, l).closed == s.closed
  {
  }

  /** A turn wakes one sleeper of the other kind when it moved an item and one
      was asleep, and otherwise nobody. */
  lemma TurnWakesOne<T>(s: State<T>, l: Label<T>, t: nat, op: Op<T>, j: nat)
    requires Enabled(s, l) && IsTurn(s, l, t, op) && j < |s.threads| && j != t
    ensures Apply(s, l).threads[j] != s.threads[j] <==>
              Apply(s, l).q != s.q && Waits(s.threads[j], op.Push?) && j == l.pick
    ensures Apply(s, l).q != s.q && Waits(s.threads[j], op.Push?) ==>
              l.pick < |s.threads| && Waits(s.threads[l.pick], op.Push?) && IsSignalled(Apply(s, l).threads[l.pick], op.Push?)
  {
    var out := s.threads[t := Outside];
    if Waits(s.threads[j], op.Push?) {
      assert Waits(out[j], op.Push?);
      assert SomeWaits(out, op.Push?);
    }
  }

  /** No other step ends or alters a thread's call. */
  lemma OthersStayInside<T>(s: State<T>, l: Label<T>, j: nat)
    requires Enabled(s, l) && j < |s.threads|
    requires (l.Enter? || l.Resume?) ==> l.t != j
    ensures |Apply(s, l).threads| == |s.threads|
    ensures Apply(s, l).threads[j].Outside? <==> s.threads[j].Outside?
    ensures !s.threads[j].Outside? ==> Apply(s, l).threads[j].op == s.threads[j].op
    ensures CanRun(s, j) || l == WakeSpuriously(j) ==> CanRun(Apply(s, l), j)
    ensures Apply(s, l).closed <==> s.closed || l.Close?
  {
  }

  lemma {:induction false} ClosedRun<T>(s: State<T>, ls: seq<Label<T>>) returns (n: nat)
    requires s.closed && Exec(s, ls).Some?
    ensures Exec(s, ls).value.closed && n <= |s.q| && Exec(s, ls).value.q == s.q[n..]
    decreases |ls|
  {
    if ls == [] {
      n := 0;
    } else {
      n := ClosedRun(Apply(s, ls[0]), ls[1..]);
      if Apply(s, ls[0]).q != s.q {
        n := n + 1;
      }
    }
  }

  /** After close(), in any continuation: the queue is closed, nothing enters
      it any more, nobody sleeps, every thread that takes a turn leaves, push
      throws, and pop reports closed exactly when the queue is empty. */
  lemma CloseReleasesEveryone<T>(s: State<T>, ls: seq<Label<T>>) returns (s': State<T>)
    requires Inv(s) && Exec(s, [Close] + ls).Some?
    ensures Exec(s, [Close] + ls) == Some(s') && s'.closed
    ensures exists n: nat :: n <= |s.q| && s'.q == s.q[n..]
    ensures forall t :: 0 <= t < |s'.threads| ==> !s'.threads[t].Waiting?
    ensures forall l, t: nat, op :: Enabled(s', l) && IsTurn(s', l, t, op) ==>
              Apply(s', l).threads[t].Outside? && (op.Push? ==> Apply(s', l).q == s'.q)
    ensures forall v :: PushSection(s'.capacity, s'.q, s'.closed, v).0 == Threw
    ensures PopSection(s'.q, s'.closed).0 == Closed <==> s'.q == []
  {
    assert ([Close] + ls)[1..] == ls;
    var closed: State<T> := Apply(s, Close);
    StepKeepsInv(s, Close);
    var n := ClosedRun(closed, ls);
    RunKeepsInv(closed, ls);
    s' := Exec(closed, ls).value;
    forall t | 0 <= t < |s'.threads| ensures !s'.threads[t].Waiting? {
      assert !Waits(s'.threads[t], true) && !Waits(s'.threads[t], false);
    }
    forall l, t: nat, op | Enabled(s', l) && IsTurn(s', l, t, op)
      ensures Apply(s', l).threads[t].Outside? && (op.Push? ==> Apply(s', l).q == s'.q)
    {
      TurnEndsIff(s', l, t, op);
    }
  }

  // ----- refinement of a bounded FIFO

  function OpOf<T>(s: State<T>, l: Label<T>): Option<Op<T>>
    requires Enabled(s, l)
  {
    match l
    case Enter(_, op, _) => Some(op)
    case Resume(t, _) => Some(s.threads[t].op)
    case _ => None
  }

  function EventOf<T>(s: State<T>, l: Label<T>): seq<Event<T>>
    requires Enabled(s, l)
  {
    match OpOf(s, l)
    case None => []
    case Some(Push(v)) => if !s.closed && |s.q| < s.capacity then [Enq(v)] else []
    case Some(Pop) => if s.q != [] then [Deq(s.q[0])] else []
  }

  ghost function Events<T>(s: State<T>, ls: seq<Label<T>>): seq<Event<T>>
    requires Exec(s, ls).Some?
    decreases |ls|
  {
    if ls == [] then [] else EventOf(s, ls[0]) + Events(Apply(s, ls[0]), ls[1..])
  }

  lemma {:induction false} RunRefinesFifo<T>(s: State<T>, ls: seq<Label<T>>)
    requires Inv(s) && Exec(s, ls).Some?
    ensures Replay(s.q, Events(s, ls)) == Some(Exec(s, ls).value.q)
    ensures |Exec(s, ls).value.q| <= s.capacity
    decreases |ls|
  {
    if ls != [] {
      var s1, e := Apply(s, ls[0]), EventOf(s, ls[0]);
      StepKeepsInv(s, ls[0]);
      assert Replay(s.q, e) == Some(s1.q);
      RunRefinesFifo(s1, ls[1..]);
      ReplayConcat(s.q, e, Events(s1, ls[1..]));
    }
  }
}
