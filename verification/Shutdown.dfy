/** Delivery at shutdown in the two single-producer benchmarks: the messages and
    what their consumers record. */
module Delivery {
  /** The messages 1, 2, ..., n. */
  function OneTo(n: nat): (r: seq<nat>)
    ensures |r| == n
  {
    seq(n, (i: nat) => i + 1)
  }

  lemma OneToNext(n: nat)
    ensures OneTo(n + 1) == OneTo(n) + [n + 1]
  {
  }

  lemma OneToPrefix(k: nat, n: nat)
    requires k <= n
    ensures OneTo(n)[..k] == OneTo(k)
  {
  }

  lemma AppendLast(a: seq<nat>, b: seq<nat>, x: nat)
    ensures a + (b + [x]) == (a + b) + [x]
  {
  }

  lemma MoveFirst(a: seq<nat>, b: seq<nat>)
    requires b != []
    ensures (a + [b[0]]) + b[1..] == a + b
  {
  }

  /** `record_latency`: count the message and, past the warm-up, sample it. */
  function Record(seen: nat, samples: nat, warmup: nat): (nat, nat) {
    (seen + 1, if seen + 1 > warmup then samples + 1 else samples)
  }

  predicate Sampled(seen: nat, samples: nat, warmup: nat) {
    samples == if seen > warmup then seen - warmup else 0
  }
}

/** Delivery at shutdown with a ring: the producer sets a done flag, and the
    consumer drains the ring before it exits. */
module BusyShutdown {
  import opened Wrappers
  import opened Bits
  import opened Delivery
  import Ring = SpscProtocol

  /** The consumer: polling while not done, then draining until empty. */
  datatype Loop = TestDone | Polling | Draining | Exited

  datatype State = State(
    ring: Ring.State<nat>,
    messages: nat,
    warmup: nat,
    done: bool,
    loop: Loop,
    seen: nat,
    samples: nat)

  datatype Label = Step(l: Ring.Label<nat>) | SetDone | ReadDone

  ghost predicate Enabled(s: State, l: Label) {
    match l
    case Step(r) =>
      Ring.Enabled(s.ring, r) &&
      (r.StartPush? ==> !s.done && |s.ring.pushed| < s.messages && r.v == |s.ring.pushed| + 1) &&
      (r.LoadHead? || r.Copy? || r.StoreTail? ==> s.loop.Polling? || s.loop.Draining?)
    case SetDone => !s.done && |s.ring.pushed| == s.messages && s.ring.prod.Idle?
    case ReadDone => s.loop.TestDone?
  }

  /** Reading the flag as set also makes every earlier push visible. */
  ghost function Apply(s: State, l: Label): State
    requires Enabled(s, l)
  {
    match l
    case Step(r) =>
      var s' := s.(ring := Ring.Apply(s.ring, r));
      if r.StoreTail? then
        var (n, k) := Record(s.seen, s.samples, s.warmup);
        s'.(seen := n, samples := k, loop := if s.loop.Polling? then TestDone else Draining)
      else if r.LoadHead? && s'.ring.cons.Resting? then
        s'.(loop := if s.loop.Polling? then TestDone else Exited)
      else s'
    case SetDone => s.(done := true)
    case ReadDone =>
      if s.done then s.(loop := Draining, ring := s.ring.(headView := |s.ring.pushed|))
      else s.(loop := Polling)
  }

  ghost function Init(cap: nat, messages: nat, warmup: nat): State {
    State(Ring.Init(cap), messages, warmup, false, TestDone, 0, 0)
  }

  ghost function Exec(s: State, ls: seq<Label>): Option<State>
    decreases |ls|
  {
    if ls == [] then Some(s)
    else if Enabled(s, ls[0]) then Exec(Apply(s, ls[0]), ls[1..])
    else None
  }

  ghost predicate Inv(s: State) {
    Ring.Inv(s.ring) &&
    |s.ring.pushed| <= s.messages && s.ring.pushed == OneTo(|s.ring.pushed|) &&
    (!s.ring.prod.Idle? ==> !s.done && |s.ring.pushed| < s.messages && s.ring.prod.v == |s.ring.pushed| + 1) &&
    (s.done ==> |s.ring.pushed| == s.messages) &&
    (s.loop.TestDone? || s.loop.Exited? ==> s.ring.cons.Resting?) &&
    (s.loop.Draining? || s.loop.Exited? ==> s.done && s.ring.headView == |s.ring.pushed|) &&
    (s.loop.Exited? ==> |s.ring.popped| == |s.ring.pushed|) &&
    s.seen == |s.ring.popped| && Sampled(s.seen, s.samples, s.warmup)
  }

  lemma RingStepKeepsInv(s: State, r: Ring.Label<nat>)
    requires Inv(s) && Enabled(s, Step(r))
    ensures Inv(Apply(s, Step(r)))
  {
    Ring.StepKeepsInv(s.ring, r);
    if r.StoreHead? {
      OneToNext(|s.ring.pushed|);
    } else if r.LoadHead? {
      Ring.TestsAreExact(s.ring, r.k);
    }
  }

  lemma StepKeepsInv(s: State, l: Label)
    requires Inv(s) && Enabled(s, l)
    ensures Inv(Apply(s, l))
  {
    if l.Step? {
      RingStepKeepsInv(s, l.l);
    }
  }

  lemma {:induction false} RunKeepsInv(s: State, ls: seq<Label>)
    requires Inv(s) && Exec(s, ls).Some?
    ensures Inv(Exec(s, ls).value)
    ensures Exec(s, ls).value.messages == s.messages && Exec(s, ls).value.warmup == s.warmup
    decreases |ls|
  {
    if ls != [] {
      StepKeepsInv(s, ls[0]);
      RunKeepsInv(Apply(s, ls[0]), ls[1..]);
    }
  }

  /** Whenever the consumer exits it has popped exactly messages 1..N in order
      and sampled N - warmup of them. */
  lemma BusyRunDelivers(cap: nat, messages: nat, warmup: nat, ls: seq<Label>)
    requires IsPowerOfTwo(cap) && cap < WORD && messages > warmup
    requires Exec(Init(cap, messages, warmup), ls).Some?
    requires Exec(Init(cap, messages, warmup), ls).value.loop.Exited?
    ensures var s := Exec(Init(cap, messages, warmup), ls).value;
            s.ring.popped == OneTo(messages) && s.samples == messages - warmup
  {
    Ring.InitInv<nat>(cap);
    RunKeepsInv(Init(cap, messages, warmup), ls);
    var s := Exec(Init(cap, messages, warmup), ls).value;
    OneToPrefix(messages, messages);
  }

  // ----- the run can always finish

  function ProducerRank(p: Ring.Producer<nat>): nat {
    match p
    case Idle => 4
    case Started(_) => 3
    case HasRoom(_) => 2
    case Writing(_) => 1
    case Written(_) => 0
  }

  function ConsumerRank(c: Ring.Consumer<nat>): nat {
    match c
    case Resting => 2
    case Seen => 1
    case Copied(_) => 0
  }

  /** How far the consumer's loops are from the exit, with nothing to pop. */
  function LoopRank(s: State): nat {
    match s.loop
    case TestDone => if s.done then 2 else 5
    case Polling => if s.done then 3 else 4
    case Draining => 1
    case Exited => 0
  }

  function Left(s: State): int {
    10 * (2 * s.messages - |s.ring.pushed| - |s.ring.popped|) +
    ProducerRank(s.ring.prod) + ConsumerRank(s.ring.cons) + LoopRank(s)
  }

  /** The consumer's next step, when there is something to pop. */
  lemma ConsumerHelps(s: State) returns (l: Label)
    requires Inv(s) && (!s.ring.cons.Resting? || |s.ring.popped| < |s.ring.pushed|)
    ensures Enabled(s, l) && Left(Apply(s, l)) < Left(s)
  {
    match s.ring.cons
    case Seen =>
      Ring.NoPayloadRace(s.ring);
      l := Step(Ring.Copy);
    case Copied(_) => l := Step(Ring.StoreTail);
    case Resting =>
      if s.loop.TestDone? {
        l := ReadDone;
      } else {
        Ring.FailuresAreFullAndEmpty(s.ring, |s.ring.pushed|);
        l := Step(Ring.LoadHead(|s.ring.pushed|));
      }
  }

  /** The next step of either thread, when the ring is empty. */
  lemma EmptyRingHelps(s: State) returns (l: Label)
    requires Inv(s) && s.ring.cons.Resting? && |s.ring.popped| == |s.ring.pushed| && !s.loop.Exited?
    ensures Enabled(s, l) && Left(Apply(s, l)) < Left(s)
  {
    Ring.FailuresAreFullAndEmpty(s.ring, |s.ring.popped|);
    if s.loop.TestDone? {
      l := ReadDone;
    } else if s.done {
      l := Step(Ring.LoadHead(|s.ring.pushed|));
    } else {
      match s.ring.prod
      case Idle =>
        l := if |s.ring.pushed| == s.messages then SetDone else Step(Ring.StartPush(|s.ring.pushed| + 1));
      case Started(_) => l := Step(Ring.LoadTail(|s.ring.popped|));
      case HasRoom(_) => l := Step(Ring.BeginWrite);
      case Writing(_) => l := Step(Ring.EndWrite);
      case Written(_) => l := Step(Ring.StoreHead);
    }
  }

  /** From every state of every run the consumer can still reach its exit. */
  lemma {:induction false} CanAlwaysExit(s: State) returns (ls: seq<Label>)
    requires Inv(s)
    ensures Exec(s, ls).Some? && Exec(s, ls).value.loop.Exited?
    decreases Left(s)
  {
    if s.loop.Exited? {
      ls := [];
    } else {
      var l;
      if !s.ring.cons.Resting? || |s.ring.popped| < |s.ring.pushed| {
        l := ConsumerHelps(s);
      } else {
        l := EmptyRingHelps(s);
      }
      StepKeepsInv(s, l);
      var rest := CanAlwaysExit(Apply(s, l));
      ls := [l] + rest;
      assert ls[1..] == rest;
    }
  }
}

/** Delivery at shutdown with the blocking queue: the producer closes it, and
    the consumer pops until it is closed and empty. */
module BlockingShutdown {
  import opened Wrappers
  import opened Delivery
  import Queue = BlockingProtocol

  const PRODUCER: nat := 0
  const CONSUMER: nat := 1

  datatype State = State(
    queue: Queue.State<nat>,
    messages: nat,
    warmup: nat,
    sent: nat,
    received: seq<nat>,
    exited: bool,
    samples: nat)

  ghost predicate Enabled(s: State, l: Queue.Label<nat>) {
    Queue.Enabled(s.queue, l) && |s.queue.threads| == 2 &&
    match l
    case Enter(t, op, _) =>
      if t == PRODUCER then !s.queue.closed && s.sent < s.messages && op == Queue.Push(s.sent + 1)
      else !s.exited && op.Pop?
    case Resume(_, _) => true
    case WakeSpuriously(_) => true
    case Close => !s.queue.closed && s.sent == s.messages && s.queue.threads[PRODUCER].Outside?
  }

  /** `pop` returned false: the queue was closed and empty. */
  ghost predicate PopFails(s: State, l: Queue.Label<nat>)
    requires Enabled(s, l)
  {
    Queue.OpOf(s.queue, l) == Some(Queue.Pop) && s.queue.closed && s.queue.q == []
  }

  ghost function Apply(s: State, l: Queue.Label<nat>): State
    requires Enabled(s, l)
  {
    var s' := s.(queue := Queue.Apply(s.queue, l));
    var e := Queue.EventOf(s.queue, l);
    if e == [] then s'.(exited := s.exited || PopFails(s, l))
    else match e[0]
      case Enq(_) => s'.(sent := s.sent + 1)
      case Deq(v) =>
        s'.(received := s.received + [v], samples := Record(|s.received|, s.samples, s.warmup).1)
  }

  ghost function Init(capacity: nat, messages: nat, warmup: nat): State {
    State(Queue.Init(capacity, 2), messages, warmup, 0, [], false, 0)
  }

  ghost function Exec(s: State, ls: seq<Queue.Label<nat>>): Option<State>
    decreases |ls|
  {
    if ls == [] then Some(s)
    else if Enabled(s, ls[0]) then Exec(Apply(s, ls[0]), ls[1..])
    else None
  }

  ghost predicate ThreadsOk(s: State) {
    |s.queue.threads| == 2 &&
    (!s.queue.threads[PRODUCER].Outside? ==>
      !s.queue.closed && s.sent < s.messages && s.queue.threads[PRODUCER].op == Queue.Push(s.sent + 1)) &&
    (!s.queue.threads[CONSUMER].Outside? ==> s.queue.threads[CONSUMER].op.Pop?)
  }

  ghost predicate Inv(s: State) {
    Queue.Inv(s.queue) && ThreadsOk(s) &&
    s.sent <= s.messages && s.received + s.queue.q == OneTo(s.sent) &&
    (s.queue.closed ==> s.sent == s.messages) &&
    (s.exited ==> s.queue.closed && s.queue.q == []) &&
    Sampled(|s.received|, s.samples, s.warmup)
  }

  /** What has been received and what is queued are the messages sent. */
  lemma StepKeepsMessages(s: State, l: Queue.Label<nat>)
    requires Inv(s) && Enabled(s, l)
    ensures Apply(s, l).received + Apply(s, l).queue.q == OneTo(Apply(s, l).sent)
    ensures Apply(s, l).sent <= s.messages
  {
    var s', e := Apply(s, l), Queue.EventOf(s.queue, l);
    OneToNext(s.sent);
    if e != [] && e[0].Enq? {
      AppendLast(s.received, s.queue.q, s.sent + 1);
    } else if e != [] {
      MoveFirst(s.received, s.queue.q);
    }
  }

  lemma StepKeepsThreads(s: State, l: Queue.Label<nat>)
    requires Inv(s) && Enabled(s, l)
    ensures ThreadsOk(Apply(s, l))
  {
  }

  lemma StepKeepsInv(s: State, l: Queue.Label<nat>)
    requires Inv(s) && Enabled(s, l)
    ensures Inv(Apply(s, l))
  {
    Queue.StepKeepsInv(s.queue, l);
    StepKeepsMessages(s, l);
    StepKeepsThreads(s, l);
  }

  lemma {:induction false} RunKeepsInv(s: State, ls: seq<Queue.Label<nat>>)
    requires Inv(s) && Exec(s, ls).Some?
    ensures Inv(Exec(s, ls).value)
    ensures Exec(s, ls).value.messages == s.messages && Exec(s, ls).value.warmup == s.warmup
    decreases |ls|
  {
    if ls != [] {
      StepKeepsInv(s, ls[0]);
      RunKeepsInv(Apply(s, ls[0]), ls[1..]);
    }
  }

  /** Whenever the consumer exits it has popped exactly messages 1..N in order
      and sampled N - warmup of them; no push ever met a closed queue. */
  lemma BlockingRunDelivers(capacity: nat, messages: nat, warmup: nat, ls: seq<Queue.Label<nat>>)
    requires capacity > 0 && messages > warmup
    requires Exec(Init(capacity, messages, warmup), ls).Some?
    ensures var s := Exec(Init(capacity, messages, warmup), ls).value;
            (s.exited ==> s.received == OneTo(messages) && s.samples == messages - warmup) &&
            |s.queue.threads| == 2 && (s.queue.closed ==> s.queue.threads[PRODUCER].Outside?)
  {
    Queue.InitInv<nat>(capacity, 2);
    RunKeepsInv(Init(capacity, messages, warmup), ls);
    var s := Exec(Init(capacity, messages, warmup), ls).value;
    assert s.received + [] == s.received;
  }

  // ----- the run can always finish

  /** What is left to do: messages to send, to receive, the close, the exit. */
  function Left(s: State): int {
    2 * s.messages - s.sent - |s.received| + (if s.queue.closed then 0 else 1) + (if s.exited then 0 else 1)
  }

  /** With something to take, or nothing more to come, the consumer is awake. */
  lemma ConsumerIsAwake(s: State)
    requires Inv(s) && (s.queue.closed || s.queue.q != [])
    ensures !s.queue.threads[CONSUMER].Waiting?
  {
    var ts := s.queue.threads;
    if ts[CONSUMER].Waiting? {
      assert Queue.Waits(ts[CONSUMER], true);
      if Queue.CountSignalled(ts, true) > 0 {
        var t := Queue.CountPositive(ts, true);
        assert false;
      }
      assert false;
    }
  }

  /** With an empty open queue the producer is awake. */
  lemma ProducerIsAwake(s: State)
    requires Inv(s) && !s.queue.closed && s.queue.q == []
    ensures !s.queue.threads[PRODUCER].Waiting?
  {
    var ts := s.queue.threads;
    if ts[PRODUCER].Waiting? {
      assert Queue.Waits(ts[PRODUCER], false);
      if Queue.CountSignalled(ts, false) > 0 {
        var t := Queue.CountPositive(ts, false);
        assert false;
      }
      assert false;
    }
  }

  /** Until the consumer has exited some step brings the end nearer. */
  lemma SomeStepHelps(s: State) returns (l: Queue.Label<nat>)
    requires Inv(s) && !s.exited
    ensures Enabled(s, l) && Left(Apply(s, l)) < Left(s)
  {
    if s.queue.closed || s.queue.q != [] {
      ConsumerIsAwake(s);
      var pick := Queue.TurnIsPossible(s.queue, CONSUMER, Queue.Pop);
      l := if s.queue.threads[CONSUMER].Outside? then Queue.Enter(CONSUMER, Queue.Pop, pick)
           else Queue.Resume(CONSUMER, pick);
    } else if s.sent < s.messages {
      ProducerIsAwake(s);
      var pick := Queue.TurnIsPossible(s.queue, PRODUCER, Queue.Push(s.sent + 1));
      l := if s.queue.threads[PRODUCER].Outside? then Queue.Enter(PRODUCER, Queue.Push(s.sent + 1), pick)
           else Queue.Resume(PRODUCER, pick);
    } else {
      l := Queue.Close;
    }
  }

  /** From every state of every run the consumer can still reach its exit: no
      interleaving leaves the two threads stuck. */
  lemma {:induction false} CanAlwaysExit(s: State) returns (ls: seq<Queue.Label<nat>>)
    requires Inv(s)
    ensures Exec(s, ls).Some? && Exec(s, ls).value.exited
    decreases Left(s)
  {
    assert |s.received + s.queue.q| == s.sent;
    if s.exited {
      ls := [];
    } else {
      var l := SomeStepHelps(s);
      StepKeepsInv(s, l);
      assert |Apply(s, l).received + Apply(s, l).queue.q| == Apply(s, l).sent;
      var rest := CanAlwaysExit(Apply(s, l));
      ls := [l] + rest;
      assert ls[1..] == rest;
    }
  }
}
