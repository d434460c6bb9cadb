/** The fan-out run can always finish: outside a scan, every state of a timely
    run has a timely continuation in which each consumer reading every message. */
module FanoutProgress {
  import opened Wrappers
  import opened Bits
  import opened Slots
  import opened Gating
  import opened Sequencer
  import opened Fanout
  import opened FanoutTheorems
  import opened FanoutCalls

  lemma {:induction false} TimelyConcat<T>(s: State<T>, a: seq<Label<T>>, mid: State<T>, b: seq<Label<T>>, end: State<T>)
    requires Exec(s, a) == Some(mid) && TimelyRun(s, a)
    requires Exec(mid, b) == Some(end) && TimelyRun(mid, b)
    ensures Exec(s, a + b) == Some(end) && TimelyRun(s, a + b)
    decreases |a|
  {
    if a == [] {
      assert a + b == b;
    } else {
      assert (a + b)[1..] == a[1..] + b;
      TimelyConcat(Apply(s, a[0]), a[1..], mid, b, end);
    }
  }

  /** While nobody has started and nobody starts, every decision is timely. */
  lemma {:induction false} NoneStartedIsTimely<T>(s: State<T>, ls: seq<Label<T>>)
    requires NoneStarted(s.gate) && Exec(s, ls).Some? && (s.prod.Scanning? ==> s.prod.min == NONE)
    requires forall i :: 0 <= i < |ls| ==> !ls[i].MarkConsumed?
    ensures TimelyRun(s, ls)
    decreases |ls|
  {
    if ls != [] {
      assert forall i :: 0 <= i < |ls[1..]| ==> ls[1..][i] == ls[i + 1];
      NoneStartedIsTimely(Apply(s, ls[0]), ls[1..]);
    }
  }

  /** One step that is not a decision, kept with its invariant. */
  lemma OneStep<T>(s: State<T>, l: Label<T>)
    requires Inv(s) && Enabled(s, l) && !l.Decide?
    ensures Inv(Apply(s, l)) && Exec(s, [l]) == Some(Apply(s, l)) && TimelyRun(s, [l])
  {
    StepKeepsInv(s, l);
    ExecOne(s, l);
    assert TimelyRun(Apply(s, l), [l][1..]);
  }

  // ----- finishing what is under way

  /** The producer finishes the event it has claimed. */
  lemma {:induction false} FinishEvent<T>(s: State<T>, v: T) returns (ls: seq<Label<T>>, s': State<T>)
    requires Inv(s) && !s.prod.Scanning?
    ensures Exec(s, ls) == Some(s') && TimelyRun(s, ls)
    ensures Inv(s') && s'.prod.Idle? && s'.messages == s.messages && |s'.cons| == |s.cons|
    decreases match s.prod case Claimed(_) => 3 case Writing(_, _) => 2 case Written(_) => 1 case _ => 0
  {
    if s.prod.Idle? {
      ls, s' := [], s;
    } else {
      var l := match s.prod case Claimed(_) => BeginWrite(v) case Writing(_, _) => EndWrite case _ => Publish;
      OneStep(s, l);
      var rest;
      rest, s' := FinishEvent(Apply(s, l), v);
      TimelyConcat(s, [l], Apply(s, l), rest, s');
      ls := [l] + rest;
    }
  }

  /** Everything but consumer `c` and what it reports is as before. */
  ghost predicate OnlyConsumer<T>(s: State<T>, s': State<T>, c: nat) {
    s'.prod == s.prod && s'.next == s.next && s'.messages == s.messages && s'.capacity == s.capacity && s'.log == s.log &&
    |s'.cons| == |s.cons| && forall j :: 0 <= j < |s.cons| && j != c ==> s'.cons[j] == s.cons[j]
  }

  function StepsLeft<T>(c: Consumer<T>, next: nat): int {
    4 * (next - c.at) - match c case Waiting(_) => 0 case Passed(_) => 1 case Reading(_) => 2 case _ => 3
  }

  /** One consumer reading everything that is visible. */
  lemma {:induction false} CatchUp<T>(s: State<T>, c: nat) returns (ls: seq<Label<T>>, s': State<T>)
    requires Inv(s) && s.prod.Idle? && c < |s.cons|
    ensures Exec(s, ls) == Some(s') && TimelyRun(s, ls)
    ensures Inv(s') && OnlyConsumer(s, s', c) && s'.cons[c] == Waiting(s.next)
    decreases StepsLeft(s.cons[c], s.next)
  {
    assert ConsumerOk(s, c);
    if s.cons[c] == Waiting(s.next) {
      ls, s' := [], s;
    } else {
      var l := match s.cons[c]
        case Waiting(_) => TestVisible(c) case Passed(_) => LoadCursor(c)
        case Reading(_) => Read(c) case _ => MarkConsumed(c);
      OneStep(s, l);
      var s1 := Apply(s, l);
      assert ConsumerOk(s1, c);
      var rest;
      rest, s' := CatchUp(s1, c);
      TimelyConcat(s, [l], s1, rest, s');
      ls := [l] + rest;
    }
  }

  /** The producer is between events and the first `k` consumers have read
      everything it published. */
  ghost predicate CaughtUp<T>(s: State<T>, k: nat) {
    Inv(s) && s.prod.Idle? && k <= |s.cons| && forall c :: 0 <= c < k ==> s.cons[c] == Waiting(s.next)
  }

  lemma {:induction false} AllCatchUp<T>(s: State<T>, k: nat) returns (ls: seq<Label<T>>, s': State<T>)
    requires Inv(s) && s.prod.Idle? && k <= |s.cons|
    ensures Exec(s, ls) == Some(s') && TimelyRun(s, ls) && CaughtUp(s', k)
    ensures s'.next == s.next && s'.messages == s.messages && |s'.cons| == |s.cons|
    decreases k
  {
    if k == 0 {
      ls, s' := [], s;
    } else {
      var before, mid := AllCatchUp(s, k - 1);
      var own;
      own, s' := CatchUp(mid, k - 1);
      TimelyConcat(s, before, mid, own, s');
      ls := before + own;
    }
  }

  // ----- one more event

  /** With every consumer caught up the next scan allows a claim, in time. */
  lemma NextEvent<T>(s: State<T>, v: T) returns (ls: seq<Label<T>>, s': State<T>)
    requires CaughtUp(s, |s.cons|) && s.next < s.messages
    ensures Exec(s, ls) == Some(s') && TimelyRun(s, ls)
    ensures Inv(s') && s'.prod.Idle? && s'.next == s.next + 1 && s'.messages == s.messages && |s'.cons| == |s.cons|
  {
    DrainedRingHasRoom(s);
    ls := ProduceOne(s, v);
    s' := AfterProducing(s, v);
    forall c | 0 <= c < |s.cons| ensures Signed(s.gate[c]) == s.next - 1 {
      assert ConsumerOk(s, c);
    }
    if s.next == 0 {
      NoneStartedIsTimely(s, ls);
    } else {
      AllStartedIsTimely(s, ls);
    }
    RunKeepsInv(s, ls);
  }

  lemma {:induction false} AllRead<T>(s: State<T>, v: T) returns (ls: seq<Label<T>>, s': State<T>)
    requires CaughtUp(s, |s.cons|)
    ensures Exec(s, ls) == Some(s') && TimelyRun(s, ls)
    ensures CaughtUp(s', |s.cons|) && s'.next == s'.messages == s.messages && |s'.cons| == |s.cons|
    decreases s.messages - s.next
  {
    if s.next == s.messages {
      ls, s' := [], s;
    } else {
      var event, s1 := NextEvent(s, v);
      var reading, s2 := AllCatchUp(s1, |s1.cons|);
      TimelyConcat(s, event, s1, reading, s2);
      var rest;
      rest, s' := AllRead(s2, v);
      TimelyConcat(s, event + reading, s2, rest, s');
      ls := event + reading + rest;
    }
  }

  /** Outside a scan, every state of a timely run has a timely continuation in
      which the producer writes all its messages and every consumer has read
      exactly what was written. */
  lemma CanAlwaysFinish<T>(s: State<T>, v: T) returns (ls: seq<Label<T>>, s': State<T>)
    requires Inv(s) && !s.prod.Scanning?
    ensures Exec(s, ls) == Some(s') && TimelyRun(s, ls)
    ensures |s'.log| == s.messages && |s'.got| == |s'.cons| == |s.cons|
    ensures forall c :: 0 <= c < |s.cons| ==> s'.cons[c] == Waiting(s.messages) && s'.got[c] == Somes(s'.log)
  {
    var first, s1 := FinishEvent(s, v);
    var reading, s2 := AllCatchUp(s1, |s1.cons|);
    TimelyConcat(s, first, s1, reading, s2);
    var rest;
    rest, s' := AllRead(s2, v);
    TimelyConcat(s, first + reading, s2, rest, s');
    ls := first + reading + rest;
    forall c | 0 <= c < |s.cons| ensures s'.got[c] == Somes(s'.log) {
      FinishedConsumerReadAll(s', c);
    }
  }
}
