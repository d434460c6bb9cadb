/** What the fan-out ring promises in every run whose capacity decisions are
    timely, and two families of runs in which they always are. */
module FanoutTheorems {
  import opened Wrappers
  import opened Bits
  import opened Slots
  import opened Gating
  import opened Sequencer
  import opened Fanout

  function Somes<T>(vs: seq<T>): (r: seq<Option<T>>)
    ensures |r| == |vs|
  {
    seq(|vs|, i requires 0 <= i < |vs| => Some(vs[i]))
  }

  /** Claims stay within `capacity` of the slowest consumer, a slot written
      for a consumer that has not read it is intact, each consumer has read
      exactly the values written, in order, and none stops on visibility. */
  lemma FanoutIsSafe<T>(capacity: nat, consumers: nat, messages: nat, ls: seq<Label<T>>, c: nat)
    requires 0 < capacity < WORD && c < consumers && messages < WORD
    requires Exec(Init<T>(capacity, consumers, messages), ls).Some?
    requires TimelyRun(Init<T>(capacity, consumers, messages), ls)
    ensures var s := Exec(Init<T>(capacity, consumers, messages), ls).value;
            |s.cons| == |s.got| == consumers && |s.slots| == capacity && s.capacity == capacity &&
            s.next <= s.cons[c].at + capacity &&
            (forall q {:trigger s.log[q]} :: s.cons[c].at <= q < |s.log| ==> s.slots[Slot(q, capacity)] == Some(s.log[q])) &&
            |s.got[c]| <= |s.log| && s.got[c] == Somes(s.log[..|s.got[c]|]) &&
            !s.cons[c].Aborted? &&
            (s.prod.Writing? ==> s.slots[Slot(s.prod.sequence, capacity)] == None)
  {
    InitInv<T>(capacity, consumers, messages);
    RunKeepsInv(Init<T>(capacity, consumers, messages), ls);
    RunKeepsSizes(Init<T>(capacity, consumers, messages), ls);
    var s := Exec(Init<T>(capacity, consumers, messages), ls).value;
    assert ConsumerOk(s, c);
  }

  lemma {:induction false} RunKeepsSizes<T>(s: State<T>, ls: seq<Label<T>>)
    requires Exec(s, ls).Some?
    ensures var s' := Exec(s, ls).value;
            s'.capacity == s.capacity && s'.messages == s.messages && |s'.cons| == |s.cons| && |s'.gate| == |s.gate|
    decreases |ls|
  {
    if ls != [] {
      RunKeepsSizes(Apply(s, ls[0]), ls[1..]);
    }
  }

  /** A consumer that has been through all messages has read all of them. */
  lemma FinishedConsumerReadAll<T>(s: State<T>, c: nat)
    requires Inv(s) && c < |s.cons| && s.cons[c].at == s.messages
    ensures |s.log| == s.messages && s.got[c] == Somes(s.log)
  {
    assert ConsumerOk(s, c);
  }

  /** After the visibility test the cursor never falls back below it. */
  lemma VisibleStaysVisible<T>(s: State<T>, l: Label<T>, c: nat)
    requires Inv(s) && Enabled(s, l) && Timely(s, l) && c < |s.cons| && s.cons[c].Passed?
    ensures s.cursor != NONE && s.cons[c].at <= s.cursor
    ensures Signed(s.cursor) <= Signed(Apply(s, l).cursor)
    ensures s.cursor < |s.log|
    ensures l == LoadCursor(c) ==> Apply(s, l).cons[c] == Reading(s.cons[c].at)
  {
    assert ConsumerOk(s, c);
    StepKeepsInv(s, l);
  }

  // ----- the condition is exact, and nobody waits for nothing

  /** After a scan nobody disturbs, the claim it allows stays within `capacity`
      of every consumer exactly when all consumers have started or the ring is
      still in its first round. */
  lemma UndisturbedClaimIsSafeIff<T>(s: State<T>)
    requires Inv(s) && s.prod.Idle? && Remaining(s.capacity, s.next, LoadMin(s.gate)) != 0
    ensures (forall c :: 0 <= c < |s.cons| ==> s.next + 1 <= s.cons[c].at + s.capacity) <==>
              AllStarted(s.gate) || s.next < s.capacity
  {
    var k := LoadMinIsMinimum(s.gate);
    assert ConsumerOk(s, k);
    RemainingIsFreeRoom(s.capacity, s.next, LoadMin(s.gate));
    forall c | 0 <= c < |s.cons| ensures Signed(s.gate[c]) == s.cons[c].at - 1 {
      assert ConsumerOk(s, c);
    }
    if !AllStarted(s.gate) {
      var c :| 0 <= c < |s.gate| && s.gate[c] == NONE;
      assert s.cons[c].at == 0;
    }
  }

  /** A producer that finds no room has a consumer with something to read. */
  lemma BlockedProducerHasReader<T>(s: State<T>) returns (c: nat)
    requires Inv(s) && s.prod.Idle? && Remaining(s.capacity, s.next, LoadMin(s.gate)) == 0
    ensures c < |s.cons| && s.cons[c].at < Visible(s)
  {
    c := LoadMinIsMinimum(s.gate);
    assert ConsumerOk(s, c);
    RemainingIsFreeRoom(s.capacity, s.next, LoadMin(s.gate));
  }

  /** When every consumer has read everything, the producer has all its room. */
  lemma DrainedRingHasRoom<T>(s: State<T>)
    requires Inv(s) && s.prod.Idle? && forall c :: 0 <= c < |s.cons| ==> s.cons[c].at == s.next
    ensures Remaining(s.capacity, s.next, LoadMin(s.gate)) == s.capacity
  {
    var k := LoadMinIsMinimum(s.gate);
    assert ConsumerOk(s, k);
    RemainingIsFreeRoom(s.capacity, s.next, LoadMin(s.gate));
  }

  // ----- runs that are always timely

  /** With one consumer the scan is a single load, so every run is timely:
      the single-consumer pipeline needs no condition. */
  lemma {:induction false} OneConsumerIsTimely<T>(s: State<T>, ls: seq<Label<T>>)
    requires |s.gate| == 1 && Exec(s, ls).Some?
    requires s.prod.Scanning? ==> s.prod.seen >= 1 && (s.prod.allStarted || s.prod.min == NONE)
    ensures TimelyRun(s, ls)
    decreases |ls|
  {
    if ls != [] {
      OneConsumerIsTimely(Apply(s, ls[0]), ls[1..]);
    }
  }

  /** Once every consumer has consumed something, and outside a scan, every
      later decision is timely. */
  lemma {:induction false} AllStartedIsTimely<T>(s: State<T>, ls: seq<Label<T>>)
    requires Inv(s) && AllStarted(s.gate) && Exec(s, ls).Some?
    requires s.prod.Scanning? ==> s.prod.allStarted
    ensures TimelyRun(s, ls)
    decreases |ls|
  {
    if ls != [] {
      if ls[0].MarkConsumed? {
        assert ConsumerOk(s, ls[0].c);
      }
      StepKeepsInv(s, ls[0]);
      AllStartedIsTimely(Apply(s, ls[0]), ls[1..]);
    }
  }
}
