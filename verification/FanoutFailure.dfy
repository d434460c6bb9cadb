/** Without the timing condition the fan-out ring breaks: for every capacity
    and every number of consumers from two up, one consumer that has started
    hides another that has not. */
module FanoutFailure {
  import opened Wrappers
  import opened Bits
  import opened Words
  import opened Slots
  import opened Gating
  import opened Sequencer
  import opened Fanout
  import opened FanoutCalls

  // ----- the failing run

  /** `n` events with value `a` are published and no consumer has started. */
  ghost predicate Filled<T(!new)>(s: State<T>, n: nat, a: T) {
    Shape(s) && s.prod.Idle? && s.next == n && |s.log| == n && NoneStarted(s.gate) &&
    (n > 0 ==> s.cursor == n - 1 && s.log[0] == a && s.slots[0] == Some(a)) &&
    forall c :: 0 <= c < |s.cons| ==> s.cons[c] == Waiting(0) && s.got[c] == []
  }

  lemma {:induction false} FillRing<T(!new)>(capacity: nat, consumers: nat, messages: nat, n: nat, a: T)
    returns (ls: seq<Label<T>>, s: State<T>)
    requires 0 < capacity < WORD && consumers > 0 && n <= capacity && n < messages < WORD
    ensures Exec(Init(capacity, consumers, messages), ls) == Some(s) && Filled(s, n, a)
    ensures s.capacity == capacity && s.messages == messages && |s.cons| == consumers
    decreases n
  {
    if n == 0 {
      ls, s := [], Init(capacity, consumers, messages);
    } else {
      var before, s0 := FillRing(capacity, consumers, messages, n - 1, a);
      var k := LoadMinIsMinimum(s0.gate);
      var turn := ProduceOne(s0, a);
      ExecConcat(Init(capacity, consumers, messages), before, turn);
      ls, s := before + turn, AfterProducing(s0, a);
      if n - 1 > 0 {
        FirstSlot(n - 1, capacity);
      }
    }
  }

  lemma FirstSlot(p: nat, capacity: nat)
    requires 0 < p < capacity
    ensures Slot(p, capacity) != 0
  {
  }

  /** Only consumer 0 has started: the scan returns its sequence. */
  lemma ScanSeesOnlyStarted(g: seq<nat>, x: nat)
    requires |g| > 0 && AllWords(g) && g[0] == x < NONE
    requires forall i :: 1 <= i < |g| ==> g[i] == NONE
    ensures LoadMin(g) == x
  {
    var k := LoadMinIsMinimum(g);
  }

  /** Consumer 0 reads an event, and the room this seems to free lets the
      producer write one more. */
  lemma RunAhead<T(!new)>(s: State<T>, b: T) returns (ls: seq<Label<T>>, s': State<T>)
    requires Shape(s) && s.prod.Idle? && |s.gate| >= 2
    requires s.cons[0].Waiting? && s.cons[0].at + s.capacity == s.next < s.messages
    requires s.cursor == s.next - 1
    requires forall i :: 1 <= i < |s.gate| ==> s.gate[i] == NONE
    ensures Exec(s, ls) == Some(s')
    ensures s' == AfterProducing(AfterConsuming(s, 0), b)
  {
    var read := ConsumeOne(s, 0);
    var s1 := AfterConsuming(s, 0);
    ScanSeesOnlyStarted(s1.gate, s.cons[0].at);
    RemainingIsFreeRoom(s.capacity, s.next, s.cons[0].at);
    var write := ProduceOne(s1, b);
    ExecConcat(s, read, write);
    ls, s' := read + write, AfterProducing(s1, b);
  }

  lemma InvReads<T>(s: State<T>, c: nat)
    requires Inv(s) && c < |s.cons|
    ensures |s.got[c]| <= |s.log| && forall k :: 0 <= k < |s.got[c]| ==> s.got[c][k] == Some(s.log[k])
  {
    assert ConsumerOk(s, c);
  }

  /** A run in which a consumer read a wrong value was not timely. */
  lemma WrongReadIsUntimely<T>(capacity: nat, consumers: nat, messages: nat, ls: seq<Label<T>>, s: State<T>, c: nat)
    requires 0 < capacity < WORD && c < consumers && messages < WORD
    requires Exec(Init(capacity, consumers, messages), ls) == Some(s)
    requires c < |s.cons| && c < |s.got| && |s.got[c]| > 0 && |s.log| > 0 && s.got[c][0] != Some(s.log[0])
    ensures !TimelyRun(Init(capacity, consumers, messages), ls)
  {
    if TimelyRun(Init(capacity, consumers, messages), ls) {
      InitInv<T>(capacity, consumers, messages);
      RunKeepsInv(Init<T>(capacity, consumers, messages), ls);
      InvReads(s, c);
      assert false;
    }
  }

  /** Two events are written ahead of consumer 1, which then reads the slot of
      sequence 0. */
  lemma OverrunConsumer<T(!new)>(capacity: nat, consumers: nat, messages: nat, a: T, b: T)
    returns (ls: seq<Label<T>>, s: State<T>)
    requires 0 < capacity && consumers >= 2 && capacity + 3 <= messages < WORD
    ensures Exec(Init(capacity, consumers, messages), ls) == Some(s)
    ensures Shape(s) && s.prod.Idle? && s.capacity == capacity && s.messages == messages
    ensures |s.gate| == consumers && |s.log| > 0 && s.log[0] == a && s.got[1] == [Some(b)]
    ensures s.gate[1] == 0 && s.next == capacity + 2
  {
    var s0 := Init<T>(capacity, consumers, messages);
    var l1, s1 := FillRing(capacity, consumers, messages, capacity, a);
    var l2, s2 := RunAhead(s1, b);
    assert Slot(capacity, capacity) == 0;
    assert s2.slots[0] == Some(b) && s2.cons[1] == Waiting(0) && s2.got[1] == [];
    var l3, s3 := RunAhead(s2, b);
    assert s3.slots[0] == Some(b) && s3.cons[1] == Waiting(0) && s3.got[1] == [];
    var l4 := ConsumeOne(s3, 1);
    s := AfterConsuming(s3, 1);
    ThenRun(s0, l1, s1, l2, s2);
    ThenRun(s0, l1 + l2, s2, l3, s3);
    ThenRun(s0, l1 + l2 + l3, s3, l4, s);
    ls := l1 + l2 + l3 + l4;
  }

  /** In some run consumer 1 reads another event's value for sequence 0, and
      once it reports that sequence the room computation wraps around: the
      producer claims although capacity + 1 sequences are already in flight. */
  lemma UnstartedConsumerIsOverrun<T(!new)>(capacity: nat, consumers: nat, messages: nat, a: T, b: T)
    returns (ls: seq<Label<T>>, s: State<T>)
    requires 0 < capacity && consumers >= 2 && capacity + 3 <= messages < WORD && a != b
    ensures Exec(Init(capacity, consumers, messages), ls) == Some(s)
    ensures |s.gate| == |s.got| == consumers
    ensures |s.log| > 0 && s.log[0] == a && s.got[1] == [Some(b)]
    ensures s.gate[1] == 0 && s.next == capacity + 3
    ensures Remaining(capacity, capacity + 2, 0) == WORD - 1
    ensures !TimelyRun(Init(capacity, consumers, messages), ls)
  {
    var s0 := Init<T>(capacity, consumers, messages);
    var before, over := OverrunConsumer(capacity, consumers, messages, a, b);
    RemainingIsFreeRoom(capacity, capacity + 2, 0);
    var k := LoadMinIsMinimum(over.gate);
    var last := ProduceOne(over, b);
    ExecConcat(s0, before, last);
    ls, s := before + last, AfterProducing(over, b);
    WrongReadIsUntimely(capacity, consumers, messages, ls, s, 1);
  }
}
