/** The fan-out ring as a step system: one producer that claims, writes and
    publishes, and any number of consumers that each read every sequence.
    The producer's scan of the consumers' progress is not atomic. */
module Fanout {
  import opened Wrappers
  import opened Bits
  import opened Words
  import opened Slots
  import opened Gating
  import opened Sequencer

  /** `allStarted` remembers whether every sequence the scan has read came from
      a consumer that had started; the program does not keep it. */
  datatype Producer<T> =
    | Idle
    | Scanning(seen: nat, min: nat, allStarted: bool)
    | Claimed(sequence: nat)
    | Writing(sequence: nat, v: T)
    | Written(sequence: nat)

  /** A consumer at sequence `at`: waiting, past the visibility test, reading,
      done reading, or stopped by the visibility check. */
  datatype Consumer<T> =
    | Waiting(at: nat)
    | Passed(at: nat)
    | Reading(at: nat)
    | Done(at: nat)
    | Aborted(at: nat)

  /** `log` lists the values written, by sequence, and `got` what each
      consumer has read. */
  datatype State<T> = State(
    capacity: nat,
    messages: nat,
    next: nat,
    cursor: nat,
    gate: seq<nat>,
    slots: seq<Option<T>>,
    prod: Producer<T>,
    cons: seq<Consumer<T>>,
    log: seq<T>,
    got: seq<seq<Option<T>>>)

  datatype Label<T> =
    | ScanFirst
    | ScanNext
    | Decide               // remaining_capacity from the scan, then claim or retry
    | BeginWrite(v: T)
    | EndWrite
    | Publish
    | TestVisible(c: nat)
    | LoadCursor(c: nat)   // the value wait_until_available returns
    | Read(c: nat)
    | MarkConsumed(c: nat)

  ghost predicate Shape<T>(s: State<T>) {
    0 < s.capacity < WORD && |s.slots| == s.capacity && s.messages < WORD &&
    |s.gate| == |s.cons| == |s.got| > 0 && AllWords(s.gate) &&
    s.next < WORD && s.cursor < WORD &&
    (s.prod.Scanning? ==> s.prod.min < WORD)
  }

  ghost predicate Enabled<T>(s: State<T>, l: Label<T>) {
    Shape(s) &&
    match l
    case ScanFirst => s.prod.Idle? && s.next < s.messages
    case ScanNext => s.prod.Scanning? && s.prod.seen < |s.gate|
    case Decide => s.prod.Scanning? && s.prod.seen == |s.gate|
    case BeginWrite(_) => s.prod.Claimed?
    case EndWrite => s.prod.Writing?
    case Publish => s.prod.Written?
    case TestVisible(c) => c < |s.cons| && s.cons[c].Waiting? && s.cons[c].at < s.messages
    case LoadCursor(c) => c < |s.cons| && s.cons[c].Passed?
    case Read(c) => c < |s.cons| && s.cons[c].Reading?
    case MarkConsumed(c) => c < |s.cons| && s.cons[c].Done? && s.cons[c].at < WORD
  }

  function SetCons<T>(s: State<T>, c: nat, k: Consumer<T>): State<T>
    requires c < |s.cons|
  {
    s.(cons := s.cons[c := k])
  }

  ghost function Apply<T>(s: State<T>, l: Label<T>): State<T>
    requires Enabled(s, l)
  {
    match l
    case ScanFirst => s.(prod := Scanning(1, s.gate[0], s.gate[0] != NONE))
    case ScanNext =>
      var p, g := s.prod, s.gate[s.prod.seen];
      s.(prod := Scanning(p.seen + 1, if g < p.min then g else p.min, p.allStarted && g != NONE))
    case Decide =>
      if Remaining(s.capacity, s.next, s.prod.min) == 0 then s.(prod := Idle)
      else s.(prod := Claimed(s.next), next := Add64(s.next, 1))
    case BeginWrite(v) =>
      s.(slots := s.slots[Slot(s.prod.sequence, s.capacity) := None], prod := Writing(s.prod.sequence, v))
    case EndWrite =>
      s.(slots := s.slots[Slot(s.prod.sequence, s.capacity) := Some(s.prod.v)],
         log := s.log + [s.prod.v], prod := Written(s.prod.sequence))
    case Publish => s.(cursor := s.prod.sequence, prod := Idle)
    case TestVisible(c) =>
      var at := s.cons[c].at;
      if s.cursor != NONE && at <= s.cursor then SetCons(s, c, Passed(at)) else s
    case LoadCursor(c) =>
      var at := s.cons[c].at;
      SetCons(s, c, if s.cursor < at then Aborted(at) else Reading(at))
    case Read(c) =>
      var at := s.cons[c].at;
      SetCons(s, c, Done(at)).(got := s.got[c := s.got[c] + [s.slots[Slot(at, s.capacity)]]])
    case MarkConsumed(c) =>
      var at := s.cons[c].at;
      SetCons(s, c, Waiting(at + 1)).(gate := s.gate[c := at])
  }

  ghost function Init<T>(capacity: nat, consumers: nat, messages: nat): State<T> {
    State(capacity, messages, 0, NONE, seq(consumers, (i: nat) => NONE), seq(capacity, (i: nat) => None), Idle,
          seq(consumers, (i: nat) => Waiting(0)), [], seq(consumers, (i: nat) => []))
  }

  ghost function Exec<T>(s: State<T>, ls: seq<Label<T>>): Option<State<T>>
    decreases |ls|
  {
    if ls == [] then Some(s)
    else if Enabled(s, ls[0]) then Exec(Apply(s, ls[0]), ls[1..])
    else None
  }

  // ----- the condition under which the slowest consumer is found

  /** A capacity decision is taken within the first `capacity` claims, or on
      sequences that all came from started consumers, or all from consumers
      that had not started. */
  ghost predicate Timely<T>(s: State<T>, l: Label<T>)
    requires Enabled(s, l)
  {
    l.Decide? ==> s.prod.allStarted || s.prod.min == NONE || s.next < s.capacity
  }

  ghost predicate TimelyRun<T>(s: State<T>, ls: seq<Label<T>>)
    requires Exec(s, ls).Some?
    decreases |ls|
  {
    ls == [] || (Timely(s, ls[0]) && TimelyRun(Apply(s, ls[0]), ls[1..]))
  }

  // ----- the invariant

  /** How many sequences are visible to consumers. */
  function Visible<T>(s: State<T>): int {
    if s.prod.Written? then |s.log| - 1 else |s.log|
  }

  ghost predicate ProducerOk<T>(s: State<T>)
    requires Shape(s)
  {
    match s.prod
    case Idle => |s.log| == s.next
    case Scanning(seen, min, all) =>
      |s.log| == s.next && 1 <= seen <= |s.gate| && s.next < s.messages &&
      Signed(min) < s.next <= Signed(min) + 1 + s.capacity &&
      (all ==> min != NONE && forall i :: 0 <= i < seen ==> s.gate[i] != NONE && min <= s.gate[i])
    case Claimed(q) => q + 1 == s.next && |s.log| == q
    case Writing(q, _) => q + 1 == s.next && |s.log| == q && s.slots[Slot(q, s.capacity)] == None
    case Written(q) => q + 1 == s.next && |s.log| == s.next
  }

  ghost predicate ConsumerOk<T>(s: State<T>, c: nat)
    requires Shape(s) && c < |s.cons|
  {
    var at := s.cons[c].at;
    !s.cons[c].Aborted? &&
    Signed(s.gate[c]) == at - 1 &&
    at <= Visible(s) && s.next <= at + s.capacity &&
    (!s.cons[c].Waiting? ==> at < Visible(s)) &&
    |s.got[c]| == (if s.cons[c].Done? then at + 1 else at) &&
    forall k :: 0 <= k < |s.got[c]| ==> k < |s.log| && s.got[c][k] == Some(s.log[k])
  }

  ghost predicate Inv<T>(s: State<T>) {
    Shape(s) && s.next <= s.messages && ProducerOk(s) &&
    Signed(s.cursor) == Visible(s) - 1 &&
    (forall c {:trigger ConsumerOk(s, c)} :: 0 <= c < |s.cons| ==> ConsumerOk(s, c)) &&
    forall q {:trigger s.log[q]} :: 0 <= q < |s.log| && s.next <= q + s.capacity ==>
      s.slots[Slot(q, s.capacity)] == Some(s.log[q])
  }

  lemma InitInv<T>(capacity: nat, consumers: nat, messages: nat)
    requires 0 < capacity < WORD && consumers > 0 && messages < WORD
    ensures Inv(Init<T>(capacity, consumers, messages))
  {
    var s := Init<T>(capacity, consumers, messages);
    forall c | 0 <= c < consumers ensures ConsumerOk(s, c) {}
  }

  // ----- every timely step keeps it

  lemma ScanKeepsInv<T>(s: State<T>, l: Label<T>)
    requires Inv(s) && Enabled(s, l) && (l.ScanFirst? || l.ScanNext?)
    ensures Inv(Apply(s, l))
  {
    var s' := Apply(s, l);
    var k := if l.ScanFirst? then 0 else s.prod.seen;
    assert ConsumerOk(s, k);
    forall c | 0 <= c < |s.cons| ensures ConsumerOk(s', c) {
      assert ConsumerOk(s, c);
    }
  }

  /** The room computed at a decision is what the scanned sequence leaves, and
      a timely claim stays within `capacity` of every consumer. */
  lemma TimelyClaimIsSafe<T>(s: State<T>)
    requires Inv(s) && Enabled(s, Decide) && Timely(s, Decide)
    ensures Remaining(s.capacity, s.next, s.prod.min) == s.capacity - (s.next - (Signed(s.prod.min) + 1))
    ensures Remaining(s.capacity, s.next, s.prod.min) != 0 ==>
              forall c :: 0 <= c < |s.cons| ==> s.next + 1 <= s.cons[c].at + s.capacity
  {
    RemainingIsFreeRoom(s.capacity, s.next, s.prod.min);
    forall c | 0 <= c < |s.cons|
      ensures s.next < s.capacity || Signed(s.prod.min) + 1 <= s.cons[c].at
    {
      assert ConsumerOk(s, c);
    }
  }

  lemma DecideKeepsInv<T>(s: State<T>)
    requires Inv(s) && Enabled(s, Decide) && Timely(s, Decide)
    ensures Inv(Apply(s, Decide))
  {
    var s' := Apply(s, Decide);
    TimelyClaimIsSafe(s);
    forall c | 0 <= c < |s.cons| ensures ConsumerOk(s', c) {
      assert ConsumerOk(s, c);
    }
  }

  lemma WriteKeepsInv<T>(s: State<T>, l: Label<T>)
    requires Inv(s) && Enabled(s, l) && (l.BeginWrite? || l.EndWrite?)
    ensures Inv(Apply(s, l))
  {
    var s', w := Apply(s, l), s.prod.sequence;
    forall q | 0 <= q < |s'.log| && s.next <= q + s.capacity
      ensures s'.slots[Slot(q, s.capacity)] == Some(s'.log[q])
    {
      if q < w {
        assert s'.log[q] == s.log[q];
        if Slot(q, s.capacity) == Slot(w, s.capacity) { SlotInjective(q, w, s.capacity); }
      }
    }
    forall c | 0 <= c < |s.cons| ensures ConsumerOk(s', c) {
      assert ConsumerOk(s, c);
      assert s.log <= s'.log;
    }
  }

  lemma PublishKeepsInv<T>(s: State<T>)
    requires Inv(s) && Enabled(s, Publish)
    ensures Inv(Apply(s, Publish))
  {
    forall c | 0 <= c < |s.cons| ensures ConsumerOk(Apply(s, Publish), c) {
      assert ConsumerOk(s, c);
    }
  }

  /** A consumer's step keeps what is said about that consumer. */
  lemma OwnStepKeepsConsumer<T>(s: State<T>, l: Label<T>)
    requires Inv(s) && Enabled(s, l)
    requires l.TestVisible? || l.LoadCursor? || l.Read? || l.MarkConsumed?
    ensures Shape(Apply(s, l)) && ConsumerOk(Apply(s, l), l.c)
    ensures s.gate[l.c] != NONE ==> Apply(s, l).gate[l.c] != NONE && Apply(s, l).gate[l.c] >= s.gate[l.c]
  {
    assert ConsumerOk(s, l.c);
  }

  lemma ConsumerStepKeepsInv<T>(s: State<T>, l: Label<T>)
    requires Inv(s) && Enabled(s, l)
    requires l.TestVisible? || l.LoadCursor? || l.Read? || l.MarkConsumed?
    ensures Inv(Apply(s, l))
  {
    var s' := Apply(s, l);
    OwnStepKeepsConsumer(s, l);
    forall c | 0 <= c < |s.cons| ensures ConsumerOk(s', c) {
      if c != l.c {
        assert ConsumerOk(s, c);
      }
    }
  }

  lemma StepKeepsInv<T>(s: State<T>, l: Label<T>)
    requires Inv(s) && Enabled(s, l) && Timely(s, l)
    ensures Inv(Apply(s, l))
  {
    match l
    case ScanFirst => ScanKeepsInv(s, l);
    case ScanNext => ScanKeepsInv(s, l);
    case Decide => DecideKeepsInv(s);
    case BeginWrite(_) => WriteKeepsInv(s, l);
    case EndWrite => WriteKeepsInv(s, l);
    case Publish => PublishKeepsInv(s);
    case _ => ConsumerStepKeepsInv(s, l);
  }

  lemma {:induction false} RunKeepsInv<T>(s: State<T>, ls: seq<Label<T>>)
    requires Inv(s) && Exec(s, ls).Some? && TimelyRun(s, ls)
    ensures Inv(Exec(s, ls).value)
    decreases |ls|
  {
    if ls != [] {
      StepKeepsInv(s, ls[0]);
      RunKeepsInv(Apply(s, ls[0]), ls[1..]);
    }
  }
}
