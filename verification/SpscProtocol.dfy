/** The single-producer single-consumer ring as a step system: 64-bit counters
    that wrap, every interleaving, and loads that may lag behind. */
module SpscProtocol {
  import opened Wrappers
  import opened Bits
  import opened Words
  import opened Slots
  import opened Fifo

  datatype Producer<T> =
    | Idle
    | Started(v: T)   // head_ read, about to read tail_
    | HasRoom(v: T)   // capacity test passed
    | Writing(v: T)   // payload half written
    | Written(v: T)   // payload complete, head_ not yet stored

  datatype Consumer<T> =
    | Resting
    | Seen            // head_ differs from tail_
    | Copied(out: T)

  /** `head` and `tail` are the stored 64-bit values. `pushed` and `popped` are
      the histories of the two counters, `tailView` and `headView` the newest
      counter value the other thread has read: later loads never go back. */
  datatype State<T> = State(
    cap: nat,
    head: nat,
    tail: nat,
    buf: seq<Option<T>>,
    prod: Producer<T>,
    cons: Consumer<T>,
    tailView: nat,
    headView: nat,
    pushed: seq<T>,
    popped: seq<T>)

  datatype Label<T> =
    | StartPush(v: T)
    | LoadTail(k: nat)   // reads the k-th value tail_ has held
    | BeginWrite
    | EndWrite
    | StoreHead
    | LoadHead(k: nat)   // try_pop: reads the k-th value head_ has held
    | Copy
    | StoreTail

  ghost predicate Shape<T>(s: State<T>) {
    IsPowerOfTwo(s.cap) && s.cap < WORD && |s.buf| == s.cap && s.head < WORD && s.tail < WORD
  }

  ghost predicate Enabled<T>(s: State<T>, l: Label<T>) {
    Shape(s) &&
    match l
    case StartPush(_) => s.prod.Idle?
    case LoadTail(k) => s.prod.Started? && s.tailView <= k <= |s.popped|
    case BeginWrite => s.prod.HasRoom?
    case EndWrite => s.prod.Writing?
    case StoreHead => s.prod.Written?
    case LoadHead(k) => s.cons.Resting? && s.headView <= k <= |s.pushed|
    case Copy => s.cons.Seen? && s.buf[Slot(s.tail, s.cap)].Some?
    case StoreTail => s.cons.Copied?
  }

  ghost function Apply<T>(s: State<T>, l: Label<T>): State<T>
    requires Enabled(s, l)
  {
    match l
    case StartPush(v) => s.(prod := Started(v))
    case LoadTail(k) =>
      var full := Sub64(Add64(s.head, 1), Wrap(k)) > s.cap;
      s.(tailView := k, prod := if full then Idle else HasRoom(s.prod.v))
    case BeginWrite =>
      s.(buf := s.buf[Slot(s.head, s.cap) := None], prod := Writing(s.prod.v))
    case EndWrite =>
      s.(buf := s.buf[Slot(s.head, s.cap) := Some(s.prod.v)], prod := Written(s.prod.v))
    case StoreHead =>
      s.(head := Add64(s.head, 1), pushed := s.pushed + [s.prod.v], prod := Idle)
    case LoadHead(k) =>
      s.(headView := k, cons := if Wrap(k) == s.tail then Resting else Seen)
    case Copy => s.(cons := Copied(s.buf[Slot(s.tail, s.cap)].value))
    case StoreTail =>
      s.(tail := Add64(s.tail, 1), popped := s.popped + [s.cons.out], cons := Resting)
  }

  ghost function Init<T>(cap: nat): State<T> {
    State(cap, 0, 0, seq(cap, (i: nat) => None), Idle, Resting, 0, 0, [], [])
  }

  ghost function Exec<T>(s: State<T>, ls: seq<Label<T>>): Option<State<T>>
    decreases |ls|
  {
    if ls == [] then Some(s)
    else if Enabled(s, ls[0]) then Exec(Apply(s, ls[0]), ls[1..])
    else None
  }

  // ----- the invariant

  ghost predicate Counters<T>(s: State<T>) {
    s.head == Wrap(|s.pushed|) && s.tail == Wrap(|s.popped|) &&
    s.popped <= s.pushed &&
    s.tailView <= |s.popped| <= s.headView <= |s.pushed| <= s.tailView + s.cap
  }

  ghost predicate ThreadsOk<T>(s: State<T>)
    requires Shape(s)
  {
    (s.prod.HasRoom? || s.prod.Writing? || s.prod.Written? ==> |s.pushed| < s.tailView + s.cap) &&
    (s.prod.Writing? ==> s.buf[Slot(|s.pushed|, s.cap)] == None) &&
    (s.prod.Written? ==> s.buf[Slot(|s.pushed|, s.cap)] == Some(s.prod.v)) &&
    (!s.cons.Resting? ==> |s.popped| < s.headView) &&
    (s.cons.Copied? ==> |s.popped| < |s.pushed| && s.cons.out == s.pushed[|s.popped|])
  }

  ghost predicate Inv<T>(s: State<T>) {
    Shape(s) && Counters(s) && ThreadsOk(s) &&
    forall q {:trigger s.pushed[q]} :: |s.popped| <= q < |s.pushed| ==> s.buf[Slot(q, s.cap)] == Some(s.pushed[q])
  }

  lemma InitInv<T>(cap: nat)
    requires IsPowerOfTwo(cap) && cap < WORD
    ensures Inv(Init<T>(cap))
  {
  }

  /** The two tests on wrapped counters decide full and empty exactly. */
  lemma TestsAreExact<T>(s: State<T>, k: nat)
    requires Inv(s)
    ensures s.tailView <= k <= |s.popped| ==>
              (Sub64(Add64(s.head, 1), Wrap(k)) > s.cap <==> |s.pushed| - k == s.cap)
    ensures s.headView <= k <= |s.pushed| ==> (Wrap(k) == s.tail <==> k == |s.popped|)
  {
    HalfWord(s.cap);
    if s.tailView <= k <= |s.popped| {
      IncrementWraps(|s.pushed|);
      DistanceSurvivesWrap(|s.pushed| + 1, k);
    }
    if s.headView <= k <= |s.pushed| {
      DistanceSurvivesWrap(k, |s.popped|);
    }
  }

  lemma WriteKeepsInv<T>(s: State<T>, l: Label<T>)
    requires Inv(s) && Enabled(s, l) && (l.BeginWrite? || l.EndWrite?)
    ensures Inv(Apply(s, l))
  {
    var s' := Apply(s, l);
    SlotAfterWrap(|s.pushed|, s.cap);
    forall q | |s.popped| <= q < |s.pushed| ensures s'.buf[Slot(q, s.cap)] == Some(s.pushed[q]) {
      if Slot(q, s.cap) == Slot(|s.pushed|, s.cap) { SlotInjective(q, |s.pushed|, s.cap); }
    }
  }

  lemma StoreHeadKeepsInv<T>(s: State<T>)
    requires Inv(s) && Enabled(s, StoreHead)
    ensures Inv(Apply(s, StoreHead))
  {
    var s' := Apply(s, StoreHead);
    IncrementWraps(|s.pushed|);
    forall q | |s.popped| <= q < |s'.pushed| ensures s'.buf[Slot(q, s.cap)] == Some(s'.pushed[q]) {
      if q < |s.pushed| {
        assert s'.pushed[q] == s.pushed[q];
      }
    }
  }

  lemma CopyKeepsInv<T>(s: State<T>)
    requires Inv(s) && Enabled(s, Copy)
    ensures Inv(Apply(s, Copy))
  {
    SlotAfterWrap(|s.popped|, s.cap);
  }

  lemma StoreTailKeepsInv<T>(s: State<T>)
    requires Inv(s) && Enabled(s, StoreTail)
    ensures Inv(Apply(s, StoreTail))
  {
    var s' := Apply(s, StoreTail);
    assert s'.popped == s.pushed[..|s.popped| + 1];
    IncrementWraps(|s.popped|);
  }

  lemma StepKeepsInv<T>(s: State<T>, l: Label<T>)
    requires Inv(s) && Enabled(s, l)
    ensures Inv(Apply(s, l))
  {
    match l
    case StartPush(_) =>
    case LoadTail(k) => TestsAreExact(s, k);
    case BeginWrite => WriteKeepsInv(s, l);
    case EndWrite => WriteKeepsInv(s, l);
    case StoreHead => StoreHeadKeepsInv(s);
    case LoadHead(k) => TestsAreExact(s, k);
    case Copy => CopyKeepsInv(s);
    case StoreTail => StoreTailKeepsInv(s);
  }

  // ----- what it promises

  ghost function Pending<T>(s: State<T>): seq<T>
    requires |s.popped| <= |s.pushed|
  {
    s.pushed[|s.popped|..]
  }

  ghost function EventOf<T>(s: State<T>, l: Label<T>): seq<Event<T>>
    requires Enabled(s, l)
  {
    match l
    case StoreHead => [Enq(s.prod.v)]
    case StoreTail => [Deq(s.cons.out)]
    case _ => []
  }

  ghost function Events<T>(s: State<T>, ls: seq<Label<T>>): seq<Event<T>>
    requires Exec(s, ls).Some?
    decreases |ls|
  {
    if ls == [] then [] else EventOf(s, ls[0]) + Events(Apply(s, ls[0]), ls[1..])
  }

  lemma StepRefinesFifo<T>(s: State<T>, l: Label<T>)
    requires Inv(s) && Enabled(s, l)
    ensures Inv(Apply(s, l))
    ensures Replay(Pending(s), EventOf(s, l)) == Some(Pending(Apply(s, l)))
    ensures |Pending(s)| <= s.cap
  {
    var s' := Apply(s, l);
    StepKeepsInv(s, l);
    if l.StoreHead? {
      assert Pending(s') == Pending(s) + [s.prod.v];
    } else if l.StoreTail? {
      assert Pending(s') == Pending(s)[1..];
    } else {
      assert Pending(s') == Pending(s);
    }
  }

  /** Every run, across any number of counter overflows, is a run of a FIFO
      that never holds more than `cap` items. */
  lemma {:induction false} RunRefinesFifo<T>(s: State<T>, ls: seq<Label<T>>)
    requires Inv(s) && Exec(s, ls).Some?
    ensures Inv(Exec(s, ls).value)
    ensures Replay(Pending(s), Events(s, ls)) == Some(Pending(Exec(s, ls).value))
    ensures |Pending(Exec(s, ls).value)| <= s.cap
    decreases |ls|
  {
    if ls != [] {
      var s1, e := Apply(s, ls[0]), EventOf(s, ls[0]);
      StepRefinesFifo(s, ls[0]);
      RunRefinesFifo(s1, ls[1..]);
      ReplayConcat(Pending(s), e, Events(s1, ls[1..]));
    }
  }

  /** `try_push` fails only when the ring was full when tail_ was read, and
      with an up-to-date load exactly then; likewise for an empty `try_pop`. */
  lemma FailuresAreFullAndEmpty<T>(s: State<T>, k: nat)
    requires Inv(s)
    ensures Enabled(s, LoadTail(k)) ==>
              (Apply(s, LoadTail(k)).prod.Idle? <==> |s.pushed| - k == s.cap)
    ensures Enabled(s, LoadTail(|s.popped|)) ==>
              (Apply(s, LoadTail(|s.popped|)).prod.Idle? <==> |Pending(s)| == s.cap)
    ensures Enabled(s, LoadHead(k)) ==> (Apply(s, LoadHead(k)).cons.Resting? <==> k == |s.popped|)
    ensures Enabled(s, LoadHead(|s.pushed|)) ==>
              (Apply(s, LoadHead(|s.pushed|)).cons.Resting? <==> Pending(s) == [])
  {
    TestsAreExact(s, k);
    TestsAreExact(s, |s.popped|);
    TestsAreExact(s, |s.pushed|);
  }

  /** The producer never writes the slot the consumer is copying, and what the
      consumer copies is complete. */
  lemma NoPayloadRace<T>(s: State<T>)
    requires Inv(s)
    ensures (s.prod.HasRoom? || s.prod.Writing? || s.prod.Written?) && !s.cons.Resting? ==>
              Slot(s.head, s.cap) != Slot(s.tail, s.cap)
    ensures s.prod.Writing? ==> s.buf[Slot(s.head, s.cap)] == None
    ensures s.cons.Seen? ==> Enabled(s, Copy)
  {
    SlotAfterWrap(|s.pushed|, s.cap);
    SlotAfterWrap(|s.popped|, s.cap);
    if Slot(|s.pushed|, s.cap) == Slot(|s.popped|, s.cap) && |s.pushed| < |s.popped| + s.cap {
      SlotInjective(|s.popped|, |s.pushed|, s.cap);
    }
    assert s.cons.Seen? ==> s.buf[Slot(|s.popped|, s.cap)] == Some(s.pushed[|s.popped|]);
  }
}
