/** Whole iterations of the fan-out loops as step sequences: what the producer
    and a consumer do when no other thread moves meanwhile. */
module FanoutCalls {
  import opened Wrappers
  import opened Bits
  import opened Words
  import opened Slots
  import opened Gating
  import opened Sequencer
  import opened Fanout

  lemma {:induction false} ExecConcat<T>(s: State<T>, a: seq<Label<T>>, b: seq<Label<T>>)
    requires Exec(s, a).Some?
    ensures Exec(s, a + b) == Exec(Exec(s, a).value, b)
    decreases |a|
  {
    if a == [] {
      assert a + b == b;
    } else {
      assert (a + b)[1..] == a[1..] + b;
      ExecConcat(Apply(s, a[0]), a[1..], b);
    }
  }

  lemma ExecOne<T>(s: State<T>, l: Label<T>)
    requires Enabled(s, l)
    ensures Exec(s, [l]) == Some(Apply(s, l))
  {
    assert Exec(Apply(s, l), [l][1..]) == Some(Apply(s, l));
  }

  /** One more step at the end of a run. */
  lemma ExecSnoc<T>(s: State<T>, ls: seq<Label<T>>, l: Label<T>)
    requires Exec(s, ls).Some? && Enabled(Exec(s, ls).value, l)
    ensures Exec(s, ls + [l]) == Some(Apply(Exec(s, ls).value, l))
  {
    ExecConcat(s, ls, [l]);
    ExecOne(Exec(s, ls).value, l);
  }

  /** The same with the states before and after the step named. */
  lemma ThenStep<T>(s: State<T>, ls: seq<Label<T>>, mid: State<T>, l: Label<T>, end: State<T>)
    requires Exec(s, ls) == Some(mid) && Enabled(mid, l) && Apply(mid, l) == end
    ensures Exec(s, ls + [l]) == Some(end)
  {
    ExecSnoc(s, ls, l);
  }

  lemma ThenRun<T>(s: State<T>, a: seq<Label<T>>, mid: State<T>, b: seq<Label<T>>, end: State<T>)
    requires Exec(s, a) == Some(mid) && Exec(mid, b) == Some(end)
    ensures Exec(s, a + b) == Some(end)
  {
    ExecConcat(s, a, b);
  }

  // ----- whole iterations of the two loops, undisturbed

  /** The state in the middle of a scan that has visited `k` consumers. */
  function Scanned<T>(s: State<T>, k: nat, all: bool): State<T>
    requires AllWords(s.gate) && k <= |s.gate|
  {
    s.(prod := Scanning(k, LoadMin(s.gate[..k]), all))
  }

  lemma ScanStart<T>(s: State<T>)
    requires Shape(s) && s.prod.Idle? && s.next < s.messages
    ensures Exec(s, [ScanFirst]) == Some(Scanned(s, 1, s.gate[0] != NONE))
  {
    ExecOne(s, ScanFirst);
    assert s.gate[..1] == [s.gate[0]];
  }

  lemma ScanStep<T>(s: State<T>, k: nat, all: bool)
    requires Shape(s) && 1 <= k < |s.gate|
    ensures Enabled(Scanned(s, k, all), ScanNext)
    ensures Apply(Scanned(s, k, all), ScanNext) == Scanned(s, k + 1, all && s.gate[k] != NONE)
  {
    assert s.gate[..k + 1][..k] == s.gate[..k] && s.gate[..k + 1][k] == s.gate[k];
  }

  lemma {:induction false} ScanPrefix<T>(s: State<T>, k: nat) returns (ls: seq<Label<T>>, all: bool)
    requires Shape(s) && s.prod.Idle? && s.next < s.messages && 1 <= k <= |s.gate|
    ensures Exec(s, ls) == Some(Scanned(s, k, all))
    ensures forall i :: 0 <= i < |ls| ==> !ls[i].MarkConsumed?
    decreases k
  {
    if k == 1 {
      ScanStart(s);
      ls, all := [ScanFirst], s.gate[0] != NONE;
    } else {
      var before, all0 := ScanPrefix(s, k - 1);
      all := all0 && s.gate[k - 1] != NONE;
      ScanStep(s, k - 1, all0);
      ls := before + [ScanNext];
      ThenStep(s, before, Scanned(s, k - 1, all0), ScanNext, Scanned(s, k, all));
    }
  }

  function AfterProducing<T>(s: State<T>, v: T): State<T>
    requires s.capacity > 0 && |s.slots| == s.capacity
  {
    s.(next := s.next + 1, cursor := s.next, log := s.log + [v],
       slots := s.slots[Slot(s.next, s.capacity) := Some(v)])
  }

  /** A scan that nobody disturbs, and the claim it allows. */
  lemma ScanAndClaim<T>(s: State<T>) returns (ls: seq<Label<T>>)
    requires Shape(s) && s.prod.Idle? && s.next < s.messages
    requires Remaining(s.capacity, s.next, LoadMin(s.gate)) != 0
    ensures Exec(s, ls) == Some(s.(prod := Claimed(s.next), next := s.next + 1))
    ensures forall i :: 0 <= i < |ls| ==> !ls[i].MarkConsumed?
  {
    var scan, all := ScanPrefix(s, |s.gate|);
    var s1 := Scanned(s, |s.gate|, all);
    ScannedAll(s, all);
    ThenStep(s, scan, s1, Decide, s.(prod := Claimed(s.next), next := s.next + 1));
    ls := scan + [Decide];
  }

  lemma ScannedAll<T>(s: State<T>, all: bool)
    requires Shape(s) && s.next < s.messages
    requires Remaining(s.capacity, s.next, LoadMin(s.gate)) != 0
    ensures Enabled(Scanned(s, |s.gate|, all), Decide)
    ensures Apply(Scanned(s, |s.gate|, all), Decide) == s.(prod := Claimed(s.next), next := s.next + 1)
  {
    assert s.gate[..|s.gate|] == s.gate;
  }

  /** One turn of the producer loop succeeds whenever the computed room is not 0. */
  lemma ProduceOne<T>(s: State<T>, v: T) returns (ls: seq<Label<T>>)
    requires Shape(s) && s.prod.Idle? && s.next < s.messages
    requires Remaining(s.capacity, s.next, LoadMin(s.gate)) != 0
    ensures Exec(s, ls) == Some(AfterProducing(s, v))
    ensures forall i :: 0 <= i < |ls| ==> !ls[i].MarkConsumed?
  {
    var claim := ScanAndClaim(s);
    var claimed := s.(prod := Claimed(s.next), next := s.next + 1);
    var rest := WriteAndPublish(claimed, v);
    ThenRun(s, claim, claimed, rest, AfterProducing(s, v));
    ls := claim + rest;
  }

  /** The producer's last three steps, on a claimed sequence. */
  lemma WriteAndPublish<T>(s: State<T>, v: T) returns (ls: seq<Label<T>>)
    requires Shape(s) && s.prod.Claimed? && s.prod.sequence + 1 == s.next
    ensures Exec(s, ls) == Some(s.(prod := Idle, cursor := s.prod.sequence, log := s.log + [v],
                                   slots := s.slots[Slot(s.prod.sequence, s.capacity) := Some(v)]))
    ensures ls == [BeginWrite(v)] + [EndWrite] + [Publish]
  {
    var q, i := s.prod.sequence, Slot(s.prod.sequence, s.capacity);
    var s1 := s.(slots := s.slots[i := None], prod := Writing(q, v));
    var s2 := s.(slots := s.slots[i := Some(v)], log := s.log + [v], prod := Written(q));
    assert s.slots[i := None][i := Some(v)] == s.slots[i := Some(v)];
    ExecOne(s, BeginWrite(v));
    ThenStep(s, [BeginWrite(v)], s1, EndWrite, s2);
    ThenStep(s, [BeginWrite(v)] + [EndWrite], s2, Publish, s2.(cursor := q, prod := Idle));
    ls := [BeginWrite(v)] + [EndWrite] + [Publish];
  }

  function AfterConsuming<T>(s: State<T>, c: nat): State<T>
    requires s.capacity > 0 && |s.slots| == s.capacity && c < |s.cons| == |s.gate| == |s.got|
  {
    var at := s.cons[c].at;
    s.(cons := s.cons[c := Waiting(at + 1)], gate := s.gate[c := at],
       got := s.got[c := s.got[c] + [s.slots[Slot(at, s.capacity)]]])
  }

  /** One turn of a consumer loop on a visible sequence. */
  lemma ConsumeOne<T>(s: State<T>, c: nat) returns (ls: seq<Label<T>>)
    requires Shape(s) && c < |s.cons| && s.cons[c].Waiting?
    requires s.cons[c].at < s.messages && s.cons[c].at <= s.cursor && s.cursor != NONE
    ensures Exec(s, ls) == Some(AfterConsuming(s, c))
  {
    var at := s.cons[c].at;
    var s1, s2 := SetCons(s, c, Passed(at)), SetCons(s, c, Reading(at));
    ExecOne(s, TestVisible(c));
    assert Apply(s1, LoadCursor(c)) == s2;
    ThenStep(s, [TestVisible(c)], s1, LoadCursor(c), s2);
    var rest := ReadAndMark(s2, c);
    assert s2.cons[c := Waiting(at + 1)] == s.cons[c := Waiting(at + 1)];
    ThenRun(s, [TestVisible(c)] + [LoadCursor(c)], s2, rest, AfterConsuming(s, c));
    ls := [TestVisible(c)] + [LoadCursor(c)] + rest;
  }

  lemma ReadAndMark<T>(s: State<T>, c: nat) returns (ls: seq<Label<T>>)
    requires Shape(s) && c < |s.cons| && s.cons[c].Reading? && s.cons[c].at < WORD
    ensures Exec(s, ls) == Some(AfterConsuming(s, c))
  {
    var s1 := Apply(s, Read(c));
    ExecOne(s, Read(c));
    assert Apply(s1, MarkConsumed(c)) == AfterConsuming(s, c) by {
      var at := s.cons[c].at;
      assert s.cons[c := Done(at)][c := Waiting(at + 1)] == s.cons[c := Waiting(at + 1)];
    }
    ThenStep(s, [Read(c)], s1, MarkConsumed(c), AfterConsuming(s, c));
    ls := [Read(c)] + [MarkConsumed(c)];
  }
}
