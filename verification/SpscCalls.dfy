/** Whole calls of the single-producer ring as step sequences: what try_push
    and try_pop do when the other thread does not move meanwhile. */
module SpscCalls {
  import opened Wrappers
  import opened Bits
  import opened Slots
  import opened SpscProtocol

  lemma ExecTwo<T>(s: State<T>, a: Label<T>, b: Label<T>)
    requires Enabled(s, a) && Enabled(Apply(s, a), b)
    ensures Exec(s, [a, b]) == Some(Apply(Apply(s, a), b))
  {
    assert [a, b][1..] == [b] && [b][1..] == [];
    assert Exec(Apply(s, a), [b]) == Some(Apply(Apply(s, a), b));
  }

  lemma ExecThree<T>(s: State<T>, a: Label<T>, b: Label<T>, c: Label<T>)
    requires Enabled(s, a) && Enabled(Apply(s, a), b) && Enabled(Apply(Apply(s, a), b), c)
    ensures Exec(s, [a, b, c]) == Some(Apply(Apply(Apply(s, a), b), c))
  {
    assert [a, b, c][1..] == [b, c];
    ExecTwo(Apply(s, a), b, c);
  }

  lemma {:induction false} ThenRun<T>(s: State<T>, a: seq<Label<T>>, mid: State<T>, b: seq<Label<T>>, end: State<T>)
    requires Exec(s, a) == Some(mid) && Exec(mid, b) == Some(end)
    ensures Exec(s, a + b) == Some(end)
    decreases |a|
  {
    if a == [] {
      assert a + b == b;
    } else {
      assert (a + b)[1..] == a[1..] + b;
      ThenRun(Apply(s, a[0]), a[1..], mid, b, end);
    }
  }

  /** The producer's last three steps. */
  lemma StoreItem<T>(s: State<T>) returns (s': State<T>)
    requires Inv(s) && s.prod.HasRoom?
    ensures Exec(s, [BeginWrite, EndWrite, StoreHead]) == Some(s')
    ensures Inv(s') && s'.prod.Idle? && s'.pushed == s.pushed + [s.prod.v]
    ensures s'.cap == s.cap && s'.cons == s.cons && s'.popped == s.popped
  {
    var s1 := Apply(s, BeginWrite);
    StepKeepsInv(s, BeginWrite);
    var s2 := Apply(s1, EndWrite);
    StepKeepsInv(s1, EndWrite);
    s' := Apply(s2, StoreHead);
    StepKeepsInv(s2, StoreHead);
    ExecThree(s, BeginWrite, EndWrite, StoreHead);
  }

  /** A try_push that nobody interrupts appends below capacity, from any counter
      values, and otherwise returns false and changes nothing. */
  lemma SoloTryPush<T>(s: State<T>, v: T) returns (s': State<T>)
    requires Inv(s) && s.prod.Idle?
    ensures Inv(s') && s'.prod.Idle? && s'.cons == s.cons && s'.popped == s.popped
    ensures |Pending(s)| < s.cap ==>
              Exec(s, [StartPush(v), LoadTail(|s.popped|)] + [BeginWrite, EndWrite, StoreHead]) == Some(s') &&
              Pending(s') == Pending(s) + [v]
    ensures |Pending(s)| == s.cap ==>
              Exec(s, [StartPush(v), LoadTail(|s.popped|)]) == Some(s') && Pending(s') == Pending(s)
  {
    var s1 := Apply(s, StartPush(v));
    StepKeepsInv(s, StartPush(v));
    FailuresAreFullAndEmpty(s1, |s.popped|);
    var s2 := Apply(s1, LoadTail(|s.popped|));
    StepKeepsInv(s1, LoadTail(|s.popped|));
    ExecTwo(s, StartPush(v), LoadTail(|s.popped|));
    s' := s2;
    if s2.prod.HasRoom? {
      s' := StoreItem(s2);
      ThenRun(s, [StartPush(v), LoadTail(|s.popped|)], s2, [BeginWrite, EndWrite, StoreHead], s');
    }
  }

  /** A try_pop that nobody interrupts takes the oldest item, and returns false
      and changes nothing when there is none. */
  lemma SoloTryPop<T>(s: State<T>) returns (s': State<T>)
    requires Inv(s) && s.cons.Resting?
    ensures Inv(s') && s'.cons.Resting? && s'.prod == s.prod && s'.pushed == s.pushed
    ensures Pending(s) != [] ==>
              Exec(s, [LoadHead(|s.pushed|), Copy, StoreTail]) == Some(s') &&
              Pending(s') == Pending(s)[1..] && s'.popped == s.popped + [Pending(s)[0]]
    ensures Pending(s) == [] ==>
              Exec(s, [LoadHead(|s.pushed|)]) == Some(s') && s'.popped == s.popped
  {
    FailuresAreFullAndEmpty(s, |s.pushed|);
    var load: Label<T> := LoadHead(|s.pushed|);
    var s1 := Apply(s, load);
    StepKeepsInv(s, load);
    s' := s1;
    if s1.cons.Seen? {
      NoPayloadRace(s1);
      var s2 := Apply(s1, Copy);
      StepKeepsInv(s1, Copy);
      s' := Apply(s2, StoreTail);
      StepKeepsInv(s2, StoreTail);
      ExecThree(s, load, Copy, StoreTail);
    } else {
      assert [load][1..] == [];
    }
  }

  /** No thread is held up by a step that is not possible: each load may see
      any value between the newest one seen before and the current one. */
  lemma EveryThreadCanStep<T>(s: State<T>, v: T, k: nat)
    requires Inv(s)
    ensures s.prod.Idle? ==> Enabled(s, StartPush(v))
    ensures s.prod.Started? && s.tailView <= k <= |s.popped| ==> Enabled(s, LoadTail(k))
    ensures s.cons.Resting? && s.headView <= k <= |s.pushed| ==> Enabled(s, LoadHead(k))
    ensures s.cons.Seen? ==> Enabled(s, Copy)
  {
    NoPayloadRace(s);
  }
}
