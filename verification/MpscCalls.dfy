/** Whole calls as step sequences: what push, try_push and try_pop do when no
    other thread moves meanwhile, and runs that only stale positions and
    waiting producers explain. */
module MpscCalls {
  import opened Wrappers
  import opened Slots
  import opened MpscProtocol
  import opened MpscInvariant
  import opened MpscTheorems
  import opened MpscProgress

  lemma ExecTwo<T>(s: State<T>, a: Label<T>, b: Label<T>)
    requires Enabled(s, a) && Enabled(Apply(s, a), b)
    ensures Exec(s, [a, b]) == Some(Apply(Apply(s, a), b))
  {
    assert [a, b][1..] == [b] && [b][1..] == [];
    assert Exec(Apply(s, a), [b]) == Some(Apply(Apply(s, a), b));
  }

  lemma ExecThree<T>(s: State<T>, a: Label<T>, b: Label<T>, c: Label<T>)
    requires Enabled(s, a) && Enabled(Apply(s, a), b) && Enabled(Apply(Apply(s, a), b), c)
    ensures Exec(s, [a, b, c]) == Some(Apply(Apply(Apply(s, a), b), c))
  {
    var s2 := Apply(Apply(s, a), b);
    assert [a, b, c][1..] == [b, c] && [b, c][1..] == [c] && [c][1..] == [];
    assert Exec(s2, [c]) == Some(Apply(s2, c));
    assert Exec(Apply(s, a), [b, c]) == Some(Apply(s2, c));
  }

  /** One run after another. */
  lemma ThenRun<T>(s: State<T>, a: seq<Label<T>>, mid: State<T>, b: seq<Label<T>>, end: State<T>)
    requires Exec(s, a) == Some(mid) && Exec(mid, b) == Some(end)
    ensures Exec(s, a + b) == Some(end)
  {
    ExecConcat(s, a, b);
  }

  // ----- the steps of one try_push that nobody interrupts

  /** `n` rounds of a check that passes and a CAS that fails for no reason. */
  function Retries<T>(t: nat, m: nat, head: nat, n: nat): seq<Label<T>> {
    if n == 0 then [] else [CheckSeq(t, m), CasFail(t, head)] + Retries(t, m, head, n - 1)
  }

  function Claiming<T>(t: nat, v: T, head: nat, m: nat, n: nat): seq<Label<T>> {
    [LoadHead(t, v, head)] + Retries(t, m, head, n) + [CheckSeq(t, m), CasOk(t)]
  }

  function Filling<T>(t: nat): seq<Label<T>> {
    [BeginWrite(t), EndWrite(t), Publish(t)]
  }

  function TryPushSteps<T>(t: nat, v: T, head: nat, m: nat, n: nat): seq<Label<T>> {
    Claiming(t, v, head, m, n) + Filling(t)
  }

  ghost predicate MayPush<T>(s: State<T>, t: nat) {
    Shape(s) && |s.log| == s.head && t < |s.prod| && s.prod[t].Idle?
  }

  lemma OneRetry<T>(s: State<T>, t: nat, v: T)
    requires MayPush(s, t) && Seq(CellAt(s, s.head)) == s.head
    ensures var loaded := SetProd(s, t, Loaded(s.head, v));
            Exec(loaded, [CheckSeq(t, Newest(s, s.head)), CasFail(t, s.head)]) == Some(loaded)
  {
    var m := Newest(s, s.head);
    var loaded := SetProd(s, t, Loaded(s.head, v));
    var checked := SetProd(s, t, Checked(s.head, v));
    assert CellAt(loaded, s.head) == CellAt(s, s.head);
    assert Apply(loaded, CheckSeq(t, m)) == checked;
    assert Apply(checked, CasFail(t, s.head)) == loaded;
    ExecTwo(loaded, CheckSeq(t, m), CasFail(t, s.head));
  }

  /** However often the weak CAS fails, the producer is back at its check. */
  lemma {:induction false} RetriesReturn<T>(s: State<T>, t: nat, v: T, n: nat)
    requires MayPush(s, t) && Seq(CellAt(s, s.head)) == s.head
    ensures var loaded := SetProd(s, t, Loaded(s.head, v));
            Exec(loaded, Retries(t, Newest(s, s.head), s.head, n)) == Some(loaded)
    decreases n
  {
    if n > 0 {
      var loaded := SetProd(s, t, Loaded(s.head, v));
      OneRetry(s, t, v);
      RetriesReturn(s, t, v, n - 1);
      ThenRun(loaded, [CheckSeq(t, Newest(s, s.head)), CasFail(t, s.head)], loaded,
              Retries(t, Newest(s, s.head), s.head, n - 1), loaded);
    }
  }

  lemma ClaimAfterRetries<T>(s: State<T>, t: nat, v: T)
    requires MayPush(s, t) && Seq(CellAt(s, s.head)) == s.head
    ensures Exec(SetProd(s, t, Loaded(s.head, v)), [CheckSeq(t, Newest(s, s.head)), CasOk(t)]) ==
            Some(SetProd(TakeHead(s, t, v), t, Ready(s.head, v)))
  {
    var m := Newest(s, s.head);
    var loaded := SetProd(s, t, Loaded(s.head, v));
    var checked := SetProd(s, t, Checked(s.head, v));
    assert CellAt(loaded, s.head) == CellAt(s, s.head);
    assert Apply(loaded, CheckSeq(t, m)) == checked;
    assert Apply(checked, CasOk(t)) == SetProd(TakeHead(s, t, v), t, Ready(s.head, v));
    ExecTwo(loaded, CheckSeq(t, m), CasOk(t));
  }

  lemma SoloClaim<T>(s: State<T>, t: nat, v: T, n: nat)
    requires MayPush(s, t) && Seq(CellAt(s, s.head)) == s.head
    ensures Exec(s, Claiming(t, v, s.head, Newest(s, s.head), n)) ==
            Some(SetProd(TakeHead(s, t, v), t, Ready(s.head, v)))
  {
    var m := Newest(s, s.head);
    var loaded := SetProd(s, t, Loaded(s.head, v));
    assert Exec(s, [LoadHead(t, v, s.head)]) == Some(loaded);
    RetriesReturn(s, t, v, n);
    ThenRun(s, [LoadHead(t, v, s.head)], loaded, Retries(t, m, s.head, n), loaded);
    ClaimAfterRetries(s, t, v);
    ThenRun(s, [LoadHead(t, v, s.head)] + Retries(t, m, s.head, n), loaded, [CheckSeq(t, m), CasOk(t)],
            SetProd(TakeHead(s, t, v), t, Ready(s.head, v)));
  }

  lemma SoloFill<T>(s: State<T>, t: nat) returns (s': State<T>)
    requires Shape(s) && t < |s.prod| && s.prod[t].Ready?
    ensures Exec(s, Filling(t)) == Some(s')
    ensures var p := s.prod[t];
            s' == SetProd(SetCell(s, p.pos, Cell(CellAt(s, p.pos).hist + [p.pos + 1], Some(p.v))), t, Idle)
  {
    var a: Label<T>, b: Label<T>, c: Label<T> := BeginWrite(t), EndWrite(t), Publish(t);
    ExecThree(s, a, b, c);
    s' := Apply(Apply(Apply(s, a), b), c);
    var p := s.prod[t];
    var i := Slot(p.pos, s.cap);
    assert s'.prod == s.prod[t := Idle];
    assert s'.cells == s.cells[i := Cell(CellAt(s, p.pos).hist + [p.pos + 1], Some(p.v))];
  }

  // ----- uninterrupted calls of a ring with two slots or more

  /** `s'` is `s` with one more published item, claimed by `t`. */
  ghost predicate Appended<T>(s: State<T>, s': State<T>, t: nat, v: T) {
    Inv(s') && s'.cap == s.cap && s'.prod == s.prod && s'.cons == s.cons && s'.tail == s.tail && s'.popped == s.popped &&
    s'.log == s.log + [Claim(t, v)] && s'.head == s.head + 1 && !Held(s', s.head)
  }

  lemma FreeCellAtHead<T>(s: State<T>)
    requires Inv(s) && s.head < Base(s) + s.cap
    ensures Seq(CellAt(s, s.head)) == s.head
  {
    assert SlotOk(s, s.head);
  }

  /** With room in the ring a try_push that nobody interrupts publishes its
      value, after any number of CAS failures. */
  lemma SoloTryPush<T>(s: State<T>, t: nat, v: T, n: nat) returns (s': State<T>)
    requires Inv(s) && t < |s.prod| && s.prod[t].Idle? && s.head < Base(s) + s.cap
    ensures Exec(s, TryPushSteps(t, v, s.head, Newest(s, s.head), n)) == Some(s')
    ensures Appended(s, s', t, v)
  {
    FreeCellAtHead(s);
    SoloClaim(s, t, v, n);
    var claimed := SetProd(TakeHead(s, t, v), t, Ready(s.head, v));
    s' := SoloFill(claimed, t);
    var steps := Claiming(t, v, s.head, Newest(s, s.head), n);
    ThenRun(s, steps, claimed, Filling(t), s');
    RunKeepsInv(s, steps + Filling(t));
    assert s'.prod == s.prod;
  }

  /** On a full ring it returns false at its first check and changes nothing. */
  lemma SoloTryPushOnFull<T>(s: State<T>, t: nat, v: T)
    requires Inv(s) && t < |s.prod| && s.prod[t].Idle? && s.head >= Base(s) + s.cap
    ensures var load, check := LoadHead(t, v, s.head), CheckSeq(t, Newest(s, s.head));
            Enabled(s, load) && Enabled(Apply(s, load), check) && Apply(Apply(s, load), check) == s &&
            Exec(s, [load, check]) == Some(s)
  {
    var loaded := Apply(s, LoadHead(t, v, s.head));
    var check: Label<T> := CheckSeq(t, Newest(s, s.head));
    StepKeepsInv(s, LoadHead(t, v, s.head));
    assert CellAt(loaded, s.head) == CellAt(s, s.head);
    FreshCheckPassesIff(loaded, t, check.m);
    assert Apply(loaded, check) == s;
    ExecTwo(s, LoadHead(t, v, s.head), check);
  }

  /** push claims at once, and with room publishes like try_push. */
  lemma SoloPush<T>(s: State<T>, t: nat, v: T) returns (s': State<T>)
    requires Inv(s) && t < |s.prod| && s.prod[t].Idle? && s.head < Base(s) + s.cap
    ensures Exec(s, [StartPush(t, v), SpinLoad(t, Newest(s, s.head))] + Filling(t)) == Some(s')
    ensures Appended(s, s', t, v)
  {
    FreeCellAtHead(s);
    var a: Label<T>, b: Label<T> := StartPush(t, v), SpinLoad(t, Newest(s, s.head));
    var started := Apply(s, a);
    assert CellAt(started, s.head) == CellAt(s, s.head);
    var claimed := Apply(started, b);
    assert claimed == SetProd(TakeHead(s, t, v), t, Ready(s.head, v));
    ExecTwo(s, a, b);
    s' := SoloFill(claimed, t);
    ThenRun(s, [a, b], claimed, Filling(t), s');
    RunKeepsInv(s, [a, b] + Filling(t));
    assert s'.prod == s.prod;
  }

  /** Outside the window every look at the cell leaves the producer waiting. */
  lemma WaitingGoesOn<T>(s: State<T>, t: nat, m: nat)
    requires Inv(s) && Enabled(s, SpinLoad(t, m)) && s.prod[t].pos >= Base(s) + s.cap
    ensures Apply(s, SpinLoad(t, m)) == s
  {
    var pos := s.prod[t].pos;
    if CellAt(s, pos).hist[m] == pos {
      OwnerMessageIsCurrent(s, t, m);
    }
  }

  function PopSteps<T>(m: nat): seq<Label<T>> {
    [PopCheck(m)] + [PopCopy, PopRecycle, PopAdvance]
  }

  lemma CopyAndRecycle<T>(s: State<T>) returns (s': State<T>)
    requires Shape(s) && s.cons.Seen? && CellAt(s, s.tail).value.Some?
    ensures Exec(s, [PopCopy, PopRecycle, PopAdvance]) == Some(s')
    ensures s' == s.(cells := s'.cells, cons := Resting, tail := s.tail + 1,
                     popped := s.popped + [CellAt(s, s.tail).value.value])
  {
    var a: Label<T>, b: Label<T>, c: Label<T> := PopCopy, PopRecycle, PopAdvance;
    ExecThree(s, a, b, c);
    s' := Apply(Apply(Apply(s, a), b), c);
  }

  /** try_pop takes the item at `tail` when it is published. */
  lemma SoloTryPop<T>(s: State<T>) returns (s': State<T>)
    requires Inv(s) && s.cons.Resting? && s.tail < s.head && !Held(s, s.tail)
    ensures Exec(s, PopSteps(Newest(s, s.tail))) == Some(s')
    ensures Inv(s') && s'.cons.Resting? && s'.prod == s.prod && s'.log == s.log && s'.head == s.head
    ensures s'.tail == s.tail + 1 && s'.popped == s.popped + [s.log[s.tail].v]
  {
    assert SlotOk(s, s.tail);
    var m := Newest(s, s.tail);
    var seen := s.(cons := Seen);
    assert Exec(s, [PopCheck(m)]) == Some(seen);
    s' := CopyAndRecycle(seen);
    ThenRun(s, [PopCheck(m)], seen, [PopCopy, PopRecycle, PopAdvance], s');
    RunKeepsInv(s, PopSteps(m));
  }

  /** It returns false, and changes nothing, when nothing is claimed or the
      oldest claim is not published yet, whatever message it loads. */
  lemma SoloTryPopOnEmpty<T>(s: State<T>, m: nat)
    requires Inv(s) && Enabled(s, PopCheck(m)) && (s.tail == s.head || Held(s, s.tail))
    ensures Apply(s, PopCheck(m)) == s
  {
    if CellAt(s, s.tail).hist[m] == s.tail + 1 {
      PopMessageIsCurrent(s, m);
    }
  }

  /** No thread is ever held up by a step that is not possible: an idle producer
      can start either call, with any position it may still see, and every
      other thread can take its next step, on any message of its cell. */
  lemma EveryThreadCanStep<T>(s: State<T>, t: nat, v: T, pos: nat, m: nat)
    requires Inv(s) && t < |s.prod|
    ensures s.prod[t].Idle? ==> Enabled(s, StartPush(t, v))
    ensures s.prod[t].Idle? && pos <= s.head && NoOwnClaimFrom(s, t, pos) ==> Enabled(s, LoadHead(t, v, pos))
    ensures s.prod[t].Claimed? && m < |CellAt(s, s.prod[t].pos).hist| ==> Enabled(s, SpinLoad(t, m))
    ensures s.prod[t].Loaded? && m < |CellAt(s, s.prod[t].pos).hist| ==> Enabled(s, CheckSeq(t, m))
    ensures s.prod[t].Checked? ==>
              (s.prod[t].pos == s.head ==> Enabled(s, CasOk(t))) &&
              (pos <= s.head && NoOwnClaimFrom(s, t, pos) ==> Enabled(s, CasFail(t, pos)))
    ensures s.cons.Resting? && m < |CellAt(s, s.tail).hist| ==> Enabled(s, PopCheck(m))
    ensures s.cons.Seen? ==> Enabled(s, PopCopy)
  {
    NoPayloadRace(s, t);
  }

  // ----- runs past the capacity, and failures without a full ring

  lemma {:induction false} Fill<T>(cap: nat, producers: nat, v: T, n: nat) returns (ls: seq<Label<T>>, s: State<T>)
    requires cap >= 2 && producers > 0 && n <= cap
    ensures Exec(Init(cap, producers), ls) == Some(s) && Inv(s)
    ensures s.cap == cap && s.head == n && s.tail == 0 && s.cons.Resting? && s.prod == Init<T>(cap, producers).prod
    decreases n
  {
    if n == 0 {
      InitInv<T>(cap, producers);
      ls, s := [], Init(cap, producers);
    } else {
      var before, s0 := Fill(cap, producers, v, n - 1);
      s := SoloPush(s0, 0, v);
      ls := before + ([StartPush(0, v), SpinLoad(0, Newest(s0, s0.head))] + Filling(0));
      ThenRun(Init(cap, producers), before, s0, [StartPush(0, v), SpinLoad(0, Newest(s0, s0.head))] + Filling(0), s);
    }
  }

  /** The overshoot is real: for every `k` up to the number of producers some
      run claims `k` positions beyond a full ring. */
  lemma {:induction false} OvershootIsReached<T>(cap: nat, producers: nat, k: nat, v: T)
    returns (ls: seq<Label<T>>, s: State<T>)
    requires cap >= 2 && 0 < producers && k <= producers
    ensures Exec(Init(cap, producers), ls) == Some(s) && Inv(s)
    ensures s.head == Base(s) + s.cap + k && |Spinners(s)| == k
    ensures s.cap == cap && s.tail == 0 && |s.prod| == producers && s.cons.Resting?
    ensures forall t :: k <= t < producers ==> s.prod[t].Idle?
    decreases k
  {
    if k == 0 {
      ls, s := Fill(cap, producers, v, cap);
    } else {
      var before, s0 := OvershootIsReached(cap, producers, k - 1, v);
      var l := StartPush(k - 1, v);
      StepKeepsInv(s0, l);
      s := Apply(s0, l);
      assert Exec(s0, [l]) == Some(s);
      ThenRun(Init(cap, producers), before, s0, [l], s);
      ls := before + [l];
    }
    OvershootIsSpinners(s);
  }

  /** A false from try_push does not mean the ring is full: a position loaded
      before another producer claimed it fails the check with room left. */
  lemma StalePositionFails<T>(cap: nat, producers: nat, v: T, w: T) returns (ls: seq<Label<T>>, s: State<T>)
    requires cap >= 2 && producers >= 2
    ensures Exec(Init(cap, producers), ls) == Some(s) && Inv(s)
    ensures s.head == 1 && s.tail == 0 && s.log == [Claim(0, w)]
    ensures |s.prod| == producers && s.prod[1] == Loaded(0, v) && Enabled(s, CheckSeq(1, Newest(s, 0)))
    ensures Apply(s, CheckSeq(1, Newest(s, 0))) == SetProd(s, 1, Idle)
  {
    var s0 := Init<T>(cap, producers);
    InitInv<T>(cap, producers);
    var l := LoadHead(1, v, 0);
    StepKeepsInv(s0, l);
    var loaded := Apply(s0, l);
    assert Exec(s0, [l]) == Some(loaded);
    s := SoloTryPush(loaded, 0, w, 0);
    var call := TryPushSteps(0, w, loaded.head, Newest(loaded, loaded.head), 0);
    ThenRun(s0, [l], loaded, call, s);
    ls := [l] + call;
    FreshCheckPassesIff(s, 1, Newest(s, 0));
  }
}
