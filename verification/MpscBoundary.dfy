/** The boundary of the protocol: the constructor accepts capacity 1, where
    "published" and "handed back" are the same number and the ring breaks. */
module MpscBoundary {
  import opened Wrappers
  import opened Bits
  import opened Slots
  import opened MpscProtocol
  import opened MpscProgress
  import opened MpscCalls

  /** A one-slot ring between operations, its cell at `head`. */
  ghost predicate OneSlot<T>(s: State<T>) {
    s.cap == 1 && Shape(s) && Seq(s.cells[0]) == s.head && |s.log| == s.head
  }

  /** At capacity 1 an uninterrupted `try_push` always succeeds, popped or not. */
  lemma SoloTryPushSucceeds<T>(s: State<T>, t: nat, v: T, n: nat) returns (s': State<T>)
    requires OneSlot(s) && t < |s.prod| && s.prod[t].Idle?
    ensures Exec(s, TryPushSteps(t, v, s.head, Newest(s, s.head), n)) == Some(s')
    ensures OneSlot(s') && s'.head == s.head + 1 && s'.tail == s.tail && s'.prod == s.prod
    ensures s'.cons == s.cons && s'.log == s.log + [Claim(t, v)] && s'.popped == s.popped
  {
    SoloClaim(s, t, v, n);
    var claimed := SetProd(TakeHead(s, t, v), t, Ready(s.head, v));
    s' := SoloFill(claimed, t);
    ThenRun(s, Claiming(t, v, s.head, Newest(s, s.head), n), claimed, Filling(t), s');
    assert s'.prod == s.prod;
  }

  /** Two claims were published over the first one before anything was popped. */
  ghost predicate Jammed<T>(s: State<T>) {
    s.cap == 1 && Shape(s) && s.tail == 0 && s.cons.Resting? && s.head >= 2 &&
    Seq(s.cells[0]) >= 2 && s.popped == [] &&
    forall t :: 0 <= t < |s.prod| && Owns(s.prod[t]) ==> s.prod[t].pos >= 1
  }

  ghost predicate LoadsNewest<T>(s: State<T>, l: Label<T>)
    requires Enabled(s, l)
  {
    match l
    case SpinLoad(t, m) => m + 1 == |CellAt(s, s.prod[t].pos).hist|
    case CheckSeq(t, m) => m + 1 == |CellAt(s, s.prod[t].pos).hist|
    case PopCheck(m) => m + 1 == |CellAt(s, s.tail).hist|
    case _ => true
  }

  /** A run whose loads all read the newest value. */
  ghost predicate UpToDate<T>(s: State<T>, ls: seq<Label<T>>)
    requires Exec(s, ls).Some?
    decreases |ls|
  {
    ls == [] || (LoadsNewest(s, ls[0]) && UpToDate(Apply(s, ls[0]), ls[1..]))
  }

  lemma {:induction false} JammedForever<T>(s: State<T>, ls: seq<Label<T>>)
    requires Jammed(s) && Exec(s, ls).Some? && UpToDate(s, ls)
    ensures Jammed(Exec(s, ls).value)
    decreases |ls|
  {
    if ls != [] {
      JammedStep(s, ls[0]);
      JammedForever(Apply(s, ls[0]), ls[1..]);
    }
  }

  lemma JammedStep<T>(s: State<T>, l: Label<T>)
    requires Jammed(s) && Enabled(s, l) && LoadsNewest(s, l)
    ensures Jammed(Apply(s, l))
  {
  }

  /** Capacity 1 passes the check, two `try_push` calls in a row both succeed
      on the one slot, and after them no `try_pop` ever succeeds again. */
  lemma CapacityOneLosesEverything<T>(producers: nat, t: nat, v: T, w: T) returns (two: State<T>)
    requires t < producers
    ensures ValidateCapacity(1) == Some(1)
    ensures exists a, b :: Exec(Init(1, producers), TryPushSteps(t, v, 0, a, 0) + TryPushSteps(t, w, 1, b, 0)) == Some(two)
    ensures OneSlot(two) && two.head == 2 && two.tail == 0 && |two.prod| == producers
    ensures forall j :: 0 <= j < producers ==> two.prod[j].Idle?
    ensures forall ls :: Exec(two, ls).Some? && UpToDate(two, ls) ==> Exec(two, ls).value.popped == []
  {
    AndZero(1);
    var s0 := Init<T>(1, producers);
    var s1 := SoloTryPushSucceeds(s0, t, v, 0);
    two := SoloTryPushSucceeds(s1, t, w, 0);
    ThenRun(s0, TryPushSteps(t, v, 0, Newest(s0, 0), 0), s1, TryPushSteps(t, w, 1, Newest(s1, 1), 0), two);
    forall ls | Exec(two, ls).Some? && UpToDate(two, ls) ensures Exec(two, ls).value.popped == [] {
      JammedForever(two, ls);
    }
  }
}
