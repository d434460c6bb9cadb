/** Every atomic step of the ring keeps the invariant, for any capacity >= 2,
    any number of producers and any stale loads. */
module MpscInvariant {
  import opened Wrappers
  import opened Slots
  import opened MpscProtocol

  lemma InitInv<T>(cap: nat, producers: nat)
    requires cap >= 2
    ensures Inv(Init<T>(cap, producers))
  {
    var s := Init<T>(cap, producers);
    forall p | Base(s) <= p < Base(s) + s.cap ensures SlotOk(s, p) {
    }
  }

  /** Changing one producer's place, but not what it owns, keeps everything else. */
  lemma SameClaimsKeepInv<T>(s: State<T>, t: nat, p: Producer<T>)
    requires Inv(s) && t < |s.prod|
    requires Owns(p) == Owns(s.prod[t]) && (Owns(p) ==> p.pos == s.prod[t].pos)
    requires ProducerOk(SetProd(s, t, p), t)
    ensures Inv(SetProd(s, t, p))
  {
    var s' := SetProd(s, t, p);
    forall q: nat ensures Held(s', q) == Held(s, q) {}
    forall q | Base(s) <= q < Base(s) + s.cap ensures SlotOk(s', q) {
      assert SlotOk(s, q);
    }
    forall q | Base(s) + s.cap <= q < s.head ensures Held(s', q) {
      assert Held(s, q);
    }
    forall j | 0 <= j < |s'.prod| ensures ProducerOk(s', j) {
      assert ProducerOk(s, j);
    }
  }

  /** Steps that touch no cell and no claim. */
  lemma LocalStepKeepsInv<T>(s: State<T>, l: Label<T>)
    requires Inv(s) && Enabled(s, l)
    requires l.SpinLoad? || l.LoadHead? || l.CheckSeq? || l.CasFail?
    ensures Inv(Apply(s, l))
  {
    var s', t := Apply(s, l), l.t;
    assert ProducerOk(s, t);
    if l.SpinLoad? && s' != s {
      OwnerMessageIsCurrent(s, t, l.m);
    }
    if l.CheckSeq? {
      MessageBound(CellAt(s, s.prod[t].pos), l.m);
    }
    if s' != s {
      SameClaimsKeepInv(s, t, s'.prod[t]);
    }
  }

  /** Claiming keeps every position's holder and adds the new one. */
  lemma ClaimHolds<T>(s: State<T>, l: Label<T>)
    requires Inv(s) && Enabled(s, l) && (l.StartPush? || l.CasOk?)
    ensures forall p: nat :: p < s.head ==> Held(Apply(s, l), p) == Held(s, p)
    ensures Held(Apply(s, l), s.head)
  {
    var s' := Apply(s, l);
    assert ProducerOk(s, l.t);
    forall p: nat | p < s.head ensures Held(s', p) == Held(s, p) {
      if s.log[p].owner == l.t {
        assert !Held(s, p);
      }
    }
  }

  lemma ClaimKeepsProducers<T>(s: State<T>, l: Label<T>)
    requires Inv(s) && Enabled(s, l) && (l.StartPush? || l.CasOk?)
    ensures ProducersOk(Apply(s, l))
  {
    var s' := Apply(s, l);
    if l.CasOk? {
      CheckSurvivesToCas(s, l.t);
    }
    forall j | 0 <= j < |s'.prod| ensures ProducerOk(s', j) {
      assert ProducerOk(s, j);
    }
  }

  /** Claiming the head position, by fetch_add or by a successful CAS. */
  lemma ClaimKeepsInv<T>(s: State<T>, l: Label<T>)
    requires Inv(s) && Enabled(s, l) && (l.StartPush? || l.CasOk?)
    ensures Inv(Apply(s, l))
  {
    var s' := Apply(s, l);
    ClaimHolds(s, l);
    ClaimKeepsProducers(s, l);
    forall p | Base(s) <= p < Base(s) + s.cap ensures SlotOk(s', p) {
      assert SlotOk(s, p);
    }
    forall p | Base(s) + s.cap <= p < s'.head ensures Held(s', p) {
      assert p < s.head ==> Held(s, p);
    }
  }

  /** The producers' own positions never share a slot. */
  lemma OwnersUseDistinctSlots<T>(s: State<T>, t: nat, p: nat)
    requires Inv(s) && t < |s.prod| && Owns(s.prod[t]) && !s.prod[t].Claimed?
    requires Base(s) <= p < Base(s) + s.cap
    ensures Slot(p, s.cap) == Slot(s.prod[t].pos, s.cap) ==> p == s.prod[t].pos
  {
    assert ProducerOk(s, t);
    var q := s.prod[t].pos;
    if Slot(p, s.cap) == Slot(q, s.cap) {
      if p <= q { SlotInjective(p, q, s.cap); } else { SlotInjective(q, p, s.cap); }
    }
  }

  lemma WriteKeepsProducers<T>(s: State<T>, l: Label<T>)
    requires Inv(s) && Enabled(s, l) && (l.BeginWrite? || l.EndWrite?)
    ensures ProducersOk(Apply(s, l))
  {
    var s', t := Apply(s, l), l.t;
    forall j | 0 <= j < |s'.prod| ensures ProducerOk(s', j) {
      assert ProducerOk(s, j) && ProducerOk(s, t);
      if j != t && (s.prod[j].Writing? || s.prod[j].Written?) {
        OwnersUseDistinctSlots(s, t, s.prod[j].pos);
      }
    }
  }

  /** A payload write, begun or finished, by the owner of the position. */
  lemma WriteKeepsInv<T>(s: State<T>, l: Label<T>)
    requires Inv(s) && Enabled(s, l) && (l.BeginWrite? || l.EndWrite?)
    ensures Inv(Apply(s, l))
  {
    var s', t := Apply(s, l), l.t;
    WriteKeepsProducers(s, l);
    assert ProducerOk(s, t);
    assert Held(s, s.prod[t].pos);
    forall p: nat ensures Held(s', p) == Held(s, p) {}
    forall p | Base(s) <= p < Base(s) + s.cap ensures SlotOk(s', p) {
      assert SlotOk(s, p);
      OwnersUseDistinctSlots(s, t, p);
    }
    forall p | Base(s) + s.cap <= p < s.head ensures Held(s', p) {
      assert Held(s, p);
    }
  }

  /** Publishing releases the position and nothing else. */
  lemma PublishReleases<T>(s: State<T>, l: Label<T>)
    requires Inv(s) && Enabled(s, l) && l.Publish?
    ensures forall p: nat :: Held(Apply(s, l), p) == (Held(s, p) && p != s.prod[l.t].pos)
    ensures Held(s, s.prod[l.t].pos) && Seq(CellAt(s, s.prod[l.t].pos)) == s.prod[l.t].pos
  {
    var s', pos := Apply(s, l), s.prod[l.t].pos;
    assert ProducerOk(s, l.t);
    assert SlotOk(s, pos) && Held(s, pos);
    forall p: nat ensures Held(s', p) == (Held(s, p) && p != pos) {
      if p < s.head && s.log[p].owner == l.t {
        assert Held(s, p) ==> p == pos;
      }
    }
  }

  lemma PublishKeepsProducers<T>(s: State<T>, l: Label<T>)
    requires Inv(s) && Enabled(s, l) && l.Publish?
    ensures ProducersOk(Apply(s, l)) && HistoriesOk(Apply(s, l))
  {
    var s' := Apply(s, l);
    PublishReleases(s, l);
    forall j | 0 <= j < |s'.prod| ensures ProducerOk(s', j) {
      assert ProducerOk(s, j);
    }
  }

  /** Publishing: the cell moves from `pos` to `pos + 1`. */
  lemma PublishKeepsInv<T>(s: State<T>, l: Label<T>)
    requires Inv(s) && Enabled(s, l) && l.Publish?
    ensures Inv(Apply(s, l))
  {
    var s', t := Apply(s, l), l.t;
    PublishReleases(s, l);
    PublishKeepsProducers(s, l);
    assert ProducerOk(s, t);
    forall p | Base(s) <= p < Base(s) + s.cap ensures SlotOk(s', p) {
      assert SlotOk(s, p);
      OwnersUseDistinctSlots(s, t, p);
    }
    forall p | Base(s) + s.cap <= p < s.head ensures Held(s', p) {
      assert Held(s, p);
    }
  }

  /** The consumer's check and copy. */
  lemma PopReadKeepsInv<T>(s: State<T>, l: Label<T>)
    requires Inv(s) && Enabled(s, l)
    requires l.PopCheck? || l.PopCopy?
    ensures Inv(Apply(s, l))
  {
    var s' := Apply(s, l);
    if l.PopCheck? && s' != s {
      PopMessageIsCurrent(s, l.m);
    }
    assert SlotOk(s, s.tail);
    forall p: nat ensures Held(s', p) == Held(s, p) {}
    forall p | Base(s) <= p < Base(s) + s.cap ensures SlotOk(s', p) {
      assert SlotOk(s, p);
    }
    forall p | Base(s) + s.cap <= p < s.head ensures Held(s', p) {
      assert Held(s, p);
    }
    forall j | 0 <= j < |s'.prod| ensures ProducerOk(s', j) {
      assert ProducerOk(s, j);
    }
  }

  /** Within the window only `tail` itself uses the slot handed back. */
  lemma OnlyTailUsesItsSlot<T>(s: State<T>, p: nat)
    requires s.cap > 0 && s.tail < p < s.tail + s.cap
    ensures Slot(p, s.cap) != Slot(s.tail, s.cap)
  {
    if Slot(p, s.cap) == Slot(s.tail, s.cap) { SlotInjective(s.tail, p, s.cap); }
  }

  lemma RecycleKeepsProducers<T>(s: State<T>)
    requires Inv(s) && Enabled(s, PopRecycle)
    ensures ProducersOk(Apply(s, PopRecycle)) && HistoriesOk(Apply(s, PopRecycle))
  {
    var s' := Apply(s, PopRecycle);
    assert SlotOk(s, s.tail);
    forall j | 0 <= j < |s'.prod| ensures ProducerOk(s', j) {
      assert ProducerOk(s, j);
      if Owns(s.prod[j]) {
        assert Held(s, s.prod[j].pos);
        if s.prod[j].pos < s.tail + s.cap {
          OnlyTailUsesItsSlot(s, s.prod[j].pos);
        }
      }
    }
  }

  /** Handing the slot back: the window moves up by one position. */
  lemma RecycleKeepsInv<T>(s: State<T>)
    requires Inv(s) && Enabled(s, PopRecycle)
    ensures Inv(Apply(s, PopRecycle))
  {
    var s', reused := Apply(s, PopRecycle), s.tail + s.cap;
    RecycleKeepsProducers(s);
    forall p: nat ensures Held(s', p) == Held(s, p) {}
    assert reused < s.head ==> Held(s, reused);
    forall p | Base(s') <= p < Base(s') + s.cap ensures SlotOk(s', p) {
      if p < reused {
        assert SlotOk(s, p);
        OnlyTailUsesItsSlot(s, p);
      }
    }
    forall p | Base(s') + s.cap <= p < s.head ensures Held(s', p) {
      assert Held(s, p);
    }
  }

  lemma AdvanceKeepsInv<T>(s: State<T>, l: Label<T>)
    requires Inv(s) && Enabled(s, l) && l.PopAdvance?
    ensures Inv(Apply(s, l))
  {
    var s' := Apply(s, l);
    forall p: nat ensures Held(s', p) == Held(s, p) {}
    forall p | Base(s) <= p < Base(s) + s.cap ensures SlotOk(s', p) {
      assert SlotOk(s, p);
    }
    forall p | Base(s) + s.cap <= p < s.head ensures Held(s', p) {
      assert Held(s, p);
    }
    forall j | 0 <= j < |s'.prod| ensures ProducerOk(s', j) {
      assert ProducerOk(s, j);
    }
  }

  lemma StepKeepsInv<T>(s: State<T>, l: Label<T>)
    requires Inv(s) && Enabled(s, l)
    ensures Inv(Apply(s, l))
  {
    match l
    case StartPush(_, _) => ClaimKeepsInv(s, l);
    case CasOk(_) => ClaimKeepsInv(s, l);
    case BeginWrite(_) => WriteKeepsInv(s, l);
    case EndWrite(_) => WriteKeepsInv(s, l);
    case Publish(_) => PublishKeepsInv(s, l);
    case PopCheck(_) => PopReadKeepsInv(s, l);
    case PopCopy => PopReadKeepsInv(s, l);
    case PopRecycle => RecycleKeepsInv(s);
    case PopAdvance => AdvanceKeepsInv(s, l);
    case _ => LocalStepKeepsInv(s, l);
  }

  /** Every run keeps the invariant. */
  lemma {:induction false} RunKeepsInv<T>(s: State<T>, ls: seq<Label<T>>)
    requires Inv(s) && Exec(s, ls).Some?
    ensures Inv(Exec(s, ls).value)
    decreases |ls|
  {
    if ls != [] {
      StepKeepsInv(s, ls[0]);
      RunKeepsInv(Apply(s, ls[0]), ls[1..]);
    }
  }

  lemma ReachableInv<T(!new)>(cap: nat, producers: nat, s: State<T>)
    requires cap >= 2 && Reachable(cap, producers, s)
    ensures Inv(s) && s.cap == cap && |s.prod| == producers
  {
    var ls :| Exec(Init<T>(cap, producers), ls) == Some(s);
    InitInv<T>(cap, producers);
    RunKeepsInv(Init<T>(cap, producers), ls);
    RunKeepsSizes(Init<T>(cap, producers), ls);
  }

  lemma {:induction false} RunKeepsSizes<T>(s: State<T>, ls: seq<Label<T>>)
    requires Exec(s, ls).Some?
    ensures Exec(s, ls).value.cap == s.cap && |Exec(s, ls).value.prod| == |s.prod|
    decreases |ls|
  {
    if ls != [] {
      RunKeepsSizes(Apply(s, ls[0]), ls[1..]);
    }
  }
}
