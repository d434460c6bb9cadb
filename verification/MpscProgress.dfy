/** The ring never gets stuck: outside the resting state some step makes
    progress, and a measure falls on every step that is not idle spinning. */
module MpscProgress {
  import opened Wrappers
  import opened Slots
  import opened MpscProtocol
  import opened MpscInvariant
  import opened MpscTheorems

  /** Nothing claimed is left to pop and no thread is inside an operation. */
  ghost predicate Quiet<T>(s: State<T>) {
    s.tail == s.head && s.cons.Resting? && forall t :: 0 <= t < |s.prod| ==> s.prod[t].Idle?
  }

  /** Steps other than starting an operation or spinning: a wait or check that
      passes, a CAS that succeeds or fails because the head moved, and every
      write, publish, copy and recycle. */
  ghost predicate Progressing<T>(s: State<T>, l: Label<T>)
    requires Enabled(s, l)
  {
    match l
    case StartPush(_, _) => false
    case LoadHead(_, _, _) => false
    case SpinLoad(t, m) => CellAt(s, s.prod[t].pos).hist[m] == s.prod[t].pos
    case PopCheck(m) => CellAt(s, s.tail).hist[m] == s.tail + 1
    case CasFail(t, reload) => s.prod[t].pos < s.head && reload == s.head
    case _ => true
  }

  // ----- the measure

  /** Bound on the steps a producer still has to take, given `n` producers. A
      claim can send each of them back to reload the head. */
  function Rank<T>(p: Producer<T>, head: nat, n: nat): nat {
    match p
    case Idle => 0
    case Written(_, _) => 1
    case Writing(_, _) => 2
    case Ready(_, _) => 3
    case Claimed(_, _) => 4
    case Checked(pos, _) => (if pos < head then 10 else 8) + 2 * n
    case Loaded(pos, _) => (if pos < head then 11 else 9) + 2 * n
  }

  function SumRank<T>(ps: seq<Producer<T>>, head: nat, n: nat): nat {
    if ps == [] then 0 else Rank(ps[0], head, n) + SumRank(ps[1..], head, n)
  }

  function ConsumerRank<T>(c: Consumer<T>): nat {
    match c
    case Resting => 0
    case Seen => 1
    case Copied(_) => 2
    case Recycled(_) => 3
  }

  function Measure<T>(s: State<T>): int {
    SumRank(s.prod, s.head, |s.prod|) + 4 * (s.head - s.tail) - ConsumerRank(s.cons)
  }

  lemma {:induction false} SumRankUpdate<T>(ps: seq<Producer<T>>, t: nat, p: Producer<T>, head: nat, n: nat)
    requires t < |ps|
    ensures SumRank(ps[t := p], head, n) == SumRank(ps, head, n) - Rank(ps[t], head, n) + Rank(p, head, n)
  {
    if t == 0 {
      assert ps[t := p][1..] == ps[1..];
    } else {
      assert ps[t := p][1..] == ps[1..][t - 1 := p];
      SumRankUpdate(ps[1..], t - 1, p, head, n);
    }
  }

  lemma {:induction false} SumRankHead<T>(ps: seq<Producer<T>>, head: nat, n: nat)
    ensures SumRank(ps, head + 1, n) <= SumRank(ps, head, n) + 2 * |ps|
  {
    if ps != [] {
      SumRankHead(ps[1..], head, n);
    }
  }

  lemma MeasureIsNatural<T>(s: State<T>)
    requires Inv(s)
    ensures Measure(s) >= 0
  {
  }

  lemma MeasureAfterMove<T>(s: State<T>, t: nat, p: Producer<T>)
    requires t < |s.prod|
    ensures Measure(SetProd(s, t, p)) ==
            Measure(s) - Rank(s.prod[t], s.head, |s.prod|) + Rank(p, s.head, |s.prod|)
  {
    SumRankUpdate(s.prod, t, p, s.head, |s.prod|);
  }

  lemma MeasureAfterClaim<T>(s: State<T>, t: nat, v: T)
    requires t < |s.prod|
    ensures Measure(TakeHead(s, t, v)) <= Measure(s) + 4 + 2 * |s.prod|
  {
    SumRankHead(s.prod, s.head, |s.prod|);
  }

  /** A step that starts an operation adds a bounded amount of work; every
      progressing step removes some. */
  lemma MeasureFalls<T>(s: State<T>, l: Label<T>)
    requires Inv(s) && Enabled(s, l)
    ensures Progressing(s, l) ==> Measure(Apply(s, l)) < Measure(s)
    ensures l.StartPush? || l.LoadHead? ==> Measure(Apply(s, l)) <= Measure(s) + 11 + 2 * |s.prod|
  {
    match l
    case StartPush(_, _) => ClaimMeasure(s, l);
    case CasOk(_) => ClaimMeasure(s, l);
    case PopCheck(_) =>
    case PopCopy =>
    case PopRecycle =>
    case PopAdvance =>
    case _ => LocalMeasure(s, l);
  }

  lemma ClaimMeasure<T>(s: State<T>, l: Label<T>)
    requires Inv(s) && Enabled(s, l) && (l.StartPush? || l.CasOk?)
    ensures l.CasOk? ==> Measure(Apply(s, l)) < Measure(s)
    ensures Measure(Apply(s, l)) <= Measure(s) + 8 + 2 * |s.prod|
  {
    var s1 := TakeHead(s, l.t, if l.StartPush? then l.v else s.prod[l.t].v);
    MeasureAfterClaim(s, l.t, if l.StartPush? then l.v else s.prod[l.t].v);
    MeasureAfterMove(s1, l.t, Apply(s, l).prod[l.t]);
  }

  lemma LocalMeasure<T>(s: State<T>, l: Label<T>)
    requires Inv(s) && Enabled(s, l)
    requires !l.StartPush? && !l.CasOk? && !l.PopCheck? && !l.PopCopy? && !l.PopRecycle? && !l.PopAdvance?
    ensures Progressing(s, l) ==> Measure(Apply(s, l)) < Measure(s)
    ensures l.LoadHead? ==> Measure(Apply(s, l)) <= Measure(s) + 11 + 2 * |s.prod|
  {
    var s' := Apply(s, l);
    MeasureAfterMove(s, l.t, s'.prod[l.t]);
    assert ProducerOk(s, l.t);
    assert s'.prod == s.prod[l.t := s'.prod[l.t]];
    assert s'.head == s.head && s'.tail == s.tail && s'.cons == s.cons;
  }

  // ----- some step can always be taken

  /** The newest message of the cell of `pos`. */
  ghost function Newest<T>(s: State<T>, pos: nat): nat
    requires Shape(s)
  {
    |CellAt(s, pos).hist| - 1
  }

  /** The owner of the oldest unpopped position is never blocked. */
  lemma OwnerOfTailCanStep<T>(s: State<T>) returns (l: Label<T>)
    requires Inv(s) && s.cons.Resting? && Held(s, s.tail)
    ensures Enabled(s, l) && Progressing(s, l)
  {
    var t := s.log[s.tail].owner;
    assert ProducerOk(s, t) && SlotOk(s, s.tail);
    match s.prod[t]
    case Claimed(_, _) => l := SpinLoad(t, Newest(s, s.tail));
    case Ready(_, _) => l := BeginWrite(t);
    case Writing(_, _) => l := EndWrite(t);
    case Written(_, _) => l := Publish(t);
  }

  /** In every state with work left some progressing step is enabled, and when
      position `tail` is claimed it is the consumer's or the owner's. */
  lemma ProgressIsEnabled<T>(s: State<T>) returns (l: Label<T>)
    requires Inv(s) && !Quiet(s)
    ensures Enabled(s, l) && Progressing(s, l)
    ensures s.tail < s.head && s.cons.Resting? && !Held(s, s.tail) ==> l == PopCheck(Newest(s, s.tail))
  {
    assert SlotOk(s, Base(s));
    match s.cons
    case Seen => l := PopCopy;
    case Copied(_) => l := PopRecycle;
    case Recycled(_) => l := PopAdvance;
    case Resting =>
      if s.tail < s.head && Held(s, s.tail) {
        l := OwnerOfTailCanStep(s);
      } else if s.tail < s.head {
        l := PopCheck(Newest(s, s.tail));
      } else {
        var t :| 0 <= t < |s.prod| && !s.prod[t].Idle?;
        assert ProducerOk(s, t);
        if s.prod[t].Loaded? {
          l := CheckSeq(t, Newest(s, s.prod[t].pos));
        } else if s.prod[t].pos == s.head {
          l := CasOk(t);
        } else {
          l := CasFail(t, s.head);
        }
      }
  }

  /** From every reachable state a finite run of progressing steps completes
      every operation, and everything claimed has then been popped in order. */
  lemma {:induction false} CanAlwaysDrain<T>(s: State<T>) returns (ls: seq<Label<T>>)
    requires Inv(s)
    ensures Exec(s, ls).Some? && Quiet(Exec(s, ls).value)
    ensures Exec(s, ls).value.popped == Values(Exec(s, ls).value.log)
    ensures |ls| <= Measure(s)
    decreases Measure(s)
  {
    MeasureIsNatural(s);
    if Quiet(s) {
      ls := [];
      assert Values(s.log)[..s.tail] == Values(s.log);
    } else {
      var l := ProgressIsEnabled(s);
      MeasureFalls(s, l);
      StepKeepsInv(s, l);
      var rest := CanAlwaysDrain(Apply(s, l));
      ls := [l] + rest;
      assert ls[1..] == rest;
    }
  }
}
