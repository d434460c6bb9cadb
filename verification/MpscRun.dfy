/** The multi-producer benchmark run: the producers' loops, the done flag and
    the consumer's loop around the ring's own atomic steps. */
module MpscRun {
  import opened Wrappers
  import Ring = MpscProtocol
  import RingInv = MpscInvariant
  import RingFacts = MpscTheorems
  import RingWork = MpscProgress
  import RingCalls = MpscCalls
  import opened GapAccounting

  /** Where producer `t` is in its loop, at message `i`. */
  datatype Driver = Next(i: nat) | InCall(i: nat) | Pushed(i: nat) | Refused(i: nat)

  /** Where the consumer is in its loop. */
  datatype Loop = Top | SawDone | Popping | Took | Exited

  datatype State = State(
    ring: Ring.State<Msg>,
    perProducer: nat,
    drivers: seq<Driver>,
    loop: Loop,
    done: bool,
    published: nat,
    dropped: nat,
    consumed: nat)

  datatype Label =
    | Step(l: Ring.Label<Msg>)   // one atomic step of the ring
    | CountPublished(t: nat)
    | CountDropped(t: nat)
    | SetDone                    // after all producers were joined
    | TestDone
    | TestCount
    | CountConsumed

  predicate IsPop(l: Ring.Label<Msg>) {
    l.PopCheck? || l.PopCopy? || l.PopRecycle? || l.PopAdvance?
  }

  ghost predicate Enabled(s: State, l: Label) {
    match l
    case Step(r) =>
      Ring.Enabled(s.ring, r) &&
      if IsPop(r) then s.loop.Popping?
      else if r.StartPush? || r.LoadHead? then
        r.t < |s.drivers| && s.drivers[r.t].Next? && s.drivers[r.t].i < s.perProducer &&
        r.v == Msg(r.t, s.drivers[r.t].i)
      else r.t < |s.drivers| && s.drivers[r.t].InCall?
    case CountPublished(t) => t < |s.drivers| && s.drivers[t].Pushed?
    case CountDropped(t) => t < |s.drivers| && s.drivers[t].Refused?
    case SetDone => forall t :: 0 <= t < |s.drivers| ==> s.drivers[t] == Next(s.perProducer)
    case TestDone => s.loop.Top?
    case TestCount => s.loop.SawDone?
    case CountConsumed => s.loop.Took?
  }

  /** A ring step moves the loop of the thread whose call it ends. */
  ghost function DriverAfter(s: State, r: Ring.Label<Msg>): Driver
    requires Enabled(s, Step(r)) && !IsPop(r)
  {
    var d := s.drivers[r.t];
    if r.StartPush? || r.LoadHead? then InCall(d.i)
    else if r.Publish? then Pushed(d.i)
    else if r.CheckSeq? && Ring.Apply(s.ring, r).prod[r.t].Idle? then Refused(d.i)
    else d
  }

  ghost function Apply(s: State, l: Label): State
    requires Enabled(s, l)
  {
    match l
    case Step(r) =>
      var s' := s.(ring := Ring.Apply(s.ring, r));
      if !IsPop(r) then s'.(drivers := s.drivers[r.t := DriverAfter(s, r)])
      else if r.PopAdvance? then s'.(loop := Took)
      else if r.PopCheck? && s'.ring.cons.Resting? then s'.(loop := Top)
      else s'
    case CountPublished(t) =>
      s.(published := s.published + 1, drivers := s.drivers[t := Next(s.drivers[t].i + 1)])
    case CountDropped(t) =>
      s.(dropped := s.dropped + 1, drivers := s.drivers[t := Next(s.drivers[t].i + 1)])
    case SetDone => s.(done := true)
    case TestDone => s.(loop := if s.done then SawDone else Popping)
    case TestCount => s.(loop := if s.consumed < s.published then Popping else Exited)
    case CountConsumed => s.(consumed := s.consumed + 1, loop := Top)
  }

  ghost function Init(cap: nat, producers: nat, perProducer: nat): State {
    State(Ring.Init(cap, producers), perProducer, seq(producers, (t: nat) => Next(0)), Top, false, 0, 0, 0)
  }

  ghost function Exec(s: State, ls: seq<Label>): Option<State>
    decreases |ls|
  {
    if ls == [] then Some(s)
    else if Enabled(s, ls[0]) then Exec(Apply(s, ls[0]), ls[1..])
    else None
  }

  // ----- counting over the producers

  function Sum(ws: seq<nat>): nat {
    if ws == [] then 0 else ws[0] + Sum(ws[1..])
  }

  lemma {:induction false} SumUpdate(ws: seq<nat>, t: nat, w: nat)
    requires t < |ws|
    ensures Sum(ws[t := w]) == Sum(ws) - ws[t] + w
  {
    if t == 0 {
      assert ws[t := w][1..] == ws[1..];
    } else {
      assert ws[t := w][1..] == ws[1..][t - 1 := w];
      SumUpdate(ws[1..], t - 1, w);
    }
  }

  lemma {:induction false} SumConstant(ws: seq<nat>, w: nat)
    requires forall t :: 0 <= t < |ws| ==> ws[t] == w
    ensures Sum(ws) == |ws| * w
  {
    if ws != [] {
      SumConstant(ws[1..], w);
      assert |ws| * w == w + (|ws| - 1) * w;
    }
  }

  /** Producer `t` has claimed a position it has not counted as published. */
  function Uncounted(p: Ring.Producer<Msg>, d: Driver): nat {
    if d.Pushed? || (d.InCall? && Ring.Owns(p)) then 1 else 0
  }

  function Unreported(p: Ring.Producer<Msg>, d: Driver): nat {
    if d.Refused? then 1 else 0
  }

  /** How many of its messages producer `t` has settled. */
  function Settled(p: Ring.Producer<Msg>, d: Driver): nat {
    d.i + Uncounted(p, d) + Unreported(p, d)
  }

  function Weights(s: State, f: (Ring.Producer<Msg>, Driver) -> nat): (r: seq<nat>)
    requires |s.ring.prod| == |s.drivers|
    ensures |r| == |s.drivers|
    ensures forall t :: 0 <= t < |r| ==> r[t] == f(s.ring.prod[t], s.drivers[t])
  {
    seq(|s.drivers|, t requires 0 <= t < |s.drivers| => f(s.ring.prod[t], s.drivers[t]))
  }

  /** When only producer `t` moves, a weighted sum changes by its own share. */
  lemma WeightsMove(s: State, s': State, t: nat, f: (Ring.Producer<Msg>, Driver) -> nat)
    requires |s.ring.prod| == |s.drivers| && |s'.ring.prod| == |s'.drivers| == |s.drivers| && t < |s.drivers|
    requires forall j :: 0 <= j < |s.drivers| && j != t ==>
               s'.drivers[j] == s.drivers[j] && s'.ring.prod[j] == s.ring.prod[j]
    ensures Sum(Weights(s', f)) ==
            Sum(Weights(s, f)) - f(s.ring.prod[t], s.drivers[t]) + f(s'.ring.prod[t], s'.drivers[t])
  {
    assert Weights(s', f) == Weights(s, f)[t := f(s'.ring.prod[t], s'.drivers[t])];
    SumUpdate(Weights(s, f), t, f(s'.ring.prod[t], s'.drivers[t]));
  }

  // ----- the invariant

  /** Producer `t`'s claims so far rise and stay below the message it is at. */
  ghost predicate StreamOk(s: State, t: nat)
    requires t < |s.drivers| == |s.ring.prod|
  {
    var ns := Stream(RingFacts.Values(s.ring.log), t);
    Rising(ns) && forall k :: 0 <= k < |ns| ==> ns[k] < s.drivers[t].i + Uncounted(s.ring.prod[t], s.drivers[t])
  }

  ghost predicate DriverOk(s: State, t: nat)
    requires t < |s.drivers| == |s.ring.prod|
  {
    var d, p := s.drivers[t], s.ring.prod[t];
    d.i <= s.perProducer && (!d.Next? ==> d.i < s.perProducer) &&
    (d.InCall? <==> !p.Idle?) &&
    (d.InCall? ==> p.v == Msg(t, d.i))
  }

  ghost predicate Totals(s: State) {
    |s.drivers| == |s.ring.prod| &&
    s.ring.head == s.published + Sum(Weights(s, Uncounted)) &&
    Sum(Weights(s, Settled)) == s.ring.head + s.dropped + Sum(Weights(s, Unreported))
  }

  ghost predicate DriversOk(s: State) {
    |s.drivers| == |s.ring.prod| &&
    forall t {:trigger DriverOk(s, t)} :: 0 <= t < |s.drivers| ==> DriverOk(s, t)
  }

  ghost predicate StreamsOk(s: State) {
    |s.drivers| == |s.ring.prod| &&
    forall t {:trigger StreamOk(s, t)} :: 0 <= t < |s.drivers| ==> StreamOk(s, t)
  }

  ghost predicate LogOk(s: State) {
    forall k {:trigger s.ring.log[k]} :: 0 <= k < |s.ring.log| ==>
      s.ring.log[k].v.producer < |s.drivers| && s.ring.log[k].v.number < s.perProducer
  }

  ghost predicate LoopOk(s: State) {
    (s.done ==> forall t :: 0 <= t < |s.drivers| ==> s.drivers[t] == Next(s.perProducer)) &&
    (!s.loop.Popping? ==> s.ring.cons.Resting?) &&
    s.ring.tail == s.consumed + (if s.loop.Took? then 1 else 0) &&
    (s.loop.SawDone? || s.loop.Exited? ==> s.done) &&
    (s.loop.Exited? ==> s.consumed >= s.published)
  }

  ghost predicate Inv(s: State) {
    Ring.Inv(s.ring) && DriversOk(s) && StreamsOk(s) && LogOk(s) && Totals(s) && LoopOk(s)
  }

  lemma InitInv(cap: nat, producers: nat, perProducer: nat)
    requires cap >= 2
    ensures Inv(Init(cap, producers, perProducer))
  {
    var s := Init(cap, producers, perProducer);
    RingInv.InitInv<Msg>(cap, producers);
    SumConstant(Weights(s, Uncounted), 0);
    SumConstant(Weights(s, Unreported), 0);
    SumConstant(Weights(s, Settled), 0);
    assert RingFacts.Values(s.ring.log) == [];
    forall t | 0 <= t < producers ensures DriverOk(s, t) && StreamOk(s, t) {
    }
  }

  /** Only producer `t` has moved between the two states. */
  ghost predicate OnlyMoves(s: State, s': State, t: nat) {
    |s.ring.prod| == |s.drivers| && |s'.ring.prod| == |s'.drivers| == |s.drivers| && t < |s.drivers| &&
    forall j :: 0 <= j < |s.drivers| && j != t ==>
      s'.drivers[j] == s.drivers[j] && s'.ring.prod[j] == s.ring.prod[j]
  }

  lemma TotalsMove(s: State, s': State, t: nat)
    requires Totals(s) && OnlyMoves(s, s', t)
    requires var p, d, p', d' := s.ring.prod[t], s.drivers[t], s'.ring.prod[t], s'.drivers[t];
             s'.ring.head + s.published + Uncounted(p, d) == s.ring.head + s'.published + Uncounted(p', d') &&
             Settled(p', d') + s.ring.head + s.dropped + Unreported(p, d) ==
             Settled(p, d) + s'.ring.head + s'.dropped + Unreported(p', d')
    ensures Totals(s')
  {
    WeightsMove(s, s', t, Uncounted);
    WeightsMove(s, s', t, Unreported);
    WeightsMove(s, s', t, Settled);
  }

  lemma StreamSnoc(log: seq<Ring.Claim<Msg>>, c: Ring.Claim<Msg>, t: nat)
    ensures Stream(RingFacts.Values(log + [c]), t) ==
            if c.v.producer == t then Stream(RingFacts.Values(log), t) + [c.v.number]
            else Stream(RingFacts.Values(log), t)
  {
    assert RingFacts.Values(log + [c]) == RingFacts.Values(log) + [c.v];
    StreamAppend(RingFacts.Values(log), c.v, t);
  }

  lemma RisingSnoc(ns: seq<nat>, i: nat)
    requires Rising(ns) && forall k :: 0 <= k < |ns| ==> ns[k] < i
    ensures Rising(ns + [i]) && forall k :: 0 <= k < |ns + [i]| ==> (ns + [i])[k] < i + 1
  {
  }

  /** A ring step of a producer keeps the counts. */
  lemma ProducerStepTotals(s: State, r: Ring.Label<Msg>)
    requires Inv(s) && Enabled(s, Step(r)) && !IsPop(r)
    ensures Totals(Apply(s, Step(r)))
  {
    assert DriverOk(s, r.t);
    TotalsMove(s, Apply(s, Step(r)), r.t);
  }

  lemma ProducerStepDrivers(s: State, r: Ring.Label<Msg>)
    requires Inv(s) && Enabled(s, Step(r)) && !IsPop(r)
    ensures DriversOk(Apply(s, Step(r)))
  {
    var s' := Apply(s, Step(r));
    forall j | 0 <= j < |s.drivers| ensures DriverOk(s', j) {
      assert DriverOk(s, j);
    }
  }

  lemma ProducerStepLoop(s: State, r: Ring.Label<Msg>)
    requires Inv(s) && Enabled(s, Step(r)) && !IsPop(r)
    ensures LoopOk(Apply(s, Step(r)))
  {
  }

  /** A producer step that claims nothing. */
  lemma QuietProducerStep(s: State, r: Ring.Label<Msg>)
    requires Inv(s) && Enabled(s, Step(r)) && !IsPop(r) && !r.StartPush? && !r.CasOk?
    ensures Inv(Apply(s, Step(r)))
  {
    var s' := Apply(s, Step(r));
    RingInv.StepKeepsInv(s.ring, r);
    ProducerStepTotals(s, r);
    ProducerStepDrivers(s, r);
    ProducerStepLoop(s, r);
    assert s'.ring.log == s.ring.log;
    QuietStepKeepsStreams(s, r);
  }

  lemma QuietStepKeepsStreams(s: State, r: Ring.Label<Msg>)
    requires Inv(s) && Enabled(s, Step(r)) && !IsPop(r) && !r.StartPush? && !r.CasOk?
    ensures StreamsOk(Apply(s, Step(r))) && Apply(s, Step(r)).ring.log == s.ring.log
  {
    var s' := Apply(s, Step(r));
    forall j | 0 <= j < |s.drivers| ensures StreamOk(s', j) {
      assert StreamOk(s, j) && DriverOk(s, j);
    }
  }

  /** A claim puts the producer's current message at the end of its stream. */
  lemma ClaimKeepsStreams(s: State, r: Ring.Label<Msg>)
    requires Inv(s) && Enabled(s, Step(r)) && (r.StartPush? || r.CasOk?)
    ensures StreamsOk(Apply(s, Step(r)))
    ensures Apply(s, Step(r)).ring.log == s.ring.log + [Ring.Claim(r.t, Msg(r.t, s.drivers[r.t].i))]
    ensures s.drivers[r.t].i < s.perProducer
  {
    var s', t := Apply(s, Step(r)), r.t;
    assert DriverOk(s, t) && StreamOk(s, t);
    var c := Ring.Claim(t, Msg(t, s.drivers[t].i));
    assert s'.ring.log == s.ring.log + [c];
    RisingSnoc(Stream(RingFacts.Values(s.ring.log), t), s.drivers[t].i);
    StreamSnoc(s.ring.log, c, t);
    assert StreamOk(s', t);
    forall j | 0 <= j < |s.drivers| ensures StreamOk(s', j) {
      if j != t {
        assert StreamOk(s, j);
        StreamSnoc(s.ring.log, c, j);
      }
    }
  }

  lemma ClaimStep(s: State, r: Ring.Label<Msg>)
    requires Inv(s) && Enabled(s, Step(r)) && (r.StartPush? || r.CasOk?)
    ensures Inv(Apply(s, Step(r)))
  {
    RingInv.StepKeepsInv(s.ring, r);
    ProducerStepTotals(s, r);
    ProducerStepDrivers(s, r);
    ProducerStepLoop(s, r);
    ClaimKeepsStreams(s, r);
  }

  /** Steps that move no producer keep everything said about producers. */
  lemma SameProducers(s: State, s': State)
    requires DriversOk(s) && StreamsOk(s) && LogOk(s) && Totals(s)
    requires s'.drivers == s.drivers && s'.ring.prod == s.ring.prod && s'.ring.log == s.ring.log
    requires s'.ring.head == s.ring.head && s'.perProducer == s.perProducer
    requires s'.published == s.published && s'.dropped == s.dropped
    ensures DriversOk(s') && StreamsOk(s') && LogOk(s') && Totals(s')
  {
    assert Weights(s', Uncounted) == Weights(s, Uncounted);
    assert Weights(s', Unreported) == Weights(s, Unreported);
    assert Weights(s', Settled) == Weights(s, Settled);
    forall j | 0 <= j < |s.drivers| ensures DriverOk(s', j) && StreamOk(s', j) {
      assert DriverOk(s, j) && StreamOk(s, j);
    }
  }

  lemma PopStep(s: State, r: Ring.Label<Msg>)
    requires Inv(s) && Enabled(s, Step(r)) && IsPop(r)
    ensures Inv(Apply(s, Step(r)))
  {
    var s' := Apply(s, Step(r));
    RingInv.StepKeepsInv(s.ring, r);
    SameProducers(s, s');
    PopKeepsLoop(s, r);
  }

  lemma PopKeepsLoop(s: State, r: Ring.Label<Msg>)
    requires Inv(s) && Enabled(s, Step(r)) && IsPop(r)
    ensures LoopOk(Apply(s, Step(r)))
  {
  }

  lemma CountStep(s: State, l: Label)
    requires Inv(s) && Enabled(s, l) && (l.CountPublished? || l.CountDropped?)
    ensures Inv(Apply(s, l))
  {
    var s', t := Apply(s, l), l.t;
    assert DriverOk(s, t) && StreamOk(s, t);
    TotalsMove(s, s', t);
    forall j | 0 <= j < |s.drivers| ensures DriverOk(s', j) && StreamOk(s', j) {
      assert DriverOk(s, j) && StreamOk(s, j);
    }
  }

  lemma LoopStep(s: State, l: Label)
    requires Inv(s) && Enabled(s, l)
    requires l.SetDone? || l.TestDone? || l.TestCount? || l.CountConsumed?
    ensures Inv(Apply(s, l))
  {
    SameProducers(s, Apply(s, l));
  }

  lemma StepKeepsInv(s: State, l: Label)
    requires Inv(s) && Enabled(s, l)
    ensures Inv(Apply(s, l))
  {
    match l
    case Step(r) =>
      if IsPop(r) { PopStep(s, r); }
      else if r.StartPush? || r.CasOk? { ClaimStep(s, r); }
      else { QuietProducerStep(s, r); }
    case CountPublished(_) => CountStep(s, l);
    case CountDropped(_) => CountStep(s, l);
    case _ => LoopStep(s, l);
  }

  lemma {:induction false} RunKeepsInv(s: State, ls: seq<Label>)
    requires Inv(s) && Exec(s, ls).Some?
    ensures Inv(Exec(s, ls).value)
    decreases |ls|
  {
    if ls != [] {
      StepKeepsInv(s, ls[0]);
      RunKeepsInv(Apply(s, ls[0]), ls[1..]);
    }
  }

  lemma {:induction false} RunKeepsSizes(s: State, ls: seq<Label>)
    requires Exec(s, ls).Some?
    ensures var s' := Exec(s, ls).value; |s'.drivers| == |s.drivers| && s'.perProducer == s.perProducer
    decreases |ls|
  {
    if ls != [] {
      RunKeepsSizes(Apply(s, ls[0]), ls[1..]);
    }
  }

  // ----- what holds when the consumer leaves its loop

  /** It has consumed everything published, and every message was either
      published or dropped. */
  lemma ExitedHasEverything(s: State)
    requires Inv(s) && s.loop.Exited?
    ensures s.consumed == s.published == s.ring.head == s.ring.tail
    ensures s.published + s.dropped == |s.drivers| * s.perProducer
    ensures s.ring.popped == RingFacts.Values(s.ring.log)
  {
    SumConstant(Weights(s, Uncounted), 0);
    SumConstant(Weights(s, Unreported), 0);
    SumConstant(Weights(s, Settled), s.perProducer);
  }

  lemma RisingIsNotLate(ns: seq<nat>)
    requires Rising(ns)
    ensures StatsOf(ns).late == 0
  {
    NothingLateIffRising(ns);
  }

  lemma {:induction false} NothingLate(msgs: seq<Msg>, producers: nat)
    requires forall t :: 0 <= t < producers ==> Rising(Stream(msgs, t))
    ensures Total(msgs, producers).late == 0
  {
    if producers > 0 {
      NothingLate(msgs, producers - 1);
      RisingIsNotLate(Stream(msgs, producers - 1));
    }
  }

  /** In every run, whatever is refused and however threads interleave: once
      the consumer's loop ends, consumed == published, no message was out of
      order, and the gap count with its tail correction is what was dropped. */
  lemma DropRunIsAccounted(cap: nat, producers: nat, perProducer: nat, ls: seq<Label>)
    requires cap >= 2 && Exec(Init(cap, producers, perProducer), ls).Some?
    requires Exec(Init(cap, producers, perProducer), ls).value.loop.Exited?
    ensures var s := Exec(Init(cap, producers, perProducer), ls).value;
            var t := Total(s.ring.popped, producers);
            s.consumed == s.published == |s.ring.popped| && t.late == 0 &&
            t.missing + Tail(NextExpected(s.ring.popped, producers), perProducer) == s.dropped
  {
    var s0 := Init(cap, producers, perProducer);
    InitInv(cap, producers, perProducer);
    RunKeepsInv(s0, ls);
    RunKeepsSizes(s0, ls);
    var s := Exec(s0, ls).value;
    ExitedHasEverything(s);
    forall t | 0 <= t < producers ensures Rising(Stream(s.ring.popped, t)) {
      assert StreamOk(s, t);
    }
    NothingLate(s.ring.popped, producers);
    MissingIsExact(s.ring.popped, producers, perProducer);
  }

  /** Seen by the push-mode verdict, such a run passes exactly when nothing
      was refused, as is always so with `push`. */
  lemma PushVerdictIffNothingDropped(cap: nat, producers: nat, perProducer: nat, ls: seq<Label>)
    requires cap >= 2 && Exec(Init(cap, producers, perProducer), ls).Some?
    requires Exec(Init(cap, producers, perProducer), ls).value.loop.Exited?
    ensures var s := Exec(Init(cap, producers, perProducer), ls).value;
            PushVerdict(s.ring.popped, producers, perProducer) <==> s.dropped == 0
  {
    var s0 := Init(cap, producers, perProducer);
    DropRunIsAccounted(cap, producers, perProducer, ls);
    RunKeepsSizes(s0, ls);
    InitInv(cap, producers, perProducer);
    RunKeepsInv(s0, ls);
    var s := Exec(s0, ls).value;
    ExitedHasEverything(s);
    if s.dropped == 0 {
      NothingMissingArrived(s.ring.popped, producers, perProducer);
    }
  }

  lemma ExecThree(s: State, a: Label, b: Label, c: Label)
    requires Enabled(s, a) && Enabled(Apply(s, a), b) && Enabled(Apply(Apply(s, a), b), c)
    ensures Exec(s, [a, b, c]) == Some(Apply(Apply(Apply(s, a), b), c))
  {
    var s2 := Apply(Apply(s, a), b);
    assert [a, b, c][1..] == [b, c] && [b, c][1..] == [c] && [c][1..] == [];
    assert Exec(s2, [c]) == Some(Apply(s2, c));
    assert Exec(Apply(s, a), [b, c]) == Some(Apply(s2, c));
  }

  /** A try_push on a full ring, up to its return. */
  lemma RefusedCall(s: State, t: nat) returns (load: Label, check: Label)
    requires Inv(s) && t < |s.drivers| && s.drivers[t].Next? && s.drivers[t].i < s.perProducer
    requires s.ring.head >= Ring.Base(s.ring) + s.ring.cap
    ensures load == Step(Ring.LoadHead(t, Msg(t, s.drivers[t].i), s.ring.head))
    ensures check == Step(Ring.CheckSeq(t, RingWork.Newest(s.ring, s.ring.head)))
    ensures Enabled(s, load) && Enabled(Apply(s, load), check)
    ensures Apply(Apply(s, load), check) == s.(drivers := s.drivers[t := Refused(s.drivers[t].i)])
  {
    assert DriverOk(s, t);
    var i, head := s.drivers[t].i, s.ring.head;
    load, check := Step(Ring.LoadHead(t, Msg(t, i), head)), Step(Ring.CheckSeq(t, RingWork.Newest(s.ring, head)));
    RingCalls.SoloTryPushOnFull(s.ring, t, Msg(t, i));
    assert s.drivers[t := InCall(i)][t := Refused(i)] == s.drivers[t := Refused(i)];
  }

  /** On a full ring a refused try_push counts one message as dropped, and the
      producer goes on to its next one. */
  lemma FullRingDropsOne(s: State, t: nat) returns (load: Label, check: Label)
    requires Inv(s) && t < |s.drivers| && s.drivers[t].Next? && s.drivers[t].i < s.perProducer
    requires s.ring.head >= Ring.Base(s.ring) + s.ring.cap
    ensures load == Step(Ring.LoadHead(t, Msg(t, s.drivers[t].i), s.ring.head)) && check.Step? && check.l.CheckSeq?
    ensures Exec(s, [load, check, CountDropped(t)]) ==
            Some(s.(dropped := s.dropped + 1, drivers := s.drivers[t := Next(s.drivers[t].i + 1)]))
  {
    load, check := RefusedCall(s, t);
    ExecThree(s, load, check, CountDropped(t));
    var i := s.drivers[t].i;
    assert s.drivers[t := Refused(i)][t := Next(i + 1)] == s.drivers[t := Next(i + 1)];
  }

  // ----- the run can always finish

  /** What producer `t` still has to do outside the ring's own steps. */
  function DriverRank(perProducer: nat, d: Driver): nat {
    if d.i > perProducer then 0
    else
      match d
      case Next(i) => 3 * (perProducer - i)
      case InCall(i) => if i < perProducer then 3 * (perProducer - i) - 1 else 0
      case Pushed(i) => if i < perProducer then 3 * (perProducer - i) - 2 else 0
      case Refused(i) => if i < perProducer then 3 * (perProducer - i) - 2 else 0
  }

  function DriverRanks(s: State): (r: seq<nat>)
    ensures |r| == |s.drivers|
  {
    seq(|s.drivers|, t requires 0 <= t < |s.drivers| => DriverRank(s.perProducer, s.drivers[t]))
  }

  function Calls(s: State): nat {
    Sum(DriverRanks(s))
  }

  /** How far the consumer's loop is from its next useful test. */
  function LoopRank(s: State): nat {
    (if s.done then 0 else 10) +
    match s.loop
    case Took => 5
    case Popping => if s.ring.tail < s.ring.head then 0 else 3
    case Top => 2
    case SawDone => 1
    case Exited => 0
  }

  /** The step brings the end nearer: fewer calls left, or fewer steps inside
      them, or a shorter way through the consumer's loop. */
  ghost predicate Helps(s: State, l: Label)
    requires Enabled(s, l)
  {
    var s' := Apply(s, l);
    Calls(s') < Calls(s) ||
    (Calls(s') == Calls(s) && RingWork.Measure(s'.ring) < RingWork.Measure(s.ring)) ||
    (Calls(s') == Calls(s) && RingWork.Measure(s'.ring) == RingWork.Measure(s.ring) && LoopRank(s') < LoopRank(s))
  }

  /** Moving one producer to a state with less to do lowers the total. */
  lemma CallsMove(s: State, s': State, t: nat)
    requires t < |s.drivers| == |s'.drivers| && s'.perProducer == s.perProducer
    requires s'.drivers == s.drivers[t := s'.drivers[t]]
    ensures Calls(s') == Calls(s) - DriverRank(s.perProducer, s.drivers[t]) + DriverRank(s.perProducer, s'.drivers[t])
  {
    assert DriverRanks(s') == DriverRanks(s)[t := DriverRank(s.perProducer, s'.drivers[t])];
    SumUpdate(DriverRanks(s), t, DriverRank(s.perProducer, s'.drivers[t]));
  }

  lemma ProducerStepHelps(s: State, r: Ring.Label<Msg>)
    requires Inv(s) && Enabled(s, Step(r)) && !IsPop(r)
    requires r.StartPush? || RingWork.Progressing(s.ring, r)
    ensures Helps(s, Step(r))
  {
    var s' := Apply(s, Step(r));
    assert DriverOk(s, r.t);
    CallsMove(s, s', r.t);
    RingWork.MeasureFalls(s.ring, r);
  }

  lemma PopStepHelps(s: State, r: Ring.Label<Msg>)
    requires Inv(s) && Enabled(s, Step(r)) && IsPop(r) && RingWork.Progressing(s.ring, r)
    ensures Helps(s, Step(r))
  {
    assert DriverRanks(Apply(s, Step(r))) == DriverRanks(s);
    RingWork.MeasureFalls(s.ring, r);
  }

  /** A producer that has not finished its loop, and is in no call, can go on. */
  lemma DriverHelps(s: State, t: nat) returns (l: Label)
    requires Inv(s) && t < |s.drivers| && s.ring.prod[t].Idle? && s.drivers[t] != Next(s.perProducer)
    ensures Enabled(s, l) && Helps(s, l)
  {
    assert DriverOk(s, t);
    match s.drivers[t]
    case Next(i) =>
      l := Step(Ring.StartPush(t, Msg(t, i)));
      ProducerStepHelps(s, l.l);
    case Pushed(_) =>
      l := CountPublished(t);
      CallsMove(s, Apply(s, l), t);
    case Refused(_) =>
      l := CountDropped(t);
      CallsMove(s, Apply(s, l), t);
  }

  /** Loop steps change neither the calls nor the ring. */
  lemma LoopStepHelps(s: State, l: Label)
    requires Inv(s) && Enabled(s, l) && (l.SetDone? || l.TestDone? || l.TestCount? || l.CountConsumed?)
    requires LoopRank(Apply(s, l)) < LoopRank(s)
    ensures Helps(s, l)
  {
    assert DriverRanks(Apply(s, l)) == DriverRanks(s);
  }

  /** With a finished and drained ring the consumer's loop runs to its end. */
  lemma QuietRunHelps(s: State) returns (l: Label)
    requires Inv(s) && RingWork.Quiet(s.ring) && !s.loop.Exited?
    ensures Enabled(s, l) && Helps(s, l)
  {
    if t :| 0 <= t < |s.drivers| && s.drivers[t] != Next(s.perProducer) {
      assert DriverOk(s, t);
      l := DriverHelps(s, t);
    } else if !s.done {
      l := SetDone;
      LoopStepHelps(s, l);
    } else if s.loop.Popping? {
      l := FailingPop(s);
    } else {
      l := match s.loop case Took => CountConsumed case Top => TestDone case _ => TestCount;
      NothingUncounted(s);
      LoopStepHelps(s, l);
    }
  }

  lemma FailingPop(s: State) returns (l: Label)
    requires Inv(s) && s.ring.tail == s.ring.head && s.ring.cons.Resting? && s.loop.Popping?
    ensures Enabled(s, l) && Helps(s, l)
  {
    var m := RingWork.Newest(s.ring, s.ring.tail);
    l := Step(Ring.PopCheck(m));
    if Ring.CellAt(s.ring, s.ring.tail).hist[m] == s.ring.tail + 1 {
      Ring.PopMessageIsCurrent(s.ring, m);
    }
    assert DriverRanks(Apply(s, l)) == DriverRanks(s);
  }

  /** After the done flag everything claimed is counted as published. */
  lemma NothingUncounted(s: State)
    requires Inv(s) && s.done
    ensures s.ring.head == s.published
  {
    SumConstant(Weights(s, Uncounted), 0);
  }

  /** Until the consumer has left its loop some step brings the end nearer. */
  lemma SomeStepHelps(s: State) returns (l: Label)
    requires Inv(s) && !s.loop.Exited?
    ensures Enabled(s, l) && Helps(s, l)
  {
    if RingWork.Quiet(s.ring) {
      l := QuietRunHelps(s);
    } else {
      var r := RingWork.ProgressIsEnabled(s.ring);
      l := Step(r);
      if !IsPop(r) {
        assert DriverOk(s, r.t);
        ProducerStepHelps(s, r);
      } else if s.loop.Popping? {
        PopStepHelps(s, r);
      } else {
        Ring.PopMessageIsCurrent(s.ring, r.m);
        l := match s.loop case Took => CountConsumed case Top => TestDone case _ => TestCount;
        if s.done {
          NothingUncounted(s);
        }
        LoopStepHelps(s, l);
      }
    }
  }

  /** From every state of every run, whatever was refused, the consumer's loop
      can still end. */
  lemma {:induction false} CanAlwaysExit(s: State) returns (ls: seq<Label>)
    requires Inv(s)
    ensures Exec(s, ls).Some? && Exec(s, ls).value.loop.Exited?
    decreases Calls(s), RingWork.Measure(s.ring), LoopRank(s)
  {
    if s.loop.Exited? {
      ls := [];
    } else {
      var l := SomeStepHelps(s);
      StepKeepsInv(s, l);
      RingWork.MeasureIsNatural(s.ring);
      RingWork.MeasureIsNatural(Apply(s, l).ring);
      var rest := CanAlwaysExit(Apply(s, l));
      ls := [l] + rest;
      assert ls[1..] == rest;
    }
  }
}
