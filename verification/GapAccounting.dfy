/** The consumer's gap accounting in the multi-producer benchmark and the
    verdicts computed from it. */
module GapAccounting {
  datatype Msg = Msg(producer: nat, number: nat)

  /** Counters of one producer's stream, or totals over several streams. */
  datatype Stats = Stats(count: nat, gaps: nat, missing: nat, late: nat) {
    function Plus(other: Stats): Stats {
      Stats(count + other.count, gaps + other.gaps, missing + other.missing, late + other.late)
    }
  }

  const ZERO := Stats(0, 0, 0, 0)

  /** The numbers producer `p` sent, in the order they were consumed. */
  function Stream(msgs: seq<Msg>, p: nat): seq<nat> {
    if msgs == [] then []
    else
      var last := msgs[|msgs| - 1];
      Stream(msgs[..|msgs| - 1], p) + if last.producer == p then [last.number] else []
  }

  /** The next number expected after a stream: one more than its largest. */
  function Expected(ns: seq<nat>): nat {
    if ns == [] then 0
    else
      var e, n := Expected(ns[..|ns| - 1]), ns[|ns| - 1];
      if n >= e then n + 1 else e
  }

  /** What one more number `n` adds when `e` is expected. */
  function Effect(e: nat, n: nat): Stats {
    if n == e then Stats(1, 0, 0, 0)
    else if n > e then Stats(1, 1, n - e, 0)
    else Stats(1, 0, 0, 1)
  }

  function StatsOf(ns: seq<nat>): Stats {
    if ns == [] then ZERO
    else StatsOf(ns[..|ns| - 1]).Plus(Effect(Expected(ns[..|ns| - 1]), ns[|ns| - 1]))
  }

  /** Totals over producers 0 .. producers - 1. */
  function Total(msgs: seq<Msg>, producers: nat): Stats {
    if producers == 0 then ZERO
    else Total(msgs, producers - 1).Plus(StatsOf(Stream(msgs, producers - 1)))
  }

  /** The consumer's two vectors after it has consumed `msgs`. */
  function Received(msgs: seq<Msg>, producers: nat): (r: seq<nat>)
    ensures |r| == producers
  {
    seq(producers, (p: nat) => |Stream(msgs, p)|)
  }

  function NextExpected(msgs: seq<Msg>, producers: nat): (r: seq<nat>)
    ensures |r| == producers
  {
    seq(producers, (p: nat) => Expected(Stream(msgs, p)))
  }

  /** Messages the tail correction adds, given the next expected numbers. */
  function Tail(es: seq<nat>, perProducer: nat): nat {
    if es == [] then 0
    else
      var e := es[|es| - 1];
      Tail(es[..|es| - 1], perProducer) + (if e < perProducer then perProducer - e else 0)
  }

  predicate AllAre(s: seq<nat>, x: nat) {
    forall i :: 0 <= i < |s| ==> s[i] == x
  }

  // ----- what one stream's counters mean

  /** 0, 1, ..., n - 1. */
  function UpTo(n: nat): (r: seq<nat>)
    ensures |r| == n
  {
    seq(n, (i: nat) => i)
  }

  predicate Rising(ns: seq<nat>) {
    forall i, j :: 0 <= i < j < |ns| ==> ns[i] < ns[j]
  }

  lemma {:induction false} CountAndGaps(ns: seq<nat>)
    ensures StatsOf(ns).count == |ns|
    ensures StatsOf(ns).gaps == 0 <==> StatsOf(ns).missing == 0
  {
    if ns != [] {
      CountAndGaps(ns[..|ns| - 1]);
    }
  }

  lemma ConsecutiveSplits(init: seq<nat>, n: nat)
    ensures init + [n] == UpTo(|init| + 1) <==> init == UpTo(|init|) && n == |init|
  {
    assert UpTo(|init| + 1) == UpTo(|init|) + [|init|];
    assert (init + [n])[..|init|] == init && (init + [n])[|init|] == n;
    assert (UpTo(|init|) + [|init|])[..|init|] == UpTo(|init|);
  }

  /** Clean means 0, 1, 2, ..., and then the next number expected is the length. */
  ghost predicate CleanMeansConsecutive(ns: seq<nat>) {
    (StatsOf(ns).gaps == 0 && StatsOf(ns).late == 0 <==> ns == UpTo(|ns|)) &&
    (ns == UpTo(|ns|) ==> Expected(ns) == |ns|)
  }

  lemma CleanStep(init: seq<nat>, n: nat)
    requires CleanMeansConsecutive(init)
    ensures CleanMeansConsecutive(init + [n])
  {
    var st, e := StatsOf(init), Expected(init);
    StatsAppend(init, n);
    ConsecutiveSplits(init, n);
    assert |init + [n]| == |init| + 1;
    CleanArithmetic(st, e, n, |init|, init == UpTo(|init|));
  }

  /** One more number keeps a stream clean exactly when it is the expected one. */
  lemma CleanArithmetic(st: Stats, e: nat, n: nat, length: nat, consecutive: bool)
    requires st.gaps == 0 && st.late == 0 <==> consecutive
    requires consecutive ==> e == length
    ensures st.Plus(Effect(e, n)).gaps == 0 && st.Plus(Effect(e, n)).late == 0 <==> consecutive && n == length
  {
  }

  /** No gap and no late number exactly when the stream is 0, 1, 2, ... */
  lemma {:induction false} CleanIffConsecutive(ns: seq<nat>)
    ensures CleanMeansConsecutive(ns)
  {
    if ns != [] {
      CleanIffConsecutive(ns[..|ns| - 1]);
      CleanStep(ns[..|ns| - 1], ns[|ns| - 1]);
      assert ns[..|ns| - 1] + [ns[|ns| - 1]] == ns;
    }
  }

  /** Without late numbers, expected = received + missing. */
  lemma {:induction false} NothingLateBalances(ns: seq<nat>)
    ensures StatsOf(ns).late == 0 ==> Expected(ns) == |ns| + StatsOf(ns).missing
    ensures StatsOf(ns).count == |ns|
  {
    if ns != [] {
      NothingLateBalances(ns[..|ns| - 1]);
    }
  }

  lemma {:induction false} ExpectedBound(ns: seq<nat>, m: nat)
    requires forall i :: 0 <= i < |ns| ==> ns[i] < m
    ensures Expected(ns) <= m
  {
    if ns != [] {
      ExpectedBound(ns[..|ns| - 1], m);
    }
  }

  lemma RisingSplits(init: seq<nat>, n: nat)
    ensures Rising(init + [n]) <==> Rising(init) && (init == [] || init[|init| - 1] < n)
  {
    var ns := init + [n];
    if Rising(ns) {
      forall i, j | 0 <= i < j < |init| ensures init[i] < init[j] {
        assert ns[i] < ns[j];
      }
      if init != [] {
        assert ns[|init| - 1] < ns[|init|];
      }
    }
  }

  /** Nothing is late exactly when the numbers rise. */
  lemma {:induction false} NothingLateIffRising(ns: seq<nat>)
    ensures StatsOf(ns).late == 0 <==> Rising(ns)
    ensures Rising(ns) ==> Expected(ns) == if ns == [] then 0 else ns[|ns| - 1] + 1
  {
    if ns != [] {
      var init, n := ns[..|ns| - 1], ns[|ns| - 1];
      NothingLateIffRising(init);
      RisingSplits(init, n);
      assert ns == init + [n];
    }
  }

  // ----- gaps and late numbers of any stream

  /** Number `k` is larger than one more than every number before it. */
  predicate Jumps(ns: seq<nat>, k: nat)
    requires k < |ns|
  {
    ns[k] > 0 && forall j :: 0 <= j < k ==> ns[k] > ns[j] + 1
  }

  /** Number `k` does not exceed some number before it. */
  predicate Lags(ns: seq<nat>, k: nat)
    requires k < |ns|
  {
    exists j :: 0 <= j < k && ns[k] <= ns[j]
  }

  /** The indices below `n` that satisfy `f`. */
  function Where(n: nat, f: nat -> bool): set<nat> {
    set k: nat | k < n && f(k)
  }

  lemma WhereNext(n: nat, f: nat -> bool, g: nat -> bool)
    requires forall k: nat :: k < n ==> f(k) == g(k)
    ensures |Where(n + 1, g)| == |Where(n, f)| + if g(n) then 1 else 0
  {
    assert Where(n + 1, g) == Where(n, f) + if g(n) then {n} else {};
  }

  function Jumping(ns: seq<nat>): set<nat> {
    Where(|ns|, (k: nat) => k < |ns| && Jumps(ns, k))
  }

  function Lagging(ns: seq<nat>): set<nat> {
    Where(|ns|, (k: nat) => k < |ns| && Lags(ns, k))
  }

  /** The next number expected is one more than the largest so far. */
  lemma {:induction false} ExpectedIsPastLargest(ns: seq<nat>)
    ensures forall j :: 0 <= j < |ns| ==> ns[j] < Expected(ns)
    ensures Expected(ns) > 0 ==> exists j :: 0 <= j < |ns| && ns[j] + 1 == Expected(ns)
  {
    if ns != [] {
      var init := ns[..|ns| - 1];
      ExpectedIsPastLargest(init);
      if Expected(ns) == Expected(init) {
        var j :| 0 <= j < |init| && init[j] + 1 == Expected(init);
        assert ns[j] + 1 == Expected(ns);
      }
    }
  }

  /** A later number changes nothing about earlier ones. */
  lemma EarlierNumbers(init: seq<nat>, n: nat, k: nat)
    requires k < |init|
    ensures Jumps(init + [n], k) == Jumps(init, k) && Lags(init + [n], k) == Lags(init, k)
  {
    assert forall j :: 0 <= j <= k ==> (init + [n])[j] == init[j];
  }

  lemma LastNumber(init: seq<nat>, n: nat)
    ensures Jumps(init + [n], |init|) <==> n > Expected(init)
    ensures Lags(init + [n], |init|) <==> n < Expected(init)
  {
    ExpectedIsPastLargest(init);
    assert forall j :: 0 <= j < |init| ==> (init + [n])[j] == init[j];
  }

  lemma OneMoreNumber(init: seq<nat>, n: nat)
    ensures |Jumping(init + [n])| == |Jumping(init)| + if n > Expected(init) then 1 else 0
    ensures |Lagging(init + [n])| == |Lagging(init)| + if n < Expected(init) then 1 else 0
  {
    var ns := init + [n];
    LastNumber(init, n);
    forall k: nat | k < |init| ensures Jumps(ns, k) == Jumps(init, k) && Lags(ns, k) == Lags(init, k) {
      EarlierNumbers(init, n, k);
    }
    WhereNext(|init|, (k: nat) => k < |init| && Jumps(init, k), (k: nat) => k < |ns| && Jumps(ns, k));
    WhereNext(|init|, (k: nat) => k < |init| && Lags(init, k), (k: nat) => k < |ns| && Lags(ns, k));
  }

  /** Over any stream the gaps counted are the numbers that jump, the late ones
      those that lag, and the missing ones what the largest number leaves open. */
  lemma {:induction false} StreamCounts(ns: seq<nat>)
    ensures StatsOf(ns).gaps == |Jumping(ns)| && StatsOf(ns).late == |Lagging(ns)|
    ensures StatsOf(ns).missing == Expected(ns) - (|ns| - |Lagging(ns)|)
  {
    if ns != [] {
      var init, n := ns[..|ns| - 1], ns[|ns| - 1];
      StreamCounts(init);
      OneMoreNumber(init, n);
      assert init + [n] == ns;
    }
  }

  /** Number `k` directly follows the one before it, or starts at 0. */
  predicate Follows(ns: seq<nat>, k: nat)
    requires k < |ns|
  {
    if k == 0 then ns[k] == 0 else ns[k] == ns[k - 1] + 1
  }

  /** In a rising stream, with some messages refused, a gap is a number that
      does not follow the one before it. */
  lemma RisingGaps(ns: seq<nat>)
    requires Rising(ns)
    ensures StatsOf(ns).gaps == |Where(|ns|, (k: nat) => k < |ns| && !Follows(ns, k))|
  {
    StreamCounts(ns);
    forall k: nat | k < |ns| ensures Jumps(ns, k) <==> !Follows(ns, k) {
      RisingJump(ns, k);
    }
    assert Jumping(ns) == Where(|ns|, (k: nat) => k < |ns| && !Follows(ns, k));
  }

  lemma RisingJump(ns: seq<nat>, k: nat)
    requires Rising(ns) && k < |ns|
    ensures Jumps(ns, k) <==> !Follows(ns, k)
  {
    if k > 0 {
      assert forall j :: 0 <= j < k - 1 ==> ns[j] < ns[k - 1] < ns[k];
    }
  }

  // ----- totals

  lemma {:induction false} StreamAppend(msgs: seq<Msg>, m: Msg, p: nat)
    ensures Stream(msgs + [m], p) == if m.producer == p then Stream(msgs, p) + [m.number] else Stream(msgs, p)
  {
    assert (msgs + [m])[..|msgs|] == msgs;
  }

  lemma StatsAppend(ns: seq<nat>, n: nat)
    ensures StatsOf(ns + [n]) == StatsOf(ns).Plus(Effect(Expected(ns), n))
    ensures Expected(ns + [n]) == if n >= Expected(ns) then n + 1 else Expected(ns)
  {
    assert (ns + [n])[..|ns|] == ns;
  }

  lemma PlusSwaps(a: Stats, b: Stats, c: Stats)
    ensures a.Plus(b).Plus(c) == a.Plus(c).Plus(b) == a.Plus(b.Plus(c))
  {
  }

  /** One more message changes the totals by its effect on its own stream. */
  lemma {:induction false} TotalAppend(msgs: seq<Msg>, m: Msg, producers: nat)
    ensures Total(msgs + [m], producers) ==
            if m.producer < producers then Total(msgs, producers).Plus(Effect(Expected(Stream(msgs, m.producer)), m.number))
            else Total(msgs, producers)
    decreases producers
  {
    if producers > 0 {
      var p, ns := producers - 1, Stream(msgs, producers - 1);
      TotalAppend(msgs, m, p);
      StreamAppend(msgs, m, p);
      if m.producer == p {
        StatsAppend(ns, m.number);
        PlusSwaps(Total(msgs, p), StatsOf(ns), Effect(Expected(ns), m.number));
      } else if m.producer < p {
        PlusSwaps(Total(msgs, p), StatsOf(ns), Effect(Expected(Stream(msgs, m.producer)), m.number));
      }
    }
  }

  /** Message `i` jumps ahead in its producer's stream. */
  predicate JumpsAhead(msgs: seq<Msg>, i: nat)
    requires i < |msgs|
  {
    msgs[i].number > 0 &&
    forall j :: 0 <= j < i && msgs[j].producer == msgs[i].producer ==> msgs[i].number > msgs[j].number + 1
  }

  /** Message `i` comes after one of its producer's that is not older. */
  predicate ComesLate(msgs: seq<Msg>, i: nat)
    requires i < |msgs|
  {
    exists j :: 0 <= j < i && msgs[j].producer == msgs[i].producer && msgs[i].number <= msgs[j].number
  }

  predicate IsGap(msgs: seq<Msg>, producers: nat, i: nat) {
    i < |msgs| && msgs[i].producer < producers && JumpsAhead(msgs, i)
  }

  predicate IsLate(msgs: seq<Msg>, producers: nat, i: nat) {
    i < |msgs| && msgs[i].producer < producers && ComesLate(msgs, i)
  }

  function GapEvents(msgs: seq<Msg>, producers: nat): set<nat> {
    Where(|msgs|, (i: nat) => IsGap(msgs, producers, i))
  }

  function LateEvents(msgs: seq<Msg>, producers: nat): set<nat> {
    Where(|msgs|, (i: nat) => IsLate(msgs, producers, i))
  }

  /** `e` is one more than the largest number of producer `p`, 0 without any. */
  ghost predicate IsPastLargest(msgs: seq<Msg>, p: nat, e: nat) {
    (forall j :: 0 <= j < |msgs| && msgs[j].producer == p ==> msgs[j].number < e) &&
    (e > 0 ==> exists j :: 0 <= j < |msgs| && msgs[j].producer == p && msgs[j].number + 1 == e)
  }

  lemma PastLargestStep(init: seq<Msg>, m: Msg, p: nat, e: nat)
    requires IsPastLargest(init, p, e)
    ensures IsPastLargest(init + [m], p, if m.producer == p && m.number >= e then m.number + 1 else e)
  {
    var msgs := init + [m];
    if m.producer == p && m.number >= e {
      assert msgs[|init|] == m;
    } else if e > 0 {
      var j :| 0 <= j < |init| && init[j].producer == p && init[j].number + 1 == e;
      assert msgs[j] == init[j];
    }
  }

  lemma {:induction false} NextExpectedIsPastLargest(msgs: seq<Msg>, p: nat)
    ensures IsPastLargest(msgs, p, Expected(Stream(msgs, p)))
  {
    if msgs != [] {
      var init, m := msgs[..|msgs| - 1], msgs[|msgs| - 1];
      NextExpectedIsPastLargest(init, p);
      PastLargestStep(init, m, p, Expected(Stream(init, p)));
      assert init + [m] == msgs;
      StreamAppend(init, m, p);
      StatsAppend(Stream(init, p), m.number);
    }
  }

  /** A later message changes nothing about earlier ones. */
  lemma EarlierEvents(init: seq<Msg>, m: Msg, k: nat)
    requires k < |init|
    ensures JumpsAhead(init + [m], k) == JumpsAhead(init, k) && ComesLate(init + [m], k) == ComesLate(init, k)
  {
    assert forall j :: 0 <= j <= k ==> (init + [m])[j] == init[j];
  }

  lemma LastEvent(init: seq<Msg>, m: Msg)
    ensures JumpsAhead(init + [m], |init|) <==> m.number > Expected(Stream(init, m.producer))
    ensures ComesLate(init + [m], |init|) <==> m.number < Expected(Stream(init, m.producer))
  {
    NextExpectedIsPastLargest(init, m.producer);
    assert forall j :: 0 <= j < |init| ==> (init + [m])[j] == init[j];
  }

  lemma OneMoreGap(init: seq<Msg>, m: Msg, producers: nat)
    ensures |GapEvents(init + [m], producers)| == |GapEvents(init, producers)| +
            if m.producer < producers && m.number > Expected(Stream(init, m.producer)) then 1 else 0
  {
    var msgs := init + [m];
    LastEvent(init, m);
    forall i: nat | i < |init| ensures IsGap(msgs, producers, i) == IsGap(init, producers, i) {
      EarlierEvents(init, m, i);
    }
    WhereNext(|init|, (i: nat) => IsGap(init, producers, i), (i: nat) => IsGap(msgs, producers, i));
  }

  lemma OneMoreLate(init: seq<Msg>, m: Msg, producers: nat)
    ensures |LateEvents(init + [m], producers)| == |LateEvents(init, producers)| +
            if m.producer < producers && m.number < Expected(Stream(init, m.producer)) then 1 else 0
  {
    var msgs := init + [m];
    LastEvent(init, m);
    forall i: nat | i < |init| ensures IsLate(msgs, producers, i) == IsLate(init, producers, i) {
      EarlierEvents(init, m, i);
    }
    WhereNext(|init|, (i: nat) => IsLate(init, producers, i), (i: nat) => IsLate(msgs, producers, i));
  }

  /** The totals count the messages that jump ahead and those that come late. */
  lemma {:induction false} TotalCountsEvents(msgs: seq<Msg>, producers: nat)
    ensures Total(msgs, producers).gaps == |GapEvents(msgs, producers)|
    ensures Total(msgs, producers).late == |LateEvents(msgs, producers)|
  {
    if msgs == [] {
      TotalOfNothing(producers);
    } else {
      var init, m := msgs[..|msgs| - 1], msgs[|msgs| - 1];
      TotalCountsEvents(init, producers);
      OneMoreGap(init, m, producers);
      OneMoreLate(init, m, producers);
      TotalAppend(init, m, producers);
      assert init + [m] == msgs;
    }
  }

  predicate AtMost(a: Stats, b: Stats) {
    a.count <= b.count && a.gaps <= b.gaps && a.missing <= b.missing && a.late <= b.late
  }

  lemma {:induction false} TotalDominates(msgs: seq<Msg>, producers: nat, p: nat)
    requires p < producers
    ensures AtMost(StatsOf(Stream(msgs, p)), Total(msgs, producers))
  {
    var t, own := Total(msgs, producers - 1), StatsOf(Stream(msgs, producers - 1));
    assert Total(msgs, producers) == t.Plus(own);
    if p < producers - 1 {
      TotalDominates(msgs, producers - 1, p);
    }
  }

  lemma VectorPrefix(msgs: seq<Msg>, producers: nat)
    requires producers > 0
    ensures NextExpected(msgs, producers)[..producers - 1] == NextExpected(msgs, producers - 1)
    ensures NextExpected(msgs, producers)[producers - 1] == Expected(Stream(msgs, producers - 1))
  {
  }

  lemma {:induction false} AllConsecutive(msgs: seq<Msg>, producers: nat, perProducer: nat)
    requires AllArrived(msgs, producers, perProducer)
    ensures Total(msgs, producers) == Stats(producers * perProducer, 0, 0, 0)
    ensures Tail(NextExpected(msgs, producers), perProducer) == 0
    ensures AllAre(Received(msgs, producers), perProducer)
  {
    if producers > 0 {
      AllConsecutive(msgs, producers - 1, perProducer);
      VectorPrefix(msgs, producers);
      CleanIffConsecutive(UpTo(perProducer));
      CountAndGaps(UpTo(perProducer));
      assert Stream(msgs, producers - 1) == UpTo(perProducer);
      OneMoreProducer(producers, perProducer);
    }
  }

  lemma {:induction false} TotalCount(msgs: seq<Msg>, producers: nat)
    requires forall i :: 0 <= i < |msgs| ==> msgs[i].producer < producers
    ensures Total(msgs, producers).count == |msgs|
    decreases |msgs|
  {
    if msgs == [] {
      TotalOfNothing(producers);
    } else {
      var init, m := msgs[..|msgs| - 1], msgs[|msgs| - 1];
      TotalCount(init, producers);
      CountOneMore(init, m, producers);
      assert init + [m] == msgs;
    }
  }

  lemma CountOneMore(init: seq<Msg>, m: Msg, producers: nat)
    requires m.producer < producers
    ensures Total(init + [m], producers).count == Total(init, producers).count + 1
  {
    TotalAppend(init, m, producers);
  }

  lemma {:induction false} TotalOfNothing(producers: nat)
    ensures Total([], producers) == ZERO
  {
    if producers > 0 {
      TotalOfNothing(producers - 1);
    }
  }

  // ----- the verdicts

  /** The push-mode verdict over the final counters. */
  ghost predicate PushVerdict(msgs: seq<Msg>, producers: nat, perProducer: nat) {
    var t := Total(msgs, producers);
    AllAre(Received(msgs, producers), perProducer) &&
    t.gaps == 0 && t.missing + Tail(NextExpected(msgs, producers), perProducer) == 0 && t.late == 0
  }

  /** Every producer's messages arrived as 0, 1, ..., M - 1. */
  ghost predicate AllArrived(msgs: seq<Msg>, producers: nat, perProducer: nat) {
    forall p :: 0 <= p < producers ==> Stream(msgs, p) == UpTo(perProducer)
  }

  /** It accepts exactly the runs in which every producer's messages arrived
      as 0, 1, ..., M - 1, over any consumed sequence whatever. */
  lemma PushVerdictIsExact(msgs: seq<Msg>, producers: nat, perProducer: nat)
    ensures PushVerdict(msgs, producers, perProducer) <==> AllArrived(msgs, producers, perProducer)
  {
    if PushVerdict(msgs, producers, perProducer) {
      forall p | 0 <= p < producers ensures Stream(msgs, p) == UpTo(perProducer) {
        AcceptedIsConsecutive(msgs, producers, perProducer, p);
      }
    } else if AllArrived(msgs, producers, perProducer) {
      ConsecutiveIsAccepted(msgs, producers, perProducer);
    }
  }

  lemma AcceptedIsConsecutive(msgs: seq<Msg>, producers: nat, perProducer: nat, p: nat)
    requires PushVerdict(msgs, producers, perProducer) && p < producers
    ensures Stream(msgs, p) == UpTo(perProducer)
  {
    TotalDominates(msgs, producers, p);
    assert Received(msgs, producers)[p] == |Stream(msgs, p)|;
    CleanIffConsecutive(Stream(msgs, p));
  }

  lemma ConsecutiveIsAccepted(msgs: seq<Msg>, producers: nat, perProducer: nat)
    requires AllArrived(msgs, producers, perProducer)
    ensures PushVerdict(msgs, producers, perProducer)
  {
    AllConsecutive(msgs, producers, perProducer);
    var t := Total(msgs, producers);
    assert t.gaps == 0 && t.late == 0 && t.missing == 0;
  }

  /** Without late messages, with valid ids and numbers below M, the corrected
      count of missing messages is exactly what was not consumed. */
  lemma MissingIsExact(msgs: seq<Msg>, producers: nat, perProducer: nat)
    requires forall i :: 0 <= i < |msgs| ==> msgs[i].producer < producers && msgs[i].number < perProducer
    requires Total(msgs, producers).late == 0
    ensures Total(msgs, producers).missing + Tail(NextExpected(msgs, producers), perProducer) == producers * perProducer - |msgs|
  {
    TotalCount(msgs, producers);
    MissingPlusCount(msgs, producers, perProducer);
  }

  /** What the tail correction adds for one stream. */
  function Short(ns: seq<nat>, perProducer: nat): nat {
    if Expected(ns) < perProducer then perProducer - Expected(ns) else 0
  }

  lemma StreamBalances(ns: seq<nat>, perProducer: nat)
    requires StatsOf(ns).late == 0 && forall i :: 0 <= i < |ns| ==> ns[i] < perProducer
    ensures Balanced(StatsOf(ns), Short(ns, perProducer), perProducer)
  {
    NothingLateBalances(ns);
    ExpectedBound(ns, perProducer);
  }

  lemma TailStep(msgs: seq<Msg>, producers: nat, perProducer: nat)
    requires producers > 0
    ensures Tail(NextExpected(msgs, producers), perProducer) ==
            Tail(NextExpected(msgs, producers - 1), perProducer) + Short(Stream(msgs, producers - 1), perProducer)
  {
    VectorPrefix(msgs, producers);
  }

  /** The balance over the first `producers` streams. */
  lemma {:induction false} MissingPlusCount(msgs: seq<Msg>, producers: nat, perProducer: nat)
    requires forall i :: 0 <= i < |msgs| ==> msgs[i].number < perProducer
    requires Total(msgs, producers).late == 0
    ensures Balanced(Total(msgs, producers), Tail(NextExpected(msgs, producers), perProducer), producers * perProducer)
    decreases producers
  {
    if producers > 0 {
      var p := producers - 1;
      var t, own := Total(msgs, p), StatsOf(Stream(msgs, p));
      var tail, short := Tail(NextExpected(msgs, p), perProducer), Short(Stream(msgs, p), perProducer);
      MissingPlusCount(msgs, p, perProducer);
      TailStep(msgs, producers, perProducer);
      OwnStreamBalances(msgs, p, perProducer);
      OneMoreProducer(producers, perProducer);
      BalancesAdd(t, tail, p * perProducer, own, short, perProducer);
    }
  }

  predicate Balanced(s: Stats, extra: nat, all: nat) {
    s.missing + extra + s.count == all
  }

  lemma BalancesAdd(s: Stats, extra: nat, all: nat, s': Stats, extra': nat, all': nat)
    requires Balanced(s, extra, all) && Balanced(s', extra', all')
    ensures Balanced(s.Plus(s'), extra + extra', all + all')
  {
  }

  lemma OwnStreamBalances(msgs: seq<Msg>, p: nat, perProducer: nat)
    requires forall i :: 0 <= i < |msgs| ==> msgs[i].number < perProducer
    requires StatsOf(Stream(msgs, p)).late == 0
    ensures Balanced(StatsOf(Stream(msgs, p)), Short(Stream(msgs, p), perProducer), perProducer)
  {
    StreamBound(msgs, p, perProducer);
    StreamBalances(Stream(msgs, p), perProducer);
  }

  lemma OneMoreProducer(producers: nat, perProducer: nat)
    requires producers > 0
    ensures producers * perProducer == (producers - 1) * perProducer + perProducer
  {
  }

  lemma {:induction false} TailDominates(msgs: seq<Msg>, producers: nat, perProducer: nat, p: nat)
    requires p < producers
    ensures Short(Stream(msgs, p), perProducer) <= Tail(NextExpected(msgs, producers), perProducer)
  {
    TailStep(msgs, producers, perProducer);
    if p < producers - 1 {
      TailDominates(msgs, producers - 1, perProducer, p);
    }
  }

  /** Nothing late and nothing missing: everything arrived, and is accepted. */
  lemma NothingMissingArrived(msgs: seq<Msg>, producers: nat, perProducer: nat)
    requires forall i :: 0 <= i < |msgs| ==> msgs[i].number < perProducer
    requires Total(msgs, producers).late == 0
    requires Total(msgs, producers).missing + Tail(NextExpected(msgs, producers), perProducer) == 0
    ensures PushVerdict(msgs, producers, perProducer)
  {
    forall p | 0 <= p < producers ensures Stream(msgs, p) == UpTo(perProducer) {
      TotalDominates(msgs, producers, p);
      TailDominates(msgs, producers, perProducer, p);
      StreamBound(msgs, p, perProducer);
      StreamBalances(Stream(msgs, p), perProducer);
      CountAndGaps(Stream(msgs, p));
      CleanIffConsecutive(Stream(msgs, p));
    }
    PushVerdictIsExact(msgs, producers, perProducer);
  }

  lemma {:induction false} StreamBound(msgs: seq<Msg>, p: nat, m: nat)
    requires forall i :: 0 <= i < |msgs| ==> msgs[i].number < m
    ensures forall i :: 0 <= i < |Stream(msgs, p)| ==> Stream(msgs, p)[i] < m
  {
    if msgs != [] {
      StreamBound(msgs[..|msgs| - 1], p, m);
    }
  }

  // ----- the loops

  lemma VectorsAppend(msgs: seq<Msg>, m: Msg, producers: nat, p: nat)
    requires p < producers
    ensures Received(msgs + [m], producers)[p] ==
            Received(msgs, producers)[p] + if m.producer == p then 1 else 0
    ensures NextExpected(msgs + [m], producers)[p] ==
            if m.producer == p && m.number >= NextExpected(msgs, producers)[p] then m.number + 1
            else NextExpected(msgs, producers)[p]
  {
    StreamAppend(msgs, m, p);
    if m.producer == p {
      StatsAppend(Stream(msgs, p), m.number);
    }
  }

  /** One more message moves its own producer's entries and no others. */
  lemma OneMessageMovesOneEntry(msgs: seq<Msg>, m: Msg, producers: nat)
    ensures var c, e := Received(msgs, producers), NextExpected(msgs, producers);
            var c', e' := Received(msgs + [m], producers), NextExpected(msgs + [m], producers);
            if m.producer >= producers then c' == c && e' == e
            else c' == c[m.producer := c[m.producer] + 1] &&
                 e' == if m.number >= e[m.producer] then e[m.producer := m.number + 1] else e
  {
    forall p: nat | p < producers
      ensures Received(msgs + [m], producers)[p] == Received(msgs, producers)[p] + (if m.producer == p then 1 else 0)
      ensures NextExpected(msgs + [m], producers)[p] ==
              if m.producer == p && m.number >= NextExpected(msgs, producers)[p] then m.number + 1
              else NextExpected(msgs, producers)[p]
    {
      VectorsAppend(msgs, m, producers, p);
    }
  }

  /** One message of a known producer: what it adds to the totals. */
  method Receive(counts: array<nat>, expected: array<nat>, m: Msg)
    returns (gap: nat, missing: nat, late: nat)
    requires counts != expected && m.producer < counts.Length == expected.Length
    modifies counts, expected
    ensures counts[..] == old(counts[..])[m.producer := old(counts[m.producer]) + 1]
    ensures expected[..] ==
            if m.number >= old(expected[m.producer]) then old(expected[..])[m.producer := m.number + 1]
            else old(expected[..])
    ensures Stats(1, gap, missing, late) == Effect(old(expected[m.producer]), m.number)
  {
    gap, missing, late := 0, 0, 0;
    var p := m.producer;
    counts[p] := counts[p] + 1;
    if m.number == expected[p] {
      expected[p] := expected[p] + 1;
    } else if m.number > expected[p] {
      gap, missing := 1, m.number - expected[p];
      expected[p] := m.number + 1;
    } else {
      late := 1;
    }
  }

  /** The loop's variables hold the figures of the messages in `seen`. */
  predicate Accounted(counts: seq<nat>, expected: seq<nat>, gaps: nat, missing: nat, late: nat, seen: seq<Msg>) {
    |counts| == |expected| &&
    counts == Received(seen, |counts|) && expected == NextExpected(seen, |counts|) &&
    var t := Total(seen, |counts|);
    gaps == t.gaps && missing == t.missing && late == t.late
  }

  /** The loop body, for any message; `before` is what was consumed so far. */
  method ReceiveNext(counts: array<nat>, expected: array<nat>, m: Msg, ghost before: seq<Msg>,
                     gaps: nat, missing: nat, late: nat)
    returns (gaps': nat, missing': nat, late': nat)
    requires counts != expected && Accounted(counts[..], expected[..], gaps, missing, late, before)
    modifies counts, expected
    ensures Accounted(counts[..], expected[..], gaps', missing', late', before + [m])
  {
    OneMessageMovesOneEntry(before, m, counts.Length);
    TotalAppend(before, m, counts.Length);
    gaps', missing', late' := gaps, missing, late;
    if m.producer < counts.Length {
      var g, n, l := Receive(counts, expected, m);
      gaps', missing', late' := gaps + g, missing + n, late + l;
    }
  }

  method ZeroVectors(producers: nat) returns (counts: array<nat>, expected: array<nat>)
    ensures counts != expected && fresh(counts) && fresh(expected) && counts.Length == producers
    ensures Accounted(counts[..], expected[..], 0, 0, 0, [])
  {
    TotalOfNothing(producers);
    counts := new nat[producers](_ => 0);
    expected := new nat[producers](_ => 0);
  }

  /** The consumer loop over the messages it pops. Messages with unknown
      producers only count as consumed. */
  method Consume(msgs: seq<Msg>, producers: nat)
    returns (counts: array<nat>, expected: array<nat>, gaps: nat, missing: nat, late: nat, consumed: nat)
    ensures counts[..] == Received(msgs, producers) && expected[..] == NextExpected(msgs, producers)
    ensures gaps == |GapEvents(msgs, producers)| && late == |LateEvents(msgs, producers)|
    ensures gaps == Total(msgs, producers).gaps && missing == Total(msgs, producers).missing
    ensures late == Total(msgs, producers).late && consumed == |msgs|
  {
    counts, expected := ZeroVectors(producers);
    gaps, missing, late, consumed := 0, 0, 0, 0;
    ghost var seen: seq<Msg> := [];
    for k := 0 to |msgs|
      invariant consumed == k && seen == msgs[..k]
      invariant counts != expected && counts.Length == producers
      invariant Accounted(counts[..], expected[..], gaps, missing, late, seen)
    {
      gaps, missing, late := ReceiveNext(counts, expected, msgs[k], seen, gaps, missing, late);
      consumed := consumed + 1;
      seen := seen + [msgs[k]];
    }
    assert seen == msgs;
    TotalCountsEvents(msgs, producers);
  }

  /** The tail correction. */
  method CorrectTail(expected: array<nat>, perProducer: nat) returns (extra: nat)
    ensures extra == Tail(expected[..], perProducer)
  {
    extra := 0;
    for p := 0 to expected.Length
      invariant extra == Tail(expected[..p], perProducer)
    {
      assert expected[..p + 1][..p] == expected[..p];
      if expected[p] < perProducer {
        extra := extra + (perProducer - expected[p]);
      }
    }
    assert expected[..expected.Length] == expected[..];
  }

  /** The loop that compares each producer's count with what was expected. */
  method AllCounted(counts: array<nat>, perProducer: nat) returns (ok: bool)
    ensures ok <==> AllAre(counts[..], perProducer)
  {
    ok := true;
    for p := 0 to counts.Length
      invariant ok <==> forall i :: 0 <= i < p ==> counts[i] == perProducer
    {
      if counts[p] != perProducer {
        ok := false;
      }
    }
  }

  /** The whole accounting in push mode: consume, correct the tail, judge. */
  method JudgePushRun(msgs: seq<Msg>, producers: nat, perProducer: nat)
    returns (ok: bool, missing: nat)
    ensures ok <==> PushVerdict(msgs, producers, perProducer)
    ensures missing == Total(msgs, producers).missing + Tail(NextExpected(msgs, producers), perProducer)
  {
    var counts, expected, gaps, late, consumed;
    counts, expected, gaps, missing, late, consumed := Consume(msgs, producers);
    var extra := CorrectTail(expected, perProducer);
    missing := missing + extra;
    ok := AllCounted(counts, perProducer);
    ok := ok && gaps == 0 && missing == 0 && late == 0;
  }
}
