/** The multi-producer ring as a system of atomic steps: one step per atomic
    load, store or read-modify-write, and two steps per payload write, so every
    interleaving of any number of producers and one consumer is a label list.

    An acquire load of a cell may return any sequence number that cell has
    held: each cell keeps its whole history and a load names the entry it reads. */
module MpscProtocol {
  import opened Wrappers
  import opened Slots

  /** `hist` lists every value `seq` has held, newest last. A `None` payload
      is a payload that is missing or half written. */
  datatype Cell<T> = Cell(hist: seq<nat>, value: Option<T>)

  /** Where a producer is inside `push` or `try_push`. */
  datatype Producer<T> =
    | Idle
    | Claimed(pos: nat, v: T)  // push: position taken, waiting for its cell
    | Ready(pos: nat, v: T)    // position owned, about to write the payload
    | Writing(pos: nat, v: T)  // payload half written
    | Written(pos: nat, v: T)  // payload complete, not yet published
    | Loaded(pos: nat, v: T)   // try_push: `pos` read from head_
    | Checked(pos: nat, v: T)  // try_push: saw seq == pos, about to CAS

  /** Where the consumer is inside `try_pop`. */
  datatype Consumer<T> =
    | Resting
    | Seen               // saw seq == tail + 1
    | Copied(out: T)     // payload copied
    | Recycled(out: T)   // slot handed back, tail_ not yet advanced

  datatype Claim<T> = Claim(owner: nat, v: T)

  /** `log` records who claimed each position and `popped` what `try_pop`
      returned; the program itself keeps neither. */
  datatype State<T> = State(
    cap: nat,
    head: nat,
    tail: nat,
    cells: seq<Cell<T>>,
    prod: seq<Producer<T>>,
    cons: Consumer<T>,
    log: seq<Claim<T>>,
    popped: seq<T>)

  datatype Label<T> =
    | StartPush(t: nat, v: T)            // fetch_add on head_
    | SpinLoad(t: nat, m: nat)           // wait loop: load message m of the cell
    | BeginWrite(t: nat)
    | EndWrite(t: nat)
    | Publish(t: nat)
    | LoadHead(t: nat, v: T, pos: nat)   // try_push starts; the load may be stale
    | CheckSeq(t: nat, m: nat)           // compare the loaded seq with pos
    | CasOk(t: nat)
    | CasFail(t: nat, reload: nat)       // weak CAS: may fail for no reason
    | PopCheck(m: nat)
    | PopCopy
    | PopRecycle
    | PopAdvance

  // ----- small accessors

  ghost function Seq<T>(c: Cell<T>): nat
    requires |c.hist| > 0
  {
    c.hist[|c.hist| - 1]
  }

  function CellAt<T>(s: State<T>, pos: nat): Cell<T>
    requires s.cap > 0 && |s.cells| == s.cap
  {
    s.cells[Slot(pos, s.cap)]
  }

  ghost predicate Shape<T>(s: State<T>) {
    s.cap > 0 && |s.cells| == s.cap && forall k :: 0 <= k < s.cap ==> |s.cells[k].hist| > 0
  }

  /** The first position whose slot the consumer has not handed back. */
  function Base<T>(s: State<T>): nat {
    if s.cons.Recycled? then s.tail + 1 else s.tail
  }

  predicate Owns<T>(p: Producer<T>) {
    p.Claimed? || p.Ready? || p.Writing? || p.Written?
  }

  /** Position `p` is claimed and its owner has not published it. */
  predicate Held<T>(s: State<T>, p: nat) {
    p < s.head && p < |s.log| && s.log[p].owner < |s.prod| &&
    Owns(s.prod[s.log[p].owner]) && s.prod[s.log[p].owner].pos == p
  }

  /** Producer `t` has claimed nothing at or after `pos`. */
  ghost predicate NoOwnClaimFrom<T>(s: State<T>, t: nat, pos: nat) {
    forall q {:trigger s.log[q]} :: pos <= q < |s.log| ==> s.log[q].owner != t
  }

  // ----- the steps

  ghost predicate Enabled<T>(s: State<T>, l: Label<T>) {
    Shape(s) &&
    match l
    case StartPush(t, _) => t < |s.prod| && s.prod[t].Idle?
    case SpinLoad(t, m) => t < |s.prod| && s.prod[t].Claimed? && m < |CellAt(s, s.prod[t].pos).hist|
    case BeginWrite(t) => t < |s.prod| && s.prod[t].Ready?
    case EndWrite(t) => t < |s.prod| && s.prod[t].Writing?
    case Publish(t) => t < |s.prod| && s.prod[t].Written?
    case LoadHead(t, _, pos) =>
      t < |s.prod| && s.prod[t].Idle? && pos <= s.head && NoOwnClaimFrom(s, t, pos)
    case CheckSeq(t, m) => t < |s.prod| && s.prod[t].Loaded? && m < |CellAt(s, s.prod[t].pos).hist|
    case CasOk(t) => t < |s.prod| && s.prod[t].Checked? && s.prod[t].pos == s.head
    case CasFail(t, reload) =>
      t < |s.prod| && s.prod[t].Checked? && reload <= s.head && NoOwnClaimFrom(s, t, reload)
    case PopCheck(m) => s.cons.Resting? && m < |CellAt(s, s.tail).hist|
    case PopCopy => s.cons.Seen? && CellAt(s, s.tail).value.Some?
    case PopRecycle => s.cons.Copied?
    case PopAdvance => s.cons.Recycled?
  }

  function SetProd<T>(s: State<T>, t: nat, p: Producer<T>): State<T>
    requires t < |s.prod|
  {
    s.(prod := s.prod[t := p])
  }

  function SetCell<T>(s: State<T>, pos: nat, c: Cell<T>): State<T>
    requires s.cap > 0 && |s.cells| == s.cap
  {
    s.(cells := s.cells[Slot(pos, s.cap) := c])
  }

  /** Take position `head` for producer `t`. */
  function TakeHead<T>(s: State<T>, t: nat, v: T): State<T> {
    s.(head := s.head + 1, log := s.log + [Claim(t, v)])
  }

  ghost function Apply<T>(s: State<T>, l: Label<T>): State<T>
    requires Enabled(s, l)
  {
    match l
    case StartPush(t, v) => SetProd(TakeHead(s, t, v), t, Claimed(s.head, v))
    case SpinLoad(t, m) =>
      var p := s.prod[t];
      if CellAt(s, p.pos).hist[m] == p.pos then SetProd(s, t, Ready(p.pos, p.v)) else s
    case BeginWrite(t) =>
      var p := s.prod[t];
      SetProd(SetCell(s, p.pos, CellAt(s, p.pos).(value := None)), t, Writing(p.pos, p.v))
    case EndWrite(t) =>
      var p := s.prod[t];
      SetProd(SetCell(s, p.pos, CellAt(s, p.pos).(value := Some(p.v))), t, Written(p.pos, p.v))
    case Publish(t) =>
      var p := s.prod[t];
      var c := CellAt(s, p.pos);
      SetProd(SetCell(s, p.pos, c.(hist := c.hist + [p.pos + 1])), t, Idle)
    case LoadHead(t, v, pos) => SetProd(s, t, Loaded(pos, v))
    case CheckSeq(t, m) =>
      var p := s.prod[t];
      SetProd(s, t, if CellAt(s, p.pos).hist[m] == p.pos then Checked(p.pos, p.v) else Idle)
    case CasOk(t) =>
      var p := s.prod[t];
      SetProd(TakeHead(s, t, p.v), t, Ready(p.pos, p.v))
    case CasFail(t, reload) => SetProd(s, t, Loaded(reload, s.prod[t].v))
    case PopCheck(m) =>
      if CellAt(s, s.tail).hist[m] == s.tail + 1 then s.(cons := Seen) else s
    case PopCopy => s.(cons := Copied(CellAt(s, s.tail).value.value))
    case PopRecycle =>
      var c := CellAt(s, s.tail);
      SetCell(s, s.tail, c.(hist := c.hist + [s.tail + s.cap])).(cons := Recycled(s.cons.out))
    case PopAdvance =>
      s.(cons := Resting, tail := s.tail + 1, popped := s.popped + [s.cons.out])
  }

  ghost function Init<T>(cap: nat, producers: nat): State<T> {
    State(cap, 0, 0, seq(cap, (i: nat) => Cell([i], None)), seq(producers, (i: nat) => Idle), Resting, [], [])
  }

  /** The state after the steps `ls`, or None when one of them is not enabled. */
  ghost function Exec<T>(s: State<T>, ls: seq<Label<T>>): Option<State<T>>
    decreases |ls|
  {
    if ls == [] then Some(s)
    else if Enabled(s, ls[0]) then Exec(Apply(s, ls[0]), ls[1..])
    else None
  }

  lemma {:induction false} ExecConcat<T>(s: State<T>, a: seq<Label<T>>, b: seq<Label<T>>)
    requires Exec(s, a).Some?
    ensures Exec(s, a + b) == Exec(Exec(s, a).value, b)
    decreases |a|
  {
    if a == [] {
      assert a + b == b;
    } else {
      assert (a + b)[1..] == a[1..] + b;
      ExecConcat(Apply(s, a[0]), a[1..], b);
    }
  }

  ghost predicate Reachable<T(!new)>(cap: nat, producers: nat, s: State<T>) {
    exists ls: seq<Label<T>> :: Exec(Init(cap, producers), ls) == Some(s)
  }

  // ----- the invariant

  /** The cell of position `p` of the current window, by the state of `p`. */
  ghost predicate SlotOk<T>(s: State<T>, p: nat)
    requires Shape(s) && |s.log| == s.head
  {
    var c := CellAt(s, p);
    if p < s.head && !Held(s, p) then Seq(c) == p + 1 && c.value == Some(s.log[p].v)
    else Seq(c) == p
  }

  ghost predicate Increasing(h: seq<nat>) {
    forall i, j :: 0 <= i < j < |h| ==> h[i] < h[j]
  }

  ghost predicate ProducerOk<T>(s: State<T>, t: nat)
    requires Shape(s) && |s.log| == s.head && t < |s.prod|
  {
    var p := s.prod[t];
    (Owns(p) ==> Base(s) <= p.pos < s.head && s.log[p.pos] == Claim(t, p.v)) &&
    (Owns(p) && !p.Claimed? ==> p.pos < Base(s) + s.cap) &&
    (p.Writing? ==> CellAt(s, p.pos).value == None) &&
    (p.Written? ==> CellAt(s, p.pos).value == Some(p.v)) &&
    (p.Loaded? || p.Checked? ==> p.pos <= s.head && NoOwnClaimFrom(s, t, p.pos)) &&
    (p.Checked? ==> Seq(CellAt(s, p.pos)) >= p.pos)
  }

  ghost predicate ConsumerOk<T>(s: State<T>)
    requires |s.log| == s.head
  {
    (s.cons.Seen? || s.cons.Copied? ==> s.tail < s.head && !Held(s, s.tail)) &&
    (s.cons.Copied? || s.cons.Recycled? ==> s.tail < s.head && s.cons.out == s.log[s.tail].v)
  }

  ghost predicate Counters<T>(s: State<T>) {
    |s.log| == s.head && |s.popped| == s.tail && Base(s) <= s.head &&
    (forall k :: 0 <= k < s.tail ==> s.popped[k] == s.log[k].v)
  }

  ghost predicate HistoriesOk<T>(s: State<T>) {
    |s.cells| == s.cap && forall k :: 0 <= k < s.cap ==> Increasing(s.cells[k].hist)
  }

  ghost predicate WindowOk<T>(s: State<T>) {
    Shape(s) && |s.log| == s.head &&
    forall p {:trigger SlotOk(s, p)} :: Base(s) <= p < Base(s) + s.cap ==> SlotOk(s, p)
  }

  /** Positions beyond the window are still waiting for their cell. */
  ghost predicate BeyondOk<T>(s: State<T>) {
    forall p {:trigger Held(s, p)} :: Base(s) + s.cap <= p < s.head ==> Held(s, p)
  }

  ghost predicate ProducersOk<T>(s: State<T>) {
    Shape(s) && |s.log| == s.head &&
    forall t {:trigger ProducerOk(s, t)} :: 0 <= t < |s.prod| ==> ProducerOk(s, t)
  }

  ghost predicate OwnersExist<T>(s: State<T>) {
    |s.log| == s.head && forall q {:trigger s.log[q]} :: 0 <= q < s.head ==> s.log[q].owner < |s.prod|
  }

  ghost predicate Inv<T>(s: State<T>) {
    s.cap >= 2 && Shape(s) && Counters(s) && HistoriesOk(s) && OwnersExist(s) &&
    WindowOk(s) && BeyondOk(s) && ProducersOk(s) && ConsumerOk(s)
  }

  // ----- what the invariant says about one loaded message

  /** No cell has ever held a number above the end of the current window. */
  lemma SeqBound<T>(s: State<T>, pos: nat)
    requires Inv(s) && Base(s) <= pos
    ensures Seq(CellAt(s, pos)) <= Live(Base(s), pos, s.cap) + 1
    ensures pos < Base(s) + s.cap ==> Seq(CellAt(s, pos)) in {pos, pos + 1}
    ensures pos >= Base(s) + s.cap ==> Seq(CellAt(s, pos)) < pos
  {
    var q := Live(Base(s), pos, s.cap);
    assert SlotOk(s, q);
  }

  lemma MessageBound<T>(c: Cell<T>, m: nat)
    requires m < |c.hist| && Increasing(c.hist)
    ensures c.hist[m] <= Seq(c)
  {
  }

  /** A stale `seq == pos` seen by the owner of `pos` is never outdated. */
  lemma OwnerMessageIsCurrent<T>(s: State<T>, t: nat, m: nat)
    requires Inv(s) && t < |s.prod| && s.prod[t].Claimed?
    requires m < |CellAt(s, s.prod[t].pos).hist| && CellAt(s, s.prod[t].pos).hist[m] == s.prod[t].pos
    ensures s.prod[t].pos < Base(s) + s.cap
    ensures Seq(CellAt(s, s.prod[t].pos)) == s.prod[t].pos
  {
    var pos := s.prod[t].pos;
    assert ProducerOk(s, t);
    MessageBound(CellAt(s, pos), m);
    SeqBound(s, pos);
    if pos < Base(s) + s.cap {
      assert SlotOk(s, pos) && Held(s, pos);
    }
  }

  /** A stale `seq == pos` still guards the CAS: if the CAS succeeds, the cell
      is at `pos`, free, and inside the window. */
  lemma CheckSurvivesToCas<T>(s: State<T>, t: nat)
    requires Inv(s) && Enabled(s, CasOk(t))
    ensures s.head < Base(s) + s.cap
    ensures Seq(CellAt(s, s.head)) == s.head
    ensures forall j :: 0 <= j < |s.prod| && Owns(s.prod[j]) ==> s.prod[j].pos != s.head
  {
    assert ProducerOk(s, t);
    SeqBound(s, s.head);
    if s.head < Base(s) + s.cap {
      assert SlotOk(s, s.head);
    }
    forall j | 0 <= j < |s.prod| && Owns(s.prod[j]) ensures s.prod[j].pos != s.head {
      assert ProducerOk(s, j);
    }
  }

  /** A stale `seq == tail + 1` is never outdated either. */
  lemma PopMessageIsCurrent<T>(s: State<T>, m: nat)
    requires Inv(s) && Enabled(s, PopCheck(m)) && CellAt(s, s.tail).hist[m] == s.tail + 1
    ensures s.tail < s.head && !Held(s, s.tail)
    ensures Seq(CellAt(s, s.tail)) == s.tail + 1
    ensures CellAt(s, s.tail).value == Some(s.log[s.tail].v)
  {
    MessageBound(CellAt(s, s.tail), m);
    assert SlotOk(s, s.tail);
  }
}
