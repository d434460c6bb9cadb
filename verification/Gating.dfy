/** Consumer progress of the fan-out ring: one 64-bit sequence per consumer,
    all ones until the consumer has consumed something, and their minimum. */
module Gating {
  import opened Bits

  /** "No progress": 2^64 - 1. */
  const NONE: nat := 0xFFFF_FFFF_FFFF_FFFF

  /** What a stored sequence means: the last consumed sequence, or -1. */
  function Signed(x: nat): int {
    if x == NONE then -1 else x
  }

  predicate AllWords(g: seq<nat>) {
    forall i :: 0 <= i < |g| ==> g[i] < WORD
  }

  predicate AllStarted(g: seq<nat>) {
    forall i :: 0 <= i < |g| ==> g[i] != NONE
  }

  predicate NoneStarted(g: seq<nat>) {
    forall i :: 0 <= i < |g| ==> g[i] == NONE
  }

  /** The unsigned minimum that the scan computes. */
  function LoadMin(g: seq<nat>): (m: nat)
    requires AllWords(g)
    ensures m < WORD
  {
    if g == [] then NONE
    else if |g| == 1 then g[0]
    else
      var rest := LoadMin(g[..|g| - 1]);
      var last := g[|g| - 1];
      if last < rest then last else rest
  }

  /** It is a lower bound, and one of the sequences reaches it. */
  lemma {:induction false} LoadMinIsMinimum(g: seq<nat>) returns (k: nat)
    requires g != [] && AllWords(g)
    ensures forall i :: 0 <= i < |g| ==> LoadMin(g) <= g[i]
    ensures k < |g| && g[k] == LoadMin(g)
  {
    if |g| == 1 {
      k := 0;
    } else {
      var init := g[..|g| - 1];
      k := LoadMinIsMinimum(init);
      if g[|g| - 1] < LoadMin(init) {
        k := |g| - 1;
      }
      forall i | 0 <= i < |g| ensures LoadMin(g) <= g[i] {
        assert i < |init| ==> init[i] == g[i];
      }
    }
  }

  /** `m` is the progress of the slowest consumer. */
  ghost predicate IsSlowest(g: seq<nat>, m: int) {
    (exists i :: 0 <= i < |g| && Signed(g[i]) == m) &&
    forall i :: 0 <= i < |g| ==> m <= Signed(g[i])
  }

  /** The scan finds the slowest consumer exactly when all consumers or none
      have started. */
  lemma LoadMinIsSlowestIff(g: seq<nat>)
    requires g != [] && AllWords(g)
    ensures IsSlowest(g, Signed(LoadMin(g))) <==> AllStarted(g) || NoneStarted(g)
  {
    var m := LoadMin(g);
    var k := LoadMinIsMinimum(g);
    assert Signed(g[k]) == Signed(m);
    if NoneStarted(g) {
      assert g[0] == NONE;
    }
    if IsSlowest(g, Signed(m)) && !AllStarted(g) {
      var j :| 0 <= j < |g| && g[j] == NONE;
      assert Signed(g[j]) == -1;
    }
  }

  // ----- a scan that races with the consumers

  /** Each later snapshot is at least as far on as the earlier ones. */
  ghost predicate Advancing(history: seq<seq<nat>>, n: nat) {
    (forall a :: 0 <= a < |history| ==> |history[a]| == n && AllWords(history[a]) && AllStarted(history[a])) &&
    forall a, b, i :: 0 <= a <= b < |history| && 0 <= i < n ==> history[a][i] <= history[b][i]
  }

  /** What a scan reads when it visits consumer `i` at moment `at[i]`. */
  function Reads(history: seq<seq<nat>>, at: seq<nat>): (r: seq<nat>)
    requires forall i :: 0 <= i < |at| ==> at[i] < |history| && |history[at[i]]| == |at|
    ensures |r| == |at|
    ensures forall i :: 0 <= i < |r| ==> r[i] == history[at[i]][i]
  {
    seq(|at|, i requires 0 <= i < |at| => history[at[i]][i])
  }

  /** Once all have started, a racing scan lands between the true minimum at
      its start and the true minimum at its end, so it never over-reports. */
  lemma RacingScanIsBetween(history: seq<seq<nat>>, at: seq<nat>)
    requires |history| > 0 && |at| > 0 && Advancing(history, |at|)
    requires forall i :: 0 <= i < |at| ==> at[i] < |history|
    ensures AllWords(Reads(history, at))
    ensures LoadMin(history[0]) <= LoadMin(Reads(history, at)) <= LoadMin(history[|history| - 1])
  {
    var r, first, last := Reads(history, at), history[0], history[|history| - 1];
    forall i | 0 <= i < |at| ensures first[i] <= r[i] <= last[i] && r[i] < WORD {
      assert history[0][i] <= history[at[i]][i] <= history[|history| - 1][i];
      assert AllWords(history[at[i]]);
    }
    var k := LoadMinIsMinimum(r);
    k := LoadMinIsMinimum(first);
    k := LoadMinIsMinimum(last);
  }

  class GatingSequences {
    const sequences: array<nat>

    ghost predicate Valid()
      reads this, sequences
    {
      AllWords(sequences[..])
    }

    constructor (count: nat)
      ensures Valid() && sequences.Length == count && NoneStarted(sequences[..]) && fresh(sequences)
    {
      sequences := new nat[count](_ => NONE);
    }

    /** Out-of-range indices are ignored. */
    method Store(index: nat, value: nat)
      requires Valid() && value < WORD
      modifies sequences
      ensures Valid()
      ensures sequences[..] == if index < sequences.Length then old(sequences[..])[index := value] else old(sequences[..])
    {
      if index >= sequences.Length {
        return;
      }
      sequences[index] := value;
    }

    method Load(index: nat) returns (value: nat)
      requires Valid()
      ensures value == if index < sequences.Length then sequences[index] else NONE
    {
      if index >= sequences.Length {
        return NONE;
      }
      return sequences[index];
    }

    /** The scan, undisturbed: the smallest sequence, or "no progress" when
        there are no consumers. */
    method Min() returns (min: nat)
      requires Valid()
      ensures sequences.Length == 0 ==> min == NONE
      ensures sequences.Length > 0 ==> exists k :: 0 <= k < sequences.Length && sequences[k] == min
      ensures forall i :: 0 <= i < sequences.Length ==> min <= sequences[i]
      ensures min == LoadMin(sequences[..])
    {
      if sequences.Length == 0 {
        return NONE;
      }
      min := sequences[0];
      var i := 1;
      while i < sequences.Length
        invariant 1 <= i <= sequences.Length
        invariant min == LoadMin(sequences[..i])
      {
        var value := sequences[i];
        assert sequences[..i + 1][..i] == sequences[..i];
        if value < min {
          min := value;
        }
        i := i + 1;
      }
      assert sequences[..i] == sequences[..];
      var k := LoadMinIsMinimum(sequences[..]);
      assert sequences[..][k] == sequences[k];
      assert forall j :: 0 <= j < sequences.Length ==> sequences[..][j] == sequences[j];
    }
  }
}
