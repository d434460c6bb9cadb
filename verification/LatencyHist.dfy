/** The latency histogram: its percentile is an order statistic of the samples,
    rounded down to a bucket; samples above the maximum are in the last one. */
module Histogram {
  import opened Wrappers

  function Cap(x: nat, max: nat): nat {
    if x > max then max else x
  }

  function BucketOf(x: nat, max: nat, bucket: nat): nat
    requires bucket > 0
  {
    Cap(x, max) / bucket
  }

  // ----- counting samples by bucket

  /** How many samples fall in bucket `i`. */
  function CountIn(samples: seq<nat>, i: nat, max: nat, bucket: nat): nat
    requires bucket > 0
  {
    if samples == [] then 0
    else (if BucketOf(samples[0], max, bucket) == i then 1 else 0) + CountIn(samples[1..], i, max, bucket)
  }

  /** How many samples fall in buckets below `i`. */
  function CountBelow(samples: seq<nat>, i: nat, max: nat, bucket: nat): nat
    requires bucket > 0
  {
    if samples == [] then 0
    else (if BucketOf(samples[0], max, bucket) < i then 1 else 0) + CountBelow(samples[1..], i, max, bucket)
  }

  lemma {:induction false} CountBelowNext(samples: seq<nat>, i: nat, max: nat, bucket: nat)
    requires bucket > 0
    ensures CountBelow(samples, i + 1, max, bucket) == CountBelow(samples, i, max, bucket) + CountIn(samples, i, max, bucket)
    ensures CountBelow(samples, 0, max, bucket) == 0
  {
    if samples != [] {
      CountBelowNext(samples[1..], i, max, bucket);
    }
  }

  lemma BucketBound(x: nat, max: nat, bucket: nat)
    requires bucket > 0
    ensures BucketOf(x, max, bucket) <= max / bucket
  {
    DivMonotone(Cap(x, max), max, bucket);
  }

  lemma DivMonotone(x: nat, y: nat, d: int)
    requires x <= y && d > 0
    ensures x / d <= y / d
  {
    var e := y / d - x / d;
    assert d * (x / d) + x % d == x && d * (y / d) + y % d == y;
    assert d * e == d * (y / d) - d * (x / d);
    MulAboveMinusOne(d, e);
  }

  lemma MulAboveMinusOne(d: int, e: int)
    requires d > 0 && d * e > -d
    ensures e >= 0
  {
  }

  lemma MulMonotone(i: nat, j: nat, d: nat)
    requires i <= j
    ensures i * d <= j * d
  {
  }

  lemma {:induction false} CountBelowAll(samples: seq<nat>, max: nat, bucket: nat)
    requires bucket > 0
    ensures CountBelow(samples, max / bucket + 1, max, bucket) == |samples|
  {
    if samples != [] {
      BucketBound(samples[0], max, bucket);
      CountBelowAll(samples[1..], max, bucket);
    }
  }

  lemma {:induction false} CountInAppend(samples: seq<nat>, x: nat, i: nat, max: nat, bucket: nat)
    requires bucket > 0
    ensures CountIn(samples + [x], i, max, bucket) ==
            CountIn(samples, i, max, bucket) + (if BucketOf(x, max, bucket) == i then 1 else 0)
  {
    if samples != [] {
      assert (samples + [x])[1..] == samples[1..] + [x];
      CountInAppend(samples[1..], x, i, max, bucket);
    }
  }

  // ----- order statistics

  predicate Ascending(s: seq<nat>) {
    forall i, j :: 0 <= i <= j < |s| ==> s[i] <= s[j]
  }

  /** `sorted` lists the samples in ascending order. */
  ghost predicate Sorted(sorted: seq<nat>, samples: seq<nat>) {
    Ascending(sorted) && multiset(sorted) == multiset(samples)
  }

  lemma {:induction false} BelowAfterRemoval(s: seq<nat>, k: nat, i: nat, max: nat, bucket: nat)
    requires bucket > 0 && k < |s|
    ensures CountBelow(s, i, max, bucket) ==
            CountBelow(s[..k] + s[k + 1..], i, max, bucket) + (if BucketOf(s[k], max, bucket) < i then 1 else 0)
  {
    if k == 0 {
      assert s[..0] + s[1..] == s[1..];
    } else {
      assert (s[..k] + s[k + 1..])[1..] == s[1..][..k - 1] + s[1..][k..];
      BelowAfterRemoval(s[1..], k - 1, i, max, bucket);
    }
  }

  lemma RemoveOne(before: seq<nat>, x: nat, after: seq<nat>)
    ensures multiset(before + after) == multiset(before + [x] + after) - multiset{x}
  {
    assert multiset(before + [x]) == multiset(before) + multiset{x};
  }

  lemma MatchFirst(a: seq<nat>, b: seq<nat>) returns (k: nat)
    requires a != [] && multiset(a) == multiset(b)
    ensures k < |b| && b[k] == a[0]
    ensures multiset(a[1..]) == multiset(b[..k] + b[k + 1..])
  {
    var x, rest := a[0], a[1..];
    assert a == [x] + rest;
    assert x in multiset(b);
    k :| 0 <= k < |b| && b[k] == x;
    var before, after := b[..k], b[k + 1..];
    assert b == before + [x] + after;
    RemoveOne(before, x, after);
    assert multiset(rest) == multiset(a) - multiset{x};
  }

  /** Counting does not depend on the order of the samples. */
  lemma {:induction false} BelowOfPermutation(a: seq<nat>, b: seq<nat>, i: nat, max: nat, bucket: nat)
    requires bucket > 0 && multiset(a) == multiset(b)
    ensures CountBelow(a, i, max, bucket) == CountBelow(b, i, max, bucket)
    decreases |a|
  {
    if a == [] {
      assert |multiset(b)| == 0;
    } else {
      var k := MatchFirst(a, b);
      BelowOfPermutation(a[1..], b[..k] + b[k + 1..], i, max, bucket);
      BelowAfterRemoval(b, k, i, max, bucket);
    }
  }

  /** Larger samples are in later buckets. */
  lemma BucketsRise(x: nat, y: nat, max: nat, bucket: nat)
    requires bucket > 0 && x <= y
    ensures BucketOf(x, max, bucket) <= BucketOf(y, max, bucket)
  {
    DivMonotone(Cap(x, max), Cap(y, max), bucket);
  }

  /** In an ascending list the samples below bucket `i` are the first ones. */
  lemma {:induction false} BelowIsPrefix(s: seq<nat>, k: nat, i: nat, max: nat, bucket: nat)
    requires bucket > 0 && Ascending(s) && k < |s|
    ensures BucketOf(s[k], max, bucket) < i <==> k < CountBelow(s, i, max, bucket)
    decreases |s|
  {
    if BucketOf(s[0], max, bucket) < i {
      if k > 0 {
        BelowIsPrefix(s[1..], k - 1, i, max, bucket);
      }
    } else {
      BucketsRise(s[0], s[k], max, bucket);
      AllAbove(s, s[0], i, max, bucket);
    }
  }

  lemma {:induction false} AllAbove(s: seq<nat>, low: nat, i: nat, max: nat, bucket: nat)
    requires bucket > 0 && BucketOf(low, max, bucket) >= i && forall j :: 0 <= j < |s| ==> s[j] >= low
    ensures CountBelow(s, i, max, bucket) == 0
  {
    if s != [] {
      BucketsRise(low, s[0], max, bucket);
      AllAbove(s[1..], low, i, max, bucket);
    }
  }

  // ----- the histogram

  /** The bucket of the percentile scan: the first whose cumulative count
      reaches `target`. */
  ghost predicate IsPercentile(samples: seq<nat>, target: nat, i: nat, max: nat, bucket: nat)
    requires bucket > 0
  {
    CountBelow(samples, i + 1, max, bucket) >= target &&
    (i > 0 ==> CountBelow(samples, i, max, bucket) < target)
  }

  /** For every target t from 1 up to the number of samples, the scan stops at
      the bucket of the t-th smallest sample: the one that holds it, or the
      last one when it is above the maximum. */
  lemma PercentileIsOrderStatistic(samples: seq<nat>, sorted: seq<nat>, t: nat, i: nat, max: nat, bucket: nat)
    requires bucket > 0 && 1 <= t <= |samples|
    requires Sorted(sorted, samples) && IsPercentile(samples, t, i, max, bucket)
    ensures |sorted| == |samples|
    ensures sorted[t - 1] <= max ==> i * bucket <= sorted[t - 1] < i * bucket + bucket
    ensures sorted[t - 1] > max ==> i * bucket <= max < i * bucket + bucket
  {
    assert |multiset(sorted)| == |multiset(samples)|;
    BelowOfPermutation(sorted, samples, i, max, bucket);
    BelowOfPermutation(sorted, samples, i + 1, max, bucket);
    CountBelowNext(samples, 0, max, bucket);
    BelowIsPrefix(sorted, t - 1, i, max, bucket);
    BelowIsPrefix(sorted, t - 1, i + 1, max, bucket);
    BucketRange(Cap(sorted[t - 1], max), i, bucket);
  }

  lemma BucketRange(x: nat, i: nat, bucket: nat)
    requires bucket > 0 && x / bucket == i
    ensures i * bucket <= x < i * bucket + bucket
  {
    assert x == bucket * (x / bucket) + x % bucket;
  }

  /** A larger target never gives a smaller bucket. */
  lemma PercentileIsMonotone(samples: seq<nat>, t: nat, u: nat, i: nat, j: nat, max: nat, bucket: nat)
    requires bucket > 0 && t <= u
    requires IsPercentile(samples, t, i, max, bucket) && IsPercentile(samples, u, j, max, bucket)
    ensures i <= j
  {
    if j < i {
      CountBelowMonotone(samples, j + 1, i, max, bucket);
      assert false;
    }
  }

  lemma {:induction false} CountBelowMonotone(samples: seq<nat>, i: nat, j: nat, max: nat, bucket: nat)
    requires bucket > 0 && i <= j
    ensures CountBelow(samples, i, max, bucket) <= CountBelow(samples, j, max, bucket)
  {
    if samples != [] {
      CountBelowMonotone(samples[1..], i, j, max, bucket);
    }
  }

  /** Target 0 always gives bucket 0, whatever the samples are. */
  lemma TargetZeroIsBucketZero(samples: seq<nat>, i: nat, max: nat, bucket: nat)
    requires bucket > 0
    ensures IsPercentile(samples, 0, i, max, bucket) <==> i == 0
  {
  }

  /** So a single sample in a later bucket has a reported median of 0: its
      target is 0, which no rank of a sample matches. */
  lemma MedianOfOneSampleIsZero(x: nat, i: nat, max: nat, bucket: nat)
    requires bucket > 0 && bucket <= x <= max
    requires IsPercentile([x], (1 as real * 0.50).Floor, i, max, bucket)
    ensures i == 0 && BucketOf(x, max, bucket) >= 1
  {
    TargetZeroIsBucketZero([x], i, max, bucket);
    DivMonotone(bucket, x, bucket);
    RemainderFree(bucket);
  }

  lemma RemainderFree(d: nat)
    requires d > 0
    ensures d / d == 1
  {
  }

  lemma FractionsRise(total: nat)
    ensures 0 <= (total as real * 0.50).Floor <= (total as real * 0.99).Floor <= (total as real * 0.999).Floor <= total
  {
  }

  class LatencyHist {
    const max: nat
    const bucket: nat
    const buckets: array<nat>
    var count: nat
    ghost var samples: seq<nat>

    /** Each bucket holds the number of samples that fall in it. */
    ghost predicate Valid()
      reads this, buckets
    {
      bucket > 0 && buckets.Length == max / bucket + 1 && count == |samples| &&
      forall i :: 0 <= i < buckets.Length ==> buckets[i] == CountIn(samples, i, max, bucket)
    }

    constructor (maxNs: nat, bucketNs: nat)
      requires bucketNs > 0
      ensures Valid() && samples == [] && max == maxNs && bucket == bucketNs && fresh(buckets)
    {
      max, bucket := maxNs, bucketNs;
      buckets := new nat[maxNs / bucketNs + 1](_ => 0);
      count, samples := 0, [];
    }

    method Add(ns: nat)
      requires Valid()
      modifies this`count, this`samples, buckets
      ensures Valid() && samples == old(samples) + [ns]
      ensures exists i: nat {:trigger old(buckets[..])[i]} ::
                i < buckets.Length && buckets[..] == old(buckets[..])[i := old(buckets[..])[i] + 1] &&
                (ns <= max ==> i * bucket <= ns < i * bucket + bucket) && (ns > max ==> i == buckets.Length - 1)
    {
      ghost var was := buckets[..];
      var capped := if ns > max then max else ns;
      var index := capped / bucket;
      BucketBound(ns, max, bucket);
      buckets[index] := buckets[index] + 1;
      count := count + 1;
      forall i | 0 <= i < buckets.Length
        ensures CountIn(samples + [ns], i, max, bucket) ==
                CountIn(samples, i, max, bucket) + (if i == index then 1 else 0)
      {
        CountInAppend(samples, ns, i, max, bucket);
      }
      samples := samples + [ns];
      BucketRange(capped, index, bucket);
      assert buckets[..] == was[index := was[index] + 1];
    }

    /** The scan for a target no larger than the number of samples; the result
        after the loop is never used. */
    method PercentileNs(target: nat) returns (ns: nat)
      requires Valid() && target <= count
      ensures exists i: nat :: ns == i * bucket && IsPercentile(samples, target, i, max, bucket)
    {
      ns := (buckets.Length - 1) * bucket;
      var run, i := 0, 0;
      CountBelowNext(samples, 0, max, bucket);
      while i < buckets.Length
        invariant 0 <= i <= buckets.Length
        invariant run == CountBelow(samples, i, max, bucket)
        invariant i > 0 ==> run < target
      {
        CountBelowNext(samples, i, max, bucket);
        run := run + buckets[i];
        if run >= target {
          assert IsPercentile(samples, target, i, max, bucket);
          return i * bucket;
        }
        i := i + 1;
      }
      CountBelowAll(samples, max, bucket);
      assert false;
    }

    /** For any sorted list of the samples, `ns` is the value at rank `t` rounded
        down to its bucket, or the last bucket when it exceeds the maximum;
        rank 0 gives 0. */
    ghost predicate IsRank(t: int, ns: nat)
      reads this
    {
      (t == 0 ==> ns == 0) &&
      forall sorted :: Sorted(sorted, samples) && 1 <= t <= |sorted| ==>
        if sorted[t - 1] <= max then ns <= sorted[t - 1] < ns + bucket else ns <= max < ns + bucket
    }

    /** `ns` is the start of the bucket where the count reaches `t`. */
    ghost predicate IsStart(t: int, ns: nat)
      requires bucket > 0
      reads this
    {
      0 <= t && exists i: nat :: ns == i * bucket && IsPercentile(samples, t, i, max, bucket)
    }

    /** Three scans for rising targets. */
    method Scans(t: nat, u: nat, w: nat) returns (p: nat, q: nat, r: nat)
      requires Valid() && t <= u <= w <= count
      ensures IsRank(t, p) && IsRank(u, q) && IsRank(w, r) && p <= q <= r
    {
      p := PercentileNs(t);
      q := PercentileNs(u);
      r := PercentileNs(w);
      StartsAreRanks(t, u, w, p, q, r);
    }

    /** Each result is the start of the bucket of the sample of its rank, and
        the three rise; 0 when there are no samples. */
    method Percentiles() returns (p50: nat, p99: nat, p999: nat)
      requires Valid()
      ensures count == 0 ==> p50 == p99 == p999 == 0
      ensures IsRank((count as real * 0.50).Floor, p50)
      ensures IsRank((count as real * 0.99).Floor, p99)
      ensures IsRank((count as real * 0.999).Floor, p999)
      ensures p50 <= p99 <= p999
    {
      FractionsRise(count);
      if count == 0 {
        return 0, 0, 0;
      }
      p50, p99, p999 :=
        Scans((count as real * 0.50).Floor, (count as real * 0.99).Floor, (count as real * 0.999).Floor);
    }

    lemma StartsAreRanks(t: int, u: int, w: int, p: nat, q: nat, r: nat)
      requires Valid() && t <= u <= w
      requires IsStart(t, p) && IsStart(u, q) && IsStart(w, r)
      ensures IsRank(t, p) && IsRank(u, q) && IsRank(w, r) && p <= q <= r
    {
      PercentileHasRank(t, p);
      PercentileHasRank(u, q);
      PercentileHasRank(w, r);
      OrderedPercentiles(t, u, p, q);
      OrderedPercentiles(u, w, q, r);
    }

    lemma PercentileHasRank(t: int, ns: nat)
      requires Valid() && IsStart(t, ns)
      ensures IsRank(t, ns)
    {
      var i: nat :| ns == i * bucket && IsPercentile(samples, t, i, max, bucket);
      if t == 0 {
        TargetZeroIsBucketZero(samples, i, max, bucket);
      }
      forall sorted | Sorted(sorted, samples) && 1 <= t <= |sorted|
        ensures if sorted[t - 1] <= max then ns <= sorted[t - 1] < ns + bucket else ns <= max < ns + bucket
      {
        assert |multiset(sorted)| == |multiset(samples)|;
        PercentileIsOrderStatistic(samples, sorted, t, i, max, bucket);
      }
    }

    lemma OrderedPercentiles(t: int, u: int, p: nat, q: nat)
      requires Valid() && t <= u && IsStart(t, p) && IsStart(u, q)
      ensures p <= q
    {
      var i: nat :| p == i * bucket && IsPercentile(samples, t, i, max, bucket);
      var j: nat :| q == j * bucket && IsPercentile(samples, u, j, max, bucket);
      PercentileIsMonotone(samples, t, u, i, j, max, bucket);
      MulMonotone(i, j, bucket);
    }
  }
}
