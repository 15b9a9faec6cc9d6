// Recording into the histogram and closing reporting windows over it: what a window says about
// the samples it covers.

module HistogramWindows {
  import opened Words
  import opened Histogram

  // ---- histograms of a list of samples --------------------------------------------------------

  function CountIn(samples: seq<u64>, i: nat): nat {
    if samples == [] then 0
    else CountIn(samples[..|samples| - 1], i) + if BucketOf(samples[|samples| - 1]) == i then 1 else 0
  }

  ghost predicate IsHistogram(counts: seq<nat>, samples: seq<u64>) {
    |counts| == HIST_BUCKETS && forall i :: 0 <= i < HIST_BUCKETS ==> counts[i] == CountIn(samples, i)
  }

  // `counts[0] + … + counts[n - 1]`
  function SumTo(counts: seq<nat>, n: nat): nat
    requires n <= |counts|
  {
    if n == 0 then 0 else SumTo(counts, n - 1) + counts[n - 1]
  }

  function Weighted(count: nat, mid: nat): nat {
    count * mid
  }

  // The histogram's own estimate of the sum: each sample stands at its bucket's midpoint.
  function MidSumTo(counts: seq<nat>, n: nat): nat
    requires n <= |counts|
  {
    if n == 0 then 0
    else MidSumTo(counts, n - 1) + Weighted(counts[n - 1], BucketMid(n - 1))
  }

  // `ceil(total * percent / 100)`, at least one.
  function Rank(total: nat, percent: nat): nat {
    var want := (total * percent + 99) / 100;
    if want < 1 then 1 else want
  }

  // The first bucket at which the running count reaches `want`, else the last bucket.
  function QuantileBucket(counts: seq<nat>, want: nat, i: nat): nat
    requires |counts| == HIST_BUCKETS && i <= HIST_BUCKETS
    decreases HIST_BUCKETS - i
  {
    if i == HIST_BUCKETS then HIST_BUCKETS - 1
    else if SumTo(counts, i + 1) >= want then i
    else QuantileBucket(counts, want, i + 1)
  }

  datatype Window = Window(count: nat, sum: nat, min: u64, max: u64, p50: nat, p95: nat, p99: nat)

  function Delta(cur: seq<nat>, prev: seq<nat>): seq<nat>
    requires |cur| == |prev|
  {
    seq(|cur|, i requires 0 <= i < |cur| => if cur[i] >= prev[i] then cur[i] - prev[i] else 0)
  }

  function WindowOf(counts: seq<nat>, min: u64, max: u64): Window
    requires |counts| == HIST_BUCKETS
  {
    var total := SumTo(counts, HIST_BUCKETS);
    if total == 0 then Window(0, 0, 0, 0, 0, 0, 0)
    else
      Window(total, MidSumTo(counts, HIST_BUCKETS), if min == U64_MAX then 0 else min, max,
             BucketMid(QuantileBucket(counts, Rank(total, 50), 0)),
             BucketMid(QuantileBucket(counts, Rank(total, 95), 0)),
             BucketMid(QuantileBucket(counts, Rank(total, 99), 0)))
  }

  class Dist {
    const buckets: array<nat>
    var minNs: u64
    var maxNs: u64

    ghost predicate Valid()
      reads this
    {
      buckets.Length == HIST_BUCKETS
    }

    constructor ()
      ensures Valid() && fresh(buckets) && buckets[..] == seq(HIST_BUCKETS, _ => 0)
      ensures minNs == U64_MAX && maxNs == 0
    {
      buckets := new nat[HIST_BUCKETS](_ => 0);
      minNs, maxNs := U64_MAX, 0;
    }

    method Record(ns: u64)
      requires Valid()
      modifies this, buckets
      ensures buckets[..] == old(buckets[..])[BucketOf(ns) := old(buckets[..])[BucketOf(ns)] + 1]
      ensures minNs == (if ns < old(minNs) then ns else old(minNs))
      ensures maxNs == (if ns > old(maxNs) then ns else old(maxNs))
    {
      var i := BucketOf(ns);
      buckets[i] := buckets[i] + 1;
      minNs := if ns < minNs then ns else minNs;
      maxNs := if ns > maxNs then ns else maxNs;
    }
  }

  method FindQuantile(counts: array<nat>, want: nat) returns (mid: nat)
    requires counts.Length == HIST_BUCKETS
    ensures mid == BucketMid(QuantileBucket(counts[..], want, 0))
  {
    var seen := 0;
    var i := 0;
    while i < HIST_BUCKETS
      invariant 0 <= i <= HIST_BUCKETS && seen == SumTo(counts[..], i)
      invariant QuantileBucket(counts[..], want, 0) == QuantileBucket(counts[..], want, i)
    {
      seen := seen + counts[i];
      if seen >= want {
        return BucketMid(i);
      }
      i := i + 1;
    }
    mid := BucketMid(HIST_BUCKETS - 1);
  }

  method DistWindow(dist: Dist, prev: array<nat>) returns (w: Window)
    requires dist.Valid() && prev.Length == HIST_BUCKETS && prev != dist.buckets
    modifies dist, prev
    ensures w == WindowOf(old(Delta(dist.buckets[..], prev[..])), old(dist.minNs), old(dist.maxNs))
    ensures prev[..] == dist.buckets[..] == old(dist.buckets[..])
    ensures dist.minNs == U64_MAX && dist.maxNs == 0
  {
    ghost var delta := Delta(dist.buckets[..], prev[..]);
    var counts, total := TakeCounts(dist.buckets, prev);
    var min, max := dist.minNs, dist.maxNs;
    dist.minNs, dist.maxNs := U64_MAX, 0;
    if total == 0 {
      return Window(0, 0, 0, 0, 0, 0, 0);
    }
    var p50 := FindQuantile(counts, Rank(total, 50));
    var p95 := FindQuantile(counts, Rank(total, 95));
    var p99 := FindQuantile(counts, Rank(total, 99));
    var sum := SumMids(counts);
    w := Window(total, sum, if min == U64_MAX then 0 else min, max, p50, p95, p99);
  }

  // The scan that differences the counters against the previous window's.
  method TakeCounts(buckets: array<nat>, prev: array<nat>) returns (counts: array<nat>, total: nat)
    requires buckets.Length == prev.Length == HIST_BUCKETS && prev != buckets
    modifies prev
    ensures fresh(counts) && counts[..] == old(Delta(buckets[..], prev[..]))
    ensures total == SumTo(counts[..], HIST_BUCKETS) && prev[..] == buckets[..]
  {
    counts := new nat[HIST_BUCKETS](_ => 0);
    ghost var delta := Delta(buckets[..], prev[..]);
    total := 0;
    for i := 0 to HIST_BUCKETS
      invariant counts[..i] == delta[..i] && total == SumTo(delta, i)
      invariant prev[..i] == buckets[..i]
      invariant forall k :: i <= k < HIST_BUCKETS ==> prev[k] == old(prev[k])
    {
      var cur := buckets[i];
      counts[i] := if cur >= prev[i] then cur - prev[i] else 0;
      prev[i] := cur;
      total := total + counts[i];
    }
    assert counts[..] == delta;
  }

  method SumMids(counts: array<nat>) returns (sum: nat)
    requires counts.Length == HIST_BUCKETS
    ensures sum == MidSumTo(counts[..], HIST_BUCKETS)
  {
    sum := 0;
    for i := 0 to HIST_BUCKETS
      invariant sum == MidSumTo(counts[..], i)
    {
      sum := sum + Weighted(counts[i], BucketMid(i));
    }
  }

  // ---- what a window says ---------------------------------------------------------------------

  function CountUpTo(samples: seq<u64>, v: int): nat {
    if samples == [] then 0
    else CountUpTo(samples[..|samples| - 1], v) + if samples[|samples| - 1] <= v then 1 else 0
  }

  // `v` is the sample of rank `r`, counting from one in increasing order.
  ghost predicate IsOrderStatistic(samples: seq<u64>, v: u64, r: nat) {
    v in samples && CountUpTo(samples, v - 1) < r <= CountUpTo(samples, v)
  }

  // Samples whose bucket is below `n`.
  function CountBelow(samples: seq<u64>, n: nat): nat {
    if samples == [] then 0
    else CountBelow(samples[..|samples| - 1], n) + if BucketOf(samples[|samples| - 1]) < n then 1 else 0
  }

  lemma {:induction false} CountBelowStep(samples: seq<u64>, n: nat)
    ensures CountBelow(samples, n + 1) == CountBelow(samples, n) + CountIn(samples, n)
    ensures CountBelow(samples, 0) == 0
  {
    if samples != [] { CountBelowStep(samples[..|samples| - 1], n); }
  }

  lemma {:induction false} PrefixIsCountBelow(counts: seq<nat>, samples: seq<u64>, n: nat)
    requires IsHistogram(counts, samples) && n <= HIST_BUCKETS
    ensures SumTo(counts, n) == CountBelow(samples, n)
  {
    if n == 0 {
      CountBelowStep(samples, 0);
    } else {
      PrefixIsCountBelow(counts, samples, n - 1);
      CountBelowStep(samples, n - 1);
    }
  }

  // Bucketing keeps the order, so a cut between buckets is a cut between values.
  lemma {:induction false} BucketsCutValues(samples: seq<u64>, v: u64)
    ensures CountBelow(samples, BucketOf(v)) <= CountUpTo(samples, v - 1)
    ensures CountUpTo(samples, v) <= CountBelow(samples, BucketOf(v) + 1)
  {
    hide BucketOf;
    if samples != [] {
      var s := samples[|samples| - 1];
      BucketsCutValues(samples[..|samples| - 1], v);
      if s <= v { BucketIsMonotone(s, v); } else { BucketIsMonotone(v, s); }
      if s < v { BucketIsMonotone(s, v); } else { BucketIsMonotone(v, s); }
    }
  }

  lemma {:induction false} QuantileIsFirst(counts: seq<nat>, want: nat, i: nat, b: nat)
    requires |counts| == HIST_BUCKETS && i <= b < HIST_BUCKETS
    requires SumTo(counts, b) < want <= SumTo(counts, b + 1)
    ensures QuantileBucket(counts, want, i) == b
    decreases b - i
  {
    if i < b {
      SumToGrows(counts, i + 1, b);
      QuantileIsFirst(counts, want, i + 1, b);
    }
  }

  lemma {:induction false} SumToGrows(counts: seq<nat>, m: nat, n: nat)
    requires m <= n <= |counts|
    ensures SumTo(counts, m) <= SumTo(counts, n)
    decreases n - m
  {
    if m < n { SumToGrows(counts, m, n - 1); }
  }

  // A reported quantile is the midpoint of the bucket that holds the order statistic of its rank.
  lemma {:induction false} QuantileFindsOrderStatistic(counts: seq<nat>, samples: seq<u64>, v: u64, r: nat)
    requires IsHistogram(counts, samples) && IsOrderStatistic(samples, v, r)
    ensures QuantileBucket(counts, r, 0) == BucketOf(v)
  {
    hide BucketOf;
    var b := BucketOf(v);
    BucketsCutValues(samples, v);
    PrefixIsCountBelow(counts, samples, b);
    PrefixIsCountBelow(counts, samples, b + 1);
    QuantileIsFirst(counts, r, 0, b);
  }

  lemma {:induction false} CountBelowAll(samples: seq<u64>)
    ensures CountBelow(samples, HIST_BUCKETS) == |samples|
  {
    if samples != [] { CountBelowAll(samples[..|samples| - 1]); }
  }

  // Every rank up to the count names a sample.
  lemma {:induction false} OrderStatisticExists(samples: seq<u64>, r: nat, lo: int, hi: int) returns (v: u64)
    requires 1 <= r && -1 <= lo < hi <= U64_MAX
    requires CountUpTo(samples, lo) < r <= CountUpTo(samples, hi)
    ensures IsOrderStatistic(samples, v, r)
    decreases hi - lo
  {
    if hi == lo + 1 {
      v := hi;
      if v !in samples { NoSampleAt(samples, v); }
    } else {
      var mid := (lo + hi) / 2;
      if r <= CountUpTo(samples, mid) {
        v := OrderStatisticExists(samples, r, lo, mid);
      } else {
        v := OrderStatisticExists(samples, r, mid, hi);
      }
    }
  }

  lemma {:induction false} NoSampleAt(samples: seq<u64>, v: u64)
    requires v !in samples
    ensures CountUpTo(samples, v - 1) == CountUpTo(samples, v)
  {
    if samples != [] { NoSampleAt(samples[..|samples| - 1], v); }
  }

  lemma {:induction false} CountUpToEnds(samples: seq<u64>)
    ensures CountUpTo(samples, -1) == 0 && CountUpTo(samples, U64_MAX) == |samples|
  {
    if samples != [] { CountUpToEnds(samples[..|samples| - 1]); }
  }

  lemma RankInRange(total: nat, percent: nat)
    requires total > 0 && percent <= 100
    ensures 1 <= Rank(total, percent) <= total
  {
    assert total * percent <= total * 100;
  }

  // ---- the estimated sum ------------------------------------------------------------------------

  function Sum(samples: seq<u64>): nat {
    if samples == [] then 0 else Sum(samples[..|samples| - 1]) + samples[|samples| - 1]
  }

  function MidSum(samples: seq<u64>): nat {
    if samples == [] then 0 else MidSum(samples[..|samples| - 1]) + BucketMid(BucketOf(samples[|samples| - 1]))
  }

  // Midpoints of the samples whose bucket is below `n`.
  function MidSumBelow(samples: seq<u64>, n: nat): nat {
    if samples == [] then 0
    else
      var i := BucketOf(samples[|samples| - 1]);
      MidSumBelow(samples[..|samples| - 1], n) + if i < n then BucketMid(i) else 0
  }

  lemma {:induction false} MidSumBelowStep(samples: seq<u64>, n: nat)
    ensures MidSumBelow(samples, n + 1) == MidSumBelow(samples, n) + Weighted(CountIn(samples, n), BucketMid(n))
    ensures MidSumBelow(samples, 0) == 0
  {
    hide BucketOf, BucketMid;
    if samples != [] {
      var rest, i := samples[..|samples| - 1], BucketOf(samples[|samples| - 1]);
      MidSumBelowStep(rest, n);
      var c, m := CountIn(rest, n), BucketMid(n);
      assert (c + 1) * m == c * m + m;
    }
  }

  lemma {:induction false} MidSumBelowAll(samples: seq<u64>)
    ensures MidSumBelow(samples, HIST_BUCKETS) == MidSum(samples)
  {
    if samples != [] { MidSumBelowAll(samples[..|samples| - 1]); }
  }

  lemma {:induction false} MidSumIsBySample(counts: seq<nat>, samples: seq<u64>, n: nat)
    requires IsHistogram(counts, samples) && n <= HIST_BUCKETS
    ensures MidSumTo(counts, n) == MidSumBelow(samples, n)
  {
    hide BucketMid;
    if n == 0 {
      MidSumBelowStep(samples, 0);
    } else {
      MidSumIsBySample(counts, samples, n - 1);
      MidSumBelowStep(samples, n - 1);
    }
  }

  lemma {:induction false} MidSumIsClose(samples: seq<u64>)
    requires forall k :: 0 <= k < |samples| ==> samples[k] < BucketLow(HIST_BUCKETS)
    ensures 31 * Sum(samples) <= 32 * MidSum(samples) <= 33 * Sum(samples)
  {
    hide BucketOf, BucketMid, BucketLow;
    if samples != [] {
      MidSumIsClose(samples[..|samples| - 1]);
      BucketIsNarrow(samples[|samples| - 1]);
    }
  }

  // The least rank, from one, that leaves at least that percentage of the samples at or below it.
  predicate IsRank(total: nat, percent: nat, r: nat) {
    r >= 1 && 100 * r >= total * percent && (r > 1 ==> 100 * (r - 1) < total * percent)
  }

  lemma RankIs(total: nat, percent: nat)
    ensures IsRank(total, percent, Rank(total, percent))
  {
  }

  // `mid` is the midpoint of the bucket holding the sample of that percentile's rank.
  ghost predicate IsQuantile(samples: seq<u64>, percent: nat, mid: nat) {
    exists v: u64, r: nat :: IsRank(|samples|, percent, r) && IsOrderStatistic(samples, v, r) && mid == BucketMid(BucketOf(v))
  }

  // What a report promises of the samples it covers: the exact count, a sum within one part in
  // thirty-two when no sample was clamped, and at each percentile the midpoint of the bucket
  // holding the sample of that rank.
  ghost predicate Describes(w: Window, samples: seq<u64>) {
    && w.count == |samples|
    && (samples != [] ==>
          IsQuantile(samples, 50, w.p50) && IsQuantile(samples, 95, w.p95) && IsQuantile(samples, 99, w.p99))
    && ((forall k :: 0 <= k < |samples| ==> samples[k] < BucketLow(HIST_BUCKETS)) ==>
          31 * Sum(samples) <= 32 * w.sum <= 33 * Sum(samples))
  }

  lemma {:induction false} WindowDescribesSamples(counts: seq<nat>, samples: seq<u64>, min: u64, max: u64)
    requires IsHistogram(counts, samples)
    ensures Describes(WindowOf(counts, min, max), samples)
  {
    hide BucketOf, BucketMid, BucketLow, QuantileBucket, Rank, SumTo, MidSumTo, IsQuantile;
    PrefixIsCountBelow(counts, samples, HIST_BUCKETS);
    CountBelowAll(samples);
    hide IsHistogram;
    if samples != [] {
      QuantileAt(counts, samples, 50);
      QuantileAt(counts, samples, 95);
      QuantileAt(counts, samples, 99);
    }
    MidSumIsBySample(counts, samples, HIST_BUCKETS);
    MidSumBelowAll(samples);
    if forall k :: 0 <= k < |samples| ==> samples[k] < BucketLow(HIST_BUCKETS) {
      MidSumIsClose(samples);
    }
    assert samples == [] ==> Sum(samples) == 0;
  }

  lemma QuantileAt(counts: seq<nat>, samples: seq<u64>, percent: nat)
    requires IsHistogram(counts, samples) && samples != [] && percent <= 100
    ensures IsQuantile(samples, percent, BucketMid(QuantileBucket(counts, Rank(|samples|, percent), 0)))
  {
    CountUpToEnds(samples);
    RankInRange(|samples|, percent);
    RankIs(|samples|, percent);
    hide IsRank, BucketOf, Rank, BucketMid, QuantileBucket;
    var v := OrderStatisticExists(samples, Rank(|samples|, percent), -1, U64_MAX);
    QuantileFindsOrderStatistic(counts, samples, v, Rank(|samples|, percent));
  }

  // ---- the extremes -------------------------------------------------------------------------------

  // What recording the samples leaves in the two extreme cells of a distribution just taken.
  function Extremes(samples: seq<u64>): (u64, u64) {
    if samples == [] then (U64_MAX, 0)
    else
      var (lo, hi) := Extremes(samples[..|samples| - 1]);
      var ns := samples[|samples| - 1];
      (if ns < lo then ns else lo, if ns > hi then ns else hi)
  }

  lemma {:induction false} ExtremesAreSamples(samples: seq<u64>)
    ensures var (lo, hi) := Extremes(samples);
            && (forall v :: v in samples ==> lo <= v <= hi)
            && (samples != [] ==> hi in samples && (lo in samples || lo == U64_MAX))
  {
    if samples != [] {
      var before := samples[..|samples| - 1];
      ExtremesAreSamples(before);
      assert samples == before + [samples[|samples| - 1]];
    }
  }

  // A window that covers samples reports the greatest, and the least unless every sample was 2^64-1,
  // which it reports as 0.
  lemma {:induction false} WindowReportsExtremes(counts: seq<nat>, samples: seq<u64>)
    requires IsHistogram(counts, samples) && samples != []
    ensures var w := WindowOf(counts, Extremes(samples).0, Extremes(samples).1);
            && w.max in samples && (forall v :: v in samples ==> v <= w.max)
            && ((w.min in samples && forall v :: v in samples ==> w.min <= v) <==>
                  exists v :: v in samples && v < U64_MAX)
            && ((forall v :: v in samples ==> v == U64_MAX) ==> w.min == 0)
  {
    ExtremesAreSamples(samples);
    PrefixIsCountBelow(counts, samples, HIST_BUCKETS);
    CountBelowAll(samples);
    hide SumTo, BucketMid, QuantileBucket, Rank, MidSumTo, Extremes, IsHistogram, CountBelow;
    assert samples[0] in samples;
  }

  // Recording `samples` from some counters and closing the window gives exactly their histogram.
  function Recorded(buckets: seq<nat>, samples: seq<u64>): seq<nat>
    requires |buckets| == HIST_BUCKETS
    ensures |Recorded(buckets, samples)| == HIST_BUCKETS
  {
    if samples == [] then buckets
    else
      var before := Recorded(buckets, samples[..|samples| - 1]);
      var i := BucketOf(samples[|samples| - 1]);
      before[i := before[i] + 1]
  }

  lemma {:induction false} DeltaIsHistogram(buckets: seq<nat>, samples: seq<u64>)
    requires |buckets| == HIST_BUCKETS
    ensures IsHistogram(Delta(Recorded(buckets, samples), buckets), samples)
  {
    forall i | 0 <= i < HIST_BUCKETS
      ensures Recorded(buckets, samples)[i] == buckets[i] + CountIn(samples, i)
    {
      RecordedAt(buckets, samples, i);
    }
  }

  lemma {:induction false} RecordedAt(buckets: seq<nat>, samples: seq<u64>, i: nat)
    requires |buckets| == HIST_BUCKETS && i < HIST_BUCKETS
    ensures Recorded(buckets, samples)[i] == buckets[i] + CountIn(samples, i)
  {
    hide BucketOf;
    if samples != [] { RecordedAt(buckets, samples[..|samples| - 1], i); }
  }
}
