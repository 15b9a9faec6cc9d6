// The profiler's log-scale histogram: bucket arithmetic, recording, and what one reporting
// window says about the samples it covers.

module Histogram {
  import opened Words
  import opened Bits
  import opened Arithmetic

  const SUB_BITS := 4
  const SUB := 16
  const HIST_BUCKETS := 512
  const U64_MAX: u64 := 0xFFFF_FFFF_FFFF_FFFF

  // The position of the leading one: `63 - leading_zeros`.
  function LeadingOne(n: nat): nat
    requires n > 0
  {
    if n == 1 then 0 else 1 + LeadingOne(n / 2)
  }

  // The bucket before the last one absorbs what lies past it.
  function RawBucket(ns: nat): nat {
    if ns < SUB then ns
    else
      LeadingOneOf16(ns);
      var e := LeadingOne(ns);
      (e - SUB_BITS + 1) * SUB + ns / Pow2(e - SUB_BITS) % SUB
  }

  function BucketOf(ns: nat): (i: nat)
    ensures i < HIST_BUCKETS
  {
    if RawBucket(ns) < HIST_BUCKETS - 1 then RawBucket(ns) else HIST_BUCKETS - 1
  }

  function BucketLow(idx: nat): nat {
    if idx < SUB then idx else (SUB + idx % SUB) * Pow2(idx / SUB - 1)
  }

  function BucketMid(idx: nat): nat {
    LowStep(idx);
    BucketLow(idx) + (BucketLow(idx + 1) - BucketLow(idx)) / 2
  }

  // ---- bucket edges ---------------------------------------------------------------------------

  lemma {:induction false} LeadingOneBrackets(n: nat)
    requires n > 0
    ensures Pow2(LeadingOne(n)) <= n < 2 * Pow2(LeadingOne(n))
  {
    if n > 1 { LeadingOneBrackets(n / 2); }
  }

  lemma LeadingOneOf16(n: nat)
    requires n >= SUB
    ensures LeadingOne(n) >= SUB_BITS
  {
    assert LeadingOne(n / 16) + 4 == LeadingOne(n) by {
      assert n / 2 / 2 == n / 4 && n / 4 / 2 == n / 8 && n / 8 / 2 == n / 16;
      assert LeadingOne(n) == 1 + LeadingOne(n / 2);
      assert LeadingOne(n / 2) == 1 + LeadingOne(n / 4);
      assert LeadingOne(n / 4) == 1 + LeadingOne(n / 8);
      assert LeadingOne(n / 8) == 1 + LeadingOne(n / 16);
    }
  }

  // Consecutive lower edges differ by the bucket's width, a power of two no more than a
  // sixteenth of the edge.
  lemma {:induction false} LowStep(idx: nat)
    ensures idx < SUB ==> BucketLow(idx + 1) == BucketLow(idx) + 1
    ensures idx >= SUB ==> BucketLow(idx + 1) == BucketLow(idx) + Pow2(idx / SUB - 1)
    ensures idx >= SUB ==> SUB * Pow2(idx / SUB - 1) <= BucketLow(idx)
  {
    if idx >= SUB {
      hide BucketLow;
      assert idx == idx / SUB * SUB + idx % SUB;
      LowStepAt(idx / SUB, idx % SUB);
    }
  }

  lemma LowStepAt(q: nat, m: nat)
    requires q > 0 && m < SUB
    ensures BucketLow(q * SUB + m + 1) == BucketLow(q * SUB + m) + Pow2(q - 1)
    ensures SUB * Pow2(q - 1) <= BucketLow(q * SUB + m)
  {
    hide BucketLow;
    var p := Pow2(q - 1);
    LowAt(q, m);
    if m < 15 {
      LowAt(q, m + 1);
      Successor(m, p);
    } else {
      LowAt(q + 1, 0);
      assert Pow2(q) == 2 * p;
    }
  }

  lemma Successor(m: nat, p: nat)
    ensures (m + 1) * p == m * p + p
    ensures m * p >= 0
  {
  }

  lemma LowAt(q: nat, m: nat)
    requires q > 0 && m < SUB
    ensures BucketLow(q * SUB + m) == SUB * Pow2(q - 1) + m * Pow2(q - 1)
  {
    var idx := q * 16 + m;
    assert idx / 16 == q && idx % 16 == m;
  }

  lemma {:induction false} LowIncreases(i: nat, j: nat)
    requires i <= j
    ensures BucketLow(i) <= BucketLow(j) && (i < j ==> BucketLow(i) < BucketLow(j))
    decreases j - i
  {
    if i < j {
      LowStep(j - 1);
      LowIncreases(i, j - 1);
    }
  }

  // A sample's unclamped bucket is the one whose edges bracket it.
  lemma {:induction false} RawBucketBrackets(ns: nat)
    ensures BucketLow(RawBucket(ns)) <= ns < BucketLow(RawBucket(ns) + 1)
  {
    if ns >= SUB {
      var e, m := RawBucketParts(ns);
      hide RawBucket, BucketLow, Pow2;
      LowAt(e - 3, m);
      LowStepAt(e - 3, m);
    }
  }

  lemma RawBucketParts(ns: nat) returns (e: nat, m: nat)
    requires ns >= SUB
    ensures e >= SUB_BITS && m < SUB && RawBucket(ns) == (e - 3) * SUB + m
    ensures var p := Pow2(e - 4); 16 * p + m * p <= ns < 16 * p + m * p + p
  {
    LeadingOneOf16(ns);
    LeadingOneBrackets(ns);
    e := LeadingOne(ns);
    var p := Pow2(e - 4);
    Pow2By16(e - 4);
    QuotientIn(ns, p);
    var q := ns / p;
    m := q - 16;
    assert q % 16 == m;
    hide LeadingOne, Pow2;
    SplitProduct(q, m, p);
  }

  lemma SplitProduct(q: nat, m: nat, p: nat)
    requires q == 16 + m
    ensures q * p == 16 * p + m * p
  {
  }

  lemma Pow2By16(k: nat)
    ensures Pow2(k + 4) == 16 * Pow2(k)
  {
    assert Pow2(k + 4) == 2 * Pow2(k + 3) == 4 * Pow2(k + 2) == 8 * Pow2(k + 1) == 16 * Pow2(k);
  }

  lemma QuotientIn(n: nat, p: nat)
    requires p > 0 && 16 * p <= n < 32 * p
    ensures 16 <= n / p < 32 && n / p * p <= n < n / p * p + p
  {
    var q := n / p;
    assert n == q * p + n % p;
    if q < 16 { MulMono(q + 1, 16, p); }
    if q >= 32 { MulMono(32, q, p); }
  }

  // `BucketOf` picks bucket `i` exactly for the samples between its edges; the last bucket also
  // takes everything above.
  lemma {:induction false} BucketIsInterval(ns: nat, i: nat)
    requires i < HIST_BUCKETS
    ensures BucketOf(ns) == i <==>
              BucketLow(i) <= ns && (i < HIST_BUCKETS - 1 ==> ns < BucketLow(i + 1))
  {
    RawBucketBrackets(ns);
    var raw := RawBucket(ns);
    hide RawBucket, BucketLow;
    if raw < i { LowIncreases(raw + 1, i); }
    if raw > i { LowIncreases(i + 1, raw); }
    if raw >= i { LowIncreases(i, raw); }
  }

  // The two maps are inverse on every index, and the midpoint names its own bucket.
  lemma {:induction false} BucketRoundTrip(i: nat)
    requires i < HIST_BUCKETS
    ensures BucketOf(BucketLow(i)) == i
    ensures BucketOf(BucketMid(i)) == i
  {
    BucketIsInterval(BucketLow(i), i);
    BucketIsInterval(BucketMid(i), i);
    LowIncreases(i, i + 1);
  }

  lemma {:induction false} BucketIsMonotone(a: nat, b: nat)
    requires a <= b
    ensures BucketOf(a) <= BucketOf(b)
  {
    var i, j := BucketOf(a), BucketOf(b);
    BucketIsInterval(a, i);
    BucketIsInterval(b, j);
    if j < i { LowIncreases(j + 1, i); }
  }

  // An unclamped sample's bucket is at most a sixteenth of it wide, and its midpoint is within a
  // thirty-second of it.
  lemma {:induction false} BucketIsNarrow(ns: nat)
    requires ns < BucketLow(HIST_BUCKETS)
    ensures var i := BucketOf(ns);
            && BucketLow(i) <= ns < BucketLow(i + 1)
            && (i >= SUB ==> 16 * (BucketLow(i + 1) - BucketLow(i)) <= ns)
            && (i < SUB ==> BucketMid(i) == ns)
            && 31 * ns <= 32 * BucketMid(i) <= 33 * ns
  {
    var i := BucketOf(ns);
    BucketIsInterval(ns, i);
    LowStep(i);
    hide BucketOf;
    if i >= SUB {
      HalfOfPow2(i / SUB - 1);
    }
  }

  lemma HalfOfPow2(k: nat)
    ensures Pow2(k) / 2 * 2 == Pow2(k) || (k == 0 && Pow2(k) == 1)
  {
  }
}
