// The bit operations the emulator applies to machine words. Shifts and masks are stated through
// division by two, so every law below is an induction on the bit position.

module Bits {
  import opened Words

  function Pow2(k: nat): (p: nat)
    ensures p >= 1
  {
    if k == 0 then 1 else 2 * Pow2(k - 1)
  }

  // Bit `k` of `n`: `(n >> k) & 1`.
  predicate Bit(n: nat, k: nat) {
    if k == 0 then n % 2 == 1 else Bit(n / 2, k - 1)
  }

  // `n | (1 << k)` when `b`, else `n & !(1 << k)`.
  function SetBit(n: nat, k: nat, b: bool): nat {
    if k == 0 then n / 2 * 2 + (if b then 1 else 0) else SetBit(n / 2, k - 1, b) * 2 + n % 2
  }

  // `a & b`.
  function And(a: nat, b: nat): (r: nat)
    ensures r <= a
  {
    if a == 0 then 0 else And(a / 2, b / 2) * 2 + (if b % 2 == 1 then a % 2 else 0)
  }

  // `a & !b`.
  function AndNot(a: nat, b: nat): (r: nat)
    ensures r <= a
  {
    if a == 0 then 0 else AndNot(a / 2, b / 2) * 2 + (if b % 2 == 1 then 0 else a % 2)
  }

  lemma ZeroBits(k: nat)
    ensures !Bit(0, k)
  {
    if k > 0 { ZeroBits(k - 1); }
  }

  lemma {:induction false} BitOfSetBit(n: nat, k: nat, b: bool, j: nat)
    ensures Bit(SetBit(n, k, b), j) == if j == k then b else Bit(n, j)
  {
    if k > 0 && j > 0 {
      assert SetBit(n, k, b) / 2 == SetBit(n / 2, k - 1, b);
      BitOfSetBit(n / 2, k - 1, b, j - 1);
    } else if k == 0 && j > 0 {
      assert SetBit(n, k, b) / 2 == n / 2;
    }
  }

  lemma {:induction false} SetBitBound(n: nat, k: nat, b: bool, width: nat)
    requires k < width && n < Pow2(width)
    ensures SetBit(n, k, b) < Pow2(width)
  {
    var half := Pow2(width - 1);
    assert n / 2 < half;
    if k > 0 {
      SetBitBound(n / 2, k - 1, b, width - 1);
      assert SetBit(n, k, b) == SetBit(n / 2, k - 1, b) * 2 + n % 2;
    } else {
      assert SetBit(n, k, b) <= n / 2 * 2 + 1;
    }
  }

  lemma {:induction false} BitOfAnd(a: nat, b: nat, k: nat)
    ensures Bit(And(a, b), k) == (Bit(a, k) && Bit(b, k))
    decreases k
  {
    if a == 0 {
      ZeroBits(k);
    } else if k > 0 {
      assert And(a, b) / 2 == And(a / 2, b / 2);
      BitOfAnd(a / 2, b / 2, k - 1);
    }
  }

  lemma {:induction false} BitOfAndNot(a: nat, b: nat, k: nat)
    ensures Bit(AndNot(a, b), k) == (Bit(a, k) && !Bit(b, k))
    decreases k
  {
    if a == 0 {
      ZeroBits(k);
    } else if k > 0 {
      assert AndNot(a, b) / 2 == AndNot(a / 2, b / 2);
      BitOfAndNot(a / 2, b / 2, k - 1);
    }
  }

  // Two words below `2^width` with the same bits are the same word.
  lemma {:induction false} SameBits(a: nat, b: nat, width: nat)
    requires a < Pow2(width) && b < Pow2(width)
    requires forall k: nat :: k < width ==> Bit(a, k) == Bit(b, k)
    ensures a == b
  {
    if width > 0 {
      assert Bit(a, 0) == Bit(b, 0);
      forall k: nat | k < width - 1
        ensures Bit(a / 2, k) == Bit(b / 2, k)
      {
        assert Bit(a, k + 1) == Bit(b, k + 1);
      }
      SameBits(a / 2, b / 2, width - 1);
    }
  }

  // A word glued from a low part below `2^width` and a high part.
  lemma {:induction false} BitOfGlued(lo: nat, hi: nat, width: nat, k: nat)
    requires lo < Pow2(width)
    ensures Bit(lo + Pow2(width) * hi, k) == if k < width then Bit(lo, k) else Bit(hi, k - width)
  {
    if width > 0 {
      var half := Pow2(width - 1);
      assert Pow2(width) * hi == 2 * (half * hi);
      assert (lo + Pow2(width) * hi) / 2 == lo / 2 + half * hi;
      if k > 0 {
        BitOfGlued(lo / 2, hi, width - 1, k - 1);
      }
    }
  }

  // Bit `k` of a 64-bit value held in two 32-bit words.
  lemma BitOfPair(lo: u32, hi: u32, k: nat)
    ensures Bit(lo + TWO32 * hi, k) == if k < 32 then Bit(lo, k) else Bit(hi, k - 32)
  {
    Pow32();
    BitOfGlued(lo, hi, 32, k);
  }

  lemma Pow32()
    ensures Pow2(32) == TWO32
  {
    assert Pow2(8) == 256;
    assert Pow2(16) == 65536 by { assert Pow2(12) == 4096; }
    assert Pow2(24) == 0x100_0000 by { assert Pow2(20) == 0x10_0000; }
    assert Pow2(28) == 0x1000_0000;
  }

  lemma Pow64()
    ensures Pow2(64) == TWO64
  {
    Pow32();
    assert Pow2(36) == 0x10_0000_0000;
    assert Pow2(40) == 0x100_0000_0000;
    assert Pow2(44) == 0x1000_0000_0000;
    assert Pow2(48) == 0x1_0000_0000_0000;
    assert Pow2(52) == 0x10_0000_0000_0000;
    assert Pow2(56) == 0x100_0000_0000_0000;
    assert Pow2(60) == 0x1000_0000_0000_0000;
  }

  lemma SetBit32(n: u32, k: nat, b: bool)
    requires k < 32
    ensures SetBit(n, k, b) < TWO32
  {
    Pow32();
    SetBitBound(n, k, b, 32);
  }

  lemma SetBit64(n: u64, k: nat, b: bool)
    requires k < 64
    ensures SetBit(n, k, b) < TWO64
  {
    Pow64();
    SetBitBound(n, k, b, 64);
  }
}
