// What an operand is worth, read off the registers, and what one executed instruction leaves in a
// live lane. Everything here is said without the interpreter's own evaluation functions.

module Operands {
  import opened Words
  import opened Bits
  import opened Isa
  import opened Wavefront
  import opened LaneLoops
  import opened LaneTurns

  // The 32 bits of `v` from bit `at` on are `x`.
  ghost predicate HalfIs(v: u64, at: nat, x: u32) {
    forall k: nat :: k < 32 ==> Bit(x, k) == Bit(v, at + k)
  }

  // Source `op` is worth `x` to `lane`.
  ghost predicate Reads(w: Wave, op: Operand, lane: Lane, x: u32) {
    match op
    case Vgpr(n) => w.vgprs[n][lane] == x
    case Sgpr(n) => n < 104 && w.sgprs[n] == x
    case Special(M0) => w.m0 == x
    case Special(VccLo) => HalfIs(w.vcc, 0, x)
    case Special(VccHi) => HalfIs(w.vcc, 32, x)
    case Special(ExecLo) => HalfIs(w.exec, 0, x)
    case Special(ExecHi) => HalfIs(w.exec, 32, x)
    case Special(Scc) => x == if w.scc then 1 else 0
    case InlineInt(v) => (x - v) % 0x1_0000_0000 == 0
    case InlineFloat(bits) => x == bits
    case Literal(word) => x == word
    case Raw(_) => false
  }

  // `lane`'s selector bit of the mask operand `op` is `b`.
  ghost predicate Selects(w: Wave, op: Operand, lane: Lane, b: bool) {
    match op
    case Special(VccLo) => b == Bit(w.vcc, lane)
    case Special(VccHi) => b == Bit(w.vcc, lane)
    case Sgpr(n) => if lane < 32 then n < 104 && b == Bit(w.sgprs[n], lane) else n + 1 < 104 && b == Bit(w.sgprs[n + 1], lane - 32)
    case _ => false
  }

  // `lane` holds `x` in the destination and what it held in every other register.
  ghost predicate Wrote(w: Wave, w': Wave, lane: Lane, dst: Operand, x: u32) {
    && dst.Vgpr? && Word(w', dst.n, lane) == x
    && forall r: nat :: r < 256 && r != dst.n ==> Word(w', r, lane) == Word(w, r, lane)
  }

  lemma HalvesOf(v: u64, x: u32)
    ensures HalfIs(v, 0, x) <==> x == v % TWO32
    ensures HalfIs(v, 32, x) <==> x == v / TWO32
  {
    var lo: u32, hi: u32 := v % TWO32, v / TWO32;
    Pow32();
    hide Bit, Pow2;
    forall k: nat | k < 64 ensures Bit(v, k) == if k < 32 then Bit(lo, k) else Bit(hi, k - 32) {
      BitOfPair(lo, hi, k);
    }
    assert forall k: nat :: k < 32 ==> Bit(hi, k) == Bit(v, 32 + k) by {
      forall k: nat | k < 32 ensures Bit(hi, k) == Bit(v, 32 + k) {
        var j := 32 + k;
        assert Bit(v, j) == Bit(hi, j - 32);
      }
    }
    if HalfIs(v, 0, x) {
      assert forall k: nat :: k < 32 ==> Bit(x, k) == Bit(lo, k) by {
        forall k: nat | k < 32 ensures Bit(x, k) == Bit(lo, k) {
          assert Bit(x, k) == Bit(v, 0 + k);
        }
      }
      SameBits(x, lo, 32);
    }
    if HalfIs(v, 32, x) { SameBits(x, hi, 32); }
  }

  // The interpreter's operand evaluation is this relation.
  lemma ReadsIff(w: Wave, op: Operand, lane: Lane, x: u32)
    ensures ReadLane(w, op, lane) == Some(x) <==> Reads(w, op, lane, x)
  {
    hide HalfIs;
    HalvesOf(w.vcc, x);
    HalvesOf(w.exec, x);
  }

  lemma ReadsScalarIff(w: Wave, op: Operand, x: u32)
    ensures ReadScalar(w, op) == Some(x) <==> !op.Vgpr? && Reads(w, op, 0, x)
  {
    hide HalfIs;
    ReadsIff(w, op, 0, x);
  }

  lemma ReadsUnique(w: Wave, op: Operand, lane: Lane, x: u32, y: u32)
    requires Reads(w, op, lane, x) && Reads(w, op, lane, y)
    ensures x == y
  {
    hide Reads;
    ReadsIff(w, op, lane, x);
    ReadsIff(w, op, lane, y);
  }

  lemma SelectsIff(w: Wave, op: Operand, lane: Lane, b: bool)
    ensures ReadPredicate(w, op, lane) == Some(b) <==> Selects(w, op, lane, b)
  {
    hide Bit;
    if op.Sgpr? {
      assert PairReg(op.n, lane) == if lane < 32 then op.n else op.n + 1;
      assert lane % 32 == if lane < 32 then lane else lane - 32;
    }
  }

  lemma OneWrote(w: Wave, w': Wave, inst: Inst, lane: Lane, dst: Operand, x: u32, b: bool)
    requires One(dst, x, b).Some? && Left(w, w', inst, lane, One(dst, x, b).value)
    ensures Wrote(w, w', lane, dst, x)
  {
    hide MaskBit;
    var e := One(dst, x, b).value;
    forall r: nat | r < 256 ensures Word(w', r, lane) == if r == dst.n then x else Word(w, r, lane) {
      assert Word(w', r, lane) == NewWord(e, r, Word(w, r, lane));
    }
  }

  // An instruction that writes no mask: the lane acts on the state before it.
  lemma Acts(env: Env, w: Wave, w': Wave, inst: Inst, lane: Lane) returns (e: Effect)
    requires IsVector(inst) && BitDst(inst).None? && ExecOne(env, w, inst) == Some(w') && LaneLive(w, lane)
    ensures LaneEffect(env, w, lane, inst) == Some(e) && Left(w, w', inst, lane, e)
  {
    hide LaneEffect, LaneLoop, Precheck;
    LaneLoopIsSimultaneous(env, w, inst);
    assert LaneOk(env, w, lane, inst);
    e := LaneEffect(env, w, lane, inst).value;
    hide LaneOk;
    forall r: nat | r < NUM_VGPRS ensures Word(w', r, lane) == NewWord(e, r, Word(w, r, lane)) {
      assert Word(w', r, lane) == NewWord(EffectOf(env, w, lane, inst), r, Word(w, r, lane));
    }
  }

  // One that does acts on what it finds on its turn.
  lemma ActsOnTurn(env: Env, w: Wave, w': Wave, inst: Inst, lane: Lane) returns (u: Wave, e: Effect)
    requires IsVector(inst) && ExecOne(env, w, inst) == Some(w') && LaneLive(w, lane)
    ensures AtTurn(w, w', inst, lane, u)
    ensures LaneEffect(env, u, lane, inst) == Some(e) && Left(w, w', inst, lane, e)
  {
    hide LaneEffect, LaneLoop, Precheck, AtTurn, Left;
    u := LaneActs(env, w, w', inst, lane);
    e := LaneEffect(env, u, lane, inst).value;
  }
}
