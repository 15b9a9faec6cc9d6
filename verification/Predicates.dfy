// A compare may leave its 64-bit lane mask in VCC or in an SGPR pair, and a select may read it from
// either. The two forms are interchangeable.

module Predicates {
  import opened Words
  import opened Bits
  import opened Isa
  import opened Wavefront
  import opened LaneLoops

  // The VCC form of a compare, and the VOP3 form of the same compare into the pair at `n`.
  predicate SameCompare(short: Inst, long: Inst, n: u8) {
    && short.Vopc? && short.op in COMPARES
    && long.Vop3? && long.op == short.op && long.vdst == Sgpr(n)
    && long.src0 == short.src0 && long.src1 == short.vsrc1 && long.abs == 0 && long.neg == 0
  }

  // A select on VCC, and the same select on the pair at `n`.
  predicate SameSelect(short: Inst, long: Inst, n: u8) {
    && short.Vop2? && short.op == V_CNDMASK_B32
    && long.Vop3? && long.op == V3_CNDMASK_B32 && long.src2 == Sgpr(n)
    && long.vdst == short.vdst && long.src0 == short.src0 && long.src1 == short.vsrc1
  }

  // Not (part of) VCC or of the pair at `n`.
  predicate Clear(op: Operand, n: nat) {
    !IsVcc(op) && (op.Sgpr? ==> op.n != n && op.n != n + 1)
  }

  lemma SameBit(env: Env, w: Wave, lane: Lane, short: Inst, long: Inst, n: u8)
    requires SameCompare(short, long, n) && LaneEffect(env, w, lane, short).Some?
    ensures LaneEffect(env, w, lane, long).Some?
    ensures LaneEffect(env, w, lane, long).value.bit == LaneEffect(env, w, lane, short).value.bit
  {
    ZeroBits(0);
    ZeroBits(1);
  }

  // The mask a compare computes: the lane is live and its operands compare.
  ghost predicate IsMask(env: Env, w: Wave, inst: Inst, mask: u64)
    requires IsVector(inst)
  {
    forall lane: Lane ::
      Bit(mask, lane) == (LaneLive(w, lane) && LaneEffect(env, w, lane, inst).Some? && LaneEffect(env, w, lane, inst).value.bit)
  }

  lemma {:induction false} MaskIsUnique(env: Env, w: Wave, inst: Inst, a: u64, b: u64)
    requires IsVector(inst) && IsMask(env, w, inst, a) && IsMask(env, w, inst, b)
    ensures a == b
  {
    hide LaneEffect;
    Pow64();
    forall k: nat | k < 64 ensures Bit(a, k) == Bit(b, k) {
      var lane: Lane := k;
      assert Bit(a, lane) == Bit(b, lane);
    }
    SameBits(a, b, 64);
  }

  lemma ShortMask(env: Env, w: Wave, inst: Inst, w1: Wave)
    requires inst.Vopc? && Independent(inst) && LaneLoop(env, w, 0, inst) == Some(w1)
    ensures IsMask(env, w, inst, w1.vcc)
    ensures w1 == w.(vcc := w1.vcc)
  {
    LaneLoopIsSimultaneous(env, w, inst);
    CompareWritesNoWords(env, w, inst, w1);
    hide LaneLoop, LaneEffect, Bit, ColumnsAfter, Records, Independent;
    forall lane: Lane ensures Bit(w1.vcc, lane) == EffectOf(env, w, lane, inst).bit {}
  }

  lemma LongMask(env: Env, w: Wave, inst: Inst, n: u8, w2: Wave)
    requires inst.Vop3? && inst.op in COMPARES && inst.vdst == Sgpr(n)
    requires Independent(inst) && LaneLoop(env, w, 0, inst) == Some(w2)
    ensures n + 1 < NUM_SGPRS && IsMask(env, w, inst, w2.sgprs[n] + TWO32 * w2.sgprs[n + 1])
    ensures w2 == w.(sgprs := w2.sgprs)
    ensures forall r: nat :: r < NUM_SGPRS && r != n && r != n + 1 ==> w2.sgprs[r] == w.sgprs[r]
  {
    hide LaneLoop, LaneEffect, Bit, Independent, After, EffectOf, BitDst;
    LaneLoopIsSimultaneous(env, w, inst);
    CompareWritesNoWords(env, w, inst, w2);
    assert LaneOk(env, w, 63, inst);
    PairOfAfter(env, w, inst, n, w2);
    hide LaneOk, PairAfter;
    PairOthers(env, w, inst, n, w2);
    forall lane: Lane
      ensures Bit(w2.sgprs[n] + TWO32 * w2.sgprs[n + 1], lane) ==
              (LaneLive(w, lane) && LaneEffect(env, w, lane, inst).Some? && LaneEffect(env, w, lane, inst).value.bit)
    {
      PairMask(env, w, inst, n, w2, lane);
    }
  }

  lemma PairOfAfter(env: Env, w: Wave, inst: Inst, n: u8, w2: Wave)
    requires inst.Vop3? && inst.op in COMPARES && inst.vdst == Sgpr(n)
    requires After(env, w, LANES, inst, w2) && LaneOk(env, w, 63, inst)
    ensures n + 1 < NUM_SGPRS && PairAfter(env, w, LANES, inst, w2, n)
    ensures w2.exec == w.exec && w2.scc == w.scc && w2.m0 == w.m0 && w2.vcc == w.vcc
  {
    hide LaneEffect, EffectOf, Bit, ColumnsAfter, Records, PairAfter;
    assert PairReg(n, 63) == n + 1;
  }

  lemma PairOthers(env: Env, w: Wave, inst: Inst, n: u8, w2: Wave)
    requires IsVector(inst) && PairAfter(env, w, LANES, inst, w2, n)
    ensures forall r: nat :: r < NUM_SGPRS && r != n && r != n + 1 ==> w2.sgprs[r] == w.sgprs[r]
  {
  }

  lemma PairMask(env: Env, w: Wave, inst: Inst, n: u8, w2: Wave, lane: Lane)
    requires IsVector(inst) && n + 1 < NUM_SGPRS && PairAfter(env, w, LANES, inst, w2, n)
    ensures Bit(w2.sgprs[n] + TWO32 * w2.sgprs[n + 1], lane) ==
            (LaneLive(w, lane) && LaneEffect(env, w, lane, inst).Some? && LaneEffect(env, w, lane, inst).value.bit)
  {
    hide LaneEffect, Bit;
    BitOfPair(w2.sgprs[n], w2.sgprs[n + 1], lane);
    assert PairReg(n, lane) < NUM_SGPRS;
    assert Bit(w2.sgprs[PairReg(n, lane)], lane % 32) == EffectOf(env, w, lane, inst).bit;
  }

  lemma CompareWritesNoWords(env: Env, w: Wave, inst: Inst, w1: Wave)
    requires IsVector(inst) && (inst.Vopc? || (inst.Vop3? && inst.op in COMPARES))
    requires After(env, w, LANES, inst, w1)
    ensures w1.vgprs == w.vgprs && w1.exports == w.exports
  {
    CompareHasNoRecords(env, w, LANES, inst);
    forall r: nat | r < NUM_VGPRS ensures w1.vgprs[r] == w.vgprs[r] {
      forall lane: Lane ensures w1.vgprs[r][lane] == w.vgprs[r][lane] {
        assert Word(w1, r, lane) == NewWord(EffectOf(env, w, lane, inst), r, Word(w, r, lane));
      }
    }
  }

  lemma {:induction false} CompareHasNoRecords(env: Env, w: Wave, k: nat, inst: Inst)
    requires IsVector(inst) && (inst.Vopc? || (inst.Vop3? && inst.op in COMPARES)) && k <= LANES
    ensures Records(env, w, k, inst) == []
  {
    if k > 0 { CompareHasNoRecords(env, w, k - 1, inst); }
  }

  // A compare leaves the same 64-bit mask in VCC or in the pair, a bit for each live lane that
  // compares and none for a dead one, and touches nothing else.
  lemma {:induction false} ComparesLeaveOneMask(env: Env, w: Wave, short: Inst, long: Inst, n: u8, w1: Wave, w2: Wave)
    requires SameCompare(short, long, n) && Independent(short) && Independent(long)
    requires LaneLoop(env, w, 0, short) == Some(w1) && LaneLoop(env, w, 0, long) == Some(w2)
    ensures IsMask(env, w, short, w1.vcc) && ReadSgprPair(w2, n) == Some(w1.vcc)
    ensures w1 == w.(vcc := w1.vcc) && w2 == w.(sgprs := w2.sgprs)
    ensures forall r: nat :: r < NUM_SGPRS && r != n && r != n + 1 ==> w2.sgprs[r] == w.sgprs[r]
  {
    hide LaneLoop, LaneEffect, Bit, Independent, After, IsMask;
    ShortMask(env, w, short, w1);
    LongMask(env, w, long, n, w2);
    LaneLoopIsSimultaneous(env, w, short);
    SameMask(env, w, short, long, n, w2.sgprs[n] + TWO32 * w2.sgprs[n + 1]);
    MaskIsUnique(env, w, short, w1.vcc, w2.sgprs[n] + TWO32 * w2.sgprs[n + 1]);
  }

  lemma SameMask(env: Env, w: Wave, short: Inst, long: Inst, n: u8, mask: u64)
    requires SameCompare(short, long, n) && IsMask(env, w, long, mask)
    requires forall lane: Lane :: LaneOk(env, w, lane, short)
    ensures IsMask(env, w, short, mask)
  {
    hide LaneEffect, Bit;
    forall lane: Lane
      ensures Bit(mask, lane) == (LaneLive(w, lane) && LaneEffect(env, w, lane, short).Some? && LaneEffect(env, w, lane, short).value.bit)
    {
      assert LaneOk(env, w, lane, short);
      if LaneLive(w, lane) { SameBit(env, w, lane, short, long, n); }
    }
  }

  // A lane that has dropped out loses its VCC bit at the next compare, whatever the bit was; so a
  // loop that continues while the bit is clear does not leave it as the lane alone would.
  lemma DroppedLaneLosesVcc(env: Env, w: Wave, inst: Inst, w1: Wave, lane: Lane)
    requires inst.Vopc? && Independent(inst) && LaneLoop(env, w, 0, inst) == Some(w1) && !LaneLive(w, lane)
    ensures !Bit(w1.vcc, lane)
  {
    hide LaneLoop, Bit;
    ShortMask(env, w, inst, w1);
  }

  // After either compare the matching select picks the same words in every lane.
  lemma {:induction false} SelectsPickOneWord(env: Env, w: Wave, short: Inst, long: Inst, pick: Inst, pick3: Inst,
                                              n: u8, w1: Wave, w2: Wave, v1: Wave, v2: Wave)
    requires SameCompare(short, long, n) && Independent(short) && Independent(long)
    requires SameSelect(pick, pick3, n) && Clear(pick.src0, n) && Clear(pick.vsrc1, n)
    requires LaneLoop(env, w, 0, short) == Some(w1) && LaneLoop(env, w, 0, long) == Some(w2)
    requires LaneLoop(env, w1, 0, pick) == Some(v1) && LaneLoop(env, w2, 0, pick3) == Some(v2)
    ensures v1.vgprs == v2.vgprs
  {
    hide LaneLoop, LaneEffect, EffectOf, Bit, After, LaneOk, IsMask;
    ComparesLeaveOneMask(env, w, short, long, n, w1, w2);
    hide SameCompare, Independent;
    SelectColumns(env, w1, pick, v1);
    SelectColumns(env, w2, pick3, v2);
    forall r: nat | r < NUM_VGPRS ensures v1.vgprs[r] == v2.vgprs[r] {
      forall lane: Lane ensures v1.vgprs[r][lane] == v2.vgprs[r][lane] {
        SelectEffect(env, w1, w2, pick, pick3, n, lane);
        assert Word(v1, r, lane) == NewWord(EffectOf(env, w1, lane, pick), r, Word(w1, r, lane));
        assert Word(v2, r, lane) == NewWord(EffectOf(env, w2, lane, pick3), r, Word(w2, r, lane));
      }
    }
  }

  lemma SelectColumns(env: Env, w: Wave, inst: Inst, v: Wave)
    requires (inst.Vop2? && inst.op == V_CNDMASK_B32) || (inst.Vop3? && inst.op == V3_CNDMASK_B32)
    requires LaneLoop(env, w, 0, inst) == Some(v)
    ensures ColumnsAfter(env, w, LANES, inst, v)
  {
    assert BitDst(inst) == None;
    LaneLoopIsSimultaneous(env, w, inst);
  }

  lemma SelectEffect(env: Env, w1: Wave, w2: Wave, pick: Inst, pick3: Inst, n: u8, lane: Lane)
    requires SameSelect(pick, pick3, n) && Clear(pick.src0, n) && Clear(pick.vsrc1, n)
    requires ReadSgprPair(w2, n) == Some(w1.vcc) && w2 == w1.(vcc := w2.vcc, sgprs := w2.sgprs)
    requires forall r: nat :: r < NUM_SGPRS && r != n && r != n + 1 ==> w2.sgprs[r] == w1.sgprs[r]
    ensures EffectOf(env, w1, lane, pick) == EffectOf(env, w2, lane, pick3)
  {
    BitOfPair(w2.sgprs[n], w2.sgprs[n + 1], lane);
    assert ReadPredicate(w2, Sgpr(n), lane) == Some(Bit(w1.vcc, lane));
    assert ReadLane(w1, pick.src0, lane) == ReadLane(w2, pick.src0, lane);
    assert ReadLane(w1, pick.vsrc1, lane) == ReadLane(w2, pick.vsrc1, lane);
  }
}
