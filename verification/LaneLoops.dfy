// The in-place lane loop is a simultaneous map: every live lane acts on the state before the
// instruction, whatever the lanes before it wrote. Also: two states that agree on what an
// instruction reads give every lane the same effect.

module LaneLoops {
  import opened Words
  import opened Bits
  import opened Isa
  import opened Wavefront

  // ---- what an instruction reads -----------------------------------------------------

  function Listed(o: Option<Operand>): set<Operand> {
    if o.Some? then {o.value} else {}
  }

  // The operands an instruction reads as 32-bit words.
  function DataOps(inst: Inst): set<Operand> {
    match inst
    case Sop1(op, _, ssrc0) => if op == S_MOV_B32 then {ssrc0} else {}
    case Vop1(_, _, src0) => {src0}
    case Vop2(_, vdst, src0, vsrc1, _) => {vdst, src0, vsrc1}
    case Vop3(op, vdst, src0, src1, src2, _, _, _, _) =>
      if op in COMPARES then {src0, src1}
      else if op == V3_CNDMASK_B32 then {src0, src1}
      else {vdst, src0, src1, src2}
    case Vopc(_, src0, vsrc1) => {src0, vsrc1}
    case Vintrp(_, vdst, vsrc, _, _) => {vdst, vsrc}
    case Mubuf(_, _, vaddr, _, soffset, _, _, _) => {vaddr, soffset}
    case Exp(_, e0, e1, e2, e3, _, _, _) => Listed(e0) + Listed(e1) + Listed(e2) + Listed(e3)
    case _ => {}
  }

  // The predicate operand a select reads one bit of.
  function PredSrc(inst: Inst): Option<Operand> {
    if inst.Vop2? && inst.op == V_CNDMASK_B32 then Some(Special(VccLo))
    else if inst.Vop3? && inst.op == V3_CNDMASK_B32 then Some(inst.src2)
    else None
  }

  predicate InSpan(r: nat, base: nat, count: nat) { base <= r < base + count }

  // SGPR `r` is read through a descriptor, a pointer pair or an offset register.
  predicate ReadsFixed(inst: Inst, r: nat) {
    match inst
    case Smrd(op, _, sbase, imm, offset) =>
      InSpan(r, sbase, if IsBufferLoad(op) then 4 else 2) || (!imm && r == offset)
    case Mubuf(_, _, _, srsrc, _, _, _, _) => InSpan(r, srsrc, 4)
    case Mimg(_, _, _, srsrc, ssamp, _, _) => InSpan(r, srsrc, 8) || InSpan(r, ssamp, 4)
    case _ => false
  }

  predicate SameFixed(w1: Wave, w2: Wave, inst: Inst) {
    forall r: nat :: r < NUM_SGPRS && ReadsFixed(inst, r) ==> w1.sgprs[r] == w2.sgprs[r]
  }

  predicate SameColumn(w1: Wave, w2: Wave, lane: Lane) {
    forall r: nat :: r < NUM_VGPRS ==> Word(w1, r, lane) == Word(w2, r, lane)
  }

  // `w1` and `w2` agree on everything `inst` lets `lane` look at.
  predicate SameInputs(w1: Wave, w2: Wave, lane: Lane, inst: Inst) {
    && (forall op :: op in DataOps(inst) ==> ReadScalar(w1, op) == ReadScalar(w2, op))
    && SameFixed(w1, w2, inst)
    && (PredSrc(inst).Some? ==>
          ReadPredicate(w1, PredSrc(inst).value, lane) == ReadPredicate(w2, PredSrc(inst).value, lane))
    && SameColumn(w1, w2, lane)
  }

  lemma SameVSharp(w1: Wave, w2: Wave, inst: Inst, base: nat)
    requires SameFixed(w1, w2, inst)
    requires forall r: nat :: InSpan(r, base, 4) ==> ReadsFixed(inst, r)
    ensures ReadVSharp(w1, base) == ReadVSharp(w2, base)
  {
    if base + 3 < NUM_SGPRS {
      assert InSpan(base, base, 4) && InSpan(base + 1, base, 4);
      assert InSpan(base + 2, base, 4) && InSpan(base + 3, base, 4);
    }
  }

  lemma SameSlice(w1: Wave, w2: Wave, inst: Inst, base: nat, count: nat)
    requires base + count <= NUM_SGPRS && SameFixed(w1, w2, inst)
    requires forall r: nat :: InSpan(r, base, count) ==> ReadsFixed(inst, r)
    ensures w1.sgprs[base..base + count] == w2.sgprs[base..base + count]
  {
    forall r: nat | base <= r < base + count
      ensures w1.sgprs[r] == w2.sgprs[r]
    {
      assert InSpan(r, base, count);
    }
  }

  lemma SameMubuf(env: Env, w1: Wave, w2: Wave, lane: Lane, inst: Inst)
    requires inst.Mubuf? && SameInputs(w1, w2, lane, inst)
    ensures LaneEffect(env, w1, lane, inst) == LaneEffect(env, w2, lane, inst)
  {
    SameVSharp(w1, w2, inst, inst.srsrc);
    assert ReadScalar(w1, inst.soffset) == ReadScalar(w2, inst.soffset);
    assert ReadLane(w1, inst.vaddr, lane) == ReadLane(w2, inst.vaddr, lane);
  }

  lemma SameMimg(env: Env, w1: Wave, w2: Wave, lane: Lane, inst: Inst)
    requires inst.Mimg? && SameInputs(w1, w2, lane, inst)
    ensures LaneEffect(env, w1, lane, inst) == LaneEffect(env, w2, lane, inst)
  {
    if inst.srsrc + 7 < NUM_SGPRS && inst.ssamp + 3 < NUM_SGPRS {
      SameSlice(w1, w2, inst, inst.srsrc, 8);
      SameSlice(w1, w2, inst, inst.ssamp, 4);
    }
  }

  lemma SameRead(w1: Wave, w2: Wave, lane: Lane, inst: Inst, op: Operand)
    requires SameInputs(w1, w2, lane, inst) && op in DataOps(inst)
    ensures ReadLane(w1, op, lane) == ReadLane(w2, op, lane)
  {
  }

  lemma SameVop2(env: Env, w1: Wave, w2: Wave, lane: Lane, inst: Inst)
    requires inst.Vop2? && SameInputs(w1, w2, lane, inst)
    ensures Vop2Effect(env, w1, lane, inst) == Vop2Effect(env, w2, lane, inst)
  {
    SameRead(w1, w2, lane, inst, inst.src0);
    SameRead(w1, w2, lane, inst, inst.vsrc1);
    SameRead(w1, w2, lane, inst, inst.vdst);
    assert inst.op == V_CNDMASK_B32 ==> Bit(w1.vcc, lane) == Bit(w2.vcc, lane);
  }

  lemma SameVop3(env: Env, w1: Wave, w2: Wave, lane: Lane, inst: Inst)
    requires inst.Vop3? && SameInputs(w1, w2, lane, inst)
    ensures Vop3Effect(env, w1, lane, inst) == Vop3Effect(env, w2, lane, inst)
  {
    SameRead(w1, w2, lane, inst, inst.src0);
    SameRead(w1, w2, lane, inst, inst.src1);
    if inst.op !in COMPARES && inst.op != V3_CNDMASK_B32 {
      SameRead(w1, w2, lane, inst, inst.src2);
      SameRead(w1, w2, lane, inst, inst.vdst);
    }
  }

  lemma SameChannel(w1: Wave, w2: Wave, lane: Lane, inst: Inst, src: Option<Operand>)
    requires SameInputs(w1, w2, lane, inst) && Listed(src) <= DataOps(inst)
    ensures Channel(w1, lane, src) == Channel(w2, lane, src)
  {
    if src.Some? {
      assert src.value in Listed(src);
      SameRead(w1, w2, lane, inst, src.value);
    }
  }

  lemma SameExp(env: Env, w1: Wave, w2: Wave, lane: Lane, inst: Inst)
    requires inst.Exp? && SameInputs(w1, w2, lane, inst)
    ensures ExpEffect(env, w1, lane, inst) == ExpEffect(env, w2, lane, inst)
  {
    SameChannel(w1, w2, lane, inst, inst.e0);
    SameChannel(w1, w2, lane, inst, inst.e1);
    SameChannel(w1, w2, lane, inst, inst.e2);
    SameChannel(w1, w2, lane, inst, inst.e3);
  }

  // States that agree on an instruction's inputs give the lane the same effect.
  lemma SameEffect(env: Env, w1: Wave, w2: Wave, lane: Lane, inst: Inst)
    requires IsVector(inst) && SameInputs(w1, w2, lane, inst)
    ensures LaneEffect(env, w1, lane, inst) == LaneEffect(env, w2, lane, inst)
  {
    match inst
    case Mubuf(_, _, _, _, _, _, _, _) => SameMubuf(env, w1, w2, lane, inst);
    case Mimg(_, _, _, _, _, _, _) => SameMimg(env, w1, w2, lane, inst);
    case Vop2(_, _, _, _, _) => SameVop2(env, w1, w2, lane, inst);
    case Vop3(_, _, _, _, _, _, _, _, _) => SameVop3(env, w1, w2, lane, inst);
    case Exp(_, _, _, _, _, _, _, _) => SameExp(env, w1, w2, lane, inst);
    case Vop1(_, _, src0) => SameRead(w1, w2, lane, inst, src0);
    case Vopc(_, src0, vsrc1) =>
      SameRead(w1, w2, lane, inst, src0);
      SameRead(w1, w2, lane, inst, vsrc1);
    case Vintrp(_, vdst, vsrc, _, _) =>
      SameRead(w1, w2, lane, inst, vsrc);
      SameRead(w1, w2, lane, inst, vdst);
  }

  lemma SamePrecheck(w1: Wave, w2: Wave, lane: Lane, inst: Inst)
    requires IsVector(inst) && SameInputs(w1, w2, lane, inst)
    ensures Precheck(w1, inst) == Precheck(w2, inst)
  {
    if inst.Mubuf? {
      assert ReadScalar(w1, inst.soffset) == ReadScalar(w2, inst.soffset);
    }
  }

  // ---- the loop is simultaneous ---------------------------------------------------------

  predicate IsVcc(op: Operand) { op == Special(VccLo) || op == Special(VccHi) }

  // No scalar source is (part of) the mask the instruction is writing.
  predicate Independent(inst: Inst) {
    BitDst(inst).Some? ==>
      forall op :: op in DataOps(inst) ==>
        && (IsVcc(BitDst(inst).value) ==> !IsVcc(op))
        && (BitDst(inst).value.Sgpr? && op.Sgpr? ==>
              op.n != BitDst(inst).value.n && op.n != BitDst(inst).value.n + 1)
  }

  // Lane `lane` can store its bit: the destination is VCC or an in-range half of a pair.
  predicate DstOk(inst: Inst, lane: Lane) {
    BitDst(inst).Some? ==>
      || IsVcc(BitDst(inst).value)
      || (BitDst(inst).value.Sgpr? && PairReg(BitDst(inst).value.n, lane) < NUM_SGPRS)
  }

  predicate LaneOk(env: Env, w: Wave, lane: Lane, inst: Inst)
    requires IsVector(inst)
  {
    && DstOk(inst, lane)
    && (LaneLive(w, lane) ==>
          && LaneEffect(env, w, lane, inst).Some?
          && LaneEffect(env, w, lane, inst).value.base + |LaneEffect(env, w, lane, inst).value.words| <= NUM_VGPRS)
  }

  function EffectOf(env: Env, w: Wave, lane: Lane, inst: Inst): Effect
    requires IsVector(inst)
  {
    var e := LaneEffect(env, w, lane, inst);
    if LaneLive(w, lane) && e.Some? then e.value else Effect(0, [], false, [])
  }

  function NewWord(e: Effect, r: nat, was: u32): u32 {
    if e.base <= r < e.base + |e.words| then e.words[r - e.base] else was
  }

  // The exports lanes `0..k` capture, in lane order.
  function Records(env: Env, w: Wave, k: nat, inst: Inst): seq<ExportRecord>
    requires IsVector(inst) && k <= LANES
  {
    if k == 0 then [] else Records(env, w, k - 1, inst) + EffectOf(env, w, k - 1, inst).records
  }

  // Every register of a lane below `k` is what that lane computed from `w0`; the rest is `w0`.
  predicate ColumnsAfter(env: Env, w0: Wave, k: nat, inst: Inst, w: Wave)
    requires IsVector(inst)
  {
    forall r: nat, lane: Lane :: r < NUM_VGPRS ==>
      Word(w, r, lane) ==
        if lane < k then NewWord(EffectOf(env, w0, lane, inst), r, Word(w0, r, lane)) else Word(w0, r, lane)
  }

  predicate VccAfter(env: Env, w0: Wave, k: nat, inst: Inst, w: Wave)
    requires IsVector(inst)
  {
    forall lane: Lane ::
      Bit(w.vcc, lane) == if lane < k then EffectOf(env, w0, lane, inst).bit else Bit(w0.vcc, lane)
  }

  predicate PairAfter(env: Env, w0: Wave, k: nat, inst: Inst, w: Wave, n: nat)
    requires IsVector(inst)
  {
    && (forall r: nat :: r < NUM_SGPRS && r != n && r != n + 1 ==> w.sgprs[r] == w0.sgprs[r])
    && (forall lane: Lane :: PairReg(n, lane) < NUM_SGPRS ==>
          Bit(w.sgprs[PairReg(n, lane)], lane % 32) ==
            if lane < k then EffectOf(env, w0, lane, inst).bit else Bit(w0.sgprs[PairReg(n, lane)], lane % 32))
  }

  predicate MasksAfter(env: Env, w0: Wave, k: nat, inst: Inst, w: Wave)
    requires IsVector(inst)
  {
    if BitDst(inst).None? then w.vcc == w0.vcc && w.sgprs == w0.sgprs
    else if IsVcc(BitDst(inst).value) then w.sgprs == w0.sgprs && VccAfter(env, w0, k, inst, w)
    else if BitDst(inst).value.Sgpr? then
      w.vcc == w0.vcc && PairAfter(env, w0, k, inst, w, BitDst(inst).value.n)
    else w.vcc == w0.vcc && w.sgprs == w0.sgprs
  }

  // `w` is `w0` after lanes `0..k` have acted simultaneously on `w0`.
  predicate After(env: Env, w0: Wave, k: nat, inst: Inst, w: Wave)
    requires IsVector(inst) && k <= LANES
  {
    && w.exec == w0.exec && w.scc == w0.scc && w.m0 == w0.m0
    && w.exports == w0.exports + Records(env, w0, k, inst)
    && ColumnsAfter(env, w0, k, inst, w)
    && MasksAfter(env, w0, k, inst, w)
  }

  lemma InputsUntouched(env: Env, w0: Wave, k: Lane, inst: Inst, w: Wave)
    requires IsVector(inst) && Independent(inst) && After(env, w0, k, inst, w)
    ensures SameInputs(w, w0, k, inst)
  {
    forall op | op in DataOps(inst)
      ensures ReadScalar(w, op) == ReadScalar(w0, op)
    {
    }
    assert PredSrc(inst).Some? ==> BitDst(inst).None?;
    forall r: nat | r < NUM_VGPRS
      ensures Word(w, r, k) == Word(w0, r, k)
    {
    }
  }

  lemma PredicateWritten(env: Env, w0: Wave, k: Lane, inst: Inst, w: Wave)
    requires IsVector(inst) && DstOk(inst, k) && MasksAfter(env, w0, k, inst, w)
    ensures var r := WriteBitIfAny(w, inst, k, EffectOf(env, w0, k, inst).bit);
            && r.Some?
            && r.value.(vcc := w.vcc, sgprs := w.sgprs) == w
            && MasksAfter(env, w0, k + 1, inst, r.value)
  {
    var b := EffectOf(env, w0, k, inst).bit;
    var r := WriteBitIfAny(w, inst, k, b);
    if BitDst(inst).Some? {
      if IsVcc(BitDst(inst).value) {
        forall lane: Lane
          ensures Bit(r.value.vcc, lane) == if lane == k then b else Bit(w.vcc, lane)
        {
          BitOfSetBit(w.vcc, k, b, lane);
        }
      } else {
        var n := BitDst(inst).value.n;
        forall lane: Lane | PairReg(n, lane) < NUM_SGPRS
          ensures Bit(r.value.sgprs[PairReg(n, lane)], lane % 32) ==
                  if lane == k then b else Bit(w.sgprs[PairReg(n, lane)], lane % 32)
        {
          BitOfSetBit(w.sgprs[PairReg(n, k)], k % 32, b, lane % 32);
        }
      }
    }
  }

  lemma ColumnWritten(env: Env, w0: Wave, k: Lane, inst: Inst, w: Wave, w': Wave)
    requires IsVector(inst) && ColumnsAfter(env, w0, k, inst, w)
    requires var e := EffectOf(env, w0, k, inst); w'.vgprs == WriteWords(w.vgprs, e.base, k, e.words)
    ensures ColumnsAfter(env, w0, k + 1, inst, w')
  {
    hide EffectOf, WriteWords, IsVector;
    var e := EffectOf(env, w0, k, inst);
    forall r: nat, lane: Lane | r < NUM_VGPRS
      ensures Word(w', r, lane) ==
              if lane < k + 1 then NewWord(EffectOf(env, w0, lane, inst), r, Word(w0, r, lane)) else Word(w0, r, lane)
    {
      WrittenWord(w, w', e, k, r, lane);
      assert Word(w, r, lane) ==
             if lane < k then NewWord(EffectOf(env, w0, lane, inst), r, Word(w0, r, lane)) else Word(w0, r, lane);
    }
  }

  lemma WrittenWord(w: Wave, w': Wave, e: Effect, k: Lane, r: nat, lane: Lane)
    requires w'.vgprs == WriteWords(w.vgprs, e.base, k, e.words) && r < NUM_VGPRS
    ensures Word(w', r, lane) == if lane == k then NewWord(e, r, Word(w, r, lane)) else Word(w, r, lane)
  {
    assert w'.vgprs[r] == if e.base <= r < e.base + |e.words| then w.vgprs[r][k := e.words[r - e.base]] else w.vgprs[r];
  }

  lemma DeadTurn(env: Env, w0: Wave, k: Lane, inst: Inst, w: Wave)
    requires IsVector(inst) && DstOk(inst, k) && !LaneLive(w0, k) && After(env, w0, k, inst, w)
    ensures LaneTurn(env, w, k, inst).Some? && After(env, w0, k + 1, inst, LaneTurn(env, w, k, inst).value)
  {
    hide LaneEffect;
    PredicateWritten(env, w0, k, inst, w);
    var w' := LaneTurn(env, w, k, inst).value;
    var e := EffectOf(env, w0, k, inst);
    assert WriteWords(w.vgprs, e.base, k, e.words) == w'.vgprs;
    ColumnWritten(env, w0, k, inst, w, w');
  }

  lemma LiveTurn(env: Env, w0: Wave, k: Lane, inst: Inst, w: Wave)
    requires IsVector(inst) && LaneLive(w0, k) && LaneOk(env, w0, k, inst) && After(env, w0, k, inst, w)
    requires LaneEffect(env, w, k, inst) == LaneEffect(env, w0, k, inst)
    ensures LaneTurn(env, w, k, inst).Some? && After(env, w0, k + 1, inst, LaneTurn(env, w, k, inst).value)
  {
    hide LaneEffect, WriteBitIfAny, ColumnsAfter, WriteWords, IsVector;
    PredicateWritten(env, w0, k, inst, w);
    var w' := LaneTurn(env, w, k, inst).value;
    ColumnWritten(env, w0, k, inst, w, w');
  }

  // One turn of the in-place loop: it faults exactly when the lane does on `w0`, and
  // otherwise extends the simultaneous result by that lane.
  lemma TurnIsSimultaneous(env: Env, w0: Wave, k: Lane, inst: Inst, w: Wave)
    requires IsVector(inst) && Independent(inst) && After(env, w0, k, inst, w)
    ensures LaneTurn(env, w, k, inst).Some? <==> LaneOk(env, w0, k, inst)
    ensures LaneOk(env, w0, k, inst) ==> After(env, w0, k + 1, inst, LaneTurn(env, w, k, inst).value)
  {
    hide LaneEffect;
    InputsUntouched(env, w0, k, inst, w);
    SameEffect(env, w, w0, k, inst);
    if LaneOk(env, w0, k, inst) {
      if LaneLive(w0, k) {
        LiveTurn(env, w0, k, inst, w);
      } else {
        DeadTurn(env, w0, k, inst, w);
      }
    }
  }

  // The whole loop from lane `k` on.
  lemma {:induction false} LoopIsSimultaneous(env: Env, w0: Wave, k: nat, inst: Inst, w: Wave)
    requires IsVector(inst) && Independent(inst) && k <= LANES && After(env, w0, k, inst, w)
    ensures LaneLoop(env, w, k, inst).Some? <==> forall lane: Lane :: lane >= k ==> LaneOk(env, w0, lane, inst)
    ensures LaneLoop(env, w, k, inst).Some? ==> After(env, w0, LANES, inst, LaneLoop(env, w, k, inst).value)
    decreases LANES - k
  {
    if k < LANES {
      TurnIsSimultaneous(env, w0, k, inst, w);
      hide After, LaneOk, LaneTurn, Independent;
      if LaneOk(env, w0, k, inst) {
        LoopIsSimultaneous(env, w0, k + 1, inst, LaneTurn(env, w, k, inst).value);
      }
    }
  }

  // Every vector instruction's in-place 64-lane loop is one map over the state before it: it
  // succeeds exactly when no live lane faults on that state, live lanes get what they computed
  // from it, dead lanes keep their registers and lose their predicate bit.
  lemma LaneLoopIsSimultaneous(env: Env, w: Wave, inst: Inst)
    requires IsVector(inst) && Independent(inst)
    ensures LaneLoop(env, w, 0, inst).Some? <==> forall lane: Lane :: LaneOk(env, w, lane, inst)
    ensures LaneLoop(env, w, 0, inst).Some? ==> After(env, w, LANES, inst, LaneLoop(env, w, 0, inst).value)
  {
    assert w.exports == w.exports + Records(env, w, 0, inst);
    LoopIsSimultaneous(env, w, 0, inst, w);
  }
}
