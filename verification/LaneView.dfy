// One lane's view of a wave, and how each instruction changes it: a live lane steps exactly as
// it would alone, a dead lane does not move.

module LaneView {
  import opened Words
  import opened Bits
  import opened Isa
  import opened Wavefront
  import opened LaneLoops
  import opened WalkTrace

  // The exports one lane captured, in order.
  function Mine(es: seq<ExportRecord>, lane: nat): seq<ExportRecord> {
    if |es| == 0 then []
    else Mine(es[..|es| - 1], lane) + if es[|es| - 1].lane == lane then [es[|es| - 1]] else []
  }

  lemma {:induction false} MineConcat(a: seq<ExportRecord>, b: seq<ExportRecord>, lane: nat)
    ensures Mine(a + b, lane) == Mine(a, lane) + Mine(b, lane)
    decreases |b|
  {
    if |b| == 0 {
      assert a + b == a;
    } else {
      assert (a + b)[..|a + b| - 1] == a + b[..|b| - 1];
      MineConcat(a, b[..|b| - 1], lane);
    }
  }

  lemma {:induction false} MineAll(a: seq<ExportRecord>, lane: nat, owner: nat)
    requires forall i :: 0 <= i < |a| ==> a[i].lane == owner
    ensures Mine(a, lane) == if lane == owner then a else []
    decreases |a|
  {
    if |a| > 0 {
      MineAll(a[..|a| - 1], lane, owner);
    }
  }

  // `masks` lists the SGPR pairs that hold per-lane predicates.
  predicate Covered(masks: set<nat>, r: nat) {
    r in masks || (r > 0 && r - 1 in masks)
  }

  ghost predicate PairsApart(masks: set<nat>) {
    forall n :: n in masks ==> n + 1 < NUM_SGPRS && n + 1 !in masks
  }

  // Both halves of the pair at `n` are ordinary data.
  predicate PlainPair(masks: set<nat>, n: nat) {
    !Covered(masks, n) && !Covered(masks, n + 1)
  }

  predicate PredicateOperand(masks: set<nat>, op: Operand) {
    IsVcc(op) || (op.Sgpr? && (op.n in masks || PlainPair(masks, op.n)))
  }

  // A 64-bit move of a predicate into VCC or a mask pair, or of data between plain pairs.
  predicate PairMoveOk(masks: set<nat>, sdst: Operand, ssrc0: Operand) {
    || (sdst.Sgpr? && PlainPair(masks, sdst.n) && ssrc0.Sgpr? && PlainPair(masks, ssrc0.n))
    || ((sdst == Special(VccLo) || (sdst.Sgpr? && sdst.n in masks))
        && (ssrc0 == Special(VccLo) || ssrc0 == Special(ExecLo)
            || (ssrc0.Sgpr? && (ssrc0.n in masks || PlainPair(masks, ssrc0.n)))))
  }

  // The instruction treats masks as masks: no lane reads another lane's bit as data.
  ghost predicate LaneLocal(masks: set<nat>, inst: Inst) {
    && (forall op :: op in DataOps(inst) ==>
          && !IsVcc(op) && op != Special(ExecLo) && op != Special(ExecHi)
          && (op.Sgpr? ==> !Covered(masks, op.n)))
    && (forall r: nat :: ReadsFixed(inst, r) ==> !Covered(masks, r))
    && (PredSrc(inst).Some? ==> PredicateOperand(masks, PredSrc(inst).value))
    && (BitDst(inst).Some? && BitDst(inst).value.Sgpr? ==> BitDst(inst).value.n in masks)
    && (inst.Sop1? && inst.op == S_MOV_B32 && inst.sdst.Sgpr? ==> !Covered(masks, inst.sdst.n))
    && (inst.Sop1? && inst.op in {S_MOV_B64, S_WQM_B64} ==> PairMoveOk(masks, inst.sdst, inst.ssrc0))
    && (inst.Smrd? && inst.sdst.Sgpr? && SmrdCount(inst.op).Some? ==>
          forall r: nat :: InSpan(r, inst.sdst.n, SmrdCount(inst.op).value) ==> !Covered(masks, r))
    && !WritesExec(inst)
  }

  predicate PairBit(s: SFile, n: nat, lane: Lane)
    requires n + 1 < NUM_SGPRS
  {
    Bit(s[PairReg(n, lane)], lane % 32)
  }

  ghost predicate OnlyLane(l: Wave, lane: Lane) {
    forall k: Lane :: Bit(l.exec, k) == (k == lane)
  }

  ghost predicate SameScalars(masks: set<nat>, w: Wave, l: Wave, lane: Lane)
    requires PairsApart(masks)
  {
    && w.scc == l.scc && w.m0 == l.m0
    && (forall r: nat :: r < NUM_SGPRS && !Covered(masks, r) ==> w.sgprs[r] == l.sgprs[r])
    && (forall n :: n in masks ==> PairBit(w.sgprs, n, lane) == PairBit(l.sgprs, n, lane))
    && Bit(w.vcc, lane) == Bit(l.vcc, lane)
  }

  // `l` is a wave running `lane` alone, and `w` shows that lane the same registers, the same
  // predicate bits and the same exports.
  ghost predicate Rel(masks: set<nat>, w: Wave, l: Wave, lane: Lane)
    requires PairsApart(masks)
  {
    && OnlyLane(l, lane)
    && SameColumn(w, l, lane)
    && SameScalars(masks, w, l, lane)
    && l.exports == Mine(w.exports, lane)
  }

  // ---- vector instructions ------------------------------------------------------------

  lemma LocalIsIndependent(masks: set<nat>, inst: Inst)
    requires IsVector(inst) && LaneLocal(masks, inst)
    ensures Independent(inst)
  {
  }

  lemma PredicateAgrees(masks: set<nat>, w: Wave, l: Wave, lane: Lane, src: Operand)
    requires PairsApart(masks) && SameScalars(masks, w, l, lane) && PredicateOperand(masks, src)
    ensures ReadPredicate(w, src, lane) == ReadPredicate(l, src, lane)
  {
    if src.Sgpr? && src.n in masks {
      assert PairBit(w.sgprs, src.n, lane) == PairBit(l.sgprs, src.n, lane);
    }
  }

  lemma LaneInputs(masks: set<nat>, w: Wave, l: Wave, lane: Lane, inst: Inst)
    requires PairsApart(masks) && Rel(masks, w, l, lane) && LaneLocal(masks, inst)
    ensures SameInputs(w, l, lane, inst)
  {
    if PredSrc(inst).Some? {
      PredicateAgrees(masks, w, l, lane, PredSrc(inst).value);
    }
  }

  lemma RecordsAreOwn(env: Env, w: Wave, lane: Lane, inst: Inst)
    requires IsVector(inst)
    ensures forall i :: 0 <= i < |EffectOf(env, w, lane, inst).records| ==>
      EffectOf(env, w, lane, inst).records[i].lane == lane
  {
    hide Vop2Effect, Vop3Effect, MubufEffect, MimgEffect, EvalVop2, EvalVop3;
    var e := LaneEffect(env, w, lane, inst);
    if e.Some? {
      match inst
      case Vop2(_, _, _, _, _) => Vop2NoRecords(env, w, lane, inst);
      case Vop3(_, _, _, _, _, _, _, _, _) => Vop3NoRecords(env, w, lane, inst);
      case Mubuf(_, _, _, _, _, _, _, _) => MemNoRecords(env, w, lane, inst);
      case Mimg(_, _, _, _, _, _, _) => MemNoRecords(env, w, lane, inst);
      case _ =>
    }
  }

  lemma Vop2NoRecords(env: Env, w: Wave, lane: Lane, inst: Inst)
    requires inst.Vop2?
    ensures Vop2Effect(env, w, lane, inst).Some? ==> Vop2Effect(env, w, lane, inst).value.records == []
  {
    hide EvalVop2;
  }

  lemma Vop3NoRecords(env: Env, w: Wave, lane: Lane, inst: Inst)
    requires inst.Vop3?
    ensures Vop3Effect(env, w, lane, inst).Some? ==> Vop3Effect(env, w, lane, inst).value.records == []
  {
    hide EvalVop3;
  }

  lemma MemNoRecords(env: Env, w: Wave, lane: Lane, inst: Inst)
    requires inst.Mubuf? || inst.Mimg?
    ensures var e := LaneEffect(env, w, lane, inst); e.Some? ==> e.value.records == []
  {
  }

  // Of the exports of a whole lane loop, a lane owns exactly its own.
  lemma {:induction false} MineOfRecords(env: Env, w: Wave, k: nat, inst: Inst, lane: Lane)
    requires IsVector(inst) && k <= LANES
    ensures Mine(Records(env, w, k, inst), lane) == if lane < k then EffectOf(env, w, lane, inst).records else []
  {
    hide EffectOf, Mine;
    if k == 0 {
      MineAll([], lane, lane);
    } else {
      MineOfRecords(env, w, k - 1, inst, lane);
      RecordsAreOwn(env, w, k - 1, inst);
      MineAppend(Records(env, w, k - 1, inst), EffectOf(env, w, k - 1, inst).records, k - 1, lane);
    }
  }

  lemma MineAppend(before: seq<ExportRecord>, own: seq<ExportRecord>, owner: nat, lane: nat)
    requires forall i :: 0 <= i < |own| ==> own[i].lane == owner
    ensures lane != owner ==> Mine(before + own, lane) == Mine(before, lane)
    ensures lane == owner && Mine(before, lane) == [] ==> Mine(before + own, lane) == own
  {
    hide Mine;
    MineConcat(before, own, lane);
    MineAll(own, lane, owner);
    assert Mine(before, lane) + [] == Mine(before, lane) && [] + own == own;
  }

  // What the loop leaves in one lane's view, when that lane is live.
  lemma AloneLoopRuns(env: Env, w: Wave, l: Wave, lane: Lane, inst: Inst)
    requires IsVector(inst) && OnlyLane(l, lane) && LaneLive(w, lane)
    requires LaneEffect(env, w, lane, inst) == LaneEffect(env, l, lane, inst)
    requires forall k: Lane :: LaneOk(env, w, k, inst)
    ensures forall k: Lane :: LaneOk(env, l, k, inst)
    ensures forall k: Lane :: EffectOf(env, l, k, inst) == if k == lane then EffectOf(env, w, lane, inst) else Effect(0, [], false, [])
  {
    hide LaneEffect;
    forall k: Lane
      ensures LaneOk(env, l, k, inst)
    {
      assert LaneOk(env, w, k, inst) && LaneOk(env, w, lane, inst);
    }
  }

  lemma MasksAgree(masks: set<nat>, env: Env, w: Wave, l: Wave, w': Wave, l': Wave, lane: Lane, inst: Inst)
    requires IsVector(inst) && PairsApart(masks) && SameScalars(masks, w, l, lane) && LaneLocal(masks, inst)
    requires After(env, w, LANES, inst, w') && After(env, l, LANES, inst, l')
    requires EffectOf(env, w, lane, inst).bit == EffectOf(env, l, lane, inst).bit
    ensures SameScalars(masks, w', l', lane)
  {
    hide EffectOf, Records, ColumnsAfter, DataOps, ReadsFixed;
    var dst := BitDst(inst);
    if dst.Some? && dst.value.Sgpr? {
      PairAgrees(masks, env, w, l, w', l', lane, inst);
    }
  }

  lemma PairAgrees(masks: set<nat>, env: Env, w: Wave, l: Wave, w': Wave, l': Wave, lane: Lane, inst: Inst)
    requires IsVector(inst) && PairsApart(masks) && SameScalars(masks, w, l, lane)
    requires BitDst(inst).Some? && BitDst(inst).value.Sgpr? && BitDst(inst).value.n in masks
    requires PairAfter(env, w, LANES, inst, w', BitDst(inst).value.n)
    requires PairAfter(env, l, LANES, inst, l', BitDst(inst).value.n)
    requires EffectOf(env, w, lane, inst).bit == EffectOf(env, l, lane, inst).bit
    ensures forall r: nat :: r < NUM_SGPRS && !Covered(masks, r) ==> w'.sgprs[r] == l'.sgprs[r]
    ensures forall n :: n in masks ==> PairBit(w'.sgprs, n, lane) == PairBit(l'.sgprs, n, lane)
  {
    hide EffectOf;
    var d: nat := BitDst(inst).value.n;
    forall n | n in masks
      ensures PairBit(w'.sgprs, n, lane) == PairBit(l'.sgprs, n, lane)
    {
      assert PairBit(w.sgprs, n, lane) == PairBit(l.sgprs, n, lane);
      if n == d {
        assert PairReg(d, lane) < NUM_SGPRS;
      } else {
        assert n != d + 1 && n + 1 != d;
        assert w'.sgprs[PairReg(n, lane)] == w.sgprs[PairReg(n, lane)];
        assert l'.sgprs[PairReg(n, lane)] == l.sgprs[PairReg(n, lane)];
      }
    }
  }

  lemma ColumnsAgree(env: Env, w: Wave, l: Wave, w': Wave, l': Wave, lane: Lane, inst: Inst)
    requires IsVector(inst) && SameColumn(w, l, lane)
    requires ColumnsAfter(env, w, LANES, inst, w') && ColumnsAfter(env, l, LANES, inst, l')
    requires EffectOf(env, w, lane, inst) == EffectOf(env, l, lane, inst)
    ensures SameColumn(w', l', lane)
  {
    hide EffectOf;
    forall r: nat | r < NUM_VGPRS
      ensures Word(w', r, lane) == Word(l', r, lane)
    {
      assert Word(w, r, lane) == Word(l, r, lane);
    }
  }

  lemma ExportsAgree(env: Env, w: Wave, l: Wave, w': Wave, l': Wave, lane: Lane, inst: Inst)
    requires IsVector(inst) && l.exports == Mine(w.exports, lane)
    requires w'.exports == w.exports + Records(env, w, LANES, inst)
    requires l'.exports == l.exports + Records(env, l, LANES, inst)
    requires forall k: Lane :: EffectOf(env, l, k, inst).records == if k == lane then EffectOf(env, w, lane, inst).records else []
    ensures l'.exports == Mine(w'.exports, lane)
  {
    hide EffectOf;
    MineOfRecords(env, w, LANES, inst, lane);
    MineConcat(w.exports, Records(env, w, LANES, inst), lane);
    AloneRecords(env, l, LANES, inst, lane);
  }

  lemma {:induction false} AloneRecords(env: Env, l: Wave, k: nat, inst: Inst, lane: Lane)
    requires IsVector(inst) && k <= LANES
    requires forall j: Lane :: j != lane ==> EffectOf(env, l, j, inst).records == []
    ensures Records(env, l, k, inst) == if lane < k then EffectOf(env, l, lane, inst).records else []
  {
    hide EffectOf;
    if k > 0 {
      AloneRecords(env, l, k - 1, inst, lane);
    }
  }

  // A live lane of a vector instruction steps as it would alone.
  lemma VectorStep(masks: set<nat>, env: Env, w: Wave, l: Wave, lane: Lane, inst: Inst)
    requires IsVector(inst) && PairsApart(masks) && Rel(masks, w, l, lane) && LaneLocal(masks, inst)
    requires LaneLive(w, lane) && LaneLoop(env, w, 0, inst).Some?
    ensures LaneLoop(env, l, 0, inst).Some?
    ensures Rel(masks, LaneLoop(env, w, 0, inst).value, LaneLoop(env, l, 0, inst).value, lane)
  {
    hide LaneEffect, LaneLoop, LaneLocal, EffectOf, ColumnsAfter, MasksAfter, SameColumn, SameScalars, Records;
    LocalIsIndependent(masks, inst);
    LaneInputs(masks, w, l, lane, inst);
    SameEffect(env, w, l, lane, inst);
    LaneLoopIsSimultaneous(env, w, inst);
    LaneLoopIsSimultaneous(env, l, inst);
    AloneLoopRuns(env, w, l, lane, inst);
    var w', l' := LaneLoop(env, w, 0, inst).value, LaneLoop(env, l, 0, inst).value;
    MasksAgree(masks, env, w, l, w', l', lane, inst);
    ColumnsAgree(env, w, l, w', l', lane, inst);
    ExportsAgree(env, w, l, w', l', lane, inst);
  }

  // ---- scalar instructions --------------------------------------------------------------

  lemma SplitPair(v: u64, lane: Lane)
    ensures Bit(v, lane) == if lane < 32 then Bit(v % TWO32, lane) else Bit(v / TWO32, lane - 32)
  {
    BitOfPair(v % TWO32, v / TWO32, lane);
    assert v == v % TWO32 + TWO32 * (v / TWO32);
  }

  // A step that touches only scalars keeps the lane's view if it keeps the scalars alike.
  lemma ScalarsStep(masks: set<nat>, w: Wave, l: Wave, w': Wave, l': Wave, lane: Lane)
    requires PairsApart(masks) && Rel(masks, w, l, lane) && SameScalars(masks, w', l', lane)
    requires w'.vgprs == w.vgprs && w'.exports == w.exports
    requires l'.vgprs == l.vgprs && l'.exports == l.exports && l'.exec == l.exec
    ensures Rel(masks, w', l', lane)
  {
    hide SameScalars;
    forall r: nat | r < NUM_VGPRS
      ensures Word(w', r, lane) == Word(l', r, lane)
    {
      assert Word(w, r, lane) == Word(l, r, lane);
    }
  }

  lemma VccHalves(w: Wave, l: Wave, v: u32, lane: Lane)
    requires Bit(w.vcc, lane) == Bit(l.vcc, lane)
    ensures Bit(w.vcc / TWO32 * TWO32 + v, lane) == Bit(l.vcc / TWO32 * TWO32 + v, lane)
    ensures Bit(w.vcc % TWO32 + v * TWO32, lane) == Bit(l.vcc % TWO32 + v * TWO32, lane)
  {
    SplitPair(w.vcc, lane);
    SplitPair(l.vcc, lane);
    BitOfPair(v, w.vcc / TWO32, lane);
    BitOfPair(v, l.vcc / TWO32, lane);
    BitOfPair(w.vcc % TWO32, v, lane);
    BitOfPair(l.vcc % TWO32, v, lane);
  }

  lemma ScalarWrite(masks: set<nat>, w: Wave, l: Wave, lane: Lane, dst: Operand, v: u32)
    requires PairsApart(masks) && SameScalars(masks, w, l, lane) && WriteScalar(w, dst, v).Some?
    requires dst.Sgpr? ==> !Covered(masks, dst.n)
    ensures WriteScalar(l, dst, v).Some? && SameScalars(masks, WriteScalar(w, dst, v).value, WriteScalar(l, dst, v).value, lane)
  {
    hide Bit;
    VccHalves(w, l, v, lane);
    if dst.Sgpr? {
      PlainWrite(masks, w.sgprs, l.sgprs, lane, dst.n, [v]);
      OneWord(w.sgprs, dst.n, v);
      OneWord(l.sgprs, dst.n, v);
    }
  }

  lemma MoveStep(masks: set<nat>, w: Wave, l: Wave, lane: Lane, inst: Inst)
    requires inst.Sop1? && inst.op == S_MOV_B32
    requires PairsApart(masks) && Rel(masks, w, l, lane) && LaneLocal(masks, inst) && ExecSop1(w, inst).Some?
    ensures ExecSop1(l, inst).Some? && Rel(masks, ExecSop1(w, inst).value, ExecSop1(l, inst).value, lane)
  {
    hide SameColumn, Mine, SameScalars, ReadScalar, ReadsFixed;
    LaneInputs(masks, w, l, lane, inst);
    assert ReadScalar(w, inst.ssrc0) == ReadScalar(l, inst.ssrc0);
    ScalarWrite(masks, w, l, lane, inst.sdst, ReadScalar(w, inst.ssrc0).value);
    ScalarsStep(masks, w, l, ExecSop1(w, inst).value, ExecSop1(l, inst).value, lane);
  }

  lemma OneWord(s: SFile, n: nat, v: u32)
    requires n < NUM_SGPRS
    ensures WriteSgprs(s, n, [v]) == s[n := v]
  {
  }

  ghost predicate SameSgprs(masks: set<nat>, s: SFile, t: SFile, lane: Lane)
    requires PairsApart(masks)
  {
    && (forall r: nat :: r < NUM_SGPRS && !Covered(masks, r) ==> s[r] == t[r])
    && (forall n :: n in masks ==> PairBit(s, n, lane) == PairBit(t, n, lane))
  }

  lemma WriteSgprsAt(s: SFile, base: nat, words: seq<u32>, r: nat)
    requires base + |words| <= NUM_SGPRS && r < NUM_SGPRS
    ensures WriteSgprs(s, base, words)[r] == if base <= r < base + |words| then words[r - base] else s[r]
  {
  }

  // Writing the same words over plain registers keeps the lane's view of the file.
  lemma PlainWrite(masks: set<nat>, s: SFile, t: SFile, lane: Lane, base: nat, words: seq<u32>)
    requires PairsApart(masks) && SameSgprs(masks, s, t, lane) && base + |words| <= NUM_SGPRS
    requires forall r: nat :: InSpan(r, base, |words|) ==> !Covered(masks, r)
    ensures SameSgprs(masks, WriteSgprs(s, base, words), WriteSgprs(t, base, words), lane)
  {
    hide WriteSgprs;
    forall r: nat | r < NUM_SGPRS && !Covered(masks, r)
      ensures WriteSgprs(s, base, words)[r] == WriteSgprs(t, base, words)[r]
    {
      WriteSgprsAt(s, base, words, r);
      WriteSgprsAt(t, base, words, r);
    }
    forall n | n in masks
      ensures PairBit(WriteSgprs(s, base, words), n, lane) == PairBit(WriteSgprs(t, base, words), n, lane)
    {
      var r := PairReg(n, lane);
      assert PairBit(s, n, lane) == PairBit(t, n, lane);
      assert Covered(masks, r) && !InSpan(r, base, |words|);
      WriteSgprsAt(s, base, words, r);
      WriteSgprsAt(t, base, words, r);
    }
  }

  lemma SmrdStep(masks: set<nat>, env: Env, w: Wave, l: Wave, lane: Lane, inst: Inst)
    requires inst.Smrd?
    requires PairsApart(masks) && Rel(masks, w, l, lane) && LaneLocal(masks, inst) && ExecSmrd(env, w, inst).Some?
    ensures ExecSmrd(env, l, inst).Some? && Rel(masks, ExecSmrd(env, w, inst).value, ExecSmrd(env, l, inst).value, lane)
  {
    hide SmrdAddr, WriteSgprs, SameColumn, Mine;
    LaneInputs(masks, w, l, lane, inst);
    SameSmrdAddr(w, l, inst);
    var words := SmrdWords(env, w, inst).value;
    assert SmrdWords(env, l, inst) == SmrdWords(env, w, inst);
    PlainWrite(masks, w.sgprs, l.sgprs, lane, inst.sdst.n, words);
    ScalarsStep(masks, w, l, ExecSmrd(env, w, inst).value, ExecSmrd(env, l, inst).value, lane);
  }

  lemma SameSmrdAddr(w: Wave, l: Wave, inst: Inst)
    requires inst.Smrd? && SameFixed(w, l, inst)
    ensures SmrdAddr(w, inst) == SmrdAddr(l, inst)
  {
    if IsBufferLoad(inst.op) {
      SameVSharp(w, l, inst, inst.sbase);
    } else if inst.sbase + 1 < NUM_SGPRS {
      assert ReadsFixed(inst, inst.sbase) && ReadsFixed(inst, inst.sbase + 1);
    }
    assert !inst.imm ==> ReadsFixed(inst, inst.offset);
  }

  // A 64-bit source shows the lane the same bit, and a plain pair the same value.
  lemma PairSource(masks: set<nat>, w: Wave, l: Wave, lane: Lane, src: Operand)
    requires PairsApart(masks) && Rel(masks, w, l, lane) && LaneLive(w, lane) && ReadScalarPair(w, src).Some?
    requires src == Special(VccLo) || src == Special(ExecLo) || (src.Sgpr? && (src.n in masks || PlainPair(masks, src.n)))
    ensures ReadScalarPair(l, src).Some?
    ensures Bit(ReadScalarPair(w, src).value, lane) == Bit(ReadScalarPair(l, src).value, lane)
    ensures src.Sgpr? && PlainPair(masks, src.n) ==> ReadScalarPair(w, src) == ReadScalarPair(l, src)
  {
    hide Bit, SameColumn, Mine;
    if src.Sgpr? {
      BitOfPair(w.sgprs[src.n], w.sgprs[src.n + 1], lane);
      BitOfPair(l.sgprs[src.n], l.sgprs[src.n + 1], lane);
      assert src.n in masks ==> PairBit(w.sgprs, src.n, lane) == PairBit(l.sgprs, src.n, lane);
    }
  }

  lemma PairMoveStep(masks: set<nat>, w: Wave, l: Wave, lane: Lane, inst: Inst)
    requires inst.Sop1? && inst.op in {S_MOV_B64, S_WQM_B64}
    requires PairsApart(masks) && Rel(masks, w, l, lane) && LaneLocal(masks, inst)
    requires LaneLive(w, lane) && ExecSop1(w, inst).Some?
    ensures ExecSop1(l, inst).Some? && Rel(masks, ExecSop1(w, inst).value, ExecSop1(l, inst).value, lane)
  {
    hide SameColumn, Mine, LaneLocal, PairBit, Bit, ReadScalarPair;
    PairMoveIsLocal(masks, inst);
    PairSource(masks, w, l, lane, inst.ssrc0);
    var v, v' := ReadScalarPair(w, inst.ssrc0).value, ReadScalarPair(l, inst.ssrc0).value;
    SgprsAgree(masks, w, l, lane);
    if inst.sdst.Sgpr? {
      PairWrite(masks, w.sgprs, l.sgprs, lane, inst.sdst.n, v, v');
      assert ExecSop1(w, inst).value.sgprs == StorePair(w.sgprs, inst.sdst.n, v);
      assert ExecSop1(l, inst).value.sgprs == StorePair(l.sgprs, inst.sdst.n, v');
    }
    ScalarsStep(masks, w, l, ExecSop1(w, inst).value, ExecSop1(l, inst).value, lane);
  }

  lemma PairMoveIsLocal(masks: set<nat>, inst: Inst)
    requires inst.Sop1? && inst.op in {S_MOV_B64, S_WQM_B64} && LaneLocal(masks, inst)
    ensures PairMoveOk(masks, inst.sdst, inst.ssrc0)
  {
    hide DataOps, ReadsFixed;
  }

  lemma SgprsAgree(masks: set<nat>, w: Wave, l: Wave, lane: Lane)
    requires PairsApart(masks) && Rel(masks, w, l, lane)
    ensures SameSgprs(masks, w.sgprs, l.sgprs, lane)
  {
    hide Bit, SameColumn, Mine;
  }

  function StorePair(s: SFile, d: nat, v: u64): SFile
    requires d + 1 < NUM_SGPRS
  {
    s[d := v % TWO32][d + 1 := v / TWO32]
  }

  lemma StorePairBits(s: SFile, d: nat, v: u64, lane: Lane)
    requires d + 1 < NUM_SGPRS
    ensures PairBit(StorePair(s, d, v), d, lane) == Bit(v, lane)
    ensures forall r: nat :: r < NUM_SGPRS && r != d && r != d + 1 ==> StorePair(s, d, v)[r] == s[r]
  {
    SplitPair(v, lane);
  }

  // A pair whose two registers did not change keeps its bit.
  lemma PairUntouched(s: SFile, s': SFile, n: nat, lane: Lane)
    requires n + 1 < NUM_SGPRS && s'[n] == s[n] && s'[n + 1] == s[n + 1]
    ensures PairBit(s', n, lane) == PairBit(s, n, lane)
  {
    hide Bit;
    var r := PairReg(n, lane);
    assert r == n || r == n + 1;
  }

  lemma MaskPairWrite(masks: set<nat>, s: SFile, t: SFile, s': SFile, t': SFile, lane: Lane, d: nat)
    requires PairsApart(masks) && SameSgprs(masks, s, t, lane) && d in masks
    requires PairBit(s', d, lane) == PairBit(t', d, lane)
    requires forall r: nat :: r < NUM_SGPRS && r != d && r != d + 1 ==> s'[r] == s[r] && t'[r] == t[r]
    ensures SameSgprs(masks, s', t', lane)
  {
    hide PairBit;
    forall n | n in masks
      ensures PairBit(s', n, lane) == PairBit(t', n, lane)
    {
      if n != d {
        PairUntouched(s, s', n, lane);
        PairUntouched(t, t', n, lane);
      }
    }
  }

  lemma PairWrite(masks: set<nat>, s: SFile, t: SFile, lane: Lane, d: nat, v: u64, v': u64)
    requires PairsApart(masks) && SameSgprs(masks, s, t, lane) && d + 1 < NUM_SGPRS
    requires Bit(v, lane) == Bit(v', lane)
    requires d in masks || (PlainPair(masks, d) && v == v')
    ensures SameSgprs(masks, StorePair(s, d, v), StorePair(t, d, v'), lane)
  {
    hide Bit, StorePair, SameSgprs, WriteSgprs, PairBit;
    if d in masks {
      StorePairBits(s, d, v, lane);
      StorePairBits(t, d, v', lane);
      MaskPairWrite(masks, s, t, StorePair(s, d, v), StorePair(t, d, v'), lane, d);
    } else {
      PlainWrite(masks, s, t, lane, d, [v % TWO32, v / TWO32]);
      TwoWords(s, d, v);
      TwoWords(t, d, v);
    }
  }

  lemma TwoWords(s: SFile, d: nat, v: u64)
    requires d + 1 < NUM_SGPRS
    ensures WriteSgprs(s, d, [v % TWO32, v / TWO32]) == StorePair(s, d, v)
  {
  }

  // One instruction, one live lane: the wave's step and the lane's own step agree.
  lemma StepProjects(masks: set<nat>, env: Env, w: Wave, l: Wave, lane: Lane, inst: Inst)
    requires PairsApart(masks) && Rel(masks, w, l, lane) && LaneLocal(masks, inst)
    requires LaneLive(w, lane) && ExecOne(env, w, inst).Some?
    ensures ExecOne(env, l, inst).Some?
    ensures Rel(masks, ExecOne(env, w, inst).value, ExecOne(env, l, inst).value, lane)
    ensures ExecOne(env, w, inst).value.exec == w.exec
  {
    hide LaneLoop, LaneLocal, Rel, Precheck, ExecSop1, ExecSmrd;
    NoExec(masks, inst);
    StepKeepsExec(env, w, inst);
    if inst.Smrd? {
      SmrdStep(masks, env, w, l, lane, inst);
    } else if IsVector(inst) {
      LaneInputs(masks, w, l, lane, inst);
      SamePrecheck(w, l, lane, inst);
      VectorStep(masks, env, w, l, lane, inst);
    } else {
      Sop1Step(masks, w, l, lane, inst);
    }
  }

  lemma NoExec(masks: set<nat>, inst: Inst)
    requires LaneLocal(masks, inst)
    ensures !WritesExec(inst)
  {
  }

  lemma Sop1Step(masks: set<nat>, w: Wave, l: Wave, lane: Lane, inst: Inst)
    requires inst.Sop1? && PairsApart(masks) && Rel(masks, w, l, lane) && LaneLocal(masks, inst)
    requires LaneLive(w, lane) && ExecSop1(w, inst).Some?
    ensures ExecSop1(l, inst).Some? && Rel(masks, ExecSop1(w, inst).value, ExecSop1(l, inst).value, lane)
  {
    hide LaneLocal, Rel;
    if inst.op == S_MOV_B32 {
      MoveStep(masks, w, l, lane, inst);
    } else {
      PairMoveStep(masks, w, l, lane, inst);
    }
  }

  // ---- dead lanes --------------------------------------------------------------------------

  // An instruction of a divergent arm writes only vector registers and exports.
  predicate VectorOnly(inst: Inst) { IsVector(inst) && BitDst(inst).None? }

  // An instruction of a loop body writes only vector registers, exports and VCC.
  predicate VectorOrVcc(inst: Inst) {
    IsVector(inst) && (BitDst(inst).Some? ==> IsVcc(BitDst(inst).value))
  }

  // A lane that is not executing keeps its view, if its VCC bit is clear or is not written.
  lemma DeadStep(masks: set<nat>, env: Env, w: Wave, l: Wave, lane: Lane, inst: Inst)
    requires PairsApart(masks) && Rel(masks, w, l, lane) && LaneLocal(masks, inst)
    requires VectorOrVcc(inst) && (VectorOnly(inst) || !Bit(w.vcc, lane))
    requires !LaneLive(w, lane) && ExecOne(env, w, inst).Some?
    ensures Rel(masks, ExecOne(env, w, inst).value, l, lane)
    ensures ExecOne(env, w, inst).value.exec == w.exec
  {
    hide LaneEffect, LaneLoop, LaneLocal, Records, Precheck, SameScalars, EffectOf, Independent;
    LocalIsIndependent(masks, inst);
    LaneLoopIsSimultaneous(env, w, inst);
    var w' := LaneLoop(env, w, 0, inst).value;
    DeadColumn(env, w, w', lane, inst);
    DeadScalars(masks, env, w, l, w', lane, inst);
    DeadExports(env, w, w', lane, inst);
    hide ColumnsAfter, MasksAfter, IsVector, VectorOnly, VectorOrVcc, Mine;
    forall r: nat | r < NUM_VGPRS
      ensures Word(w', r, lane) == Word(l, r, lane)
    {
      assert Word(w, r, lane) == Word(l, r, lane);
    }
  }

  lemma DeadColumn(env: Env, w: Wave, w': Wave, lane: Lane, inst: Inst)
    requires IsVector(inst) && !LaneLive(w, lane) && ColumnsAfter(env, w, LANES, inst, w')
    ensures forall r: nat :: r < NUM_VGPRS ==> Word(w', r, lane) == Word(w, r, lane)
  {
    hide LaneEffect;
  }

  lemma DeadScalars(masks: set<nat>, env: Env, w: Wave, l: Wave, w': Wave, lane: Lane, inst: Inst)
    requires PairsApart(masks) && SameScalars(masks, w, l, lane)
    requires VectorOrVcc(inst) && (VectorOnly(inst) || !Bit(w.vcc, lane))
    requires !LaneLive(w, lane) && MasksAfter(env, w, LANES, inst, w') && w'.scc == w.scc && w'.m0 == w.m0
    ensures SameScalars(masks, w', l, lane)
  {
    hide LaneEffect;
  }

  lemma DeadExports(env: Env, w: Wave, w': Wave, lane: Lane, inst: Inst)
    requires IsVector(inst) && !LaneLive(w, lane) && w'.exports == w.exports + Records(env, w, LANES, inst)
    ensures Mine(w'.exports, lane) == Mine(w.exports, lane)
  {
    hide LaneEffect, Records;
    MineOfRecords(env, w, LANES, inst, lane);
    MineConcat(w.exports, Records(env, w, LANES, inst), lane);
  }
}
