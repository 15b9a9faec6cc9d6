// Exactly when one instruction executes and when it is reported as an error, said on the opcode, the
// operands and the memory behind them.

module Faults {
  import opened Words
  import opened Bits
  import opened Isa
  import opened Wavefront
  import opened LaneLoops
  import opened LaneTurns
  import opened Operands
  import opened MemoryMeaning

  // A source every lane can read.
  predicate Readable(op: Operand) { !op.Raw? && (op.Sgpr? ==> op.n < 104) }

  predicate Filled(o: Option<Operand>) { o.Some? ==> Readable(o.value) }

  predicate ScalarDst(op: Operand) {
    (op.Sgpr? && op.n < 104) || op in {Special(M0), Special(VccLo), Special(VccHi)}
  }

  predicate Long(op: Operand) {
    (op.Sgpr? && op.n + 1 < 104) || op in {Special(ExecLo), Special(VccLo)}
  }

  ghost predicate AnyLive(w: Wave) { exists lane: Lane :: LaneLive(w, lane) }

  // `lane` gets the bytes its buffer load asks for.
  ghost predicate Served(env: Env, w: Wave, inst: Inst, lane: Lane)
    requires inst.Mubuf? && inst.srsrc + 3 < 104
  {
    forall q: Ask :: Asks(w, inst, lane, q) ==>
      var n := FetchedWords(inst.op);
      env.load(AskedAddress(w, inst, q), 4 * n).Some? && |env.load(AskedAddress(w, inst, q), 4 * n).value| == 4 * n
  }

  ghost predicate LoadServed(env: Env, w: Wave, inst: Inst)
    requires inst.Smrd?
  {
    forall base: nat :: PointsAt(w, inst, base) ==>
      var off := if inst.imm then 4 * inst.offset else if inst.offset < 104 then w.sgprs[inst.offset] else 0;
      var n := LoadedDwords(inst.op);
      var bytes := env.load((base + off) % 0x1_0000_0000_0000_0000, 4 * n);
      bytes.Some? && |bytes.value| == 4 * n
  }

  // The VOP3 operations beside the compares, which also read a third source unless they pack.
  ghost predicate Vop3Runs(w: Wave, inst: Inst)
    requires inst.Vop3?
  {
    if inst.op in {1, 2, 3, 4, 6} then
      && (inst.vdst in {Special(VccLo), Special(VccHi)} || (inst.vdst.Sgpr? && inst.vdst.n + 1 < 104))
      && (AnyLive(w) ==> Readable(inst.src0) && Readable(inst.src1))
    else
      && inst.op in {0x100, 0x108, 0x11F, 0x12F, 0x141, 0x143, 0x14B, 0x157, 0x1A0}
      && (AnyLive(w) ==> Readable(inst.src0) && Readable(inst.src1) && inst.vdst.Vgpr?)
      && (inst.op == 0x100 ==> forall lane: Lane :: LaneLive(w, lane) ==> exists b :: Selects(w, inst.src2, lane, b))
      && (inst.op != 0x100 && inst.op != 0x12F && AnyLive(w) ==> Readable(inst.src2))
  }

  ghost predicate Runs(env: Env, w: Wave, inst: Inst) {
    match inst
    case Sop1(op, sdst, ssrc0) =>
      if op == 0x03 then Readable(ssrc0) && !ssrc0.Vgpr? && ScalarDst(sdst)
      else op in {0x04, 0x0A} && Long(ssrc0) && Long(sdst)
    case Smrd(op, sdst, sbase, imm, offset) =>
      && op in {0x00, 0x01, 0x02, 0x03, 0x04, 0x08, 0x09, 0x0A, 0x0B, 0x0C}
      && sbase + (if op >= 0x08 then 3 else 1) < 104 && (!imm ==> offset < 104) && LoadServed(env, w, inst)
      && sdst.Sgpr? && sdst.n + LoadedDwords(op) <= 104
    case Vop1(op, vdst, src0) =>
      && op in {0x01, 0x05, 0x06, 0x07, 0x08, 0x0E, 0x20, 0x22, 0x24, 0x2A, 0x33, 0x35}
      && (AnyLive(w) ==> Readable(src0) && vdst.Vgpr?)
    case Vop2(op, vdst, src0, vsrc1, _) =>
      && op in {0x00, 0x03, 0x04, 0x05, 0x08, 0x0F, 0x10, 0x16, 0x1A, 0x1B, 0x1F, 0x20, 0x21, 0x25, 0x2F}
      && (AnyLive(w) ==> Readable(src0) && Readable(vsrc1) && vdst.Vgpr?)
    case Vop3(_, _, _, _, _, _, _, _, _) => Vop3Runs(w, inst)
    case Vopc(op, src0, vsrc1) => op in {1, 2, 3, 4, 6} && (AnyLive(w) ==> Readable(src0) && Readable(vsrc1))
    case Vintrp(op, vdst, vsrc, _, _) => op <= 2 && (AnyLive(w) ==> Readable(vsrc) && vdst.Vgpr?)
    case Mubuf(op, vdata, vaddr, srsrc, soffset, _, idxen, offen) =>
      && op in {0x00, 0x01, 0x02, 0x03, 0x04, 0x0C, 0x1C} && srsrc + 3 < 104 && vdata.Vgpr?
      && Readable(soffset) && !soffset.Vgpr? && (offen ==> vaddr.Vgpr? && vaddr.n + 1 < 256)
      && (AnyLive(w) ==> (idxen ==> Readable(vaddr)) && vdata.n + FetchedWords(op) <= 256)
      && (forall lane: Lane :: LaneLive(w, lane) ==> Served(env, w, inst, lane))
    case Mimg(op, vdata, vaddr, srsrc, ssamp, dmask, unrm) =>
      && op == 0x20 && srsrc + 8 <= 104 && ssamp + 4 <= 104 && vdata.Vgpr? && vaddr.Vgpr?
      && (AnyLive(w) ==> vaddr.n + 1 < 256 && vdata.n + Before(dmask, 4) <= 256)
      && (forall lane: Lane :: LaneLive(w, lane) && vaddr.n + 1 < 256 ==>
            env.sample(w.sgprs[srsrc..srsrc + 8], w.sgprs[ssamp..ssamp + 4],
                       Word(w, vaddr.n, lane), Word(w, vaddr.n + 1, lane), unrm).Some?)
    case Exp(_, e0, e1, e2, e3, _, compr, _) =>
      AnyLive(w) ==> Filled(e0) && Filled(e1) && (!compr ==> Filled(e2) && Filled(e3))
    case _ => false
  }

  lemma ReadableIff(w: Wave, op: Operand, lane: Lane)
    ensures ReadLane(w, op, lane).Some? <==> Readable(op)
  {
  }

  // ---- instructions that write a mask -----------------------------------------------------------

  predicate SourcesRead(inst: Inst) {
    match inst
    case Vopc(_, src0, vsrc1) => Readable(src0) && Readable(vsrc1)
    case Vop2(_, vdst, src0, vsrc1, _) => Readable(src0) && Readable(vsrc1) && vdst.Vgpr?
    case Vop3(_, _, src0, src1, _, _, _, _, _) => Readable(src0) && Readable(src1)
    case _ => false
  }

  lemma MaskEffect(env: Env, v: Wave, lane: Lane, inst: Inst)
    requires IsVector(inst) && BitDst(inst).Some?
    ensures LaneEffect(env, v, lane, inst).Some? <==> SourcesRead(inst)
    ensures SourcesRead(inst) ==> var e := LaneEffect(env, v, lane, inst).value; e.base + |e.words| <= NUM_VGPRS
  {
    match inst
    case Vopc(_, src0, vsrc1) =>
      ReadableIff(v, src0, lane);
      ReadableIff(v, vsrc1, lane);
    case Vop2(_, _, src0, vsrc1, _) =>
      ReadableIff(v, src0, lane);
      ReadableIff(v, vsrc1, lane);
    case Vop3(_, _, src0, src1, _, _, _, _, _) =>
      ReadableIff(v, src0, lane);
      ReadableIff(v, src1, lane);
  }

  predicate MaskOk(v: Wave, inst: Inst, lane: Lane) {
    DstOk(inst, lane) && (LaneLive(v, lane) ==> SourcesRead(inst))
  }

  lemma {:induction false} MaskLoop(env: Env, v: Wave, k: nat, inst: Inst)
    requires IsVector(inst) && BitDst(inst).Some? && k <= LANES
    ensures LaneLoop(env, v, k, inst).Some? <==> forall lane: Lane :: lane >= k ==> MaskOk(v, inst, lane)
    decreases LANES - k
  {
    hide IsVector, LaneTurn, MaskOk;
    if k < LANES {
      var lane0: Lane := k;
      MaskTurn(env, v, lane0, inst);
      if LaneTurn(env, v, lane0, inst).Some? {
        var v' := LaneTurn(env, v, lane0, inst).value;
        TurnFrame(env, v, lane0, inst);
        forall lane: Lane ensures MaskOk(v', inst, lane) == MaskOk(v, inst, lane) { SameOk(v, v', inst, lane); }
        MaskLoop(env, v', k + 1, inst);
      }
    }
  }

  lemma SameOk(v: Wave, v': Wave, inst: Inst, lane: Lane)
    requires v'.exec == v.exec
    ensures MaskOk(v', inst, lane) == MaskOk(v, inst, lane)
  {
  }

  lemma MaskTurn(env: Env, v: Wave, k: Lane, inst: Inst)
    requires IsVector(inst) && BitDst(inst).Some?
    ensures LaneTurn(env, v, k, inst).Some? <==> MaskOk(v, inst, k)
  {
    hide LaneEffect, SourcesRead, IsVector, WriteWords, SetBit, Bit;
    MaskEffect(env, v, k, inst);
  }

  lemma MaskRuns(env: Env, w: Wave, inst: Inst)
    requires IsVector(inst) && BitDst(inst).Some?
    ensures LaneLoop(env, w, 0, inst).Some? <==>
      && (IsVcc(BitDst(inst).value) || (BitDst(inst).value.Sgpr? && BitDst(inst).value.n + 1 < 104))
      && (AnyLive(w) ==> SourcesRead(inst))
  {
    hide LaneEffect, SourcesRead, IsVector, LaneLoop, BitDst;
    MaskLoop(env, w, 0, inst);
    var dst := BitDst(inst).value;
    if dst.Sgpr? {
      assert PairReg(dst.n, 63) == dst.n + 1;
      assert MaskOk(w, inst, 63) ==> dst.n + 1 < 104;
    } else {
      assert MaskOk(w, inst, 0) ==> IsVcc(dst);
    }
    hide LaneLive;
    forall lane: Lane
      ensures MaskOk(w, inst, lane) ==> (LaneLive(w, lane) ==> SourcesRead(inst))
      ensures IsVcc(dst) || (dst.Sgpr? && dst.n + 1 < 104) ==> DstOk(inst, lane)
    {
      if dst.Sgpr? { assert PairReg(dst.n, lane) <= dst.n + 1; }
    }
  }

  // ---- the others -------------------------------------------------------------------------------

  ghost predicate AllOk(env: Env, w: Wave, inst: Inst)
    requires IsVector(inst)
  {
    forall lane: Lane :: LaneLive(w, lane) ==>
      && LaneEffect(env, w, lane, inst).Some?
      && LaneEffect(env, w, lane, inst).value.base + |LaneEffect(env, w, lane, inst).value.words| <= NUM_VGPRS
  }

  lemma PlainRuns(env: Env, w: Wave, inst: Inst)
    requires IsVector(inst) && BitDst(inst).None?
    ensures LaneLoop(env, w, 0, inst).Some? <==> AllOk(env, w, inst)
  {
    hide LaneEffect, IsVector, LaneLoop, BitDst;
    LaneLoopIsSimultaneous(env, w, inst);
    hide LaneLive;
    if AllOk(env, w, inst) {
      forall lane: Lane ensures LaneOk(env, w, lane, inst) {}
    }
    if forall lane: Lane :: LaneOk(env, w, lane, inst) {
      forall lane: Lane | LaneLive(w, lane)
        ensures LaneEffect(env, w, lane, inst).Some?
        ensures LaneEffect(env, w, lane, inst).value.base + |LaneEffect(env, w, lane, inst).value.words| <= NUM_VGPRS
      {
        assert LaneOk(env, w, lane, inst);
      }
    }
  }

  lemma Vop1Runs(env: Env, w: Wave, inst: Inst)
    requires inst.Vop1?
    ensures AllOk(env, w, inst) <==> (AnyLive(w) ==> Readable(inst.src0) && inst.vdst.Vgpr?)
  {
    forall lane: Lane
      ensures LaneEffect(env, w, lane, inst).Some? <==> Readable(inst.src0) && inst.vdst.Vgpr?
    {
      ReadableIff(w, inst.src0, lane);
    }
  }

  lemma Vop2Runs(env: Env, w: Wave, inst: Inst)
    requires inst.Vop2? && BitDst(inst).None?
    ensures AllOk(env, w, inst) <==> (AnyLive(w) ==> Readable(inst.src0) && Readable(inst.vsrc1) && inst.vdst.Vgpr?)
  {
    hide EvalVop2, And, Pack, Bit;
    forall lane: Lane
      ensures LaneEffect(env, w, lane, inst).Some? <==> Readable(inst.src0) && Readable(inst.vsrc1) && inst.vdst.Vgpr?
    {
      ReadableIff(w, inst.src0, lane);
      ReadableIff(w, inst.vsrc1, lane);
    }
  }

  lemma SelectableIff(w: Wave, op: Operand, lane: Lane)
    ensures ReadPredicate(w, op, lane).Some? <==> exists b :: Selects(w, op, lane, b)
  {
    hide Selects, ReadPredicate;
    if ReadPredicate(w, op, lane).Some? { SelectsIff(w, op, lane, ReadPredicate(w, op, lane).value); }
    forall b | Selects(w, op, lane, b) ensures ReadPredicate(w, op, lane).Some? { SelectsIff(w, op, lane, b); }
  }

  // What one lane of a VOP3 operation needs beside the opcode.
  ghost predicate Vop3Lane(w: Wave, inst: Inst, lane: Lane)
    requires inst.Vop3?
  {
    && Readable(inst.src0) && Readable(inst.src1) && inst.vdst.Vgpr?
    && (inst.op == 0x100 ==> exists b :: Selects(w, inst.src2, lane, b))
    && (inst.op != 0x100 && inst.op != 0x12F ==> Readable(inst.src2))
  }

  lemma Vop3LaneIff(env: Env, w: Wave, inst: Inst, lane: Lane)
    requires inst.Vop3? && BitDst(inst).None?
    ensures LaneEffect(env, w, lane, inst).Some? <==> Vop3Lane(w, inst, lane)
    ensures Vop3Lane(w, inst, lane) ==> var e := LaneEffect(env, w, lane, inst).value; e.base + |e.words| <= NUM_VGPRS
  {
    hide EvalVop3, Pack, ApplyMods, ApplyOmod, ApplyClamp, Selects, ReadPredicate;
    ReadableIff(w, inst.src0, lane);
    ReadableIff(w, inst.src1, lane);
    ReadableIff(w, inst.src2, lane);
    SelectableIff(w, inst.src2, lane);
    hide ReadLane, Readable;
    if inst.vdst.Vgpr? { assert ReadLane(w, inst.vdst, lane).Some? by { ReadableIff(w, inst.vdst, lane); Register(inst.vdst); } }
  }

  lemma Register(op: Operand)
    requires op.Vgpr?
    ensures Readable(op)
  {
  }

  lemma Vop3AllOk(env: Env, w: Wave, inst: Inst)
    requires inst.Vop3? && BitDst(inst).None?
    ensures AllOk(env, w, inst) && inst.op in VOP3_OPS <==> Vop3Runs(w, inst)
  {
    hide LaneEffect, Selects, Readable;
    forall lane: Lane
      ensures LaneEffect(env, w, lane, inst).Some? <==> Vop3Lane(w, inst, lane)
      ensures Vop3Lane(w, inst, lane) ==> var e := LaneEffect(env, w, lane, inst).value; e.base + |e.words| <= NUM_VGPRS
    {
      Vop3LaneIff(env, w, inst, lane);
    }
  }

  lemma VintrpRuns(env: Env, w: Wave, inst: Inst)
    requires inst.Vintrp?
    ensures AllOk(env, w, inst) <==> (AnyLive(w) ==> Readable(inst.vsrc) && inst.vdst.Vgpr?)
  {
    hide Interpolate;
    forall lane: Lane
      ensures LaneEffect(env, w, lane, inst).Some? <==> Readable(inst.vsrc) && inst.vdst.Vgpr?
    {
      ReadableIff(w, inst.vsrc, lane);
      ReadableIff(w, inst.vdst, lane);
    }
  }

  lemma ChannelRuns(w: Wave, lane: Lane, src: Option<Operand>)
    ensures Channel(w, lane, src).Some? <==> Filled(src)
  {
    if src.Some? { ReadableIff(w, src.value, lane); }
  }

  lemma ExpRuns(env: Env, w: Wave, inst: Inst)
    requires inst.Exp?
    ensures AllOk(env, w, inst) <==>
      (AnyLive(w) ==> Filled(inst.e0) && Filled(inst.e1) && (!inst.compr ==> Filled(inst.e2) && Filled(inst.e3)))
  {
    forall lane: Lane
      ensures LaneEffect(env, w, lane, inst).Some? <==>
        Filled(inst.e0) && Filled(inst.e1) && (!inst.compr ==> Filled(inst.e2) && Filled(inst.e3))
      ensures LaneEffect(env, w, lane, inst).Some? ==> LaneEffect(env, w, lane, inst).value.words == []
    {
      ChannelRuns(w, lane, inst.e0);
      ChannelRuns(w, lane, inst.e1);
      ChannelRuns(w, lane, inst.e2);
      ChannelRuns(w, lane, inst.e3);
      hide Channel, Filled;
    }
    hide LaneEffect, Filled;
    assert forall lane: Lane :: LaneEffect(env, w, lane, inst).Some? ==> LaneEffect(env, w, lane, inst).value.base == 0 by {
      forall lane: Lane ensures LaneEffect(env, w, lane, inst).Some? ==> LaneEffect(env, w, lane, inst).value.base == 0 {
        ExpBase(env, w, lane, inst);
      }
    }
  }

  lemma ExpBase(env: Env, w: Wave, lane: Lane, inst: Inst)
    requires inst.Exp?
    ensures LaneEffect(env, w, lane, inst).Some? ==> LaneEffect(env, w, lane, inst).value.base == 0
  {
  }

  lemma MimgLane(env: Env, w: Wave, inst: Inst, lane: Lane)
    requires inst.Mimg? && Precheck(w, inst)
    ensures LaneEffect(env, w, lane, inst).Some? <==>
      inst.vaddr.n + 1 < 256 && env.sample(w.sgprs[inst.srsrc..inst.srsrc + 8], w.sgprs[inst.ssamp..inst.ssamp + 4],
                                           Word(w, inst.vaddr.n, lane), Word(w, inst.vaddr.n + 1, lane), inst.unrm).Some?
    ensures LaneEffect(env, w, lane, inst).Some? ==>
      var e := LaneEffect(env, w, lane, inst).value; e.base == inst.vdata.n && |e.words| == Before(inst.dmask, 4)
  {
    var e := LaneEffect(env, w, lane, inst);
    if e.Some? {
      var rgba := env.sample(w.sgprs[inst.srsrc..inst.srsrc + 8], w.sgprs[inst.ssamp..inst.ssamp + 4],
                             Word(w, inst.vaddr.n, lane), Word(w, inst.vaddr.n + 1, lane), inst.unrm).value;
      EnabledPack(inst.dmask, rgba);
    }
  }

  lemma MimgRuns(env: Env, w: Wave, inst: Inst)
    requires inst.Mimg?
    ensures Precheck(w, inst) && AllOk(env, w, inst) <==> Runs(env, w, inst)
  {
    hide LaneEffect, Before, Bit;
    if Precheck(w, inst) {
      forall lane: Lane
        ensures LaneEffect(env, w, lane, inst).Some? <==>
          inst.vaddr.n + 1 < 256 && env.sample(w.sgprs[inst.srsrc..inst.srsrc + 8], w.sgprs[inst.ssamp..inst.ssamp + 4],
                                               Word(w, inst.vaddr.n, lane), Word(w, inst.vaddr.n + 1, lane), inst.unrm).Some?
        ensures LaneEffect(env, w, lane, inst).Some? ==>
          var e := LaneEffect(env, w, lane, inst).value; e.base == inst.vdata.n && |e.words| == Before(inst.dmask, 4)
      {
        MimgLane(env, w, inst, lane);
      }
    }
  }

  // ---- loads ------------------------------------------------------------------------------------

  lemma AskUnique(w: Wave, inst: Inst, lane: Lane, q: Ask, p: Ask)
    requires inst.Mubuf? && inst.srsrc + 3 < 104 && Asks(w, inst, lane, q) && Asks(w, inst, lane, p)
    ensures p == q
  {
    hide Reads;
    ReadsUnique(w, inst.soffset, 0, q.soff, p.soff);
    if inst.idxen { ReadsUnique(w, inst.vaddr, lane, q.index, p.index); }
  }

  // The question a lane's buffer load asks, when its operands can be read.
  lemma AskExists(w: Wave, inst: Inst, lane: Lane) returns (q: Ask)
    requires inst.Mubuf? && inst.srsrc + 3 < 104 && Readable(inst.soffset) && !inst.soffset.Vgpr?
    requires (inst.idxen ==> Readable(inst.vaddr)) && (inst.offen ==> inst.vaddr.Vgpr? && inst.vaddr.n + 1 < 256)
    ensures Asks(w, inst, lane, q) && ReadScalar(w, inst.soffset) == Some(q.soff)
    ensures (if inst.idxen then ReadLane(w, inst.vaddr, lane) else Some(0)) == Some(q.index)
  {
    hide Reads;
    ReadableIff(w, inst.soffset, lane);
    ReadableIff(w, inst.vaddr, lane);
    var soff := ReadScalar(w, inst.soffset).value;
    ReadsScalarIff(w, inst.soffset, soff);
    var index := if inst.idxen then ReadLane(w, inst.vaddr, lane).value else 0;
    if inst.idxen { ReadsIff(w, inst.vaddr, lane, index); }
    var records := w.sgprs[inst.srsrc + 2];
    q := Ask(soff, index, if records != 0 && index >= records then records - 1 else index,
             if inst.offen then Word(w, inst.vaddr.n + 1, lane) else 0);
  }

  lemma MubufLane(env: Env, w: Wave, inst: Inst, lane: Lane)
    requires inst.Mubuf? && Precheck(w, inst)
    ensures LaneEffect(env, w, lane, inst).Some? <==> (inst.idxen ==> Readable(inst.vaddr)) && Served(env, w, inst, lane)
    ensures LaneEffect(env, w, lane, inst).Some? ==>
      var e := LaneEffect(env, w, lane, inst).value; e.base == inst.vdata.n && |e.words| == FetchedWords(inst.op)
  {
    hide Reads, Asks, ReadScalar, ReadLane, WordAt, ComponentIs;
    MubufIs(env, w, lane, inst);
    FetchCount(inst.op);
    hide LaneEffect, VdataCount, FetchedWords;
    ReadableIff(w, inst.vaddr, lane);
    SoffsetReadable(w, inst.soffset);
    var n := FetchedWords(inst.op);
    if !inst.idxen || Readable(inst.vaddr) {
      var q := AskExists(w, inst, lane);
      forall p | Asks(w, inst, lane, p) ensures p == q { AskUnique(w, inst, lane, q, p); }
      MubufAsked(env, w, inst, lane, q);
    }
  }

  lemma SoffsetReadable(w: Wave, op: Operand)
    ensures ReadScalar(w, op).Some? ==> Readable(op) && !op.Vgpr?
    ensures Readable(op) && !op.Vgpr? ==> ReadScalar(w, op).Some?
  {
  }

  lemma MubufAsked(env: Env, w: Wave, inst: Inst, lane: Lane, q: Ask)
    requires inst.Mubuf? && Precheck(w, inst) && Asks(w, inst, lane, q) && ReadScalar(w, inst.soffset) == Some(q.soff)
    requires (if inst.idxen then ReadLane(w, inst.vaddr, lane) else Some(0)) == Some(q.index)
    ensures var bytes := env.load(AskedAddress(w, inst, q), 4 * VdataCount(inst.op).value);
            MubufEffect(env, w, lane, inst).Some? <==> bytes.Some? && |bytes.value| == 4 * VdataCount(inst.op).value
    ensures MubufEffect(env, w, lane, inst).Some? ==>
      var e := MubufEffect(env, w, lane, inst).value; e.base == inst.vdata.n && |e.words| == VdataCount(inst.op).value
  {
    hide Reads, ReadScalar, ReadLane, Component, VdataCount;
    var v := ReadVSharp(w, inst.srsrc).value;
    assert FetchAddr(v, q.index, q.soff, inst.offset, q.voff) == AskedAddress(w, inst, q);
    hide FetchAddr, AskedAddress;
  }

  lemma MubufRuns(env: Env, w: Wave, inst: Inst)
    requires inst.Mubuf?
    ensures Precheck(w, inst) && AllOk(env, w, inst) <==> Runs(env, w, inst)
  {
    hide LaneEffect, FetchedWords, Bit, Served, Readable, ReadScalar, VdataCount;
    FetchCount(inst.op);
    SoffsetReadable(w, inst.soffset);
    RawIsUnreadable(inst.soffset);
    if Precheck(w, inst) {
      forall lane: Lane
        ensures LaneEffect(env, w, lane, inst).Some? <==> (inst.idxen ==> Readable(inst.vaddr)) && Served(env, w, inst, lane)
        ensures LaneEffect(env, w, lane, inst).Some? ==>
          var e := LaneEffect(env, w, lane, inst).value; e.base == inst.vdata.n && |e.words| == FetchedWords(inst.op)
      {
        MubufLane(env, w, inst, lane);
      }
    }
  }

  lemma RawIsUnreadable(op: Operand)
    ensures op.Raw? ==> !Readable(op)
  {
  }

  lemma SmrdRuns(env: Env, w: Wave, inst: Inst)
    requires inst.Smrd?
    ensures ExecOne(env, w, inst).Some? <==> Runs(env, w, inst)
  {
    hide LoadedDwords, SmrdCount, SmrdWords, WriteSgprs, SmrdAddr, LoadServed;
    CountOf(inst.op);
    WordsServed(env, w, inst);
  }

  lemma WordsServed(env: Env, w: Wave, inst: Inst)
    requires inst.Smrd?
    ensures SmrdWords(env, w, inst).Some? <==>
      && SmrdCount(inst.op).Some? && inst.sbase + (if inst.op >= 0x08 then 3 else 1) < 104 && (!inst.imm ==> inst.offset < 104)
      && LoadServed(env, w, inst)
    ensures SmrdWords(env, w, inst).Some? ==> |SmrdWords(env, w, inst).value| == LoadedDwords(inst.op)
  {
    hide LoadedDwords, SmrdCount, LeWord;
    CountOf(inst.op);
    if SmrdCount(inst.op).Some? {
      AddressExists(w, inst);
      if SmrdAddr(w, inst).Some? {
        var base, off := LoadAddress(w, inst);
        assert forall b: nat :: PointsAt(w, inst, b) ==> b == base;
        hide SmrdAddr, PointsAt;
      }
    }
  }

  lemma AddressExists(w: Wave, inst: Inst)
    requires inst.Smrd? && SmrdCount(inst.op).Some?
    ensures SmrdAddr(w, inst).Some? <==> inst.sbase + (if inst.op >= 0x08 then 3 else 1) < 104 && (!inst.imm ==> inst.offset < 104)
  {
    CountOf(inst.op);
  }

  lemma Sop1Runs(env: Env, w: Wave, inst: Inst)
    requires inst.Sop1?
    ensures ExecOne(env, w, inst).Some? <==> Runs(env, w, inst)
  {
    ReadableIff(w, inst.ssrc0, 0);
  }

  // The interpreter executes an instruction exactly when its opcode is one it has, its operands name
  // registers that exist and can be written, and the memory it reads is there for every live lane.
  lemma ExecutesIff(env: Env, w: Wave, inst: Inst)
    ensures ExecOne(env, w, inst).Some? <==> Runs(env, w, inst)
  {
    if inst.Sop1? {
      Sop1Runs(env, w, inst);
    } else if inst.Smrd? {
      SmrdRuns(env, w, inst);
    } else if IsVector(inst) {
      VectorRuns(env, w, inst);
    }
  }

  lemma VectorRuns(env: Env, w: Wave, inst: Inst)
    requires IsVector(inst)
    ensures ExecOne(env, w, inst).Some? <==> Runs(env, w, inst)
  {
    hide LaneLoop, AllOk, Served, Readable, AnyLive;
    if BitDst(inst).Some? {
      MaskRuns(env, w, inst);
    } else {
      PlainRuns(env, w, inst);
      match inst
      case Vop1(_, _, _) => Vop1Runs(env, w, inst);
      case Vop2(_, _, _, _, _) => Vop2Runs(env, w, inst);
      case Vop3(_, _, _, _, _, _, _, _, _) => Vop3AllOk(env, w, inst);
      case Vintrp(_, _, _, _, _) => VintrpRuns(env, w, inst);
      case Mubuf(_, _, _, _, _, _, _, _) => MubufRuns(env, w, inst);
      case Mimg(_, _, _, _, _, _, _) => MimgRuns(env, w, inst);
      case Exp(_, _, _, _, _, _, _, _) => ExpRuns(env, w, inst);
    }
  }
}
