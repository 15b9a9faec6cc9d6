// One wavefront of 64 lanes and the instructions that change it. A vector instruction runs a
// loop over the lanes, writing registers in place; `LaneLoop` is that loop and `LaneEffect`
// is what one lane contributes. Floating-point arithmetic, memory and texture sampling are
// fields of `Env`, so every result below holds for all of them.

module Wavefront {
  import opened Words
  import opened Bits
  import opened Isa

  const LANES: nat := 64
  const NUM_SGPRS: nat := 104
  const NUM_VGPRS: nat := 256

  type Lane = n: nat | n < 64
  type Row = r: seq<u32> | |r| == 64 witness seq(64, _ => 0)
  type VFile = v: seq<Row> | |v| == 256 witness seq<Row>(256, _ => ZeroRow())
  type SFile = s: seq<u32> | |s| == 104 witness seq(104, _ => 0)

  function ZeroRow(): Row { seq(64, _ => 0) }

  // One captured export of one lane; channel values are raw f32 bits.
  datatype ExportRecord = ExportRecord(lane: nat, target: ExportTarget, values: seq<u32>)

  datatype Wave = Wave(
    sgprs: SFile,
    vgprs: VFile,
    exec: u64,
    vcc: u64,
    scc: bool,
    m0: u32,
    exports: seq<ExportRecord>)

  // What the interpreter is given: the f32 primitives, the guest memory, the attribute planes
  // and the texture sampler.
  datatype Env = Env(
    unary: (u16, u32) -> u32,
    fadd: (u32, u32) -> u32,
    fsub: (u32, u32) -> u32,
    fmul: (u32, u32) -> u32,
    fmin: (u32, u32) -> u32,
    fmax: (u32, u32) -> u32,
    fma: (u32, u32, u32) -> u32,
    fabs: u32 -> u32,
    fneg: u32 -> u32,
    fract: u32 -> u32,
    less: (u32, u32) -> bool,
    equal: (u32, u32) -> bool,
    toHalf: u32 -> u16,
    fromHalf: u16 -> u32,
    convert: (bool, nat, nat) -> u32,
    plane: (u8, nat) -> (u32, u32, u32),
    sample: (seq<u32>, seq<u32>, u32, u32, bool) -> Option<(u32, u32, u32, u32)>,
    load: (u64, nat) -> Option<seq<u8>>)

  predicate LaneLive(w: Wave, lane: Lane) { Bit(w.exec, lane) }

  // VGPR `r` as `lane` sees it.
  function Word(w: Wave, r: nat, lane: Lane): u32
    requires r < NUM_VGPRS
  {
    w.vgprs[r][lane]
  }

  // ---- registers and operands ---------------------------------------------------------

  function ReadSgpr(w: Wave, n: nat): Option<u32> {
    if n < NUM_SGPRS then Some(w.sgprs[n]) else None
  }

  function ReadScalar(w: Wave, op: Operand): Option<u32> {
    match op
    case Sgpr(n) => ReadSgpr(w, n)
    case Special(M0) => Some(w.m0)
    case Special(VccLo) => Some(w.vcc % TWO32)
    case Special(VccHi) => Some(w.vcc / TWO32)
    case Special(ExecLo) => Some(w.exec % TWO32)
    case Special(ExecHi) => Some(w.exec / TWO32)
    case Special(Scc) => Some(if w.scc then 1 else 0)
    case InlineInt(v) => Some(v % TWO32)
    case InlineFloat(b) => Some(b)
    case Literal(b) => Some(b)
    case Vgpr(_) => None
    case Raw(_) => None
  }

  function ReadLane(w: Wave, op: Operand, lane: Lane): Option<u32> {
    if op.Vgpr? then Some(Word(w, op.n, lane)) else ReadScalar(w, op)
  }

  function ReadSgprPair(w: Wave, n: nat): Option<u64> {
    if n + 1 < NUM_SGPRS then Some(w.sgprs[n] + TWO32 * w.sgprs[n + 1]) else None
  }

  function ReadScalarPair(w: Wave, op: Operand): Option<u64> {
    match op
    case Sgpr(n) => ReadSgprPair(w, n)
    case Special(ExecLo) => Some(w.exec)
    case Special(VccLo) => Some(w.vcc)
    case _ => None
  }

  // The SGPR of the pair at `n` that holds `lane`'s predicate bit.
  function PairReg(n: nat, lane: Lane): nat { n + lane / 32 }

  function ReadPredicate(w: Wave, src: Operand, lane: Lane): Option<bool> {
    match src
    case Special(VccLo) => Some(Bit(w.vcc, lane))
    case Special(VccHi) => Some(Bit(w.vcc, lane))
    case Sgpr(n) => var word :- ReadSgpr(w, PairReg(n, lane)); Some(Bit(word, lane % 32))
    case _ => None
  }

  function SetBitU64(n: u64, k: Lane, b: bool): (r: u64)
    ensures r == SetBit(n, k, b)
  {
    SetBit64(n, k, b);
    SetBit(n, k, b)
  }

  function SetBitU32(n: u32, k: nat, b: bool): (r: u32)
    requires k < 32
    ensures r == SetBit(n, k, b)
  {
    SetBit32(n, k, b);
    SetBit(n, k, b)
  }

  // Set or clear one lane's bit of VCC or of an SGPR pair; no other bit is touched.
  function WritePredicate(w: Wave, dst: Operand, lane: Lane, b: bool): Option<Wave> {
    match dst
    case Special(VccLo) => Some(w.(vcc := SetBitU64(w.vcc, lane, b)))
    case Special(VccHi) => Some(w.(vcc := SetBitU64(w.vcc, lane, b)))
    case Sgpr(n) =>
      var r := PairReg(n, lane);
      if r < NUM_SGPRS then
        Some(w.(sgprs := w.sgprs[r := SetBitU32(w.sgprs[r], lane % 32, b)]))
      else None
    case _ => None
  }

  // ---- one lane's contribution ----------------------------------------------------------

  // The registers one lane writes (consecutive from `base`), its predicate bit, and the
  // export it captures.
  datatype Effect = Effect(base: nat, words: seq<u32>, bit: bool, records: seq<ExportRecord>)

  function One(vdst: Operand, word: u32, bit: bool): Option<Effect> {
    if vdst.Vgpr? then Some(Effect(vdst.n, [word], bit, [])) else None
  }

  function ApplyMods(env: Env, x: u32, abs: u8, neg: u8, idx: nat): u32 {
    var x := if Bit(abs, idx) then env.fabs(x) else x;
    if Bit(neg, idx) then env.fneg(x) else x
  }

  function ApplyOmod(env: Env, x: u32, omod: u8): u32 {
    match omod
    case 1 => env.fmul(x, 0x4000_0000)
    case 2 => env.fmul(x, 0x4080_0000)
    case 3 => env.fmul(x, 0x3F00_0000)
    case _ => x
  }

  function ApplyClamp(env: Env, x: u32, clamp: bool): u32 {
    if clamp then env.fmin(env.fmax(x, 0), 0x3F80_0000) else x
  }

  // The ordered f32 compares, by opcode.
  predicate Compare(env: Env, op: u16, a: u32, b: u32) {
    if op == V_CMP_LT_F32 then env.less(a, b)
    else if op == V_CMP_EQ_F32 then env.equal(a, b)
    else if op == V_CMP_LE_F32 then env.less(a, b) || env.equal(a, b)
    else if op == V_CMP_GE_F32 then env.less(b, a) || env.equal(a, b)
    else env.less(b, a)
  }

  // Two halves in one word, the first source low.
  function Pack(env: Env, a: u32, b: u32): u32 {
    var lo: int, hi: int := env.toHalf(a), env.toHalf(b);
    hi * 0x1_0000 + lo
  }

  // One step of interpolation over an attribute's plane: P0 + I * (P1 - P0), then + J * (P2 - P0).
  function Interpolate(env: Env, op: u16, plane: (u32, u32, u32), bary: u32, partial: u32): u32 {
    if op == V_INTERP_P1_F32 then env.fadd(plane.0, env.fmul(bary, env.fsub(plane.1, plane.0)))
    else if op == V_INTERP_P2_F32 then env.fadd(partial, env.fmul(bary, env.fsub(plane.2, plane.0)))
    else plane.0
  }

  function EvalVop2(env: Env, op: u16, a: u32, b: u32, acc: u32, k: Option<u32>): u32 {
    var kf: u32 := if k.Some? then k.value else 0;
    if op == V_ADD_F32 then env.fadd(a, b)
    else if op == V_SUB_F32 then env.fsub(a, b)
    else if op == V_SUBREV_F32 then env.fsub(b, a)
    else if op == V_MUL_F32 then env.fmul(a, b)
    else if op == V_MIN_F32 then env.fmin(a, b)
    else if op == V_MAX_F32 then env.fmax(a, b)
    else if op == V_MAC_F32 then env.fadd(env.fmul(a, b), acc)
    else if op == V_MADMK_F32 then env.fadd(env.fmul(a, kf), b)
    else env.fadd(env.fmul(a, b), kf)
  }

  function EvalVop3(env: Env, op: u16, a: u32, b: u32, c: u32, acc: u32): u32 {
    if op == V3_MUL_F32 then env.fmul(a, b)
    else if op == V3_MAC_F32 then env.fadd(env.fmul(a, b), acc)
    else if op == V3_MAD_F32 then env.fadd(env.fmul(a, b), c)
    else if op == V3_FMA_F32 then env.fma(a, b, c)
    else if op == V3_FRACT_F32 then env.fract(a)
    else env.fmin(env.fmax(a, b), env.fmax(env.fmin(a, b), c))
  }

  function Vop2Effect(env: Env, w: Wave, lane: Lane, inst: Inst): Option<Effect>
    requires inst.Vop2?
  {
    var a :- ReadLane(w, inst.src0, lane);
    var b :- ReadLane(w, inst.vsrc1, lane);
    if inst.op == V_LSHLREV_B32 then
      One(inst.vdst, b * Pow2(a % 32) % TWO32, false)
    else if inst.op == V_LSHRREV_B32 then
      One(inst.vdst, b / Pow2(a % 32) % TWO32, false)
    else if inst.op == V_AND_B32 then
      One(inst.vdst, And(a, b), false)
    else if inst.op == V_ADD_I32 then
      One(inst.vdst, (a + b) % TWO32, a + b >= TWO32)
    else if inst.op == V_CNDMASK_B32 then
      One(inst.vdst, if Bit(w.vcc, lane) then b else a, false)
    else if inst.op == V_CVT_PKRTZ_F16_F32 then
      One(inst.vdst, Pack(env, a, b), false)
    else
      var acc :- ReadLane(w, inst.vdst, lane);
      One(inst.vdst, EvalVop2(env, inst.op, a, b, acc, inst.k), false)
  }

  function Vop3Effect(env: Env, w: Wave, lane: Lane, inst: Inst): Option<Effect>
    requires inst.Vop3?
  {
    var a :- ReadLane(w, inst.src0, lane);
    var b :- ReadLane(w, inst.src1, lane);
    var am := ApplyMods(env, a, inst.abs, inst.neg, 0);
    var bm := ApplyMods(env, b, inst.abs, inst.neg, 1);
    if inst.op in COMPARES then
      Some(Effect(0, [], Compare(env, inst.op, am, bm), []))
    else if inst.op == V3_CNDMASK_B32 then
      var p :- ReadPredicate(w, inst.src2, lane);
      One(inst.vdst, if p then b else a, false)
    else if inst.op == V3_CVT_PKRTZ_F16_F32 then
      One(inst.vdst, Pack(env, am, bm), false)
    else
      var c :- ReadLane(w, inst.src2, lane);
      if inst.op == V3_MAD_U32_U24 then
        One(inst.vdst, ((a % 0x100_0000) * (b % 0x100_0000) + c) % TWO32, false)
      else
        var cm := ApplyMods(env, c, inst.abs, inst.neg, 2);
        var acc :- ReadLane(w, inst.vdst, lane);
        var raw := EvalVop3(env, inst.op, am, bm, cm, acc);
        One(inst.vdst, ApplyClamp(env, ApplyOmod(env, raw, inst.omod), inst.clamp), false)
  }

  // The 128-bit buffer resource held in four SGPRs.
  datatype VSharp = VSharp(base: nat, stride: nat, numRecords: nat, nfmt: nat, dfmt: nat)

  function DecodeVSharp(w0: u32, w1: u32, w2: u32, w3: u32): VSharp {
    VSharp(w0 + w1 % 0x1_0000 * TWO32, w1 / 0x1_0000 % 0x4000, w2, w3 / 0x1000 % 8, w3 / 0x8000 % 16)
  }

  function ReadVSharp(w: Wave, srsrc: nat): Option<VSharp> {
    if srsrc + 3 < NUM_SGPRS then
      Some(DecodeVSharp(w.sgprs[srsrc], w.sgprs[srsrc + 1], w.sgprs[srsrc + 2], w.sgprs[srsrc + 3]))
    else None
  }

  // A load either yields exactly the bytes asked for or faults.
  function Load(env: Env, addr: u64, size: nat): (r: Option<seq<u8>>)
    ensures r.Some? ==> |r.value| == size
  {
    match env.load(addr, size)
    case Some(bytes) => if |bytes| == size then Some(bytes) else None
    case None => None
  }

  function LeWord(bytes: seq<u8>, at: nat): u32
    requires at + 4 <= |bytes|
  {
    var b0: int, b1: int, b2: int, b3: int := bytes[at], bytes[at + 1], bytes[at + 2], bytes[at + 3];
    b0 + 0x100 * b1 + 0x1_0000 * b2 + 0x100_0000 * b3
  }

  // Component `i` of a fetched element, unpacked as the resource's data format says.
  function Component(env: Env, v: VSharp, bytes: seq<u8>, i: nat): u32
    requires 4 * i + 4 <= |bytes|
  {
    if v.dfmt in {1, 3, 10} && i < 4 then env.convert(false, bytes[i], v.nfmt)
    else if v.dfmt in {2, 5, 12} then
      var lo: int, hi: int := bytes[2 * i], bytes[2 * i + 1];
      env.convert(true, lo + 0x100 * hi, v.nfmt)
    else LeWord(bytes, 4 * i)
  }

  // Address of the element a lane fetches; the index is clamped to the last record.
  function FetchAddr(v: VSharp, index: nat, soff: nat, offset: nat, voffset: nat): u64 {
    var i := if v.numRecords != 0 && index >= v.numRecords then v.numRecords - 1 else index;
    (v.base + i * v.stride + soff + offset + voffset) % TWO64
  }

  // The `count` words an element fetch yields.
  function FetchWords(env: Env, v: VSharp, addr: u64, count: nat): (r: Option<seq<u32>>)
    ensures r.Some? ==> |r.value| == count
  {
    var bytes :- Load(env, addr, 4 * count);
    Some(seq(count, i requires 0 <= i < count => Component(env, v, bytes, i)))
  }

  function MubufEffect(env: Env, w: Wave, lane: Lane, inst: Inst): Option<Effect>
    requires inst.Mubuf?
  {
    var count :- VdataCount(inst.op);
    var soff :- if inst.soffset.Raw? then None else ReadScalar(w, inst.soffset);
    var v :- ReadVSharp(w, inst.srsrc);
    if !inst.vdata.Vgpr? then None else
    var index :- if inst.idxen then ReadLane(w, inst.vaddr, lane) else Some(0);
    var voffset :-
      if !inst.offen then Some(0)
      else if inst.vaddr.Vgpr? && inst.vaddr.n + 1 < NUM_VGPRS then Some(Word(w, inst.vaddr.n + 1, lane))
      else None;
    var words :- FetchWords(env, v, FetchAddr(v, index, soff, inst.offset, voffset), count);
    Some(Effect(inst.vdata.n, words, false, []))
  }

  function Enabled(dmask: u8, rgba: (u32, u32, u32, u32)): seq<u32> {
    (if Bit(dmask, 0) then [rgba.0] else []) + (if Bit(dmask, 1) then [rgba.1] else [])
    + (if Bit(dmask, 2) then [rgba.2] else []) + (if Bit(dmask, 3) then [rgba.3] else [])
  }

  function MimgEffect(env: Env, w: Wave, lane: Lane, inst: Inst): Option<Effect>
    requires inst.Mimg?
  {
    if inst.srsrc + 7 < NUM_SGPRS && inst.ssamp + 3 < NUM_SGPRS && inst.vdata.Vgpr?
       && inst.vaddr.Vgpr? && inst.vaddr.n + 1 < NUM_VGPRS
    then
      var rgba :- env.sample(w.sgprs[inst.srsrc..inst.srsrc + 8], w.sgprs[inst.ssamp..inst.ssamp + 4],
                             Word(w, inst.vaddr.n, lane), Word(w, inst.vaddr.n + 1, lane), inst.unrm);
      Some(Effect(inst.vdata.n, Enabled(inst.dmask, rgba), false, []))
    else None
  }

  function Channel(w: Wave, lane: Lane, src: Option<Operand>): Option<u32> {
    if src.None? then Some(0) else ReadLane(w, src.value, lane)
  }

  function ExpEffect(env: Env, w: Wave, lane: Lane, inst: Inst): Option<Effect>
    requires inst.Exp?
  {
    var a :- Channel(w, lane, inst.e0);
    var b :- Channel(w, lane, inst.e1);
    if inst.compr then
      var values := [if inst.e0.Some? then env.fromHalf(a % 0x1_0000) else 0,
                     if inst.e0.Some? then env.fromHalf(a / 0x1_0000) else 0,
                     if inst.e1.Some? then env.fromHalf(b % 0x1_0000) else 0,
                     if inst.e1.Some? then env.fromHalf(b / 0x1_0000) else 0];
      Some(Effect(0, [], false, [ExportRecord(lane, inst.target, values)]))
    else
      var c :- Channel(w, lane, inst.e2);
      var d :- Channel(w, lane, inst.e3);
      Some(Effect(0, [], false, [ExportRecord(lane, inst.target, [a, b, c, d])]))
  }

  predicate IsVector(inst: Inst) {
    inst.Vop1? || inst.Vop2? || inst.Vop3? || inst.Vopc? || inst.Mubuf? || inst.Vintrp? || inst.Mimg?
    || inst.Exp?
  }

  // What `lane` does when `inst` reaches it, or `None` when that lane faults.
  function LaneEffect(env: Env, w: Wave, lane: Lane, inst: Inst): Option<Effect>
    requires IsVector(inst)
  {
    match inst
    case Vop1(op, vdst, src0) =>
      var x :- ReadLane(w, src0, lane);
      One(vdst, if op == V_MOV_B32 then x else env.unary(op, x), false)
    case Vop2(_, _, _, _, _) => Vop2Effect(env, w, lane, inst)
    case Vop3(_, _, _, _, _, _, _, _, _) => Vop3Effect(env, w, lane, inst)
    case Vopc(op, src0, vsrc1) =>
      var a :- ReadLane(w, src0, lane);
      var b :- ReadLane(w, vsrc1, lane);
      Some(Effect(0, [], Compare(env, op, a, b), []))
    case Vintrp(op, vdst, vsrc, attr, chan) =>
      var bary :- ReadLane(w, vsrc, lane);
      var partial :- if op == V_INTERP_P2_F32 then ReadLane(w, vdst, lane) else Some(0);
      One(vdst, Interpolate(env, op, env.plane(attr, chan % 4), bary, partial), false)
    case Mubuf(_, _, _, _, _, _, _, _) => MubufEffect(env, w, lane, inst)
    case Mimg(_, _, _, _, _, _, _) => MimgEffect(env, w, lane, inst)
    case Exp(_, _, _, _, _, _, _, _) => ExpEffect(env, w, lane, inst)
  }

  // Where the instruction puts its per-lane bool, if it makes one.
  function BitDst(inst: Inst): Option<Operand> {
    if inst.Vopc? || (inst.Vop2? && inst.op == V_ADD_I32) then Some(Special(VccLo))
    else if inst.Vop3? && inst.op in COMPARES then Some(inst.vdst)
    else None
  }

  // The checks made once, before any lane is touched.
  predicate Precheck(w: Wave, inst: Inst)
    requires IsVector(inst)
  {
    match inst
    case Vop1(op, _, _) => op in VOP1_OPS
    case Vop2(op, _, _, _, _) => op in VOP2_OPS
    case Vop3(op, _, _, _, _, _, _, _, _) => op in VOP3_OPS
    case Vopc(op, _, _) => op in COMPARES
    case Vintrp(op, _, _, _, _) => op <= 2
    case Mubuf(op, vdata, vaddr, srsrc, soffset, _, _, offen) =>
      && VdataCount(op).Some?
      && !soffset.Raw? && ReadScalar(w, soffset).Some?
      && srsrc + 3 < NUM_SGPRS
      && vdata.Vgpr?
      && (offen ==> vaddr.Vgpr? && vaddr.n + 1 < NUM_VGPRS)
    case Mimg(op, vdata, vaddr, srsrc, ssamp, _, _) =>
      op == IMAGE_SAMPLE && srsrc + 7 < NUM_SGPRS && ssamp + 3 < NUM_SGPRS && vdata.Vgpr? && vaddr.Vgpr?
    case Exp(_, _, _, _, _, _, _, _) => true
  }

  function WriteWords(v: VFile, base: nat, lane: Lane, words: seq<u32>): VFile {
    seq<Row>(256, r requires 0 <= r < 256 =>
      if base <= r < base + |words| then v[r][lane := words[r - base]] else v[r])
  }

  function WriteBitIfAny(w: Wave, inst: Inst, lane: Lane, b: bool): Option<Wave> {
    if BitDst(inst).Some? then WritePredicate(w, BitDst(inst).value, lane, b) else Some(w)
  }

  // Lane `lane`'s turn of the loop: a dead lane only clears its predicate bit.
  function LaneTurn(env: Env, w: Wave, lane: Lane, inst: Inst): Option<Wave>
    requires IsVector(inst)
  {
    if !LaneLive(w, lane) then WriteBitIfAny(w, inst, lane, false)
    else
      var e :- LaneEffect(env, w, lane, inst);
      var w1 :- WriteBitIfAny(w, inst, lane, e.bit);
      if e.base + |e.words| <= NUM_VGPRS then
        Some(w1.(vgprs := WriteWords(w1.vgprs, e.base, lane, e.words), exports := w1.exports + e.records))
      else None
  }

  // The in-place loop over lanes `lane..64`: each lane reads the state the earlier lanes left.
  function LaneLoop(env: Env, w: Wave, lane: nat, inst: Inst): Option<Wave>
    requires IsVector(inst) && lane <= LANES
    decreases LANES - lane
  {
    if lane == LANES then Some(w)
    else
      var w1 :- LaneTurn(env, w, lane, inst);
      LaneLoop(env, w1, lane + 1, inst)
  }

  // ---- scalar instructions ---------------------------------------------------------------

  function WriteScalar(w: Wave, dst: Operand, v: u32): Option<Wave> {
    match dst
    case Sgpr(n) => if n < NUM_SGPRS then Some(w.(sgprs := w.sgprs[n := v])) else None
    case Special(M0) => Some(w.(m0 := v))
    case Special(VccLo) => Some(w.(vcc := w.vcc / TWO32 * TWO32 + v))
    case Special(VccHi) => Some(w.(vcc := w.vcc % TWO32 + v * TWO32))
    case _ => None
  }

  function WriteScalarPair(w: Wave, dst: Operand, v: u64): Option<Wave> {
    match dst
    case Sgpr(n) =>
      if n + 1 < NUM_SGPRS then Some(w.(sgprs := w.sgprs[n := v % TWO32][n + 1 := v / TWO32])) else None
    case Special(ExecLo) => Some(w.(exec := v))
    case Special(VccLo) => Some(w.(vcc := v))
    case _ => None
  }

  function ExecSop1(w: Wave, inst: Inst): Option<Wave>
    requires inst.Sop1?
  {
    if inst.op == S_MOV_B32 then
      var v :- ReadScalar(w, inst.ssrc0);
      WriteScalar(w, inst.sdst, v)
    else if inst.op == S_MOV_B64 || inst.op == S_WQM_B64 then
      var v :- ReadScalarPair(w, inst.ssrc0);
      WriteScalarPair(w, inst.sdst, v)
    else None
  }

  // The address an SMRD reads, from a pointer pair or a buffer resource's base.
  function SmrdAddr(w: Wave, inst: Inst): Option<u64>
    requires inst.Smrd?
  {
    var base :-
      if IsBufferLoad(inst.op) then
        (var v :- ReadVSharp(w, inst.sbase); Some(v.base))
      else (var p :- ReadSgprPair(w, inst.sbase); Some(p));
    var off :- if inst.imm then Some(4 * inst.offset) else ReadSgpr(w, inst.offset);
    Some((base + off) % TWO64)
  }

  function WriteSgprs(s: SFile, base: nat, words: seq<u32>): SFile
    requires base + |words| <= NUM_SGPRS
  {
    s[..base] + words + s[base + |words|..]
  }

  function SmrdWords(env: Env, w: Wave, inst: Inst): (r: Option<seq<u32>>)
    requires inst.Smrd?
    ensures r.Some? ==> SmrdCount(inst.op).Some? && |r.value| == SmrdCount(inst.op).value
  {
    var count :- SmrdCount(inst.op);
    var addr :- SmrdAddr(w, inst);
    var bytes :- Load(env, addr, 4 * count);
    Some(seq(count, i requires 0 <= i < count => LeWord(bytes, 4 * i)))
  }

  function ExecSmrd(env: Env, w: Wave, inst: Inst): Option<Wave>
    requires inst.Smrd?
  {
    var words :- SmrdWords(env, w, inst);
    if inst.sdst.Sgpr? && inst.sdst.n + |words| <= NUM_SGPRS then
      Some(w.(sgprs := WriteSgprs(w.sgprs, inst.sdst.n, words)))
    else None
  }

  // One dataflow instruction; `None` is the interpreter's error return.
  function ExecOne(env: Env, w: Wave, inst: Inst): Option<Wave> {
    if inst.Sop1? then ExecSop1(w, inst)
    else if inst.Smrd? then ExecSmrd(env, w, inst)
    else if IsVector(inst) then
      if Precheck(w, inst) then LaneLoop(env, w, 0, inst) else None
    else None
  }
}
