// The decoded GCN instruction: operands, one constructor per encoding class, and the opcode
// numbers the decoder, graph builder and interpreter share.

module Isa {
  import opened Words

  datatype SpecialReg = VccLo | VccHi | M0 | ExecLo | ExecHi | Scc

  datatype Operand =
    | Sgpr(n: u8)
    | Vgpr(n: u8)
    | Special(reg: SpecialReg)
    | InlineInt(v: int)
    | InlineFloat(bits: u32)
    | Literal(word: u32)
    | Raw(field: u16)

  datatype ExportTarget = Mrt(i: u8) | MrtZ | Null | Pos(i: u8) | Param(i: u8) | RawTarget(i: u8)

  datatype Inst =
    | Sop1(op: u16, sdst: Operand, ssrc0: Operand)
    | Sop2(op: u16, sdst: Operand, ssrc0: Operand, ssrc1: Operand)
    | Sopk(op: u16, sdst: Operand, simm: int)
    | Sopc(op: u16, ssrc0: Operand, ssrc1: Operand)
    | Sopp(op: u16, simm16: u16)
    | Smrd(op: u16, sdst: Operand, sbase: u8, imm: bool, offset: u32)
    | Vop1(op: u16, vdst: Operand, src0: Operand)
    | Vop2(op: u16, vdst: Operand, src0: Operand, vsrc1: Operand, k: Option<u32>)
    | Vop3(op: u16, vdst: Operand, src0: Operand, src1: Operand, src2: Operand,
           abs: u8, neg: u8, omod: u8, clamp: bool)
    | Vopc(op: u16, src0: Operand, vsrc1: Operand)
    | Vintrp(op: u16, vdst: Operand, vsrc: Operand, attr: u8, chan: u8)
    | Mubuf(op: u16, vdata: Operand, vaddr: Operand, srsrc: u8, soffset: Operand,
            offset: u32, idxen: bool, offen: bool)
    | Mimg(op: u16, vdata: Operand, vaddr: Operand, srsrc: u8, ssamp: u8, dmask: u8, unrm: bool)
    | Exp(target: ExportTarget, e0: Option<Operand>, e1: Option<Operand>,
          e2: Option<Operand>, e3: Option<Operand>, done: bool, compr: bool, vm: bool)
    | Unknown(raw: u32)

  datatype Decoded = Decoded(inst: Inst, size: u32, offset: u32)

  // SOP1
  const S_MOV_B32: u16 := 0x03
  const S_MOV_B64: u16 := 0x04
  const S_WQM_B64: u16 := 0x0A
  const S_SETPC_B64: u16 := 0x20
  const S_SWAPPC_B64: u16 := 0x21

  // SOPP
  const S_NOP: u16 := 0x00
  const S_ENDPGM: u16 := 0x01
  const S_BRANCH: u16 := 0x02
  const S_CBRANCH_SCC0: u16 := 0x04
  const S_CBRANCH_SCC1: u16 := 0x05
  const S_CBRANCH_VCCZ: u16 := 0x06
  const S_CBRANCH_VCCNZ: u16 := 0x07
  const S_CBRANCH_EXECZ: u16 := 0x08
  const S_CBRANCH_EXECNZ: u16 := 0x09
  const S_WAITCNT: u16 := 0x0C

  // SMRD
  const S_LOAD_DWORD: u16 := 0x00
  const S_LOAD_DWORDX2: u16 := 0x01
  const S_LOAD_DWORDX4: u16 := 0x02
  const S_LOAD_DWORDX8: u16 := 0x03
  const S_LOAD_DWORDX16: u16 := 0x04
  const S_BUFFER_LOAD_DWORD: u16 := 0x08
  const S_BUFFER_LOAD_DWORDX2: u16 := 0x09
  const S_BUFFER_LOAD_DWORDX4: u16 := 0x0A
  const S_BUFFER_LOAD_DWORDX8: u16 := 0x0B
  const S_BUFFER_LOAD_DWORDX16: u16 := 0x0C

  // VOP1
  const V_MOV_B32: u16 := 0x01
  const VOP1_OPS: set<u16> :=
    {0x01, 0x05, 0x06, 0x07, 0x08, 0x0E, 0x20, 0x22, 0x24, 0x2A, 0x33, 0x35}

  // VOP2
  const V_CNDMASK_B32: u16 := 0x00
  const V_ADD_F32: u16 := 0x03
  const V_SUB_F32: u16 := 0x04
  const V_SUBREV_F32: u16 := 0x05
  const V_MUL_F32: u16 := 0x08
  const V_MIN_F32: u16 := 0x0F
  const V_MAX_F32: u16 := 0x10
  const V_LSHRREV_B32: u16 := 0x16
  const V_LSHLREV_B32: u16 := 0x1A
  const V_AND_B32: u16 := 0x1B
  const V_MAC_F32: u16 := 0x1F
  const V_MADMK_F32: u16 := 0x20
  const V_MADAK_F32: u16 := 0x21
  const V_ADD_I32: u16 := 0x25
  const V_CVT_PKRTZ_F16_F32: u16 := 0x2F
  const VOP2_OPS: set<u16> :=
    {0x00, 0x03, 0x04, 0x05, 0x08, 0x0F, 0x10, 0x16, 0x1A, 0x1B, 0x1F, 0x20, 0x21, 0x25, 0x2F}

  // VOPC, and the same compares promoted into VOP3 under the same numbers
  const V_CMP_LT_F32: u16 := 0x01
  const V_CMP_EQ_F32: u16 := 0x02
  const V_CMP_LE_F32: u16 := 0x03
  const V_CMP_GT_F32: u16 := 0x04
  const V_CMP_GE_F32: u16 := 0x06
  const COMPARES: set<u16> := {0x01, 0x02, 0x03, 0x04, 0x06}

  // VOP3
  const V3_CNDMASK_B32: u16 := 0x100
  const V3_MUL_F32: u16 := 0x108
  const V3_MAC_F32: u16 := 0x11F
  const V3_CVT_PKRTZ_F16_F32: u16 := 0x12F
  const V3_MAD_F32: u16 := 0x141
  const V3_MAD_U32_U24: u16 := 0x143
  const V3_FMA_F32: u16 := 0x14B
  const V3_MED3_F32: u16 := 0x157
  const V3_FRACT_F32: u16 := 0x1A0
  const VOP3_OPS: set<u16> :=
    COMPARES + {0x100, 0x108, 0x11F, 0x12F, 0x141, 0x143, 0x14B, 0x157, 0x1A0}

  const IMAGE_SAMPLE: u16 := 0x20
  const V_INTERP_P1_F32: u16 := 0x00
  const V_INTERP_P2_F32: u16 := 0x01

  predicate HasInlineLiteral(op: u16) { op == V_MADMK_F32 || op == V_MADAK_F32 }

  // Dwords a scalar load writes.
  function SmrdCount(op: u16): Option<nat> {
    match op
    case 0x00 => Some(1) case 0x08 => Some(1)
    case 0x01 => Some(2) case 0x09 => Some(2)
    case 0x02 => Some(4) case 0x0A => Some(4)
    case 0x03 => Some(8) case 0x0B => Some(8)
    case 0x04 => Some(16) case 0x0C => Some(16)
    case _ => None
  }

  predicate IsBufferLoad(op: u16) { 0x08 <= op <= 0x0C }

  // Dwords a buffer instruction moves per lane.
  function VdataCount(op: u16): (r: Option<nat>)
    ensures r.Some? ==> 1 <= r.value <= 4
  {
    match op
    case 0x00 => Some(1) case 0x04 => Some(1) case 0x0C => Some(1) case 0x1C => Some(1)
    case 0x01 => Some(2) case 0x02 => Some(3) case 0x03 => Some(4)
    case _ => None
  }

  predicate IsFormatLoad(op: u16) { op <= 0x03 }
}
