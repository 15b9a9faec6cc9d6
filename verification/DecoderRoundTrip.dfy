// Encoding an instruction as chapter 13 of the Sea Islands manual lays it out and decoding the
// words gives the instruction back, for every format the decoder knows.

module DecoderRoundTrip {
  import opened Words
  import opened Arithmetic
  import opened Isa
  import opened Decoder

  // ---- operands --------------------------------------------------------------------------

  function EncodeSrc(o: Operand): int {
    match o
    case Sgpr(n) => n
    case Vgpr(n) => 256 + n
    case Special(VccLo) => 106
    case Special(VccHi) => 107
    case Special(M0) => 124
    case Special(ExecLo) => 126
    case Special(ExecHi) => 127
    case Special(Scc) => 253
    case InlineInt(v) => if v >= 0 then 128 + v else 192 - v
    case InlineFloat(b) =>
      if b == 0x3F00_0000 then 240 else if b == 0xBF00_0000 then 241
      else if b == 0x3F80_0000 then 242 else if b == 0xBF80_0000 then 243
      else if b == 0x4000_0000 then 244 else if b == 0xC000_0000 then 245
      else if b == 0x4080_0000 then 246 else 247
    case Literal(_) => 255
    case Raw(f) => f
  }

  // Every one of the 512 field values decodes to an operand of its own.
  lemma SourceFieldsAreDistinct(field: int)
    requires 0 <= field < 512
    ensures EncodeSrc(DecodeSrc(field)) == field
  {
  }

  // `o` is the operand of a field below `limit`, not a literal.
  predicate Named(o: Operand, limit: int) {
    0 <= EncodeSrc(o) < limit && EncodeSrc(o) < 512 && EncodeSrc(o) != LITERAL_SRC && DecodeSrc(EncodeSrc(o)) == o
  }

  predicate SrcOk(o: Operand, limit: int) { o.Literal? || Named(o, limit) }

  // Two literal operands share the one literal word.
  predicate OneLiteral(a: Operand, b: Operand) { a.Literal? && b.Literal? ==> a == b }

  function Tail(a: Operand, b: Operand): seq<u32> {
    if a.Literal? then [a.word] else if b.Literal? then [b.word] else []
  }

  // ---- encodings -------------------------------------------------------------------------

  function B(b: bool): int { if b then 1 else 0 }

  function EncodeTarget(t: ExportTarget): int {
    match t
    case Mrt(i) => i
    case MrtZ => 8
    case Null => 9
    case Pos(i) => 12 + i
    case Param(i) => 32 + i
    case RawTarget(i) => i
  }

  predicate TargetOk(t: ExportTarget) {
    0 <= EncodeTarget(t) < 64 && DecodeTarget(EncodeTarget(t)) == t
  }

  predicate V(o: Operand) { o.Vgpr? }

  predicate ExpOk(o: Option<Operand>) { o.Some? ==> o.value.Vgpr? }

  function ExpField(o: Option<Operand>): int
    requires ExpOk(o)
  {
    if o.Some? then o.value.n else 0
  }

  // Field values the format can hold, without the opcodes a longer prefix takes.
  predicate Legal(inst: Inst) {
    match inst
    case Sopp(op, _) => op < 0x80
    case Sopc(op, a, b) => op < 0x80 && SrcOk(a, 256) && SrcOk(b, 256) && OneLiteral(a, b)
    case Sop1(op, d, a) => op < 0x100 && Named(d, 128) && SrcOk(a, 256)
    case Sopk(op, d, imm) => op < 29 && Named(d, 128) && -0x8000 <= imm < 0x8000
    case Sop2(op, d, a, b) => op < 96 && Named(d, 128) && SrcOk(a, 256) && SrcOk(b, 256) && OneLiteral(a, b)
    case Smrd(op, d, sbase, _, off) => op < 0x20 && Named(d, 128) && sbase < 0x80 && sbase % 2 == 0 && off < 0x100
    case Vop1(op, d, a) => op < 0x100 && V(d) && SrcOk(a, 512)
    case Vop2(op, d, a, b, k) =>
      && op < 62 && V(d) && SrcOk(a, 512) && V(b) && k.Some? == HasInlineLiteral(op)
      && (k.Some? && a.Literal? ==> a.word == k.value)
    case Vopc(op, a, b) => op < 0x100 && SrcOk(a, 512) && V(b)
    case Vop3(op, d, a, b, c, abs, neg, omod, _) =>
      && op < 0x200 && (if op < 0x100 then Named(d, 256) else V(d))
      && Named(a, 512) && Named(b, 512) && Named(c, 512) && abs < 8 && neg < 8 && omod < 4
    case Vintrp(op, d, s, attr, chan) => op < 4 && V(d) && V(s) && attr < 0x40 && chan < 4
    case Mubuf(op, data, addr, rsrc, soff, off, _, _) =>
      && op < 0x80 && V(data) && V(addr) && rsrc < 0x80 && rsrc % 4 == 0 && off < 0x1000
      && (Named(soff, 256) || soff == Raw(255))
    case Mimg(op, data, addr, rsrc, samp, dmask, _) =>
      && op < 0x80 && V(data) && V(addr) && rsrc < 0x80 && rsrc % 4 == 0 && samp < 0x80 && samp % 4 == 0 && dmask < 0x10
    case Exp(t, a, b, c, d, _, _, _) => TargetOk(t) && ExpOk(a) && ExpOk(b) && ExpOk(c) && ExpOk(d)
    case Unknown(_) => false
  }

  // The first word of each format.
  function Word0(inst: Inst): int
    requires Legal(inst)
  {
    match inst
    case Sopp(op, imm) => 0x17F * 0x80_0000 + op * 0x1_0000 + imm
    case Sopc(op, a, b) => 0x17E * 0x80_0000 + op * 0x1_0000 + EncodeSrc(b) * 0x100 + EncodeSrc(a)
    case Sop1(op, d, a) => 0x17D * 0x80_0000 + EncodeSrc(d) * 0x1_0000 + op * 0x100 + EncodeSrc(a)
    case Sopk(op, d, imm) =>
      0xB * 0x1000_0000 + op * 0x80_0000 + EncodeSrc(d) * 0x1_0000 + (if imm >= 0 then imm else imm + 0x1_0000)
    case Sop2(op, d, a, b) =>
      2 * 0x4000_0000 + op * 0x80_0000 + EncodeSrc(d) * 0x1_0000 + EncodeSrc(b) * 0x100 + EncodeSrc(a)
    case Smrd(op, d, sbase, imm, off) =>
      0x18 * 0x800_0000 + op * 0x40_0000 + EncodeSrc(d) * 0x8000 + sbase / 2 * 0x200 + B(imm) * 0x100 + off
    case Vop1(op, d, a) => 0x3F * 0x200_0000 + d.n * 0x2_0000 + op * 0x200 + EncodeSrc(a)
    case Vop2(op, d, a, b, _) => op * 0x200_0000 + d.n * 0x2_0000 + b.n * 0x200 + EncodeSrc(a)
    case Vopc(op, a, b) => 0x3E * 0x200_0000 + op * 0x2_0000 + b.n * 0x200 + EncodeSrc(a)
    case Vop3(op, d, _, _, _, abs, _, _, clamp) =>
      0x34 * 0x400_0000 + op * 0x2_0000 + B(clamp) * 0x800 + abs * 0x100 + (if op < 0x100 then EncodeSrc(d) else d.n)
    case Vintrp(op, d, s, attr, chan) =>
      0x32 * 0x400_0000 + d.n * 0x4_0000 + op * 0x1_0000 + attr * 0x400 + chan * 0x100 + s.n
    case Mubuf(op, _, _, _, _, off, idxen, offen) =>
      0x38 * 0x400_0000 + op * 0x4_0000 + B(idxen) * 0x2000 + B(offen) * 0x1000 + off
    case Mimg(op, _, _, _, _, dmask, unrm) => 0x3C * 0x400_0000 + op * 0x4_0000 + B(unrm) * 0x1000 + dmask * 0x100
    case Exp(t, a, b, c, d, done, compr, vm) =>
      0x3E * 0x400_0000 + B(vm) * 0x1000 + B(done) * 0x800 + B(compr) * 0x400 + EncodeTarget(t) * 0x10
      + B(d.Some?) * 8 + B(c.Some?) * 4 + B(b.Some?) * 2 + B(a.Some?)
  }

  // The second word of the formats that always have one.
  function Word1(inst: Inst): int
    requires Legal(inst) && (inst.Vop3? || inst.Mubuf? || inst.Mimg? || inst.Exp?)
  {
    match inst
    case Vop3(_, _, a, b, c, _, neg, omod, _) =>
      neg * 0x2000_0000 + omod * 0x800_0000 + EncodeSrc(c) * 0x4_0000 + EncodeSrc(b) * 0x200 + EncodeSrc(a)
    case Mubuf(_, data, addr, rsrc, soff, _, _, _) =>
      EncodeSrc(soff) * 0x100_0000 + rsrc / 4 * 0x1_0000 + data.n * 0x100 + addr.n
    case Mimg(_, data, addr, rsrc, samp, _, _) =>
      samp / 4 * 0x20_0000 + rsrc / 4 * 0x1_0000 + data.n * 0x100 + addr.n
    case Exp(_, a, b, c, d, _, _, _) =>
      ExpField(d) * 0x100_0000 + ExpField(c) * 0x1_0000 + ExpField(b) * 0x100 + ExpField(a)
  }

  lemma WordsFit(inst: Inst)
    requires Legal(inst)
    ensures 0 <= Word0(inst) < TWO32
    ensures inst.Vop3? || inst.Mubuf? || inst.Mimg? || inst.Exp? ==> 0 <= Word1(inst) < TWO32
  {
  }

  function Encode(inst: Inst): seq<u32>
    requires Legal(inst)
  {
    WordsFit(inst);
    [Word0(inst)] +
    match inst
    case Sopc(_, a, b) => Tail(a, b)
    case Sop1(_, _, a) => Tail(a, a)
    case Sop2(_, _, a, b) => Tail(a, b)
    case Vop1(_, _, a) => Tail(a, a)
    case Vop2(_, _, a, _, k) => if k.Some? then [k.value] else Tail(a, a)
    case Vopc(_, a, _) => Tail(a, a)
    case Vop3(_, _, _, _, _, _, _, _, _) => [Word1(inst)]
    case Mubuf(_, _, _, _, _, _, _, _) => [Word1(inst)]
    case Mimg(_, _, _, _, _, _, _) => [Word1(inst)]
    case Exp(_, _, _, _, _, _, _, _) => [Word1(inst)]
    case _ => []
  }

  // ---- field arithmetic ---------------------------------------------------------------------

  lemma Peel(w: int, hi: int, m: int, lo: int)
    requires m > 0 && 0 <= lo < m && w == hi * m + lo
    ensures w / m == hi && w % m == lo
  {
    DivModUnique(hi, lo, m);
  }

  // The field `mid` of width `midm` above a low part of width `lom`.
  lemma Slice(w: int, hi: int, midm: int, mid: int, lom: int, lo: int)
    requires midm > 0 && lom > 0 && 0 <= mid < midm && 0 <= lo < lom && w == (hi * midm + mid) * lom + lo
    ensures w / lom == hi * midm + mid && w / lom % midm == mid && w % lom == lo
  {
    Peel(w, hi * midm + mid, lom, lo);
    Peel(hi * midm + mid, hi, midm, mid);
  }

  lemma DivDiv(w: int, a: int, b: int)
    requires a > 0 && b > 0 && w >= 0
    ensures w / (a * b) == w / a / b
  {
    var q, r := w / a, w % a;
    var p, s := q / b, q % b;
    assert w == q * a + r && q == p * b + s;
    Regroup(p, b, s, a, r);
    GridBound(s, r, b, a);
    assert a * b == b * a > 0;
    Peel(w, p, a * b, s * a + r);
  }

  lemma Regroup(p: int, b: int, s: int, a: int, r: int)
    ensures (p * b + s) * a + r == p * (a * b) + (s * a + r)
  {
    assert (p * b + s) * a == p * b * a + s * a;
    assert p * b * a == p * (b * a) == p * (a * b);
  }

  // The prefix of every format shows in the top seven bits.
  function FormatOfTop(top: int): Format {
    if top / 2 == 0x3E then FExp
    else if top / 2 == 0x38 then FMubuf
    else if top / 2 == 0x3C then FMimg
    else if top / 2 == 0x32 then FVintrp
    else if top == 0x3F then FVop1
    else if top == 0x3E then FVopc
    else if top / 2 == 0x34 then FVop3
    else if top / 4 == 0x18 then FSmrd
    else if top / 32 == 2 then FScalar
    else if top / 64 == 0 then FVop2
    else FUnknown
  }

  lemma FormatByTop(w: int, top: int, rest: int)
    requires top >= 0 && 0 <= rest < 0x200_0000 && w == top * 0x200_0000 + rest
    ensures FormatOf(w) == FormatOfTop(top)
  {
    Peel(w, top, 0x200_0000, rest);
    DivDiv(w, 0x200_0000, 2);
    DivDiv(w, 0x200_0000, 4);
    DivDiv(w, 0x200_0000, 32);
    DivDiv(w, 0x200_0000, 64);
  }

  // ---- one lemma per format -----------------------------------------------------------------

  lemma SrcKept(o: Operand, limit: int, words: seq<u32>)
    requires SrcOk(o, limit) && (o.Literal? ==> SecondWord(words) == o.word)
    ensures 0 <= EncodeSrc(o) < 512 && (limit == 256 ==> EncodeSrc(o) < 256)
    ensures ReadSrc(EncodeSrc(o), words) == o && (EncodeSrc(o) == LITERAL_SRC) == o.Literal?
  {
  }

  lemma ScalarFields(w: int, p: int, d: int, s1: int, s0: int)
    requires p >= 0 && 0 <= d < 0x80 && 0 <= s1 < 0x100 && 0 <= s0 < 0x100
    requires w == p * 0x80_0000 + d * 0x1_0000 + s1 * 0x100 + s0
    ensures w / 0x80_0000 == p && w / 0x1_0000 % 0x80 == d && w / 0x100 % 0x100 == s1 && w % 0x100 == s0
    ensures w / 0x1000_0000 == p / 0x20 && w % 0x1_0000 == s1 * 0x100 + s0
    ensures FormatOf(w) == FormatOfTop(p / 4)
  {
    hide FormatOf, FormatOfTop;
    Peel(w, p, 0x80_0000, d * 0x1_0000 + s1 * 0x100 + s0);
    Slice(w, p, 0x80, d, 0x1_0000, s1 * 0x100 + s0);
    Slice(w, p * 0x80 + d, 0x100, s1, 0x100, s0);
    DivDiv(w, 0x80_0000, 0x20);
    FormatByTop(w, p / 4, p % 4 * 0x80_0000 + d * 0x1_0000 + s1 * 0x100 + s0);
  }

  lemma SoppRoundTrip(inst: Inst, words: seq<u32>)
    requires inst.Sopp? && Legal(inst) && Encode(inst) <= words
    ensures DecodeOne(words) == Decoded(inst, |Encode(inst)|, 0)
  {
    hide DecodeSrc, FormatOf, ReadSrc;
    ScalarFields(words[0], 0x17F, inst.op, inst.simm16 / 0x100, inst.simm16 % 0x100);
  }

  lemma SopcRoundTrip(inst: Inst, words: seq<u32>)
    requires inst.Sopc? && Legal(inst) && Encode(inst) <= words
    ensures DecodeOne(words) == Decoded(inst, |Encode(inst)|, 0)
  {
    hide DecodeSrc, FormatOf, EncodeSrc, Named, ReadSrc;
    SrcKept(inst.ssrc0, 256, words);
    SrcKept(inst.ssrc1, 256, words);
    ScalarFields(words[0], 0x17E, inst.op, EncodeSrc(inst.ssrc1), EncodeSrc(inst.ssrc0));
  }

  lemma Sop1RoundTrip(inst: Inst, words: seq<u32>)
    requires inst.Sop1? && Legal(inst) && Encode(inst) <= words
    ensures DecodeOne(words) == Decoded(inst, |Encode(inst)|, 0)
  {
    hide DecodeSrc, FormatOf, EncodeSrc, ReadSrc;
    SrcKept(inst.ssrc0, 256, words);
    ScalarFields(words[0], 0x17D, EncodeSrc(inst.sdst), inst.op, EncodeSrc(inst.ssrc0));
  }

  lemma SopkRoundTrip(inst: Inst, words: seq<u32>)
    requires inst.Sopk? && Legal(inst) && Encode(inst) <= words
    ensures DecodeOne(words) == Decoded(inst, |Encode(inst)|, 0)
  {
    hide DecodeSrc, FormatOf, EncodeSrc, ReadSrc;
    var imm := if inst.simm >= 0 then inst.simm else inst.simm + 0x1_0000;
    ScalarFields(words[0], 0xB * 0x20 + inst.op, EncodeSrc(inst.sdst), imm / 0x100, imm % 0x100);
    Peel(0xB * 0x20 + inst.op, 0xB, 0x20, inst.op);
  }

  lemma Sop2RoundTrip(inst: Inst, words: seq<u32>)
    requires inst.Sop2? && Legal(inst) && Encode(inst) <= words
    ensures DecodeOne(words) == Decoded(inst, |Encode(inst)|, 0)
  {
    hide DecodeSrc, FormatOf, EncodeSrc, ReadSrc;
    SrcKept(inst.ssrc0, 256, words);
    SrcKept(inst.ssrc1, 256, words);
    ScalarFields(words[0], 0x100 + inst.op, EncodeSrc(inst.sdst), EncodeSrc(inst.ssrc1), EncodeSrc(inst.ssrc0));
    Peel(0x100 + inst.op, 2, 0x80, inst.op);
  }

  lemma SmrdRoundTrip(inst: Inst, words: seq<u32>)
    requires inst.Smrd? && Legal(inst) && Encode(inst) <= words
    ensures DecodeOne(words) == Decoded(inst, |Encode(inst)|, 0)
  {
    hide DecodeSrc, FormatOf, EncodeSrc;
    var w: int, i := words[0], B(inst.imm);
    var d, half := EncodeSrc(inst.sdst), inst.sbase / 2;
    Slice(w, 0x18, 0x20, inst.op, 0x40_0000, d * 0x8000 + half * 0x200 + i * 0x100 + inst.offset);
    Slice(w, 0x18 * 0x20 + inst.op, 0x80, d, 0x8000, half * 0x200 + i * 0x100 + inst.offset);
    Slice(w, (0x18 * 0x20 + inst.op) * 0x80 + d, 0x40, half, 0x200, i * 0x100 + inst.offset);
    Slice(w, ((0x18 * 0x20 + inst.op) * 0x80 + d) * 0x40 + half, 2, i, 0x100, inst.offset);
    FormatByTop(w, 0x60 + inst.op / 8, inst.op % 8 * 0x40_0000 + d * 0x8000 + half * 0x200 + i * 0x100 + inst.offset);
  }

  lemma VopFields(w: int, top: int, f2: int, f1: int, f0: int)
    requires 0 <= top < 0x40 && 0 <= f2 < 0x100 && 0 <= f1 < 0x100 && 0 <= f0 < 0x200
    requires w == top * 0x200_0000 + f2 * 0x2_0000 + f1 * 0x200 + f0
    ensures w / 0x200_0000 % 0x40 == top && w / 0x2_0000 % 0x100 == f2 && w / 0x200 % 0x100 == f1 && w % 0x200 == f0
    ensures FormatOf(w) == FormatOfTop(top)
  {
    hide FormatOf, FormatOfTop;
    Slice(w, 0, 0x40, top, 0x200_0000, f2 * 0x2_0000 + f1 * 0x200 + f0);
    Slice(w, top, 0x100, f2, 0x2_0000, f1 * 0x200 + f0);
    Slice(w, top * 0x100 + f2, 0x100, f1, 0x200, f0);
    FormatByTop(w, top, f2 * 0x2_0000 + f1 * 0x200 + f0);
  }

  lemma Vop1RoundTrip(inst: Inst, words: seq<u32>)
    requires inst.Vop1? && Legal(inst) && Encode(inst) <= words
    ensures DecodeOne(words) == Decoded(inst, |Encode(inst)|, 0)
  {
    hide DecodeSrc, FormatOf, EncodeSrc, ReadSrc;
    SrcKept(inst.src0, 512, words);
    VopFields(words[0], 0x3F, inst.vdst.n, inst.op, EncodeSrc(inst.src0));
  }

  lemma Vop2RoundTrip(inst: Inst, words: seq<u32>)
    requires inst.Vop2? && Legal(inst) && Encode(inst) <= words
    ensures DecodeOne(words) == Decoded(inst, |Encode(inst)|, 0)
  {
    hide DecodeSrc, FormatOf, EncodeSrc, ReadSrc;
    SrcKept(inst.src0, 512, words);
    VopFields(words[0], inst.op, inst.vdst.n, inst.vsrc1.n, EncodeSrc(inst.src0));
  }

  lemma VopcRoundTrip(inst: Inst, words: seq<u32>)
    requires inst.Vopc? && Legal(inst) && Encode(inst) <= words
    ensures DecodeOne(words) == Decoded(inst, |Encode(inst)|, 0)
  {
    hide DecodeSrc, FormatOf, EncodeSrc, ReadSrc;
    SrcKept(inst.src0, 512, words);
    VopFields(words[0], 0x3E, inst.op, inst.vsrc1.n, EncodeSrc(inst.src0));
  }

  lemma Vop3Low(w: int, op: int, clamp: int, abs: int, d: int)
    requires 0 <= op < 0x200 && 0 <= clamp < 2 && 0 <= abs < 8 && 0 <= d < 0x100
    requires w == 0x34 * 0x400_0000 + op * 0x2_0000 + clamp * 0x800 + abs * 0x100 + d
    ensures w / 0x2_0000 % 0x200 == op && w / 0x800 % 2 == clamp && w / 0x100 % 8 == abs && w % 0x100 == d
    ensures FormatOf(w) == FVop3
  {
    hide FormatOf;
    var low := clamp * 0x800 + abs * 0x100 + d;
    Slice(w, 0x34, 0x200, op, 0x2_0000, low);
    Slice(w, (0x34 * 0x200 + op) * 0x20, 2, clamp, 0x800, abs * 0x100 + d);
    Slice(w, (0x34 * 0x200 + op) * 0x40 + clamp, 8, abs, 0x100, d);
    FormatByTop(w, 0x68 + op / 0x100, op % 0x100 * 0x2_0000 + low);
  }

  lemma Vop3High(w: int, neg: int, omod: int, c: int, b: int, a: int)
    requires 0 <= neg < 8 && 0 <= omod < 4 && 0 <= c < 0x200 && 0 <= b < 0x200 && 0 <= a < 0x200
    requires w == neg * 0x2000_0000 + omod * 0x800_0000 + c * 0x4_0000 + b * 0x200 + a
    ensures w / 0x2000_0000 % 8 == neg && w / 0x800_0000 % 4 == omod
    ensures w / 0x4_0000 % 0x200 == c && w / 0x200 % 0x200 == b && w % 0x200 == a
  {
    Slice(w, 0, 8, neg, 0x2000_0000, omod * 0x800_0000 + c * 0x4_0000 + b * 0x200 + a);
    Slice(w, neg, 4, omod, 0x800_0000, c * 0x4_0000 + b * 0x200 + a);
    Slice(w, neg * 4 + omod, 0x200, c, 0x4_0000, b * 0x200 + a);
    Slice(w, (neg * 4 + omod) * 0x200 + c, 0x200, b, 0x200, a);
  }

  lemma Vop3RoundTrip(inst: Inst, words: seq<u32>)
    requires inst.Vop3? && Legal(inst) && Encode(inst) <= words
    ensures DecodeOne(words) == Decoded(inst, |Encode(inst)|, 0)
  {
    hide DecodeSrc, FormatOf, EncodeSrc;
    var d := if inst.op < 0x100 then EncodeSrc(inst.vdst) else inst.vdst.n;
    Vop3Low(words[0], inst.op, B(inst.clamp), inst.abs, d);
    Vop3High(words[1], inst.neg, inst.omod, EncodeSrc(inst.src2), EncodeSrc(inst.src1), EncodeSrc(inst.src0));
  }

  lemma VintrpRoundTrip(inst: Inst, words: seq<u32>)
    requires inst.Vintrp? && Legal(inst) && Encode(inst) <= words
    ensures DecodeOne(words) == Decoded(inst, |Encode(inst)|, 0)
  {
    hide FormatOf;
    var w: int, d: int, op: int, attr: int, chan: int, s: int := words[0], inst.vdst.n, inst.op, inst.attr, inst.chan, inst.vsrc.n;
    Slice(w, 0x32, 0x100, d, 0x4_0000, op * 0x1_0000 + attr * 0x400 + chan * 0x100 + s);
    Slice(w, 0x32 * 0x100 + d, 4, op, 0x1_0000, attr * 0x400 + chan * 0x100 + s);
    Slice(w, (0x32 * 0x100 + d) * 4 + op, 0x40, attr, 0x400, chan * 0x100 + s);
    Slice(w, ((0x32 * 0x100 + d) * 4 + op) * 0x40 + attr, 4, chan, 0x100, s);
    FormatByTop(w, 0x64 + d / 0x80, d % 0x80 * 0x4_0000 + op * 0x1_0000 + attr * 0x400 + chan * 0x100 + s);
  }

  lemma MubufRoundTrip(inst: Inst, words: seq<u32>)
    requires inst.Mubuf? && Legal(inst) && Encode(inst) <= words
    ensures DecodeOne(words) == Decoded(inst, |Encode(inst)|, 0)
  {
    hide DecodeSrc, FormatOf;
    var w: int, v: int, op: int, i, o := words[0], words[1], inst.op, B(inst.idxen), B(inst.offen);
    Slice(w, 0x70, 0x80, op, 0x4_0000, i * 0x2000 + o * 0x1000 + inst.offset);
    Slice(w, (0x70 * 0x80 + op) * 0x10, 2, i, 0x2000, o * 0x1000 + inst.offset);
    Slice(w, (0x70 * 0x80 + op) * 0x20 + i, 2, o, 0x1000, inst.offset);
    FormatByTop(w, 0x70, op * 0x4_0000 + i * 0x2000 + o * 0x1000 + inst.offset);
    var soff, rsrc, data: int, addr: int := EncodeSrc(inst.soffset), inst.srsrc / 4, inst.vdata.n, inst.vaddr.n;
    Slice(v, 0, 0x100, soff, 0x100_0000, rsrc * 0x1_0000 + data * 0x100 + addr);
    Slice(v, soff * 8, 0x20, rsrc, 0x1_0000, data * 0x100 + addr);
    Slice(v, soff * 0x100 + rsrc, 0x100, data, 0x100, addr);
  }

  lemma MimgRoundTrip(inst: Inst, words: seq<u32>)
    requires inst.Mimg? && Legal(inst) && Encode(inst) <= words
    ensures DecodeOne(words) == Decoded(inst, |Encode(inst)|, 0)
  {
    hide FormatOf;
    var w: int, v: int, op: int, u, m: int := words[0], words[1], inst.op, B(inst.unrm), inst.dmask;
    Slice(w, 0x78, 0x80, op, 0x4_0000, u * 0x1000 + m * 0x100);
    Slice(w, (0x78 * 0x80 + op) * 0x20, 2, u, 0x1000, m * 0x100);
    Slice(w, (0x78 * 0x80 + op) * 0x40 + u, 0x10, m, 0x100, 0);
    FormatByTop(w, 0x78, op * 0x4_0000 + u * 0x1000 + m * 0x100);
    var samp, rsrc, data: int, addr: int := inst.ssamp / 4, inst.srsrc / 4, inst.vdata.n, inst.vaddr.n;
    Slice(v, 0, 0x20, samp, 0x20_0000, rsrc * 0x1_0000 + data * 0x100 + addr);
    Slice(v, samp, 0x20, rsrc, 0x1_0000, data * 0x100 + addr);
    Slice(v, samp * 0x20 + rsrc, 0x100, data, 0x100, addr);
  }

  lemma ExpLow(w: int, vm: int, done: int, compr: int, t: int, d: int, c: int, b: int, a: int)
    requires 0 <= vm < 2 && 0 <= done < 2 && 0 <= compr < 2 && 0 <= t < 0x40
    requires 0 <= d < 2 && 0 <= c < 2 && 0 <= b < 2 && 0 <= a < 2
    requires w == 0x3E * 0x400_0000 + vm * 0x1000 + done * 0x800 + compr * 0x400 + t * 0x10 + d * 8 + c * 4 + b * 2 + a
    ensures w / 0x1000 % 2 == vm && w / 0x800 % 2 == done && w / 0x400 % 2 == compr && w / 0x10 % 0x40 == t
    ensures w / 8 % 2 == d && w / 4 % 2 == c && w / 2 % 2 == b && w % 2 == a
    ensures FormatOf(w) == FExp
  {
    hide FormatOf;
    var en := d * 8 + c * 4 + b * 2 + a;
    Slice(w, 0x3E * 0x2000, 2, vm, 0x1000, done * 0x800 + compr * 0x400 + t * 0x10 + en);
    Slice(w, 0x3E * 0x4000 + vm, 2, done, 0x800, compr * 0x400 + t * 0x10 + en);
    Slice(w, 0x3E * 0x8000 + vm * 2 + done, 2, compr, 0x400, t * 0x10 + en);
    var high := 0x3E * 0x1_0000 + vm * 4 + done * 2 + compr;
    Slice(w, high, 0x40, t, 0x10, en);
    Slice(w, high * 0x40 + t, 2, d, 8, c * 4 + b * 2 + a);
    Slice(w, (high * 0x40 + t) * 2 + d, 2, c, 4, b * 2 + a);
    Slice(w, (high * 0x40 + t) * 4 + d * 2 + c, 2, b, 2, a);
    FormatByTop(w, 0x7C, vm * 0x1000 + done * 0x800 + compr * 0x400 + t * 0x10 + en);
  }

  lemma ExpHigh(v: int, d: int, c: int, b: int, a: int)
    requires 0 <= d < 0x100 && 0 <= c < 0x100 && 0 <= b < 0x100 && 0 <= a < 0x100
    requires v == d * 0x100_0000 + c * 0x1_0000 + b * 0x100 + a
    ensures v / 0x100_0000 % 0x100 == d && v / 0x1_0000 % 0x100 == c && v / 0x100 % 0x100 == b && v % 0x100 == a
  {
    Slice(v, 0, 0x100, d, 0x100_0000, c * 0x1_0000 + b * 0x100 + a);
    Slice(v, d, 0x100, c, 0x1_0000, b * 0x100 + a);
    Slice(v, d * 0x100 + c, 0x100, b, 0x100, a);
  }

  lemma ExpRoundTrip(inst: Inst, words: seq<u32>)
    requires inst.Exp? && Legal(inst) && Encode(inst) <= words
    ensures DecodeOne(words) == Decoded(inst, |Encode(inst)|, 0)
  {
    hide EncodeTarget, DecodeTarget, FormatOf;
    ExpLow(words[0], B(inst.vm), B(inst.done), B(inst.compr), EncodeTarget(inst.target),
           B(inst.e3.Some?), B(inst.e2.Some?), B(inst.e1.Some?), B(inst.e0.Some?));
    ExpHigh(words[1], ExpField(inst.e3), ExpField(inst.e2), ExpField(inst.e1), ExpField(inst.e0));
  }

  // Decoding the encoding recovers exactly the format and the fields, whatever follows.
  lemma DecodeInvertsEncode(inst: Inst, rest: seq<u32>)
    requires Legal(inst)
    ensures DecodeOne(Encode(inst) + rest) == Decoded(inst, |Encode(inst)|, 0)
  {
    hide Legal, DecodeOne, Encode;
    var words := Encode(inst) + rest;
    match inst
    case Sopp(_, _) => SoppRoundTrip(inst, words);
    case Sopc(_, _, _) => SopcRoundTrip(inst, words);
    case Sop1(_, _, _) => Sop1RoundTrip(inst, words);
    case Sopk(_, _, _) => SopkRoundTrip(inst, words);
    case Sop2(_, _, _, _) => Sop2RoundTrip(inst, words);
    case Smrd(_, _, _, _, _) => SmrdRoundTrip(inst, words);
    case Vop1(_, _, _) => Vop1RoundTrip(inst, words);
    case Vop2(_, _, _, _, _) => Vop2RoundTrip(inst, words);
    case Vopc(_, _, _) => VopcRoundTrip(inst, words);
    case Vop3(_, _, _, _, _, _, _, _, _) => Vop3RoundTrip(inst, words);
    case Vintrp(_, _, _, _, _) => VintrpRoundTrip(inst, words);
    case Mubuf(_, _, _, _, _, _, _, _) => MubufRoundTrip(inst, words);
    case Mimg(_, _, _, _, _, _, _) => MimgRoundTrip(inst, words);
    case Exp(_, _, _, _, _, _, _, _) => ExpRoundTrip(inst, words);
    case Unknown(_) => UnknownIsIllegal(inst);
  }

  lemma UnknownIsIllegal(inst: Inst)
    ensures inst.Unknown? ==> !Legal(inst)
  {
  }
}
