// The GCN machine-code decoder: the 9-bit source field, dispatch on the encoding prefix, the
// fields of each format, and the walk over a code buffer. Bit positions are those of the AMD
// Sea Islands Series Instruction Set Architecture, chapter 13 and Table 6.1.

module Decoder {
  import opened Words
  import opened Isa

  const LITERAL_SRC: int := 255

  // ---- the 9-bit source field ------------------------------------------------------------

  function DecodeSrc(field: int): Operand
    requires 0 <= field < 512
  {
    if field <= 103 then Sgpr(field)
    else if field <= 105 then Raw(field)
    else if field == 106 then Special(VccLo)
    else if field == 107 then Special(VccHi)
    else if field == 124 then Special(M0)
    else if field == 126 then Special(ExecLo)
    else if field == 127 then Special(ExecHi)
    else if 128 <= field <= 192 then InlineInt(field - 128)
    else if 193 <= field <= 208 then InlineInt(-(field - 192))
    else if field == 240 then InlineFloat(0x3F00_0000)
    else if field == 241 then InlineFloat(0xBF00_0000)
    else if field == 242 then InlineFloat(0x3F80_0000)
    else if field == 243 then InlineFloat(0xBF80_0000)
    else if field == 244 then InlineFloat(0x4000_0000)
    else if field == 245 then InlineFloat(0xC000_0000)
    else if field == 246 then InlineFloat(0x4080_0000)
    else if field == 247 then InlineFloat(0xC080_0000)
    else if field == LITERAL_SRC then Literal(0)
    else if field == 253 then Special(Scc)
    else if field >= 256 then Vgpr(field - 256)
    else Raw(field)
  }

  // The operand of a field in a format that allows a literal, and whether it took one.
  function ReadSrc(field: int, words: seq<u32>): Operand
    requires 0 <= field < 512
  {
    if field == LITERAL_SRC then Literal(SecondWord(words)) else DecodeSrc(field)
  }

  function SecondWord(words: seq<u32>): u32 {
    if |words| > 1 then words[1] else 0
  }

  // Dwords of a one-word format whose fields are `a` and `b`: a literal adds one, once.
  function Size(a: int, b: int): u32 {
    if a == LITERAL_SRC || b == LITERAL_SRC then 2 else 1
  }

  // ---- formats ---------------------------------------------------------------------------

  function DecodeScalar(words: seq<u32>): Decoded
    requires |words| > 0
  {
    var w0: int := words[0];
    var s0, s1 := w0 % 0x100, w0 / 0x100 % 0x100;
    if w0 / 0x80_0000 == 0x17F then
      Decoded(Sopp(w0 / 0x1_0000 % 0x80, w0 % 0x1_0000), 1, 0)
    else if w0 / 0x80_0000 == 0x17E then
      Decoded(Sopc(w0 / 0x1_0000 % 0x80, ReadSrc(s0, words), ReadSrc(s1, words)), Size(s0, s1), 0)
    else if w0 / 0x80_0000 == 0x17D then
      Decoded(Sop1(s1, DecodeSrc(w0 / 0x1_0000 % 0x80), ReadSrc(s0, words)), Size(s0, 0), 0)
    else if w0 / 0x1000_0000 == 0xB then
      var imm := w0 % 0x1_0000;
      Decoded(Sopk(w0 / 0x80_0000 % 0x20, DecodeSrc(w0 / 0x1_0000 % 0x80),
                   if imm < 0x8000 then imm else imm - 0x1_0000), 1, 0)
    else
      Decoded(Sop2(w0 / 0x80_0000 % 0x80, DecodeSrc(w0 / 0x1_0000 % 0x80),
                   ReadSrc(s0, words), ReadSrc(s1, words)), Size(s0, s1), 0)
  }

  function DecodeSmrd(w0: int): Decoded
    requires 0 <= w0 < TWO32
  {
    Decoded(Smrd(w0 / 0x40_0000 % 0x20, DecodeSrc(w0 / 0x8000 % 0x80), w0 / 0x200 % 0x40 * 2,
                 w0 / 0x100 % 2 == 1, w0 % 0x100), 1, 0)
  }

  function DecodeVop1(words: seq<u32>): Decoded
    requires |words| > 0
  {
    var w0: int := words[0];
    Decoded(Vop1(w0 / 0x200 % 0x100, Vgpr(w0 / 0x2_0000 % 0x100), ReadSrc(w0 % 0x200, words)),
            Size(w0 % 0x200, 0), 0)
  }

  function DecodeVop2(words: seq<u32>): Decoded
    requires |words| > 0
  {
    var w0: int := words[0];
    var op := w0 / 0x200_0000 % 0x40;
    var k := if HasInlineLiteral(op) then Some(SecondWord(words)) else None;
    Decoded(Vop2(op, Vgpr(w0 / 0x2_0000 % 0x100), ReadSrc(w0 % 0x200, words), Vgpr(w0 / 0x200 % 0x100), k),
            if k.Some? then 2 else Size(w0 % 0x200, 0), 0)
  }

  function DecodeVopc(words: seq<u32>): Decoded
    requires |words| > 0
  {
    var w0: int := words[0];
    Decoded(Vopc(w0 / 0x2_0000 % 0x100, ReadSrc(w0 % 0x200, words), Vgpr(w0 / 0x200 % 0x100)),
            Size(w0 % 0x200, 0), 0)
  }

  function DecodeVop3(words: seq<u32>): Decoded
    requires |words| > 0
  {
    var w0: int, w1: int := words[0], SecondWord(words);
    var op := w0 / 0x2_0000 % 0x200;
    var vdst := if op < 0x100 then DecodeSrc(w0 % 0x100) else Vgpr(w0 % 0x100);
    Decoded(Vop3(op, vdst, DecodeSrc(w1 % 0x200), DecodeSrc(w1 / 0x200 % 0x200), DecodeSrc(w1 / 0x4_0000 % 0x200),
                 w0 / 0x100 % 8, w1 / 0x2000_0000 % 8, w1 / 0x800_0000 % 4, w0 / 0x800 % 2 == 1), 2, 0)
  }

  function DecodeVintrp(w0: int): Decoded
    requires 0 <= w0 < TWO32
  {
    Decoded(Vintrp(w0 / 0x1_0000 % 4, Vgpr(w0 / 0x4_0000 % 0x100), Vgpr(w0 % 0x100),
                   w0 / 0x400 % 0x40, w0 / 0x100 % 4), 1, 0)
  }

  function DecodeMubuf(words: seq<u32>): Decoded
    requires |words| > 0
  {
    var w0: int, w1: int := words[0], SecondWord(words);
    var soff := w1 / 0x100_0000 % 0x100;
    Decoded(Mubuf(w0 / 0x4_0000 % 0x80, Vgpr(w1 / 0x100 % 0x100), Vgpr(w1 % 0x100), w1 / 0x1_0000 % 0x20 * 4,
                  if soff == LITERAL_SRC then Raw(soff) else DecodeSrc(soff),
                  w0 % 0x1000, w0 / 0x2000 % 2 == 1, w0 / 0x1000 % 2 == 1), 2, 0)
  }

  function DecodeMimg(words: seq<u32>): Decoded
    requires |words| > 0
  {
    var w0: int, w1: int := words[0], SecondWord(words);
    Decoded(Mimg(w0 / 0x4_0000 % 0x80, Vgpr(w1 / 0x100 % 0x100), Vgpr(w1 % 0x100), w1 / 0x1_0000 % 0x20 * 4,
                 w1 / 0x20_0000 % 0x20 * 4, w0 / 0x100 % 0x10, w0 / 0x1000 % 2 == 1), 2, 0)
  }

  function DecodeTarget(tgt: int): ExportTarget
    requires 0 <= tgt < 64
  {
    if tgt <= 7 then Mrt(tgt)
    else if tgt == 8 then MrtZ
    else if tgt == 9 then Null
    else if 12 <= tgt <= 15 then Pos(tgt - 12)
    else if tgt >= 32 then Param(tgt - 32)
    else RawTarget(tgt)
  }

  function ExpSrc(enabled: bool, field: int): Option<Operand>
    requires 0 <= field < 256
  {
    if enabled then Some(Vgpr(field)) else None
  }

  function DecodeExp(words: seq<u32>): Decoded
    requires |words| > 0
  {
    var w0: int, w1: int := words[0], SecondWord(words);
    Decoded(Exp(DecodeTarget(w0 / 0x10 % 0x40),
                ExpSrc(w0 % 2 == 1, w1 % 0x100), ExpSrc(w0 / 2 % 2 == 1, w1 / 0x100 % 0x100),
                ExpSrc(w0 / 4 % 2 == 1, w1 / 0x1_0000 % 0x100), ExpSrc(w0 / 8 % 2 == 1, w1 / 0x100_0000 % 0x100),
                w0 / 0x800 % 2 == 1, w0 / 0x400 % 2 == 1, w0 / 0x1000 % 2 == 1), 2, 0)
  }

  // The encoding classes; longer prefixes are tested first.
  datatype Format = FExp | FMubuf | FMimg | FVintrp | FVop1 | FVopc | FVop3 | FSmrd | FScalar | FVop2 | FUnknown

  function FormatOf(w0: int): Format {
    if w0 / 0x400_0000 == 0x3E then FExp
    else if w0 / 0x400_0000 == 0x38 then FMubuf
    else if w0 / 0x400_0000 == 0x3C then FMimg
    else if w0 / 0x400_0000 == 0x32 then FVintrp
    else if w0 / 0x200_0000 == 0x3F then FVop1
    else if w0 / 0x200_0000 == 0x3E then FVopc
    else if w0 / 0x400_0000 == 0x34 then FVop3
    else if w0 / 0x800_0000 == 0x18 then FSmrd
    else if w0 / 0x4000_0000 == 2 then FScalar
    else if w0 / 0x8000_0000 == 0 then FVop2
    else FUnknown
  }

  function DecodeOne(words: seq<u32>): (d: Decoded)
    requires |words| > 0
    ensures d.size == 1 || d.size == 2
  {
    match FormatOf(words[0])
    case FExp => DecodeExp(words)
    case FMubuf => DecodeMubuf(words)
    case FMimg => DecodeMimg(words)
    case FVintrp => DecodeVintrp(words[0])
    case FVop1 => DecodeVop1(words)
    case FVopc => DecodeVopc(words)
    case FVop3 => DecodeVop3(words)
    case FSmrd => DecodeSmrd(words[0])
    case FScalar => DecodeScalar(words)
    case FVop2 => DecodeVop2(words)
    case FUnknown => Decoded(Unknown(words[0]), 1, 0)
  }

  // ---- the walk ---------------------------------------------------------------------------

  // The instruction at `pc`, its length clamped to the words that remain.
  function DecodeAt(code: seq<u32>, pc: nat): (d: Decoded)
    requires pc < |code| < TWO32
    ensures 1 <= d.size <= 2 && pc + d.size <= |code| && d.offset == pc
  {
    var d := DecodeOne(code[pc..]);
    var size: u32 := if d.size > |code| - pc then |code| - pc else d.size;
    d.(offset := pc, size := size)
  }

  function DecodeFrom(code: seq<u32>, pc: nat): seq<Decoded>
    requires pc <= |code| < TWO32
    decreases |code| - pc
  {
    if pc == |code| then [] else [DecodeAt(code, pc)] + DecodeFrom(code, pc + DecodeAt(code, pc).size)
  }

  method DecodeAll(code: seq<u32>) returns (out: seq<Decoded>)
    requires |code| < TWO32
    ensures out == DecodeFrom(code, 0)
  {
    hide DecodeAt;
    out := [];
    var pc := 0;
    while pc < |code|
      invariant pc <= |code| && out + DecodeFrom(code, pc) == DecodeFrom(code, 0)
      decreases |code| - pc
    {
      var d := DecodeAt(code, pc);
      assert out + ([d] + DecodeFrom(code, pc + d.size)) == (out + [d]) + DecodeFrom(code, pc + d.size);
      pc := pc + d.size;
      out := out + [d];
    }
    assert out + [] == out;
  }

  // ---- tiling ---------------------------------------------------------------------------

  // `ds` covers the dwords `lo..hi` with no gap and no overlap.
  ghost predicate Tiles(ds: seq<Decoded>, lo: nat, hi: nat) {
    if |ds| == 0 then lo == hi
    else ds[0].offset == lo && 1 <= ds[0].size <= 2 && Tiles(ds[1..], lo + ds[0].size, hi)
  }

  // Decoded sizes are 1 or 2, offsets are the running sum, and the sizes sum to the length.
  lemma {:induction false} DecodeTiles(code: seq<u32>, pc: nat)
    requires pc <= |code| < TWO32
    ensures Tiles(DecodeFrom(code, pc), pc, |code|)
    decreases |code| - pc
  {
    hide DecodeAt;
    if pc < |code| {
      var d := DecodeAt(code, pc);
      DecodeTiles(code, pc + d.size);
      assert DecodeFrom(code, pc)[1..] == DecodeFrom(code, pc + d.size);
    }
  }

  lemma {:induction false} TilesIncrease(ds: seq<Decoded>, lo: nat, hi: nat)
    requires Tiles(ds, lo, hi)
    ensures forall i :: 0 <= i < |ds| ==> lo <= ds[i].offset
    ensures forall i, j :: 0 <= i < j < |ds| ==> ds[i].offset < ds[j].offset
  {
    if |ds| > 0 {
      TilesIncrease(ds[1..], lo + ds[0].size, hi);
      forall i, j | 0 <= i < j < |ds|
        ensures ds[i].offset < ds[j].offset
      {
        assert ds[j] == ds[1..][j - 1];
        assert i > 0 ==> ds[i] == ds[1..][i - 1];
      }
      assert forall i :: 1 <= i < |ds| ==> ds[i] == ds[1..][i - 1];
    }
  }

  // ---- concatenation ----------------------------------------------------------------------

  // The instruction that starts `words` fits in them.
  predicate Fits(words: seq<u32>)
    requires |words| > 0
  {
    DecodeOne(words).size <= |words|
  }

  // Only the words an instruction occupies matter to it; and one cut short stays cut short.
  lemma DecodeLocal(a: seq<u32>, b: seq<u32>)
    requires |a| > 0
    ensures DecodeOne(a + b).size == DecodeOne(a).size
    ensures Fits(a) ==> DecodeOne(a + b) == DecodeOne(a)
  {
    assert (a + b)[0] == a[0];
    if |a| > 1 {
      assert (a + b)[1] == a[1];
      assert SecondWord(a + b) == SecondWord(a);
    }
  }

  // The walk from `pc` ends on an instruction boundary, nothing cut short.
  predicate EndsClean(code: seq<u32>, pc: nat)
    requires pc <= |code| < TWO32
    decreases |code| - pc
  {
    pc == |code| || (Fits(code[pc..]) && EndsClean(code, pc + DecodeAt(code, pc).size))
  }

  function Shift(ds: seq<Decoded>, delta: nat): seq<Decoded>
    requires forall i :: 0 <= i < |ds| ==> ds[i].offset + delta < TWO32
  {
    seq(|ds|, i requires 0 <= i < |ds| => ds[i].(offset := ds[i].offset + delta))
  }

  lemma AtConcat(a: seq<u32>, b: seq<u32>, pc: nat)
    requires pc < |a| && |a| + |b| < TWO32
    ensures Fits(a[pc..]) ==> DecodeAt(a + b, pc) == DecodeAt(a, pc)
    ensures !Fits(a[pc..]) && |b| > 0 ==> DecodeAt(a + b, pc).size > DecodeAt(a, pc).size
  {
    hide DecodeOne;
    assert (a + b)[pc..] == a[pc..] + b;
    DecodeLocal(a[pc..], b);
  }

  lemma AtRight(a: seq<u32>, b: seq<u32>, pc: nat)
    requires pc < |b| && |a| + |b| < TWO32
    ensures DecodeAt(a + b, |a| + pc) == DecodeAt(b, pc).(offset := |a| + pc)
  {
    hide DecodeOne;
    assert (a + b)[|a| + pc..] == b[pc..];
  }

  lemma {:induction false} OffsetsFit(code: seq<u32>, pc: nat)
    requires pc <= |code| < TWO32
    ensures forall i :: 0 <= i < |DecodeFrom(code, pc)| ==> pc <= DecodeFrom(code, pc)[i].offset < |code|
    decreases |code| - pc
  {
    hide DecodeAt;
    if pc < |code| {
      OffsetsFit(code, pc + DecodeAt(code, pc).size);
    }
  }

  function ShiftedTail(a: seq<u32>, b: seq<u32>, pc: nat): seq<Decoded>
    requires pc <= |b| && |a| + |b| < TWO32
  {
    OffsetsFit(b, pc);
    Shift(DecodeFrom(b, pc), |a|)
  }

  lemma ShiftedTailStep(a: seq<u32>, b: seq<u32>, pc: nat)
    requires pc < |b| && |a| + |b| < TWO32
    ensures pc + DecodeAt(b, pc).size <= |b|
    ensures ShiftedTail(a, b, pc) ==
              [DecodeAt(b, pc).(offset := |a| + pc)] + ShiftedTail(a, b, pc + DecodeAt(b, pc).size)
  {
    hide DecodeAt;
    var d := DecodeAt(b, pc);
    OffsetsFit(b, pc);
    OffsetsFit(b, pc + d.size);
    assert DecodeFrom(b, pc) == [d] + DecodeFrom(b, pc + d.size);
    hide DecodeFrom;
  }

  lemma {:induction false} RightHalf(a: seq<u32>, b: seq<u32>, pc: nat)
    requires pc <= |b| && |a| + |b| < TWO32
    ensures DecodeFrom(a + b, |a| + pc) == ShiftedTail(a, b, pc)
    decreases |b| - pc
  {
    hide DecodeAt;
    OffsetsFit(b, pc);
    if pc < |b| {
      AtRight(a, b, pc);
      RightHalf(a, b, pc + DecodeAt(b, pc).size);
      ShiftedTailStep(a, b, pc);
      hide ShiftedTail;
    }
  }

  // Decoding a concatenation is the concatenation of the decodings, the right one shifted,
  // exactly when the left part does not end in the middle of an instruction.
  lemma {:induction false} ConcatDecodes(a: seq<u32>, b: seq<u32>, pc: nat)
    requires pc <= |a| && |b| > 0 && |a| + |b| < TWO32
    ensures DecodeFrom(a + b, pc) == DecodeFrom(a, pc) + ShiftedTail(a, b, 0) <==> EndsClean(a, pc)
    decreases |a| - pc
  {
    hide DecodeAt, Fits;
    if pc == |a| {
      RightHalf(a, b, 0);
    } else {
      AtConcat(a, b, pc);
      var d := DecodeAt(a, pc);
      if Fits(a[pc..]) {
        ConcatDecodes(a, b, pc + d.size);
        var left, right := DecodeFrom(a, pc + d.size), ShiftedTail(a, b, 0);
        assert ([d] + left) + right == [d] + (left + right);
        assert ([d] + DecodeFrom(a + b, pc + d.size))[1..] == DecodeFrom(a + b, pc + d.size);
        assert ([d] + (left + right))[1..] == left + right;
      } else {
        assert DecodeFrom(a + b, pc)[0] == DecodeAt(a + b, pc);
        assert (DecodeFrom(a, pc) + ShiftedTail(a, b, 0))[0] == d;
      }
    }
  }
}
