// What scalar moves, scalar and buffer loads, image samples and exports leave behind, in terms of
// the registers before and after and of the bytes in memory.

module MemoryMeaning {
  import opened Words
  import opened Bits
  import opened Arithmetic
  import opened Isa
  import opened Wavefront
  import opened LaneLoops
  import opened LaneTurns
  import opened Operands

  // ---- scalar moves ---------------------------------------------------------------------------

  // s_mov_b32 puts the source in the destination and changes nothing else; a half of VCC keeps the
  // other half.
  lemma ScalarMoveCopies(env: Env, w: Wave, w': Wave, inst: Inst) returns (x: u32)
    requires inst.Sop1? && inst.op == 0x03 && ExecOne(env, w, inst) == Some(w')
    ensures !inst.ssrc0.Vgpr? && Reads(w, inst.ssrc0, 0, x)
    ensures match inst.sdst
            case Sgpr(n) => n < 104 && w' == w.(sgprs := w.sgprs[n := x])
            case Special(M0) => w' == w.(m0 := x)
            case Special(VccLo) => w' == w.(vcc := w'.vcc) && w'.vcc / 0x1_0000_0000 == w.vcc / 0x1_0000_0000 && HalfIs(w'.vcc, 0, x)
            case Special(VccHi) => w' == w.(vcc := w'.vcc) && w'.vcc % 0x1_0000_0000 == w.vcc % 0x1_0000_0000 && HalfIs(w'.vcc, 32, x)
            case _ => false
  {
    hide Reads, HalfIs;
    x := ReadScalar(w, inst.ssrc0).value;
    ReadsScalarIff(w, inst.ssrc0, x);
    HalvesOf(w'.vcc, x);
  }

  // Bit `k` of the 64-bit register `op` names.
  ghost predicate LongBit(w: Wave, op: Operand, k: nat) {
    match op
    case Sgpr(n) => if k < 32 then n < 104 && Bit(w.sgprs[n], k) else n + 1 < 104 && Bit(w.sgprs[n + 1], k - 32)
    case Special(VccLo) => Bit(w.vcc, k)
    case Special(ExecLo) => Bit(w.exec, k)
    case _ => false
  }

  // s_mov_b64 and s_wqm_b64 copy all 64 bits and change nothing else.
  lemma LongMoveCopies(env: Env, w: Wave, w': Wave, inst: Inst)
    requires inst.Sop1? && inst.op in {0x04, 0x0A} && ExecOne(env, w, inst) == Some(w')
    ensures forall k: nat :: k < 64 ==> LongBit(w', inst.sdst, k) == LongBit(w, inst.ssrc0, k)
    ensures match inst.sdst
            case Sgpr(n) => w' == w.(sgprs := w'.sgprs)
                            && forall r: nat :: r < 104 && r != n && r != n + 1 ==> w'.sgprs[r] == w.sgprs[r]
            case Special(VccLo) => w' == w.(vcc := w'.vcc)
            case Special(ExecLo) => w' == w.(exec := w'.exec)
            case _ => false
  {
    hide Bit;
    var v := ReadScalarPair(w, inst.ssrc0).value;
    forall k: nat | k < 64 ensures LongBit(w', inst.sdst, k) == LongBit(w, inst.ssrc0, k) {
      SourceBits(w, inst.ssrc0, k);
      BitOfPair(v % TWO32, v / TWO32, k);
    }
  }

  lemma SourceBits(w: Wave, op: Operand, k: nat)
    requires k < 64 && ReadScalarPair(w, op).Some?
    ensures LongBit(w, op, k) == Bit(ReadScalarPair(w, op).value, k)
  {
    hide Bit;
    if op.Sgpr? { BitOfPair(w.sgprs[op.n], w.sgprs[op.n + 1], k); }
  }

  // ---- memory ---------------------------------------------------------------------------------

  // `x` is the little-endian word of the four bytes at `at`.
  ghost predicate WordAt(bytes: seq<u8>, at: nat, x: u32) {
    && at + 4 <= |bytes|
    && bytes[at] == x % 0x100 && bytes[at + 1] == x / 0x100 % 0x100
    && bytes[at + 2] == x / 0x1_0000 % 0x100 && bytes[at + 3] == x / 0x100_0000
  }

  lemma LeWordAt(bytes: seq<u8>, at: nat)
    requires at + 4 <= |bytes|
    ensures WordAt(bytes, at, LeWord(bytes, at))
  {
    var b0: int, b1: int, b2: int, b3: int := bytes[at], bytes[at + 1], bytes[at + 2], bytes[at + 3];
    var x: int := LeWord(bytes, at);
    DivModUnique(b1 + 0x100 * b2 + 0x1_0000 * b3, b0, 0x100);
    DivModUnique(b2 + 0x100 * b3, b0 + 0x100 * b1, 0x1_0000);
    DivModUnique(b3, b0 + 0x100 * b1 + 0x1_0000 * b2, 0x100_0000);
    DivModUnique(b2 + 0x100 * b3, b1, 0x100);
    DivModUnique(b3, b2, 0x100);
  }

  // The pointer an s_load goes through: a pair of SGPRs, or the 48-bit base of a buffer resource.
  ghost predicate PointsAt(w: Wave, inst: Inst, base: nat)
    requires inst.Smrd?
  {
    && inst.sbase + 1 < 104
    && var lo: int, hi: int := w.sgprs[inst.sbase], w.sgprs[inst.sbase + 1];
       if 0x08 <= inst.op then inst.sbase + 3 < 104 && base == lo + 0x1_0000_0000 * (hi % 0x1_0000)
       else base == lo + 0x1_0000_0000 * hi
  }

  // The scalar loads by number move 1, 2, 4, 8 or 16 dwords.
  function LoadedDwords(op: u16): nat {
    if op in {0x00, 0x08} then 1
    else if op in {0x01, 0x09} then 2
    else if op in {0x02, 0x0A} then 4
    else if op in {0x03, 0x0B} then 8
    else 16
  }

  // A scalar load fills consecutive SGPRs with the little-endian words of memory from the pointer plus
  // the offset, in dwords when immediate and in bytes when it is a register, and changes nothing else.
  lemma ScalarLoadReads(env: Env, w: Wave, w': Wave, inst: Inst) returns (base: nat, off: nat, bytes: seq<u8>)
    requires inst.Smrd? && ExecOne(env, w, inst) == Some(w')
    ensures inst.op in {0x00, 0x01, 0x02, 0x03, 0x04, 0x08, 0x09, 0x0A, 0x0B, 0x0C} && PointsAt(w, inst, base)
    ensures if inst.imm then off == 4 * inst.offset else inst.offset < 104 && off == w.sgprs[inst.offset]
    ensures var n := LoadedDwords(inst.op);
            && env.load((base + off) % 0x1_0000_0000_0000_0000, 4 * n) == Some(bytes) && |bytes| == 4 * n
            && inst.sdst.Sgpr? && inst.sdst.n + n <= 104 && w' == w.(sgprs := w'.sgprs)
            && (forall i: nat :: i < n ==> WordAt(bytes, 4 * i, w'.sgprs[inst.sdst.n + i]))
            && (forall r: nat :: r < 104 && !(inst.sdst.n <= r < inst.sdst.n + n) ==> w'.sgprs[r] == w.sgprs[r])
  {
    hide WordAt, LeWord;
    base, off := LoadAddress(w, inst);
    var n := LoadedDwords(inst.op);
    CountOf(inst.op);
    bytes := Load(env, SmrdAddr(w, inst).value, 4 * n).value;
    hide SmrdAddr, PointsAt, SmrdCount, LoadedDwords;
    var words := SmrdWords(env, w, inst).value;
    forall i: nat | i < n ensures WordAt(bytes, 4 * i, w'.sgprs[inst.sdst.n + i]) {
      LeWordAt(bytes, 4 * i);
      assert words[i] == LeWord(bytes, 4 * i);
    }
  }

  lemma CountOf(op: u16)
    ensures SmrdCount(op).Some? <==> op in {0x00, 0x01, 0x02, 0x03, 0x04, 0x08, 0x09, 0x0A, 0x0B, 0x0C}
    ensures SmrdCount(op).Some? ==> SmrdCount(op) == Some(LoadedDwords(op))
  {
  }

  lemma LoadAddress(w: Wave, inst: Inst) returns (base: nat, off: nat)
    requires inst.Smrd? && SmrdCount(inst.op).Some? && SmrdAddr(w, inst).Some?
    ensures PointsAt(w, inst, base)
    ensures if inst.imm then off == 4 * inst.offset else inst.offset < 104 && off == w.sgprs[inst.offset]
    ensures SmrdAddr(w, inst) == Some((base + off) % 0x1_0000_0000_0000_0000)
  {
    base := if IsBufferLoad(inst.op) then ReadVSharp(w, inst.sbase).value.base else ReadSgprPair(w, inst.sbase).value;
    off := if inst.imm then 4 * inst.offset else ReadSgpr(w, inst.offset).value;
  }

  // ---- buffer loads ---------------------------------------------------------------------------

  // What a lane asks for: the scalar offset, its index held to the last record, its own offset.
  datatype Ask = Ask(soff: u32, index: u32, record: nat, voff: u32)

  ghost predicate Asks(w: Wave, inst: Inst, lane: Lane, q: Ask)
    requires inst.Mubuf? && inst.srsrc + 3 < 104
  {
    var records := w.sgprs[inst.srsrc + 2];
    && !inst.soffset.Vgpr? && Reads(w, inst.soffset, 0, q.soff)
    && (if inst.idxen then Reads(w, inst.vaddr, lane, q.index) else q.index == 0)
    && q.record == (if records != 0 && q.index >= records then records - 1 else q.index)
    && (if inst.offen then inst.vaddr.Vgpr? && inst.vaddr.n + 1 < 256 && q.voff == Word(w, inst.vaddr.n + 1, lane)
        else q.voff == 0)
  }

  // Base, plus the record times the stride, plus the three offsets, modulo 2^64.
  function AskedAddress(w: Wave, inst: Inst, q: Ask): u64
    requires inst.Mubuf? && inst.srsrc + 3 < 104
  {
    var lo: int, hi: int := w.sgprs[inst.srsrc], w.sgprs[inst.srsrc + 1];
    (lo + 0x1_0000_0000 * (hi % 0x1_0000) + q.record * (hi / 0x1_0000 % 0x4000) + q.soff + inst.offset + q.voff)
    % 0x1_0000_0000_0000_0000
  }

  // Component `i` of the fetched bytes under the resource's format word.
  ghost predicate ComponentIs(env: Env, format: u32, bytes: seq<u8>, i: nat, x: u32) {
    var dfmt, nfmt := format / 0x8000 % 0x10, format / 0x1000 % 8;
    if dfmt in {1, 3, 10} then i < |bytes| && x == env.convert(false, bytes[i], nfmt)
    else if dfmt in {2, 5, 12} then
      2 * i + 1 < |bytes| && (var lo: int, hi: int := bytes[2 * i], bytes[2 * i + 1]; x == env.convert(true, lo + 0x100 * hi, nfmt))
    else WordAt(bytes, 4 * i, x)
  }

  function FetchedWords(op: u16): nat { if op <= 3 then op + 1 else 1 }

  // A buffer load puts the components of the element its lane asks for in consecutive registers.
  lemma BufferLoadReads(env: Env, w: Wave, w': Wave, inst: Inst, lane: Lane) returns (q: Ask, bytes: seq<u8>)
    requires inst.Mubuf? && ExecOne(env, w, inst) == Some(w') && LaneLive(w, lane)
    ensures inst.op in {0x00, 0x01, 0x02, 0x03, 0x04, 0x0C, 0x1C} && inst.srsrc + 3 < 104 && Asks(w, inst, lane, q)
    ensures var n := FetchedWords(inst.op);
            && env.load(AskedAddress(w, inst, q), 4 * n) == Some(bytes) && |bytes| == 4 * n
            && inst.vdata.Vgpr? && inst.vdata.n + n <= 256
            && (forall r: nat :: r < 256 ==>
                  if inst.vdata.n <= r < inst.vdata.n + n then
                    ComponentIs(env, w.sgprs[inst.srsrc + 3], bytes, r - inst.vdata.n, Word(w', r, lane))
                  else Word(w', r, lane) == Word(w, r, lane))
  {
    hide LaneLoop, WordAt, LeWord, Reads, ComponentIs, Component, ReadLane, ReadScalar, Left;
    var e := Acts(env, w, w', inst, lane);
    hide LaneEffect;
    assert MubufEffect(env, w, lane, inst) == Some(e) by { MubufIs(env, w, lane, inst); }
    FetchCount(inst.op);
    q := AskOf(env, w, inst, lane);
    var n := FetchedWords(inst.op);
    hide Asks, FetchedWords, VdataCount, AskedAddress;
    bytes := FetchOf(env, w, inst, lane, q, n, e);
    LeftWords(w, w', inst, lane, e);
  }

  lemma MubufIs(env: Env, w: Wave, lane: Lane, inst: Inst)
    requires inst.Mubuf?
    ensures LaneEffect(env, w, lane, inst) == MubufEffect(env, w, lane, inst)
  {
  }

  lemma LeftWords(w: Wave, w': Wave, inst: Inst, lane: Lane, e: Effect)
    requires Left(w, w', inst, lane, e)
    ensures e.base + |e.words| <= 256
    ensures forall r: nat :: r < 256 ==>
              Word(w', r, lane) == if e.base <= r < e.base + |e.words| then e.words[r - e.base] else Word(w, r, lane)
  {
    hide MaskBit;
  }

  lemma FetchCount(op: u16)
    ensures VdataCount(op).Some? <==> op in {0x00, 0x01, 0x02, 0x03, 0x04, 0x0C, 0x1C}
    ensures VdataCount(op).Some? ==> VdataCount(op) == Some(FetchedWords(op))
  {
  }

  lemma AskOf(env: Env, w: Wave, inst: Inst, lane: Lane) returns (q: Ask)
    requires inst.Mubuf? && MubufEffect(env, w, lane, inst).Some?
    ensures inst.srsrc + 3 < 104 && Asks(w, inst, lane, q)
    ensures ReadScalar(w, inst.soffset) == Some(q.soff)
    ensures (if inst.idxen then ReadLane(w, inst.vaddr, lane) else Some(0)) == Some(q.index)
  {
    hide Reads, ReadScalar, ReadLane, FetchWords;
    var soff := ReadScalar(w, inst.soffset).value;
    ReadsScalarIff(w, inst.soffset, soff);
    var index := if inst.idxen then ReadLane(w, inst.vaddr, lane).value else 0;
    if inst.idxen { ReadsIff(w, inst.vaddr, lane, index); }
    var records := w.sgprs[inst.srsrc + 2];
    q := Ask(soff, index, if records != 0 && index >= records then records - 1 else index,
             if inst.offen then Word(w, inst.vaddr.n + 1, lane) else 0);
  }

  lemma FetchOf(env: Env, w: Wave, inst: Inst, lane: Lane, q: Ask, n: nat, e: Effect) returns (bytes: seq<u8>)
    requires inst.Mubuf? && MubufEffect(env, w, lane, inst) == Some(e) && VdataCount(inst.op) == Some(n)
    requires inst.srsrc + 3 < 104 && Asks(w, inst, lane, q)
    requires ReadScalar(w, inst.soffset) == Some(q.soff)
    requires (if inst.idxen then ReadLane(w, inst.vaddr, lane) else Some(0)) == Some(q.index)
    ensures env.load(AskedAddress(w, inst, q), 4 * n) == Some(bytes) && |bytes| == 4 * n
    ensures inst.vdata.Vgpr? && e.base == inst.vdata.n && |e.words| == n
    ensures forall i: nat :: i < n ==> ComponentIs(env, w.sgprs[inst.srsrc + 3], bytes, i, e.words[i])
  {
    hide Reads, ReadScalar, ReadLane, WordAt, LeWord;
    var v := ReadVSharp(w, inst.srsrc).value;
    var addr := FetchAddr(v, q.index, q.soff, inst.offset, q.voff);
    assert addr == AskedAddress(w, inst, q);
    hide FetchAddr, AskedAddress, Asks;
    bytes := Load(env, addr, 4 * n).value;
    assert FetchWords(env, v, addr, n) == Some(e.words);
    forall i: nat | i < n ensures ComponentIs(env, w.sgprs[inst.srsrc + 3], bytes, i, e.words[i]) {
      assert e.words[i] == Component(env, v, bytes, i);
      LeWordAt(bytes, 4 * i);
    }
  }

  // ---- image samples --------------------------------------------------------------------------

  // How many enabled channels come before channel `ch`.
  function Before(dmask: u8, ch: nat): nat
    requires ch <= 4
  {
    (if ch > 0 then dmask % 2 else 0) + (if ch > 1 then dmask / 2 % 2 else 0)
    + (if ch > 2 then dmask / 4 % 2 else 0) + (if ch > 3 then dmask / 8 % 2 else 0)
  }

  predicate Enables(dmask: u8, ch: nat)
    requires ch < 4
  {
    if ch == 0 then dmask % 2 == 1 else if ch == 1 then dmask / 2 % 2 == 1
    else if ch == 2 then dmask / 4 % 2 == 1 else dmask / 8 % 2 == 1
  }

  // A sample at the coordinate pair leaves the enabled channels, red first, packed from the
  // destination on.
  lemma SampleWrites(env: Env, w: Wave, w': Wave, inst: Inst, lane: Lane) returns (rgba: (u32, u32, u32, u32))
    requires inst.Mimg? && ExecOne(env, w, inst) == Some(w') && LaneLive(w, lane)
    ensures inst.op == 0x20 && inst.srsrc + 8 <= 104 && inst.ssamp + 4 <= 104
    ensures inst.vaddr.Vgpr? && inst.vaddr.n + 1 < 256 && inst.vdata.Vgpr?
    ensures env.sample(w.sgprs[inst.srsrc..inst.srsrc + 8], w.sgprs[inst.ssamp..inst.ssamp + 4],
                       Word(w, inst.vaddr.n, lane), Word(w, inst.vaddr.n + 1, lane), inst.unrm) == Some(rgba)
    ensures var channels := [rgba.0, rgba.1, rgba.2, rgba.3];
            && inst.vdata.n + Before(inst.dmask, 4) <= 256
            && (forall ch: nat :: ch < 4 && Enables(inst.dmask, ch) ==>
                  Word(w', inst.vdata.n + Before(inst.dmask, ch), lane) == channels[ch])
            && (forall r: nat :: r < 256 && !(inst.vdata.n <= r < inst.vdata.n + Before(inst.dmask, 4)) ==>
                  Word(w', r, lane) == Word(w, r, lane))
  {
    hide LaneLoop, Left;
    var e := Acts(env, w, w', inst, lane);
    rgba := env.sample(w.sgprs[inst.srsrc..inst.srsrc + 8], w.sgprs[inst.ssamp..inst.ssamp + 4],
                       Word(w, inst.vaddr.n, lane), Word(w, inst.vaddr.n + 1, lane), inst.unrm).value;
    assert e.base == inst.vdata.n && e.words == Enabled(inst.dmask, rgba);
    hide LaneEffect, Enabled, Before, Enables;
    LeftWords(w, w', inst, lane, e);
    EnabledPack(inst.dmask, rgba);
    forall ch: nat | ch < 4 && Enables(inst.dmask, ch)
      ensures Word(w', inst.vdata.n + Before(inst.dmask, ch), lane) == [rgba.0, rgba.1, rgba.2, rgba.3][ch]
    {
      var r := inst.vdata.n + Before(inst.dmask, ch);
      assert Word(w', r, lane) == e.words[r - e.base];
    }
  }

  lemma EnabledPack(dmask: u8, rgba: (u32, u32, u32, u32))
    ensures |Enabled(dmask, rgba)| == Before(dmask, 4)
    ensures forall ch: nat :: ch < 4 && Enables(dmask, ch) ==>
              Before(dmask, ch) < |Enabled(dmask, rgba)| && Enabled(dmask, rgba)[Before(dmask, ch)] == [rgba.0, rgba.1, rgba.2, rgba.3][ch]
  {
    LowMask(dmask);
    hide Bit;
    forall ch: nat | ch < 4 && Enables(dmask, ch)
      ensures Before(dmask, ch) < |Enabled(dmask, rgba)| && Enabled(dmask, rgba)[Before(dmask, ch)] == [rgba.0, rgba.1, rgba.2, rgba.3][ch]
    {
      assert ch == 0 || ch == 1 || ch == 2 || ch == 3;
    }
  }

  lemma LowMask(n: nat)
    ensures Bit(n, 0) == (n % 2 == 1) && Bit(n, 1) == (n / 2 % 2 == 1)
    ensures Bit(n, 2) == (n / 4 % 2 == 1) && Bit(n, 3) == (n / 8 % 2 == 1)
  {
    var m := n / 2;
    assert Bit(n, 2) == Bit(m, 1) == Bit(m / 2, 0) && m / 2 == n / 4;
    assert Bit(n, 3) == Bit(m, 2) == Bit(m / 2, 1) == Bit(m / 2 / 2, 0) && m / 2 / 2 == n / 8;
  }

  // ---- exports --------------------------------------------------------------------------------

  // The live lanes among the first `k`, in order.
  function LiveLanes(w: Wave, k: nat): seq<nat>
    requires k <= 64
  {
    if k == 0 then [] else LiveLanes(w, k - 1) + if LaneLive(w, k - 1) then [k - 1] else []
  }

  ghost predicate ChannelIs(w: Wave, lane: Lane, src: Option<Operand>, x: u32) {
    if src.None? then x == 0 else Reads(w, src.value, lane, x)
  }

  // Two channels unpacked from one source, the low half first.
  ghost predicate PairIs(env: Env, w: Wave, lane: Lane, src: Option<Operand>, lo: u32, hi: u32) {
    if src.None? then lo == 0 && hi == 0
    else exists x: u32 :: Reads(w, src.value, lane, x) && lo == env.fromHalf(x % 0x1_0000) && hi == env.fromHalf(x / 0x1_0000)
  }

  ghost predicate RecordIs(env: Env, w: Wave, inst: Inst, r: ExportRecord)
    requires inst.Exp?
  {
    && r.target == inst.target && |r.values| == 4 && r.lane < 64
    && if inst.compr then
         && PairIs(env, w, r.lane, inst.e0, r.values[0], r.values[1])
         && PairIs(env, w, r.lane, inst.e1, r.values[2], r.values[3])
       else
         && ChannelIs(w, r.lane, inst.e0, r.values[0]) && ChannelIs(w, r.lane, inst.e1, r.values[1])
         && ChannelIs(w, r.lane, inst.e2, r.values[2]) && ChannelIs(w, r.lane, inst.e3, r.values[3])
  }

  function LanesOf(s: seq<ExportRecord>): seq<nat> {
    seq(|s|, i requires 0 <= i < |s| => s[i].lane)
  }

  // An export appends one record for each live lane, in lane order, with the channels its sources name,
  // and changes nothing else.
  lemma ExportCaptures(env: Env, w: Wave, w': Wave, inst: Inst) returns (captured: seq<ExportRecord>)
    requires inst.Exp? && ExecOne(env, w, inst) == Some(w')
    ensures w' == w.(exports := w.exports + captured)
    ensures LanesOf(captured) == LiveLanes(w, 64)
    ensures forall i :: 0 <= i < |captured| ==> RecordIs(env, w, inst, captured[i])
  {
    hide LaneLoop, LaneEffect, Records, LanesOf, RecordIs;
    LaneLoopIsSimultaneous(env, w, inst);
    hide LaneOk;
    captured := Records(env, w, 64, inst);
    CapturedLanes(env, w, 64, inst);
    ExportWritesNoWords(env, w, inst, w');
  }

  lemma ExportWritesNoWords(env: Env, w: Wave, inst: Inst, w': Wave)
    requires inst.Exp? && ColumnsAfter(env, w, 64, inst, w')
    ensures w'.vgprs == w.vgprs
  {
    hide Channel;
    forall r: nat | r < NUM_VGPRS ensures w'.vgprs[r] == w.vgprs[r] {
      forall lane: Lane ensures w'.vgprs[r][lane] == w.vgprs[r][lane] {
        assert Word(w', r, lane) == NewWord(EffectOf(env, w, lane, inst), r, Word(w, r, lane));
      }
    }
  }

  lemma {:induction false} CapturedLanes(env: Env, w: Wave, k: nat, inst: Inst)
    requires inst.Exp? && k <= 64 && forall lane: Lane :: LaneOk(env, w, lane, inst)
    ensures LanesOf(Records(env, w, k, inst)) == LiveLanes(w, k)
    ensures forall i :: 0 <= i < |Records(env, w, k, inst)| ==> RecordIs(env, w, inst, Records(env, w, k, inst)[i])
  {
    hide LaneEffect, RecordIs;
    if k > 0 {
      CapturedLanes(env, w, k - 1, inst);
      assert LaneOk(env, w, k - 1, inst);
      if LaneLive(w, k - 1) {
        RecordOf(env, w, k - 1, inst);
      }
    }
  }

  lemma RecordOf(env: Env, w: Wave, lane: Lane, inst: Inst)
    requires inst.Exp? && LaneEffect(env, w, lane, inst).Some?
    ensures var rs := LaneEffect(env, w, lane, inst).value.records;
            |rs| == 1 && rs[0].lane == lane && RecordIs(env, w, inst, rs[0])
  {
    hide Reads, ReadLane;
    ChannelOf(w, lane, inst.e0);
    ChannelOf(w, lane, inst.e1);
    if !inst.compr {
      ChannelOf(w, lane, inst.e2);
      ChannelOf(w, lane, inst.e3);
    }
  }

  lemma ChannelOf(w: Wave, lane: Lane, src: Option<Operand>)
    requires Channel(w, lane, src).Some?
    ensures ChannelIs(w, lane, src, Channel(w, lane, src).value)
  {
    hide Reads;
    if src.Some? { ReadsIff(w, src.value, lane, Channel(w, lane, src).value); }
  }

  // ---- what an instruction leaves alone ---------------------------------------------------------

  lemma {:induction false} NoExports(env: Env, v: Wave, k: nat, inst: Inst)
    requires IsVector(inst) && !inst.Exp? && k <= LANES && LaneLoop(env, v, k, inst).Some?
    ensures LaneLoop(env, v, k, inst).value.exports == v.exports
    decreases LANES - k
  {
    hide LaneTurn;
    if k < LANES {
      TurnExportsNothing(env, v, k, inst);
      NoExports(env, LaneTurn(env, v, k, inst).value, k + 1, inst);
    }
  }

  lemma TurnExportsNothing(env: Env, v: Wave, k: Lane, inst: Inst)
    requires IsVector(inst) && !inst.Exp? && LaneTurn(env, v, k, inst).Some?
    ensures LaneTurn(env, v, k, inst).value.exports == v.exports
  {
    hide Bit, SetBit, WriteWords, EvalVop2, EvalVop3, ReadLane, MubufEffect, Pack, ApplyMods, Interpolate, WriteBitIfAny;
    if LaneLive(v, k) {
      var e := LaneEffect(env, v, k, inst).value;
      assert e.records == [] by { if inst.Mubuf? { MubufIs(env, v, k, inst); MubufExportsNothing(env, v, k, inst); } }
      StoredBit(v, k, inst, e.bit);
    } else {
      StoredBit(v, k, inst, false);
    }
  }

  lemma MubufExportsNothing(env: Env, v: Wave, k: Lane, inst: Inst)
    requires inst.Mubuf? && MubufEffect(env, v, k, inst).Some?
    ensures MubufEffect(env, v, k, inst).value.records == []
  {
    hide FetchWords;
  }

  // A vector instruction changes no scalar state but the mask it names, and in a dead lane no register;
  // the dead lane's bit of that mask is cleared.
  lemma RestIsKept(env: Env, w: Wave, w': Wave, inst: Inst, lane: Lane)
    requires IsVector(inst) && ExecOne(env, w, inst) == Some(w')
    ensures SameRest(w, w', inst) && (!inst.Exp? ==> w'.exports == w.exports)
    ensures !LaneLive(w, lane) ==>
      && (forall r: nat :: r < 256 ==> Word(w', r, lane) == Word(w, r, lane))
      && (BitDst(inst).Some? ==> !MaskBit(w', inst, lane))
  {
    hide LaneLoop, LaneEffect, Bit, SameRest, AtTurn, MaskBit, BitDst;
    var u := LaneActs(env, w, w', inst, lane);
    if !inst.Exp? { NoExports(env, w, 0, inst); }
  }

  // A register packed from two sources and exported compressed captures them in order.
  lemma PackedPairIsExported(env: Env, w: Wave, w1: Wave, w2: Wave, dst: Operand, exp: Inst, lane: Lane, a: u32, b: u32, x: u32)
    returns (captured: seq<ExportRecord>, i: nat)
    requires dst.Vgpr? && Wrote(w, w1, lane, dst, x)
    requires x % 0x1_0000 == env.toHalf(a) && x / 0x1_0000 == env.toHalf(b)
    requires exp.Exp? && exp.compr && exp.e0 == Some(dst) && ExecOne(env, w1, exp) == Some(w2) && LaneLive(w1, lane)
    ensures w2 == w1.(exports := w1.exports + captured) && i < |captured| && captured[i].lane == lane
    ensures |captured[i].values| == 4 && captured[i].values[0] == env.fromHalf(env.toHalf(a))
    ensures captured[i].values[1] == env.fromHalf(env.toHalf(b))
  {
    hide ExecOne, LiveLanes, LaneLive;
    captured := ExportCaptures(env, w1, w2, exp);
    LiveIsListed(w1, 64, lane);
    i :| i < |LiveLanes(w1, 64)| && LiveLanes(w1, 64)[i] == lane;
    assert LanesOf(captured)[i] == captured[i].lane;
    assert RecordIs(env, w1, exp, captured[i]);
  }

  lemma {:induction false} LiveIsListed(w: Wave, k: nat, lane: Lane)
    requires lane < k <= 64 && LaneLive(w, lane)
    ensures exists i: nat :: i < |LiveLanes(w, k)| && LiveLanes(w, k)[i] == lane
  {
    hide LaneLive;
    if lane < k - 1 {
      LiveIsListed(w, k - 1, lane);
      var i: nat :| i < |LiveLanes(w, k - 1)| && LiveLanes(w, k - 1)[i] == lane;
      assert LiveLanes(w, k)[i] == lane;
    } else {
      assert LiveLanes(w, k)[|LiveLanes(w, k - 1)|] == lane;
    }
  }
}
