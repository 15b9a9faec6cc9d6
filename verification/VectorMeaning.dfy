// What each vector ALU instruction computes, by opcode number, in terms of the registers before and
// after it. The f32 primitives are those of the environment; everything else is arithmetic on words.

module VectorMeaning {
  import opened Words
  import opened Bits
  import opened Arithmetic
  import opened Isa
  import opened Wavefront
  import opened LaneLoops
  import opened LaneTurns
  import opened Operands

  // ---- moves and conversions -----------------------------------------------------------------

  lemma MoveCopies(env: Env, w: Wave, w': Wave, inst: Inst, lane: Lane) returns (x: u32)
    requires inst.Vop1? && ExecOne(env, w, inst) == Some(w') && LaneLive(w, lane)
    ensures Reads(w, inst.src0, lane, x)
    ensures inst.op == 0x01 ==> Wrote(w, w', lane, inst.vdst, x)
    ensures inst.op != 0x01 ==> Wrote(w, w', lane, inst.vdst, env.unary(inst.op, x))
  {
    hide ExecOne, Left, Reads, Wrote;
    var e := Acts(env, w, w', inst, lane);
    x := ReadLane(w, inst.src0, lane).value;
    ReadsIff(w, inst.src0, lane, x);
    OneWrote(w, w', inst, lane, inst.vdst, e.words[0], false);
  }

  // ---- two sources ----------------------------------------------------------------------------

  // What is common to them: the sources' values and the one word written.
  lemma TwoSources(env: Env, w: Wave, w': Wave, inst: Inst, lane: Lane) returns (u: Wave, a: u32, b: u32, e: Effect)
    requires inst.Vop2? && ExecOne(env, w, inst) == Some(w') && LaneLive(w, lane)
    ensures AtTurn(w, w', inst, lane, u) && Reads(u, inst.src0, lane, a) && Reads(u, inst.vsrc1, lane, b)
    ensures ReadLane(u, inst.src0, lane) == Some(a) && ReadLane(u, inst.vsrc1, lane) == Some(b)
    ensures Vop2Effect(env, u, lane, inst) == Some(e) && Left(w, w', inst, lane, e)
    ensures |e.words| == 1 && e == One(inst.vdst, e.words[0], e.bit).value && inst.vdst.Vgpr?
    ensures Wrote(w, w', lane, inst.vdst, e.words[0])
  {
    hide ExecOne, Left, Reads, Wrote, AtTurn;
    u, e := ActsOnTurn(env, w, w', inst, lane);
    a, b := ReadLane(u, inst.src0, lane).value, ReadLane(u, inst.vsrc1, lane).value;
    ReadsIff(u, inst.src0, lane, a);
    ReadsIff(u, inst.vsrc1, lane, b);
    hide EvalVop2, ReadLane, Pack, And;
    OneWrote(w, w', inst, lane, inst.vdst, e.words[0], e.bit);
  }

  // Without a mask to write, the state on the lane's turn reads as the state before.
  lemma TurnReads(w: Wave, w': Wave, inst: Inst, lane: Lane, u: Wave)
    requires AtTurn(w, w', inst, lane, u) && BitDst(inst).None?
    ensures forall op, x :: Reads(u, op, lane, x) <==> Reads(w, op, lane, x)
    ensures u.vcc == w.vcc && u.sgprs == w.sgprs && forall r: nat :: r < NUM_VGPRS ==> Word(u, r, lane) == Word(w, r, lane)
  {
    assert u.sgprs == w.sgprs by {
      forall r: nat | r < NUM_SGPRS ensures u.sgprs[r] == w.sgprs[r] { assert !InMask(inst, r); }
    }
    hide HalfIs;
    forall op, x ensures Reads(u, op, lane, x) <==> Reads(w, op, lane, x) {
      if op.Vgpr? { assert Word(u, op.n, lane) == Word(w, op.n, lane); }
    }
  }

  // And with one, an operand outside that mask does.
  lemma TurnReadsOutside(w: Wave, w': Wave, inst: Inst, lane: Lane, u: Wave, op: Operand)
    requires AtTurn(w, w', inst, lane, u) && !(WritesVcc(inst) && IsVcc(op)) && !(op.Sgpr? && InMask(inst, op.n))
    ensures forall x :: Reads(u, op, lane, x) <==> Reads(w, op, lane, x)
  {
    hide HalfIs;
    if op.Vgpr? { assert Word(u, op.n, lane) == Word(w, op.n, lane); }
  }

  // v_lshlrev_b32 moves the second source's bits up by the first source's low five bits.
  lemma ShiftLeftMovesBits(env: Env, w: Wave, w': Wave, inst: Inst, lane: Lane) returns (a: u32, b: u32, x: u32)
    requires inst.Vop2? && inst.op == 0x1A && ExecOne(env, w, inst) == Some(w') && LaneLive(w, lane)
    ensures Reads(w, inst.src0, lane, a) && Reads(w, inst.vsrc1, lane, b) && Wrote(w, w', lane, inst.vdst, x)
    ensures forall k: nat :: k < 32 ==> Bit(x, k) == (k >= a % 32 && Bit(b, k - a % 32))
  {
    hide ExecOne, Left, Reads, Wrote, AtTurn, Bit;
    var u, e;
    u, a, b, e := TwoSources(env, w, w', inst, lane);
    TurnReads(w, w', inst, lane, u);
    x := e.words[0];
    ShiftedUp(b, a % 32, x);
  }

  lemma {:induction false} ShiftedUp(b: u32, s: nat, x: u32)
    requires s < 32 && x == b * Pow2(s) % TWO32
    ensures forall k: nat :: k < 32 ==> Bit(x, k) == (k >= s && Bit(b, k - s))
  {
    hide Bit;
    Pow32();
    var v := b * Pow2(s);
    forall k: nat | k < 32 ensures Bit(x, k) == (k >= s && Bit(b, k - s)) {
      assert v == x + Pow2(32) * (v / TWO32);
      BitOfGlued(x, v / TWO32, 32, k);
      ZeroBits(k);
      BitOfGlued(0, b, s, k);
      assert 0 + Pow2(s) * b == v;
    }
  }

  // v_lshrrev_b32 moves them down, and zeros come in.
  lemma ShiftRightMovesBits(env: Env, w: Wave, w': Wave, inst: Inst, lane: Lane) returns (a: u32, b: u32, x: u32)
    requires inst.Vop2? && inst.op == 0x16 && ExecOne(env, w, inst) == Some(w') && LaneLive(w, lane)
    ensures Reads(w, inst.src0, lane, a) && Reads(w, inst.vsrc1, lane, b) && Wrote(w, w', lane, inst.vdst, x)
    ensures forall k: nat :: k < 32 ==> Bit(x, k) == (k + a % 32 < 32 && Bit(b, k + a % 32))
  {
    hide ExecOne, Left, Reads, Wrote, AtTurn, Bit;
    var u, e;
    u, a, b, e := TwoSources(env, w, w', inst, lane);
    TurnReads(w, w', inst, lane, u);
    x := e.words[0];
    ShiftedDown(b, a % 32, x);
  }

  lemma ShiftedDown(b: u32, s: nat, x: u32)
    requires s < 32 && x == b / Pow2(s) % TWO32
    ensures forall k: nat :: k < 32 ==> Bit(x, k) == (k + s < 32 && Bit(b, k + s))
  {
    hide Bit;
    Pow32();
    var p := Pow2(s);
    var q, r := QuotientOf(b, p);
    hide Pow2;
    forall k: nat | k < 32 ensures Bit(x, k) == (k + s < 32 && Bit(b, k + s)) {
      BitOfGlued(r, q, s, k + s);
      if k + s >= 32 {
        BitOfGlued(b, 0, 32, k + s);
        ZeroBits(k + s - 32);
      }
    }
  }

  lemma QuotientOf(b: u32, p: nat) returns (q: nat, r: nat)
    requires p >= 1
    ensures b == r + p * q && r < p && q == b / p && q == b / p % TWO32
  {
    q, r := b / p, b % p;
    if b < q { MulMono(1, p, q); }
  }

  // v_and_b32 keeps the bits set in both.
  lemma AndMeetsBits(env: Env, w: Wave, w': Wave, inst: Inst, lane: Lane) returns (a: u32, b: u32, x: u32)
    requires inst.Vop2? && inst.op == 0x1B && ExecOne(env, w, inst) == Some(w') && LaneLive(w, lane)
    ensures Reads(w, inst.src0, lane, a) && Reads(w, inst.vsrc1, lane, b) && Wrote(w, w', lane, inst.vdst, x)
    ensures forall k: nat :: Bit(x, k) == (Bit(a, k) && Bit(b, k))
  {
    hide ExecOne, Left, Reads, Wrote, AtTurn, Bit;
    var u, e;
    u, a, b, e := TwoSources(env, w, w', inst, lane);
    TurnReads(w, w', inst, lane, u);
    x := e.words[0];
    forall k: nat ensures Bit(x, k) == (Bit(a, k) && Bit(b, k)) { BitOfAnd(a, b, k); }
  }

  // v_add_i32: the sum is the new word with the lane's VCC bit above it.
  lemma AddCarries(env: Env, w: Wave, w': Wave, inst: Inst, lane: Lane) returns (u: Wave, a: u32, b: u32, x: u32)
    requires inst.Vop2? && inst.op == 0x25 && ExecOne(env, w, inst) == Some(w') && LaneLive(w, lane)
    ensures AtTurn(w, w', inst, lane, u) && Reads(u, inst.src0, lane, a) && Reads(u, inst.vsrc1, lane, b)
    ensures Wrote(w, w', lane, inst.vdst, x)
    ensures x + 0x1_0000_0000 * (if Bit(w'.vcc, lane) then 1 else 0) == a + b
  {
    hide ExecOne, Reads, Wrote, AtTurn, Bit;
    var e;
    u, a, b, e := TwoSources(env, w, w', inst, lane);
    x := e.words[0];
    assert MaskBit(w', inst, lane) == e.bit;
  }

  // v_cndmask_b32 keeps the first source where the lane's VCC bit is clear and takes the second where
  // it is set.
  lemma SelectByVcc(env: Env, w: Wave, w': Wave, inst: Inst, lane: Lane) returns (a: u32, b: u32)
    requires inst.Vop2? && inst.op == 0x00 && ExecOne(env, w, inst) == Some(w') && LaneLive(w, lane)
    ensures Reads(w, inst.src0, lane, a) && Reads(w, inst.vsrc1, lane, b)
    ensures Bit(w.vcc, lane) ==> Wrote(w, w', lane, inst.vdst, b)
    ensures !Bit(w.vcc, lane) ==> Wrote(w, w', lane, inst.vdst, a)
  {
    hide ExecOne, Left, Reads, Wrote, AtTurn, Bit;
    var u, e;
    u, a, b, e := TwoSources(env, w, w', inst, lane);
    TurnReads(w, w', inst, lane, u);
  }

  // v_cvt_pkrtz_f16_f32: the first source's half is low, the second's high.
  lemma PackHalves(env: Env, w: Wave, w': Wave, inst: Inst, lane: Lane) returns (a: u32, b: u32, x: u32)
    requires inst.Vop2? && inst.op == 0x2F && ExecOne(env, w, inst) == Some(w') && LaneLive(w, lane)
    ensures Reads(w, inst.src0, lane, a) && Reads(w, inst.vsrc1, lane, b) && Wrote(w, w', lane, inst.vdst, x)
    ensures x % 0x1_0000 == env.toHalf(a) && x / 0x1_0000 == env.toHalf(b)
  {
    hide ExecOne, Left, Reads, Wrote, AtTurn;
    var u, e;
    u, a, b, e := TwoSources(env, w, w', inst, lane);
    TurnReads(w, w', inst, lane, u);
    x := e.words[0];
  }

  // The f32 operations: the order of the operands, the accumulator and the inline constant.
  lemma FloatTwoSources(env: Env, w: Wave, w': Wave, inst: Inst, lane: Lane) returns (a: u32, b: u32, acc: u32, x: u32)
    requires inst.Vop2? && inst.op in {0x03, 0x04, 0x05, 0x08, 0x0F, 0x10, 0x1F, 0x20, 0x21}
    requires ExecOne(env, w, inst) == Some(w') && LaneLive(w, lane)
    ensures Reads(w, inst.src0, lane, a) && Reads(w, inst.vsrc1, lane, b)
    ensures inst.vdst.Vgpr? && acc == Word(w, inst.vdst.n, lane) && Wrote(w, w', lane, inst.vdst, x)
    ensures inst.op == 0x03 ==> x == env.fadd(a, b)
    ensures inst.op == 0x04 ==> x == env.fsub(a, b)
    ensures inst.op == 0x05 ==> x == env.fsub(b, a)
    ensures inst.op == 0x08 ==> x == env.fmul(a, b)
    ensures inst.op == 0x0F ==> x == env.fmin(a, b)
    ensures inst.op == 0x10 ==> x == env.fmax(a, b)
    ensures inst.op == 0x1F ==> x == env.fadd(env.fmul(a, b), acc)
    ensures var k: u32 := if inst.k.Some? then inst.k.value else 0;
            && (inst.op == 0x20 ==> x == env.fadd(env.fmul(a, k), b))
            && (inst.op == 0x21 ==> x == env.fadd(env.fmul(a, b), k))
  {
    hide ExecOne, Left, Reads, Wrote, AtTurn;
    var u, e;
    u, a, b, e := TwoSources(env, w, w', inst, lane);
    TurnReads(w, w', inst, lane, u);
    acc, x := Word(w, inst.vdst.n, lane), e.words[0];
  }

  // ---- three sources --------------------------------------------------------------------------

  // A source under its modifiers: |x|, then its negation.
  function Modified(env: Env, x: u32, abs: bool, neg: bool): u32 {
    match (abs, neg)
    case (false, false) => x
    case (true, false) => env.fabs(x)
    case (false, true) => env.fneg(x)
    case (true, true) => env.fneg(env.fabs(x))
  }

  // The result under the output modifiers: times 2, 4 or 1/2, and then held to [0, 1].
  function Scaled(env: Env, x: u32, omod: u8): u32 {
    if omod == 1 then env.fmul(x, 0x4000_0000)
    else if omod == 2 then env.fmul(x, 0x4080_0000)
    else if omod == 3 then env.fmul(x, 0x3F00_0000)
    else x
  }

  lemma ModsAre(env: Env, x: u32, abs: u8, neg: u8)
    ensures ApplyMods(env, x, abs, neg, 0) == Modified(env, x, abs % 2 == 1, neg % 2 == 1)
    ensures ApplyMods(env, x, abs, neg, 1) == Modified(env, x, abs / 2 % 2 == 1, neg / 2 % 2 == 1)
    ensures ApplyMods(env, x, abs, neg, 2) == Modified(env, x, abs / 4 % 2 == 1, neg / 4 % 2 == 1)
  {
    LowBits(abs);
    LowBits(neg);
  }

  lemma LowBits(n: nat)
    ensures Bit(n, 0) == (n % 2 == 1) && Bit(n, 1) == (n / 2 % 2 == 1) && Bit(n, 2) == (n / 4 % 2 == 1)
  {
    var m := n / 2;
    assert Bit(n, 2) == Bit(m, 1) == Bit(m / 2, 0) && m / 2 == n / 4;
  }

  // What is common to them: the sources' values and the one word written.
  lemma ThreeSources(env: Env, w: Wave, w': Wave, inst: Inst, lane: Lane) returns (a: u32, b: u32, e: Effect)
    requires inst.Vop3? && inst.op !in {0x01, 0x02, 0x03, 0x04, 0x06} && ExecOne(env, w, inst) == Some(w') && LaneLive(w, lane)
    ensures Reads(w, inst.src0, lane, a) && Reads(w, inst.src1, lane, b)
    ensures ReadLane(w, inst.src0, lane) == Some(a) && ReadLane(w, inst.src1, lane) == Some(b)
    ensures Vop3Effect(env, w, lane, inst) == Some(e) && Left(w, w', inst, lane, e)
    ensures |e.words| == 1 && e == One(inst.vdst, e.words[0], e.bit).value && inst.vdst.Vgpr?
    ensures Wrote(w, w', lane, inst.vdst, e.words[0])
  {
    hide ExecOne, Left, Reads, Wrote;
    e := Acts(env, w, w', inst, lane);
    a, b := ReadLane(w, inst.src0, lane).value, ReadLane(w, inst.src1, lane).value;
    ReadsIff(w, inst.src0, lane, a);
    ReadsIff(w, inst.src1, lane, b);
    hide EvalVop3, ReadLane, Pack, ApplyMods, ApplyOmod, ApplyClamp, ReadPredicate;
    OneWrote(w, w', inst, lane, inst.vdst, e.words[0], e.bit);
  }

  // The VOP3 select reads its bit from VCC or from the SGPR pair the third source names.
  lemma SelectByMask(env: Env, w: Wave, w': Wave, inst: Inst, lane: Lane) returns (a: u32, b: u32, chosen: bool)
    requires inst.Vop3? && inst.op == 0x100 && ExecOne(env, w, inst) == Some(w') && LaneLive(w, lane)
    ensures Reads(w, inst.src0, lane, a) && Reads(w, inst.src1, lane, b) && Selects(w, inst.src2, lane, chosen)
    ensures Wrote(w, w', lane, inst.vdst, if chosen then b else a)
  {
    hide ExecOne, Left, Reads, Wrote, Selects, ApplyMods, ReadLane;
    var e;
    a, b, e := ThreeSources(env, w, w', inst, lane);
    chosen := ReadPredicate(w, inst.src2, lane).value;
    SelectsIff(w, inst.src2, lane, chosen);
  }

  // v_mad_u32_u24: the low 24 bits of the factors, the third source whole, the sum modulo 2^32.
  lemma MultiplyAdd24(env: Env, w: Wave, w': Wave, inst: Inst, lane: Lane) returns (a: u32, b: u32, c: u32, x: u32)
    requires inst.Vop3? && inst.op == 0x143 && ExecOne(env, w, inst) == Some(w') && LaneLive(w, lane)
    ensures Reads(w, inst.src0, lane, a) && Reads(w, inst.src1, lane, b) && Reads(w, inst.src2, lane, c)
    ensures Wrote(w, w', lane, inst.vdst, x)
    ensures ((a % 0x100_0000) * (b % 0x100_0000) + c - x) % 0x1_0000_0000 == 0
  {
    hide ExecOne, Left, Reads, Wrote, ApplyMods, ReadLane;
    var e;
    a, b, e := ThreeSources(env, w, w', inst, lane);
    c, x := ReadLane(w, inst.src2, lane).value, e.words[0];
    ReadsIff(w, inst.src2, lane, c);
  }

  // The VOP3 form of the pack takes the source modifiers.
  lemma PackModified(env: Env, w: Wave, w': Wave, inst: Inst, lane: Lane) returns (a: u32, b: u32, x: u32)
    requires inst.Vop3? && inst.op == 0x12F && ExecOne(env, w, inst) == Some(w') && LaneLive(w, lane)
    ensures Reads(w, inst.src0, lane, a) && Reads(w, inst.src1, lane, b) && Wrote(w, w', lane, inst.vdst, x)
    ensures x % 0x1_0000 == env.toHalf(Modified(env, a, inst.abs % 2 == 1, inst.neg % 2 == 1))
    ensures x / 0x1_0000 == env.toHalf(Modified(env, b, inst.abs / 2 % 2 == 1, inst.neg / 2 % 2 == 1))
  {
    hide ExecOne, Left, Reads, Wrote, ApplyMods, ReadLane, Modified;
    var e;
    a, b, e := ThreeSources(env, w, w', inst, lane);
    x := e.words[0];
    ModsAre(env, a, inst.abs, inst.neg);
    ModsAre(env, b, inst.abs, inst.neg);
  }

  // The f32 operations on three modified sources; the result is scaled, then clamped.
  lemma FloatThreeSources(env: Env, w: Wave, w': Wave, inst: Inst, lane: Lane)
    returns (a: u32, b: u32, c: u32, acc: u32, raw: u32)
    requires inst.Vop3? && inst.op in {0x108, 0x11F, 0x141, 0x14B, 0x157, 0x1A0}
    requires ExecOne(env, w, inst) == Some(w') && LaneLive(w, lane)
    ensures Reads(w, inst.src0, lane, a) && Reads(w, inst.src1, lane, b) && Reads(w, inst.src2, lane, c)
    ensures inst.vdst.Vgpr? && acc == Word(w, inst.vdst.n, lane)
    ensures var x := Modified(env, a, inst.abs % 2 == 1, inst.neg % 2 == 1);
            var y := Modified(env, b, inst.abs / 2 % 2 == 1, inst.neg / 2 % 2 == 1);
            var z := Modified(env, c, inst.abs / 4 % 2 == 1, inst.neg / 4 % 2 == 1);
            && (inst.op == 0x108 ==> raw == env.fmul(x, y))
            && (inst.op == 0x11F ==> raw == env.fadd(env.fmul(x, y), acc))
            && (inst.op == 0x141 ==> raw == env.fadd(env.fmul(x, y), z))
            && (inst.op == 0x14B ==> raw == env.fma(x, y, z))
            && (inst.op == 0x1A0 ==> raw == env.fract(x))
            && (inst.op == 0x157 ==> raw == env.fmin(env.fmax(x, y), env.fmax(env.fmin(x, y), z)))
    ensures var scaled := Scaled(env, raw, inst.omod);
            Wrote(w, w', lane, inst.vdst, if inst.clamp then env.fmin(env.fmax(scaled, 0), 0x3F80_0000) else scaled)
  {
    hide ExecOne, Left, Reads, Wrote, ApplyMods, ReadLane, Modified;
    var e;
    a, b, e := ThreeSources(env, w, w', inst, lane);
    c, acc := ReadLane(w, inst.src2, lane).value, Word(w, inst.vdst.n, lane);
    ReadsIff(w, inst.src2, lane, c);
    ReadOwn(w, inst.vdst, lane);
    ModsAre(env, a, inst.abs, inst.neg);
    ModsAre(env, b, inst.abs, inst.neg);
    ModsAre(env, c, inst.abs, inst.neg);
    raw := EvalVop3(env, inst.op, ApplyMods(env, a, inst.abs, inst.neg, 0), ApplyMods(env, b, inst.abs, inst.neg, 1),
                    ApplyMods(env, c, inst.abs, inst.neg, 2), acc);
  }

  lemma ReadOwn(w: Wave, dst: Operand, lane: Lane)
    requires dst.Vgpr?
    ensures ReadLane(w, dst, lane) == Some(Word(w, dst.n, lane))
  {
  }

  // When min and max go by an order of the values, v_med3_f32 yields the middle one.
  lemma MedianIsMiddle(env: Env, rank: u32 -> int, a: u32, b: u32, c: u32)
    requires forall x: u32, y: u32 :: env.fmin(x, y) == if rank(x) <= rank(y) then x else y
    requires forall x: u32, y: u32 :: env.fmax(x, y) == if rank(x) <= rank(y) then y else x
    ensures var m := env.fmin(env.fmax(a, b), env.fmax(env.fmin(a, b), c));
            && m in {a, b, c}
            && ((rank(a) <= rank(m) <= rank(b) || rank(b) <= rank(m) <= rank(a))
                || (rank(a) <= rank(m) <= rank(c) || rank(c) <= rank(m) <= rank(a)))
            && ((rank(a) <= rank(m) <= rank(b) || rank(b) <= rank(m) <= rank(a))
                || (rank(b) <= rank(m) <= rank(c) || rank(c) <= rank(m) <= rank(b)))
            && ((rank(a) <= rank(m) <= rank(c) || rank(c) <= rank(m) <= rank(a))
                || (rank(b) <= rank(m) <= rank(c) || rank(c) <= rank(m) <= rank(b)))
  {
  }

  // ---- compares -------------------------------------------------------------------------------

  // The five ordered compares by number: <, ==, <=, >, >=.
  ghost predicate Holds(env: Env, op: u16, x: u32, y: u32) {
    && (op == 1 ==> env.less(x, y))
    && (op == 2 ==> env.equal(x, y))
    && (op == 3 ==> env.less(x, y) || env.equal(x, y))
    && (op == 4 ==> env.less(y, x))
    && (op == 6 ==> env.less(y, x) || env.equal(x, y))
  }

  // A VOPC compare of the two sources is the lane's VCC bit.
  lemma CompareSetsVcc(env: Env, w: Wave, w': Wave, inst: Inst, lane: Lane) returns (u: Wave, a: u32, b: u32)
    requires inst.Vopc? && ExecOne(env, w, inst) == Some(w') && LaneLive(w, lane)
    ensures inst.op in {1, 2, 3, 4, 6} && AtTurn(w, w', inst, lane, u)
    ensures Reads(u, inst.src0, lane, a) && Reads(u, inst.vsrc1, lane, b)
    ensures Bit(w'.vcc, lane) == Holds(env, inst.op, a, b)
  {
    hide Left, Reads, AtTurn, LaneLoop, Bit;
    var e;
    u, e := ActsOnTurn(env, w, w', inst, lane);
    a, b := ReadLane(u, inst.src0, lane).value, ReadLane(u, inst.vsrc1, lane).value;
    ReadsIff(u, inst.src0, lane, a);
    ReadsIff(u, inst.vsrc1, lane, b);
    LeftBit(w, w', inst, lane, e);
    hide ReadLane;
  }

  lemma LeftBit(w: Wave, w': Wave, inst: Inst, lane: Lane, e: Effect)
    requires Left(w, w', inst, lane, e) && BitDst(inst).Some?
    ensures BitDst(inst).value.Sgpr? || Bit(w'.vcc, lane) == e.bit
    ensures BitDst(inst).value.Sgpr? ==> MaskBit(w', inst, lane) == e.bit
  {
  }

  // The VOP3 form compares the modified sources and sets the lane's bit of the mask it names.
  lemma CompareSetsMask(env: Env, w: Wave, w': Wave, inst: Inst, lane: Lane) returns (u: Wave, a: u32, b: u32)
    requires inst.Vop3? && inst.op in {1, 2, 3, 4, 6} && ExecOne(env, w, inst) == Some(w') && LaneLive(w, lane)
    ensures AtTurn(w, w', inst, lane, u) && Reads(u, inst.src0, lane, a) && Reads(u, inst.src1, lane, b)
    ensures Selects(w', inst.vdst, lane,
                    Holds(env, inst.op, Modified(env, a, inst.abs % 2 == 1, inst.neg % 2 == 1),
                                        Modified(env, b, inst.abs / 2 % 2 == 1, inst.neg / 2 % 2 == 1)))
  {
    hide Left, Reads, AtTurn, ExecOne, Bit, Modified, ApplyMods;
    var e;
    u, e := ActsOnTurn(env, w, w', inst, lane);
    a, b := ReadLane(u, inst.src0, lane).value, ReadLane(u, inst.src1, lane).value;
    ReadsIff(u, inst.src0, lane, a);
    ReadsIff(u, inst.src1, lane, b);
    ModsAre(env, a, inst.abs, inst.neg);
    ModsAre(env, b, inst.abs, inst.neg);
    StoredSelects(env, w, w', inst, lane, e);
    hide ReadLane, Selects, BitDst;
  }

  lemma StoredSelects(env: Env, w: Wave, w': Wave, inst: Inst, lane: Lane, e: Effect)
    requires inst.Vop3? && inst.op in COMPARES && ExecOne(env, w, inst) == Some(w') && Left(w, w', inst, lane, e)
    ensures Selects(w', inst.vdst, lane, e.bit)
  {
    hide Bit, LaneLoop, LaneTurn;
    MaskIsWritable(env, w, 0, inst);
    var n := inst.vdst;
    if n.Sgpr? {
      assert PairReg(n.n, lane) == if lane < 32 then n.n else n.n + 1;
      assert PairReg(n.n, 63) == n.n + 1;
      assert lane % 32 == if lane < 32 then lane else lane - 32;
    }
  }

  // A loop that ran to its end could store every lane's bit.
  lemma {:induction false} MaskIsWritable(env: Env, w: Wave, k: nat, inst: Inst)
    requires IsVector(inst) && BitDst(inst).Some? && k < LANES && LaneLoop(env, w, k, inst).Some?
    ensures IsVcc(BitDst(inst).value) || (BitDst(inst).value.Sgpr? && PairReg(BitDst(inst).value.n, 63) < NUM_SGPRS)
    decreases LANES - k
  {
    hide LaneEffect, Bit, SetBit;
    if k + 1 < LANES {
      MaskIsWritable(env, LaneTurn(env, w, k, inst).value, k + 1, inst);
    }
  }

  // ---- interpolation --------------------------------------------------------------------------

  // v_interp: P0 + I (P1 - P0); then, on top of what the destination holds, J (P2 - P0); or P0 alone.
  lemma InterpolationFollowsPlane(env: Env, w: Wave, w': Wave, inst: Inst, lane: Lane) returns (t: u32, acc: u32, x: u32)
    requires inst.Vintrp? && ExecOne(env, w, inst) == Some(w') && LaneLive(w, lane)
    ensures Reads(w, inst.vsrc, lane, t) && inst.vdst.Vgpr? && acc == Word(w, inst.vdst.n, lane)
    ensures Wrote(w, w', lane, inst.vdst, x) && inst.op in {0, 1, 2}
    ensures var (p0, p1, p2) := env.plane(inst.attr, inst.chan % 4);
            && (inst.op == 0 ==> x == env.fadd(p0, env.fmul(t, env.fsub(p1, p0))))
            && (inst.op == 1 ==> x == env.fadd(acc, env.fmul(t, env.fsub(p2, p0))))
            && (inst.op == 2 ==> x == p0)
  {
    hide Left, Reads, Wrote, LaneLoop;
    var e := Acts(env, w, w', inst, lane);
    t := ReadLane(w, inst.vsrc, lane).value;
    ReadsIff(w, inst.vsrc, lane, t);
    OneWrote(w, w', inst, lane, inst.vdst, e.words[0], false);
    acc, x := Word(w, inst.vdst.n, lane), e.words[0];
  }
}
