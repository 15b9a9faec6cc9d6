// A machine that really calls the fetch shader, and what its instructions do to two states that
// differ only in registers nobody may read yet.

module CallMachine {
  import opened Words
  import opened Bits
  import opened Isa
  import opened Wavefront
  import opened LaneLoops
  import opened Cfg
  import opened Walk
  import opened LaneView
  import opened FetchShader
  import opened FetchCall

  // Two instruction streams in guest memory, and how a branch decides.
  datatype Code = Code(main: seq<Decoded>, mainBase: nat, fetch: seq<Decoded>, fetchBase: nat,
                       decide: (u16, u64, u64, bool) -> bool)

  datatype Pc = InMain(i: nat) | InFetch(i: nat)

  datatype State = Run(pc: Pc, w: Wave) | Stopped(w: Wave) | Crashed

  function StreamOf(code: Code, pc: Pc): seq<Decoded> {
    if pc.InMain? then code.main else code.fetch
  }

  function MoveTo(pc: Pc, i: nat): Pc {
    if pc.InMain? then InMain(i) else InFetch(i)
  }

  function Address(code: Code, pc: Pc): nat
    requires pc.i <= |StreamOf(code, pc)|
  {
    (if pc.InMain? then code.mainBase else code.fetchBase) + 4 * DwordsTo(StreamOf(code, pc), pc.i)
  }

  // The first instruction boundary of `ds` at or after `i` that is `dwords` into the stream.
  function FindDwords(ds: seq<Decoded>, dwords: int, i: nat): (r: Option<nat>)
    requires i <= |ds|
    ensures r.Some? ==> i <= r.value <= |ds| && DwordsTo(ds, r.value) == dwords
    ensures r.None? ==> forall k :: i <= k <= |ds| ==> DwordsTo(ds, k) != dwords
    decreases |ds| - i
  {
    if DwordsTo(ds, i) == dwords then Some(i) else if i == |ds| then None else FindDwords(ds, dwords, i + 1)
  }

  // The boundary at byte address `addr`, in either stream.
  function Locate(code: Code, addr: nat): Option<Pc> {
    var inMain := if addr >= code.mainBase && (addr - code.mainBase) % 4 == 0
                  then FindDwords(code.main, (addr - code.mainBase) / 4, 0) else None;
    var inFetch := if addr >= code.fetchBase && (addr - code.fetchBase) % 4 == 0
                   then FindDwords(code.fetch, (addr - code.fetchBase) / 4, 0) else None;
    if inMain.Some? then Some(InMain(inMain.value))
    else if inFetch.Some? then Some(InFetch(inFetch.value))
    else None
  }

  function JumpTo(code: Code, target: Option<u64>, w: Wave): State {
    if target.None? then Crashed
    else
      match Locate(code, target.value)
      case Some(pc) => Run(pc, w)
      case None => Crashed
  }

  // `s_swappc`: read the target, save the return PC, jump.
  function CallStep(code: Code, pc: Pc, w: Wave, inst: Inst): State
    requires pc.i < |StreamOf(code, pc)| && inst.Sop1?
  {
    var target := ReadScalarPair(w, inst.ssrc0);
    var back := Address(code, MoveTo(pc, pc.i + 1));
    if back >= TWO64 then Crashed
    else
      match WriteScalarPair(w, inst.sdst, back)
      case Some(w') => JumpTo(code, target, w')
      case None => Crashed
  }

  function BranchStep(code: Code, pc: Pc, w: Wave, d: Decoded): State
    requires pc.i < |StreamOf(code, pc)| && d.inst.Sopp?
  {
    if d.inst.op == S_BRANCH || code.decide(d.inst.op, w.exec, w.vcc, w.scc) then
      match FindDwords(StreamOf(code, pc), BranchTarget(d.offset, d.size, d.inst.simm16), 0)
      case Some(k) => Run(MoveTo(pc, k), w)
      case None => Crashed
    else Run(MoveTo(pc, pc.i + 1), w)
  }

  function Step(env: Env, code: Code, s: State): State {
    if !s.Run? then s
    else
      var ds, pc, w := StreamOf(code, s.pc), s.pc, s.w;
      if pc.i >= |ds| then Stopped(w)
      else
        var d := ds[pc.i];
        if IsSopp(d.inst, S_ENDPGM) then Stopped(w)
        else if IsSwappc(d) then CallStep(code, pc, w, d.inst)
        else if IsFetchReturn(d.inst) then JumpTo(code, ReadScalarPair(w, d.inst.ssrc0), w)
        else if IsCfgBranch(d.inst) then BranchStep(code, pc, w, d)
        else if IsSkipped(d.inst) then Run(MoveTo(pc, pc.i + 1), w)
        else
          match ExecOne(env, w, d.inst)
          case Some(w') => Run(MoveTo(pc, pc.i + 1), w')
          case None => Crashed
  }

  function Steps(env: Env, code: Code, n: nat, s: State): State {
    if n == 0 then s else Step(env, code, Steps(env, code, n - 1, s))
  }

  // ---- agreeing except on some registers --------------------------------------------------

  function PairAt(d: nat): set<nat> { {d, d + 1} }

  // The states differ at most in the SGPRs of `stale`.
  ghost predicate Except(stale: set<nat>, w: Wave, v: Wave) {
    && w == v.(sgprs := w.sgprs)
    && forall r: nat :: r < NUM_SGPRS && r !in stale ==> w.sgprs[r] == v.sgprs[r]
  }

  predicate PairMeets(n: nat, stale: set<nat>) { n in stale || n + 1 in stale }

  // The instruction reads no register of `stale` and keeps no lane mask in one.
  ghost predicate Avoids(stale: set<nat>, inst: Inst) {
    && (forall op :: op in DataOps(inst) && op.Sgpr? ==> op.n !in stale)
    && (forall r :: r in stale ==> !ReadsFixed(inst, r))
    && (PredSrc(inst).Some? && PredSrc(inst).value.Sgpr? ==> !PairMeets(PredSrc(inst).value.n, stale))
    && (BitDst(inst).Some? && BitDst(inst).value.Sgpr? ==> !PairMeets(BitDst(inst).value.n, stale))
    && (inst.Sop1? && inst.op != S_MOV_B32 && inst.ssrc0.Sgpr? ==> !PairMeets(inst.ssrc0.n, stale))
  }

  // The SGPRs whose old content the instruction replaces.
  predicate Replaces(inst: Inst, r: nat) {
    match inst
    case Sop1(op, Sgpr(n), _) => r == n || (op != S_MOV_B32 && r == n + 1)
    case Smrd(op, Sgpr(n), _, _, _) => SmrdCount(op).Some? && n <= r < n + SmrdCount(op).value
    case _ => false
  }

  function Left(stale: set<nat>, inst: Inst): set<nat> {
    set r | r in stale && !Replaces(inst, r)
  }

  lemma AvoidsInputs(stale: set<nat>, w: Wave, v: Wave, lane: Lane, inst: Inst)
    requires Except(stale, w, v) && Avoids(stale, inst)
    ensures SameInputs(w, v, lane, inst)
  {
    forall op | op in DataOps(inst)
      ensures ReadScalar(w, op) == ReadScalar(v, op)
    {
    }
    if PredSrc(inst).Some? && PredSrc(inst).value.Sgpr? {
      assert PairReg(PredSrc(inst).value.n, lane) !in stale;
    }
    forall r: nat | r < NUM_VGPRS
      ensures Word(w, r, lane) == Word(v, r, lane)
    {
    }
  }

  ghost predicate ExceptBoth(stale: set<nat>, a: Option<Wave>, b: Option<Wave>) {
    a.Some? == b.Some? && (a.Some? ==> Except(stale, a.value, b.value))
  }

  lemma ExceptMore(stale: set<nat>, more: set<nat>, w: Wave, v: Wave)
    requires Except(stale, w, v) && stale <= more
    ensures Except(more, w, v)
  {
  }

  lemma BitExcept(stale: set<nat>, w: Wave, v: Wave, lane: Lane, inst: Inst, b: bool)
    requires Except(stale, w, v) && Avoids(stale, inst)
    ensures ExceptBoth(stale, WriteBitIfAny(w, inst, lane, b), WriteBitIfAny(v, inst, lane, b))
  {
    hide Bit, SetBit;
    if BitDst(inst).Some? && BitDst(inst).value.Sgpr? {
      assert PairReg(BitDst(inst).value.n, lane) !in stale;
    }
  }

  lemma TurnExcept(env: Env, stale: set<nat>, w: Wave, v: Wave, lane: Lane, inst: Inst)
    requires IsVector(inst) && Except(stale, w, v) && Avoids(stale, inst)
    ensures ExceptBoth(stale, LaneTurn(env, w, lane, inst), LaneTurn(env, v, lane, inst))
  {
    hide LaneEffect, Avoids, WriteBitIfAny;
    AvoidsInputs(stale, w, v, lane, inst);
    SameEffect(env, w, v, lane, inst);
    BitExcept(stale, w, v, lane, inst, false);
    var e := LaneEffect(env, w, lane, inst);
    if e.Some? {
      BitExcept(stale, w, v, lane, inst, e.value.bit);
    }
  }

  lemma {:induction false} LoopExcept(env: Env, stale: set<nat>, w: Wave, v: Wave, lane: nat, inst: Inst)
    requires IsVector(inst) && lane <= LANES && Except(stale, w, v) && Avoids(stale, inst)
    ensures ExceptBoth(stale, LaneLoop(env, w, lane, inst), LaneLoop(env, v, lane, inst))
    decreases LANES - lane
  {
    hide LaneTurn, Except, Avoids;
    if lane < LANES {
      TurnExcept(env, stale, w, v, lane, inst);
      if LaneTurn(env, w, lane, inst).Some? {
        LoopExcept(env, stale, LaneTurn(env, w, lane, inst).value, LaneTurn(env, v, lane, inst).value, lane + 1, inst);
      }
    }
  }

  lemma Sop1Except(stale: set<nat>, w: Wave, v: Wave, inst: Inst)
    requires inst.Sop1? && Except(stale, w, v) && Avoids(stale, inst)
    ensures ExceptBoth(Left(stale, inst), ExecSop1(w, inst), ExecSop1(v, inst))
  {
    assert inst.op == S_MOV_B32 ==> inst.ssrc0 in DataOps(inst);
  }

  lemma SmrdExcept(env: Env, stale: set<nat>, w: Wave, v: Wave, inst: Inst)
    requires inst.Smrd? && Except(stale, w, v) && Avoids(stale, inst)
    ensures ExceptBoth(Left(stale, inst), ExecSmrd(env, w, inst), ExecSmrd(env, v, inst))
  {
    hide SmrdAddr;
    AvoidsInputs(stale, w, v, 0, inst);
    SameSmrdAddr(w, v, inst);
    assert SmrdWords(env, w, inst) == SmrdWords(env, v, inst);
  }

  // An instruction that avoids the stale registers does the same thing whatever they hold, and
  // those it replaces agree from then on.
  lemma StepExcept(env: Env, stale: set<nat>, w: Wave, v: Wave, inst: Inst)
    requires Except(stale, w, v) && Avoids(stale, inst)
    ensures ExceptBoth(Left(stale, inst), ExecOne(env, w, inst), ExecOne(env, v, inst))
  {
    hide LaneLoop, Avoids, Except, ExecSop1, ExecSmrd, Precheck;
    if inst.Sop1? {
      Sop1Except(stale, w, v, inst);
    } else if inst.Smrd? {
      SmrdExcept(env, stale, w, v, inst);
    } else if IsVector(inst) {
      assert Left(stale, inst) == stale;
      AvoidsInputs(stale, w, v, 0, inst);
      SamePrecheck(w, v, 0, inst);
      LoopExcept(env, stale, w, v, 0, inst);
    }
  }

  // A body instruction that does not load over the pair keeps what the call saved there.
  lemma BodyKeepsPair(env: Env, ds: seq<Decoded>, j: nat, d: nat, w: Wave)
    requires j < |ds| && InShape(ds, j) && !IsFiller(ds[j].inst) && d + 1 < NUM_SGPRS
    requires !InQuad(d, ds[j].inst) && !InQuad(d + 1, ds[j].inst)
    requires ExecOne(env, w, ds[j].inst).Some?
    ensures ReadSgprPair(ExecOne(env, w, ds[j].inst).value, d) == ReadSgprPair(w, d)
  {
    hide LaneEffect, LaneLoop, SmrdWords;
    var inst := ds[j].inst;
    if inst.Mubuf? {
      FetchLoop(env, w, inst);
    } else {
      var words := SmrdWords(env, w, inst).value;
      WriteSgprsAt(w.sgprs, inst.sdst.n, words, d);
      WriteSgprsAt(w.sgprs, inst.sdst.n, words, d + 1);
    }
  }
}
