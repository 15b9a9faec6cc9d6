// The hypotheses of the main theorems are met: a shader whose lanes part at a branch and at a loop and
// whose wave walks to its end, and a vertex shader that calls its fetch subroutine.

module Witnesses {
  import opened Words
  import opened Bits
  import opened Isa
  import opened Wavefront
  import opened LaneLoops
  import opened Cfg
  import opened CfgFacts
  import opened Merge
  import opened Walk
  import opened WalkBounds
  import opened WalkTrace
  import opened LaneView
  import opened WaveLanes
  import opened FetchShader
  import opened FetchTable
  import opened FetchCall
  import opened CallMachine
  import opened InlineProof
  import opened Predicates

  // if (vcc) v1 = v0;  do { vcc = v0 < v1; v1 = v0; } while (vcc);
  function Divergent(): seq<Decoded> {
    [Decoded(Sopp(S_CBRANCH_VCCZ, 1), 1, 0),
     Decoded(Move(), 1, 1),
     Decoded(Less(), 1, 2),
     Decoded(Move(), 1, 3),
     Decoded(Sopp(S_CBRANCH_VCCNZ, 0xFFFD), 1, 4),
     Decoded(Sopp(S_ENDPGM, 0), 1, 5)]
  }

  function Move(): Inst { Vop1(V_MOV_B32, Vgpr(1), Vgpr(0)) }

  function Less(): Inst { Vopc(1, Vgpr(0), Vgpr(1)) }

  function DivergentGraph(): Graph {
    Graph([BasicBlock(0, [0], Cond(Vccz, 2, 1)),
           BasicBlock(1, [1], Fallthrough(2)),
           BasicBlock(2, [2, 3, 4], Cond(Vccnz, 2, 5)),
           BasicBlock(5, [5], Return)])
  }

  lemma StreamIsLive(ds: seq<Decoded>)
    requires ds == Divergent()
    ensures LiveStream(ds) == ds && Increasing(ds)
    ensures Classify(ds[0]) == Some(CondBranch(S_CBRANCH_VCCZ, Some(Vccz), 2)) && Classify(ds[1]).None?
    ensures Classify(ds[2]).None? && Classify(ds[3]).None?
    ensures Classify(ds[4]) == Some(CondBranch(S_CBRANCH_VCCNZ, Some(Vccnz), 2)) && Classify(ds[5]) == Some(End)
  {
    assert FirstEnd(ds, 4) == FirstEnd(ds, 5) == 5;
    assert FirstEnd(ds, 2) == FirstEnd(ds, 3) == 5;
    assert FirstEnd(ds, 0) == FirstEnd(ds, 1) == 5;
  }

  lemma BlocksSpan(ds: seq<Decoded>, g: Graph)
    requires ds == Divergent() && g == DivergentGraph()
    ensures Spans(ds, g.blocks[0], 0) && Spans(ds, g.blocks[1], 1)
    ensures Spans(ds, g.blocks[2], 2) && Spans(ds, g.blocks[3], 5)
  {
    StreamIsLive(ds);
    hide Classify, LiveStream, Increasing;
  }

  lemma BlocksTile(ds: seq<Decoded>, g: Graph)
    requires ds == Divergent() && g == DivergentGraph()
    ensures Tiled(ds, g)
  {
    StreamIsLive(ds);
    BlocksSpan(ds, g);
    hide Classify, LiveStream, Increasing, Spans;
    assert EndOf(g.blocks[0]) == 1 && EndOf(g.blocks[1]) == 2 && EndOf(g.blocks[2]) == 5 && EndOf(g.blocks[3]) == 6;
    forall i | 0 <= i < |g.blocks| ensures IsBlock(ds, g, i) {
      assert i == 0 || i == 1 || i == 2 || i == 3;
    }
  }

  lemma BlocksLead(ds: seq<Decoded>, g: Graph)
    requires ds == Divergent() && g == DivergentGraph()
    ensures LeadersNeeded(ds, g)
  {
    BlocksTile(ds, g);
    StreamIsLive(ds);
    hide Classify, LiveStream, Increasing, IsBlock;
    assert IsBranch(ds[0]) && TargetOf(ds[0]) == ds[2].offset && IsBranch(ds[4]);
    assert LeaderReason(ds, 0) && LeaderReason(ds, 1) && LeaderReason(ds, 2) && LeaderReason(ds, 5);
    hide LeaderReason;
    forall i | 0 <= i < |g.blocks| ensures LeaderReason(ds, g.blocks[i].insts[0]) {
      assert i == 0 || i == 1 || i == 2 || i == 3;
    }
  }

  lemma GraphIsSound(ds: seq<Decoded>, g: Graph)
    requires ds == Divergent() && g == DivergentGraph()
    ensures Sound(ds, g)
  {
    BlocksTile(ds, g);
    BlocksLead(ds, g);
    StreamIsLive(ds);
    hide Classify, LiveStream, Increasing, Tiled, LeadersNeeded;
    assert IsLeader(g, 2) by { assert g.blocks[2].start == 2; }
    hide IsLeader;
    forall k | 0 <= k < |ds| && IsBranch(ds[k])
      ensures k == 0 || k == 4
    {
      assert Classify(ds[k]).Some?;
    }
  }

  lemma GraphLoops(g: Graph)
    requires g == DivergentGraph()
    ensures LoopsOk(g)
    ensures LoopOf(g, 0).None? && LoopOf(g, 1).None? && LoopOf(g, 3).None?
    ensures LoopOf(g, 2) == Some(LoopInfo(2, 2, 5, Vccnz))
    ensures BlockIndexAt(g, 0) == Some(0) && BlockIndexAt(g, 1) == Some(1)
    ensures BlockIndexAt(g, 2) == Some(2) && BlockIndexAt(g, 5) == Some(3)
  {
    assert g.blocks[3].start == 5;
    assert IsLeader(g, 5);
  }

  lemma GraphMerges(g: Graph)
    requires g == DivergentGraph()
    ensures MergeTarget(g, 0) == Some(2)
  {
    GraphLoops(g);
    hide BlockIndexAt, LoopsOk;
    assert Reach(g, 2, [2]) == [2];
    assert [1] + [2] == [1, 2];
    assert Reach(g, 1, [1]) == Reach(g, 2, [1, 2]) == [1, 2];
    assert LowestCommon(g, [2], [1, 2]) == Some(2);
  }

  lemma DivergentIsLocal(ds: seq<Decoded>, g: Graph)
    requires ds == Divergent()
    ensures AllLocal({}, ds, g)
  {
    forall k | 0 <= k < |ds| ensures LaneLocal({}, ds[k].inst) {
      assert ds[k].inst.Sopp? || ds[k].inst == Move() || ds[k].inst == Less();
    }
  }

  lemma DivergentArms(ds: seq<Decoded>, g: Graph)
    requires ds == Divergent() && g == DivergentGraph()
    ensures ArmsOk(ds, g) && LoopsStraight(ds, g)
  {
    GraphLoops(g);
    GraphMerges(g);
    hide LoopsOk, BlockIndexAt, MergeTarget;
    assert ArmOk(ds, g, 2, 2, 0);
    assert BlockIs(ds, g.blocks[1], true);
    assert ArmOk(ds, g, 2, 2, 1);
    assert ArmOk(ds, g, 1, 2, 0);
    assert BlockIs(ds, g.blocks[2], false);
    assert LoopBodyOk(ds, g, 2, 2, 0);
    hide ArmOk, LoopBodyOk, BlockIs;
    forall i | 0 <= i < |g.blocks|
      ensures i == 0 || !g.blocks[i].term.Cond? || LoopOf(g, i).Some?
      ensures i == 2 || LoopOf(g, i).None?
    {
    }
  }

  // An accepted graph with a divergent arm and a divergent loop meets the per-lane hypotheses.
  lemma DivergentIsPerLane(ds: seq<Decoded>, g: Graph)
    requires ds == Divergent() && g == DivergentGraph()
    ensures Runnable(ds, g) && PerLane({}, ds, g)
  {
    StreamIsLive(ds);
    GraphIsSound(ds, g);
    GraphLoops(g);
    BuiltIsRunnable(ds, g);
    DivergentIsLocal(ds, g);
    DivergentArms(ds, g);
    hide Runnable, AllLocal, ArmsOk, LoopsStraight, Sound, LoopsOk, Increasing;
  }

  // ---- its lanes part and meet ------------------------------------------------------------------

  // Compares read their operands as integers.
  ghost predicate ComparesIntegers(env: Env) {
    forall a, b :: env.less(a, b) <==> a < b
  }

  lemma LessEffect(env: Env, w: Wave, lane: Lane)
    requires ComparesIntegers(env)
    ensures LaneOk(env, w, lane, Less())
    ensures LaneEffect(env, w, lane, Less()).Some?
    ensures LaneEffect(env, w, lane, Less()).value.bit == (Word(w, 0, lane) < Word(w, 1, lane))
  {
    assert Less().op in COMPARES;
  }

  lemma LessRuns(env: Env, w: Wave) returns (w': Wave)
    requires ComparesIntegers(env)
    ensures ExecOne(env, w, Less()) == Some(w') && w' == w.(vcc := w'.vcc)
    ensures forall lane: Lane :: Bit(w'.vcc, lane) == (LaneLive(w, lane) && Word(w, 0, lane) < Word(w, 1, lane))
  {
    var inst := Less();
    assert Independent(inst) && Precheck(w, inst);
    hide LaneLoop, Bit, LaneEffect, ComparesIntegers, LaneOk, After, Independent, Precheck;
    LaneLoopIsSimultaneous(env, w, inst);
    forall lane: Lane ensures LaneOk(env, w, lane, inst) { LessEffect(env, w, lane); }
    w' := LaneLoop(env, w, 0, inst).value;
    ShortMask(env, w, inst, w');
    forall lane: Lane ensures Bit(w'.vcc, lane) == (LaneLive(w, lane) && Word(w, 0, lane) < Word(w, 1, lane)) {
      LessEffect(env, w, lane);
    }
  }

  lemma MoveRuns(env: Env, w: Wave) returns (w': Wave)
    ensures ExecOne(env, w, Move()) == Some(w') && w'.exec == w.exec && w'.vcc == w.vcc
    ensures forall lane: Lane :: Word(w', 0, lane) == Word(w, 0, lane)
    ensures forall lane: Lane :: Word(w', 1, lane) == if LaneLive(w, lane) then Word(w, 0, lane) else Word(w, 1, lane)
  {
    var inst := Move();
    assert Independent(inst) && Precheck(w, inst);
    LaneLoopIsSimultaneous(env, w, inst);
    forall lane: Lane ensures LaneOk(env, w, lane, inst) {}
    w' := LaneLoop(env, w, 0, inst).value;
    hide LaneLoop, Bit;
    forall lane: Lane ensures Word(w', 0, lane) == Word(w, 0, lane) {
      assert Word(w', 0, lane) == NewWord(EffectOf(env, w, lane, inst), 0, Word(w, 0, lane));
    }
    forall lane: Lane
      ensures Word(w', 1, lane) == if LaneLive(w, lane) then Word(w, 0, lane) else Word(w, 1, lane)
    {
      assert Word(w', 1, lane) == NewWord(EffectOf(env, w, lane, inst), 1, Word(w, 1, lane));
    }
  }

  // The masks of lanes 0 and 1.
  lemma TwoLaneBits(k: nat)
    ensures Bit(3, k) == (k == 0 || k == 1) && Bit(2, k) == (k == 1) && Bit(1, k) == (k == 0)
  {
    ZeroBits(k);
    if k > 0 { ZeroBits(k - 1); }
    if k > 1 { ZeroBits(k - 2); }
  }

  lemma MaskFromBits(m: u64, expected: u64)
    requires forall lane: Lane :: Bit(m, lane) == Bit(expected, lane)
    ensures m == expected
  {
    Pow64();
    forall k: nat | k < 64 ensures Bit(m, k) == Bit(expected, k) {
      var lane: Lane := k;
      assert Bit(m, lane) == Bit(expected, lane);
    }
    SameBits(m, expected, 64);
  }

  // One pass of the loop block: VCC says which live lanes were below, and then none is.
  lemma LoopBlockRuns(env: Env, ds: seq<Decoded>, w: Wave, below: u64) returns (w': Wave)
    requires ds == Divergent() && ComparesIntegers(env)
    requires forall lane: Lane :: Bit(below, lane) == (LaneLive(w, lane) && Word(w, 0, lane) < Word(w, 1, lane))
    ensures RunBody(env, ds, [2, 3, 4], w) == Going(w') && w'.exec == w.exec && w'.vcc == below
    ensures forall lane: Lane :: LaneLive(w, lane) ==> Word(w', 0, lane) == Word(w', 1, lane)
  {
    var w1 := LessRuns(env, w);
    MaskFromBits(w1.vcc, below) by { hide Bit; }
    w' := MoveRuns(env, w1);
    hide ExecOne, Bit;
    assert [2, 3, 4][1..] == [3, 4] && [3, 4][1..] == [4] && [4][1..] == [];
    assert RunBody(env, ds, [], w') == Going(w') && RunBody(env, ds, [4], w') == Going(w');
    assert RunBody(env, ds, [3, 4], w1) == Going(w');
    forall lane: Lane | LaneLive(w, lane) ensures Word(w', 0, lane) == Word(w', 1, lane) {
      assert LaneLive(w1, lane);
    }
  }

  // The diamond: lane 1 takes the branch, lane 0 falls through the move.
  lemma LanesPart(env: Env, ds: seq<Decoded>, g: Graph, w: Wave) returns (w': Wave)
    requires ds == Divergent() && g == DivergentGraph() && w.exec == 3 && w.vcc == 1
    ensures TakenMask(Vccz, w) == 2 && AndNot(w.exec, 2) == 1
    ensures Diamond(env, ds, g, g.blocks[0].term, 2, w) == Going(w') && w'.exec == 3
    ensures Word(w', 0, 0) == Word(w', 1, 0) && Word(w', 0, 1) == Word(w, 0, 1) && Word(w', 1, 1) == Word(w, 1, 1)
  {
    assert AndNot(3, 1) == 2 && AndNot(3, 2) == 1;
    TwoLaneBits(0);
    TwoLaneBits(1);
    GraphLoops(g);
    var w1 := MoveRuns(env, w.(exec := 1));
    w' := w1.(exec := 3);
    hide ExecOne, Bit, AndNot, BlockIndexAt, LoopsOk;
    assert [1][1..] == [] && RunBody(env, ds, [], w1) == Going(w1);
    assert RunBody(env, ds, [1], w.(exec := 1)) == Going(w1);
    hide RunBody;
    assert Region(env, ds, g, 2, 2, 1, w1) == Going(w1);
    assert Region(env, ds, g, 1, 2, 0, w.(exec := 1)) == Going(w1);
    assert LaneLive(w.(exec := 1), 0) && !LaneLive(w.(exec := 1), 1);
    assert Word(w1, 1, 0) == Word(w, 0, 0) && Word(w1, 0, 0) == Word(w, 0, 0);
    assert Word(w1, 1, 1) == Word(w, 1, 1) && Word(w1, 0, 1) == Word(w, 0, 1);
  }

  // The loop: only lane 1 goes round, and then it leaves too.
  lemma LanesMeet(env: Env, ds: seq<Decoded>, g: Graph, w: Wave) returns (w': Wave)
    requires ds == Divergent() && g == DivergentGraph() && ComparesIntegers(env) && w.exec == 3 && w.vcc == 2
    requires forall lane: Lane :: LaneLive(w, lane) ==> Word(w, 0, lane) == Word(w, 1, lane)
    ensures ContinueMask(Vccnz, w) == 2
    ensures Loop(env, ds, g, LoopInfo(2, 2, 5, Vccnz), 3, 0, w) == Going(w')
  {
    assert And(3, 2) == 2 && And(2, 0) == 0;
    GraphLoops(g);
    var v := w.(exec := 2);
    forall lane: Lane ensures Bit(0, lane) == (LaneLive(v, lane) && Word(v, 0, lane) < Word(v, 1, lane)) {
      ZeroBits(lane);
      TwoLaneBits(lane);
      assert LaneLive(v, lane) ==> LaneLive(w, lane) && Word(w, 0, lane) == Word(w, 1, lane);
    }
    var v' := LoopBlockRuns(env, ds, v, 0);
    w' := v'.(exec := 3);
    hide RunBody, Bit, And, BlockIndexAt, LoopsOk;
    assert LoopBody(env, ds, g, 2, 2, 0, v) == Going(v');
    assert ContinueMask(Vccnz, v') == 0;
    hide LoopBody;
    assert Loop(env, ds, g, LoopInfo(2, 2, 5, Vccnz), 3, 1, v') == Going(w');
  }

  // Two live lanes part at the branch and again at the loop, and the walk reaches its end: the wave
  // theorem has something to say.
  lemma DivergentEnds(env: Env, ds: seq<Decoded>, g: Graph, w: Wave) returns (entered: Wave)
    requires ds == Divergent() && g == DivergentGraph() && ComparesIntegers(env)
    requires w.exec == 3 && w.vcc == 1 && Word(w, 0, 1) < Word(w, 1, 1)
    ensures WalkGraph(env, ds, g, w).Ended? && LaneLive(w, 0) && LaneLive(w, 1)
    ensures TakenMask(Vccz, w) == 2 && AndNot(w.exec, 2) == 1
    ensures Leave(env, ds, g, 2, entered).Goto? && entered.exec == 3 && ContinueMask(Vccnz, entered) == 2
  {
    GraphLoops(g);
    GraphMerges(g);
    TwoLaneBits(0);
    TwoLaneBits(1);
    var w1 := LanesPart(env, ds, g, w);
    forall lane: Lane ensures Bit(2, lane) == (LaneLive(w1, lane) && Word(w1, 0, lane) < Word(w1, 1, lane)) {
      TwoLaneBits(lane);
    }
    entered := LoopBlockRuns(env, ds, w1, 2);
    var w2 := LanesMeet(env, ds, g, entered);
    EndsRun(env, ds, w, w2);
    hide RunBody, BlockIndexAt, MergeTarget, LoopsOk, TakenMask, ContinueMask, AndNot, Bit, Diamond, Loop, Word;
    assert Leave(env, ds, g, 0, w) == Goto(w1, 2);
    assert Leave(env, ds, g, 2, entered) == Goto(w2, 5);
    hide Leave;
    assert WalkFrom(env, ds, g, 5, 2, w2) == Ended(w2);
    assert WalkFrom(env, ds, g, 2, 1, w1) == Ended(w2);
    assert WalkFrom(env, ds, g, 0, 0, w) == Ended(w2);
  }

  lemma EndsRun(env: Env, ds: seq<Decoded>, w: Wave, w2: Wave)
    requires ds == Divergent()
    ensures RunBody(env, ds, [0], w) == Going(w) && RunBody(env, ds, [5], w2) == Ended(w2)
  {
    hide ExecOne;
    assert [0][1..] == [] && RunBody(env, ds, [], w) == Going(w);
  }

  // ---- a leaf call ------------------------------------------------------------------------------

  // The prologue every retail vertex shader opens with, then the end of the program.
  function Caller(): seq<Decoded> {
    [Decoded(Sop1(S_MOV_B32, Special(VccHi), Literal(7)), 2, 0),
     Decoded(Sop1(S_SWAPPC_B64, Sgpr(0), Sgpr(0)), 1, 2),
     Decoded(Sop1(S_MOV_B32, Sgpr(0), InlineInt(1)), 1, 3),
     Decoded(Vop1(V_MOV_B32, Vgpr(1), Sgpr(0)), 1, 4),
     Decoded(Sopp(S_ENDPGM, 0), 1, 5)]
  }

  function Callee(): seq<Decoded> {
    [Decoded(Smrd(S_LOAD_DWORDX4, Sgpr(4), 8, true, 0), 1, 0),
     Decoded(Mubuf(0, Vgpr(4), Vgpr(0), 4, InlineInt(0), 0, true, false), 2, 1),
     Decoded(Sop1(S_SETPC_B64, Sgpr(0), Sgpr(0)), 1, 3)]
  }

  function Inlined(): seq<Decoded> {
    [Caller()[0], Callee()[0].(offset := 2), Callee()[1].(offset := 3),
     Caller()[2].(offset := 5), Caller()[3].(offset := 6), Caller()[4].(offset := 7)]
  }

  // The caller takes s0 for its own after the call; s1 stays stale.
  function Pair(): Saved { Saved(0, [{}, {}, {0, 1}, {1}, {1}, {1}]) }

  lemma CalleeIsFetchShader(ds: seq<Decoded>)
    requires ds == Callee()
    ensures IsFetchShader(ds, 2) && Conventional(ds, 2)
  {
    assert Loaded(ds, 0) == map[] && Loaded(ds, 1) == map[4 := Source(8, 0)];
    assert Attributes(ds, 0) == [] && Attributes(ds, 1) == [];
    assert InShape(ds, 0) && InShape(ds, 1);
  }

  // Its body runs, so what the table theorems say of it is not empty; its one fetch is plain.
  lemma CalleeRuns(env: Env, ds: seq<Decoded>, mark: nat, w: Wave)
    requires ds == Callee()
    ensures Straight(Marked(env, mark), ds, 2, w).Some? && AllPlain(ds, 2)
  {
    CalleeIsFetchShader(ds);
    forall i | 0 <= i < 2 ensures InRange(ds[i].inst) && (ds[i].inst.Mubuf? ==> Plain(ds[i].inst)) {
      assert i == 0 || i == 1;
    }
    hide Straight, Marked, InRange, Plain, Conventional;
    MarkedRuns(env, mark, ds, 2, w);
  }

  lemma CallResolves(main: seq<Decoded>, fetch: seq<Decoded>, out: seq<Decoded>)
    requires main == Caller() && fetch == Callee() && out == Inlined()
    ensures Resolved(main, fetch, out, 1, 2)
    ensures forall i: nat :: i <= 5 ==> DwordsTo(main, i) == if i == 0 then 0 else i + 1
    ensures DwordsTo(fetch, 0) == 0 && DwordsTo(fetch, 1) == 1 && DwordsTo(fetch, 2) == 3 && DwordsTo(fetch, 3) == 4
  {
    CalleeIsFetchShader(fetch);
    var s := Splice(main, 1, fetch, 2);
    assert s == [main[0], fetch[0], fetch[1], main[2], main[3], main[4]];
    assert DwordsTo(s, 0) == 0 && DwordsTo(s, 1) == 2 && DwordsTo(s, 2) == 3 && DwordsTo(s, 3) == 5;
    assert DwordsTo(s, 4) == 6 && DwordsTo(s, 5) == 7;
    assert DwordsTo(main, 1) == 2 && DwordsTo(main, 2) == 3 && DwordsTo(main, 3) == 4 && DwordsTo(main, 4) == 5;
    assert DwordsTo(main, 5) == 6;
    assert DwordsTo(fetch, 1) == 1 && DwordsTo(fetch, 2) == 3;
  }

  lemma PairIsReused(main: seq<Decoded>, d: Saved)
    requires main == Caller() && d == Pair()
    ensures Reused(main, 1, d)
  {
    forall i | 1 < i < |main| ensures Flows(main, d, i) {
      assert i == 2 || i == 3 || i == 4;
    }
  }

  lemma CallIsPlaced(code: Code)
    requires code.main == Caller() && code.fetch == Callee() && code.mainBase == 0x1000 && code.fetchBase == 0x2000
    requires forall i: nat :: i <= 5 ==> DwordsTo(code.main, i) == if i == 0 then 0 else i + 1
    requires DwordsTo(code.fetch, 3) == 4
    ensures Placed(code) && Sized(code.main) && Sized(code.fetch) && Numbered(code.main)
  {
    hide DwordsTo;
    forall i | 0 <= i < |code.main| ensures code.main[i].offset == DwordsTo(code.main, i) && code.main[i].size >= 1 {
      assert i == 0 || i == 1 || i == 2 || i == 3 || i == 4;
    }
  }

  // The leaf-call discipline is met by the call retail shaders make.
  lemma CallIsLeaf(code: Code, out: seq<Decoded>)
    requires code.main == Caller() && code.fetch == Callee() && out == Inlined()
    requires code.mainBase == 0x1000 && code.fetchBase == 0x2000
    ensures Leaf(code, out, 1, 2, Pair())
  {
    var main, fetch := code.main, code.fetch;
    CallResolves(main, fetch, out);
    PairIsReused(main, Pair());
    CallIsPlaced(code);
    hide Resolved, DwordsTo, Reused, Placed, Sized, Numbered;
    forall j | 0 <= j < 2
      ensures Avoids(PairAt(0), fetch[j].inst) && !InQuad(0, fetch[j].inst) && !InQuad(1, fetch[j].inst)
    {
      assert j == 0 || j == 1;
    }
  }

  // Launched with the fetch shader's address in s[0:1], it arrives at the call with it.
  lemma CallHasItsPointer(env: Env, code: Code, out: seq<Decoded>, w: Wave)
    requires code.main == Caller() && code.fetch == Callee() && out == Inlined()
    requires code.mainBase == 0x1000 && code.fetchBase == 0x2000 && w.sgprs[0] == 0x2000 && w.sgprs[1] == 0
    ensures PointerSet(env, code, 1, Run(InMain(0), w))
  {
    var v := LoadsVcc(env, w);
    assert Steps(env, code, 0, Run(InMain(0), w)) == Run(InMain(0), w);
    assert Steps(env, code, 1, Run(InMain(0), w)) == Run(InMain(1), v);
    hide Leaf, Step;
    CallIsLeaf(code, out);
    PointerAtFirstCall(env, code, out, 1, 2, Pair(), w, 1, v);
  }

  lemma LoadsVcc(env: Env, w: Wave) returns (v: Wave)
    ensures ExecOne(env, w, Caller()[0].inst) == Some(v) && v == w.(vcc := v.vcc)
  {
    v := w.(vcc := w.vcc % TWO32 + 7 * TWO32);
  }

  // A jump of the main stream's own stays behind: the splice is accepted and keeps it.
  lemma KeptReturn(main: seq<Decoded>, fetch: seq<Decoded>, out: seq<Decoded>)
    requires main == [Caller()[0], Caller()[1], Decoded(Sop1(S_SETPC_B64, Sgpr(6), Sgpr(6)), 1, 3)] && fetch == Callee()
    requires out == [Inlined()[0], Inlined()[1], Inlined()[2], Decoded(Sop1(S_SETPC_B64, Sgpr(6), Sgpr(6)), 1, 5)]
    ensures Resolved(main, fetch, out, 1, 2) && IsFetchReturn(out[3].inst)
  {
    CalleeIsFetchShader(fetch);
    var s := Splice(main, 1, fetch, 2);
    assert s == [main[0], fetch[0], fetch[1], main[2]];
    assert DwordsTo(s, 0) == 0 && DwordsTo(s, 1) == 2 && DwordsTo(s, 2) == 3 && DwordsTo(s, 3) == 5;
  }

  // ---- walking the spliced stream -----------------------------------------------------------

  function InlinedGraph(): Graph { Graph([BasicBlock(0, [0, 1, 2, 3, 4, 5], Return)]) }

  lemma InlinedIsLive(out: seq<Decoded>)
    requires out == Inlined()
    ensures LiveStream(out) == out && Increasing(out) && Classify(out[5]) == Some(End)
    ensures forall k :: 0 <= k < 5 ==> Classify(out[k]).None?
  {
    assert FirstEnd(out, 4) == FirstEnd(out, 5) == 5;
    assert FirstEnd(out, 2) == FirstEnd(out, 3) == 5;
    assert FirstEnd(out, 0) == FirstEnd(out, 1) == 5;
  }

  lemma InlinedIsSound(out: seq<Decoded>, g: Graph)
    requires out == Inlined() && g == InlinedGraph()
    ensures Sound(out, g) && LoopsOk(g)
  {
    InlinedIsLive(out);
    hide Classify, LiveStream, Increasing;
    assert Spans(out, g.blocks[0], 0);
    assert IsBlock(out, g, 0) && LeaderReason(out, 0);
  }

  lemma InlinedIsLocal(out: seq<Decoded>, g: Graph)
    requires out == Inlined()
    ensures AllLocal({}, out, g)
  {
    forall k | 0 <= k < |out| ensures LaneLocal({}, out[k].inst) {
      assert k == 0 || k == 1 || k == 2 || k == 3 || k == 4 || k == 5;
    }
  }

  // The spliced stream is one accepted block of per-lane code.
  lemma InlinedIsPerLane(out: seq<Decoded>, g: Graph)
    requires out == Inlined() && g == InlinedGraph()
    ensures Runnable(out, g) && PerLane({}, out, g)
  {
    InlinedIsLive(out);
    InlinedIsSound(out, g);
    InlinedIsLocal(out, g);
    hide Classify, LiveStream, Increasing, Sound, LoopsOk, AllLocal;
    BuiltIsRunnable(out, g);
    hide Runnable;
  }

  // v1 = s0 in every live lane.
  lemma BroadcastRuns(env: Env, w: Wave) returns (w': Wave)
    ensures ExecOne(env, w, Caller()[3].inst) == Some(w')
  {
    var inst := Caller()[3].inst;
    assert Independent(inst) && Precheck(w, inst);
    forall lane: Lane ensures LaneOk(env, w, lane, inst) {}
    hide LaneLoop, LaneOk, Independent, Precheck;
    LaneLoopIsSimultaneous(env, w, inst);
    w' := LaneLoop(env, w, 0, inst).value;
  }

  lemma InlinedBody(e: Env, out: seq<Decoded>, v0: Wave, v1: Wave, v2: Wave, v3: Wave, v4: Wave, v5: Wave)
    requires out == Inlined()
    requires ExecOne(e, v0, out[0].inst) == Some(v1) && ExecOne(e, v1, out[1].inst) == Some(v2)
    requires ExecOne(e, v2, out[2].inst) == Some(v3) && ExecOne(e, v3, out[3].inst) == Some(v4)
    requires ExecOne(e, v4, out[4].inst) == Some(v5)
    ensures RunBody(e, out, [0, 1, 2, 3, 4, 5], v0) == Ended(v5)
  {
    hide ExecOne;
    assert RunBody(e, out, [5], v5) == Ended(v5);
    assert [4, 5][1..] == [5] && RunBody(e, out, [4, 5], v4) == Ended(v5);
    assert [3, 4, 5][1..] == [4, 5] && RunBody(e, out, [3, 4, 5], v3) == Ended(v5);
    assert [2, 3, 4, 5][1..] == [3, 4, 5] && RunBody(e, out, [2, 3, 4, 5], v2) == Ended(v5);
    assert [1, 2, 3, 4, 5][1..] == [2, 3, 4, 5] && RunBody(e, out, [1, 2, 3, 4, 5], v1) == Ended(v5);
    assert [0, 1, 2, 3, 4, 5][1..] == [1, 2, 3, 4, 5];
  }

  lemma CalleeSteps(env: Env, mark: nat, w: Wave) returns (v: Wave, w': Wave)
    ensures ExecOne(Marked(env, mark), w, Callee()[0].inst) == Some(v)
    ensures ExecOne(Marked(env, mark), v, Callee()[1].inst) == Some(w')
  {
    var e, ds := Marked(env, mark), Callee();
    CalleeRuns(env, ds, mark, w);
    hide ExecOne, Marked, AllPlain;
    assert Straight(e, ds, 0, w) == Some(w);
    v := Straight(e, ds, 1, w).value;
    w' := Straight(e, ds, 2, w).value;
  }

  // The walk of the spliced stream reaches its end.
  lemma InlinedEnds(env: Env, mark: nat, out: seq<Decoded>, g: Graph, w: Wave)
    requires out == Inlined() && g == InlinedGraph()
    ensures WalkGraph(Marked(env, mark), out, g, w).Ended?
  {
    var e := Marked(env, mark);
    var v1 := LoadsVcc(e, w);
    var v2, v3 := CalleeSteps(env, mark, v1);
    var v4 := v3.(sgprs := v3.sgprs[0 := 1]);
    assert ExecOne(e, v3, out[3].inst) == Some(v4);
    hide ExecOne, Marked, RunBody;
    var v5 := BroadcastRuns(e, v4);
    InlinedBody(e, out, w, v1, v2, v3, v4, v5);
  }
}
