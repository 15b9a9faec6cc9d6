// The masked walk of the spliced stream, and the machine that really calls the fetch shader: lane
// by lane they compute the same vector registers and exports.

module InlinedWalk {
  import opened Words
  import opened Bits
  import opened Isa
  import opened Wavefront
  import opened LaneLoops
  import opened Cfg
  import opened CfgFacts
  import opened Walk
  import opened WalkBounds
  import opened WalkTrace
  import opened LaneView
  import opened WaveLanes
  import opened FetchShader
  import opened FetchCall
  import opened CallMachine
  import opened InlineProof

  // A branch of one lane on its own decides by that lane's VCC bit.
  predicate LaneDecides(op: u16, vcc: u64, lane: Lane) {
    if op == S_CBRANCH_VCCZ then !Bit(vcc, lane)
    else if op == S_CBRANCH_VCCNZ then Bit(vcc, lane)
    else op == S_CBRANCH_EXECNZ
  }

  ghost predicate DecidesAs(code: Code, lane: Lane) {
    forall op, exec, vcc, scc :: code.decide(op, exec, vcc, scc) == LaneDecides(op, vcc, lane)
  }

  // The machine's main stream is the accepted stream `insts`, numbered by its own sizes.
  ghost predicate Machine(code: Code, insts: seq<Decoded>, g: Graph, lane: Lane) {
    && code.main == insts && Sized(insts) && Numbered(insts) && Runnable(insts, g) && DecidesAs(code, lane)
  }

  // ---- one block ----------------------------------------------------------------------------

  predicate Consecutive(idxs: seq<nat>, i: nat) {
    forall k :: 0 <= k < |idxs| ==> idxs[k] == i + k
  }

  // The instructions from `i` up to `last` hold no transfer.
  ghost predicate NoTransfer(insts: seq<Decoded>, i: nat, last: nat)
    requires last < |insts|
  {
    forall k :: i <= k < last ==> Classify(insts[k]).None?
  }

  lemma {:induction false} StepsCompose(env: Env, code: Code, m: nat, n: nat, s: State)
    ensures Steps(env, code, m + n, s) == Steps(env, code, n, Steps(env, code, m, s))
  {
    hide Step;
    if n > 0 {
      StepsCompose(env, code, m, n - 1, s);
    }
  }

  // Where the machine is after the last instruction of a block body.
  function Exit(code: Code, last: nat, w: Wave): State
    requires last < |code.main|
  {
    if IsCfgBranch(code.main[last].inst) then BranchStep(code, InMain(last), w, code.main[last])
    else Run(InMain(last + 1), w)
  }

  // One instruction of a block body is one step of the machine.
  lemma BodyStep(env: Env, code: Code, i: nat, w: Wave)
    requires i < |code.main|
    ensures var inst := code.main[i].inst; var s := Step(env, code, Run(InMain(i), w));
            if IsSopp(inst, S_ENDPGM) then s == Stopped(w)
            else if IsSkipped(inst) then s == Exit(code, i, w)
            else ExecOne(env, w, inst).Some? ==> s == Exit(code, i, ExecOne(env, w, inst).value)
  {
    hide LaneLoop, FindDwords;
  }

  lemma {:induction false} BodySteps(env: Env, code: Code, idxs: seq<nat>, i: nat, w: Wave)
    requires |idxs| > 0 && i + |idxs| <= |code.main| && Consecutive(idxs, i) && NoTransfer(code.main, i, i + |idxs| - 1)
    ensures var s := Steps(env, code, |idxs|, Run(InMain(i), w));
            match RunBody(env, code.main, idxs, w)
            case Going(w') => s == Exit(code, i + |idxs| - 1, w')
            case Ended(w') => s == Stopped(w')
            case Failed(_) => true
    decreases |idxs|
  {
    hide ExecOne, Step, BranchStep;
    var inst, s := code.main[i].inst, Run(InMain(i), w);
    BodyStep(env, code, i, w);
    OneStepOf(env, code, s);
    if |idxs| > 1 {
      StepsCompose(env, code, 1, |idxs| - 1, s);
      assert Classify(code.main[i]).None?;
      if IsSkipped(inst) {
        BodySteps(env, code, idxs[1..], i + 1, w);
      } else if ExecOne(env, w, inst).Some? {
        BodySteps(env, code, idxs[1..], i + 1, ExecOne(env, w, inst).value);
      }
    } else {
      assert forall v :: RunBody(env, code.main, idxs[1..], v) == Going(v);
    }
  }

  lemma OneStepOf(env: Env, code: Code, s: State)
    ensures Steps(env, code, 1, s) == Step(env, code, s)
  {
    hide Step;
    assert Steps(env, code, 0, s) == s;
  }

  // ---- one edge -----------------------------------------------------------------------------

  // The lane alone and the machine stand at the same place with the same state.
  ghost predicate Matches(g: Graph, l: LaneState, s: State) {
    match l
    case At(leader, w) =>
      && BlockIndexAt(g, leader).Some? && |g.blocks[BlockIndexAt(g, leader).value].insts| > 0
      && s == Run(InMain(g.blocks[BlockIndexAt(g, leader).value].insts[0]), w)
    case Halted(w) => s == Stopped(w)
    case LaneStuck => true
  }

  lemma BlockOf(insts: seq<Decoded>, g: Graph, bi: nat)
    requires Runnable(insts, g) && bi < |g.blocks|
    ensures var b := g.blocks[bi];
            && |b.insts| > 0 && 0 < EndOf(b) <= |LiveStream(insts)| <= |insts|
            && Consecutive(b.insts, b.insts[0])
            && b.start == insts[b.insts[0]].offset
            && NoTransfer(insts, b.insts[0], EndOf(b) - 1)
            && b.term == TermOf(LiveStream(insts), EndOf(b) - 1)
  {
    hide Classify, LoopsOk, BranchesLand, LeadersNeeded, Increasing, Tiled;
    BlockFacts(LiveStream(insts), g, bi);
  }

  lemma LivePrefix(insts: seq<Decoded>, k: nat)
    requires k < |LiveStream(insts)|
    ensures k < |insts| && LiveStream(insts)[k] == insts[k]
  {
    hide Classify;
  }

  // The instruction a leader names is the first of its block.
  lemma LeaderAt(insts: seq<Decoded>, g: Graph, x: nat, k: nat)
    requires Runnable(insts, g) && IsLeader(g, x) && k < |LiveStream(insts)| && insts[k].offset == x
    ensures BlockIndexAt(g, x).Some? && |g.blocks[BlockIndexAt(g, x).value].insts| > 0
    ensures g.blocks[BlockIndexAt(g, x).value].insts[0] == k
  {
    hide Classify, LoopsOk, Sound;
    var bi := BlockIndexAt(g, x).value;
    BlockOf(insts, g, bi);
    var live, j := LiveStream(insts), g.blocks[bi].insts[0];
    assert live[j] == insts[j] && live[k] == insts[k];
  }

  lemma BranchLands(code: Code, insts: seq<Decoded>, g: Graph, lane: Lane, k: nat, x: nat, w: Wave)
    requires Machine(code, insts, g, lane) && IsLeader(g, x) && k < |LiveStream(insts)| && IsCfgBranch(insts[k].inst)
    requires IsBranch(insts[k]) && TargetOf(insts[k]) == x
    requires insts[k].inst.op == S_BRANCH || LaneDecides(insts[k].inst.op, w.vcc, lane)
    ensures Matches(g, At(x, w), BranchStep(code, InMain(k), w, insts[k]))
  {
    hide Runnable, FindDwords, DwordsTo, LiveStream, BranchTarget, Classify, LaneDecides, Consecutive, NoTransfer;
    LivePrefix(insts, k);
    CondAgrees(insts[k]);
    var bi := BlockIndexAt(g, x).value;
    BlockOf(insts, g, bi);
    var j := g.blocks[bi].insts[0];
    FindUnique(insts, j, 0);
    assert FindDwords(insts, x, 0) == Some(j);
  }

  lemma FallsTo(insts: seq<Decoded>, g: Graph, k: nat, x: nat, w: Wave)
    requires Runnable(insts, g) && IsLeader(g, x) && k + 1 < |LiveStream(insts)| && x == LiveStream(insts)[k + 1].offset
    ensures Matches(g, At(x, w), Run(InMain(k + 1), w))
  {
    hide Runnable, BlockIndexAt;
    LeaderAt(insts, g, x, k + 1);
  }

  lemma BranchIsModelled(insts: seq<Decoded>, g: Graph, k: nat)
    requires Runnable(insts, g) && k < |LiveStream(insts)| && IsBranch(LiveStream(insts)[k])
    ensures TargetOf(LiveStream(insts)[k]) >= 0
    ensures Classify(LiveStream(insts)[k]).value.CondBranch? ==> Classify(LiveStream(insts)[k]).value.cond.Some?
  {
    hide Classify, LoopsOk, Tiled, LeadersNeeded, Increasing, LiveStream;
  }

  // A live stream with no `s_endpgm` at its end is the whole stream.
  lemma NoEndNoPadding(insts: seq<Decoded>)
    requires |LiveStream(insts)| > 0 && !IsEnd(LiveStream(insts)[|LiveStream(insts)| - 1])
    ensures LiveStream(insts) == insts
  {
    hide Classify;
  }

  lemma FallIsNext(insts: seq<Decoded>, g: Graph, bi: nat)
    requires Runnable(insts, g) && bi < |g.blocks| && g.blocks[bi].term.Cond?
    ensures g.blocks[bi].term.fall != USIZE_MAX
  {
    hide Classify, LoopsOk, Sound, LiveStream, Increasing;
    FallLands(LiveStream(insts), g, bi);
  }

  ghost predicate CondSays(op: u16, cond: BranchCond) {
    forall w: Wave, lane: Lane :: LaneDecides(op, w.vcc, lane) == LaneTakes(cond, w, lane)
  }

  // A modelled branch and the terminator it becomes decide alike.
  lemma CondAgrees(d: Decoded)
    requires IsBranch(d)
    ensures IsCfgBranch(d.inst) && TargetOf(d) == BranchTarget(d.offset, d.size, d.inst.simm16)
    ensures Classify(d).value.CondBranch? <==> d.inst.op != S_BRANCH
    ensures Classify(d).value.CondBranch? && Classify(d).value.cond.Some? ==>
              CondSays(d.inst.op, Classify(d).value.cond.value)
  {
    hide Bit, BranchTarget;
  }

  lemma NoBranch(d: Decoded)
    requires Classify(d).None?
    ensures !IsCfgBranch(d.inst) && !IsSopp(d.inst, S_ENDPGM)
  {
    hide BranchTarget;
  }

  lemma EndIsEndpgm(d: Decoded)
    requires IsEnd(d)
    ensures IsSopp(d.inst, S_ENDPGM)
  {
    hide BranchTarget;
  }

  // What a terminator says about the last instruction of its block.
  ghost predicate Says(insts: seq<Decoded>, last: nat, term: Terminator)
    requires last < |LiveStream(insts)| <= |insts|
  {
    var d, live := insts[last], LiveStream(insts);
    match term
    case Return => IsSopp(d.inst, S_ENDPGM) || (!IsCfgBranch(d.inst) && last + 1 == |insts|)
    case Fallthrough(x) => !IsCfgBranch(d.inst) && last + 1 < |live| && x == live[last + 1].offset
    case Branch(x) => IsBranch(d) && IsCfgBranch(d.inst) && d.inst.op == S_BRANCH && x == TargetOf(d)
    case Cond(cond, x, y) =>
      && IsBranch(d) && IsCfgBranch(d.inst) && d.inst.op != S_BRANCH && x == TargetOf(d)
      && last + 1 < |live| && y == live[last + 1].offset && CondSays(d.inst.op, cond)
  }

  lemma TermSays(insts: seq<Decoded>, g: Graph, bi: nat, last: nat)
    requires Runnable(insts, g) && bi < |g.blocks| && last == EndOf(g.blocks[bi]) - 1
    ensures last < |LiveStream(insts)| <= |insts| && Says(insts, last, g.blocks[bi].term)
  {
    hide Runnable, LiveStream, Classify, Consecutive, NoTransfer, CondSays, IsCfgBranch, IsSopp;
    BlockOf(insts, g, bi);
    var live := LiveStream(insts);
    LivePrefix(insts, last);
    if IsBranch(live[last]) {
      BranchIsModelled(insts, g, last);
      CondAgrees(live[last]);
      if g.blocks[bi].term.Cond? { FallIsNext(insts, g, bi); }
    } else if Classify(live[last]).None? {
      NoBranch(live[last]);
      if last + 1 == |live| { NoEndNoPadding(insts); }
    } else {
      EndIsEndpgm(live[last]);
    }
  }

  // Leaving a block by the edge a lane takes, the machine comes to the leader the lane goes to.
  lemma EdgeSteps(env: Env, code: Code, insts: seq<Decoded>, g: Graph, lane: Lane, bi: nat, last: nat, w: Wave) returns (n: nat)
    requires Machine(code, insts, g, lane) && bi < |g.blocks| && last == EndOf(g.blocks[bi]) - 1
    requires last < |insts| && !IsSopp(insts[last].inst, S_ENDPGM)
    ensures Matches(g, Edge(g.blocks[bi].term, w, lane), Steps(env, code, n, Exit(code, last, w)))
  {
    hide Runnable, LiveStream, BranchTarget, Bit, Matches, Sized, Numbered, FindDwords, LaneDecides, LaneTakes, ExecOne, BlockIndexAt, Classify;
    TermSays(insts, g, bi, last);
    TargetsAreLeaders(insts, g, bi);
    n := 0;
    match g.blocks[bi].term
    case Return =>
      n := 1;
      OneStepOf(env, code, Exit(code, last, w));
      assert Matches(g, Halted(w), Stopped(w)) by { MatchesHalted(g, w); }
    case Fallthrough(x) => FallsTo(insts, g, last, x, w);
    case Branch(x) => BranchLands(code, insts, g, lane, last, x, w);
    case Cond(cond, x, y) =>
      assert LaneDecides(insts[last].inst.op, w.vcc, lane) == LaneTakes(cond, w, lane);
      if LaneTakes(cond, w, lane) {
        BranchLands(code, insts, g, lane, last, x, w);
      } else {
        FallsTo(insts, g, last, y, w);
      }
  }

  lemma MatchesHalted(g: Graph, w: Wave)
    ensures Matches(g, Halted(w), Stopped(w))
  {
  }

  lemma TargetsAreLeaders(insts: seq<Decoded>, g: Graph, bi: nat)
    requires Runnable(insts, g) && bi < |g.blocks|
    ensures forall x :: HasTarget(g.blocks[bi].term, x) ==> IsLeader(g, x)
  {
    hide Classify, LoopsOk, Sound, LiveStream, Increasing, IsLeader;
    forall x | HasTarget(g.blocks[bi].term, x) ensures IsLeader(g, x) {
      EdgesLandForward(LiveStream(insts), g, bi, x);
    }
  }

  // ---- whole runs ---------------------------------------------------------------------------

  // One block of the lane alone is some steps of the machine.
  lemma BlockSteps(env: Env, code: Code, insts: seq<Decoded>, g: Graph, lane: Lane, l: LaneState, s: State) returns (n: nat)
    requires Machine(code, insts, g, lane) && Matches(g, l, s)
    ensures Matches(g, LaneStep(env, insts, g, lane, l), Steps(env, code, n, s))
  {
    hide Runnable, RunBody, Step, Edge, Exit, Classify, LiveStream, Sized, Numbered, DecidesAs, TermOf;
    n := 0;
    if l.At? {
      var bi := BlockIndexAt(g, l.leader).value;
      var b := g.blocks[bi];
      BlockOf(insts, g, bi);
      BodySteps(env, code, b.insts, b.insts[0], l.w);
      var r := RunBody(env, insts, b.insts, l.w);
      n := |b.insts|;
      if r.Going? {
        var last := EndOf(b) - 1;
        GoingHasNoEnd(env, insts, b.insts, l.w);
        var k := EdgeSteps(env, code, insts, g, lane, bi, last, r.w);
        StepsCompose(env, code, n, k, s);
        n := n + k;
      }
    }
  }

  lemma {:induction false} GoingHasNoEnd(env: Env, insts: seq<Decoded>, idxs: seq<nat>, w: Wave)
    requires |idxs| > 0 && RunBody(env, insts, idxs, w).Going?
    ensures idxs[|idxs| - 1] < |insts| && !IsSopp(insts[idxs[|idxs| - 1]].inst, S_ENDPGM)
    decreases |idxs|
  {
    hide ExecOne;
    if |idxs| > 1 {
      var inst := insts[idxs[0]].inst;
      GoingHasNoEnd(env, insts, idxs[1..], if IsSkipped(inst) then w else ExecOne(env, w, inst).value);
    }
  }

  // A lane alone that halts is a machine run that stops in the same state.
  lemma {:induction false} LaneIsMachine(env: Env, code: Code, insts: seq<Decoded>, g: Graph, lane: Lane,
                                         n: nat, l: LaneState, s: State, halted: Wave)
    returns (m: nat)
    requires Machine(code, insts, g, lane) && Matches(g, l, s) && LaneRun(env, insts, g, lane, n, l) == Halted(halted)
    ensures Steps(env, code, m, s) == Stopped(halted)
  {
    hide Machine, LaneStep, Step;
    m := 0;
    if n > 0 {
      var k := BlockSteps(env, code, insts, g, lane, l, s);
      var m' := LaneIsMachine(env, code, insts, g, lane, n - 1, LaneStep(env, insts, g, lane, l), Steps(env, code, k, s), halted);
      StepsCompose(env, code, k, m', s);
      m := k + m';
    }
  }

  lemma LaunchMatches(env: Env, code: Code, insts: seq<Decoded>, g: Graph, lane: Lane, w: Wave) returns (n: nat)
    requires Machine(code, insts, g, lane)
    ensures Matches(g, Launch(g, w), Steps(env, code, n, Run(InMain(0), w)))
  {
    hide Classify, LoopsOk, BranchesLand, LeadersNeeded, Increasing, Sized, Numbered;
    if |g.blocks| == 0 {
      n := 1;
      OneStepOf(env, code, Run(InMain(0), w));
      assert |LiveStream(insts)| == 0 && |insts| == 0;
    } else {
      n := 0;
      IndexOfStart(insts, g, 0);
      BlockFacts(LiveStream(insts), g, 0);
    }
  }

  // The interpreter's masked walk of the spliced stream computes what the call computes. Whenever
  // the walk of the accepted graph succeeds, the machine that keeps the two streams apart and really
  // calls and returns, run with any one live lane, stops with that lane's vector registers and exactly
  // that lane's exports.
  lemma InlinedWalkIsTheCall(masks: set<nat>, env: Env, code: Code, out: seq<Decoded>, g: Graph,
                             c: nat, ret: nat, d: Saved, w: Wave, lane: Lane)
    returns (n: nat, called: Wave)
    requires Leaf(code, out, c, ret, d) && DecidesAs(code, lane)
    requires c < |code.main| && code.main[c].inst.Sop1? && PointerSet(env, code, c, Run(InMain(0), Alone(w, lane)))
    requires Runnable(out, g) && PerLane(masks, out, g) && LaneLive(w, lane) && WalkGraph(env, out, g, w).Ended?
    ensures Steps(env, code, n, Run(InMain(0), Alone(w, lane))) == Stopped(called)
    ensures forall r: nat :: r < NUM_VGPRS ==> Word(called, r, lane) == Word(WalkGraph(env, out, g, w).w, r, lane)
    ensures called.exports == Mine(WalkGraph(env, out, g, w).w.exports, lane)
  {
    hide Leaf, PerLane, Runnable, WalkGraph, LaneStep, Step, PointerSet, Numbered, Sized;
    var s := Run(InMain(0), Alone(w, lane));
    var k, alone := WaveEqualsLanes(masks, env, out, g, w, lane);
    SplicedIsNumbered(code, out, c, ret, d);
    var m0 := LaunchMatches(env, Spliced(code, out), out, g, lane, Alone(w, lane));
    var m1 := LaneIsMachine(env, Spliced(code, out), out, g, lane, k, Launch(g, Alone(w, lane)),
                            Steps(env, Spliced(code, out), m0, s), alone);
    StepsCompose(env, Spliced(code, out), m0, m1, s);
    InliningAddsNothing(env, code, out, c, ret, d, Alone(w, lane), m0 + m1);
    n := m0 + m1 + 2;
    called := Steps(env, code, n, s).w;
  }

  lemma SplicedIsNumbered(code: Code, out: seq<Decoded>, c: nat, ret: nat, d: Saved)
    requires Leaf(code, out, c, ret, d)
    ensures Sized(out) && Numbered(out)
  {
    hide IsFetchShader, DwordsTo, Placed, Avoids, Splice, Address;
    LeafParts(code, out, c, ret, d);
    forall j: nat | j < |out| ensures out[j].offset == DwordsTo(out, j) {
      OutOffset(code.main, code.fetch, out, c, ret, j);
    }
  }
}
