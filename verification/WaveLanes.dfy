// The masked walk of a whole wave means the same as running each of its lanes alone, with
// that lane's own branch decisions.

module WaveLanes {
  import opened Words
  import opened Bits
  import opened Isa
  import opened Wavefront
  import opened LaneLoops
  import opened Cfg
  import opened CfgFacts
  import opened Merge
  import opened Walk
  import opened WalkBounds
  import opened WalkTrace
  import opened LaneView

  // ---- a lane alone ----------------------------------------------------------------------

  // A lane running alone is at a leader, has halted, or is stuck.
  datatype LaneState = At(leader: nat, w: Wave) | Halted(w: Wave) | LaneStuck

  // One block of a lane running alone: its body, then the edge its own bit chooses. There is
  // no mask, no arm, no merge and no loop here.
  function LaneStep(env: Env, insts: seq<Decoded>, g: Graph, lane: Lane, s: LaneState): LaneState {
    match s
    case At(leader, w) =>
      if BlockIndexAt(g, leader).None? then LaneStuck
      else
        var b := g.blocks[BlockIndexAt(g, leader).value];
        (match RunBody(env, insts, b.insts, w)
         case Failed(_) => LaneStuck
         case Ended(w') => Halted(w')
         case Going(w') => Edge(b.term, w', lane))
    case _ => s
  }

  function Edge(term: Terminator, w: Wave, lane: Lane): LaneState {
    match term
    case Return => Halted(w)
    case Fallthrough(target) => At(target, w)
    case Branch(target) => At(target, w)
    case Cond(cond, taken, fall) => At(if LaneTakes(cond, w, lane) then taken else fall, w)
  }

  function LaneRun(env: Env, insts: seq<Decoded>, g: Graph, lane: Lane, n: nat, s: LaneState): LaneState {
    if n == 0 then s else LaneRun(env, insts, g, lane, n - 1, LaneStep(env, insts, g, lane, s))
  }

  lemma {:induction false} RunsCompose(env: Env, insts: seq<Decoded>, g: Graph, lane: Lane, m: nat, n: nat, s: LaneState)
    ensures LaneRun(env, insts, g, lane, m + n, s)
         == LaneRun(env, insts, g, lane, n, LaneRun(env, insts, g, lane, m, s))
  {
    hide LaneStep;
    if m > 0 {
      RunsCompose(env, insts, g, lane, m - 1, n, LaneStep(env, insts, g, lane, s));
    }
  }

  // One when `s` is at a leader no later than `from`: a step to it goes backward.
  function Backward(from: nat, s: LaneState): nat {
    if s.At? && s.leader <= from then 1 else 0
  }

  // The backward jumps the lane makes in its first `n` steps from `s`.
  function Jumps(env: Env, insts: seq<Decoded>, g: Graph, lane: Lane, n: nat, s: LaneState): nat {
    if n == 0 then 0
    else
      (if s.At? then Backward(s.leader, LaneStep(env, insts, g, lane, s)) else 0)
      + Jumps(env, insts, g, lane, n - 1, LaneStep(env, insts, g, lane, s))
  }

  lemma {:induction false} JumpsCompose(env: Env, insts: seq<Decoded>, g: Graph, lane: Lane, m: nat, n: nat, s: LaneState)
    ensures Jumps(env, insts, g, lane, m + n, s)
         == Jumps(env, insts, g, lane, m, s) + Jumps(env, insts, g, lane, n, LaneRun(env, insts, g, lane, m, s))
  {
    hide LaneStep, Backward;
    if m > 0 {
      JumpsCompose(env, insts, g, lane, m - 1, n, LaneStep(env, insts, g, lane, s));
    }
  }

  lemma OneJump(env: Env, insts: seq<Decoded>, g: Graph, lane: Lane, leader: nat, l: Wave)
    ensures Jumps(env, insts, g, lane, 1, At(leader, l)) == Backward(leader, LaneStep(env, insts, g, lane, At(leader, l)))
  {
    hide LaneStep;
    assert Jumps(env, insts, g, lane, 0, LaneStep(env, insts, g, lane, At(leader, l))) == 0;
  }

  // Only a back-edge goes backward.
  lemma StepsForward(insts: seq<Decoded>, g: Graph, bi: nat, l: Wave, lane: Lane)
    requires Runnable(insts, g) && bi < |g.blocks|
    ensures LoopOf(g, bi).None? ==> Backward(g.blocks[bi].start, Edge(g.blocks[bi].term, l, lane)) == 0
    ensures LoopOf(g, bi).Some? && !LaneTakes(LoopOf(g, bi).value.cond, l, lane) ==>
              Backward(g.blocks[bi].start, Edge(g.blocks[bi].term, l, lane)) == 0
    ensures LoopOf(g, bi).Some? ==> LoopOf(g, bi).value.merge > g.blocks[bi].start
  {
    hide Runnable, Accepted, Bit, LaneTakes;
    ToAccepted(insts, g);
    forall x: nat | HasTarget(g.blocks[bi].term, x)
      ensures x > g.blocks[bi].start || (LoopOf(g, bi).Some? && x == LoopOf(g, bi).value.header)
    {
      EdgesLandForward(LiveStream(insts), g, bi, x);
    }
    if g.blocks[bi].term.Cond? {
      FallForward(insts, g, bi);
    }
    var e := Edge(g.blocks[bi].term, l, lane);
    assert e.At? ==> HasTarget(g.blocks[bi].term, e.leader);
  }

  lemma FallForward(insts: seq<Decoded>, g: Graph, bi: nat)
    requires Runnable(insts, g) && bi < |g.blocks| && g.blocks[bi].term.Cond?
    ensures g.blocks[bi].term.fall > g.blocks[bi].start
  {
    hide Classify, LoopsOk, BranchesLand, LeadersNeeded, LiveStream, Tiled;
    FallLands(LiveStream(insts), g, bi);
    StartsAscend(LiveStream(insts), g, bi, bi + 1);
  }

  // `lane` alone, from the wave's launch state.
  function Alone(w: Wave, lane: Lane): Wave {
    w.(exec := SetBitU64(0, lane, true), exports := Mine(w.exports, lane))
  }

  function Launch(g: Graph, w: Wave): LaneState {
    if |g.blocks| == 0 then Halted(w) else At(g.blocks[0].start, w)
  }

  // ---- the hypotheses ----------------------------------------------------------------------

  ghost predicate BodyLocal(masks: set<nat>, insts: seq<Decoded>, idxs: seq<nat>) {
    forall k :: 0 <= k < |idxs| && idxs[k] < |insts| ==> LaneLocal(masks, insts[idxs[k]].inst)
  }

  // Every instruction of a block is per-lane; what the stream holds behind its end does not matter.
  ghost predicate AllLocal(masks: set<nat>, insts: seq<Decoded>, g: Graph) {
    forall bi :: 0 <= bi < |g.blocks| ==> BodyLocal(masks, insts, g.blocks[bi].insts)
  }

  lemma BlockLocal(masks: set<nat>, insts: seq<Decoded>, g: Graph, bi: nat)
    requires AllLocal(masks, insts, g) && bi < |g.blocks|
    ensures BodyLocal(masks, insts, g.blocks[bi].insts)
  {
  }

  // The blocks of an accepted graph hold the live stream, so the hypothesis can be read off it.
  lemma LocalityOfLiveStream(masks: set<nat>, insts: seq<Decoded>, g: Graph)
    requires Runnable(insts, g)
    ensures AllLocal(masks, insts, g) <==> forall k :: 0 <= k < |LiveStream(insts)| ==> LaneLocal(masks, LiveStream(insts)[k].inst)
  {
    hide LaneLocal, LiveStream, LoopsOk, BranchesLand, LeadersNeeded, Increasing, Tiled;
    var live := LiveStream(insts);
    if AllLocal(masks, insts, g) {
      forall k: nat | k < |live| ensures LaneLocal(masks, live[k].inst) {
        LiveIsListed(insts, g);
        var bi := Owner(live, g, k, |g.blocks|);
        BlockLocal(masks, insts, g, bi);
        BlockFacts(live, g, bi);
        BlockInStream(insts, g, bi);
        assert g.blocks[bi].insts[k - Lo(g, bi)] == k;
      }
    }
    if forall k :: 0 <= k < |live| ==> LaneLocal(masks, live[k].inst) {
      forall bi: nat | bi < |g.blocks| ensures BodyLocal(masks, insts, g.blocks[bi].insts) {
        BlockInStream(insts, g, bi);
      }
    }
  }

  lemma LiveIsListed(insts: seq<Decoded>, g: Graph)
    requires Runnable(insts, g) && |LiveStream(insts)| > 0
    ensures |g.blocks| > 0 && EndOf(g.blocks[|g.blocks| - 1]) == |LiveStream(insts)|
  {
  }

  predicate BlockIs(insts: seq<Decoded>, b: BasicBlock, inArm: bool) {
    forall k :: 0 <= k < |b.insts| ==>
      b.insts[k] < |insts| &&
      (IsSkipped(insts[b.insts[k]].inst)
       || if inArm then VectorOnly(insts[b.insts[k]].inst) else VectorOrVcc(insts[b.insts[k]].inst))
  }

  // The blocks from `cur` to `stop` along unconditional edges write only vector registers and
  // exports.
  predicate ArmOk(insts: seq<Decoded>, g: Graph, cur: nat, stop: nat, steps: nat)
    requires steps <= VisitCapOf(g)
    decreases VisitCapOf(g) - steps
  {
    cur == stop || steps == VisitCapOf(g) || BlockIndexAt(g, cur).None? ||
    var b := g.blocks[BlockIndexAt(g, cur).value];
    && BlockIs(insts, b, true)
    && (b.term.Fallthrough? || b.term.Branch? ==> ArmOk(insts, g, b.term.target, stop, steps + 1))
  }

  // The back-edge block lies on the unconditional chain from `cur`, and the blocks up to it
  // write only vector registers, exports and VCC.
  predicate LoopBodyOk(insts: seq<Decoded>, g: Graph, cur: nat, back: nat, steps: nat)
    requires steps <= VisitCapOf(g)
    decreases VisitCapOf(g) - steps
  {
    && steps < VisitCapOf(g) && BlockIndexAt(g, cur).Some?
    && var b := g.blocks[BlockIndexAt(g, cur).value];
       && BlockIs(insts, b, false)
       && (cur == back ||
           ((b.term.Fallthrough? || b.term.Branch?) && LoopBodyOk(insts, g, b.term.target, back, steps + 1)))
  }

  ghost predicate ArmsOk(insts: seq<Decoded>, g: Graph) {
    forall bi :: 0 <= bi < |g.blocks| && LoopOf(g, bi).None? && MergeTarget(g, bi).Some? && g.blocks[bi].term.Cond? ==>
      && ArmOk(insts, g, g.blocks[bi].term.taken, MergeTarget(g, bi).value, 0)
      && ArmOk(insts, g, g.blocks[bi].term.fall, MergeTarget(g, bi).value, 0)
  }

  ghost predicate LoopsStraight(insts: seq<Decoded>, g: Graph) {
    forall bi :: 0 <= bi < |g.blocks| && LoopOf(g, bi).Some? ==>
      && LoopOf(g, bi).value.cond != Vccz
      && LoopBodyOk(insts, g, LoopOf(g, bi).value.header, LoopOf(g, bi).value.backEdgeBlock, 0)
  }

  // Divergent code is per-lane: masks are used as masks and EXEC is never written; divergent
  // arms write only vector registers and exports; a loop does not continue on `vccz`, its body
  // also may write VCC, and its back-edge block lies on the header's unconditional chain.
  ghost predicate PerLane(masks: set<nat>, insts: seq<Decoded>, g: Graph) {
    && PairsApart(masks)
    && AllLocal(masks, insts, g)
    && ArmsOk(insts, g)
    && LoopsStraight(insts, g)
  }

  // ---- block bodies -------------------------------------------------------------------------

  lemma {:induction false} BodyProjects(masks: set<nat>, env: Env, insts: seq<Decoded>, idxs: seq<nat>, w: Wave, l: Wave, lane: Lane)
    requires PairsApart(masks) && BodyLocal(masks, insts, idxs) && Rel(masks, w, l, lane) && LaneLive(w, lane)
    ensures match RunBody(env, insts, idxs, w)
            case Going(w') => (var r := RunBody(env, insts, idxs, l); r.Going? && Rel(masks, w', r.w, lane) && w'.exec == w.exec)
            case Ended(w') => (var r := RunBody(env, insts, idxs, l); r.Ended? && Rel(masks, w', r.w, lane))
            case Failed(_) => true
    decreases |idxs|
  {
    hide ExecOne, Rel, LaneLocal;
    if |idxs| > 0 && idxs[0] < |insts| {
      var inst := insts[idxs[0]].inst;
      if IsSkipped(inst) {
        BodyProjects(masks, env, insts, idxs[1..], w, l, lane);
      } else if !IsSopp(inst, S_ENDPGM) && ExecOne(env, w, inst).Some? {
        StepProjects(masks, env, w, l, lane, inst);
        BodyProjects(masks, env, insts, idxs[1..], ExecOne(env, w, inst).value, ExecOne(env, l, inst).value, lane);
      }
    }
  }

  // A block a lane is not executing does not change what that lane sees.
  lemma {:induction false} BodyPasses(masks: set<nat>, env: Env, insts: seq<Decoded>, idxs: seq<nat>, inArm: bool, w: Wave, l: Wave, lane: Lane)
    requires PairsApart(masks) && BodyLocal(masks, insts, idxs) && Rel(masks, w, l, lane) && !LaneLive(w, lane)
    requires BlockIs(insts, BasicBlock(0, idxs, Return), inArm) && (inArm || !Bit(w.vcc, lane))
    ensures match RunBody(env, insts, idxs, w)
            case Going(w') => Rel(masks, w', l, lane) && w'.exec == w.exec
            case Ended(_) => false
            case Failed(_) => true
    decreases |idxs|
  {
    hide ExecOne, Rel, LaneLocal;
    if |idxs| > 0 {
      var inst := insts[idxs[0]].inst;
      if IsSkipped(inst) {
        BodyPasses(masks, env, insts, idxs[1..], inArm, w, l, lane);
      } else if ExecOne(env, w, inst).Some? {
        DeadStep(masks, env, w, l, lane, inst);
        SameVccBit(masks, w, l, ExecOne(env, w, inst).value, lane);
        BodyPasses(masks, env, insts, idxs[1..], inArm, ExecOne(env, w, inst).value, l, lane);
      }
    }
  }

  lemma SameVccBit(masks: set<nat>, w: Wave, l: Wave, w': Wave, lane: Lane)
    requires PairsApart(masks) && Rel(masks, w, l, lane) && Rel(masks, w', l, lane)
    ensures Bit(w'.vcc, lane) == Bit(w.vcc, lane)
  {
  }

  lemma {:induction false} VectorBodyGoes(env: Env, insts: seq<Decoded>, idxs: seq<nat>, inArm: bool, w: Wave)
    requires BlockIs(insts, BasicBlock(0, idxs, Return), inArm)
    ensures !RunBody(env, insts, idxs, w).Ended?
    decreases |idxs|
  {
    hide ExecOne;
    if |idxs| > 0 {
      var inst := insts[idxs[0]].inst;
      if IsSkipped(inst) {
        VectorBodyGoes(env, insts, idxs[1..], inArm, w);
      } else if ExecOne(env, w, inst).Some? {
        VectorBodyGoes(env, insts, idxs[1..], inArm, ExecOne(env, w, inst).value);
      }
    }
  }

  lemma BlockShape(insts: seq<Decoded>, b: BasicBlock, inArm: bool)
    requires BlockIs(insts, b, inArm)
    ensures BlockIs(insts, BasicBlock(0, b.insts, Return), inArm)
  {
  }

  // ---- arms ---------------------------------------------------------------------------------

  // The lane that runs an arm reaches the merge, seeing what the wave leaves there.
  lemma {:induction false} ArmProjects(masks: set<nat>, env: Env, insts: seq<Decoded>, g: Graph,
                                       cur: nat, stop: nat, steps: nat, w: Wave, l: Wave, lane: Lane)
    returns (n: nat, l': Wave)
    requires PairsApart(masks) && AllLocal(masks, insts, g) && Rel(masks, w, l, lane) && LaneLive(w, lane)
    requires steps <= VisitCapOf(g) && Region(env, insts, g, cur, stop, steps, w).Going?
    ensures LaneRun(env, insts, g, lane, n, At(cur, l)) == At(stop, l')
    ensures Runnable(insts, g) ==> Jumps(env, insts, g, lane, n, At(cur, l)) == 0
    ensures Rel(masks, Region(env, insts, g, cur, stop, steps, w).w, l', lane)
    decreases VisitCapOf(g) - steps
  {
    hide RunBody, Rel, AllLocal, Runnable;
    if cur == stop {
      n, l' := 0, l;
    } else {
      var b := g.blocks[BlockIndexAt(g, cur).value];
      BlockLocal(masks, insts, g, BlockIndexAt(g, cur).value);
      BodyProjects(masks, env, insts, b.insts, w, l, lane);
      var w1, l1 := RunBody(env, insts, b.insts, w).w, RunBody(env, insts, b.insts, l).w;
      n, l' := ArmProjects(masks, env, insts, g, b.term.target, stop, steps + 1, w1, l1, lane);
      n := n + 1;
      if Runnable(insts, g) { StepsForward(insts, g, BlockIndexAt(g, cur).value, l1, lane); }
    }
  }

  // An arm a lane does not run does not change what it sees.
  lemma {:induction false} ArmPasses(masks: set<nat>, env: Env, insts: seq<Decoded>, g: Graph,
                                     cur: nat, stop: nat, steps: nat, w: Wave, l: Wave, lane: Lane)
    requires PairsApart(masks) && AllLocal(masks, insts, g) && Rel(masks, w, l, lane) && !LaneLive(w, lane)
    requires steps <= VisitCapOf(g) && Region(env, insts, g, cur, stop, steps, w).Going?
    requires ArmOk(insts, g, cur, stop, steps)
    ensures Rel(masks, Region(env, insts, g, cur, stop, steps, w).w, l, lane)
    decreases VisitCapOf(g) - steps
  {
    hide RunBody, Rel, AllLocal, BlockIs;
    if cur != stop {
      var b := g.blocks[BlockIndexAt(g, cur).value];
      BlockShape(insts, b, true);
      BlockLocal(masks, insts, g, BlockIndexAt(g, cur).value);
      BodyPasses(masks, env, insts, b.insts, true, w, l, lane);
      ArmPasses(masks, env, insts, g, b.term.target, stop, steps + 1, RunBody(env, insts, b.insts, w).w, l, lane);
    }
  }

  lemma RelKeepsExec(masks: set<nat>, w: Wave, l: Wave, lane: Lane, mask: u64)
    requires PairsApart(masks) && Rel(masks, w, l, lane)
    ensures Rel(masks, w.(exec := mask), l, lane)
  {
    var w' := w.(exec := mask);
    forall r: nat | r < NUM_VGPRS
      ensures Word(w', r, lane) == Word(l, r, lane)
    {
      assert Word(w, r, lane) == Word(l, r, lane);
    }
  }

  lemma ArmProjectsUnderMask(masks: set<nat>, env: Env, insts: seq<Decoded>, g: Graph,
                 start: nat, merge: nat, mask: u64, w: Wave, l: Wave, lane: Lane)
    returns (n: nat, l': Wave)
    requires PairsApart(masks) && AllLocal(masks, insts, g) && Rel(masks, w, l, lane)
    requires RunArm(env, insts, g, start, merge, mask, w).Going? && ArmOk(insts, g, start, merge, 0)
    ensures LaneRun(env, insts, g, lane, n, At(start, l)) == At(if Bit(mask, lane) then merge else start, l')
    ensures !Bit(mask, lane) ==> l' == l
    ensures Runnable(insts, g) ==> Jumps(env, insts, g, lane, n, At(start, l)) == 0
    ensures Rel(masks, RunArm(env, insts, g, start, merge, mask, w).w, l', lane)
  {
    hide Region, Rel, AllLocal, ArmOk, LaneStep, Runnable;
    n, l' := 0, l;
    ZeroBits(lane);
    RelKeepsExec(masks, w, l, lane, mask);
    if start != merge && mask != 0 {
      if Bit(mask, lane) {
        n, l' := ArmProjects(masks, env, insts, g, start, merge, 0, w.(exec := mask), l, lane);
      } else {
        ArmPasses(masks, env, insts, g, start, merge, 0, w.(exec := mask), l, lane);
      }
    }
  }

  // A whole conditional: the lane follows its own edge to the merge.
  lemma DiamondProjects(masks: set<nat>, env: Env, insts: seq<Decoded>, g: Graph, term: Terminator, merge: nat,
                        w: Wave, l: Wave, lane: Lane)
    returns (n: nat, l': Wave)
    requires term.Cond? && PairsApart(masks) && AllLocal(masks, insts, g) && Rel(masks, w, l, lane) && LaneLive(w, lane)
    requires ArmOk(insts, g, term.taken, merge, 0) && ArmOk(insts, g, term.fall, merge, 0)
    requires Diamond(env, insts, g, term, merge, w).Going?
    ensures LaneRun(env, insts, g, lane, n, Edge(term, l, lane)) == At(merge, l')
    ensures Runnable(insts, g) ==> Jumps(env, insts, g, lane, n, Edge(term, l, lane)) == 0
    ensures Rel(masks, Diamond(env, insts, g, term, merge, w).w, l', lane)
  {
    hide RunArm, Rel, AllLocal, ArmOk, LaneStep, TakenMask, Runnable;
    var taken := TakenMask(term.cond, w);
    var fall: u64 := AndNot(w.exec, taken);
    ArmMasksPartition(term.cond, w, lane);
    SameDecision(masks, term.cond, w, l, lane);
    var r := RunArm(env, insts, g, term.taken, merge, taken, w);
    var n1, l1 := ArmProjectsUnderMask(masks, env, insts, g, term.taken, merge, taken, w, l, lane);
    var n2, l2 := ArmProjectsUnderMask(masks, env, insts, g, term.fall, merge, fall, r.w, l1, lane);
    n := if Bit(taken, lane) then n1 else n2;
    l' := l2;
    RelKeepsExec(masks, RunArm(env, insts, g, term.fall, merge, fall, r.w).w, l', lane, w.exec);
  }

  lemma SameDecision(masks: set<nat>, cond: BranchCond, w: Wave, l: Wave, lane: Lane)
    requires PairsApart(masks) && Rel(masks, w, l, lane)
    ensures LaneTakes(cond, w, lane) == LaneTakes(cond, l, lane)
  {
  }

  // ---- loops --------------------------------------------------------------------------------

  // A lane in the loop runs one iteration up to the back-edge block and takes its own edge.
  lemma {:induction false} IterationProjects(masks: set<nat>, env: Env, insts: seq<Decoded>, g: Graph,
                                             cur: nat, back: nat, term: Terminator, steps: nat, w: Wave, l: Wave, lane: Lane)
    returns (n: nat, l': Wave)
    requires PairsApart(masks) && AllLocal(masks, insts, g) && Rel(masks, w, l, lane) && LaneLive(w, lane)
    requires steps <= VisitCapOf(g) && LoopBodyOk(insts, g, cur, back, steps)
    requires BlockIndexAt(g, back).Some? && g.blocks[BlockIndexAt(g, back).value].term == term
    requires LoopBody(env, insts, g, cur, back, steps, w).Going?
    ensures LaneRun(env, insts, g, lane, n, At(cur, l)) == Edge(term, l', lane)
    ensures Runnable(insts, g) ==> Jumps(env, insts, g, lane, n, At(cur, l)) == Backward(back, Edge(term, l', lane))
    ensures var w' := LoopBody(env, insts, g, cur, back, steps, w).w; Rel(masks, w', l', lane) && w'.exec == w.exec
    decreases VisitCapOf(g) - steps
  {
    hide RunBody, Rel, AllLocal, BlockIs, BlockIndexAt, Runnable;
    var b := g.blocks[BlockIndexAt(g, cur).value];
    BlockLocal(masks, insts, g, BlockIndexAt(g, cur).value);
    BodyProjects(masks, env, insts, b.insts, w, l, lane);
    var w1, l1 := RunBody(env, insts, b.insts, w).w, RunBody(env, insts, b.insts, l).w;
    if cur == back {
      n, l' := 1, l1;
      assert LaneStep(env, insts, g, lane, At(cur, l)) == Edge(term, l1, lane);
      OneStep(env, insts, g, lane, At(cur, l));
      OneJump(env, insts, g, lane, cur, l);
    } else {
      n, l' := IterationProjects(masks, env, insts, g, b.term.target, back, term, steps + 1, w1, l1, lane);
      n := n + 1;
      if Runnable(insts, g) { StepsForward(insts, g, BlockIndexAt(g, cur).value, l1, lane); }
    }
  }

  lemma OneStep(env: Env, insts: seq<Decoded>, g: Graph, lane: Lane, s: LaneState)
    ensures LaneRun(env, insts, g, lane, 1, s) == LaneStep(env, insts, g, lane, s)
  {
    hide LaneStep;
    assert LaneRun(env, insts, g, lane, 0, LaneStep(env, insts, g, lane, s)) == LaneStep(env, insts, g, lane, s);
  }

  // An iteration a lane has left does not change what it sees, as its VCC bit stays clear.
  lemma {:induction false} IterationPasses(masks: set<nat>, env: Env, insts: seq<Decoded>, g: Graph,
                                           cur: nat, back: nat, steps: nat, w: Wave, l: Wave, lane: Lane)
    requires PairsApart(masks) && AllLocal(masks, insts, g) && Rel(masks, w, l, lane) && !LaneLive(w, lane)
    requires !Bit(w.vcc, lane) && steps <= VisitCapOf(g) && LoopBodyOk(insts, g, cur, back, steps)
    requires LoopBody(env, insts, g, cur, back, steps, w).Going?
    ensures var w' := LoopBody(env, insts, g, cur, back, steps, w).w;
            Rel(masks, w', l, lane) && w'.exec == w.exec && !Bit(w'.vcc, lane)
    decreases VisitCapOf(g) - steps
  {
    hide RunBody, Rel, AllLocal, BlockIs, BlockIndexAt;
    var b := g.blocks[BlockIndexAt(g, cur).value];
    BlockShape(insts, b, false);
    BlockLocal(masks, insts, g, BlockIndexAt(g, cur).value);
    BodyPasses(masks, env, insts, b.insts, false, w, l, lane);
    var w1 := RunBody(env, insts, b.insts, w).w;
    SameVccBit(masks, w, l, w1, lane);
    if cur != back {
      IterationPasses(masks, env, insts, g, b.term.target, back, steps + 1, w1, l, lane);
    }
  }

  lemma {:induction false} IterationGoes(env: Env, insts: seq<Decoded>, g: Graph, cur: nat, back: nat, steps: nat, w: Wave)
    requires steps <= VisitCapOf(g) && LoopBodyOk(insts, g, cur, back, steps)
    ensures !LoopBody(env, insts, g, cur, back, steps, w).Ended?
    decreases VisitCapOf(g) - steps
  {
    hide RunBody, BlockIs, BlockIndexAt;
    var b := g.blocks[BlockIndexAt(g, cur).value];
    BlockShape(insts, b, false);
    VectorBodyGoes(env, insts, b.insts, false, w);
    var r := RunBody(env, insts, b.insts, w);
    if r.Going? && cur != back {
      IterationGoes(env, insts, g, b.term.target, back, steps + 1, r.w);
    }
  }

  lemma ContinueBit(cond: BranchCond, w: Wave, lane: Lane)
    ensures Bit(ContinueMask(cond, w), lane) == (LaneLive(w, lane) && LaneTakes(cond, w, lane))
  {
    BitOfAnd(w.exec, w.vcc, lane);
    BitOfAndNot(w.exec, w.vcc, lane);
    ZeroBits(lane);
  }

  lemma {:induction false} LoopPasses(masks: set<nat>, env: Env, insts: seq<Decoded>, g: Graph, li: LoopInfo,
                                      saved: u64, iters: nat, w: Wave, l: Wave, lane: Lane)
    requires PairsApart(masks) && AllLocal(masks, insts, g) && Rel(masks, w, l, lane)
    requires !Bit(w.vcc, lane) && li.cond == Vccnz && iters <= LOOP_ITER_CAP
    requires LoopBodyOk(insts, g, li.header, li.backEdgeBlock, 0) && Loop(env, insts, g, li, saved, iters, w).Going?
    ensures Rel(masks, Loop(env, insts, g, li, saved, iters, w).w, l, lane)
    decreases LOOP_ITER_CAP - iters
  {
    hide LoopBody, Rel, AllLocal, LoopBodyOk, ContinueMask;
    var mask := ContinueMask(li.cond, w);
    ContinueBit(li.cond, w, lane);
    RelKeepsExec(masks, w, l, lane, saved);
    if mask != 0 {
      RelKeepsExec(masks, w, l, lane, mask);
      IterationGoes(env, insts, g, li.header, li.backEdgeBlock, 0, w.(exec := mask));
      IterationPasses(masks, env, insts, g, li.header, li.backEdgeBlock, 0, w.(exec := mask), l, lane);
      LoopPasses(masks, env, insts, g, li, saved, iters + 1,
                 LoopBody(env, insts, g, li.header, li.backEdgeBlock, 0, w.(exec := mask)).w, l, lane);
    }
  }

  // From the back-edge test on: a lane of the loop iterates while its own bit says so and
  // arrives at the exit seeing what the wave leaves there.
  lemma {:induction false} LoopProjects(masks: set<nat>, env: Env, insts: seq<Decoded>, g: Graph, li: LoopInfo,
                                        saved: u64, iters: nat, w: Wave, l: Wave, lane: Lane)
    returns (n: nat, l': Wave)
    requires PairsApart(masks) && AllLocal(masks, insts, g) && Rel(masks, w, l, lane) && LaneLive(w, lane)
    requires li.cond != Vccz && iters <= LOOP_ITER_CAP
    requires BlockIndexAt(g, li.backEdgeBlock).Some?
    requires g.blocks[BlockIndexAt(g, li.backEdgeBlock).value].term == Cond(li.cond, li.header, li.merge)
    requires LoopBodyOk(insts, g, li.header, li.backEdgeBlock, 0) && Loop(env, insts, g, li, saved, iters, w).Going?
    ensures LaneRun(env, insts, g, lane, n, Edge(Cond(li.cond, li.header, li.merge), l, lane)) == At(li.merge, l')
    ensures Runnable(insts, g) && li.merge > li.backEdgeBlock ==>
      Jumps(env, insts, g, lane, n, Edge(Cond(li.cond, li.header, li.merge), l, lane))
        <= if LaneTakes(li.cond, w, lane) then 65_536 - 1 - iters else 0
    ensures Rel(masks, Loop(env, insts, g, li, saved, iters, w).w, l', lane)
    decreases LOOP_ITER_CAP - iters
  {
    hide LoopBody, Rel, AllLocal, LoopBodyOk, ContinueMask, BlockIndexAt, LaneStep, Runnable;
    var term := Cond(li.cond, li.header, li.merge);
    var mask := ContinueMask(li.cond, w);
    ContinueBit(li.cond, w, lane);
    ZeroBits(lane);
    SameDecision(masks, li.cond, w, l, lane);
    RelKeepsExec(masks, w, l, lane, saved);
    if mask == 0 || !LaneTakes(li.cond, w, lane) {
      n, l' := 0, l;
      if mask != 0 {
        MaskMeansVccnz(li.cond, w, lane);
        LoopPasses(masks, env, insts, g, li, saved, iters, w, l, lane);
      }
    } else {
      RelKeepsExec(masks, w, l, lane, mask);
      var start := w.(exec := mask);
      IterationGoes(env, insts, g, li.header, li.backEdgeBlock, 0, start);
      var n1, l1 := IterationProjects(masks, env, insts, g, li.header, li.backEdgeBlock, term, 0, start, l, lane);
      var n2;
      n2, l' := LoopProjects(masks, env, insts, g, li, saved, iters + 1,
                             LoopBody(env, insts, g, li.header, li.backEdgeBlock, 0, start).w, l1, lane);
      RunsCompose(env, insts, g, lane, n1, n2, At(li.header, l));
      JumpsCompose(env, insts, g, lane, n1, n2, At(li.header, l));
      SameDecision(masks, li.cond, LoopBody(env, insts, g, li.header, li.backEdgeBlock, 0, start).w, l1, lane);
      n := n1 + n2;
    }
  }

  lemma MaskMeansVccnz(cond: BranchCond, w: Wave, lane: Lane)
    requires cond != Vccz && ContinueMask(cond, w) != 0 && LaneLive(w, lane) && !LaneTakes(cond, w, lane)
    ensures cond == Vccnz && !Bit(w.vcc, lane)
  {
  }

  // ---- the whole walk -------------------------------------------------------------------------

  // Leaving a block, a live lane takes its own way to the leader the wave goes to next.
  lemma LeaveProjects(masks: set<nat>, env: Env, insts: seq<Decoded>, g: Graph, bi: nat, w: Wave, l: Wave, lane: Lane)
    returns (n: nat, l': Wave)
    requires Runnable(insts, g) && PerLane(masks, insts, g) && bi < |g.blocks|
    requires Rel(masks, w, l, lane) && LaneLive(w, lane) && !Leave(env, insts, g, bi, w).Stuck?
    ensures match Leave(env, insts, g, bi, w)
            case Goto(w', leader) =>
              LaneRun(env, insts, g, lane, n, Edge(g.blocks[bi].term, l, lane)) == At(leader, l')
              && Rel(masks, w', l', lane) && w'.exec == w.exec
            case Halt(w') =>
              LaneRun(env, insts, g, lane, n, Edge(g.blocks[bi].term, l, lane)) == Halted(l') && Rel(masks, w', l', lane)
            case Stuck(_) => true
    ensures Backward(g.blocks[bi].start, Edge(g.blocks[bi].term, l, lane))
            + Jumps(env, insts, g, lane, n, Edge(g.blocks[bi].term, l, lane)) <= if LoopOf(g, bi).Some? then 65_536 else 0
  {
    hide Runnable, Rel, AllLocal, Loop, Diamond, MergeTarget, LaneStep, BlockIndexAt, LoopBodyOk, ArmOk, LoopsStraight, ArmsOk;
    hide Backward, LaneTakes;
    StepsForward(insts, g, bi, l, lane);
    n, l' := 0, l;
    if g.blocks[bi].term.Cond? {
      CondForward(insts, g, bi);
      LeaveKeepsExec(env, insts, g, bi, w);
      if LoopOf(g, bi).Some? {
        n, l' := LeaveLoop(masks, env, insts, g, bi, w, l, lane);
      } else {
        DiamondSafe(env, insts, g, bi, w);
        ArmsOf(insts, g, bi);
        hide Edge, LaneRun, Jumps;
        n, l' := DiamondProjects(masks, env, insts, g, g.blocks[bi].term, MergeTarget(g, bi).value, w, l, lane);
      }
    }
  }

  lemma ArmsOf(insts: seq<Decoded>, g: Graph, bi: nat)
    requires ArmsOk(insts, g) && bi < |g.blocks| && LoopOf(g, bi).None? && MergeTarget(g, bi).Some? && g.blocks[bi].term.Cond?
    ensures ArmOk(insts, g, g.blocks[bi].term.taken, MergeTarget(g, bi).value, 0)
    ensures ArmOk(insts, g, g.blocks[bi].term.fall, MergeTarget(g, bi).value, 0)
  {
  }

  lemma LoopOfBlock(insts: seq<Decoded>, g: Graph, bi: nat)
    requires LoopsStraight(insts, g) && bi < |g.blocks| && LoopOf(g, bi).Some?
    ensures LoopOf(g, bi).value.cond != Vccz
    ensures LoopBodyOk(insts, g, LoopOf(g, bi).value.header, LoopOf(g, bi).value.backEdgeBlock, 0)
  {
  }

  lemma LeaveLoop(masks: set<nat>, env: Env, insts: seq<Decoded>, g: Graph, bi: nat, w: Wave, l: Wave, lane: Lane)
    returns (n: nat, l': Wave)
    requires Runnable(insts, g) && PairsApart(masks) && AllLocal(masks, insts, g) && LoopsStraight(insts, g)
    requires bi < |g.blocks| && LoopOf(g, bi).Some?
    requires Rel(masks, w, l, lane) && LaneLive(w, lane)
    requires !Loop(env, insts, g, LoopOf(g, bi).value, w.exec, 0, w).Failed?
    ensures var r := Loop(env, insts, g, LoopOf(g, bi).value, w.exec, 0, w);
            && r.Going? && Rel(masks, r.w, l', lane)
            && LaneRun(env, insts, g, lane, n, Edge(g.blocks[bi].term, l, lane)) == At(LoopOf(g, bi).value.merge, l')
    ensures Backward(g.blocks[bi].start, Edge(g.blocks[bi].term, l, lane))
            + Jumps(env, insts, g, lane, n, Edge(g.blocks[bi].term, l, lane)) <= 65_536
  {
    hide Runnable, Rel, AllLocal, Loop, LaneStep, LoopBodyOk, LoopsStraight, LaneTakes, BlockIndexAt;
    StepsForward(insts, g, bi, l, lane);
    SameDecision(masks, LoopOf(g, bi).value.cond, w, l, lane);
    IndexOfStart(insts, g, bi);
    LoopOfBlock(insts, g, bi);
    LoopGoes(env, insts, g, LoopOf(g, bi).value, w.exec, 0, w);
    n, l' := LoopProjects(masks, env, insts, g, LoopOf(g, bi).value, w.exec, 0, w, l, lane);
  }

  lemma {:induction false} LoopGoes(env: Env, insts: seq<Decoded>, g: Graph, li: LoopInfo, saved: u64, iters: nat, w: Wave)
    requires iters <= LOOP_ITER_CAP && LoopBodyOk(insts, g, li.header, li.backEdgeBlock, 0)
    ensures !Loop(env, insts, g, li, saved, iters, w).Ended?
    decreases LOOP_ITER_CAP - iters
  {
    hide LoopBody, LoopBodyOk;
    var mask := ContinueMask(li.cond, w);
    if mask != 0 && iters < LOOP_ITER_CAP {
      IterationGoes(env, insts, g, li.header, li.backEdgeBlock, 0, w.(exec := mask));
      var r := LoopBody(env, insts, g, li.header, li.backEdgeBlock, 0, w.(exec := mask));
      if r.Going? {
        LoopGoes(env, insts, g, li, saved, iters + 1, r.w);
      }
    }
  }

  lemma {:induction false} WalkProjects(masks: set<nat>, env: Env, insts: seq<Decoded>, g: Graph, start: nat, visits: nat,
                                        w: Wave, l: Wave, lane: Lane)
    returns (n: nat, l': Wave)
    requires Runnable(insts, g) && PerLane(masks, insts, g) && visits <= VisitCapOf(g)
    requires Rel(masks, w, l, lane) && LaneLive(w, lane)
    requires WalkFrom(env, insts, g, start, visits, w).Ended?
    ensures LaneRun(env, insts, g, lane, n, At(start, l)) == Halted(l')
    ensures Rel(masks, WalkFrom(env, insts, g, start, visits, w).w, l', lane)
    ensures Jumps(env, insts, g, lane, n, At(start, l)) <= if NoLoopFrom(g, start) then 0 else 65_536
    decreases VisitCapOf(g) - visits
  {
    hide Runnable, Rel, AllLocal, ArmsOk, LoopsStraight, Leave, RunBody, BlockIndexAt, Edge, NoLoopFrom;
    var bi := BlockIndexAt(g, start).value;
    var b := g.blocks[bi];
    BlockLocal(masks, insts, g, bi);
    BodyProjects(masks, env, insts, b.insts, w, l, lane);
    var r, rl := RunBody(env, insts, b.insts, w), RunBody(env, insts, b.insts, l);
    OneStep(env, insts, g, lane, At(start, l));
    OneJump(env, insts, g, lane, start, l);
    n, l' := 1, rl.w;
    if r.Going? {
      var n1, l1 := LeaveProjects(masks, env, insts, g, bi, r.w, rl.w, lane);
      var next := Leave(env, insts, g, bi, r.w);
      RunsCompose(env, insts, g, lane, 1, n1, At(start, l));
      JumpsCompose(env, insts, g, lane, 1, n1, At(start, l));
      LoopAhead(env, insts, g, start, bi, r.w);
      n, l' := 1 + n1, l1;
      if next.Goto? {
        var n2, l2 := WalkProjects(masks, env, insts, g, next.leader, visits + 1, next.w, l1, lane);
        RunsCompose(env, insts, g, lane, 1 + n1, n2, At(start, l));
        JumpsCompose(env, insts, g, lane, 1 + n1, n2, At(start, l));
        n, l' := 1 + n1 + n2, l2;
      }
    }
  }

  // No back-edge block lies at or after the leader.
  ghost predicate NoLoopFrom(g: Graph, start: nat) {
    BlockIndexAt(g, start).Some? && forall i :: BlockIndexAt(g, start).value <= i < |g.blocks| ==> LoopOf(g, i).None?
  }

  lemma LoopAhead(env: Env, insts: seq<Decoded>, g: Graph, start: nat, bi: nat, w: Wave)
    requires Runnable(insts, g) && BlockIndexAt(g, start) == Some(bi)
    ensures NoLoopFrom(g, start) ==> LoopOf(g, bi).None?
    ensures var n := Leave(env, insts, g, bi, w);
            n.Goto? ==> (NoLoopFrom(g, start) || LoopOf(g, bi).Some? ==> NoLoopFrom(g, n.leader))
  {
    hide Runnable, Leave, BlockIndexAt;
    LeaveSafe(env, insts, g, bi, w);
    if LoopOf(g, bi).Some? { OneLoop(insts, g, bi); }
  }

  lemma LaunchRelates(masks: set<nat>, w: Wave, lane: Lane)
    requires PairsApart(masks)
    ensures Rel(masks, w, Alone(w, lane), lane)
  {
    forall k: Lane
      ensures Bit(Alone(w, lane).exec, k) == (k == lane)
    {
      BitOfSetBit(0, lane, true, k);
      ZeroBits(k);
    }
    forall r: nat | r < NUM_VGPRS
      ensures Word(w, r, lane) == Word(Alone(w, lane), r, lane)
    {
    }
  }

  // Wave equals lanes. Whenever the wave's walk of an accepted graph succeeds, every lane live
  // at launch, run alone with its own branch decisions, halts as well, holding the same vector
  // registers and having captured exactly its own subsequence of the wave's exports.
  lemma WaveEqualsLanes(masks: set<nat>, env: Env, insts: seq<Decoded>, g: Graph, w: Wave, lane: Lane)
    returns (n: nat, alone: Wave)
    requires Runnable(insts, g) && PerLane(masks, insts, g) && LaneLive(w, lane)
    requires WalkGraph(env, insts, g, w).Ended?
    ensures LaneRun(env, insts, g, lane, n, Launch(g, Alone(w, lane))) == Halted(alone)
    ensures Jumps(env, insts, g, lane, n, Launch(g, Alone(w, lane))) <= 65_536
    ensures forall r: nat :: r < NUM_VGPRS ==> Word(WalkGraph(env, insts, g, w).w, r, lane) == Word(alone, r, lane)
    ensures alone.exports == Mine(WalkGraph(env, insts, g, w).w.exports, lane)
  {
    hide Runnable, WalkFrom, LaneStep, AllLocal, ArmsOk, LoopsStraight, SameScalars;
    LaunchRelates(masks, w, lane);
    if |g.blocks| == 0 {
      n, alone := 0, Alone(w, lane);
    } else {
      n, alone := WalkProjects(masks, env, insts, g, g.blocks[0].start, 0, w, Alone(w, lane), lane);
    }
  }
}
