// The one failure of a well-formed walk that is not an instruction's: a loop may go round 65,536
// times. When exactly a loop uses that up, and when a whole wave does, said by its lanes.

module LoopBudget {
  import opened Words
  import opened Bits
  import opened Isa
  import opened Wavefront
  import opened LaneLoops
  import opened Cfg
  import opened CfgFacts
  import opened Merge
  import opened Walk
  import opened WalkBounds
  import opened WalkTrace
  import opened LaneView
  import opened WaveLanes

  // ---- one loop -------------------------------------------------------------------------------

  // The loop body run `n` times, each time by the lanes that go round again, with no limit.
  function Iterate(env: Env, insts: seq<Decoded>, g: Graph, li: LoopInfo, n: nat, w: Wave): Outcome {
    if n == 0 then Going(w)
    else
      match Iterate(env, insts, g, li, n - 1, w)
      case Going(v) => LoopBody(env, insts, g, li.header, li.backEdgeBlock, 0, v.(exec := ContinueMask(li.cond, v)))
      case o => o
  }

  // After `n` iterations `lane` is in the loop and its own branch decision takes the back-edge.
  ghost predicate StaysIn(env: Env, insts: seq<Decoded>, g: Graph, li: LoopInfo, n: nat, w: Wave, lane: Lane) {
    var r := Iterate(env, insts, g, li, n, w);
    r.Going? && LaneLive(r.w, lane) && LaneTakes(li.cond, r.w, lane)
  }

  ghost predicate GoesRound(env: Env, insts: seq<Decoded>, g: Graph, li: LoopInfo, n: nat, w: Wave) {
    exists lane: Lane :: StaysIn(env, insts, g, li, n, w, lane)
  }

  lemma MaskOfLanes(cond: BranchCond, v: Wave)
    ensures ContinueMask(cond, v) != 0 <==> exists lane: Lane :: LaneLive(v, lane) && LaneTakes(cond, v, lane)
  {
    hide Bit, ContinueMask;
    var mask := ContinueMask(cond, v);
    forall lane: Lane ensures Bit(mask, lane) == (LaneLive(v, lane) && LaneTakes(cond, v, lane)) && !Bit(0, lane) {
      ContinueBit(cond, v, lane);
      ZeroBits(lane);
    }
    if mask != 0 && !exists lane: Lane :: LaneLive(v, lane) && LaneTakes(cond, v, lane) {
      Pow64();
      forall k: nat | k < 64 ensures Bit(mask, k) == Bit(0, k) {
        var lane: Lane := k;
        assert !(LaneLive(v, lane) && LaneTakes(cond, v, lane));
      }
      SameBits(mask, 0, 64);
    }
  }

  lemma {:induction false} BodyNeverCaps(env: Env, insts: seq<Decoded>, idxs: seq<nat>, w: Wave)
    ensures RunBody(env, insts, idxs, w) != Failed(LoopCap)
    decreases |idxs|
  {
    hide ExecOne;
    if |idxs| > 0 && idxs[0] < |insts| {
      var inst := insts[idxs[0]].inst;
      if IsSkipped(inst) {
        BodyNeverCaps(env, insts, idxs[1..], w);
      } else if ExecOne(env, w, inst).Some? {
        BodyNeverCaps(env, insts, idxs[1..], ExecOne(env, w, inst).value);
      }
    }
  }

  lemma {:induction false} IterationNeverCaps(env: Env, insts: seq<Decoded>, g: Graph, cur: nat, back: nat, steps: nat, w: Wave)
    requires steps <= VisitCapOf(g)
    ensures LoopBody(env, insts, g, cur, back, steps, w) != Failed(LoopCap)
    decreases VisitCapOf(g) - steps
  {
    hide RunBody;
    if steps < VisitCapOf(g) && BlockIndexAt(g, cur).Some? {
      var b := g.blocks[BlockIndexAt(g, cur).value];
      BodyNeverCaps(env, insts, b.insts, w);
      var r := RunBody(env, insts, b.insts, w);
      if r.Going? && cur != back && (b.term.Fallthrough? || b.term.Branch?) {
        IterationNeverCaps(env, insts, g, b.term.target, back, steps + 1, r.w);
      }
    }
  }

  // The loop leaves after `n` iterations: the first count after which no lane goes round.
  ghost predicate LeavesAfter(env: Env, insts: seq<Decoded>, g: Graph, li: LoopInfo, w: Wave, i: nat, n: nat) {
    && i <= n && Iterate(env, insts, g, li, n, w).Going? && !GoesRound(env, insts, g, li, n, w)
    && forall m: nat :: i <= m < n ==> GoesRound(env, insts, g, li, m, w)
  }

  ghost predicate RoundsOn(env: Env, insts: seq<Decoded>, g: Graph, li: LoopInfo, w: Wave, i: nat) {
    forall n: nat :: i <= n <= 65_536 ==> GoesRound(env, insts, g, li, n, w)
  }

  lemma {:induction false} LoopFrom(env: Env, insts: seq<Decoded>, g: Graph, li: LoopInfo, saved: u64, w: Wave, i: nat, r: Outcome)
    requires i <= 65_536 && Iterate(env, insts, g, li, i, w).Going?
    requires r == Loop(env, insts, g, li, saved, i, Iterate(env, insts, g, li, i, w).w)
    ensures r == Failed(LoopCap) <==> RoundsOn(env, insts, g, li, w, i)
    ensures r.Going? <==> exists n: nat :: n <= 65_536 && LeavesAfter(env, insts, g, li, w, i, n)
    ensures forall n: nat :: n <= 65_536 && LeavesAfter(env, insts, g, li, w, i, n) ==>
              r == Going(Iterate(env, insts, g, li, n, w).w.(exec := saved))
    decreases 65_536 - i
  {
    hide LoopBody, ContinueMask, GoesRound;
    var v := Iterate(env, insts, g, li, i, w).w;
    RoundIsMask(env, insts, g, li, w, i);
    if !GoesRound(env, insts, g, li, i, w) {
      assert LeavesAfter(env, insts, g, li, w, i, i) && !RoundsOn(env, insts, g, li, w, i);
    } else if i < 65_536 {
      IterationNeverCaps(env, insts, g, li.header, li.backEdgeBlock, 0, v.(exec := ContinueMask(li.cond, v)));
      var j := i + 1;
      var next := Iterate(env, insts, g, li, j, w);
      assert next == LoopBody(env, insts, g, li.header, li.backEdgeBlock, 0, v.(exec := ContinueMask(li.cond, v)));
      if next.Going? {
        LoopFrom(env, insts, g, li, saved, w, j, r);
        OneLater(env, insts, g, li, w, i, j);
        hide Loop, Iterate, RoundsOn, LeavesAfter;
      } else {
        StopsThere(env, insts, g, li, w, i);
        assert !RoundsOn(env, insts, g, li, w, i);
        assert r != Failed(LoopCap) && !r.Going?;
      }
    } else {
      assert RoundsOn(env, insts, g, li, w, i);
    }
  }

  lemma RoundIsMask(env: Env, insts: seq<Decoded>, g: Graph, li: LoopInfo, w: Wave, n: nat)
    requires Iterate(env, insts, g, li, n, w).Going?
    ensures GoesRound(env, insts, g, li, n, w) <==> ContinueMask(li.cond, Iterate(env, insts, g, li, n, w).w) != 0
  {
    hide Iterate, LaneTakes, LaneLive, ContinueMask;
    var v := Iterate(env, insts, g, li, n, w).w;
    MaskOfLanes(li.cond, v);
    if ContinueMask(li.cond, v) != 0 {
      var lane: Lane :| LaneLive(v, lane) && LaneTakes(li.cond, v, lane);
      assert StaysIn(env, insts, g, li, n, w, lane);
    }
  }

  lemma OneLater(env: Env, insts: seq<Decoded>, g: Graph, li: LoopInfo, w: Wave, i: nat, j: nat)
    requires j == i + 1 && GoesRound(env, insts, g, li, i, w)
    ensures forall n: nat :: LeavesAfter(env, insts, g, li, w, i, n) <==> LeavesAfter(env, insts, g, li, w, j, n)
    ensures RoundsOn(env, insts, g, li, w, i) <==> RoundsOn(env, insts, g, li, w, j)
  {
    hide GoesRound, Iterate;
    forall n: nat
      ensures LeavesAfter(env, insts, g, li, w, i, n) <==> LeavesAfter(env, insts, g, li, w, j, n)
    {
      assert i == n ==> !LeavesAfter(env, insts, g, li, w, i, n);
    }
  }

  // An iteration that did not come back ends it.
  lemma StopsThere(env: Env, insts: seq<Decoded>, g: Graph, li: LoopInfo, w: Wave, i: nat)
    requires GoesRound(env, insts, g, li, i, w) && !Iterate(env, insts, g, li, i + 1, w).Going?
    ensures !GoesRound(env, insts, g, li, i + 1, w)
    ensures forall n: nat :: !LeavesAfter(env, insts, g, li, w, i, n)
  {
    var m := i + 1;
    assert !GoesRound(env, insts, g, li, m, w);
    hide GoesRound, Iterate;
  }

  // A loop reports its limit exactly when lanes go round at entry and after each of 65,536 iterations;
  // it is left exactly when after at most that many none does, with the EXEC it was entered under.
  lemma LoopStopsIff(env: Env, insts: seq<Decoded>, g: Graph, li: LoopInfo, saved: u64, w: Wave)
    ensures var r := Loop(env, insts, g, li, saved, 0, w);
            && (r == Failed(LoopCap) <==> forall n: nat :: n <= 65_536 ==> GoesRound(env, insts, g, li, n, w))
            && (r.Going? <==> exists n: nat :: n <= 65_536 && LeavesAfter(env, insts, g, li, w, 0, n))
            && (forall n: nat :: n <= 65_536 && LeavesAfter(env, insts, g, li, w, 0, n) ==>
                  r == Going(Iterate(env, insts, g, li, n, w).w.(exec := saved)))
  {
    hide GoesRound, LeavesAfter, Loop;
    assert Iterate(env, insts, g, li, 0, w) == Going(w);
    LoopFrom(env, insts, g, li, saved, w, 0, Loop(env, insts, g, li, saved, 0, w));
  }

  // ---- what else can stop a walk --------------------------------------------------------------

  // Every forward conditional's arms meet.
  ghost predicate AllMerge(g: Graph) {
    forall bi :: 0 <= bi < |g.blocks| && g.blocks[bi].term.Cond? && LoopOf(g, bi).None? ==> MergeTarget(g, bi).Some?
  }

  lemma {:induction false} IterationFaults(env: Env, insts: seq<Decoded>, g: Graph, cur: nat, back: nat, steps: nat, w: Wave)
    requires Runnable(insts, g) && steps <= VisitCapOf(g) && LoopBodyOk(insts, g, cur, back, steps)
    ensures var r := LoopBody(env, insts, g, cur, back, steps, w); r.Failed? ==> r.why == Fault
    decreases VisitCapOf(g) - steps
  {
    hide Runnable, RunBody, BlockIs, BlockIndexAt;
    var bi := BlockIndexAt(g, cur).value;
    BlockFailure(env, insts, g, bi, w);
    var r := RunBody(env, insts, g.blocks[bi].insts, w);
    if r.Going? && cur != back {
      IterationFaults(env, insts, g, g.blocks[bi].term.target, back, steps + 1, r.w);
    }
  }

  lemma {:induction false} LoopFaults(env: Env, insts: seq<Decoded>, g: Graph, li: LoopInfo, saved: u64, iters: nat, w: Wave)
    requires Runnable(insts, g) && iters <= LOOP_ITER_CAP && LoopBodyOk(insts, g, li.header, li.backEdgeBlock, 0)
    ensures var r := Loop(env, insts, g, li, saved, iters, w); r.Failed? ==> r.why == Fault || r.why == LoopCap
    decreases LOOP_ITER_CAP - iters
  {
    hide Runnable, LoopBody, LoopBodyOk, ContinueMask;
    var mask := ContinueMask(li.cond, w);
    if mask != 0 && iters < LOOP_ITER_CAP {
      IterationFaults(env, insts, g, li.header, li.backEdgeBlock, 0, w.(exec := mask));
      var r := LoopBody(env, insts, g, li.header, li.backEdgeBlock, 0, w.(exec := mask));
      if r.Going? {
        LoopFaults(env, insts, g, li, saved, iters + 1, r.w);
      }
    }
  }

  lemma LeaveFaults(env: Env, insts: seq<Decoded>, g: Graph, bi: nat, w: Wave)
    requires Runnable(insts, g) && LoopsStraight(insts, g) && AllMerge(g) && bi < |g.blocks|
    ensures var n := Leave(env, insts, g, bi, w);
            n.Stuck? ==> n.why == Fault || (n.why == LoopCap && LoopOf(g, bi).Some?)
    ensures LoopOf(g, bi).Some? ==>
              (Leave(env, insts, g, bi, w) == Stuck(LoopCap) <==> Loop(env, insts, g, LoopOf(g, bi).value, w.exec, 0, w) == Failed(LoopCap))
  {
    hide Runnable, Diamond, Loop, MergeTarget, BlockIndexAt, LoopBodyOk;
    if g.blocks[bi].term.Cond? {
      CondForward(insts, g, bi);
      if LoopOf(g, bi).Some? {
        LoopOfBlock(insts, g, bi);
        LoopFaults(env, insts, g, LoopOf(g, bi).value, w.exec, 0, w);
      } else {
        DiamondSafe(env, insts, g, bi, w);
      }
    }
  }

  // ---- the lane that uses up the limit ----------------------------------------------------------

  // The walk from here comes to a loop in which `lane` still goes round after 65,536 iterations.
  ghost predicate CapsFor(env: Env, insts: seq<Decoded>, g: Graph, start: nat, visits: nat, w: Wave, lane: Lane)
    requires visits <= VisitCapOf(g)
    decreases VisitCapOf(g) - visits
  {
    && visits < VisitCapOf(g) && BlockIndexAt(g, start).Some?
    && var bi := BlockIndexAt(g, start).value;
       var r := RunBody(env, insts, g.blocks[bi].insts, w);
       && r.Going?
       && if Leave(env, insts, g, bi, r.w).Stuck? then
            LoopOf(g, bi).Some? && StaysIn(env, insts, g, LoopOf(g, bi).value, 65_536, r.w, lane)
            && forall n: nat :: n <= 65_536 ==> Iterate(env, insts, g, LoopOf(g, bi).value, n, r.w).Going?
          else
            Leave(env, insts, g, bi, r.w).Goto?
            && var n := Leave(env, insts, g, bi, r.w);
               CapsFor(env, insts, g, n.leader, visits + 1, n.w, lane)
  }

  lemma {:induction false} SomeLaneCaps(env: Env, insts: seq<Decoded>, g: Graph, start: nat, visits: nat, w: Wave) returns (lane: Lane)
    requires Runnable(insts, g) && LoopsStraight(insts, g) && AllMerge(g) && visits <= VisitCapOf(g)
    requires WalkFrom(env, insts, g, start, visits, w) == Failed(LoopCap)
    ensures CapsFor(env, insts, g, start, visits, w, lane)
    decreases VisitCapOf(g) - visits
  {
    hide Runnable, LoopsStraight, AllMerge, RunBody, Leave, BlockIndexAt, Loop, StaysIn, Iterate;
    var bi := BlockIndexAt(g, start).value;
    BodyNeverCaps(env, insts, g.blocks[bi].insts, w);
    var r := RunBody(env, insts, g.blocks[bi].insts, w);
    LeaveFaults(env, insts, g, bi, r.w);
    var n := Leave(env, insts, g, bi, r.w);
    if n.Goto? {
      lane := SomeLaneCaps(env, insts, g, n.leader, visits + 1, n.w);
    } else {
      var li := LoopOf(g, bi).value;
      LoopStopsIff(env, insts, g, li, r.w.exec, r.w);
      assert GoesRound(env, insts, g, li, 65_536, r.w);
      lane :| StaysIn(env, insts, g, li, 65_536, r.w, lane);
      forall m: nat | m <= 65_536 ensures Iterate(env, insts, g, li, m, r.w).Going? {
        RoundIsGoing(env, insts, g, li, m, r.w);
      }
    }
  }

  lemma RoundIsGoing(env: Env, insts: seq<Decoded>, g: Graph, li: LoopInfo, n: nat, w: Wave)
    requires GoesRound(env, insts, g, li, n, w)
    ensures Iterate(env, insts, g, li, n, w).Going?
  {
  }

  lemma LocalKeepsExec(masks: set<nat>, insts: seq<Decoded>, g: Graph)
    requires AllLocal(masks, insts, g)
    ensures NoExecWrites(insts, g)
  {
    forall bi | 0 <= bi < |g.blocks| ensures BodyWritesNoExec(insts, g.blocks[bi].insts) {
      BlockLocal(masks, insts, g, bi);
    }
  }

  lemma {:induction false} IterationKeepsExec(env: Env, insts: seq<Decoded>, g: Graph, cur: nat, back: nat, steps: nat, w: Wave)
    requires NoExecWrites(insts, g) && steps <= VisitCapOf(g)
    ensures var r := LoopBody(env, insts, g, cur, back, steps, w); r.Going? ==> r.w.exec == w.exec
    decreases VisitCapOf(g) - steps
  {
    hide RunBody, NoExecWrites;
    if steps < VisitCapOf(g) && BlockIndexAt(g, cur).Some? {
      var b := g.blocks[BlockIndexAt(g, cur).value];
      BlockWritesNoExec(insts, g, BlockIndexAt(g, cur).value);
      BodyKeepsExec(env, insts, b.insts, w);
      var r := RunBody(env, insts, b.insts, w);
      if r.Going? && cur != back && (b.term.Fallthrough? || b.term.Branch?) {
        IterationKeepsExec(env, insts, g, b.term.target, back, steps + 1, r.w);
      }
    }
  }

  // A lane in the loop after `n` iterations was in it all along.
  lemma {:induction false} InAllAlong(env: Env, insts: seq<Decoded>, g: Graph, li: LoopInfo, w: Wave, lane: Lane, m: nat, n: nat)
    requires NoExecWrites(insts, g) && m <= n && StaysIn(env, insts, g, li, n, w, lane)
    requires forall k: nat :: k <= n ==> Iterate(env, insts, g, li, k, w).Going?
    ensures StaysIn(env, insts, g, li, m, w, lane)
    decreases n - m
  {
    hide LoopBody, LaneTakes, NoExecWrites, Bit;
    if m < n {
      var k := n - 1;
      var v := Iterate(env, insts, g, li, k, w).w;
      IterationKeepsExec(env, insts, g, li.header, li.backEdgeBlock, 0, v.(exec := ContinueMask(li.cond, v)));
      ContinueBit(li.cond, v, lane);
      hide ContinueMask;
      assert StaysIn(env, insts, g, li, k, w, lane);
      InAllAlong(env, insts, g, li, w, lane, m, k);
    }
  }

  // That lane on its own takes the back-edge once more for every iteration left.
  lemma {:induction false} LaneUsesUp(masks: set<nat>, env: Env, insts: seq<Decoded>, g: Graph, li: LoopInfo,
                                      i: nat, w: Wave, l: Wave, lane: Lane)
    returns (n: nat)
    requires Runnable(insts, g) && PairsApart(masks) && AllLocal(masks, insts, g) && i <= 65_536
    requires BlockIndexAt(g, li.backEdgeBlock).Some? && li.header <= li.backEdgeBlock
    requires g.blocks[BlockIndexAt(g, li.backEdgeBlock).value].term == Cond(li.cond, li.header, li.merge)
    requires LoopBodyOk(insts, g, li.header, li.backEdgeBlock, 0)
    requires StaysIn(env, insts, g, li, 65_536, w, lane)
    requires forall k: nat :: k <= 65_536 ==> Iterate(env, insts, g, li, k, w).Going?
    requires Rel(masks, Iterate(env, insts, g, li, i, w).w, l, lane)
    ensures Jumps(env, insts, g, lane, n, Edge(Cond(li.cond, li.header, li.merge), l, lane)) >= 65_536 - i
    decreases 65_536 - i
  {
    hide Runnable, LoopBody, Rel, AllLocal, LoopBodyOk, ContinueMask, BlockIndexAt, LaneStep, Iterate, StaysIn;
    n := 0;
    if i < 65_536 {
      var j := i + 1;
      var v, v' := Iterate(env, insts, g, li, i, w).w, Iterate(env, insts, g, li, j, w).w;
      LocalKeepsExec(masks, insts, g);
      InAllAlong(env, insts, g, li, w, lane, i, 65_536);
      InAllAlong(env, insts, g, li, w, lane, j, 65_536);
      var start := v.(exec := ContinueMask(li.cond, v));
      OneIteration(env, insts, g, li, i, w, lane);
      SameDecision(masks, li.cond, v, l, lane);
      RelKeepsExec(masks, v, l, lane, start.exec);
      var n1, l1 := IterationProjects(masks, env, insts, g, li.header, li.backEdgeBlock, Cond(li.cond, li.header, li.merge),
                                      0, start, l, lane);
      SameDecision(masks, li.cond, v', l1, lane);
      var n2 := LaneUsesUp(masks, env, insts, g, li, j, w, l1, lane);
      JumpsCompose(env, insts, g, lane, n1, n2, At(li.header, l));
      n := n1 + n2;
    }
  }

  lemma OneIteration(env: Env, insts: seq<Decoded>, g: Graph, li: LoopInfo, i: nat, w: Wave, lane: Lane)
    requires StaysIn(env, insts, g, li, i, w, lane) && StaysIn(env, insts, g, li, i + 1, w, lane)
    ensures Iterate(env, insts, g, li, i, w).Going? && Iterate(env, insts, g, li, i + 1, w).Going?
    ensures var v, v' := Iterate(env, insts, g, li, i, w).w, Iterate(env, insts, g, li, i + 1, w).w;
            && LoopBody(env, insts, g, li.header, li.backEdgeBlock, 0, v.(exec := ContinueMask(li.cond, v))) == Going(v')
            && LaneLive(v.(exec := ContinueMask(li.cond, v)), lane)
            && LaneTakes(li.cond, v, lane) && LaneTakes(li.cond, v', lane)
  {
    hide LoopBody, LaneTakes, Bit, ContinueMask;
    ContinueBit(li.cond, Iterate(env, insts, g, li, i, w).w, lane);
  }

  // The lane alone, from the walk's own start, jumps back more than 65,536 times.
  lemma {:induction false} CappedLaneJumps(masks: set<nat>, env: Env, insts: seq<Decoded>, g: Graph, start: nat, visits: nat,
                                           w: Wave, l: Wave, lane: Lane)
    returns (n: nat)
    requires Runnable(insts, g) && PerLane(masks, insts, g) && visits <= VisitCapOf(g)
    requires Rel(masks, w, l, lane) && LaneLive(w, lane) && CapsFor(env, insts, g, start, visits, w, lane)
    ensures Jumps(env, insts, g, lane, n, At(start, l)) > 65_536
    decreases VisitCapOf(g) - visits
  {
    hide Runnable, Rel, AllLocal, ArmsOk, LoopsStraight, Leave, RunBody, BlockIndexAt, Edge, StaysIn, Iterate;
    var bi := BlockIndexAt(g, start).value;
    var b := g.blocks[bi];
    BlockLocal(masks, insts, g, bi);
    BodyProjects(masks, env, insts, b.insts, w, l, lane);
    var r, rl := RunBody(env, insts, b.insts, w), RunBody(env, insts, b.insts, l);
    OneStep(env, insts, g, lane, At(start, l));
    OneJump(env, insts, g, lane, start, l);
    var n1;
    if Leave(env, insts, g, bi, r.w).Stuck? {
      n1 := CappedHere(masks, env, insts, g, bi, r.w, rl.w, lane);
    } else {
      var l1;
      n1, l1 := LeaveProjects(masks, env, insts, g, bi, r.w, rl.w, lane);
      var next := Leave(env, insts, g, bi, r.w);
      var n2 := CappedLaneJumps(masks, env, insts, g, next.leader, visits + 1, next.w, l1, lane);
      JumpsCompose(env, insts, g, lane, n1, n2, Edge(b.term, rl.w, lane));
      n1 := n1 + n2;
    }
    JumpsCompose(env, insts, g, lane, 1, n1, At(start, l));
    n := 1 + n1;
  }

  lemma CappedHere(masks: set<nat>, env: Env, insts: seq<Decoded>, g: Graph, bi: nat, w: Wave, l: Wave, lane: Lane) returns (n: nat)
    requires Runnable(insts, g) && PerLane(masks, insts, g) && bi < |g.blocks| && LoopOf(g, bi).Some?
    requires Rel(masks, w, l, lane) && StaysIn(env, insts, g, LoopOf(g, bi).value, 65_536, w, lane)
    requires forall k: nat :: k <= 65_536 ==> Iterate(env, insts, g, LoopOf(g, bi).value, k, w).Going?
    ensures Backward(g.blocks[bi].start, Edge(g.blocks[bi].term, l, lane))
            + Jumps(env, insts, g, lane, n, Edge(g.blocks[bi].term, l, lane)) > 65_536
  {
    hide Runnable, Rel, AllLocal, LaneStep, LoopBodyOk, LoopsStraight, StaysIn, LaneTakes, BlockIndexAt;
    var li := LoopOf(g, bi).value;
    IndexOfStart(insts, g, bi);
    LoopOfBlock(insts, g, bi);
    LocalKeepsExec(masks, insts, g);
    InAllAlong(env, insts, g, li, w, lane, 0, 65_536);
    assert Iterate(env, insts, g, li, 0, w) == Going(w);
    SameDecision(masks, li.cond, w, l, lane);
    TakesNow(env, insts, g, li, w, lane);
    n := LaneUsesUp(masks, env, insts, g, li, 0, w, l, lane);
  }

  lemma TakesNow(env: Env, insts: seq<Decoded>, g: Graph, li: LoopInfo, w: Wave, lane: Lane)
    requires StaysIn(env, insts, g, li, 0, w, lane)
    ensures LaneLive(w, lane) && LaneTakes(li.cond, w, lane)
  {
    hide LaneTakes, LaneLive;
  }

  // The capped lane was live at launch.
  lemma {:induction false} CappedIsLive(env: Env, insts: seq<Decoded>, g: Graph, start: nat, visits: nat, w: Wave, lane: Lane)
    requires NoExecWrites(insts, g) && visits <= VisitCapOf(g) && CapsFor(env, insts, g, start, visits, w, lane)
    ensures LaneLive(w, lane)
    decreases VisitCapOf(g) - visits
  {
    hide RunBody, Leave, BlockIndexAt, NoExecWrites, StaysIn, Iterate;
    var bi := BlockIndexAt(g, start).value;
    var r := RunBody(env, insts, g.blocks[bi].insts, w);
    BlockWritesNoExec(insts, g, bi);
    BodyKeepsExec(env, insts, g.blocks[bi].insts, w);
    if Leave(env, insts, g, bi, r.w).Stuck? {
      InAllAlong(env, insts, g, LoopOf(g, bi).value, r.w, lane, 0, 65_536);
      TakesNow(env, insts, g, LoopOf(g, bi).value, r.w, lane);
    } else {
      LeaveKeepsExec(env, insts, g, bi, r.w);
      var n := Leave(env, insts, g, bi, r.w);
      CappedIsLive(env, insts, g, n.leader, visits + 1, n.w, lane);
    }
  }

  lemma {:induction false} WalkFaults(env: Env, insts: seq<Decoded>, g: Graph, start: nat, visits: nat, w: Wave)
    requires Runnable(insts, g) && LoopsStraight(insts, g) && AllMerge(g)
    requires BlockIndexAt(g, start).Some? && visits <= BlockIndexAt(g, start).value && visits <= VisitCapOf(g)
    ensures var r := WalkFrom(env, insts, g, start, visits, w); r.Failed? ==> r.why == Fault || r.why == LoopCap
    decreases VisitCapOf(g) - visits
  {
    hide Runnable, RunBody, Leave, BlockIndexAt, LoopsStraight, AllMerge;
    var bi := BlockIndexAt(g, start).value;
    BlockFailure(env, insts, g, bi, w);
    var r := RunBody(env, insts, g.blocks[bi].insts, w);
    if r.Going? {
      LeaveSafe(env, insts, g, bi, r.w);
      LeaveFaults(env, insts, g, bi, r.w);
      var n := Leave(env, insts, g, bi, r.w);
      if n.Goto? {
        WalkFaults(env, insts, g, n.leader, visits + 1, n.w);
      }
    }
  }

  lemma HaltedStays(env: Env, insts: seq<Decoded>, g: Graph, lane: Lane, n: nat, w: Wave)
    ensures Jumps(env, insts, g, lane, n, Halted(w)) == 0
  {
    if n > 0 { HaltedStays(env, insts, g, lane, n - 1, w); }
  }

  // However far the lane alone is run, it jumps back at most `limit` times.
  ghost predicate JumpsAtMost(env: Env, insts: seq<Decoded>, g: Graph, lane: Lane, limit: nat, s: LaneState) {
    forall n: nat :: Jumps(env, insts, g, lane, n, s) <= limit
  }

  lemma HaltedBounds(env: Env, insts: seq<Decoded>, g: Graph, lane: Lane, n: nat, s: LaneState, w: Wave, limit: nat)
    requires LaneRun(env, insts, g, lane, n, s) == Halted(w) && Jumps(env, insts, g, lane, n, s) <= limit
    ensures JumpsAtMost(env, insts, g, lane, limit, s)
  {
    hide LaneStep, LaneRun, Jumps;
    forall k: nat ensures Jumps(env, insts, g, lane, k, s) <= limit {
      if k <= n {
        JumpsCompose(env, insts, g, lane, k, n - k, s);
      } else {
        JumpsCompose(env, insts, g, lane, n, k - n, s);
        HaltedStays(env, insts, g, lane, k - n, w);
      }
    }
  }

  // When a wave's walk ends. On an accepted graph of per-lane code whose conditionals all merge, and
  // when no instruction faults, the walk reaches its end if and only if no live lane, run alone with
  // its own branch decisions, would jump back more than 65,536 times; otherwise the loop limit stops it.
  lemma WalkEndsIff(masks: set<nat>, env: Env, insts: seq<Decoded>, g: Graph, w: Wave)
    requires Runnable(insts, g) && PerLane(masks, insts, g) && AllMerge(g) && WalkGraph(env, insts, g, w) != Failed(Fault)
    ensures WalkGraph(env, insts, g, w).Ended? <==>
      forall lane: Lane :: LaneLive(w, lane) ==> JumpsAtMost(env, insts, g, lane, 65_536, Launch(g, Alone(w, lane)))
    ensures !WalkGraph(env, insts, g, w).Ended? ==> WalkGraph(env, insts, g, w) == Failed(LoopCap)
  {
    hide Runnable, WalkFrom, LaneStep, AllLocal, ArmsOk, LoopsStraight, AllMerge, Rel, LaneLive, LaneRun, Jumps, CapsFor;
    CapsAreDead(env, insts, g, w);
    if WalkGraph(env, insts, g, w).Ended? {
      forall lane: Lane | LaneLive(w, lane)
        ensures JumpsAtMost(env, insts, g, lane, 65_536, Launch(g, Alone(w, lane)))
      {
        var n, alone := WaveEqualsLanes(masks, env, insts, g, w, lane);
        HaltedBounds(env, insts, g, lane, n, Launch(g, Alone(w, lane)), alone, 65_536);
      }
    } else {
      var start := g.blocks[0].start;
      IndexOfStart(insts, g, 0);
      WalkFaults(env, insts, g, start, 0, w);
      var lane := SomeLaneCaps(env, insts, g, start, 0, w);
      LocalKeepsExec(masks, insts, g);
      CappedIsLive(env, insts, g, start, 0, w, lane);
      LaunchRelates(masks, w, lane);
      var n := CappedLaneJumps(masks, env, insts, g, start, 0, w, Alone(w, lane), lane);
      assert !JumpsAtMost(env, insts, g, lane, 65_536, Launch(g, Alone(w, lane)));
    }
  }
}
