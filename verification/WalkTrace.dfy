// Which block bodies a walk runs, under which EXEC: no block runs twice outside loop
// iterations, a run is bounded, and EXEC is the launch mask at every top-level block.

module WalkTrace {
  import opened Words
  import opened Bits
  import opened Arithmetic
  import opened Isa
  import opened Wavefront
  import opened Cfg
  import opened CfgFacts
  import opened Merge
  import opened Walk
  import opened WalkBounds

  // What a block body passes over, and what ends the wave, by opcode number.
  lemma SkippedByNumber(inst: Inst)
    ensures IsSkipped(inst) <==> inst.Sopp? && inst.op in {0x00, 0x02, 0x04, 0x05, 0x06, 0x07, 0x08, 0x09, 0x0C}
    ensures IsSopp(inst, S_ENDPGM) <==> inst.Sopp? && inst.op == 0x01
  {
  }

  // One run of a block body outside loop iterations, with the EXEC it started under.
  datatype Visit = Visit(block: nat, exec: u64, top: bool)

  function RegionLog(env: Env, insts: seq<Decoded>, g: Graph, cur: nat, stop: nat, steps: nat, w: Wave): seq<Visit>
    requires steps <= VisitCapOf(g)
    decreases VisitCapOf(g) - steps
  {
    if cur == stop || steps == VisitCapOf(g) || BlockIndexAt(g, cur).None? then []
    else
      var bi := BlockIndexAt(g, cur).value;
      var r := RunBody(env, insts, g.blocks[bi].insts, w);
      [Visit(bi, w.exec, false)] +
      if r.Going? && (g.blocks[bi].term.Fallthrough? || g.blocks[bi].term.Branch?) then
        RegionLog(env, insts, g, g.blocks[bi].term.target, stop, steps + 1, r.w)
      else []
  }

  function ArmLog(env: Env, insts: seq<Decoded>, g: Graph, start: nat, merge: nat, mask: u64, w: Wave): seq<Visit> {
    if start != merge && mask != 0 then RegionLog(env, insts, g, start, merge, 0, w.(exec := mask)) else []
  }

  function DiamondLog(env: Env, insts: seq<Decoded>, g: Graph, term: Terminator, merge: nat, w: Wave): seq<Visit>
    requires term.Cond?
  {
    var taken := TakenMask(term.cond, w);
    var r := RunArm(env, insts, g, term.taken, merge, taken, w);
    ArmLog(env, insts, g, term.taken, merge, taken, w) +
    if r.Going? then ArmLog(env, insts, g, term.fall, merge, AndNot(w.exec, taken), r.w) else []
  }

  function LeaveLog(env: Env, insts: seq<Decoded>, g: Graph, bi: nat, w: Wave): seq<Visit>
    requires bi < |g.blocks|
  {
    if g.blocks[bi].term.Cond? && LoopOf(g, bi).None? && g.blocks[bi].term.fall != USIZE_MAX && MergeTarget(g, bi).Some?
    then DiamondLog(env, insts, g, g.blocks[bi].term, MergeTarget(g, bi).value, w)
    else []
  }

  function WalkLog(env: Env, insts: seq<Decoded>, g: Graph, start: nat, visits: nat, w: Wave): seq<Visit>
    requires visits <= VisitCapOf(g)
    decreases VisitCapOf(g) - visits
  {
    if visits == VisitCapOf(g) || BlockIndexAt(g, start).None? then []
    else
      var bi := BlockIndexAt(g, start).value;
      var r := RunBody(env, insts, g.blocks[bi].insts, w);
      [Visit(bi, w.exec, true)] +
      if !r.Going? then []
      else
        LeaveLog(env, insts, g, bi, r.w) +
        match Leave(env, insts, g, bi, r.w)
        case Goto(w', leader) => WalkLog(env, insts, g, leader, visits + 1, w')
        case _ => []
  }

  // Block bodies run by loop iterations.
  function LoopBodyRuns(env: Env, insts: seq<Decoded>, g: Graph, cur: nat, back: nat, steps: nat, w: Wave): nat
    requires steps <= VisitCapOf(g)
    decreases VisitCapOf(g) - steps
  {
    if steps == VisitCapOf(g) || BlockIndexAt(g, cur).None? then 0
    else
      var b := g.blocks[BlockIndexAt(g, cur).value];
      var r := RunBody(env, insts, b.insts, w);
      1 + if r.Going? && cur != back && (b.term.Fallthrough? || b.term.Branch?) then
            LoopBodyRuns(env, insts, g, b.term.target, back, steps + 1, r.w)
          else 0
  }

  function LoopRuns(env: Env, insts: seq<Decoded>, g: Graph, li: LoopInfo, iters: nat, w: Wave): nat
    requires iters <= LOOP_ITER_CAP
    decreases LOOP_ITER_CAP - iters
  {
    var mask := ContinueMask(li.cond, w);
    if mask == 0 || iters == LOOP_ITER_CAP then 0
    else
      LoopBodyRuns(env, insts, g, li.header, li.backEdgeBlock, 0, w.(exec := mask)) +
      match LoopBody(env, insts, g, li.header, li.backEdgeBlock, 0, w.(exec := mask))
      case Going(w') => LoopRuns(env, insts, g, li, iters + 1, w')
      case _ => 0
  }

  function WalkLoopRuns(env: Env, insts: seq<Decoded>, g: Graph, start: nat, visits: nat, w: Wave): nat
    requires visits <= VisitCapOf(g)
    decreases VisitCapOf(g) - visits
  {
    if visits == VisitCapOf(g) || BlockIndexAt(g, start).None? then 0
    else
      var bi := BlockIndexAt(g, start).value;
      var r := RunBody(env, insts, g.blocks[bi].insts, w);
      if !r.Going? then 0
      else
        (if LoopOf(g, bi).Some? then LoopRuns(env, insts, g, LoopOf(g, bi).value, 0, r.w) else 0) +
        match Leave(env, insts, g, bi, r.w)
        case Goto(w', leader) => WalkLoopRuns(env, insts, g, leader, visits + 1, w')
        case _ => 0
  }

  ghost predicate Distinct(s: seq<Visit>) {
    forall i, j :: 0 <= i < j < |s| ==> s[i].block != s[j].block
  }

  ghost predicate Between(s: seq<Visit>, lo: int, hi: int) {
    forall i :: 0 <= i < |s| ==> lo <= s[i].block < hi
  }

  // An arm's visits are a prefix of its chain, without the merge, all under the arm's mask
  // when the body leaves EXEC alone.
  lemma {:induction false} RegionLogIsChain(env: Env, insts: seq<Decoded>, g: Graph, p: seq<nat>, i: nat, start: nat, merge: nat, w: Wave)
    requires Runnable(insts, g) && Arm(g, p, start, merge) && i < |p| && i <= VisitCapOf(g)
    ensures var log := RegionLog(env, insts, g, g.blocks[p[i]].start, merge, i, w);
            && |log| < |p| - i
            && forall k :: 0 <= k < |log| ==> log[k].block == p[i + k]
    decreases |p| - i
  {
    hide Runnable, RunBody;
    ForwardBound(p, |g.blocks|);
    if i + 1 < |p| {
      IndexOfStart(insts, g, p[i]);
      ArmStep(insts, g, p, i, start, merge);
      var r := RunBody(env, insts, g.blocks[p[i]].insts, w);
      if r.Going? {
        RegionLogIsChain(env, insts, g, p, i + 1, start, merge, r.w);
        var rest := RegionLog(env, insts, g, g.blocks[p[i + 1]].start, merge, i + 1, r.w);
        var log := RegionLog(env, insts, g, g.blocks[p[i]].start, merge, i, w);
        assert log == [Visit(p[i], w.exec, false)] + rest;
      }
    }
  }

  lemma ArmLogIsChain(env: Env, insts: seq<Decoded>, g: Graph, p: seq<nat>, start: nat, merge: nat, mask: u64, w: Wave)
    requires Runnable(insts, g) && Arm(g, p, start, merge)
    ensures var log := ArmLog(env, insts, g, start, merge, mask, w);
            |log| < |p| && forall k :: 0 <= k < |log| ==> log[k].block == p[k]
  {
    hide Runnable, RegionLog;
    RegionLogIsChain(env, insts, g, p, 0, start, merge, w.(exec := mask));
  }

  lemma TwoArms(p: seq<nat>, q: seq<nat>, a: seq<Visit>, b: seq<Visit>, lo: nat, hi: nat)
    requires Forward(p) && Forward(q) && |p| > 0 && |q| > 0 && MeetAtEnd(p, q)
    requires p[0] > lo && q[0] > lo && p[|p| - 1] == hi
    requires |a| < |p| && forall k :: 0 <= k < |a| ==> a[k].block == p[k]
    requires |b| < |q| && forall k :: 0 <= k < |b| ==> b[k].block == q[k]
    ensures Distinct(a + b) && Between(a + b, lo + 1, hi)
  {
    var s := a + b;
    forall i | 0 <= i < |s|
      ensures s[i].block == if i < |a| then p[i] else q[i - |a|]
    {
    }
  }

  lemma DiamondLogDistinct(env: Env, insts: seq<Decoded>, g: Graph, bi: nat, w: Wave)
    requires Runnable(insts, g) && bi < |g.blocks| && LoopOf(g, bi).None? && MergeTarget(g, bi).Some?
    ensures g.blocks[bi].term.Cond?
    ensures var m := MergeTarget(g, bi).value;
            var log := DiamondLog(env, insts, g, g.blocks[bi].term, m, w);
            Distinct(log) && Between(log, bi + 1, IndexOf(g, m))
  {
    hide Runnable, MergeTarget, RunArm, ArmLog, NoEnd, BlockIndexAt, Accepted, Chain;
    ToAccepted(insts, g);
    var pt, pf := Reconvergence(LiveStream(insts), g, bi);
    var term, m := g.blocks[bi].term, MergeTarget(g, bi).value;
    CondForward(insts, g, bi);
    ChainEnds(g, pt);
    ChainEnds(g, pf);
    IndexOfStart(insts, g, pt[0]);
    IndexOfStart(insts, g, pf[0]);
    IndexOfStart(insts, g, pt[|pt| - 1]);
    var taken := TakenMask(term.cond, w);
    var r := RunArm(env, insts, g, term.taken, m, taken, w);
    var a := ArmLog(env, insts, g, term.taken, m, taken, w);
    var b := if r.Going? then ArmLog(env, insts, g, term.fall, m, AndNot(w.exec, taken), r.w) else [];
    ArmLogIsChain(env, insts, g, pt, term.taken, m, taken, w);
    if r.Going? {
      ArmLogIsChain(env, insts, g, pf, term.fall, m, AndNot(w.exec, taken), r.w);
    }
    TwoArms(pt, pf, a, b, bi, pt[|pt| - 1]);
  }

  lemma ChainEnds(g: Graph, p: seq<nat>)
    requires Chain(g, p)
    ensures |p| > 0 && p[0] < |g.blocks| && p[|p| - 1] < |g.blocks|
  {
  }

  lemma LeaveLogDistinct(env: Env, insts: seq<Decoded>, g: Graph, bi: nat, w: Wave)
    requires Runnable(insts, g) && bi < |g.blocks|
    ensures var n := Leave(env, insts, g, bi, w);
            var hi := if n.Goto? then IndexOf(g, n.leader) else |g.blocks|;
            Distinct(LeaveLog(env, insts, g, bi, w)) && Between(LeaveLog(env, insts, g, bi, w), bi + 1, hi)
  {
    hide Runnable, MergeTarget, Diamond, DiamondLog, Loop, BlockIndexAt;
    if g.blocks[bi].term.Cond? && LoopOf(g, bi).None? && MergeTarget(g, bi).Some? {
      DiamondLogDistinct(env, insts, g, bi, w);
      CondForward(insts, g, bi);
      MergeForward(insts, g, bi);
    }
  }

  lemma JoinLogs(bi: nat, first: Visit, arms: seq<Visit>, rest: seq<Visit>, mid: nat, n: nat)
    requires first.block == bi && bi < mid <= n
    requires Distinct(arms) && Between(arms, bi + 1, mid)
    requires Distinct(rest) && Between(rest, mid, n)
    ensures Distinct([first] + (arms + rest)) && Between([first] + (arms + rest), bi, n)
  {
    var s := [first] + (arms + rest);
    forall i | 0 <= i < |s|
      ensures s[i] == if i == 0 then first else if i <= |arms| then arms[i - 1] else rest[i - 1 - |arms|]
    {
    }
  }

  lemma {:induction false} WalkLogDistinct(env: Env, insts: seq<Decoded>, g: Graph, start: nat, visits: nat, w: Wave)
    requires Runnable(insts, g) && BlockIndexAt(g, start).Some? && visits <= VisitCapOf(g)
    ensures var log := WalkLog(env, insts, g, start, visits, w);
            Distinct(log) && Between(log, BlockIndexAt(g, start).value, |g.blocks|)
    decreases VisitCapOf(g) - visits
  {
    hide Runnable, RunBody, Leave, LeaveLog, BlockIndexAt;
    if visits < VisitCapOf(g) {
      var bi := BlockIndexAt(g, start).value;
      var r := RunBody(env, insts, g.blocks[bi].insts, w);
      if r.Going? {
        LeaveSafe(env, insts, g, bi, r.w);
        LeaveLogDistinct(env, insts, g, bi, r.w);
        var n := Leave(env, insts, g, bi, r.w);
        var arms := LeaveLog(env, insts, g, bi, r.w);
        if n.Goto? {
          WalkLogDistinct(env, insts, g, n.leader, visits + 1, n.w);
          var rest := WalkLog(env, insts, g, n.leader, visits + 1, n.w);
          JoinLogs(bi, Visit(bi, w.exec, true), arms, rest, BlockIndexAt(g, n.leader).value, |g.blocks|);
        } else {
          JoinLogs(bi, Visit(bi, w.exec, true), arms, [], |g.blocks|, |g.blocks|);
        }
      }
    }
  }

  lemma {:induction false} Pigeonhole(s: seq<Visit>, n: nat)
    requires Distinct(s) && Between(s, 0, n)
    ensures |s| <= n
  {
    var first := if |s| > 0 then s[0].block else 0;
    assert |s| > 0 ==> 0 <= first < n;
    if n > 0 {
      if k :| 0 <= k < |s| && s[k].block == n - 1 {
        Pigeonhole(s[..k] + s[k + 1..], n - 1);
      } else {
        Pigeonhole(s, n - 1);
      }
    }
  }

  lemma {:induction false} LoopBodyRunsBound(env: Env, insts: seq<Decoded>, g: Graph, cur: nat, back: nat, steps: nat, w: Wave)
    requires Runnable(insts, g) && BlockIndexAt(g, cur).Some? && steps <= VisitCapOf(g)
    ensures LoopBodyRuns(env, insts, g, cur, back, steps, w) <= |g.blocks| - BlockIndexAt(g, cur).value
    decreases VisitCapOf(g) - steps
  {
    hide Runnable, RunBody, BlockIndexAt;
    if steps < VisitCapOf(g) {
      var bi := BlockIndexAt(g, cur).value;
      var r := RunBody(env, insts, g.blocks[bi].insts, w);
      if r.Going? && cur != back && Unconditional(g.blocks[bi].term) {
        UncondIndex(insts, g, bi);
        LoopBodyRunsBound(env, insts, g, g.blocks[bi].term.target, back, steps + 1, r.w);
      }
    }
  }

  lemma {:induction false} LoopRunsBound(env: Env, insts: seq<Decoded>, g: Graph, li: LoopInfo, iters: nat, w: Wave)
    requires Runnable(insts, g) && BlockIndexAt(g, li.header).Some? && iters <= LOOP_ITER_CAP
    ensures LoopRuns(env, insts, g, li, iters, w) <= (LOOP_ITER_CAP - iters) * |g.blocks|
    decreases LOOP_ITER_CAP - iters
  {
    hide Runnable, LoopBody, LoopBodyRuns, BlockIndexAt, ContinueMask;
    var mask := ContinueMask(li.cond, w);
    MulMono(0, LOOP_ITER_CAP - iters, |g.blocks|);
    if mask != 0 && iters < LOOP_ITER_CAP {
      LoopBodyRunsBound(env, insts, g, li.header, li.backEdgeBlock, 0, w.(exec := mask));
      var r := LoopBody(env, insts, g, li.header, li.backEdgeBlock, 0, w.(exec := mask));
      var left := LOOP_ITER_CAP - iters - 1;
      OneMore(left, |g.blocks|);
      if r.Going? {
        LoopRunsBound(env, insts, g, li, iters + 1, r.w);
      }
    }
  }

  // Only one block carries a back-edge, and the walk passes it once.
  lemma {:induction false} WalkLoopRunsBound(env: Env, insts: seq<Decoded>, g: Graph, start: nat, visits: nat, w: Wave)
    requires Runnable(insts, g) && BlockIndexAt(g, start).Some? && visits <= VisitCapOf(g)
    ensures WalkLoopRuns(env, insts, g, start, visits, w) <= LOOP_ITER_CAP * |g.blocks|
    ensures (forall i :: BlockIndexAt(g, start).value <= i < |g.blocks| ==> LoopOf(g, i).None?)
            ==> WalkLoopRuns(env, insts, g, start, visits, w) == 0
    decreases VisitCapOf(g) - visits
  {
    hide Runnable, RunBody, Leave, LoopRuns, BlockIndexAt;
    if visits < VisitCapOf(g) {
      var bi := BlockIndexAt(g, start).value;
      var r := RunBody(env, insts, g.blocks[bi].insts, w);
      if r.Going? {
        LeaveSafe(env, insts, g, bi, r.w);
        var n := Leave(env, insts, g, bi, r.w);
        if n.Goto? {
          WalkLoopRunsBound(env, insts, g, n.leader, visits + 1, n.w);
        }
        if LoopOf(g, bi).Some? {
          OneLoop(insts, g, bi);
          LoopHeaderFound(insts, g, bi);
          LoopRunsBound(env, insts, g, LoopOf(g, bi).value, 0, r.w);
        }
      }
    }
  }

  lemma OneLoop(insts: seq<Decoded>, g: Graph, bi: nat)
    requires Runnable(insts, g) && bi < |g.blocks| && LoopOf(g, bi).Some?
    ensures forall i :: bi < i < |g.blocks| ==> LoopOf(g, i).None?
  {
  }

  lemma LoopHeaderFound(insts: seq<Decoded>, g: Graph, bi: nat)
    requires Runnable(insts, g) && bi < |g.blocks| && LoopOf(g, bi).Some?
    ensures BlockIndexAt(g, LoopOf(g, bi).value.header).Some?
  {
    hide Runnable;
    CondForward(insts, g, bi);
  }

  // Outside loop iterations no block body runs twice, and a whole run of a graph of N blocks
  // runs at most N + 65536 * N of them.
  lemma RunsAreBounded(env: Env, insts: seq<Decoded>, g: Graph, w: Wave)
    requires Runnable(insts, g) && |g.blocks| > 0
    ensures var start := g.blocks[0].start;
            && Distinct(WalkLog(env, insts, g, start, 0, w))
            && |WalkLog(env, insts, g, start, 0, w)| + WalkLoopRuns(env, insts, g, start, 0, w)
               <= |g.blocks| + 65_536 * |g.blocks|
  {
    hide Runnable, WalkLog, WalkLoopRuns;
    var start := g.blocks[0].start;
    IndexOfStart(insts, g, 0);
    WalkLogDistinct(env, insts, g, start, 0, w);
    Pigeonhole(WalkLog(env, insts, g, start, 0, w), |g.blocks|);
    WalkLoopRunsBound(env, insts, g, start, 0, w);
  }

  // ---- EXEC -------------------------------------------------------------------------------

  predicate WritesExec(inst: Inst) {
    inst.Sop1? && (inst.op == S_MOV_B64 || inst.op == S_WQM_B64) && inst.sdst == Special(ExecLo)
  }

  lemma {:induction false} LanesKeepExec(env: Env, w: Wave, lane: nat, inst: Inst)
    requires IsVector(inst) && lane <= LANES
    ensures LaneLoop(env, w, lane, inst).Some? ==> LaneLoop(env, w, lane, inst).value.exec == w.exec
    decreases LANES - lane
  {
    hide LaneEffect;
    if lane < LANES && LaneTurn(env, w, lane, inst).Some? {
      LanesKeepExec(env, LaneTurn(env, w, lane, inst).value, lane + 1, inst);
    }
  }

  lemma StepKeepsExec(env: Env, w: Wave, inst: Inst)
    requires !WritesExec(inst)
    ensures ExecOne(env, w, inst).Some? ==> ExecOne(env, w, inst).value.exec == w.exec
  {
    hide LaneLoop;
    if IsVector(inst) {
      LanesKeepExec(env, w, 0, inst);
    }
  }

  predicate BodyWritesNoExec(insts: seq<Decoded>, idxs: seq<nat>) {
    forall k :: 0 <= k < |idxs| && idxs[k] < |insts| ==> !WritesExec(insts[idxs[k]].inst)
  }

  // No instruction of a block writes EXEC; what the stream holds behind its end does not matter.
  ghost predicate NoExecWrites(insts: seq<Decoded>, g: Graph) {
    forall bi :: 0 <= bi < |g.blocks| ==> BodyWritesNoExec(insts, g.blocks[bi].insts)
  }

  lemma BlockWritesNoExec(insts: seq<Decoded>, g: Graph, bi: nat)
    requires NoExecWrites(insts, g) && bi < |g.blocks|
    ensures BodyWritesNoExec(insts, g.blocks[bi].insts)
  {
  }

  lemma {:induction false} BodyKeepsExec(env: Env, insts: seq<Decoded>, idxs: seq<nat>, w: Wave)
    requires BodyWritesNoExec(insts, idxs)
    ensures !RunBody(env, insts, idxs, w).Failed? ==> RunBody(env, insts, idxs, w).w.exec == w.exec
    decreases |idxs|
  {
    hide ExecOne;
    if |idxs| > 0 && idxs[0] < |insts| {
      var inst := insts[idxs[0]].inst;
      if IsSkipped(inst) {
        BodyKeepsExec(env, insts, idxs[1..], w);
      } else if ExecOne(env, w, inst).Some? {
        StepKeepsExec(env, w, inst);
        BodyKeepsExec(env, insts, idxs[1..], ExecOne(env, w, inst).value);
      }
    }
  }

  lemma {:induction false} LoopRestoresExec(env: Env, insts: seq<Decoded>, g: Graph, li: LoopInfo, saved: u64, iters: nat, w: Wave)
    requires iters <= LOOP_ITER_CAP
    ensures var r := Loop(env, insts, g, li, saved, iters, w); !r.Failed? ==> r.w.exec == saved
    decreases LOOP_ITER_CAP - iters
  {
    hide LoopBody;
    var mask := ContinueMask(li.cond, w);
    if mask != 0 && iters < LOOP_ITER_CAP {
      var r := LoopBody(env, insts, g, li.header, li.backEdgeBlock, 0, w.(exec := mask));
      if r.Going? {
        LoopRestoresExec(env, insts, g, li, saved, iters + 1, r.w);
      }
    }
  }

  lemma LeaveKeepsExec(env: Env, insts: seq<Decoded>, g: Graph, bi: nat, w: Wave)
    requires bi < |g.blocks|
    ensures var n := Leave(env, insts, g, bi, w); n.Goto? ==> n.w.exec == w.exec
  {
    hide Loop, RunArm, MergeTarget;
    if LoopOf(g, bi).Some? {
      LoopRestoresExec(env, insts, g, LoopOf(g, bi).value, w.exec, 0, w);
    }
  }

  // If no instruction writes EXEC, every top-level block of a walk starts under the mask the
  // walk was launched with.
  lemma {:induction false} TopLevelExecIsLaunchMask(env: Env, insts: seq<Decoded>, g: Graph, start: nat, visits: nat, w: Wave)
    requires NoExecWrites(insts, g) && visits <= VisitCapOf(g)
    ensures forall v :: v in WalkLog(env, insts, g, start, visits, w) && v.top ==> v.exec == w.exec
    decreases VisitCapOf(g) - visits
  {
    hide RunBody, Leave, LeaveLog, BlockIndexAt, NoExecWrites;
    if visits < VisitCapOf(g) && BlockIndexAt(g, start).Some? {
      var bi := BlockIndexAt(g, start).value;
      var r := RunBody(env, insts, g.blocks[bi].insts, w);
      BlockWritesNoExec(insts, g, bi);
      BodyKeepsExec(env, insts, g.blocks[bi].insts, w);
      if r.Going? {
        LeaveKeepsExec(env, insts, g, bi, r.w);
        LeaveLogIsArms(env, insts, g, bi, r.w);
        var n := Leave(env, insts, g, bi, r.w);
        if n.Goto? {
          TopLevelExecIsLaunchMask(env, insts, g, n.leader, visits + 1, n.w);
        }
      }
    }
  }

  lemma {:induction false} RegionLogIsArm(env: Env, insts: seq<Decoded>, g: Graph, cur: nat, stop: nat, steps: nat, w: Wave)
    requires steps <= VisitCapOf(g)
    ensures forall v :: v in RegionLog(env, insts, g, cur, stop, steps, w) ==> !v.top
    ensures NoExecWrites(insts, g) ==>
      forall v :: v in RegionLog(env, insts, g, cur, stop, steps, w) ==> v.exec == w.exec
    decreases VisitCapOf(g) - steps
  {
    hide RunBody, NoExecWrites;
    if cur != stop && steps < VisitCapOf(g) && BlockIndexAt(g, cur).Some? {
      var b := g.blocks[BlockIndexAt(g, cur).value];
      var r := RunBody(env, insts, b.insts, w);
      if NoExecWrites(insts, g) {
        BlockWritesNoExec(insts, g, BlockIndexAt(g, cur).value);
        BodyKeepsExec(env, insts, b.insts, w);
      }
      if r.Going? && (b.term.Fallthrough? || b.term.Branch?) {
        RegionLogIsArm(env, insts, g, b.term.target, stop, steps + 1, r.w);
      }
    }
  }

  lemma LeaveLogIsArms(env: Env, insts: seq<Decoded>, g: Graph, bi: nat, w: Wave)
    requires bi < |g.blocks|
    ensures forall v :: v in LeaveLog(env, insts, g, bi, w) ==> !v.top
  {
    hide RegionLog, RunArm, MergeTarget;
    if g.blocks[bi].term.Cond? && MergeTarget(g, bi).Some? {
      var term, m := g.blocks[bi].term, MergeTarget(g, bi).value;
      var taken := TakenMask(term.cond, w);
      var r := RunArm(env, insts, g, term.taken, m, taken, w);
      RegionLogIsArm(env, insts, g, term.taken, m, 0, w.(exec := taken));
      if r.Going? {
        RegionLogIsArm(env, insts, g, term.fall, m, 0, r.w.(exec := AndNot(w.exec, taken)));
      }
    }
  }

  // The two arm masks partition the lanes live at the branch, and a live lane goes to the
  // taken arm exactly when it satisfies the branch condition itself.
  lemma ArmMasksPartition(cond: BranchCond, w: Wave, lane: Lane)
    ensures var taken := TakenMask(cond, w); var fall := AndNot(w.exec, taken);
            && LaneLive(w, lane) == (Bit(taken, lane) || Bit(fall, lane))
            && !(Bit(taken, lane) && Bit(fall, lane))
            && Bit(taken, lane) == (LaneLive(w, lane) && LaneTakes(cond, w, lane))
  {
    BitOfAnd(w.exec, w.vcc, lane);
    BitOfAndNot(w.exec, w.vcc, lane);
    BitOfAndNot(w.exec, TakenMask(cond, w), lane);
    ZeroBits(lane);
  }

  // The branch decision of one lane on its own: its VCC bit, or that it is executing at all.
  predicate LaneTakes(cond: BranchCond, w: Wave, lane: Lane) {
    match cond
    case Vccz => !Bit(w.vcc, lane)
    case Vccnz => Bit(w.vcc, lane)
    case Execz => false
    case Execnz => true
  }
}
