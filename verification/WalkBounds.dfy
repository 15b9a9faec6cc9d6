// On an accepted graph the walk's safety caps never fire, every leader it looks up exists, no
// block body runs twice outside loop iterations, and EXEC is whole at every top-level block.

module WalkBounds {
  import opened Words
  import opened Bits
  import opened Isa
  import opened Wavefront
  import opened Cfg
  import opened CfgFacts
  import opened Merge
  import opened Walk

  // `g` is the accepted graph of the stream `insts`.
  ghost predicate Runnable(insts: seq<Decoded>, g: Graph) {
    Accepted(LiveStream(insts), g)
  }

  lemma BuiltIsRunnable(insts: seq<Decoded>, g: Graph)
    requires Increasing(insts) && Sound(LiveStream(insts), g) && LoopsOk(g)
    ensures Runnable(insts, g)
  {
    hide Sound, LoopsOk;
    LiveIsIncreasing(insts);
  }

  function IndexOf(g: Graph, start: nat): nat {
    var i := BlockIndexAt(g, start);
    if i.Some? then i.value else |g.blocks|
  }

  lemma BlockInStream(insts: seq<Decoded>, g: Graph, bi: nat)
    requires Runnable(insts, g) && bi < |g.blocks|
    ensures forall k :: 0 <= k < |g.blocks[bi].insts| ==>
      g.blocks[bi].insts[k] < |LiveStream(insts)| <= |insts| && insts[g.blocks[bi].insts[k]] == LiveStream(insts)[g.blocks[bi].insts[k]]
  {
    hide Classify, LoopsOk, BranchesLand, LeadersNeeded, Increasing;
    forall k: nat | k < |g.blocks[bi].insts|
      ensures g.blocks[bi].insts[k] < |LiveStream(insts)|
    {
      TransfersOnlyAtEnd(LiveStream(insts), g, bi, k);
    }
  }

  ghost predicate InStream(insts: seq<Decoded>, idxs: seq<nat>) {
    forall k :: 0 <= k < |idxs| ==> idxs[k] < |insts|
  }

  lemma {:induction false} BodyFailure(env: Env, insts: seq<Decoded>, idxs: seq<nat>, w: Wave)
    requires InStream(insts, idxs)
    ensures RunBody(env, insts, idxs, w).Failed? ==> RunBody(env, insts, idxs, w).why == Fault
    decreases |idxs|
  {
    hide ExecOne;
    if |idxs| > 0 {
      var inst := insts[idxs[0]].inst;
      if IsSkipped(inst) {
        BodyFailure(env, insts, idxs[1..], w);
      } else if ExecOne(env, w, inst).Some? {
        BodyFailure(env, insts, idxs[1..], ExecOne(env, w, inst).value);
      }
    }
  }

  lemma BlockFailure(env: Env, insts: seq<Decoded>, g: Graph, bi: nat, w: Wave)
    requires Runnable(insts, g) && bi < |g.blocks|
    ensures var r := RunBody(env, insts, g.blocks[bi].insts, w); r.Failed? ==> r.why == Fault
  {
    hide Runnable, RunBody;
    BlockInStream(insts, g, bi);
    BodyFailure(env, insts, g.blocks[bi].insts, w);
  }

  // Leaders are distinct, so looking one up by its own start finds it.
  lemma IndexOfStart(insts: seq<Decoded>, g: Graph, bi: nat)
    requires Runnable(insts, g) && bi < |g.blocks|
    ensures BlockIndexAt(g, g.blocks[bi].start) == Some(bi)
  {
    hide Increasing, Tiled, LoopsOk, BranchesLand, LeadersNeeded, Classify;
    var j := BlockIndexAt(g, g.blocks[bi].start).value;
    if j < bi { StartsAscend(LiveStream(insts), g, j, bi); }
    if bi < j { StartsAscend(LiveStream(insts), g, bi, j); }
  }

  // A forward edge leads to a later block.
  lemma ForwardIndex(insts: seq<Decoded>, g: Graph, bi: nat, x: nat)
    requires Runnable(insts, g) && bi < |g.blocks| && IsLeader(g, x) && x > g.blocks[bi].start
    ensures BlockIndexAt(g, x).Some? && BlockIndexAt(g, x).value > bi
  {
    hide Increasing, Tiled, LoopsOk, BranchesLand, LeadersNeeded, Classify;
    var j := BlockIndexAt(g, x).value;
    if j < bi { StartsAscend(LiveStream(insts), g, j, bi); }
  }

  lemma UncondIndex(insts: seq<Decoded>, g: Graph, bi: nat)
    requires Runnable(insts, g) && bi < |g.blocks| && Unconditional(g.blocks[bi].term)
    ensures var j := BlockIndexAt(g, g.blocks[bi].term.target); j.Some? && j.value > bi
  {
    hide Runnable;
    var x := g.blocks[bi].term.target;
    EdgesLandForward(LiveStream(insts), g, bi, x) by { ToAccepted(insts, g); }
    ForwardIndex(insts, g, bi, x);
  }

  lemma ToAccepted(insts: seq<Decoded>, g: Graph)
    requires Runnable(insts, g)
    ensures Accepted(LiveStream(insts), g)
  {
  }

  // ---- arms -----------------------------------------------------------------------------

  // An arm never meets a cap, a missing leader, a nested branch or an `s_endpgm`: from the
  // `i`-th block of its chain it runs on to the merge or faults.
  lemma {:induction false} RegionSafe(env: Env, insts: seq<Decoded>, g: Graph, p: seq<nat>, i: nat, start: nat, merge: nat, w: Wave)
    requires Runnable(insts, g) && Arm(g, p, start, merge) && i < |p|
    requires i <= VisitCapOf(g)
    requires forall j :: 0 <= j < |p| - 1 ==> NoEnd(LiveStream(insts), g, p[j])
    ensures var r := Region(env, insts, g, g.blocks[p[i]].start, merge, i, w); r.Going? || r == Failed(Fault)
    decreases |p| - i
  {
    hide Runnable, RunBody;
    ForwardBound(p, |g.blocks|);
    if i + 1 < |p| {
      IndexOfStart(insts, g, p[i]);
      ArmStep(insts, g, p, i, start, merge);
      BlockFailure(env, insts, g, p[i], w);
      BlockNoEnd(env, insts, g, p[i], w);
      var r := RunBody(env, insts, g.blocks[p[i]].insts, w);
      if r.Going? {
        RegionSafe(env, insts, g, p, i + 1, start, merge, r.w);
      }
    }
  }

  lemma ArmStep(insts: seq<Decoded>, g: Graph, p: seq<nat>, i: nat, start: nat, merge: nat)
    requires Runnable(insts, g) && Arm(g, p, start, merge) && i + 1 < |p|
    ensures g.blocks[p[i]].start != merge
    ensures Unconditional(g.blocks[p[i]].term) && g.blocks[p[i]].term.target == g.blocks[p[i + 1]].start
  {
    hide Runnable;
    assert UncondSucc(g, p[i]) == Some(p[i + 1]);
    assert p[i] < p[|p| - 1];
    IndexOfStart(insts, g, p[i]);
    IndexOfStart(insts, g, p[|p| - 1]);
  }

  lemma {:induction false} BodyNoEnd(env: Env, insts: seq<Decoded>, idxs: seq<nat>, w: Wave)
    requires forall k :: 0 <= k < |idxs| ==> idxs[k] < |insts| && !IsEnd(insts[idxs[k]])
    ensures !RunBody(env, insts, idxs, w).Ended?
    decreases |idxs|
  {
    hide ExecOne;
    if |idxs| > 0 {
      var inst := insts[idxs[0]].inst;
      assert !IsEnd(insts[idxs[0]]);
      if IsSkipped(inst) {
        BodyNoEnd(env, insts, idxs[1..], w);
      } else if ExecOne(env, w, inst).Some? {
        BodyNoEnd(env, insts, idxs[1..], ExecOne(env, w, inst).value);
      }
    }
  }

  lemma BlockNoEnd(env: Env, insts: seq<Decoded>, g: Graph, bi: nat, w: Wave)
    requires Runnable(insts, g) && bi < |g.blocks| && NoEnd(LiveStream(insts), g, bi)
    ensures !RunBody(env, insts, g.blocks[bi].insts, w).Ended?
  {
    hide Runnable, RunBody, IsEnd;
    BlockInStream(insts, g, bi);
    BodyNoEnd(env, insts, g.blocks[bi].insts, w);
  }

  lemma ArmSafe(env: Env, insts: seq<Decoded>, g: Graph, p: seq<nat>, start: nat, merge: nat, mask: u64, w: Wave)
    requires Runnable(insts, g) && Arm(g, p, start, merge)
    requires forall j :: 0 <= j < |p| - 1 ==> NoEnd(LiveStream(insts), g, p[j])
    ensures var r := RunArm(env, insts, g, start, merge, mask, w); r.Going? || r == Failed(Fault)
  {
    hide Runnable, Region;
    RegionSafe(env, insts, g, p, 0, start, merge, w.(exec := mask));
  }

  // Both arms of a conditional with a merge run to the merge, or an instruction faults.
  lemma DiamondSafe(env: Env, insts: seq<Decoded>, g: Graph, bi: nat, w: Wave)
    requires Runnable(insts, g) && bi < |g.blocks| && MergeTarget(g, bi).Some?
    ensures g.blocks[bi].term.Cond?
    ensures var r := Diamond(env, insts, g, g.blocks[bi].term, MergeTarget(g, bi).value, w);
            r.Going? || r == Failed(Fault)
  {
    hide Runnable, Region, RunArm, MergeTarget, Arm, NoEnd, Accepted;
    ToAccepted(insts, g);
    var pt, pf := Reconvergence(LiveStream(insts), g, bi);
    var term, m := g.blocks[bi].term, MergeTarget(g, bi).value;
    var taken := TakenMask(term.cond, w);
    ArmSafe(env, insts, g, pt, term.taken, m, taken, w);
    var r := RunArm(env, insts, g, term.taken, m, taken, w);
    if r.Going? {
      ArmSafe(env, insts, g, pf, term.fall, m, AndNot(w.exec, taken), r.w);
    }
  }

  // ---- loops --------------------------------------------------------------------------

  predicate LoopFailure(why: Failure) { why == Fault || why == NestedBranch || why == LoopCap }

  lemma {:induction false} LoopBodySafe(env: Env, insts: seq<Decoded>, g: Graph, cur: nat, back: nat, steps: nat, w: Wave)
    requires Runnable(insts, g) && BlockIndexAt(g, cur).Some? && steps <= BlockIndexAt(g, cur).value
    requires steps <= VisitCapOf(g)
    ensures var r := LoopBody(env, insts, g, cur, back, steps, w); r.Failed? ==> LoopFailure(r.why)
    decreases VisitCapOf(g) - steps
  {
    hide Runnable, RunBody;
    var bi := BlockIndexAt(g, cur).value;
    BlockFailure(env, insts, g, bi, w);
    var r := RunBody(env, insts, g.blocks[bi].insts, w);
    if r.Going? && cur != back && Unconditional(g.blocks[bi].term) {
      UncondIndex(insts, g, bi);
      LoopBodySafe(env, insts, g, g.blocks[bi].term.target, back, steps + 1, r.w);
    }
  }

  lemma {:induction false} LoopSafe(env: Env, insts: seq<Decoded>, g: Graph, li: LoopInfo, saved: u64, iters: nat, w: Wave)
    requires Runnable(insts, g) && BlockIndexAt(g, li.header).Some? && iters <= LOOP_ITER_CAP
    ensures var r := Loop(env, insts, g, li, saved, iters, w); r.Failed? ==> LoopFailure(r.why)
    decreases LOOP_ITER_CAP - iters
  {
    hide Runnable, LoopBody;
    var mask := ContinueMask(li.cond, w);
    if mask != 0 && iters < LOOP_ITER_CAP {
      LoopBodySafe(env, insts, g, li.header, li.backEdgeBlock, 0, w.(exec := mask));
      var r := LoopBody(env, insts, g, li.header, li.backEdgeBlock, 0, w.(exec := mask));
      if r.Going? {
        LoopSafe(env, insts, g, li, saved, iters + 1, r.w);
      }
    }
  }

  // ---- the whole walk --------------------------------------------------------------------

  // What can stop a walk of an accepted graph: an instruction fault, a conditional whose arms
  // never meet, or a loop that iterates too long or whose body is not straight-line.
  predicate LegalFailure(why: Failure) { LoopFailure(why) || why == NoMerge }

  // Leaving a block leads to a later block.
  lemma LeaveSafe(env: Env, insts: seq<Decoded>, g: Graph, bi: nat, w: Wave)
    requires Runnable(insts, g) && bi < |g.blocks|
    ensures var n := Leave(env, insts, g, bi, w);
            && (n.Stuck? ==> LegalFailure(n.why))
            && (n.Goto? ==> BlockIndexAt(g, n.leader).Some? && BlockIndexAt(g, n.leader).value > bi)
  {
    hide Runnable, Diamond, Loop, MergeTarget, BlockIndexAt, Accepted;
    ToAccepted(insts, g);
    var b := g.blocks[bi];
    match b.term
    case Return =>
    case Fallthrough(_) => UncondIndex(insts, g, bi);
    case Branch(_) => UncondIndex(insts, g, bi);
    case Cond(_, taken, fall) =>
      CondForward(insts, g, bi);
      if LoopOf(g, bi).Some? {
        LoopSafe(env, insts, g, LoopOf(g, bi).value, w.exec, 0, w);
      } else if MergeTarget(g, bi).Some? {
        DiamondSafe(env, insts, g, bi, w);
        MergeForward(insts, g, bi);
      }
  }

  lemma CondForward(insts: seq<Decoded>, g: Graph, bi: nat)
    requires Runnable(insts, g) && bi < |g.blocks| && g.blocks[bi].term.Cond?
    ensures var t := g.blocks[bi].term;
            && BlockIndexAt(g, t.taken).Some? && BlockIndexAt(g, t.fall).Some?
            && BlockIndexAt(g, t.fall).value > bi
            && (LoopOf(g, bi).None? ==> BlockIndexAt(g, t.taken).value > bi)
            && t.fall != USIZE_MAX
  {
    hide Runnable, Accepted;
    ToAccepted(insts, g);
    var t := g.blocks[bi].term;
    assert HasTarget(t, t.taken) && HasTarget(t, t.fall);
    EdgesLandForward(LiveStream(insts), g, bi, t.taken);
    FallLands(LiveStream(insts), g, bi);
    AcceptedBasics(LiveStream(insts), g);
    StartsAscend(LiveStream(insts), g, bi, bi + 1);
    ForwardIndex(insts, g, bi, t.fall);
    if LoopOf(g, bi).None? {
      ForwardIndex(insts, g, bi, t.taken);
    }
  }

  // The merge of a forward conditional is a leader after it.
  lemma MergeForward(insts: seq<Decoded>, g: Graph, bi: nat)
    requires Runnable(insts, g) && bi < |g.blocks| && MergeTarget(g, bi).Some?
    ensures var m := MergeTarget(g, bi).value; BlockIndexAt(g, m).Some? && BlockIndexAt(g, m).value > bi
  {
    hide Runnable, MergeTarget, NoEnd, Accepted;
    ToAccepted(insts, g);
    var pt, pf := Reconvergence(LiveStream(insts), g, bi);
    CondForward(insts, g, bi);
    IndexOfStart(insts, g, pf[0]);
    IndexOfStart(insts, g, pf[|pf| - 1]);
  }

  lemma {:induction false} WalkFromSafe(env: Env, insts: seq<Decoded>, g: Graph, start: nat, visits: nat, w: Wave)
    requires Runnable(insts, g) && BlockIndexAt(g, start).Some? && visits <= BlockIndexAt(g, start).value
    requires visits <= VisitCapOf(g)
    ensures var r := WalkFrom(env, insts, g, start, visits, w); !r.Going? && (r.Failed? ==> LegalFailure(r.why))
    decreases VisitCapOf(g) - visits
  {
    hide Runnable, RunBody, Leave, BlockIndexAt;
    var bi := BlockIndexAt(g, start).value;
    BlockFailure(env, insts, g, bi, w);
    var r := RunBody(env, insts, g.blocks[bi].insts, w);
    if r.Going? {
      LeaveSafe(env, insts, g, bi, r.w);
      var n := Leave(env, insts, g, bi, r.w);
      if n.Goto? {
        WalkFromSafe(env, insts, g, n.leader, visits + 1, n.w);
      }
    }
  }

  // The acyclic visit caps never fire and every leader and instruction the walk looks up
  // exists, for every accepted graph, environment and launch state.
  lemma CapsAreDead(env: Env, insts: seq<Decoded>, g: Graph, w: Wave)
    requires Runnable(insts, g)
    ensures var r := WalkGraph(env, insts, g, w); r.Ended? || (r.Failed? && LegalFailure(r.why))
  {
    hide Runnable;
    if |g.blocks| > 0 {
      IndexOfStart(insts, g, 0);
      WalkFromSafe(env, insts, g, g.blocks[0].start, 0, w);
    }
  }
}
