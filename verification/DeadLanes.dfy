// A lane that is not in EXEC at launch takes no part in the run: whatever the stream, the graph and
// the environment, its registers and its exports stay as they were.

module DeadLanes {
  import opened Words
  import opened Bits
  import opened Isa
  import opened Wavefront
  import opened LaneLoops
  import opened Cfg
  import opened Merge
  import opened Walk
  import opened WalkTrace
  import opened LaneView

  // `lane` is dead in `w'`, and sees there what it saw in `w`.
  ghost predicate Untouched(w: Wave, w': Wave, lane: Lane) {
    && !LaneLive(w', lane)
    && (forall r: nat :: r < NUM_VGPRS ==> Word(w', r, lane) == Word(w, r, lane))
    && Mine(w'.exports, lane) == Mine(w.exports, lane)
  }

  lemma UntouchedTrans(a: Wave, b: Wave, c: Wave, lane: Lane)
    requires Untouched(a, b, lane) && Untouched(b, c, lane)
    ensures Untouched(a, c, lane)
  {
    hide Bit, Mine;
    forall r: nat | r < NUM_VGPRS ensures Word(c, r, lane) == Word(a, r, lane) {
      assert Word(b, r, lane) == Word(a, r, lane);
    }
  }

  // Narrowing or restoring EXEC among masks without the lane changes nothing it sees.
  lemma MaskUntouched(w: Wave, w': Wave, mask: u64, lane: Lane)
    requires Untouched(w, w', lane) && !Bit(mask, lane)
    ensures Untouched(w, w'.(exec := mask), lane)
  {
    hide Bit, Mine;
    var n := w'.(exec := mask);
    forall r: nat | r < NUM_VGPRS ensures Word(n, r, lane) == Word(w, r, lane) {
      assert Word(w', r, lane) == Word(w, r, lane);
    }
  }

  // Another lane's turn, or the lane's own dead turn.
  lemma TurnUntouched(env: Env, w: Wave, k: Lane, inst: Inst, lane: Lane)
    requires IsVector(inst) && !LaneLive(w, lane) && LaneTurn(env, w, k, inst).Some?
    ensures Untouched(w, LaneTurn(env, w, k, inst).value, lane)
  {
    hide Bit, LaneEffect, Mine;
    var w' := LaneTurn(env, w, k, inst).value;
    PredicateOnly(w, inst, k, if LaneLive(w, k) then LaneEffect(env, w, k, inst).value.bit else false);
    hide WriteBitIfAny;
    if LaneLive(w, k) {
      var e := LaneEffect(env, w, k, inst).value;
      TurnExports(env, w, k, inst);
      MineAll(e.records, lane, k);
      MineConcat(w.exports, e.records, lane);
      assert Mine(w.exports, lane) + [] == Mine(w.exports, lane);
      OtherLaneWords(w.vgprs, e.base, k, e.words, lane);
    }
  }

  lemma PredicateOnly(w: Wave, inst: Inst, k: Lane, b: bool)
    ensures var r := WriteBitIfAny(w, inst, k, b);
            r.Some? ==> r.value.exec == w.exec && r.value.vgprs == w.vgprs && r.value.exports == w.exports
  {
    hide SetBit;
  }

  lemma OtherLaneWords(v: VFile, base: nat, k: Lane, words: seq<u32>, lane: Lane)
    requires k != lane
    ensures forall r: nat :: r < NUM_VGPRS ==> WriteWords(v, base, k, words)[r][lane] == v[r][lane]
  {
  }

  lemma TurnExports(env: Env, w: Wave, k: Lane, inst: Inst)
    requires IsVector(inst) && LaneLive(w, k) && LaneEffect(env, w, k, inst).Some?
    ensures forall i :: 0 <= i < |LaneEffect(env, w, k, inst).value.records| ==>
              LaneEffect(env, w, k, inst).value.records[i].lane == k
  {
    hide LaneEffect, Bit;
    RecordsAreOwn(env, w, k, inst);
    var e := EffectOf(env, w, k, inst);
    assert e == LaneEffect(env, w, k, inst).value;
    forall i | 0 <= i < |e.records| ensures e.records[i].lane == k {
      assert EffectOf(env, w, k, inst).records[i].lane == k;
    }
  }

  lemma {:induction false} LanesUntouched(env: Env, w: Wave, k: nat, inst: Inst, lane: Lane)
    requires IsVector(inst) && k <= LANES && !LaneLive(w, lane) && LaneLoop(env, w, k, inst).Some?
    ensures Untouched(w, LaneLoop(env, w, k, inst).value, lane)
    decreases LANES - k
  {
    hide LaneTurn, Bit, Mine;
    if k < LANES {
      var w1 := LaneTurn(env, w, k, inst).value;
      TurnUntouched(env, w, k, inst, lane);
      LanesUntouched(env, w1, k + 1, inst, lane);
      UntouchedTrans(w, w1, LaneLoop(env, w1, k + 1, inst).value, lane);
    }
  }

  lemma StepUntouched(env: Env, w: Wave, inst: Inst, lane: Lane)
    requires !WritesExec(inst) && !LaneLive(w, lane) && ExecOne(env, w, inst).Some?
    ensures Untouched(w, ExecOne(env, w, inst).value, lane)
  {
    hide Bit, Mine, LaneLoop, ReadScalar, ReadScalarPair, SmrdWords, WriteSgprs;
    if IsVector(inst) {
      LanesUntouched(env, w, 0, inst, lane);
    }
  }

  ghost predicate OutcomeUntouched(w: Wave, o: Outcome, lane: Lane) {
    o.Failed? || Untouched(w, o.w, lane)
  }

  lemma {:induction false} BodyUntouched(env: Env, insts: seq<Decoded>, idxs: seq<nat>, w0: Wave, w: Wave, lane: Lane)
    requires BodyWritesNoExec(insts, idxs) && Untouched(w0, w, lane)
    ensures OutcomeUntouched(w0, RunBody(env, insts, idxs, w), lane)
    decreases |idxs|
  {
    hide ExecOne, Untouched;
    if |idxs| > 0 && idxs[0] < |insts| {
      var inst := insts[idxs[0]].inst;
      if IsSkipped(inst) {
        BodyUntouched(env, insts, idxs[1..], w0, w, lane);
      } else if ExecOne(env, w, inst).Some? {
        DeadOf(w0, w, lane);
        StepUntouched(env, w, inst, lane);
        UntouchedTrans(w0, w, ExecOne(env, w, inst).value, lane);
        BodyUntouched(env, insts, idxs[1..], w0, ExecOne(env, w, inst).value, lane);
      }
    }
  }

  lemma DeadOf(w0: Wave, w: Wave, lane: Lane)
    requires Untouched(w0, w, lane)
    ensures !LaneLive(w, lane)
  {
  }

  lemma {:induction false} RegionUntouched(env: Env, insts: seq<Decoded>, g: Graph, cur: nat, stop: nat, steps: nat,
                                           w0: Wave, w: Wave, lane: Lane)
    requires NoExecWrites(insts, g) && steps <= VisitCapOf(g) && Untouched(w0, w, lane)
    ensures OutcomeUntouched(w0, Region(env, insts, g, cur, stop, steps, w), lane)
    decreases VisitCapOf(g) - steps
  {
    hide RunBody, Untouched, NoExecWrites;
    if cur != stop && steps < VisitCapOf(g) && BlockIndexAt(g, cur).Some? {
      var b := g.blocks[BlockIndexAt(g, cur).value];
      BlockWritesNoExec(insts, g, BlockIndexAt(g, cur).value);
      BodyUntouched(env, insts, b.insts, w0, w, lane);
      var r := RunBody(env, insts, b.insts, w);
      if r.Going? && (b.term.Fallthrough? || b.term.Branch?) {
        RegionUntouched(env, insts, g, b.term.target, stop, steps + 1, w0, r.w, lane);
      }
    }
  }

  lemma {:induction false} LoopBodyUntouched(env: Env, insts: seq<Decoded>, g: Graph, cur: nat, back: nat, steps: nat,
                                             w0: Wave, w: Wave, lane: Lane)
    requires NoExecWrites(insts, g) && steps <= VisitCapOf(g) && Untouched(w0, w, lane)
    ensures OutcomeUntouched(w0, LoopBody(env, insts, g, cur, back, steps, w), lane)
    decreases VisitCapOf(g) - steps
  {
    hide RunBody, Untouched, NoExecWrites;
    if steps < VisitCapOf(g) && BlockIndexAt(g, cur).Some? {
      var b := g.blocks[BlockIndexAt(g, cur).value];
      BlockWritesNoExec(insts, g, BlockIndexAt(g, cur).value);
      BodyUntouched(env, insts, b.insts, w0, w, lane);
      var r := RunBody(env, insts, b.insts, w);
      if r.Going? && cur != back && (b.term.Fallthrough? || b.term.Branch?) {
        LoopBodyUntouched(env, insts, g, b.term.target, back, steps + 1, w0, r.w, lane);
      }
    }
  }

  // The masks the walk puts in EXEC are subsets of the EXEC it found.
  lemma MasksAreSubsets(cond: BranchCond, w: Wave, lane: Lane)
    requires !LaneLive(w, lane)
    ensures !Bit(ContinueMask(cond, w), lane) && !Bit(TakenMask(cond, w), lane)
    ensures !Bit(AndNot(w.exec, TakenMask(cond, w)), lane)
  {
    hide Bit, And, AndNot;
    BitOfAnd(w.exec, w.vcc, lane);
    BitOfAndNot(w.exec, w.vcc, lane);
    ZeroBits(lane);
    BitOfAndNot(w.exec, TakenMask(cond, w), lane);
  }

  lemma {:induction false} LoopUntouched(env: Env, insts: seq<Decoded>, g: Graph, li: LoopInfo, saved: u64, iters: nat,
                                         w0: Wave, w: Wave, lane: Lane)
    requires NoExecWrites(insts, g) && iters <= LOOP_ITER_CAP && Untouched(w0, w, lane) && !Bit(saved, lane)
    ensures OutcomeUntouched(w0, Loop(env, insts, g, li, saved, iters, w), lane)
    decreases LOOP_ITER_CAP - iters
  {
    hide LoopBody, ContinueMask, Untouched, NoExecWrites, Bit;
    var mask := ContinueMask(li.cond, w);
    DeadOf(w0, w, lane);
    MasksAreSubsets(li.cond, w, lane);
    MaskUntouched(w0, w, mask, lane);
    MaskUntouched(w0, w, saved, lane);
    if mask != 0 && iters < LOOP_ITER_CAP {
      LoopBodyUntouched(env, insts, g, li.header, li.backEdgeBlock, 0, w0, w.(exec := mask), lane);
      var r := LoopBody(env, insts, g, li.header, li.backEdgeBlock, 0, w.(exec := mask));
      match r
      case Going(w') => LoopUntouched(env, insts, g, li, saved, iters + 1, w0, w', lane);
      case Ended(w') => MaskUntouched(w0, w', saved, lane);
      case Failed(_) =>
    }
  }

  lemma ArmUntouched(env: Env, insts: seq<Decoded>, g: Graph, start: nat, merge: nat, mask: u64, w0: Wave, w: Wave, lane: Lane)
    requires NoExecWrites(insts, g) && Untouched(w0, w, lane) && !Bit(mask, lane)
    ensures OutcomeUntouched(w0, RunArm(env, insts, g, start, merge, mask, w), lane)
  {
    hide Region, Untouched, NoExecWrites, Bit;
    if start != merge && mask != 0 {
      MaskUntouched(w0, w, mask, lane);
      RegionUntouched(env, insts, g, start, merge, 0, w0, w.(exec := mask), lane);
    }
  }

  lemma DiamondUntouched(env: Env, insts: seq<Decoded>, g: Graph, term: Terminator, merge: nat, w0: Wave, w: Wave, lane: Lane)
    requires NoExecWrites(insts, g) && term.Cond? && Untouched(w0, w, lane)
    ensures OutcomeUntouched(w0, Diamond(env, insts, g, term, merge, w), lane)
  {
    hide RunArm, TakenMask, Untouched, NoExecWrites, Bit, AndNot;
    var taken := TakenMask(term.cond, w);
    DeadOf(w0, w, lane);
    MasksAreSubsets(term.cond, w, lane);
    ArmUntouched(env, insts, g, term.taken, merge, taken, w0, w, lane);
    var r := RunArm(env, insts, g, term.taken, merge, taken, w);
    if r.Going? {
      ArmUntouched(env, insts, g, term.fall, merge, AndNot(w.exec, taken), w0, r.w, lane);
      var r2 := RunArm(env, insts, g, term.fall, merge, AndNot(w.exec, taken), r.w);
      if r2.Going? { MaskUntouched(w0, r2.w, w.exec, lane); }
    }
  }

  lemma LeaveUntouched(env: Env, insts: seq<Decoded>, g: Graph, bi: nat, w0: Wave, w: Wave, lane: Lane)
    requires NoExecWrites(insts, g) && bi < |g.blocks| && Untouched(w0, w, lane)
    ensures var n := Leave(env, insts, g, bi, w); n.Stuck? || Untouched(w0, n.w, lane)
  {
    hide Loop, Diamond, MergeTarget, Untouched, NoExecWrites, Bit;
    DeadOf(w0, w, lane);
    var b := g.blocks[bi];
    if b.term.Cond? {
      if LoopOf(g, bi).Some? {
        LoopUntouched(env, insts, g, LoopOf(g, bi).value, w.exec, 0, w0, w, lane);
      } else if MergeTarget(g, bi).Some? {
        DiamondUntouched(env, insts, g, b.term, MergeTarget(g, bi).value, w0, w, lane);
      }
    }
  }

  lemma {:induction false} WalkFromUntouched(env: Env, insts: seq<Decoded>, g: Graph, start: nat, visits: nat,
                                             w0: Wave, w: Wave, lane: Lane)
    requires NoExecWrites(insts, g) && visits <= VisitCapOf(g) && Untouched(w0, w, lane)
    ensures OutcomeUntouched(w0, WalkFrom(env, insts, g, start, visits, w), lane)
    decreases VisitCapOf(g) - visits
  {
    hide RunBody, Leave, Untouched, NoExecWrites;
    if visits < VisitCapOf(g) && BlockIndexAt(g, start).Some? {
      var bi := BlockIndexAt(g, start).value;
      BlockWritesNoExec(insts, g, bi);
      BodyUntouched(env, insts, g.blocks[bi].insts, w0, w, lane);
      var r := RunBody(env, insts, g.blocks[bi].insts, w);
      if r.Going? {
        LeaveUntouched(env, insts, g, bi, w0, r.w, lane);
        var n := Leave(env, insts, g, bi, r.w);
        if n.Goto? {
          WalkFromUntouched(env, insts, g, n.leader, visits + 1, w0, n.w, lane);
        }
      }
    }
  }

  // Over the whole walk, a lane outside the launch mask keeps every vector register and captures
  // no export, as long as no instruction of a block writes EXEC.
  lemma DeadLanesStayDead(env: Env, insts: seq<Decoded>, g: Graph, w: Wave, lane: Lane)
    requires NoExecWrites(insts, g) && !LaneLive(w, lane)
    ensures OutcomeUntouched(w, WalkGraph(env, insts, g, w), lane)
  {
    hide WalkFrom;
    if |g.blocks| > 0 {
      WalkFromUntouched(env, insts, g, g.blocks[0].start, 0, w, w, lane);
    }
  }
}
