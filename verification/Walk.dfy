// The oracle's walk of a control-flow graph: blocks run under the current EXEC, a forward
// conditional narrows EXEC per arm and restores it at the merge, and a loop drops lanes from
// EXEC as they fail the continue test.

module Walk {
  import opened Words
  import opened Bits
  import opened Isa
  import opened Wavefront
  import opened Cfg
  import opened Merge
  import opened Faults

  // Why a walk stopped with an error. The interpreter reports all but `Fault` as the same
  // unsupported-instruction error, and a missing leader or instruction would be a panic.
  datatype Failure = Fault | VisitCap | LoopCap | NestedBranch | NoMerge | MissingLeader

  // `Going` continues, `Ended` met an `s_endpgm`.
  datatype Outcome = Going(w: Wave) | Ended(w: Wave) | Failed(why: Failure)

  const LOOP_ITER_CAP: nat := 0x1_0000

  function VisitCapOf(g: Graph): nat {
    if 4 * |g.blocks| > 16 then 4 * |g.blocks| else 16
  }

  predicate IsSopp(inst: Inst, op: u16) { inst.Sopp? && inst.op == op }

  predicate IsCfgBranch(inst: Inst) {
    inst.Sopp? && inst.op in {S_BRANCH, S_CBRANCH_SCC0, S_CBRANCH_SCC1, S_CBRANCH_VCCZ,
                              S_CBRANCH_VCCNZ, S_CBRANCH_EXECZ, S_CBRANCH_EXECNZ}
  }

  // Filler and the block's own branch change nothing.
  predicate IsSkipped(inst: Inst) {
    IsSopp(inst, S_WAITCNT) || IsSopp(inst, S_NOP) || IsCfgBranch(inst)
  }

  // The instructions listed in `idxs`, in order.
  function RunBody(env: Env, insts: seq<Decoded>, idxs: seq<nat>, w: Wave): Outcome {
    if |idxs| == 0 then Going(w)
    else if idxs[0] >= |insts| then Failed(MissingLeader)
    else
      var inst := insts[idxs[0]].inst;
      if IsSopp(inst, S_ENDPGM) then Ended(w)
      else if IsSkipped(inst) then RunBody(env, insts, idxs[1..], w)
      else
        match ExecOne(env, w, inst)
        case Some(w') => RunBody(env, insts, idxs[1..], w')
        case None => Failed(Fault)
  }

  // An arm: blocks from `cur` along unconditional edges until `stop`.
  function Region(env: Env, insts: seq<Decoded>, g: Graph, cur: nat, stop: nat, steps: nat, w: Wave): Outcome
    requires steps <= VisitCapOf(g)
    decreases VisitCapOf(g) - steps
  {
    if cur == stop then Going(w)
    else if steps == VisitCapOf(g) then Failed(VisitCap)
    else if BlockIndexAt(g, cur).None? then Failed(MissingLeader)
    else
      var b := g.blocks[BlockIndexAt(g, cur).value];
      var r := RunBody(env, insts, b.insts, w);
      if !r.Going? then r
      else if b.term.Fallthrough? || b.term.Branch? then
        Region(env, insts, g, b.term.target, stop, steps + 1, r.w)
      else Failed(NestedBranch)
  }

  // One iteration: blocks from the header up to and including the back-edge block.
  function LoopBody(env: Env, insts: seq<Decoded>, g: Graph, cur: nat, back: nat, steps: nat, w: Wave): Outcome
    requires steps <= VisitCapOf(g)
    decreases VisitCapOf(g) - steps
  {
    if steps == VisitCapOf(g) then Failed(VisitCap)
    else if BlockIndexAt(g, cur).None? then Failed(MissingLeader)
    else
      var b := g.blocks[BlockIndexAt(g, cur).value];
      var r := RunBody(env, insts, b.insts, w);
      if !r.Going? || cur == back then r
      else if b.term.Fallthrough? || b.term.Branch? then
        LoopBody(env, insts, g, b.term.target, back, steps + 1, r.w)
      else Failed(NestedBranch)
  }

  // The live lanes that take the back-edge.
  function ContinueMask(cond: BranchCond, w: Wave): u64 {
    match cond
    case Vccnz => And(w.exec, w.vcc)
    case Vccz => AndNot(w.exec, w.vcc)
    case Execnz => w.exec
    case Execz => 0
  }

  // Iterate until no live lane continues, then restore the EXEC saved on entry.
  function Loop(env: Env, insts: seq<Decoded>, g: Graph, li: LoopInfo, saved: u64, iters: nat, w: Wave): Outcome
    requires iters <= LOOP_ITER_CAP
    decreases LOOP_ITER_CAP - iters
  {
    var mask := ContinueMask(li.cond, w);
    if mask == 0 then Going(w.(exec := saved))
    else if iters == LOOP_ITER_CAP then Failed(LoopCap)
    else
      match LoopBody(env, insts, g, li.header, li.backEdgeBlock, 0, w.(exec := mask))
      case Going(w') => Loop(env, insts, g, li, saved, iters + 1, w')
      case Ended(w') => Ended(w'.(exec := saved))
      case Failed(why) => Failed(why)
  }

  // The lanes of the current EXEC that go to the taken arm.
  function TakenMask(cond: BranchCond, w: Wave): u64 {
    match cond
    case Vccz => AndNot(w.exec, w.vcc)
    case Vccnz => And(w.exec, w.vcc)
    case Execz => if w.exec == 0 then w.exec else 0
    case Execnz => if w.exec != 0 then w.exec else 0
  }

  // One arm under its mask; an empty arm, or one no lane takes, runs nothing.
  function RunArm(env: Env, insts: seq<Decoded>, g: Graph, start: nat, merge: nat, mask: u64, w: Wave): Outcome {
    if start != merge && mask != 0 then Region(env, insts, g, start, merge, 0, w.(exec := mask))
    else Going(w)
  }

  // The taken arm, then the fall arm, then the whole EXEC again.
  function Diamond(env: Env, insts: seq<Decoded>, g: Graph, term: Terminator, merge: nat, w: Wave): Outcome
    requires term.Cond?
  {
    var taken := TakenMask(term.cond, w);
    var r := RunArm(env, insts, g, term.taken, merge, taken, w);
    if !r.Going? then r
    else
      var r2 := RunArm(env, insts, g, term.fall, merge, AndNot(w.exec, taken), r.w);
      if !r2.Going? then r2 else Going(r2.w.(exec := w.exec))
  }

  // What a block's terminator does after its body: the state and the next leader, if any.
  datatype Next = Goto(w: Wave, leader: nat) | Halt(w: Wave) | Stuck(why: Failure)

  function Leave(env: Env, insts: seq<Decoded>, g: Graph, bi: nat, w: Wave): Next
    requires bi < |g.blocks|
  {
    var b := g.blocks[bi];
    match b.term
    case Return => Halt(w)
    case Fallthrough(target) => Goto(w, target)
    case Branch(target) => Goto(w, target)
    case Cond(_, taken, fall) =>
      if LoopOf(g, bi).Some? then
        match Loop(env, insts, g, LoopOf(g, bi).value, w.exec, 0, w)
        case Going(w') => Goto(w', fall)
        case Ended(w') => Halt(w')
        case Failed(why) => Stuck(why)
      else if fall == USIZE_MAX then Goto(w, taken)
      else if MergeTarget(g, bi).None? then Stuck(NoMerge)
      else
        match Diamond(env, insts, g, b.term, MergeTarget(g, bi).value, w)
        case Going(w') => Goto(w', MergeTarget(g, bi).value)
        case Ended(w') => Halt(w')
        case Failed(why) => Stuck(why)
  }

  // The top-level walk from the leader `start`, `visits` blocks already visited.
  function WalkFrom(env: Env, insts: seq<Decoded>, g: Graph, start: nat, visits: nat, w: Wave): Outcome
    requires visits <= VisitCapOf(g)
    decreases VisitCapOf(g) - visits
  {
    if visits == VisitCapOf(g) then Failed(VisitCap)
    else if BlockIndexAt(g, start).None? then Failed(MissingLeader)
    else
      var bi := BlockIndexAt(g, start).value;
      var r := RunBody(env, insts, g.blocks[bi].insts, w);
      if !r.Going? then r
      else
        match Leave(env, insts, g, bi, r.w)
        case Goto(w', leader) => WalkFrom(env, insts, g, leader, visits + 1, w')
        case Halt(w') => Ended(w')
        case Stuck(why) => Failed(why)
  }

  function WalkGraph(env: Env, insts: seq<Decoded>, g: Graph, w: Wave): Outcome {
    if |g.blocks| == 0 then Ended(w) else WalkFrom(env, insts, g, g.blocks[0].start, 0, w)
  }

  // ---- the interpreter ------------------------------------------------------------------

  datatype Status = Running | Finished | Broken(why: Failure)

  // `Interp` is the interpreter's own shape: it owns the wave's registers and the captured
  // exports, and every method updates them in place.
  class Interp {
    const env: Env
    const insts: seq<Decoded>
    const g: Graph
    var sgprs: SFile
    var vgprs: VFile
    var exec: u64
    var vcc: u64
    var scc: bool
    var m0: u32
    var exports: seq<ExportRecord>

    function State(): Wave
      reads this
    {
      Wave(sgprs, vgprs, exec, vcc, scc, m0, exports)
    }

    // `status` and the interpreter's state are what `o` says; after an error the state is not
    // observable.
    predicate Matches(o: Outcome, status: Status)
      reads this
    {
      match o
      case Going(w) => status == Running && State() == w
      case Ended(w) => status == Finished && State() == w
      case Failed(why) => status == Broken(why)
    }

    constructor (env: Env, insts: seq<Decoded>, g: Graph, w: Wave)
      ensures this.env == env && this.insts == insts && this.g == g && State() == w
    {
      this.env, this.insts, this.g := env, insts, g;
      sgprs, vgprs, exec, vcc := w.sgprs, w.vgprs, w.exec, w.vcc;
      scc, m0, exports := w.scc, w.m0, w.exports;
    }

    method Store(w: Wave)
      modifies this
      ensures State() == w
    {
      sgprs, vgprs, exec, vcc := w.sgprs, w.vgprs, w.exec, w.vcc;
      scc, m0, exports := w.scc, w.m0, w.exports;
    }

    // `set_vgpr` for each of a lane's result words.
    method StoreWords(base: nat, lane: Lane, words: seq<u32>)
      requires base + |words| <= NUM_VGPRS
      modifies this`vgprs
      ensures vgprs == WriteWords(old(vgprs), base, lane, words)
    {
      assert vgprs == WriteWords(old(vgprs), base, lane, words[..0]);
      for i := 0 to |words|
        invariant vgprs == WriteWords(old(vgprs), base, lane, words[..i])
      {
        vgprs := vgprs[base + i := vgprs[base + i][lane := words[i]]];
      }
      assert words[..|words|] == words;
    }

    // `write_predicate_bit`.
    method StoreBit(dst: Operand, lane: Lane, b: bool) returns (ok: bool)
      modifies this`vcc, this`sgprs
      ensures ok <==> WritePredicate(old(State()), dst, lane, b).Some?
      ensures ok ==> State() == WritePredicate(old(State()), dst, lane, b).value
    {
      match dst {
        case Special(VccLo) => vcc := SetBitU64(vcc, lane, b);
        case Special(VccHi) => vcc := SetBitU64(vcc, lane, b);
        case Sgpr(n) =>
          var r := if lane < 32 then n else n + 1;
          var shift := if lane < 32 then lane else lane - 32;
          if r >= NUM_SGPRS {
            return false;
          }
          sgprs := sgprs[r := SetBitU32(sgprs[r], shift, b)];
        case _ => return false;
      }
      ok := true;
    }

    // The 64-lane loop every vector instruction runs, writing in place.
    method ExecLanes(inst: Inst) returns (ok: bool)
      requires IsVector(inst)
      modifies this
      ensures ok <==> LaneLoop(env, old(State()), 0, inst).Some?
      ensures ok ==> State() == LaneLoop(env, old(State()), 0, inst).value
    {
      hide LaneEffect;
      for k := 0 to LANES
        invariant LaneLoop(env, State(), k, inst) == LaneLoop(env, old(State()), 0, inst)
      {
        var lane: Lane := k;
        var dst := BitDst(inst);
        if !Bit(exec, lane) {
          if dst.Some? {
            ok := StoreBit(dst.value, lane, false);
            if !ok {
              return;
            }
          }
        } else {
          var e := LaneEffect(env, State(), lane, inst);
          if e.None? {
            return false;
          }
          if dst.Some? {
            ok := StoreBit(dst.value, lane, e.value.bit);
            if !ok {
              return;
            }
          }
          if e.value.base + |e.value.words| > NUM_VGPRS {
            return false;
          }
          StoreWords(e.value.base, lane, e.value.words);
          exports := exports + e.value.records;
        }
      }
      ok := true;
    }

    method ScalarLoad(inst: Inst) returns (ok: bool)
      requires inst.Smrd?
      modifies this`sgprs
      ensures ok <==> ExecSmrd(env, old(State()), inst).Some?
      ensures ok ==> State() == ExecSmrd(env, old(State()), inst).value
    {
      var words := SmrdWords(env, State(), inst);
      if words.None? || !inst.sdst.Sgpr? || inst.sdst.n + |words.value| > NUM_SGPRS {
        return false;
      }
      var dst0, ws := inst.sdst.n, words.value;
      assert sgprs == WriteSgprs(old(sgprs), dst0, ws[..0]);
      for i := 0 to |ws|
        invariant sgprs == WriteSgprs(old(sgprs), dst0, ws[..i])
      {
        sgprs := sgprs[dst0 + i := ws[i]];
      }
      assert ws[..|ws|] == ws;
      ok := true;
    }

    method Execute(inst: Inst) returns (ok: bool)
      modifies this
      ensures ok <==> Runs(env, old(State()), inst)
      ensures ok <==> ExecOne(env, old(State()), inst).Some?
      ensures ok ==> State() == ExecOne(env, old(State()), inst).value
    {
      hide LaneEffect, LaneLoop, Runs;
      ExecutesIff(env, State(), inst);
      if inst.Sop1? {
        var w := ExecSop1(State(), inst);
        if w.None? {
          return false;
        }
        Store(w.value);
        ok := true;
      } else if inst.Smrd? {
        ok := ScalarLoad(inst);
      } else if IsVector(inst) && Precheck(State(), inst) {
        ok := ExecLanes(inst);
      } else {
        ok := false;
      }
    }

    method RunBlockBody(b: BasicBlock) returns (status: Status)
      modifies this
      ensures Matches(RunBody(env, insts, b.insts, old(State())), status)
    {
      hide ExecOne;
      assert b.insts[0..] == b.insts;
      for i := 0 to |b.insts|
        invariant RunBody(env, insts, b.insts[i..], State()) == RunBody(env, insts, b.insts, old(State()))
      {
        assert b.insts[i..][1..] == b.insts[i + 1..];
        if b.insts[i] >= |insts| {
          return Broken(MissingLeader);
        }
        var inst := insts[b.insts[i]].inst;
        if IsSopp(inst, S_ENDPGM) {
          return Finished;
        }
        if !IsSkipped(inst) {
          var ok := Execute(inst);
          if !ok {
            return Broken(Fault);
          }
        }
      }
      status := Running;
    }

    method RunRegion(start: nat, stop: nat) returns (status: Status)
      modifies this
      ensures Matches(Region(env, insts, g, start, stop, 0, old(State())), status)
    {
      hide RunBody;
      var cur, steps := start, 0;
      while cur != stop
        invariant steps <= VisitCapOf(g)
        invariant Region(env, insts, g, cur, stop, steps, State()) == Region(env, insts, g, start, stop, 0, old(State()))
        decreases VisitCapOf(g) - steps
      {
        if steps == VisitCapOf(g) {
          return Broken(VisitCap);
        }
        steps := steps + 1;
        var bi := BlockIndexAt(g, cur);
        if bi.None? {
          return Broken(MissingLeader);
        }
        var b := g.blocks[bi.value];
        status := RunBlockBody(b);
        if status != Running {
          return;
        }
        match b.term {
          case Fallthrough(target) => cur := target;
          case Branch(target) => cur := target;
          case _ => return Broken(NestedBranch);
        }
      }
      status := Running;
    }

    method RunLoopBody(li: LoopInfo) returns (status: Status)
      modifies this
      ensures Matches(LoopBody(env, insts, g, li.header, li.backEdgeBlock, 0, old(State())), status)
    {
      hide RunBody;
      var cur, steps := li.header, 0;
      while true
        invariant steps <= VisitCapOf(g)
        invariant LoopBody(env, insts, g, cur, li.backEdgeBlock, steps, State())
               == LoopBody(env, insts, g, li.header, li.backEdgeBlock, 0, old(State()))
        decreases VisitCapOf(g) - steps
      {
        if steps == VisitCapOf(g) {
          return Broken(VisitCap);
        }
        steps := steps + 1;
        var bi := BlockIndexAt(g, cur);
        if bi.None? {
          return Broken(MissingLeader);
        }
        var b := g.blocks[bi.value];
        status := RunBlockBody(b);
        if status != Running || cur == li.backEdgeBlock {
          return;
        }
        match b.term {
          case Fallthrough(target) => cur := target;
          case Branch(target) => cur := target;
          case _ => return Broken(NestedBranch);
        }
      }
    }

    method RunLoop(li: LoopInfo) returns (status: Status)
      modifies this
      ensures Matches(Loop(env, insts, g, li, old(exec), 0, old(State())), status)
    {
      hide LoopBody;
      var saved := exec;
      var iters := 0;
      while true
        invariant iters <= LOOP_ITER_CAP
        invariant Loop(env, insts, g, li, saved, iters, State()) == Loop(env, insts, g, li, saved, 0, old(State()))
        decreases LOOP_ITER_CAP - iters
      {
        var mask := ContinueMask(li.cond, State());
        if mask == 0 {
          exec := saved;
          return Running;
        }
        if iters == LOOP_ITER_CAP {
          exec := saved;
          return Broken(LoopCap);
        }
        iters := iters + 1;
        exec := mask;
        status := RunLoopBody(li);
        if status == Finished {
          exec := saved;
          return;
        }
        if status != Running {
          return;
        }
      }
    }

    method RunDiamond(term: Terminator, merge: nat) returns (status: Status)
      requires term.Cond?
      modifies this
      ensures Matches(Diamond(env, insts, g, term, merge, old(State())), status)
    {
      hide Region;
      var saved := exec;
      var takenMask := TakenMask(term.cond, State());
      var fallMask: u64 := AndNot(saved, takenMask);
      if term.taken != merge && takenMask != 0 {
        exec := takenMask;
        status := RunRegion(term.taken, merge);
        if status != Running {
          return;
        }
      }
      if term.fall != merge && fallMask != 0 {
        exec := fallMask;
        status := RunRegion(term.fall, merge);
        if status != Running {
          return;
        }
      }
      exec := saved;
      status := Running;
    }

    // Walks the whole graph from its first block.
    method ExecuteCfg() returns (status: Status)
      modifies this
      ensures status != Running
      ensures Matches(WalkGraph(env, insts, g, old(State())), status)
    {
      if |g.blocks| == 0 {
        return Finished;
      }
      var cur, visits := g.blocks[0].start, 0;
      while true
        invariant visits <= VisitCapOf(g)
        invariant WalkFrom(env, insts, g, cur, visits, State()) == WalkGraph(env, insts, g, old(State()))
        decreases VisitCapOf(g) - visits
      {
        if visits == VisitCapOf(g) {
          return Broken(VisitCap);
        }
        visits := visits + 1;
        var bi := BlockIndexAt(g, cur);
        if bi.None? {
          return Broken(MissingLeader);
        }
        status := RunBlockBody(g.blocks[bi.value]);
        if status != Running {
          return;
        }
        var next;
        status, next := FollowTerminator(bi.value);
        if status != Running {
          return;
        }
        cur := next;
      }
    }

    method FollowTerminator(bi: nat) returns (status: Status, next: nat)
      requires bi < |g.blocks|
      modifies this
      ensures match Leave(env, insts, g, bi, old(State()))
              case Goto(w, leader) => status == Running && next == leader && State() == w
              case Halt(w) => status == Finished && State() == w
              case Stuck(why) => status == Broken(why)
    {
      hide Loop, Diamond, MergeTarget;
      next := 0;
      match g.blocks[bi].term {
        case Return => status := Finished;
        case Fallthrough(target) => status, next := Running, target;
        case Branch(target) => status, next := Running, target;
        case Cond(_, taken, fall) =>
          if LoopOf(g, bi).Some? {
            status := RunLoop(LoopOf(g, bi).value);
            next := fall;
          } else if fall == USIZE_MAX {
            status, next := Running, taken;
          } else {
            var merge := FindMerge(g, bi);
            if merge.None? {
              return Broken(NoMerge), 0;
            }
            status := RunDiamond(g.blocks[bi].term, merge.value);
            next := merge.value;
          }
      }
    }
  }
}
