// The control-flow graph of a decoded shader: leaders, basic blocks, terminators, and the
// check that any back-edge closes the one loop shape the interpreter can walk.

module Cfg {
  import opened Words
  import opened Isa

  datatype BranchCond = Vccz | Vccnz | Execz | Execnz

  // How a block leaves; targets are leader dword offsets.
  datatype Terminator =
    | Fallthrough(target: nat)
    | Branch(target: nat)
    | Cond(cond: BranchCond, taken: nat, fall: nat)
    | Return

  datatype BasicBlock = BasicBlock(start: nat, insts: seq<nat>, term: Terminator)

  datatype Graph = Graph(blocks: seq<BasicBlock>)

  datatype CfgError =
    | IrreducibleLoop(branchOff: nat, target: nat)
    | TargetOutOfRange(branchOff: nat, target: nat)
    | UnsupportedCondBranch(branchOff: nat, op: u16)

  datatype Result<+T, +E> = Ok(value: T) | Err(error: E)

  const USIZE_MAX: nat := 0xFFFF_FFFF_FFFF_FFFF

  // Dword target of a branch: the next instruction plus the signed 16-bit displacement.
  function BranchTarget(offset: u32, size: u32, simm16: u16): int {
    var disp: int := if simm16 < 0x8000 then simm16 else simm16 - 0x1_0000;
    var at: int, len: int := offset, size;
    at + len + disp
  }

  datatype TermKind = End | Uncond(target: int) | CondBranch(op: u16, cond: Option<BranchCond>, target: int)

  function Classify(d: Decoded): Option<TermKind> {
    if !d.inst.Sopp? then None
    else
      var op, target := d.inst.op, BranchTarget(d.offset, d.size, d.inst.simm16);
      if op == S_ENDPGM then Some(End)
      else if op == S_BRANCH then Some(Uncond(target))
      else if op == S_CBRANCH_VCCZ then Some(CondBranch(op, Some(Vccz), target))
      else if op == S_CBRANCH_VCCNZ then Some(CondBranch(op, Some(Vccnz), target))
      else if op == S_CBRANCH_EXECZ then Some(CondBranch(op, Some(Execz), target))
      else if op == S_CBRANCH_EXECNZ then Some(CondBranch(op, Some(Execnz), target))
      else if op == S_CBRANCH_SCC0 || op == S_CBRANCH_SCC1 then Some(CondBranch(op, None, target))
      else None
  }

  predicate IsBranch(d: Decoded) {
    Classify(d).Some? && !Classify(d).value.End?
  }

  function TargetOf(d: Decoded): int
    requires IsBranch(d)
  {
    Classify(d).value.target
  }

  predicate IsEnd(d: Decoded) { Classify(d) == Some(End) }

  ghost predicate Increasing(ds: seq<Decoded>) {
    forall i, j :: 0 <= i < j < |ds| ==> ds[i].offset < ds[j].offset
  }

  // First index at or after `i` holding an `s_endpgm`, or the length.
  function FirstEnd(ds: seq<Decoded>, i: nat): (r: nat)
    requires i <= |ds|
    ensures i <= r <= |ds|
    ensures forall k :: i <= k < r ==> !IsEnd(ds[k])
    ensures r < |ds| ==> IsEnd(ds[r])
    decreases |ds| - i
  {
    if i == |ds| || IsEnd(ds[i]) then i else FirstEnd(ds, i + 1)
  }

  // The stream up to and including its first `s_endpgm`.
  function LiveStream(ds: seq<Decoded>): seq<Decoded> {
    var e := FirstEnd(ds, 0);
    ds[..if e < |ds| then e + 1 else e]
  }

  function IndexOfOffset(ds: seq<Decoded>, off: int, i: nat): (r: Option<nat>)
    requires i <= |ds|
    ensures r.Some? ==> i <= r.value < |ds| && ds[r.value].offset == off
    ensures r.None? ==> forall k :: i <= k < |ds| ==> ds[k].offset != off
    decreases |ds| - i
  {
    if i == |ds| then None
    else if ds[i].offset == off then Some(i)
    else IndexOfOffset(ds, off, i + 1)
  }

  // ---- graph queries ------------------------------------------------------------------

  function BlockIndexAt(g: Graph, start: nat, i: nat := 0): (r: Option<nat>)
    requires i <= |g.blocks|
    ensures r.Some? ==> i <= r.value < |g.blocks| && g.blocks[r.value].start == start
    ensures r.None? ==> forall k :: i <= k < |g.blocks| ==> g.blocks[k].start != start
    decreases |g.blocks| - i
  {
    if i == |g.blocks| then None
    else if g.blocks[i].start == start then Some(i)
    else BlockIndexAt(g, start, i + 1)
  }

  ghost predicate IsLeader(g: Graph, start: nat) {
    exists k :: 0 <= k < |g.blocks| && g.blocks[k].start == start
  }

  function UncondSucc(g: Graph, bi: nat): (r: Option<nat>)
    requires bi < |g.blocks|
    ensures r.Some? ==> r.value < |g.blocks|
  {
    match g.blocks[bi].term
    case Fallthrough(target) => BlockIndexAt(g, target)
    case Branch(target) => BlockIndexAt(g, target)
    case _ => None
  }

  datatype LoopInfo = LoopInfo(header: nat, backEdgeBlock: nat, merge: nat, cond: BranchCond)

  // The loop the block's back-edge closes: a conditional whose taken arm is not forward.
  function LoopOf(g: Graph, bi: nat): Option<LoopInfo>
    requires bi < |g.blocks|
  {
    match g.blocks[bi].term
    case Cond(cond, taken, fall) =>
      if taken > g.blocks[bi].start then None
      else Some(LoopInfo(taken, g.blocks[bi].start, fall, cond))
    case _ => None
  }

  // ---- what a sound graph is -------------------------------------------------------------

  function EndOf(b: BasicBlock): int
  {
    if |b.insts| > 0 then b.insts[0] + |b.insts| else 0
  }

  // The terminator the instruction at `last`, ending a block of `live`, gives that block.
  function TermOf(live: seq<Decoded>, last: nat): Terminator
    requires last < |live|
  {
    var next := if last + 1 < |live| then live[last + 1].offset else USIZE_MAX;
    match Classify(live[last])
    case Some(End) => Return
    case Some(Uncond(t)) => Branch(if t >= 0 then t else 0)
    case Some(CondBranch(_, c, t)) =>
      Cond(if c.Some? then c.value else Vccz, if t >= 0 then t else 0, next)
    case None => if last + 1 < |live| then Fallthrough(next) else Return
  }

  // `b` is a non-empty run of `live` from index `lo` that holds no control transfer before its
  // last instruction, and leaves as that instruction says.
  ghost predicate Spans(live: seq<Decoded>, b: BasicBlock, lo: int) {
    && |b.insts| > 0 && EndOf(b) <= |live|
    && b.insts[0] == lo
    && (forall k :: 0 <= k < |b.insts| ==> b.insts[k] == lo + k)
    && b.start == live[lo].offset
    && (forall k :: lo <= k < EndOf(b) - 1 ==> Classify(live[k]).None?)
    && b.term == TermOf(live, EndOf(b) - 1)
  }

  // Block `i` starts where block `i - 1` stopped.
  ghost predicate IsBlock(live: seq<Decoded>, g: Graph, i: nat)
    requires i < |g.blocks|
  {
    Spans(live, g.blocks[i], if i == 0 then 0 else EndOf(g.blocks[i - 1]))
  }

  // The blocks tile the live stream in order.
  ghost predicate Tiled(live: seq<Decoded>, g: Graph) {
    && (forall i :: 0 <= i < |g.blocks| ==> IsBlock(live, g, i))
    && (if |g.blocks| == 0 then |live| == 0 else EndOf(g.blocks[|g.blocks| - 1]) == |live|)
  }

  // Every branch is modelled and lands on a leader.
  ghost predicate BranchesLand(live: seq<Decoded>, g: Graph) {
    forall k :: 0 <= k < |live| && IsBranch(live[k]) ==>
      && (Classify(live[k]).value.CondBranch? ==> Classify(live[k]).value.cond.Some?)
      && TargetOf(live[k]) >= 0 && IsLeader(g, TargetOf(live[k]))
  }

  // A leader is the entry, a branch target, or the instruction after a branch.
  ghost predicate LeaderReason(live: seq<Decoded>, k: int)
    requires 0 <= k < |live|
  {
    || k == 0
    || IsBranch(live[k - 1])
    || exists j :: 0 <= j < |live| && IsBranch(live[j]) && TargetOf(live[j]) == live[k].offset
  }

  ghost predicate LeadersNeeded(live: seq<Decoded>, g: Graph) {
    forall i :: 0 <= i < |g.blocks| ==> IsBlock(live, g, i) && LeaderReason(live, g.blocks[i].insts[0])
  }

  ghost predicate Sound(live: seq<Decoded>, g: Graph) {
    Tiled(live, g) && BranchesLand(live, g) && LeadersNeeded(live, g)
  }

  // The loop shape: no unconditional back-edge; at most one conditional one, whose header is
  // not the entry, whose exit is a leader, and whose span holds no other conditional.
  ghost predicate NoUncondBackEdge(g: Graph) {
    forall i :: 0 <= i < |g.blocks| && g.blocks[i].term.Branch? ==> g.blocks[i].term.target > g.blocks[i].start
  }

  ghost predicate LoopShape(g: Graph, bi: nat)
    requires bi < |g.blocks| && LoopOf(g, bi).Some?
  {
    var li := LoopOf(g, bi).value;
    && BlockIndexAt(g, li.header) != Some(0)
    && IsLeader(g, li.merge)
    && (forall o :: 0 <= o < |g.blocks| && o != bi && li.header <= g.blocks[o].start <= li.backEdgeBlock
          ==> !g.blocks[o].term.Cond?)
  }

  ghost predicate LoopsOk(g: Graph) {
    && NoUncondBackEdge(g)
    && (forall i, j :: 0 <= i < j < |g.blocks| ==> LoopOf(g, i).None? || LoopOf(g, j).None?)
    && (forall i :: 0 <= i < |g.blocks| && LoopOf(g, i).Some? ==> LoopShape(g, i))
  }

  // ---- pass 1 --------------------------------------------------------------------------

  // What pass 1 reports about the branch at `k`, if anything.
  function BranchError(live: seq<Decoded>, k: nat): Option<CfgError>
    requires k < |live|
  {
    if !IsBranch(live[k]) then None
    else
      var kind := Classify(live[k]).value;
      var target := kind.target;
      if kind.CondBranch? && kind.cond.None? then Some(UnsupportedCondBranch(live[k].offset, kind.op))
      else if target < 0 then Some(TargetOutOfRange(live[k].offset, 0))
      else if IndexOfOffset(live, target, 0).None? then Some(TargetOutOfRange(live[k].offset, target))
      else None
  }

  // The control transfers by opcode number, and where a branch goes: past itself by its signed
  // displacement.
  lemma TransfersByNumber(d: Decoded)
    ensures Classify(d).Some? <==> d.inst.Sopp? && d.inst.op in {1, 2, 4, 5, 6, 7, 8, 9}
    ensures Classify(d) == Some(End) <==> d.inst.Sopp? && d.inst.op == 1
    ensures d.inst.Sopp? && d.inst.op in {2, 4, 5, 6, 7, 8, 9} ==>
      && IsBranch(d)
      && TargetOf(d) == d.offset + d.size + (if d.inst.simm16 < 0x8000 then d.inst.simm16 else d.inst.simm16 - 0x1_0000)
      && (Classify(d).value.Uncond? <==> d.inst.op == 2)
      && (d.inst.op != 2 ==>
            && Classify(d).value.CondBranch? && Classify(d).value.op == d.inst.op
            && (Classify(d).value.cond.None? <==> d.inst.op in {4, 5})
            && (Classify(d).value.cond == Some(Vccz) <==> d.inst.op == 6)
            && (Classify(d).value.cond == Some(Vccnz) <==> d.inst.op == 7)
            && (Classify(d).value.cond == Some(Execz) <==> d.inst.op == 8)
            && (Classify(d).value.cond == Some(Execnz) <==> d.inst.op == 9))
  {
  }

  // The branch at `k` is one pass 1 objects to, and `e` says so: an SCC branch with its opcode, or a
  // target that is no instruction of the live stream with that target, or 0 when it is negative.
  ghost predicate Objects(live: seq<Decoded>, k: nat, e: CfgError)
    requires k < |live|
  {
    var d := live[k];
    && d.inst.Sopp?
    && var target: int := d.offset + d.size + (if d.inst.simm16 < 0x8000 then d.inst.simm16 else d.inst.simm16 - 0x1_0000);
       if d.inst.op in {4, 5} then e == UnsupportedCondBranch(d.offset, d.inst.op)
       else
         && d.inst.op in {2, 6, 7, 8, 9} && (forall j :: 0 <= j < |live| ==> live[j].offset != target)
         && e == TargetOutOfRange(d.offset, if target < 0 then 0 else target)
  }

  lemma ErrorIffObjects(live: seq<Decoded>, k: nat, e: CfgError)
    requires k < |live|
    ensures BranchError(live, k) == Some(e) <==> Objects(live, k, e)
  {
    TransfersByNumber(live[k]);
    hide Classify;
  }

  // `e` is the report about the first branch pass 1 objects to.
  ghost predicate FirstError(live: seq<Decoded>, e: CfgError) {
    exists k :: 0 <= k < |live| && BranchError(live, k) == Some(e)
                && forall j :: 0 <= j < k ==> BranchError(live, j).None?
  }

  // `x` is a leader on account of the entry or a branch before `i`.
  ghost predicate LeaderUpTo(live: seq<Decoded>, i: nat, x: nat)
    requires i <= |live|
  {
    || (|live| > 0 && x == live[0].offset)
    || (exists j :: 0 <= j < i && IsBranch(live[j]) && TargetOf(live[j]) == x)
    || (exists j :: 0 <= j < i && IsBranch(live[j]) && j + 1 < |live| && live[j + 1].offset == x)
  }

  ghost predicate LeadersAre(live: seq<Decoded>, i: nat, leaders: seq<nat>)
    requires i <= |live|
  {
    forall x: nat :: x in leaders <==> LeaderUpTo(live, i, x)
  }

  method CollectLeaders(live: seq<Decoded>) returns (r: Result<seq<nat>, CfgError>)
    ensures r.Ok? ==> LeadersAre(live, |live|, r.value)
    ensures r.Ok? <==> forall k :: 0 <= k < |live| ==> BranchError(live, k).None?
    ensures r.Err? ==> FirstError(live, r.error)
  {
    var leaders: seq<nat> := [];
    if |live| > 0 {
      leaders := [live[0].offset];
    }
    for i := 0 to |live|
      invariant forall k :: 0 <= k < i ==> BranchError(live, k).None?
      invariant LeadersAre(live, i, leaders)
    {
      var error := BranchError(live, i);
      if error.Some? {
        return Err(error.value);
      }
      ghost var before := leaders;
      if IsBranch(live[i]) {
        leaders := leaders + [TargetOf(live[i])];
        if i + 1 < |live| {
          leaders := leaders + [live[i + 1].offset];
        }
      }
      forall x: nat
        ensures x in leaders <==> LeaderUpTo(live, i + 1, x)
      {
        assert x in before <==> LeaderUpTo(live, i, x);
      }
    }
    r := Ok(leaders);
  }

  ghost predicate Ascending(s: seq<nat>) {
    forall i, j :: 0 <= i < j < |s| ==> s[i] < s[j]
  }

  // `sort_unstable` then `dedup`.
  method SortDedup(s: seq<nat>) returns (r: seq<nat>)
    ensures Ascending(r)
    ensures forall x: nat :: x in r <==> x in s
  {
    r := [];
    for i := 0 to |s|
      invariant Ascending(r)
      invariant forall x: nat :: x in r <==> x in s[..i]
    {
      r := InsertOnce(r, s[i]);
      assert s[..i + 1] == s[..i] + [s[i]];
    }
    assert s[..|s|] == s;
  }

  method InsertOnce(s: seq<nat>, x: nat) returns (r: seq<nat>)
    requires Ascending(s)
    ensures Ascending(r)
    ensures forall y: nat :: y in r <==> y in s || y == x
  {
    var i := 0;
    while i < |s| && s[i] < x
      invariant i <= |s|
      invariant forall k :: 0 <= k < i ==> s[k] < x
    {
      i := i + 1;
    }
    if i < |s| && s[i] == x {
      r := s;
    } else {
      r := s[..i] + [x] + s[i..];
      assert s == s[..i] + s[i..];
    }
  }

  // Two ascending sequences of the same numbers are the same sequence.
  lemma {:induction false} AscendingUnique(s: seq<nat>, t: seq<nat>)
    requires Ascending(s) && Ascending(t)
    requires forall x: nat :: x in s <==> x in t
    ensures s == t
    decreases |s|
  {
    var least := if |t| > 0 then t[0] else 0;
    assert |t| > 0 ==> least in t;
    if |s| > 0 {
      assert s[0] in s && s[0] in t;
      forall x: nat
        ensures x in s[1..] <==> x in t[1..]
      {
        assert x in s <==> x == s[0] || x in s[1..];
        assert x in t <==> x == t[0] || x in t[1..];
      }
      AscendingUnique(s[1..], t[1..]);
    }
  }

  // ---- pass 2 --------------------------------------------------------------------------

  // Leaders in order, each on an instruction boundary of `live`.
  ghost predicate LeadersReady(live: seq<Decoded>, leaders: seq<nat>) {
    && Increasing(live) && Ascending(leaders)
    && LeadersAre(live, |live|, leaders)
    && (forall k :: 0 <= k < |live| ==> BranchError(live, k).None?)
    && (forall k :: 0 <= k < |live| - 1 ==> !IsEnd(live[k]))
  }

  lemma LeaderOnBoundary(live: seq<Decoded>, leaders: seq<nat>, x: nat)
    requires LeadersReady(live, leaders) && x in leaders
    ensures IndexOfOffset(live, x, 0).Some?
  {
    assert LeaderUpTo(live, |live|, x);
    if x != live[0].offset {
      if j :| 0 <= j < |live| && IsBranch(live[j]) && TargetOf(live[j]) == x {
        assert BranchError(live, j).None?;
      }
    }
  }

  function At(live: seq<Decoded>, leaders: seq<nat>, li: nat): nat
    requires li <= |leaders|
  {
    if li == |leaders| then |live|
    else
      var i := IndexOfOffset(live, leaders[li], 0);
      if i.Some? then i.value else 0
  }

  // Consecutive leaders sit at increasing instruction indices with no leader between them.
  lemma LeaderIndices(live: seq<Decoded>, leaders: seq<nat>, li: nat)
    requires LeadersReady(live, leaders) && li < |leaders|
    ensures At(live, leaders, li) < At(live, leaders, li + 1) <= |live|
    ensures live[At(live, leaders, li)].offset == leaders[li]
    ensures li == 0 ==> At(live, leaders, 0) == 0
    ensures forall k :: At(live, leaders, li) < k < At(live, leaders, li + 1) ==> live[k].offset !in leaders
  {
    LeaderOnBoundary(live, leaders, leaders[li]);
    var lo, hi := At(live, leaders, li), At(live, leaders, li + 1);
    if li + 1 < |leaders| {
      LeaderOnBoundary(live, leaders, leaders[li + 1]);
      assert live[hi].offset == leaders[li + 1];
      assert leaders[li] < leaders[li + 1];
      assert lo < hi;
    }
    assert LeaderUpTo(live, |live|, live[0].offset);
    var first :| 0 <= first < |leaders| && leaders[first] == live[0].offset;
    assert leaders[0] <= leaders[first];
    forall k, i | lo < k < hi && 0 <= i < |leaders|
      ensures leaders[i] != live[k].offset
    {
      assert i <= li ==> leaders[i] <= leaders[li];
      assert i > li ==> leaders[li + 1] <= leaders[i];
    }
  }

  // Inside a block only the last instruction may transfer control.
  lemma StraightInside(live: seq<Decoded>, leaders: seq<nat>, li: nat, k: nat)
    requires LeadersReady(live, leaders) && li < |leaders|
    requires At(live, leaders, li) <= k < At(live, leaders, li + 1) - 1
    requires At(live, leaders, li + 1) <= |live|
    ensures Classify(live[k]).None?
  {
    LeaderIndices(live, leaders, li);
    assert live[k + 1].offset !in leaders;
    assert !LeaderUpTo(live, |live|, live[k + 1].offset);
    assert !IsEnd(live[k]);
  }

  ghost predicate CutUpTo(live: seq<Decoded>, leaders: seq<nat>, blocks: seq<BasicBlock>) {
    && |blocks| <= |leaders|
    && (forall i :: 0 <= i < |blocks| ==>
          && IsBlock(live, Graph(blocks), i)
          && blocks[i].start == leaders[i]
          && EndOf(blocks[i]) == At(live, leaders, i + 1))
  }

  function MakeBlock(live: seq<Decoded>, leader: nat, lo: nat, hi: nat): BasicBlock
    requires lo < hi <= |live|
  {
    BasicBlock(leader, seq(hi - lo, k => lo + k), TermOf(live, hi - 1))
  }

  lemma NewBlock(live: seq<Decoded>, leaders: seq<nat>, g: Graph, li: nat)
    requires LeadersReady(live, leaders) && li < |leaders| && |g.blocks| == li + 1
    requires var lo, hi := At(live, leaders, li), At(live, leaders, li + 1);
             lo < hi <= |live| && g.blocks[li] == MakeBlock(live, leaders[li], lo, hi)
    requires li > 0 ==> EndOf(g.blocks[li - 1]) == At(live, leaders, li)
    ensures IsBlock(live, g, li) && EndOf(g.blocks[li]) == At(live, leaders, li + 1)
    ensures g.blocks[li].start == leaders[li]
  {
    var lo, hi := At(live, leaders, li), At(live, leaders, li + 1);
    LeaderIndices(live, leaders, li);
    assert g.blocks[li].insts[0] == lo && EndOf(g.blocks[li]) == hi;
    forall k | lo <= k < hi - 1
      ensures Classify(live[k]).None?
    {
      StraightInside(live, leaders, li, k);
    }
  }

  lemma BlockKept(live: seq<Decoded>, g: Graph, g': Graph, i: nat)
    requires i < |g.blocks| && g.blocks <= g'.blocks && IsBlock(live, g, i)
    ensures IsBlock(live, g', i)
  {
    hide Spans;
    assert i > 0 ==> g.blocks[i - 1] == g'.blocks[i - 1];
  }

  lemma CutOneMore(live: seq<Decoded>, leaders: seq<nat>, blocks: seq<BasicBlock>, b: BasicBlock)
    requires LeadersReady(live, leaders) && CutUpTo(live, leaders, blocks) && |blocks| < |leaders|
    requires var lo, hi := At(live, leaders, |blocks|), At(live, leaders, |blocks| + 1);
             lo < hi <= |live| && b == MakeBlock(live, leaders[|blocks|], lo, hi)
    ensures CutUpTo(live, leaders, blocks + [b])
  {
    hide LeadersReady, Spans, MakeBlock, At, IsBlock, EndOf;
    var li, g := |blocks|, Graph(blocks + [b]);
    if li > 0 {
      assert EndOf(blocks[li - 1]) == At(live, leaders, li);
    }
    NewBlock(live, leaders, g, li);
    forall i | 0 <= i < li
      ensures IsBlock(live, g, i)
    {
      BlockKept(live, Graph(blocks), g, i);
    }
  }

  method CutBlocks(live: seq<Decoded>, leaders: seq<nat>) returns (g: Graph)
    requires LeadersReady(live, leaders)
    ensures |g.blocks| == |leaders| && CutUpTo(live, leaders, g.blocks)
  {
    var blocks: seq<BasicBlock> := [];
    for li := 0 to |leaders|
      invariant |blocks| == li && CutUpTo(live, leaders, blocks)
    {
      LeaderIndices(live, leaders, li);
      LeaderOnBoundary(live, leaders, leaders[li]);
      var lo := IndexOfOffset(live, leaders[li], 0).value;
      var hi := |live|;
      if li + 1 < |leaders| {
        LeaderOnBoundary(live, leaders, leaders[li + 1]);
        hi := IndexOfOffset(live, leaders[li + 1], 0).value;
      }
      var b := MakeBlock(live, leaders[li], lo, hi);
      CutOneMore(live, leaders, blocks, b);
      blocks := blocks + [b];
    }
    g := Graph(blocks);
  }

  lemma CutIsSound(live: seq<Decoded>, leaders: seq<nat>, g: Graph)
    requires LeadersReady(live, leaders)
    requires |g.blocks| == |leaders| && CutUpTo(live, leaders, g.blocks)
    ensures Sound(live, g)
  {
    assert g == Graph(g.blocks);
    if |live| > 0 {
      assert LeaderUpTo(live, |live|, live[0].offset);
    }
    assert |leaders| > 0 ==> leaders[0] in leaders;
    forall k | 0 <= k < |live| && IsBranch(live[k])
      ensures TargetOf(live[k]) >= 0 && IsLeader(g, TargetOf(live[k]))
    {
      assert BranchError(live, k).None?;
      var t := TargetOf(live[k]);
      assert LeaderUpTo(live, |live|, t);
      var i :| 0 <= i < |leaders| && leaders[i] == t;
      assert g.blocks[i].start == t;
    }
    assert BranchesLand(live, g) by {
      forall k | 0 <= k < |live| && IsBranch(live[k])
        ensures Classify(live[k]).value.CondBranch? ==> Classify(live[k]).value.cond.Some?
      {
        assert BranchError(live, k).None?;
      }
    }
    forall i | 0 <= i < |g.blocks|
      ensures IsBlock(live, g, i) && LeaderReason(live, g.blocks[i].insts[0])
    {
      LeaderHasReason(live, leaders, leaders[i], g.blocks[i].insts[0]);
    }
  }

  lemma LeaderHasReason(live: seq<Decoded>, leaders: seq<nat>, x: nat, k: nat)
    requires LeadersReady(live, leaders) && x in leaders && k < |live| && live[k].offset == x
    ensures LeaderReason(live, k)
  {
    assert LeaderUpTo(live, |live|, x);
    if x == live[0].offset {
      assert k == 0;
    } else if !(exists j :: 0 <= j < |live| && IsBranch(live[j]) && TargetOf(live[j]) == x) {
      var j :| 0 <= j < |live| && IsBranch(live[j]) && j + 1 < |live| && live[j + 1].offset == x;
      assert j + 1 == k;
    }
  }

  // ---- loop validation ---------------------------------------------------------------------

  // Block `bi` ends in an unconditional branch that does not go forward.
  predicate BranchesBack(g: Graph, bi: nat)
    requires bi < |g.blocks|
  {
    g.blocks[bi].term.Branch? && g.blocks[bi].term.target <= g.blocks[bi].start
  }

  // The report names the first such block and its target; or, when there is none, the first
  // conditional back-edge that is a second one or does not have the loop shape, and its target.
  ghost predicate Blames(g: Graph, bi: nat, e: CfgError)
    requires bi < |g.blocks|
  {
    if BranchesBack(g, bi) then
      && e == IrreducibleLoop(g.blocks[bi].start, g.blocks[bi].term.target)
      && forall j :: 0 <= j < bi ==> !BranchesBack(g, j)
    else
      && NoUncondBackEdge(g)
      && g.blocks[bi].term.Cond? && g.blocks[bi].term.taken <= g.blocks[bi].start
      && e == IrreducibleLoop(g.blocks[bi].start, g.blocks[bi].term.taken)
      && (forall j :: 0 <= j < bi && LoopOf(g, j).Some? ==> LoopShape(g, j))
      && (forall i, j :: 0 <= i < j < bi ==> LoopOf(g, i).None? || LoopOf(g, j).None?)
      && ((exists j :: 0 <= j < bi && LoopOf(g, j).Some?) || !LoopShape(g, bi))
  }

  method ValidateLoops(g: Graph) returns (error: Option<CfgError>)
    ensures error.None? <==> LoopsOk(g)
    ensures error.Some? ==> exists bi :: 0 <= bi < |g.blocks| && Blames(g, bi, error.value)
  {
    hide LoopShape;
    for bi := 0 to |g.blocks|
      invariant forall i :: 0 <= i < bi ==> !BranchesBack(g, i)
    {
      var b := g.blocks[bi];
      if b.term.Branch? && b.term.target <= b.start {
        assert BranchesBack(g, bi);
        error := Some(IrreducibleLoop(b.start, b.term.target));
        assert Blames(g, bi, error.value);
        return;
      }
    }
    assert NoUncondBackEdge(g) by {
      forall i | 0 <= i < |g.blocks| && g.blocks[i].term.Branch? ensures g.blocks[i].term.target > g.blocks[i].start {
        assert !BranchesBack(g, i);
      }
    }
    var backEdges := 0;
    ghost var only := 0;
    for bi := 0 to |g.blocks|
      invariant backEdges <= 1
      invariant backEdges == 0 ==> forall i :: 0 <= i < bi ==> LoopOf(g, i).None?
      invariant backEdges == 1 ==> 0 <= only < bi && LoopOf(g, only).Some? && LoopShape(g, only)
      invariant backEdges == 1 ==> forall i :: 0 <= i < bi && i != only ==> LoopOf(g, i).None?
    {
      var loop := LoopOf(g, bi);
      if loop.Some? {
        backEdges := backEdges + 1;
        if backEdges > 1 {
          error := Some(IrreducibleLoop(g.blocks[bi].start, loop.value.header));
          assert Blames(g, bi, error.value);
          return;
        }
        var ok := CheckLoop(g, bi);
        if !ok {
          error := Some(IrreducibleLoop(g.blocks[bi].start, loop.value.header));
          assert Blames(g, bi, error.value);
          return;
        }
        only := bi;
      }
    }
    error := None;
  }

  method CheckLoop(g: Graph, bi: nat) returns (ok: bool)
    requires bi < |g.blocks| && LoopOf(g, bi).Some?
    ensures ok <==> LoopShape(g, bi)
  {
    var li := LoopOf(g, bi).value;
    if BlockIndexAt(g, li.header) == Some(0) {
      return false;
    }
    if BlockIndexAt(g, li.merge).None? {
      return false;
    }
    for o := 0 to |g.blocks|
      invariant forall k :: 0 <= k < o && k != bi && li.header <= g.blocks[k].start <= li.backEdgeBlock
                  ==> !g.blocks[k].term.Cond?
    {
      if li.header <= g.blocks[o].start <= li.backEdgeBlock && o != bi && g.blocks[o].term.Cond? {
        return false;
      }
    }
    return true;
  }

  // ---- the builder ------------------------------------------------------------------------

  lemma LiveIsIncreasing(insts: seq<Decoded>)
    requires Increasing(insts)
    ensures Increasing(LiveStream(insts))
    ensures forall k :: 0 <= k < |LiveStream(insts)| - 1 ==> !IsEnd(LiveStream(insts)[k])
  {
  }

  // Accepts exactly the streams whose branches all land and whose (unique) graph has the loop
  // shape, and returns that graph; otherwise reports the first bad branch, or a loop.
  method BuildCfg(insts: seq<Decoded>) returns (r: Result<Graph, CfgError>)
    requires Increasing(insts)
    ensures r.Ok? ==> Sound(LiveStream(insts), r.value) && LoopsOk(r.value)
    ensures r.Err? ==>
      if exists k :: 0 <= k < |LiveStream(insts)| && BranchError(LiveStream(insts), k).Some?
      then FirstError(LiveStream(insts), r.error)
      else
        exists g :: Sound(LiveStream(insts), g) && !LoopsOk(g)
                    && exists bi :: 0 <= bi < |g.blocks| && Blames(g, bi, r.error)
  {
    var live := LiveStream(insts);
    LiveIsIncreasing(insts);
    var collected := CollectLeaders(live);
    if collected.Err? {
      return Err(collected.error);
    }
    var leaders := SortDedup(collected.value);
    assert LeadersReady(live, leaders) by {
      forall x: nat
        ensures x in leaders <==> LeaderUpTo(live, |live|, x)
      {
        assert x in collected.value <==> LeaderUpTo(live, |live|, x);
      }
    }
    var g := CutBlocks(live, leaders);
    CutIsSound(live, leaders, g);
    var error := ValidateLoops(g);
    if error.Some? {
      assert Sound(live, g) && !LoopsOk(g);
      return Err(error.value);
    }
    r := Ok(g);
  }
}
