// What an accepted graph guarantees: its blocks partition the stream, control transfers only
// at block ends, every edge lands on a leader, every edge but the one back-edge goes forward,
// and a stream has only one such graph.

module CfgFacts {
  import opened Words
  import opened Isa
  import opened Cfg

  // `g` is an accepted graph of the live stream `live`.
  ghost predicate Accepted(live: seq<Decoded>, g: Graph) {
    && Increasing(live) && Sound(live, g) && LoopsOk(g)
    && (forall k :: 0 <= k < |live| - 1 ==> !IsEnd(live[k]))
  }

  function Lo(g: Graph, i: nat): int
    requires i < |g.blocks|
  {
    if i == 0 then 0 else EndOf(g.blocks[i - 1])
  }

  lemma BlockFacts(live: seq<Decoded>, g: Graph, i: nat)
    requires Tiled(live, g) && i < |g.blocks|
    ensures Spans(live, g.blocks[i], Lo(g, i)) && 0 <= Lo(g, i) < EndOf(g.blocks[i]) <= |live|
  {
    assert IsBlock(live, g, i);
    if i > 0 {
      assert IsBlock(live, g, i - 1);
    }
  }

  lemma {:induction false} EndsAscend(live: seq<Decoded>, g: Graph, i: nat, j: nat)
    requires Tiled(live, g) && i < j < |g.blocks|
    ensures EndOf(g.blocks[i]) <= Lo(g, j)
    decreases j
  {
    BlockFacts(live, g, j - 1);
    if i < j - 1 {
      EndsAscend(live, g, i, j - 1);
    }
  }

  // Leaders come in stream order.
  lemma StartsAscend(live: seq<Decoded>, g: Graph, i: nat, j: nat)
    requires Increasing(live) && Tiled(live, g) && i < j < |g.blocks|
    ensures g.blocks[i].start < g.blocks[j].start
  {
    BlockFacts(live, g, i);
    BlockFacts(live, g, j);
    EndsAscend(live, g, i, j);
  }

  // The instruction indices of blocks `0..n`, in block order.
  function Flatten(g: Graph, n: nat): seq<nat>
    requires n <= |g.blocks|
  {
    if n == 0 then [] else Flatten(g, n - 1) + g.blocks[n - 1].insts
  }

  // The blocks partition the live stream: read in order they list every instruction once.
  lemma {:induction false} BlocksPartition(live: seq<Decoded>, g: Graph, n: nat)
    requires Tiled(live, g) && n <= |g.blocks|
    ensures |Flatten(g, n)| == (if n == 0 then 0 else EndOf(g.blocks[n - 1]))
    ensures forall k :: 0 <= k < |Flatten(g, n)| ==> Flatten(g, n)[k] == k
    ensures n == |g.blocks| ==> |Flatten(g, n)| == |live|
  {
    if n > 0 {
      BlocksPartition(live, g, n - 1);
      BlockFacts(live, g, n - 1);
      var b := g.blocks[n - 1];
      forall k | 0 <= k < |Flatten(g, n)|
        ensures Flatten(g, n)[k] == k
      {
        assert k >= |Flatten(g, n - 1)| ==> b.insts[k - |Flatten(g, n - 1)|] == k;
      }
    }
  }

  // Only a block's last instruction may be a branch or `s_endpgm`, and the latter ends a
  // `Return` block.
  lemma TransfersOnlyAtEnd(live: seq<Decoded>, g: Graph, i: nat, k: nat)
    requires Tiled(live, g) && i < |g.blocks| && k < |g.blocks[i].insts|
    ensures g.blocks[i].insts[k] < |live|
    ensures k + 1 < |g.blocks[i].insts| ==> Classify(live[g.blocks[i].insts[k]]).None?
    ensures IsEnd(live[g.blocks[i].insts[k]]) ==> g.blocks[i].term == Return
  {
    BlockFacts(live, g, i);
  }

  // The fall-through of a block that is not last is the next block's leader.
  lemma NextLeader(live: seq<Decoded>, g: Graph, i: nat)
    requires Tiled(live, g) && i < |g.blocks| && EndOf(g.blocks[i]) < |live|
    ensures i + 1 < |g.blocks| && g.blocks[i + 1].start == live[EndOf(g.blocks[i])].offset
  {
    BlockFacts(live, g, i);
    if i + 1 < |g.blocks| {
      BlockFacts(live, g, i + 1);
    }
  }

  // A branch of block `i` lands on the leader its displacement names.
  lemma TakenLands(live: seq<Decoded>, g: Graph, i: nat)
    requires Sound(live, g) && i < |g.blocks|
    ensures g.blocks[i].term.Branch? ==> IsLeader(g, g.blocks[i].term.target)
    ensures g.blocks[i].term.Cond? ==> IsLeader(g, g.blocks[i].term.taken)
  {
    hide Classify, IsLeader, Tiled, LeadersNeeded;
    BlockFacts(live, g, i);
    var last := EndOf(g.blocks[i]) - 1;
    assert g.blocks[i].term == TermOf(live, last);
    assert IsBranch(live[last]) ==> TargetOf(live[last]) >= 0 && IsLeader(g, TargetOf(live[last]));
  }

  // A conditional that ends the stream has nothing to fall into: its target is a leader at or
  // before its own block, so it is a back-edge, and the loop check rejects it.
  lemma FallLands(live: seq<Decoded>, g: Graph, i: nat)
    requires Accepted(live, g) && i < |g.blocks| && g.blocks[i].term.Cond?
    ensures i + 1 < |g.blocks| && g.blocks[i].term.fall == g.blocks[i + 1].start
    ensures g.blocks[i].term.fall != USIZE_MAX
  {
    hide Classify, LeadersNeeded, BranchesLand, Tiled;
    BlockFacts(live, g, i);
    var b := g.blocks[i];
    if EndOf(b) < |live| {
      NextLeader(live, g, i);
    } else {
      assert b.term.fall == USIZE_MAX;
      LastIsBackEdge(live, g, i);
      StartsAreOffsets(live, g, USIZE_MAX);
      assert false;
    }
  }

  lemma LastIsBackEdge(live: seq<Decoded>, g: Graph, i: nat)
    requires Accepted(live, g) && i < |g.blocks| && g.blocks[i].term.Cond? && EndOf(g.blocks[i]) == |live|
    ensures IsLeader(g, g.blocks[i].term.fall)
  {
    hide Classify, LeadersNeeded, BranchesLand, Tiled;
    LastBlock(live, g, i);
    TakenLands(live, g, i);
    var t :| 0 <= t < |g.blocks| && g.blocks[t].start == g.blocks[i].term.taken;
    if t < i { StartsAscend(live, g, t, i); }
    assert LoopOf(g, i).Some?;
    assert LoopShape(g, i);
  }

  lemma StartsAreOffsets(live: seq<Decoded>, g: Graph, start: nat)
    requires Tiled(live, g) && IsLeader(g, start)
    ensures start < TWO32
  {
    var m :| 0 <= m < |g.blocks| && g.blocks[m].start == start;
    BlockFacts(live, g, m);
  }

  lemma LastBlock(live: seq<Decoded>, g: Graph, i: nat)
    requires Tiled(live, g) && i < |g.blocks| && EndOf(g.blocks[i]) == |live|
    ensures i == |g.blocks| - 1
  {
    if i + 1 < |g.blocks| {
      BlockFacts(live, g, i + 1);
    }
  }

  predicate HasTarget(t: Terminator, x: nat) {
    match t
    case Fallthrough(a) => x == a
    case Branch(a) => x == a
    case Cond(_, a, b) => x == a || x == b
    case Return => false
  }

  // Every successor of every block is a leader, and lies strictly forward unless it is the
  // taken arm of the graph's one back-edge.
  lemma EdgesLandForward(live: seq<Decoded>, g: Graph, i: nat, x: nat)
    requires Accepted(live, g) && i < |g.blocks| && HasTarget(g.blocks[i].term, x)
    ensures IsLeader(g, x)
    ensures x > g.blocks[i].start || (LoopOf(g, i).Some? && x == LoopOf(g, i).value.header)
  {
    hide Classify, LeadersNeeded, BranchesLand, Tiled;
    BlockFacts(live, g, i);
    TakenLands(live, g, i);
    match g.blocks[i].term
    case Fallthrough(a) =>
      NextLeader(live, g, i);
      StartsAscend(live, g, i, i + 1);
    case Cond(_, a, b) =>
      FallLands(live, g, i);
      StartsAscend(live, g, i, i + 1);
    case Branch(a) =>
      assert g.blocks[i].term.target > g.blocks[i].start;
  }

  // ---- the graph of a stream is unique --------------------------------------------------

  lemma StartIsLeader(live: seq<Decoded>, g: Graph, k: nat)
    requires Increasing(live) && Sound(live, g) && k < |live| && IsLeader(g, live[k].offset)
    ensures LeaderReason(live, k)
  {
    hide Classify, LeaderReason, BranchesLand;
    var i :| 0 <= i < |g.blocks| && g.blocks[i].start == live[k].offset;
    BlockFacts(live, g, i);
    assert Lo(g, i) == k;
    assert IsBlock(live, g, i) && LeaderReason(live, g.blocks[i].insts[0]);
  }

  lemma LeaderIsStart(live: seq<Decoded>, g: Graph, k: nat)
    requires Increasing(live) && Sound(live, g) && k < |live| && LeaderReason(live, k)
    ensures IsLeader(g, live[k].offset)
  {
    hide Classify, LeadersNeeded;
    if exists j :: 0 <= j < |live| && IsBranch(live[j]) && TargetOf(live[j]) == live[k].offset {
      assert BranchesLand(live, g);
    } else {
      var i := Owner(live, g, k, |g.blocks|);
      BlockFacts(live, g, i);
      EndsAboveZero(live, g, i);
      assert g.blocks[i].start == live[k].offset;
    }
  }

  // An instruction index begins a block of a sound graph exactly when it is the entry, a
  // branch target, or follows a branch.
  lemma StartsAreLeaders(live: seq<Decoded>, g: Graph, k: nat)
    requires Increasing(live) && Sound(live, g) && k < |live|
    ensures IsLeader(g, live[k].offset) <==> LeaderReason(live, k)
  {
    hide Classify, LeaderReason, BranchesLand, LeadersNeeded, Tiled;
    if IsLeader(g, live[k].offset) {
      StartIsLeader(live, g, k);
    }
    if LeaderReason(live, k) {
      LeaderIsStart(live, g, k);
    }
  }

  lemma EndsAboveZero(live: seq<Decoded>, g: Graph, i: nat)
    requires Tiled(live, g) && i < |g.blocks|
    ensures i == 0 || Lo(g, i) > 0
  {
    if i > 0 { BlockFacts(live, g, i - 1); }
  }

  // The block, among the first `n`, that owns instruction `k`.
  lemma {:induction false} Owner(live: seq<Decoded>, g: Graph, k: nat, n: nat) returns (i: nat)
    requires Tiled(live, g) && 0 < n <= |g.blocks| && k < EndOf(g.blocks[n - 1])
    ensures i < n && Lo(g, i) <= k < EndOf(g.blocks[i])
  {
    BlockFacts(live, g, n - 1);
    if k >= Lo(g, n - 1) {
      i := n - 1;
    } else {
      i := Owner(live, g, k, n - 1);
    }
  }

  lemma {:induction false} StartsEqual(live: seq<Decoded>, g: Graph, h: Graph, i: nat)
    requires Increasing(live) && Sound(live, g) && Sound(live, h) && i < |g.blocks| && i < |h.blocks|
    requires forall j :: 0 <= j < i ==> g.blocks[j] == h.blocks[j]
    ensures EndOf(g.blocks[i]) <= EndOf(h.blocks[i])
  {
    hide Classify, LeaderReason, BranchesLand, LeadersNeeded;
    BlockFacts(live, g, i);
    BlockFacts(live, h, i);
    var e := EndOf(h.blocks[i]);
    if e < |live| {
      NextLeader(live, h, i);
      StartsAreLeaders(live, h, e);
      StartsAreLeaders(live, g, e);
      var m :| 0 <= m < |g.blocks| && g.blocks[m].start == live[e].offset;
      BlockFacts(live, g, m);
      assert Lo(g, m) == e;
      assert Lo(g, i) == Lo(h, i);
      if m < i { EndsAscend(live, g, m, i); }
      if i < m { EndsAscend(live, g, i, m); }
    }
  }

  lemma SameSpan(live: seq<Decoded>, b: BasicBlock, c: BasicBlock, lo: int)
    requires Spans(live, b, lo) && Spans(live, c, lo) && EndOf(b) == EndOf(c) && 0 <= lo
    ensures b == c
  {
    hide Classify;
    assert b.insts == c.insts;
  }

  lemma {:induction false} BlocksEqual(live: seq<Decoded>, g: Graph, h: Graph, n: nat)
    requires Increasing(live) && Sound(live, g) && Sound(live, h) && n <= |g.blocks| && n <= |h.blocks|
    ensures forall j :: 0 <= j < n ==> g.blocks[j] == h.blocks[j]
  {
    hide Classify, Spans, BranchesLand, LeadersNeeded;
    if n > 0 {
      BlocksEqual(live, g, h, n - 1);
      StartsEqual(live, g, h, n - 1);
      StartsEqual(live, h, g, n - 1);
      BlockFacts(live, g, n - 1);
      BlockFacts(live, h, n - 1);
      SameSpan(live, g.blocks[n - 1], h.blocks[n - 1], Lo(g, n - 1));
    }
  }

  lemma NotShorter(live: seq<Decoded>, g: Graph, h: Graph)
    requires Increasing(live) && Sound(live, g) && Sound(live, h) && |g.blocks| <= |h.blocks|
    ensures |g.blocks| == |h.blocks|
  {
    hide Classify, Spans, BranchesLand, LeadersNeeded;
    BlocksEqual(live, g, h, |g.blocks|);
    if |g.blocks| < |h.blocks| {
      BlockFacts(live, h, |g.blocks|);
    }
  }

  // A stream has at most one sound graph, so the builder's answer is the answer.
  lemma SoundGraphIsUnique(live: seq<Decoded>, g: Graph, h: Graph)
    requires Increasing(live) && Sound(live, g) && Sound(live, h)
    ensures g == h
  {
    if |g.blocks| <= |h.blocks| {
      NotShorter(live, g, h);
    } else {
      NotShorter(live, h, g);
    }
    BlocksEqual(live, g, h, |g.blocks|);
  }
}
