// Whether the header of the accepted loop dominates the loop: exactly when no block before the loop
// jumps past its header.

module LoopEntry {
  import opened Words
  import opened Isa
  import opened Cfg
  import opened CfgFacts

  predicate Flows(g: Graph, i: nat, j: nat) {
    i < |g.blocks| && j < |g.blocks| && HasTarget(g.blocks[i].term, g.blocks[j].start)
  }

  // A path of the graph from its entry.
  ghost predicate Path(g: Graph, p: seq<nat>) {
    && |p| > 0 && p[0] == 0 && |g.blocks| > 0
    && forall k :: 0 < k < |p| ==> Flows(g, p[k - 1], p[k])
  }

  lemma PathIsNonempty(g: Graph, p: seq<nat>)
    requires Path(g, p)
    ensures |p| > 0
  {
  }

  function Last(p: seq<nat>): nat
    requires |p| > 0
  {
    p[|p| - 1]
  }

  ghost predicate Dominates(g: Graph, h: nat, b: nat) {
    forall p :: Path(g, p) && Last(p) == b ==> h in p
  }

  // The loop of back-edge block `bi`: its header's index.
  function HeaderOf(g: Graph, bi: nat): nat
    requires bi < |g.blocks| && LoopOf(g, bi).Some?
  {
    var h := BlockIndexAt(g, LoopOf(g, bi).value.header);
    if h.Some? then h.value else 0
  }

  // Some block that control reaches outside the loop has an edge past the loop's header.
  ghost predicate EnteredInside(g: Graph, h: nat, bi: nat) {
    exists p, j :: Path(g, p) && !(h <= Last(p) <= bi) && h < j <= bi && Flows(g, Last(p), j)
  }

  ghost predicate Looping(live: seq<Decoded>, g: Graph, bi: nat, h: nat) {
    && Accepted(live, g) && bi < |g.blocks| && LoopOf(g, bi).Some?
    && 0 < h <= bi && BlockIndexAt(g, LoopOf(g, bi).value.header) == Some(h)
  }

  lemma HeaderIsLater(live: seq<Decoded>, g: Graph, bi: nat)
    requires Accepted(live, g) && bi < |g.blocks| && LoopOf(g, bi).Some?
    ensures Looping(live, g, bi, HeaderOf(g, bi))
  {
    hide Classify, LeadersNeeded, BranchesLand, Tiled, Increasing;
    TakenLands(live, g, bi);
    var h := HeaderOf(g, bi);
    if bi < h { StartsAscend(live, g, bi, h); }
    assert LoopShape(g, bi);
  }

  // Control that has come to the header stays behind it, and control that has left the loop does not
  // come back.
  lemma EdgesStay(live: seq<Decoded>, g: Graph, bi: nat, h: nat, i: nat, j: nat)
    requires Looping(live, g, bi, h) && Flows(g, i, j)
    ensures i >= h ==> j >= h
    ensures i > bi ==> j > bi
  {
    hide Classify, Tiled, BranchesLand, LeadersNeeded, Increasing, LoopsOk;
    EdgesLandForward(live, g, i, g.blocks[j].start);
    if j < i { StartsAscend(live, g, j, i); }
    if i == bi {
      if j < h { StartsAscend(live, g, j, h); }
    } else {
      OneLoop(g, i, bi);
    }
  }

  lemma OneLoop(g: Graph, i: nat, bi: nat)
    requires LoopsOk(g) && i < |g.blocks| && bi < |g.blocks| && LoopOf(g, bi).Some? && i != bi
    ensures LoopOf(g, i).None?
  {
    hide LoopShape;
  }

  lemma PathBefore(g: Graph, p: seq<nat>)
    requires Path(g, p) && |p| > 1
    ensures Path(g, p[..|p| - 1]) && Flows(g, Last(p[..|p| - 1]), Last(p))
  {
    var q := p[..|p| - 1];
    forall k | 0 < k < |q| ensures Flows(g, q[k - 1], q[k]) {
      assert Flows(g, p[k - 1], p[k]);
    }
  }

  lemma PathAfter(g: Graph, p: seq<nat>, j: nat)
    requires Path(g, p) && Flows(g, Last(p), j)
    ensures Path(g, p + [j])
  {
    var q := p + [j];
    forall k | 0 < k < |q| ensures Flows(g, q[k - 1], q[k]) {
      if k < |p| { assert Flows(g, p[k - 1], p[k]); }
    }
  }

  // A path to a block before the header has not met the header.
  lemma {:induction false} NotYet(live: seq<Decoded>, g: Graph, bi: nat, h: nat, p: seq<nat>)
    requires Looping(live, g, bi, h) && Path(g, p) && Last(p) < h
    ensures h !in p
    decreases |p|
  {
    hide Looping, Flows;
    if |p| > 1 {
      PathBefore(g, p);
      var q := p[..|p| - 1];
      EdgesStay(live, g, bi, h, Last(q), Last(p));
      NotYet(live, g, bi, h, q);
      assert p == q + [Last(p)];
    }
  }

  // A path into the loop that misses the header enters it somewhere else.
  lemma {:induction false} EntersPast(live: seq<Decoded>, g: Graph, bi: nat, h: nat, p: seq<nat>)
    requires Looping(live, g, bi, h) && Path(g, p) && h <= Last(p) <= bi && h !in p
    ensures EnteredInside(g, h, bi)
    decreases |p|
  {
    hide Flows, Accepted;
    assert Last(p) in p;
    if |p| > 1 {
      PathBefore(g, p);
      var q := p[..|p| - 1];
      if h <= Last(q) <= bi {
        EntersPast(live, g, bi, h, q);
      }
    }
  }

  ghost predicate DominatesLoop(g: Graph, h: nat, bi: nat) {
    forall b :: h <= b <= bi ==> Dominates(g, h, b)
  }

  lemma EnteredMeansMissed(live: seq<Decoded>, g: Graph, bi: nat, h: nat, p: seq<nat>, j: nat)
    requires |p| > 0 && Looping(live, g, bi, h) && Path(g, p)
    requires !(h <= Last(p) <= bi) && h < j <= bi && Flows(g, Last(p), j)
    ensures !Dominates(g, h, j)
  {
    hide Looping, Flows, Path;
    EdgesStay(live, g, bi, h, Last(p), j);
    NotYet(live, g, bi, h, p);
    PathAfter(g, p, j);
    var q := p + [j];
    assert Path(g, q) && Last(q) == j && h !in q;
  }

  // The header dominates every block of the loop if and only if control reaches no block outside it
  // with an edge past the header. `build_cfg` does not check this.
  lemma HeaderDominatesIff(live: seq<Decoded>, g: Graph, bi: nat)
    requires Accepted(live, g) && bi < |g.blocks| && LoopOf(g, bi).Some?
    ensures DominatesLoop(g, HeaderOf(g, bi), bi) <==> !EnteredInside(g, HeaderOf(g, bi), bi)
  {
    var h := HeaderOf(g, bi);
    HeaderIsLater(live, g, bi);
    hide Accepted, Flows, LoopOf, HeaderOf, BlockIndexAt, Looping, Path;
    if EnteredInside(g, h, bi) {
      var p, j :| Path(g, p) && !(h <= Last(p) <= bi) && h < j <= bi && Flows(g, Last(p), j);
      assert |p| > 0 by { PathIsNonempty(g, p); }
      EnteredMeansMissed(live, g, bi, h, p, j);
    } else {
      forall b | h <= b <= bi ensures Dominates(g, h, b) {
        forall p | Path(g, p) && Last(p) == b ensures h in p {
          if h !in p { EntersPast(live, g, bi, h, p); }
        }
      }
    }
  }

  // ---- a loop entered in its middle -----------------------------------------------------------

  // if (!vcc) goto back;  header: nop;  back: if (vcc) goto header;
  function Jumping(): seq<Decoded> {
    [Decoded(Sopp(S_CBRANCH_VCCZ, 2), 1, 0),
     Decoded(Sopp(S_NOP, 0), 1, 1),
     Decoded(Sopp(S_NOP, 0), 1, 2),
     Decoded(Sopp(S_CBRANCH_VCCNZ, 0xFFFE), 1, 3),
     Decoded(Sopp(S_ENDPGM, 0), 1, 4)]
  }

  function JumpingGraph(): Graph {
    Graph([BasicBlock(0, [0], Cond(Vccz, 3, 1)),
           BasicBlock(1, [1], Fallthrough(2)),
           BasicBlock(2, [2], Fallthrough(3)),
           BasicBlock(3, [3], Cond(Vccnz, 2, 4)),
           BasicBlock(4, [4], Return)])
  }

  lemma JumpingKinds(ds: seq<Decoded>)
    requires ds == Jumping()
    ensures Classify(ds[0]) == Some(CondBranch(S_CBRANCH_VCCZ, Some(Vccz), 3)) && Classify(ds[1]).None?
    ensures Classify(ds[3]) == Some(CondBranch(S_CBRANCH_VCCNZ, Some(Vccnz), 2)) && Classify(ds[4]) == Some(End)
    ensures Classify(ds[2]).None?
  {
  }

  lemma JumpingTiles(ds: seq<Decoded>, g: Graph)
    requires ds == Jumping() && g == JumpingGraph()
    ensures Tiled(ds, g)
  {
    JumpingKinds(ds);
    hide Classify;
    forall i | 0 <= i < |g.blocks| ensures EndOf(g.blocks[i]) == i + 1 && Spans(ds, g.blocks[i], i) {
      assert i == 0 || i == 1 || i == 2 || i == 3 || i == 4;
    }
    hide Spans, EndOf;
    forall i | 0 <= i < |g.blocks| ensures IsBlock(ds, g, i) {
      if i > 0 { assert EndOf(g.blocks[i - 1]) == i; }
    }
  }

  lemma JumpingLeads(ds: seq<Decoded>, g: Graph)
    requires ds == Jumping() && g == JumpingGraph()
    ensures BranchesLand(ds, g) && LeadersNeeded(ds, g)
  {
    JumpingKinds(ds);
    JumpingTiles(ds, g);
    hide Classify, IsBlock;
    assert g.blocks[2].start == 2 && g.blocks[3].start == 3;
    assert IsLeader(g, 2) && IsLeader(g, 3);
    assert IsBranch(ds[0]) && TargetOf(ds[0]) == ds[3].offset;
    assert IsBranch(ds[3]) && TargetOf(ds[3]) == ds[2].offset;
    hide IsLeader;
    assert forall k :: 0 <= k < |ds| && IsBranch(ds[k]) ==> k == 0 || k == 3;
    forall i | 0 <= i < |ds| ensures LeaderReason(ds, i) {
      assert i == 0 || i == 1 || i == 2 || i == 3 || i == 4;
    }
  }

  lemma JumpingLoops(g: Graph)
    requires g == JumpingGraph()
    ensures LoopOf(g, 3) == Some(LoopInfo(2, 3, 4, Vccnz)) && LoopsOk(g)
    ensures HeaderOf(g, 3) == 2
  {
    assert g.blocks[4].start == 4 && IsLeader(g, 4);
    assert BlockIndexAt(g, 2) == Some(2);
  }

  lemma JumpingEnters(g: Graph)
    requires g == JumpingGraph()
    ensures EnteredInside(g, 2, 3)
  {
    assert Path(g, [0]) && Flows(g, Last([0]), 3);
  }

  lemma JumpingIsAccepted(ds: seq<Decoded>, g: Graph)
    requires ds == Jumping() && g == JumpingGraph()
    ensures Accepted(ds, g)
  {
    JumpingTiles(ds, g);
    JumpingLeads(ds, g);
    JumpingLoops(g);
    JumpingRises(ds);
    hide Classify, Tiled, BranchesLand, LeadersNeeded, LoopsOk, HeaderOf, Increasing, IsEnd;
  }

  lemma JumpingRises(ds: seq<Decoded>)
    requires ds == Jumping()
    ensures Increasing(ds) && forall k :: 0 <= k < |ds| - 1 ==> !IsEnd(ds[k])
  {
    JumpingKinds(ds);
    hide Classify;
    forall k | 0 <= k < |ds| ensures ds[k].offset == k && (k < 4 ==> !IsEnd(ds[k])) {
      assert k == 0 || k == 1 || k == 2 || k == 3 || k == 4;
    }
  }

  // The builder accepts it, and its entry reaches the back-edge block without meeting the header.
  lemma HeaderNeedNotDominate(ds: seq<Decoded>, g: Graph)
    requires ds == Jumping() && g == JumpingGraph()
    ensures Accepted(ds, g) && LoopOf(g, 3).Some? && EnteredInside(g, HeaderOf(g, 3), 3)
    ensures !DominatesLoop(g, HeaderOf(g, 3), 3)
  {
    JumpingIsAccepted(ds, g);
    JumpingLoops(g);
    JumpingEnters(g);
    hide Accepted, DominatesLoop, EnteredInside, HeaderOf, LoopOf, LoopsOk;
    HeaderDominatesIff(ds, g, 3);
  }
}
