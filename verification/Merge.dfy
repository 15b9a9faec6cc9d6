// Where the two arms of a forward conditional reconverge.

module Merge {
  import opened Words
  import opened Isa
  import opened Cfg
  import opened CfgFacts

  // The block indices reached from `b` along unconditional edges, appended to `seen`.
  function Reach(g: Graph, b: nat, seen: seq<nat>): seq<nat>
    requires b < |g.blocks|
    decreases |g.blocks| + 1 - |seen|
  {
    var next := UncondSucc(g, b);
    if next.None? || next.value in seen || |seen| > |g.blocks| then seen
    else Reach(g, next.value, seen + [next.value])
  }

  // The lowest leader among the blocks listed in both chains.
  function LowestCommon(g: Graph, s: seq<nat>, t: seq<nat>): Option<nat>
    requires forall i :: 0 <= i < |s| ==> s[i] < |g.blocks|
  {
    if |s| == 0 then None
    else
      var rest := LowestCommon(g, s[1..], t);
      if s[0] !in t then rest
      else if rest.Some? && rest.value < g.blocks[s[0]].start then rest
      else Some(g.blocks[s[0]].start)
  }

  lemma {:induction false} ReachInRange(g: Graph, b: nat, seen: seq<nat>)
    requires b < |g.blocks| && forall i :: 0 <= i < |seen| ==> seen[i] < |g.blocks|
    ensures forall i :: 0 <= i < |Reach(g, b, seen)| ==> Reach(g, b, seen)[i] < |g.blocks|
    decreases |g.blocks| + 1 - |seen|
  {
    var next := UncondSucc(g, b);
    if next.Some? && next.value !in seen && |seen| <= |g.blocks| {
      ReachInRange(g, next.value, seen + [next.value]);
    }
  }

  function MergeTarget(g: Graph, bi: nat): Option<nat>
    requires bi < |g.blocks|
  {
    match g.blocks[bi].term
    case Cond(_, taken, fall) =>
      var t :- BlockIndexAt(g, taken);
      var f :- BlockIndexAt(g, fall);
      ReachInRange(g, t, [t]);
      LowestCommon(g, Reach(g, t, [t]), Reach(g, f, [f]))
    case _ => None
  }

  // The loop the source runs for each arm.
  method ReachLoop(g: Graph, start: nat) returns (seen: seq<nat>)
    requires start < |g.blocks|
    ensures seen == Reach(g, start, [start])
  {
    seen := [start];
    var b: nat := start;
    var next := UncondSucc(g, b);
    while next.Some? && next.value !in seen && |seen| <= |g.blocks|
      invariant b < |g.blocks| && next == UncondSucc(g, b)
      invariant Reach(g, b, seen) == Reach(g, start, [start])
      decreases |g.blocks| + 1 - |seen|
    {
      seen := seen + [next.value];
      b := next.value;
      next := UncondSucc(g, b);
    }
  }

  method FindMerge(g: Graph, bi: nat) returns (r: Option<nat>)
    requires bi < |g.blocks|
    ensures r == MergeTarget(g, bi)
  {
    if !g.blocks[bi].term.Cond? {
      return None;
    }
    var t, f := BlockIndexAt(g, g.blocks[bi].term.taken), BlockIndexAt(g, g.blocks[bi].term.fall);
    if t.None? || f.None? {
      return None;
    }
    var takenReach := ReachLoop(g, t.value);
    var fallReach := ReachLoop(g, f.value);
    ReachInRange(g, t.value, [t.value]);
    return LowestCommon(g, takenReach, fallReach);
  }

  // ---- chains -----------------------------------------------------------------------

  // `p` follows unconditional edges.
  ghost predicate Chain(g: Graph, p: seq<nat>) {
    && |p| > 0
    && (forall i :: 0 <= i < |p| ==> p[i] < |g.blocks|)
    && (forall i :: 0 <= i < |p| - 1 ==> UncondSucc(g, p[i]) == Some(p[i + 1]))
  }

  ghost predicate Forward(p: seq<nat>) {
    forall i, j :: 0 <= i < j < |p| ==> p[i] < p[j]
  }

  // Unconditional edges of an accepted graph go to a later block.
  lemma UncondForward(live: seq<Decoded>, g: Graph, b: nat)
    requires Accepted(live, g) && b < |g.blocks| && UncondSucc(g, b).Some?
    ensures b < UncondSucc(g, b).value
  {
    hide Accepted;
    var n := UncondSucc(g, b).value;
    assert HasTarget(g.blocks[b].term, g.blocks[n].start);
    EdgesLandForward(live, g, b, g.blocks[n].start);
    if n < b {
      assert Increasing(live) && Tiled(live, g) by { AcceptedBasics(live, g); }
      StartsAscend(live, g, n, b);
    }
  }

  lemma AcceptedBasics(live: seq<Decoded>, g: Graph)
    requires Accepted(live, g)
    ensures Increasing(live) && Tiled(live, g) && Sound(live, g)
  {
  }

  lemma {:induction false} ForwardBound(p: seq<nat>, n: nat)
    requires Forward(p) && forall i :: 0 <= i < |p| ==> p[i] < n
    ensures |p| <= n
  {
    if |p| > 0 {
      ForwardBound(p[..|p| - 1], p[|p| - 1]);
    }
  }

  // In an accepted graph neither the repeat test nor the length cap ever cuts a chain short:
  // `Reach` is the whole forward chain, up to a block with no unconditional successor.
  lemma {:induction false} ReachIsChain(live: seq<Decoded>, g: Graph, b: nat, seen: seq<nat>)
    requires Accepted(live, g) && Chain(g, seen) && Forward(seen) && seen[|seen| - 1] == b
    ensures var r := Reach(g, b, seen);
            && seen <= r && Chain(g, r) && Forward(r)
            && UncondSucc(g, r[|r| - 1]).None?
    decreases |g.blocks| + 1 - |seen|
  {
    hide Accepted, UncondSucc;
    ForwardBound(seen, |g.blocks|);
    var next := UncondSucc(g, b);
    if next.Some? {
      UncondForward(live, g, b);
      var more := seen + [next.value];
      OneFurther(g, b, seen, next.value);
      hide Chain, Forward;
      ReachIsChain(live, g, next.value, more);
      assert seen <= more;
    }
  }

  lemma OneFurther(g: Graph, b: nat, seen: seq<nat>, next: nat)
    requires Chain(g, seen) && Forward(seen) && seen[|seen| - 1] == b && UncondSucc(g, b) == Some(next) && next > b
    ensures Chain(g, seen + [next]) && Forward(seen + [next]) && next !in seen
  {
    hide UncondSucc;
  }

  lemma ReachFrom(live: seq<Decoded>, g: Graph, b: nat)
    requires Accepted(live, g) && b < |g.blocks|
    ensures var r := Reach(g, b, [b]); Chain(g, r) && Forward(r) && r[0] == b
  {
    hide Accepted, UncondSucc;
    ReachIsChain(live, g, b, [b]);
  }

  lemma {:induction false} LowestIsCommon(live: seq<Decoded>, g: Graph, s: seq<nat>, t: seq<nat>)
    requires Increasing(live) && Tiled(live, g) && Forward(s)
    requires forall i :: 0 <= i < |s| ==> s[i] < |g.blocks|
    ensures LowestCommon(g, s, t).None? <==> forall i :: 0 <= i < |s| ==> s[i] !in t
    ensures LowestCommon(g, s, t).Some? ==>
      exists i :: 0 <= i < |s| && s[i] in t && g.blocks[s[i]].start == LowestCommon(g, s, t).value
                  && forall j :: 0 <= j < i ==> s[j] !in t
  {
    hide Increasing, Tiled;
    if |s| > 0 {
      LowestIsCommon(live, g, s[1..], t);
      var rest := LowestCommon(g, s[1..], t);
      if rest.Some? {
        var i :| 0 <= i < |s[1..]| && s[1..][i] in t && g.blocks[s[1..][i]].start == rest.value
                 && forall j :: 0 <= j < i ==> s[1..][j] !in t;
        StartsAscend(live, g, s[0], s[i + 1]);
        assert s[i + 1] == s[1..][i];
        assert s[0] !in t ==> forall j :: 0 <= j < i + 1 ==> s[j] !in t;
      }
    }
  }

  // ---- reconvergence ------------------------------------------------------------------

  ghost predicate Unconditional(t: Terminator) { t.Fallthrough? || t.Branch? }

  // `p` is an arm: from `start` along unconditional edges to its last block, which it meets
  // only there.
  ghost predicate Arm(g: Graph, p: seq<nat>, start: nat, merge: nat) {
    && Chain(g, p) && Forward(p)
    && g.blocks[p[0]].start == start && g.blocks[p[|p| - 1]].start == merge
    && (forall i :: 0 <= i < |p| - 1 ==> Unconditional(g.blocks[p[i]].term))
  }

  lemma TakeArm(g: Graph, r: seq<nat>, i: nat, start: nat)
    requires Chain(g, r) && Forward(r) && i < |r| && g.blocks[r[0]].start == start
    ensures Arm(g, r[..i + 1], start, g.blocks[r[i]].start)
  {
    var p := r[..i + 1];
    forall k | 0 <= k < |p| - 1
      ensures Unconditional(g.blocks[p[k]].term)
    {
      assert p[k] == r[k] && UncondSucc(g, r[k]) == Some(r[k + 1]);
    }
  }

  // The arms meet only at their last blocks.
  ghost predicate MeetAtEnd(p: seq<nat>, q: seq<nat>)
    requires |p| > 0 && |q| > 0
  {
    && p[|p| - 1] == q[|q| - 1]
    && (forall i, j :: 0 <= i < |p| - 1 && 0 <= j < |q| ==> p[i] != q[j])
    && (forall i, j :: 0 <= i < |p| && 0 <= j < |q| - 1 ==> p[i] != q[j])
  }

  lemma PrefixesMeet(s: seq<nat>, t: seq<nat>, i: nat, k: nat)
    requires Forward(t) && i < |s| && k < |t| && s[i] == t[k]
    requires forall j :: 0 <= j < i ==> s[j] !in t
    ensures MeetAtEnd(s[..i + 1], t[..k + 1])
  {
    forall a, b | 0 <= a < i && 0 <= b <= k
      ensures s[a] != t[b]
    {
      assert t[b] in t;
    }
  }

  lemma MergeIsLowest(g: Graph, bi: nat) returns (ti: nat, fi: nat)
    requires bi < |g.blocks| && MergeTarget(g, bi).Some?
    ensures g.blocks[bi].term.Cond? && ti < |g.blocks| && fi < |g.blocks|
    ensures g.blocks[ti].start == g.blocks[bi].term.taken && g.blocks[fi].start == g.blocks[bi].term.fall
    ensures forall i :: 0 <= i < |Reach(g, ti, [ti])| ==> Reach(g, ti, [ti])[i] < |g.blocks|
    ensures MergeTarget(g, bi) == LowestCommon(g, Reach(g, ti, [ti]), Reach(g, fi, [fi]))
  {
    hide LowestCommon, Reach;
    ti, fi := BlockIndexAt(g, g.blocks[bi].term.taken).value, BlockIndexAt(g, g.blocks[bi].term.fall).value;
    ReachInRange(g, ti, [ti]);
  }

  // Both chains of a conditional with a merge, and the first position they share.
  lemma CommonBlock(live: seq<Decoded>, g: Graph, bi: nat) returns (rt: seq<nat>, rf: seq<nat>, i: nat, k: nat)
    requires Accepted(live, g) && bi < |g.blocks| && MergeTarget(g, bi).Some?
    ensures g.blocks[bi].term.Cond?
    ensures Chain(g, rt) && Forward(rt) && g.blocks[rt[0]].start == g.blocks[bi].term.taken
    ensures Chain(g, rf) && Forward(rf) && g.blocks[rf[0]].start == g.blocks[bi].term.fall
    ensures i < |rt| && k < |rf| && rt[i] == rf[k] && (forall j :: 0 <= j < i ==> rt[j] !in rf)
    ensures g.blocks[rt[i]].start == MergeTarget(g, bi).value
  {
    hide Accepted, Increasing, Tiled, UncondSucc, Reach, LowestCommon, MergeTarget, Sound, Forward;
    AcceptedBasics(live, g);
    var ti, fi := MergeIsLowest(g, bi);
    ReachFrom(live, g, ti);
    ReachFrom(live, g, fi);
    rt, rf := Reach(g, ti, [ti]), Reach(g, fi, [fi]);
    LowestIsCommon(live, g, rt, rf);
    i :| 0 <= i < |rt| && rt[i] in rf && g.blocks[rt[i]].start == MergeTarget(g, bi).value
         && forall j :: 0 <= j < i ==> rt[j] !in rf;
    k :| 0 <= k < |rf| && rf[k] == rt[i];
  }

  // When `merge_target` names a merge `m` for a conditional, both arms are unconditional
  // chains that reach `m` and share no block before it, so `m` is the first block common to
  // both; and no instruction an arm runs before `m` is an `s_endpgm`.
  lemma Reconvergence(live: seq<Decoded>, g: Graph, bi: nat) returns (pt: seq<nat>, pf: seq<nat>)
    requires Accepted(live, g) && bi < |g.blocks| && MergeTarget(g, bi).Some?
    ensures g.blocks[bi].term.Cond?
    ensures Arm(g, pt, g.blocks[bi].term.taken, MergeTarget(g, bi).value)
    ensures Arm(g, pf, g.blocks[bi].term.fall, MergeTarget(g, bi).value)
    ensures MeetAtEnd(pt, pf)
    ensures forall i :: 0 <= i < |pt| - 1 ==> NoEnd(live, g, pt[i])
    ensures forall j :: 0 <= j < |pf| - 1 ==> NoEnd(live, g, pf[j])
  {
    hide Accepted, Chain, Forward, UncondSucc, MergeTarget;
    var rt, rf, i, k := CommonBlock(live, g, bi);
    pt, pf := rt[..i + 1], rf[..k + 1];
    TakeArm(g, rt, i, g.blocks[bi].term.taken);
    TakeArm(g, rf, k, g.blocks[bi].term.fall);
    PrefixesMeet(rt, rf, i, k);
    AcceptedBasics(live, g);
    ArmHasNoEnd(live, g, pt, g.blocks[bi].term.taken, MergeTarget(g, bi).value);
    ArmHasNoEnd(live, g, pf, g.blocks[bi].term.fall, MergeTarget(g, bi).value);
  }

  ghost predicate NoEnd(live: seq<Decoded>, g: Graph, b: nat)
    requires b < |g.blocks|
  {
    forall k :: 0 <= k < |g.blocks[b].insts| ==> g.blocks[b].insts[k] < |live| && !IsEnd(live[g.blocks[b].insts[k]])
  }

  lemma UnconditionalHasNoEnd(live: seq<Decoded>, g: Graph, b: nat)
    requires Tiled(live, g) && b < |g.blocks| && Unconditional(g.blocks[b].term)
    ensures NoEnd(live, g, b)
  {
    forall k: nat | k < |g.blocks[b].insts|
      ensures g.blocks[b].insts[k] < |live| && !IsEnd(live[g.blocks[b].insts[k]])
    {
      TransfersOnlyAtEnd(live, g, b, k);
    }
  }

  lemma ArmHasNoEnd(live: seq<Decoded>, g: Graph, p: seq<nat>, start: nat, merge: nat)
    requires Tiled(live, g) && Arm(g, p, start, merge)
    ensures forall i :: 0 <= i < |p| - 1 ==> NoEnd(live, g, p[i])
  {
    forall i | 0 <= i < |p| - 1
      ensures NoEnd(live, g, p[i])
    {
      UnconditionalHasNoEnd(live, g, p[i]);
    }
  }

  // The converse: no merge is named exactly when the two whole chains are disjoint.
  lemma NoMergeMeansDisjoint(live: seq<Decoded>, g: Graph, bi: nat)
    requires Accepted(live, g) && bi < |g.blocks| && g.blocks[bi].term.Cond?
    ensures var t := g.blocks[bi].term;
            && BlockIndexAt(g, t.taken).Some? && BlockIndexAt(g, t.fall).Some?
            && var ti, fi := BlockIndexAt(g, t.taken).value, BlockIndexAt(g, t.fall).value;
               MergeTarget(g, bi).None? <==>
                 forall x :: x in Reach(g, ti, [ti]) ==> x !in Reach(g, fi, [fi])
  {
    hide Increasing, Tiled, BranchesLand, LeadersNeeded, LoopsOk, Classify;
    var t := g.blocks[bi].term;
    assert HasTarget(t, t.taken) && HasTarget(t, t.fall);
    EdgesLandForward(live, g, bi, t.taken);
    EdgesLandForward(live, g, bi, t.fall);
    var ti, fi := BlockIndexAt(g, t.taken).value, BlockIndexAt(g, t.fall).value;
    ReachFrom(live, g, ti);
    LowestIsCommon(live, g, Reach(g, ti, [ti]), Reach(g, fi, [fi]));
  }
}
