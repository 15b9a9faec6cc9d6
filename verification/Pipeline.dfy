// From machine code to a run: the decoder and the splice give the graph builder the increasing
// offsets it needs, the builder rejects exactly the streams that have no accepted graph, and the
// interpreter run on an accepted graph stops for a documented reason.

module Pipeline {
  import opened Words
  import opened Isa
  import opened Wavefront
  import opened Cfg
  import opened CfgFacts
  import opened Decoder
  import opened FetchShader
  import opened FetchCall
  import opened Walk
  import opened WalkBounds

  lemma DecodedIncreases(code: seq<u32>)
    requires |code| < TWO32
    ensures Increasing(DecodeFrom(code, 0))
  {
    hide DecodeFrom;
    DecodeTiles(code, 0);
    TilesIncrease(DecodeFrom(code, 0), 0, |code|);
  }

  // The spliced stream is one the graph builder can take.
  lemma ResolvedIncreases(main: seq<Decoded>, fetch: seq<Decoded>, out: seq<Decoded>, c: nat, ret: nat)
    requires Resolved(main, fetch, out, c, ret) && Sized(main) && Sized(fetch)
    ensures Increasing(out) && Sized(out)
  {
    hide IsFetchShader, DwordsTo, Resolved;
    RenumberedParts(main, fetch, out, c, ret);
    var s := Splice(main, c, fetch, ret);
    forall i, j | 0 <= i < j < |out| ensures out[i].offset < out[j].offset {
      DwordsStrict(s, i, j);
    }
  }

  // A branch that pass 1 objects to has no graph to land in.
  lemma SoundHasNoError(live: seq<Decoded>, g: Graph, k: nat)
    requires Sound(live, g) && k < |live|
    ensures BranchError(live, k).None?
  {
    hide LeadersNeeded, Classify;
    if IsBranch(live[k]) {
      var x := TargetOf(live[k]);
      assert IsLeader(g, x);
      var b :| 0 <= b < |g.blocks| && g.blocks[b].start == x;
      BlockFacts(live, g, b);
      var lo := Lo(g, b);
      assert live[lo].offset == x;
    }
  }

  // What `build_cfg` can answer: the accepted graph, which is the only one, or an error, and then
  // there is none.
  lemma RejectedHasNoGraph(insts: seq<Decoded>, g: Graph, h: Graph)
    requires Increasing(insts)
    requires (exists k :: 0 <= k < |LiveStream(insts)| && BranchError(LiveStream(insts), k).Some?)
             || (Sound(LiveStream(insts), h) && !LoopsOk(h))
    ensures !Runnable(insts, g)
  {
    hide Sound, LoopsOk, BranchError, Increasing;
    var live := LiveStream(insts);
    LiveIsIncreasing(insts);
    if Sound(live, g) {
      forall k | 0 <= k < |live| ensures BranchError(live, k).None? {
        SoundHasNoError(live, g, k);
      }
      SoundGraphIsUnique(live, g, h);
    }
  }

  datatype RunError = BadGraph(error: CfgError) | WalkFailed(why: Failure)

  // `Interp::execute`: build the graph and walk it.
  method Execute(env: Env, insts: seq<Decoded>, w: Wave) returns (r: Result<Wave, RunError>)
    requires Increasing(insts)
    ensures r.Ok? ==> exists g :: Runnable(insts, g) && WalkGraph(env, insts, g, w) == Ended(r.value)
    ensures r.Err? && r.error.WalkFailed? ==>
      LegalFailure(r.error.why) && exists g :: Runnable(insts, g) && WalkGraph(env, insts, g, w) == Failed(r.error.why)
    ensures r.Err? && r.error.BadGraph? <==> forall g :: !Runnable(insts, g)
  {
    hide Sound, LoopsOk, WalkGraph, BranchError, Runnable, Increasing;
    var built := BuildCfg(insts);
    if built.Err? {
      forall g ensures !Runnable(insts, g) {
        if exists k :: 0 <= k < |LiveStream(insts)| && BranchError(LiveStream(insts), k).Some? {
          RejectedHasNoGraph(insts, g, g);
        } else {
          var h :| Sound(LiveStream(insts), h) && !LoopsOk(h);
          RejectedHasNoGraph(insts, g, h);
        }
      }
      return Err(BadGraph(built.error));
    }
    var g := built.value;
    BuiltIsRunnable(insts, g);
    CapsAreDead(env, insts, g, w);
    var interp := new Interp(env, insts, g, w);
    var status := interp.ExecuteCfg();
    if status.Broken? {
      return Err(WalkFailed(status.why));
    }
    r := Ok(interp.State());
  }

  // `resolve_fetch_call_from_code`, on decoded main code: what it returns goes straight to `Execute`.
  method ResolveFromCode(main: seq<Decoded>, fetchCode: seq<u32>) returns (r: Result<seq<Decoded>, ResolveError>)
    requires Sized(main) && |fetchCode| < TWO32
    requires DwordsTo(main, |main|) + |fetchCode| < TWO32
    ensures r.Ok? ==> Increasing(r.value) && !HasFetchCall(r.value)
    ensures r.Ok? ==> exists c: nat, ret: nat :: Resolved(main, DecodeFrom(fetchCode, 0), r.value, c, ret)
    ensures r.Err? ==> !r.error.NoFetchReturn?
  {
    hide DecodeFrom, DwordsTo, Resolved, Increasing, HasFetchCall, Sized;
    var fetch := DecodeAll(fetchCode);
    DecodeTiles(fetchCode, 0);
    TilesSize(fetch, 0, |fetchCode|);
    r := ResolveFetchCall(main, fetch);
    if r.Ok? {
      ghost var c: nat, ret: nat :| Resolved(main, fetch, r.value, c, ret);
      ResolvedIncreases(main, fetch, r.value, c, ret);
      NoCallLeft(main, fetch, r.value, c, ret);
    }
  }

  lemma {:induction false} TilesSize(ds: seq<Decoded>, lo: nat, hi: nat)
    requires Tiles(ds, lo, hi)
    ensures Sized(ds) && DwordsTo(ds, |ds|) == hi - lo
  {
    if ds != [] {
      TilesSize(ds[1..], lo + ds[0].size, hi);
      assert ds == [ds[0]] + ds[1..];
      DwordsAfterFirst(ds, |ds|);
      forall i | 0 <= i < |ds| ensures ds[i].size >= 1 {
        assert i > 0 ==> ds[i] == ds[1..][i - 1];
      }
    }
  }

  lemma {:induction false} DwordsAfterFirst(ds: seq<Decoded>, i: nat)
    requires 0 < i <= |ds|
    ensures DwordsTo(ds, i) == ds[0].size + DwordsTo(ds[1..], i - 1)
  {
    if i > 1 { DwordsAfterFirst(ds, i - 1); }
  }
}
