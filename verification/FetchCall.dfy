// Inlining a vertex shader's fetch call: the stream transform, and the proof that straight
// execution of the spliced stream does what the call and return do over two streams.

module FetchCall {
  import opened Words
  import opened Bits
  import opened Isa
  import opened Wavefront
  import opened LaneLoops
  import opened Cfg
  import opened Walk
  import opened FetchShader

  datatype ResolveError = NoCall | MultipleCalls | BadCallShape(offset: nat) | UnrecognizedFetchBody | NoFetchReturn

  predicate IsSwappc(d: Decoded) { d.inst.Sop1? && d.inst.op == S_SWAPPC_B64 }

  lemma CallByNumber(d: Decoded)
    ensures IsSwappc(d) <==> d.inst.Sop1? && d.inst.op == 0x21
  {
  }

  predicate HasFetchCall(ds: seq<Decoded>) { exists i :: 0 <= i < |ds| && IsSwappc(ds[i]) }

  // `c` is the stream's only call site.
  predicate OnlyCall(ds: seq<Decoded>, c: nat) {
    c < |ds| && IsSwappc(ds[c]) && forall i :: 0 <= i < |ds| && i != c ==> !IsSwappc(ds[i])
  }

  // The call's fetch pointer and return-PC save are SGPR pairs.
  predicate GoodCall(d: Decoded) {
    d.inst.Sop1? && d.inst.sdst.Sgpr? && d.inst.ssrc0.Sgpr?
  }

  // Every instruction takes at least one dword.
  ghost predicate Sized(ds: seq<Decoded>) {
    forall i :: 0 <= i < |ds| ==> ds[i].size >= 1
  }

  // Dwords before instruction `i`.
  function DwordsTo(ds: seq<Decoded>, i: nat): nat
    requires i <= |ds|
  {
    if i == 0 then 0 else DwordsTo(ds, i - 1) + ds[i - 1].size
  }

  function Splice(main: seq<Decoded>, c: nat, fetch: seq<Decoded>, ret: nat): seq<Decoded>
    requires c < |main| && ret <= |fetch|
  {
    main[..c] + fetch[..ret] + main[c + 1..]
  }

  // The stream with every offset the sum of the sizes before it.
  predicate IsRenumbering(ds: seq<Decoded>, out: seq<Decoded>) {
    |out| == |ds| && forall i :: 0 <= i < |ds| ==>
      out[i].inst == ds[i].inst && out[i].size == ds[i].size && out[i].offset == DwordsTo(ds, i)
  }

  // `out` is `main` with the call replaced by the fetch body, offsets renumbered.
  predicate Resolved(main: seq<Decoded>, fetch: seq<Decoded>, out: seq<Decoded>, c: nat, ret: nat) {
    && OnlyCall(main, c) && GoodCall(main[c])
    && IsFetchShader(fetch, ret)
    && IsRenumbering(Splice(main, c, fetch, ret), out)
  }

  method Renumber(ds: seq<Decoded>) returns (out: seq<Decoded>)
    requires DwordsTo(ds, |ds|) < TWO32
    ensures IsRenumbering(ds, out)
  {
    out := ds;
    var pc := 0;
    for i := 0 to |ds|
      invariant pc == DwordsTo(ds, i) && RenumberedTo(ds, out, i)
    {
      NextDwords(ds, i);
      ghost var before := out;
      out := out[i := out[i].(offset := pc)];
      RenumberStep(ds, before, out, i);
      pc := pc + ds[i].size;
    }
  }

  // The first `i` instructions have their new offsets, the others their old ones.
  ghost predicate RenumberedTo(ds: seq<Decoded>, out: seq<Decoded>, i: nat)
    requires i <= |ds|
  {
    && |out| == |ds|
    && (forall k :: 0 <= k < i ==>
          out[k].inst == ds[k].inst && out[k].size == ds[k].size && out[k].offset == DwordsTo(ds, k))
    && (forall k :: i <= k < |ds| ==> out[k] == ds[k])
  }

  lemma RenumberStep(ds: seq<Decoded>, before: seq<Decoded>, out: seq<Decoded>, i: nat)
    requires i < |ds| && RenumberedTo(ds, before, i) && DwordsTo(ds, i) < TWO32
    requires out == before[i := before[i].(offset := DwordsTo(ds, i))]
    ensures RenumberedTo(ds, out, i + 1)
  {
    hide DwordsTo;
  }

  lemma {:induction false} DwordsGrow(ds: seq<Decoded>, i: nat, j: nat)
    requires i <= j <= |ds|
    ensures DwordsTo(ds, i) <= DwordsTo(ds, j)
    decreases j
  {
    if i < j {
      DwordsGrow(ds, i, j - 1);
    }
  }

  lemma {:induction false} DwordsStrict(ds: seq<Decoded>, i: nat, j: nat)
    requires Sized(ds) && i < j <= |ds|
    ensures DwordsTo(ds, i) < DwordsTo(ds, j)
    decreases j
  {
    if i < j - 1 {
      DwordsStrict(ds, i, j - 1);
    }
  }

  lemma NextDwords(ds: seq<Decoded>, i: nat)
    requires i < |ds|
    ensures DwordsTo(ds, i) <= DwordsTo(ds, i + 1) == DwordsTo(ds, i) + ds[i].size <= DwordsTo(ds, |ds|)
  {
    DwordsGrow(ds, i + 1, |ds|);
  }

  // The first call at or after `i`.
  function NextCall(ds: seq<Decoded>, i: nat): (r: Option<nat>)
    requires i <= |ds|
    ensures r.Some? ==> i <= r.value < |ds| && IsSwappc(ds[r.value]) && forall k :: i <= k < r.value ==> !IsSwappc(ds[k])
    ensures r.None? ==> forall k :: i <= k < |ds| ==> !IsSwappc(ds[k])
    decreases |ds| - i
  {
    if i == |ds| then None else if IsSwappc(ds[i]) then Some(i) else NextCall(ds, i + 1)
  }

  function FirstReturn(ds: seq<Decoded>, i: nat): (r: Option<nat>)
    requires i <= |ds|
    ensures r.Some? ==> i <= r.value < |ds| && IsFetchReturn(ds[r.value].inst)
                        && forall k :: i <= k < r.value ==> !IsFetchReturn(ds[k].inst)
    ensures r.None? ==> forall k :: i <= k < |ds| ==> !IsFetchReturn(ds[k].inst)
    decreases |ds| - i
  {
    if i == |ds| then None else if IsFetchReturn(ds[i].inst) then Some(i) else FirstReturn(ds, i + 1)
  }

  // Splices the fetch body over the one call, or says why not; a recognised body always has
  // the return the splice looks for.
  method ResolveFetchCall(main: seq<Decoded>, fetch: seq<Decoded>)
    returns (r: Result<seq<Decoded>, ResolveError>)
    requires DwordsTo(main, |main|) + DwordsTo(fetch, |fetch|) < TWO32
    ensures r.Ok? ==> exists c: nat, ret: nat :: Resolved(main, fetch, r.value, c, ret)
    ensures r == Err(NoCall) <==> !HasFetchCall(main)
    ensures r == Err(MultipleCalls) <==> HasFetchCall(main) && forall c: nat :: !OnlyCall(main, c)
    ensures r.Err? && r.error.BadCallShape? <==> exists c: nat :: OnlyCall(main, c) && !GoodCall(main[c])
    ensures r.Err? && r.error.BadCallShape? ==> exists c: nat :: OnlyCall(main, c) && r.error == BadCallShape(main[c].offset)
    ensures r == Err(UnrecognizedFetchBody) <==>
      (exists c: nat :: OnlyCall(main, c) && GoodCall(main[c])) && forall ret: nat :: !IsFetchShader(fetch, ret)
    ensures r != Err(NoFetchReturn)
  {
    hide DwordsTo, Splice, IsRenumbering, GoodCall;
    var call := NextCall(main, 0);
    if call.None? {
      return Err(NoCall);
    }
    var c := call.value;
    if NextCall(main, c + 1).Some? {
      return Err(MultipleCalls);
    }
    assert OnlyCall(main, c);
    if !GoodCall(main[c]) {
      return Err(BadCallShape(main[c].offset));
    }
    var layout := ParseFetchShader(fetch);
    if layout.None? {
      return Err(UnrecognizedFetchBody);
    }
    ghost var body: nat :| IsFetchShader(fetch, body);
    ReturnIsFirst(fetch, body);
    var ret := FirstReturn(fetch, 0);
    assert ret.Some?;
    assert ret.value == body;
    SplicedFits(main, c, fetch, ret.value);
    var out := Renumber(Splice(main, c, fetch, ret.value));
    assert Resolved(main, fetch, out, c, ret.value);
    r := Ok(out);
  }

  lemma SplicedFits(main: seq<Decoded>, c: nat, fetch: seq<Decoded>, ret: nat)
    requires c < |main| && ret <= |fetch|
    ensures var spliced := Splice(main, c, fetch, ret);
            DwordsTo(spliced, |spliced|) <= DwordsTo(main, |main|) + DwordsTo(fetch, |fetch|)
  {
    SpliceDwords(main, c, fetch, ret, |Splice(main, c, fetch, ret)|);
    DwordsGrow(fetch, ret, |fetch|);
    DwordsGrow(main, c, |main|);
  }

  // Where each instruction of the spliced stream starts.
  lemma {:induction false} SpliceDwords(main: seq<Decoded>, c: nat, fetch: seq<Decoded>, ret: nat, i: nat)
    requires c < |main| && ret <= |fetch| && i <= |Splice(main, c, fetch, ret)|
    ensures DwordsTo(Splice(main, c, fetch, ret), i) ==
      if i <= c then DwordsTo(main, i)
      else if i <= c + ret then DwordsTo(main, c) + DwordsTo(fetch, i - c)
      else DwordsTo(main, i - ret + 1) - main[c].size + DwordsTo(fetch, ret)
    decreases i
  {
    if i > 0 {
      SpliceDwords(main, c, fetch, ret, i - 1);
      var s := Splice(main, c, fetch, ret);
      assert s[i - 1] == if i - 1 < c then main[i - 1] else if i - 1 < c + ret then fetch[i - 1 - c] else main[i - ret];
      if i == c + ret + 1 {
        assert DwordsTo(main, c + 1) == DwordsTo(main, c) + main[c].size;
        assert DwordsTo(main, c + 2) == DwordsTo(main, c + 1) + main[c + 1].size;
      }
    }
  }

  // ---- what the result looks like ------------------------------------------------------------

  // The instruction that ends up at index `i`.
  function Origin(main: seq<Decoded>, c: nat, fetch: seq<Decoded>, ret: nat, i: nat): Decoded
    requires c < |main| && ret <= |fetch| && i < |main| - 1 + ret
  {
    if i < c then main[i] else if i < c + ret then fetch[i - c] else main[i - ret + 1]
  }

  lemma OutAt(main: seq<Decoded>, fetch: seq<Decoded>, out: seq<Decoded>, c: nat, ret: nat, i: nat)
    requires c < |main| && ret <= |fetch| && IsRenumbering(Splice(main, c, fetch, ret), out) && i < |out|
    ensures |out| == |main| - 1 + ret
    ensures var d := Origin(main, c, fetch, ret, i);
            out[i].inst == d.inst && out[i].size == d.size && out[i].offset == DwordsTo(Splice(main, c, fetch, ret), i)
  {
    assert Splice(main, c, fetch, ret)[i] == Origin(main, c, fetch, ret, i);
  }

  // No call is left, and the returns that are left are exactly those of the main stream itself.
  lemma NoCallLeft(main: seq<Decoded>, fetch: seq<Decoded>, out: seq<Decoded>, c: nat, ret: nat)
    requires Resolved(main, fetch, out, c, ret)
    ensures !HasFetchCall(out)
    ensures forall i :: 0 <= i < |out| && IsFetchReturn(out[i].inst) ==>
      exists k :: 0 <= k < |main| && k != c && NewIndex(c, ret, k) == i && IsFetchReturn(main[k].inst)
    ensures (exists i :: 0 <= i < |out| && IsFetchReturn(out[i].inst)) <==>
            (exists k :: 0 <= k < |main| && k != c && IsFetchReturn(main[k].inst))
  {
    hide IsFetchShader, IsRenumbering, Splice;
    ReturnIsFirst(fetch, ret) by { ShaderOf(main, fetch, out, c, ret); }
    forall i | 0 <= i < |out|
      ensures !IsSwappc(out[i])
      ensures IsFetchReturn(out[i].inst) ==>
        exists k :: 0 <= k < |main| && k != c && NewIndex(c, ret, k) == i && IsFetchReturn(main[k].inst)
    {
      ShaderOf(main, fetch, out, c, ret);
      OutAt(main, fetch, out, c, ret, i);
      var k := if i < c then i else i - ret + 1;
      if i < c || i >= c + ret {
        assert out[i].inst == main[k].inst && k != c && NewIndex(c, ret, k) == i;
      } else {
        assert !IsFetchReturn(fetch[i - c].inst);
      }
    }
    forall k | 0 <= k < |main| && k != c && IsFetchReturn(main[k].inst)
      ensures NewIndex(c, ret, k) < |out| && IsFetchReturn(out[NewIndex(c, ret, k)].inst)
    {
      NewOffset(main, fetch, out, c, ret, k);
    }
  }

  lemma ShaderOf(main: seq<Decoded>, fetch: seq<Decoded>, out: seq<Decoded>, c: nat, ret: nat)
    requires Resolved(main, fetch, out, c, ret)
    ensures IsFetchShader(fetch, ret) && 0 < ret < |fetch| && c < |main|
  {
    assert Attributes(fetch, 0) == [];
  }

  // Index in the spliced stream of main instruction `i`; the call maps to the body's start.
  function NewIndex(c: nat, ret: nat, i: nat): nat {
    if i <= c then i else i - 1 + ret
  }

  // A branch of the main stream, at `i` and naming instruction `k`, still names the same
  // instruction after the splice exactly when it does not cross the call, or the body happens
  // to be as long as the call it replaces.
  lemma BranchStillNames(main: seq<Decoded>, fetch: seq<Decoded>, out: seq<Decoded>, c: nat, ret: nat, i: nat, k: nat)
    requires Resolved(main, fetch, out, c, ret) && i < |main| && k < |main| && i != c
    requires main[i].inst.Sopp? && main[i].offset == DwordsTo(main, i)
    requires BranchTarget(main[i].offset, main[i].size, main[i].inst.simm16) == DwordsTo(main, k)
    ensures var b := out[NewIndex(c, ret, i)];
            && b.inst == main[i].inst
            && (BranchTarget(b.offset, b.size, b.inst.simm16) == out[NewIndex(c, ret, k)].offset <==>
                  (i < c <==> k <= c) || DwordsTo(fetch, ret) == main[c].size)
  {
    hide IsFetchShader, Splice;
    ShaderOf(main, fetch, out, c, ret);
    NewOffset(main, fetch, out, c, ret, i);
    NewOffset(main, fetch, out, c, ret, k);
  }

  // Where a main instruction starts after the splice.
  lemma NewOffset(main: seq<Decoded>, fetch: seq<Decoded>, out: seq<Decoded>, c: nat, ret: nat, i: nat)
    requires Resolved(main, fetch, out, c, ret) && i < |main|
    ensures var j := NewIndex(c, ret, i);
            && j < |out|
            && (i != c ==> out[j].inst == main[i].inst && out[j].size == main[i].size)
            && out[j].offset == if i <= c then DwordsTo(main, i) else DwordsTo(main, i) - main[c].size + DwordsTo(fetch, ret)
  {
    hide IsFetchShader, Splice, DwordsTo, Resolved, IsRenumbering;
    RenumberedParts(main, fetch, out, c, ret);
    var j := NewIndex(c, ret, i);
    SpliceLength(main, fetch, c, ret);
    OutAt(main, fetch, out, c, ret, j);
    SpliceDwords(main, c, fetch, ret, j);
    AfterCall(main, c);
  }

  lemma RenumberedParts(main: seq<Decoded>, fetch: seq<Decoded>, out: seq<Decoded>, c: nat, ret: nat)
    requires Resolved(main, fetch, out, c, ret)
    ensures c < |main| && 0 < ret < |fetch| && IsFetchShader(fetch, ret)
    ensures IsRenumbering(Splice(main, c, fetch, ret), out) && |out| == |main| - 1 + ret
  {
    ShaderOf(main, fetch, out, c, ret);
    SpliceLength(main, fetch, c, ret);
  }

  lemma AfterCall(main: seq<Decoded>, c: nat)
    requires c < |main|
    ensures DwordsTo(main, c + 1) == DwordsTo(main, c) + main[c].size
  {
  }

  lemma SpliceLength(main: seq<Decoded>, fetch: seq<Decoded>, c: nat, ret: nat)
    requires c < |main| && ret <= |fetch|
    ensures |Splice(main, c, fetch, ret)| == |main| - 1 + ret
  {
  }
}
