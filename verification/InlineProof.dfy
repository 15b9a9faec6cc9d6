// Inlining preserves meaning: the call/return run over two streams and the straight run of the
// spliced stream go through related states, in both directions.

module InlineProof {
  import opened Words
  import opened Isa
  import opened Wavefront
  import opened LaneLoops
  import opened Cfg
  import opened Walk
  import opened FetchShader
  import opened FetchCall
  import opened CallMachine

  ghost predicate Numbered(ds: seq<Decoded>) {
    forall i :: 0 <= i < |ds| ==> ds[i].offset == DwordsTo(ds, i)
  }

  // The branch at `i` lands on an instruction on its own side of the call.
  ghost predicate StaysOnSide(ds: seq<Decoded>, c: nat, i: nat)
    requires i < |ds|
  {
    IsCfgBranch(ds[i].inst) ==>
      exists k: nat :: k < |ds| && (i < c <==> k <= c)
                       && BranchTarget(ds[i].offset, ds[i].size, ds[i].inst.simm16) == DwordsTo(ds, k)
  }

  // The streams lie at distinct addresses below 2^64.
  ghost predicate Placed(code: Code) {
    && code.mainBase + 4 * DwordsTo(code.main, |code.main|) < TWO64
    && code.fetchBase + 4 * DwordsTo(code.fetch, |code.fetch|) < TWO64
    && forall i: nat, j: nat :: i <= |code.main| && j <= |code.fetch| ==>
         Address(code, InMain(i)) != Address(code, InFetch(j))
  }

  // The pair the call saves the return PC in and, for every position of the caller, which of its
  // registers may still hold that PC there.
  datatype Saved = Saved(reg: nat, stale: seq<set<nat>>)

  // The instruction at `i` reads no stale register, and what it leaves stale is stale wherever it goes.
  ghost predicate Flows(main: seq<Decoded>, d: Saved, i: nat)
    requires i < |main| && |d.stale| == |main| + 1
  {
    var inst := main[i].inst;
    && Avoids(d.stale[i], inst)
    && (!IsSopp(inst, S_BRANCH) && !IsSopp(inst, S_ENDPGM) ==> Left(d.stale[i], inst) <= d.stale[i + 1])
    && (IsCfgBranch(inst) ==>
          forall k :: 0 <= k < |main| && BranchTarget(main[i].offset, main[i].size, inst.simm16) == DwordsTo(main, k) ==>
            d.stale[i] <= d.stale[k])
  }

  // After the call the caller reads a register of the pair only once it has been replaced.
  ghost predicate Reused(main: seq<Decoded>, c: nat, d: Saved)
    requires c < |main|
  {
    && |d.stale| == |main| + 1 && d.stale[c + 1] == PairAt(d.reg)
    && (forall i :: 0 <= i <= |main| ==> d.stale[i] <= PairAt(d.reg))
    && (forall i :: c < i < |main| ==> Flows(main, d, i))
  }

  // The leaf-call discipline: the return reads the pair that the call saved, the body does not touch
  // it, the rest of the caller reuses it only as scratch, and no branch crosses the call.
  ghost predicate Leaf(code: Code, out: seq<Decoded>, c: nat, ret: nat, d: Saved) {
    && Resolved(code.main, code.fetch, out, c, ret)
    && Sized(code.main) && Sized(code.fetch) && Numbered(code.main) && Placed(code)
    && d.reg + 1 < NUM_SGPRS && code.main[c].inst.sdst == Sgpr(d.reg)
    && code.fetch[ret].inst.ssrc0 == Sgpr(d.reg)
    && (code.fetch[ret].inst.op == S_SWAPPC_B64 ==> code.fetch[ret].inst.sdst == Sgpr(d.reg))
    && (forall j :: 0 <= j < ret ==>
          && Avoids(PairAt(d.reg), code.fetch[j].inst)
          && !InQuad(d.reg, code.fetch[j].inst) && !InQuad(d.reg + 1, code.fetch[j].inst))
    && Reused(code.main, c, d)
    && (forall i :: 0 <= i < |code.main| && i != c ==> !IsFetchReturn(code.main[i].inst))
    && (forall i :: 0 <= i < |code.main| ==> StaysOnSide(code.main, c, i))
  }

  // The spliced stream as a machine of its own; it has no second stream.
  function Spliced(code: Code, out: seq<Decoded>): Code {
    code.(main := out, fetch := [])
  }

  // A call-machine state `s` and the spliced-machine state `t` it corresponds to.
  ghost predicate Sim(code: Code, c: nat, ret: nat, d: Saved, s: State, t: State) {
    match s
    case Run(InMain(i), w) =>
      i <= |code.main| &&
      if i <= c then t == s
      else t.Run? && t.pc == InMain(i - 1 + ret) && i < |d.stale| && Except(d.stale[i], w, t.w)
    case Run(InFetch(j), w) =>
      && j <= ret && c < |code.main| && t.Run? && t.pc == InMain(c + j) && Except(PairAt(d.reg), w, t.w)
      && ReadSgprPair(w, d.reg) == Some(Address(code, InMain(c + 1)))
    case Stopped(w) => t.Stopped? && Except(PairAt(d.reg), w, t.w)
    case Crashed => t.Crashed?
  }

  lemma FindUnique(ds: seq<Decoded>, k: nat, i: nat)
    requires Sized(ds) && i <= k <= |ds|
    ensures FindDwords(ds, DwordsTo(ds, k), i) == Some(k)
  {
    var r := FindDwords(ds, DwordsTo(ds, k), i).value;
    if r < k { DwordsStrict(ds, r, k); }
    if k < r { DwordsStrict(ds, k, r); }
  }

  lemma LocateMain(code: Code, i: nat)
    requires Sized(code.main) && i <= |code.main|
    ensures Locate(code, Address(code, InMain(i))) == Some(InMain(i))
  {
    FindUnique(code.main, i, 0);
  }

  lemma LocateFetch(code: Code)
    requires Sized(code.fetch) && Placed(code)
    ensures Locate(code, code.fetchBase) == Some(InFetch(0))
  {
    FindUnique(code.fetch, 0, 0);
    var a := code.fetchBase;
    assert Address(code, InFetch(0)) == a;
    if a >= code.mainBase && (a - code.mainBase) % 4 == 0 {
      var k := FindDwords(code.main, (a - code.mainBase) / 4, 0);
      assert k.Some? ==> Address(code, InMain(k.value)) == a;
    }
  }

  lemma LeafParts(code: Code, out: seq<Decoded>, c: nat, ret: nat, d: Saved)
    requires Leaf(code, out, c, ret, d)
    ensures c < |code.main| && 0 < ret < |code.fetch| && |out| == |code.main| - 1 + ret
    ensures IsFetchShader(code.fetch, ret) && OnlyCall(code.main, c) && GoodCall(code.main[c])
    ensures Resolved(code.main, code.fetch, out, c, ret)
    ensures Sized(code.main) && Sized(code.fetch) && Numbered(code.main) && Placed(code) && d.reg + 1 < NUM_SGPRS
    ensures Sized(out)
  {
    hide IsFetchShader, DwordsTo, Placed, Avoids, Splice, Address;
    RenumberedParts(code.main, code.fetch, out, c, ret);
    forall i | 0 <= i < |out|
      ensures out[i].size >= 1
    {
      OutAt(code.main, code.fetch, out, c, ret, i);
    }
  }

  // ---- the call and the return ----------------------------------------------------------

  lemma SavedPair(w: Wave, d: nat, v: u64)
    requires d + 1 < NUM_SGPRS
    ensures var w' := WriteScalarPair(w, Sgpr(d), v).value; Except(PairAt(d), w', w) && ReadSgprPair(w', d) == Some(v)
  {
    assert v == v % TWO32 + TWO32 * (v / TWO32);
  }

  // The call only moves the machine to the body: the spliced machine stands still.
  lemma CallSim(env: Env, code: Code, out: seq<Decoded>, c: nat, ret: nat, d: Saved, w: Wave)
    requires Leaf(code, out, c, ret, d) && ReadScalarPair(w, code.main[c].inst.ssrc0) == Some(code.fetchBase)
    ensures Sim(code, c, ret, d, Step(env, code, Run(InMain(c), w)), Run(InMain(c), w))
    ensures Step(env, code, Run(InMain(c), w)).Run? && Step(env, code, Run(InMain(c), w)).pc == InFetch(0)
  {
    hide IsFetchShader, DwordsTo, Avoids, Splice, ExecOne, Resolved;
    LeafParts(code, out, c, ret, d);
    DwordsGrow(code.main, c + 1, |code.main|);
    var back := Address(code, InMain(c + 1));
    assert back < TWO64;
    SavedPair(w, d.reg, back);
    LocateFetch(code);
  }

  lemma ReturnSim(env: Env, code: Code, out: seq<Decoded>, c: nat, ret: nat, d: Saved, s: State, t: State)
    requires Leaf(code, out, c, ret, d) && s.Run? && s.pc == InFetch(ret) && Sim(code, c, ret, d, s, t)
    ensures Sim(code, c, ret, d, Step(env, code, s), t)
  {
    hide IsFetchShader, DwordsTo, Avoids, Splice, ExecOne, Resolved;
    LeafParts(code, out, c, ret, d);
    ReturnInst(code.fetch, ret);
    LocateMain(code, c + 1);
    DwordsGrow(code.fetch, ret + 1, |code.fetch|);
    var back := Address(code, InFetch(ret + 1));
    assert back < TWO64;
    SavedPair(s.w, d.reg, back);
    var w' := WriteScalarPair(s.w, Sgpr(d.reg), back).value;
    ExceptTrans(PairAt(d.reg), w', s.w, t.w);
  }

  lemma ReturnInst(ds: seq<Decoded>, ret: nat)
    requires IsFetchShader(ds, ret)
    ensures ret < |ds| && IsFetchReturn(ds[ret].inst)
  {
  }

  lemma ExceptTrans(stale: set<nat>, a: Wave, b: Wave, c: Wave)
    requires Except(stale, a, b) && Except(stale, b, c)
    ensures Except(stale, a, c)
  {
  }

  // ---- the body -----------------------------------------------------------------------------

  lemma BodySim(env: Env, code: Code, out: seq<Decoded>, c: nat, ret: nat, d: Saved, s: State, t: State)
    requires Leaf(code, out, c, ret, d) && s.Run? && s.pc.InFetch? && s.pc.i < ret && Sim(code, c, ret, d, s, t)
    ensures Sim(code, c, ret, d, Step(env, code, s), Step(env, Spliced(code, out), t))
  {
    hide DwordsTo, Avoids, Splice, ExecOne, Except, Placed, Address, Attributes, Loaded;
    LeafParts(code, out, c, ret, d);
    var j := s.pc.i;
    OutAt(code.main, code.fetch, out, c, ret, c + j);
    var inst := code.fetch[j].inst;
    assert out[c + j].inst == inst;
    assert InShape(code.fetch, j);
    if !IsFiller(inst) {
      StepExcept(env, PairAt(d.reg), s.w, t.w, inst);
      if ExecOne(env, s.w, inst).Some? {
        BodyKeepsPair(env, code.fetch, j, d.reg, s.w);
        ExceptMore(Left(PairAt(d.reg), inst), PairAt(d.reg), ExecOne(env, s.w, inst).value, ExecOne(env, t.w, inst).value);
      }
    }
  }

  // ---- the caller -----------------------------------------------------------------------

  lemma MainInst(code: Code, out: seq<Decoded>, c: nat, ret: nat, d: Saved, i: nat)
    requires Leaf(code, out, c, ret, d) && i < |code.main| && i != c
    ensures var j := NewIndex(c, ret, i);
            j < |out| && out[j].inst == code.main[i].inst && out[j].size == code.main[i].size
    ensures !IsSwappc(code.main[i]) && !IsFetchReturn(code.main[i].inst)
    ensures i > c ==> |d.stale| == |code.main| + 1 && Flows(code.main, d, i)
  {
    hide IsFetchShader, DwordsTo, Avoids, Splice, Placed, Address;
    LeafParts(code, out, c, ret, d);
    NewOffset(code.main, code.fetch, out, c, ret, i);
  }

  // A caller's branch goes to the same instruction in both machines.
  lemma BranchSim(code: Code, out: seq<Decoded>, c: nat, ret: nat, d: Saved, i: nat) returns (k: nat)
    requires Leaf(code, out, c, ret, d) && i < |code.main| && i != c && IsCfgBranch(code.main[i].inst)
    ensures k < |code.main| && (i < c <==> k <= c)
    ensures var b := code.main[i];
            FindDwords(code.main, BranchTarget(b.offset, b.size, b.inst.simm16), 0) == Some(k)
    ensures NewIndex(c, ret, i) < |out|
    ensures var b := out[NewIndex(c, ret, i)];
            && b.inst == code.main[i].inst
            && FindDwords(out, BranchTarget(b.offset, b.size, b.inst.simm16), 0) == Some(NewIndex(c, ret, k))
  {
    hide IsFetchShader, DwordsTo, Avoids, Splice, Placed, Address, FindDwords;
    LeafParts(code, out, c, ret, d);
    MainInst(code, out, c, ret, d, i);
    assert StaysOnSide(code.main, c, i);
    k :| 0 <= k < |code.main| && (i < c <==> k <= c)
         && BranchTarget(code.main[i].offset, code.main[i].size, code.main[i].inst.simm16) == DwordsTo(code.main, k);
    FindUnique(code.main, k, 0);
    BranchStillNames(code.main, code.fetch, out, c, ret, i, k);
    var k' := NewIndex(c, ret, k);
    NewOffset(code.main, code.fetch, out, c, ret, k);
    OutOffset(code.main, code.fetch, out, c, ret, k');
    FindUnique(out, k', 0);
  }

  lemma OutOffset(main: seq<Decoded>, fetch: seq<Decoded>, out: seq<Decoded>, c: nat, ret: nat, j: nat)
    requires Resolved(main, fetch, out, c, ret) && j < |out|
    ensures out[j].offset == DwordsTo(out, j)
  {
    hide IsFetchShader, DwordsTo;
    RenumberedParts(main, fetch, out, c, ret);
    SameSizes(Splice(main, c, fetch, ret), out, j);
  }

  lemma {:induction false} SameSizes(a: seq<Decoded>, b: seq<Decoded>, j: nat)
    requires |a| == |b| && j <= |a| && forall i :: 0 <= i < |a| ==> b[i].size == a[i].size
    ensures DwordsTo(a, j) == DwordsTo(b, j)
  {
    if j > 0 {
      SameSizes(a, b, j - 1);
    }
  }

  // Before the call the two machines run in lockstep, state for state.
  lemma PrefixSim(env: Env, code: Code, out: seq<Decoded>, c: nat, ret: nat, d: Saved, i: nat, w: Wave)
    requires Leaf(code, out, c, ret, d) && i < c
    ensures Sim(code, c, ret, d, Step(env, code, Run(InMain(i), w)), Step(env, Spliced(code, out), Run(InMain(i), w)))
  {
    hide Leaf, ExecOne, FindDwords, DwordsTo;
    LeafBound(code, out, c, ret, d);
    MainInst(code, out, c, ret, d, i);
    if IsCfgBranch(code.main[i].inst) {
      var k := BranchSim(code, out, c, ret, d, i);
    }
    ExceptSelf(PairAt(d.reg), w);
  }

  lemma LeafBound(code: Code, out: seq<Decoded>, c: nat, ret: nat, d: Saved)
    requires Leaf(code, out, c, ret, d)
    ensures c < |code.main| && 0 < ret < |code.fetch| && |out| == |code.main| - 1 + ret
  {
    hide IsFetchShader, DwordsTo, Avoids, Splice, Placed, Address;
    LeafParts(code, out, c, ret, d);
  }

  lemma ExceptSelf(stale: set<nat>, w: Wave)
    ensures Except(stale, w, w)
  {
  }

  lemma StaleInPair(code: Code, out: seq<Decoded>, c: nat, ret: nat, d: Saved, i: nat)
    requires Leaf(code, out, c, ret, d) && i <= |code.main|
    ensures i < |d.stale| && d.stale[i] <= PairAt(d.reg)
  {
    hide Resolved, Sized, Numbered, Placed, Flows, Avoids;
  }

  lemma LeftOfSopp(stale: set<nat>, inst: Inst)
    requires inst.Sopp?
    ensures Left(stale, inst) == stale
  {
  }

  // After it they run in lockstep up to the registers still stale.
  lemma SuffixSim(env: Env, code: Code, out: seq<Decoded>, c: nat, ret: nat, d: Saved, s: State, t: State)
    requires Leaf(code, out, c, ret, d) && s.Run? && s.pc.InMain? && s.pc.i > c && Sim(code, c, ret, d, s, t)
    ensures Sim(code, c, ret, d, Step(env, code, s), Step(env, Spliced(code, out), t))
  {
    hide Leaf, ExecOne, FindDwords, DwordsTo, Avoids, Left;
    LeafBound(code, out, c, ret, d);
    var i := s.pc.i;
    StaleInPair(code, out, c, ret, d, i);
    ExceptMore(d.stale[i], PairAt(d.reg), s.w, t.w);
    if i < |code.main| {
      MainInst(code, out, c, ret, d, i);
      var inst := code.main[i].inst;
      if inst.Sopp? { LeftOfSopp(d.stale[i], inst); }
      if IsCfgBranch(inst) {
        BranchSuffix(code, out, c, ret, d, s, t);
      } else if IsSkipped(inst) {
        ExceptMore(d.stale[i], d.stale[i + 1], s.w, t.w);
      } else if !IsSopp(inst, S_ENDPGM) {
        StepExcept(env, d.stale[i], s.w, t.w, inst);
        if ExecOne(env, s.w, inst).Some? {
          ExceptMore(Left(d.stale[i], inst), d.stale[i + 1], ExecOne(env, s.w, inst).value, ExecOne(env, t.w, inst).value);
        }
      }
    }
  }

  lemma BranchSuffix(code: Code, out: seq<Decoded>, c: nat, ret: nat, d: Saved, s: State, t: State)
    requires Leaf(code, out, c, ret, d) && s.Run? && s.pc.InMain? && c < s.pc.i < |code.main| && Sim(code, c, ret, d, s, t)
    requires IsCfgBranch(code.main[s.pc.i].inst)
    requires s.pc.i - 1 + ret < |out| && out[s.pc.i - 1 + ret].inst.Sopp?
    ensures Sim(code, c, ret, d, BranchStep(code, s.pc, s.w, code.main[s.pc.i]),
                BranchStep(Spliced(code, out), t.pc, t.w, out[s.pc.i - 1 + ret]))
  {
    hide Leaf, ExecOne, FindDwords, DwordsTo, Avoids, Left, BranchTarget;
    var i := s.pc.i;
    MainInst(code, out, c, ret, d, i);
    LeftOfSopp(d.stale[i], code.main[i].inst);
    var k := BranchSim(code, out, c, ret, d, i);
    assert d.stale[i] <= d.stale[k];
    ExceptMore(d.stale[i], d.stale[k], s.w, t.w);
    if code.main[i].inst.op != S_BRANCH {
      ExceptMore(d.stale[i], d.stale[i + 1], s.w, t.w);
    }
  }

  // ---- whole runs -----------------------------------------------------------------------

  // Whenever the run stands at the call, the call's operand holds the fetch shader's address.
  ghost predicate PointerSet(env: Env, code: Code, c: nat, s: State)
    requires c < |code.main| && code.main[c].inst.Sop1?
  {
    forall n: nat, w: Wave :: Steps(env, code, n, s) == Run(InMain(c), w) ==>
      ReadScalarPair(w, code.main[c].inst.ssrc0) == Some(code.fetchBase)
  }

  function Phase(s: State, c: nat): nat {
    match s
    case Run(InMain(i), _) => if i <= c then 0 else 2
    case Run(InFetch(_), _) => 1
    case _ => 2
  }

  // The call machine's `n`-step state corresponds to the spliced machine's `m`-step state, and
  // only the call and the return take a step the spliced machine does not.
  lemma {:induction false} RunsSimulate(env: Env, code: Code, out: seq<Decoded>, c: nat, ret: nat, d: Saved, w: Wave, n: nat)
    returns (m: nat)
    requires Leaf(code, out, c, ret, d)
    requires c < |code.main| && code.main[c].inst.Sop1? && PointerSet(env, code, c, Run(InMain(0), w))
    ensures var s := Steps(env, code, n, Run(InMain(0), w));
            && Sim(code, c, ret, d, s, Steps(env, Spliced(code, out), m, Run(InMain(0), w)))
            && m <= n <= m + Phase(s, c)
  {
    hide Leaf, Step, Except;
    m := 0;
    if n > 0 {
      m := RunsSimulate(env, code, out, c, ret, d, w, n - 1);
      var s, t := Steps(env, code, n - 1, Run(InMain(0), w)), Steps(env, Spliced(code, out), m, Run(InMain(0), w));
      if AtSeam(s, c, ret) {
        SeamSim(env, code, out, c, ret, d, s, t);
      } else {
        LockstepSim(env, code, out, c, ret, d, s, t);
        m := m + 1;
      }
    }
  }

  // The two states at which only the call machine moves.
  predicate AtSeam(s: State, c: nat, ret: nat) {
    s.Run? && (s.pc == InMain(c) || s.pc == InFetch(ret))
  }

  lemma SeamSim(env: Env, code: Code, out: seq<Decoded>, c: nat, ret: nat, d: Saved, s: State, t: State)
    requires Leaf(code, out, c, ret, d) && AtSeam(s, c, ret) && Sim(code, c, ret, d, s, t)
    requires c < |code.main| && code.main[c].inst.Sop1?
    requires s.pc == InMain(c) ==> ReadScalarPair(s.w, code.main[c].inst.ssrc0) == Some(code.fetchBase)
    ensures Sim(code, c, ret, d, Step(env, code, s), t) && Phase(Step(env, code, s), c) > Phase(s, c)
  {
    hide IsFetchShader, DwordsTo, Avoids, Splice, ExecOne, Resolved, Except;
    LeafParts(code, out, c, ret, d);
    if s.pc == InMain(c) {
      CallSim(env, code, out, c, ret, d, s.w);
    } else {
      ReturnSim(env, code, out, c, ret, d, s, t);
      ReturnsPast(env, code, out, c, ret, d, s);
    }
  }

  lemma ReturnsPast(env: Env, code: Code, out: seq<Decoded>, c: nat, ret: nat, d: Saved, s: State)
    requires Leaf(code, out, c, ret, d) && s.Run? && s.pc == InFetch(ret)
    requires c < |code.main| && ReadSgprPair(s.w, d.reg) == Some(Address(code, InMain(c + 1)))
    ensures Phase(Step(env, code, s), c) == 2
  {
    hide IsFetchShader, DwordsTo, Avoids, Splice, ExecOne, Resolved, Except;
    LeafParts(code, out, c, ret, d);
    ReturnInst(code.fetch, ret);
    LocateMain(code, c + 1);
  }

  lemma LockstepSim(env: Env, code: Code, out: seq<Decoded>, c: nat, ret: nat, d: Saved, s: State, t: State)
    requires Leaf(code, out, c, ret, d) && !AtSeam(s, c, ret) && Sim(code, c, ret, d, s, t)
    ensures Sim(code, c, ret, d, Step(env, code, s), Step(env, Spliced(code, out), t))
    ensures Phase(Step(env, code, s), c) >= Phase(s, c)
  {
    hide Leaf, ExecOne, FindDwords, DwordsTo, Avoids, Except;
    LeafBound(code, out, c, ret, d);
    match s
    case Run(InMain(i), w) =>
      if i < c {
        PrefixSim(env, code, out, c, ret, d, i, w);
      } else {
        SuffixSim(env, code, out, c, ret, d, s, t);
        StaysPast(env, code, out, c, ret, d, s);
      }
    case Run(InFetch(j), w) =>
      BodySim(env, code, out, c, ret, d, s, t);
      StaysIn(env, code, out, c, ret, d, s);
    case _ =>
  }

  lemma StaysPast(env: Env, code: Code, out: seq<Decoded>, c: nat, ret: nat, d: Saved, s: State)
    requires Leaf(code, out, c, ret, d) && s.Run? && s.pc.InMain? && s.pc.i > c
    ensures Phase(Step(env, code, s), c) == 2
  {
    hide Leaf, ExecOne, FindDwords, DwordsTo, Avoids;
    if s.pc.i < |code.main| {
      MainInst(code, out, c, ret, d, s.pc.i);
      if IsCfgBranch(code.main[s.pc.i].inst) {
        var k := BranchSim(code, out, c, ret, d, s.pc.i);
      }
    }
  }

  lemma StaysIn(env: Env, code: Code, out: seq<Decoded>, c: nat, ret: nat, d: Saved, s: State)
    requires Leaf(code, out, c, ret, d) && s.Run? && s.pc.InFetch? && s.pc.i < ret
    ensures Phase(Step(env, code, s), c) >= 1
  {
    hide ExecOne, DwordsTo, Avoids, Splice, Except, Placed, Address, Attributes, Loaded;
    LeafParts(code, out, c, ret, d);
    assert InShape(code.fetch, s.pc.i);
  }

  // After the call, made with the right pointer, the machine never stands at it again.
  lemma {:induction false} PastTheCall(env: Env, code: Code, out: seq<Decoded>, c: nat, ret: nat, d: Saved,
                                       s0: State, m: nat, v: Wave, n: nat)
    returns (t: State)
    requires Leaf(code, out, c, ret, d) && c < |code.main| && code.main[c].inst.Sop1? && n > m
    requires Steps(env, code, m, s0) == Run(InMain(c), v)
    requires ReadScalarPair(v, code.main[c].inst.ssrc0) == Some(code.fetchBase)
    ensures Sim(code, c, ret, d, Steps(env, code, n, s0), t) && Phase(Steps(env, code, n, s0), c) >= 1
    decreases n
  {
    hide Leaf, Step, Except;
    if n == m + 1 {
      CallSim(env, code, out, c, ret, d, v);
      t := Run(InMain(c), v);
    } else {
      t := PastTheCall(env, code, out, c, ret, d, s0, m, v, n - 1);
      var s := Steps(env, code, n - 1, s0);
      if AtSeam(s, c, ret) {
        SeamSim(env, code, out, c, ret, d, s, t);
      } else {
        LockstepSim(env, code, out, c, ret, d, s, t);
        t := Step(env, Spliced(code, out), t);
      }
    }
  }

  // It is enough that the pointer is right the first time the call is reached: it is never reached
  // again.
  lemma PointerAtFirstCall(env: Env, code: Code, out: seq<Decoded>, c: nat, ret: nat, d: Saved, w: Wave, m: nat, v: Wave)
    requires Leaf(code, out, c, ret, d) && c < |code.main| && code.main[c].inst.Sop1?
    requires Steps(env, code, m, Run(InMain(0), w)) == Run(InMain(c), v)
    requires ReadScalarPair(v, code.main[c].inst.ssrc0) == Some(code.fetchBase)
    requires forall k: nat :: k < m ==>
               var s := Steps(env, code, k, Run(InMain(0), w)); !(s.Run? && s.pc == InMain(c))
    ensures PointerSet(env, code, c, Run(InMain(0), w))
  {
    hide Leaf, Step, Except, ReadScalarPair;
    forall n: nat, u: Wave | Steps(env, code, n, Run(InMain(0), w)) == Run(InMain(c), u)
      ensures ReadScalarPair(u, code.main[c].inst.ssrc0) == Some(code.fetchBase)
    {
      if n > m {
        var t := PastTheCall(env, code, out, c, ret, d, Run(InMain(0), w), m, v, n);
      } else if n < m {
        assert false;
      }
    }
  }

  // Inlining preserves meaning, from the call machine's side: after any number of its steps the
  // spliced machine, at most two steps behind, has stopped, crashed or kept running alike, and
  // stopped states agree on everything except the pair that saved the return PC.
  lemma InliningPreservesMeaning(env: Env, code: Code, out: seq<Decoded>, c: nat, ret: nat, d: Saved, w: Wave, n: nat)
    returns (m: nat)
    requires Leaf(code, out, c, ret, d)
    requires c < |code.main| && code.main[c].inst.Sop1? && PointerSet(env, code, c, Run(InMain(0), w))
    ensures var s, t := Steps(env, code, n, Run(InMain(0), w)), Steps(env, Spliced(code, out), m, Run(InMain(0), w));
            && (s.Stopped? <==> t.Stopped?) && (s.Crashed? <==> t.Crashed?)
            && (s.Stopped? ==> Except(PairAt(d.reg), s.w, t.w))
            && m <= n <= m + 2
  {
    hide Leaf, Step, Except;
    m := RunsSimulate(env, code, out, c, ret, d, w, n);
  }

  lemma {:induction false} StoppedStays(env: Env, code: Code, m: nat, k: nat, s: State)
    requires Steps(env, code, m, s).Stopped?
    ensures Steps(env, code, m + k, s) == Steps(env, code, m, s)
  {
    hide ExecOne;
    if k > 0 {
      StoppedStays(env, code, m, k - 1, s);
    }
  }

  // And from the spliced machine's side: if straight execution of the spliced stream stops, so
  // does the real call and return, in at most two more steps, in the same state but for the pair.
  lemma InliningAddsNothing(env: Env, code: Code, out: seq<Decoded>, c: nat, ret: nat, d: Saved, w: Wave, m: nat)
    requires Leaf(code, out, c, ret, d)
    requires c < |code.main| && code.main[c].inst.Sop1? && PointerSet(env, code, c, Run(InMain(0), w))
    requires Steps(env, Spliced(code, out), m, Run(InMain(0), w)).Stopped?
    ensures var s := Steps(env, code, m + 2, Run(InMain(0), w));
            s.Stopped? && Except(PairAt(d.reg), s.w, Steps(env, Spliced(code, out), m, Run(InMain(0), w)).w)
  {
    hide Leaf, Step, Except;
    var m' := InliningPreservesMeaning(env, code, out, c, ret, d, w, m + 2);
    StoppedStays(env, Spliced(code, out), m, m' - m, Run(InMain(0), w));
  }
}
