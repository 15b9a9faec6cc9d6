// A fetch shader's attribute table: recovered by one pass over the subroutine, and proved to
// say what executing the subroutine does.

module FetchShader {
  import opened Words
  import opened Bits
  import opened Isa
  import opened Wavefront
  import opened LaneLoops
  import opened Walk

  // One recovered vertex attribute.
  datatype Attribute = Attribute(vsharpSgpr: u8, destVgpr: u8, components: nat, descPtrSgpr: u8, descOffset: nat)

  // Where a V# quad came from: pointer pair and byte offset.
  datatype Source = Source(ptr: u8, offset: nat)

  predicate IsFetchReturn(inst: Inst) {
    inst.Sop1? && (inst.op == S_SETPC_B64 || inst.op == S_SWAPPC_B64)
  }

  predicate IsFiller(inst: Inst) { IsSopp(inst, S_WAITCNT) || IsSopp(inst, S_NOP) }

  // A 128-bit immediate-offset load into an SGPR quad.
  predicate IsQuadLoad(inst: Inst) {
    inst.Smrd? && inst.op == S_LOAD_DWORDX4 && inst.sdst.Sgpr? && inst.imm
  }

  // An index-driven attribute load through a quad an earlier load filled.
  predicate IsFetch(inst: Inst, loaded: map<u8, Source>) {
    inst.Mubuf? && VdataCount(inst.op).Some? && IsFormatLoad(inst.op) && inst.idxen && inst.vdata.Vgpr?
    && inst.srsrc in loaded
  }

  function AttributeOf(inst: Inst, loaded: map<u8, Source>): Attribute
    requires IsFetch(inst, loaded)
  {
    var src := loaded[inst.srsrc];
    Attribute(inst.srsrc, inst.vdata.n, VdataCount(inst.op).value, src.ptr, src.offset)
  }

  // The quads known after the first `n` instructions; later loads into a quad win.
  function Loaded(ds: seq<Decoded>, n: nat): map<u8, Source>
    requires n <= |ds|
  {
    if n == 0 then map[]
    else
      var inst := ds[n - 1].inst;
      if IsQuadLoad(inst) then Loaded(ds, n - 1)[inst.sdst.n := Source(inst.sbase, 4 * inst.offset)]
      else Loaded(ds, n - 1)
  }

  // Instruction `i` is one the convention allows before the return.
  predicate InShape(ds: seq<Decoded>, i: nat)
    requires i < |ds|
  {
    IsFiller(ds[i].inst) || IsQuadLoad(ds[i].inst) || IsFetch(ds[i].inst, Loaded(ds, i))
  }

  // The attributes the first `n` instructions fetch, in stream order.
  function Attributes(ds: seq<Decoded>, n: nat): seq<Attribute>
    requires n <= |ds|
  {
    if n == 0 then []
    else if IsFetch(ds[n - 1].inst, Loaded(ds, n - 1)) then
      Attributes(ds, n - 1) + [AttributeOf(ds[n - 1].inst, Loaded(ds, n - 1))]
    else Attributes(ds, n - 1)
  }

  // `ds` is a fetch shader whose body is its first `ret` instructions.
  predicate IsFetchShader(ds: seq<Decoded>, ret: nat) {
    && ret < |ds| && IsFetchReturn(ds[ret].inst)
    && (forall i :: 0 <= i < ret ==> InShape(ds, i))
    && Attributes(ds, ret) != []
  }

  lemma NotAShader(ds: seq<Decoded>, i: nat)
    requires i < |ds| && (forall j :: 0 <= j < i ==> InShape(ds, j)) && !InShape(ds, i)
    requires IsFetchReturn(ds[i].inst) ==> Attributes(ds, i) == []
    ensures forall ret: nat :: !IsFetchShader(ds, ret)
  {
    hide Loaded, Attributes, VdataCount;
    forall ret: nat
      ensures !IsFetchShader(ds, ret)
    {
      if ret < i && ret < |ds| { ShapeIsNoReturn(ds, ret); }
    }
  }

  lemma ShapeIsNoReturn(ds: seq<Decoded>, i: nat)
    requires i < |ds| && InShape(ds, i)
    ensures !IsFetchReturn(ds[i].inst)
  {
    hide Loaded, VdataCount;
  }

  // Accepts exactly the streams of the recognised shape and returns their table: every
  // instruction before the first return is filler, a quad load or a fetch through a loaded
  // quad, and there is at least one fetch.
  method ParseFetchShader(ds: seq<Decoded>) returns (layout: Option<seq<Attribute>>)
    ensures layout.Some? ==> exists ret: nat :: IsFetchShader(ds, ret) && layout.value == Attributes(ds, ret)
    ensures layout.None? ==> forall ret: nat :: !IsFetchShader(ds, ret)
  {
    var loaded: map<u8, Source> := map[];
    var attributes: seq<Attribute> := [];
    for i := 0 to |ds|
      invariant loaded == Loaded(ds, i) && attributes == Attributes(ds, i)
      invariant forall j :: 0 <= j < i ==> InShape(ds, j)
    {
      var inst := ds[i].inst;
      if IsFiller(inst) {
      } else if inst.Smrd? && inst.op == S_LOAD_DWORDX4 {
        if !inst.sdst.Sgpr? || !inst.imm {
          NotAShader(ds, i);
          return None;
        }
        loaded := loaded[inst.sdst.n := Source(inst.sbase, 4 * inst.offset)];
      } else if inst.Mubuf? {
        var components := VdataCount(inst.op);
        if components.None? || !IsFormatLoad(inst.op) || !inst.idxen || !inst.vdata.Vgpr? || inst.srsrc !in loaded {
          NotAShader(ds, i);
          return None;
        }
        var src := loaded[inst.srsrc];
        attributes := attributes + [Attribute(inst.srsrc, inst.vdata.n, components.value, src.ptr, src.offset)];
      } else if IsFetchReturn(inst) {
        if attributes == [] {
          NotAShader(ds, i);
          return None;
        }
        assert IsFetchShader(ds, i);
        return Some(attributes);
      } else {
        NotAShader(ds, i);
        return None;
      }
    }
    forall ret: nat
      ensures !IsFetchShader(ds, ret)
    {
      assert ret < |ds| ==> InShape(ds, ret);
    }
    layout := None;
  }

  // The recognised body ends at the first return, so an accepted shader always has one.
  lemma ReturnIsFirst(ds: seq<Decoded>, ret: nat)
    requires IsFetchShader(ds, ret)
    ensures forall i :: 0 <= i < ret ==> !IsFetchReturn(ds[i].inst)
  {
    hide Loaded, Attributes, InShape;
    forall i | 0 <= i < ret
      ensures !IsFetchReturn(ds[i].inst)
    {
      ShapeIsNoReturn(ds, i);
    }
  }

  // ---- the shape by opcode number -----------------------------------------------------------

  // An s_load_dwordx4 with an immediate offset into the quad at `q`.
  predicate Loads(inst: Inst, q: u8) {
    inst.Smrd? && inst.op == 0x02 && inst.sdst == Sgpr(q) && inst.imm
  }

  // The latest such load before instruction `n`.
  ghost predicate LatestLoad(ds: seq<Decoded>, n: nat, q: u8, j: nat)
    requires n <= |ds|
  {
    j < n && Loads(ds[j].inst, q) && forall k :: j < k < n ==> !Loads(ds[k].inst, q)
  }

  lemma {:induction false} LoadedIsLatest(ds: seq<Decoded>, n: nat, q: u8) returns (j: nat)
    requires n <= |ds|
    ensures q in Loaded(ds, n) <==> exists k :: 0 <= k < n && Loads(ds[k].inst, q)
    ensures q in Loaded(ds, n) ==>
              LatestLoad(ds, n, q, j) && Loaded(ds, n)[q] == Source(ds[j].inst.sbase, 4 * ds[j].inst.offset)
  {
    j := 0;
    if n > 0 {
      j := LoadedIsLatest(ds, n - 1, q);
      if Loads(ds[n - 1].inst, q) { j := n - 1; }
    }
  }

  // An instruction the convention allows is s_nop or s_waitcnt, a quad load, or a format load by index
  // through a quad loaded before it; the entry a fetch gives is its quad and destination, as many
  // components as its opcode fetches, and the pointer pair and byte offset of the quad's latest load.
  lemma ShapeByNumber(ds: seq<Decoded>, i: nat) returns (j: nat)
    requires i < |ds|
    ensures var inst := ds[i].inst;
            InShape(ds, i) <==>
              || (inst.Sopp? && inst.op in {0x00, 0x0C})
              || (exists q :: Loads(inst, q))
              || (inst.Mubuf? && inst.op in {0, 1, 2, 3} && inst.idxen && inst.vdata.Vgpr?
                  && exists k :: 0 <= k < i && Loads(ds[k].inst, inst.srsrc))
    ensures var inst := ds[i].inst;
            IsFetch(inst, Loaded(ds, i)) ==>
              && LatestLoad(ds, i, inst.srsrc, j)
              && AttributeOf(inst, Loaded(ds, i))
                 == Attribute(inst.srsrc, inst.vdata.n, inst.op + 1, ds[j].inst.sbase, 4 * ds[j].inst.offset)
    ensures IsFetchReturn(ds[i].inst) <==> ds[i].inst.Sop1? && ds[i].inst.op in {0x20, 0x21}
  {
    var inst := ds[i].inst;
    j := 0;
    hide Loaded;
    if inst.Mubuf? {
      j := LoadedIsLatest(ds, i, inst.srsrc);
    }
    assert IsQuadLoad(inst) ==> Loads(inst, inst.sdst.n);
  }

  // ---- executing the body ---------------------------------------------------------------

  // The first `n` instructions, executed straight through; filler changes nothing.
  function Straight(env: Env, ds: seq<Decoded>, n: nat, w: Wave): Option<Wave>
    requires n <= |ds|
  {
    if n == 0 then Some(w)
    else
      var before :- Straight(env, ds, n - 1, w);
      if IsSkipped(ds[n - 1].inst) then Some(before) else ExecOne(env, before, ds[n - 1].inst)
  }

  // The V# stored in memory at a pointer pair plus offset, as the launch state sees it.
  function StoredVSharp(env: Env, w: Wave, ptr: nat, offset: nat): Option<seq<u32>> {
    var base :- ReadSgprPair(w, ptr);
    var bytes :- Load(env, (base + offset) % TWO64, 16);
    Some(seq(4, i requires 0 <= i < 4 => LeWord(bytes, 4 * i)))
  }

  // What a lane fetches through a V#, its index and offsets read from `w`.
  function Fetched(env: Env, w: Wave, lane: Lane, words: seq<u32>, inst: Inst): Option<seq<u32>>
    requires inst.Mubuf? && |words| == 4
  {
    var count :- VdataCount(inst.op);
    var soff :- ReadScalar(w, inst.soffset);
    var index :- ReadLane(w, inst.vaddr, lane);
    var voffset :-
      if !inst.offen then Some(0)
      else if inst.vaddr.Vgpr? && inst.vaddr.n + 1 < NUM_VGPRS then Some(Word(w, inst.vaddr.n + 1, lane))
      else None;
    var v := DecodeVSharp(words[0], words[1], words[2], words[3]);
    FetchWords(env, v, FetchAddr(v, index, soff, inst.offset, voffset), count)
  }

  // ---- the convention the recovered table relies on --------------------------------------

  predicate InQuad(r: nat, inst: Inst) {
    IsQuadLoad(inst) && InSpan(r, inst.sdst.n, 4)
  }

  predicate InBlock(r: nat, inst: Inst) {
    inst.Mubuf? && inst.vdata.Vgpr? && VdataCount(inst.op).Some?
    && InSpan(r, inst.vdata.n, VdataCount(inst.op).value)
  }

  // No load before `i` fills SGPR `r`; no fetch before `i` fills VGPR `r`.
  ghost predicate SgprFresh(ds: seq<Decoded>, i: nat, r: nat)
    requires i <= |ds|
  {
    forall j :: 0 <= j < i ==> !InQuad(r, ds[j].inst)
  }

  ghost predicate VgprFresh(ds: seq<Decoded>, i: nat, r: nat)
    requires i <= |ds|
  {
    forall j :: 0 <= j < i ==> !InBlock(r, ds[j].inst)
  }

  // Quads are aligned, a load's pointer pair and a fetch's scalar offset are not loaded over,
  // and a fetch's block and index registers are not fetched over by an earlier fetch.
  ghost predicate Conventional(ds: seq<Decoded>, n: nat)
    requires n <= |ds|
  {
    forall i :: 0 <= i < n ==>
      var inst := ds[i].inst;
      && (IsQuadLoad(inst) ==>
            inst.sdst.n % 4 == 0 && SgprFresh(ds, i, inst.sbase) && SgprFresh(ds, i, inst.sbase + 1))
      && (inst.Mubuf? ==>
            && inst.srsrc % 4 == 0
            && (inst.soffset.Sgpr? ==> SgprFresh(ds, i, inst.soffset.n))
            && inst.vaddr.Vgpr? && VgprFresh(ds, i, inst.vaddr.n)
            && (inst.offen ==> VgprFresh(ds, i, inst.vaddr.n + 1))
            && (forall r: nat :: InBlock(r, inst) ==> VgprFresh(ds, i, r)))
  }

  // What the first `n` instructions have done to `w0`: loaded quads hold the stored V#s,
  // fresh registers are untouched, nothing else moved.
  ghost predicate BodyInv(env: Env, ds: seq<Decoded>, n: nat, w0: Wave, w: Wave)
    requires n <= |ds|
  {
    && w.exec == w0.exec && w.vcc == w0.vcc && w.scc == w0.scc && w.m0 == w0.m0 && w.exports == w0.exports
    && (forall r: nat :: r < NUM_SGPRS && SgprFresh(ds, n, r) ==> w.sgprs[r] == w0.sgprs[r])
    && (forall r: nat, lane: Lane :: r < NUM_VGPRS && VgprFresh(ds, n, r) ==> Word(w, r, lane) == Word(w0, r, lane))
    && QuadsHold(env, ds, n, w0, w)
  }

  ghost predicate QuadsHold(env: Env, ds: seq<Decoded>, n: nat, w0: Wave, w: Wave)
    requires n <= |ds|
  {
    forall d :: d in Loaded(ds, n) ==> QuadHolds(env, Loaded(ds, n)[d], d, w0, w)
  }

  // The quad at `d` holds the V# stored where its load pointed at launch.
  ghost predicate QuadHolds(env: Env, at: Source, d: nat, w0: Wave, w: Wave) {
    && d % 4 == 0 && d + 3 < NUM_SGPRS
    && StoredVSharp(env, w0, at.ptr, at.offset) == Some(w.sgprs[d..d + 4])
  }

  lemma FreshEarlier(ds: seq<Decoded>, n: nat, r: nat)
    requires 0 < n <= |ds|
    ensures SgprFresh(ds, n, r) <==> SgprFresh(ds, n - 1, r) && !InQuad(r, ds[n - 1].inst)
    ensures VgprFresh(ds, n, r) <==> VgprFresh(ds, n - 1, r) && !InBlock(r, ds[n - 1].inst)
  {
  }

  // A quad load leaves the V# stored where it points at launch in its quad, and nothing else changes.
  lemma LoadEffect(env: Env, ds: seq<Decoded>, n: nat, w0: Wave, w: Wave, w': Wave)
    requires n < |ds| && IsQuadLoad(ds[n].inst) && Conventional(ds, n + 1) && BodyInv(env, ds, n, w0, w)
    requires ExecOne(env, w, ds[n].inst) == Some(w')
    ensures w' == w.(sgprs := w'.sgprs)
    ensures var d: nat := ds[n].inst.sdst.n;
            && d + 4 <= NUM_SGPRS && d % 4 == 0
            && StoredVSharp(env, w0, ds[n].inst.sbase, 4 * ds[n].inst.offset) == Some(w'.sgprs[d..d + 4])
            && forall r: nat :: r < NUM_SGPRS && !InSpan(r, d, 4) ==> w'.sgprs[r] == w.sgprs[r]
  {
    hide LaneLoop, QuadsHold, Loaded;
    var inst := ds[n].inst;
    var d: nat := inst.sdst.n;
    var words := SmrdWords(env, w, inst).value;
    assert ReadSgprPair(w, inst.sbase) == ReadSgprPair(w0, inst.sbase);
    assert StoredVSharp(env, w0, inst.sbase, 4 * inst.offset).value == words;
    assert w'.sgprs[d..d + 4] == words;
  }

  lemma LoadStep(env: Env, ds: seq<Decoded>, n: nat, w0: Wave, w: Wave)
    requires n < |ds| && IsQuadLoad(ds[n].inst) && Conventional(ds, n + 1) && BodyInv(env, ds, n, w0, w)
    requires ExecOne(env, w, ds[n].inst).Some?
    ensures BodyInv(env, ds, n + 1, w0, ExecOne(env, w, ds[n].inst).value)
  {
    hide ExecOne, StoredVSharp, QuadsHold, Conventional, Loaded;
    var inst := ds[n].inst;
    var w' := ExecOne(env, w, inst).value;
    var d: nat := inst.sdst.n;
    LoadEffect(env, ds, n, w0, w, w');
    forall r: nat | r < NUM_SGPRS && SgprFresh(ds, n + 1, r)
      ensures w'.sgprs[r] == w0.sgprs[r]
    {
      FreshEarlier(ds, n + 1, r);
      assert !InSpan(r, d, 4);
    }
    forall r: nat, lane: Lane | r < NUM_VGPRS && VgprFresh(ds, n + 1, r)
      ensures Word(w', r, lane) == Word(w0, r, lane)
    {
      FreshEarlier(ds, n + 1, r);
      assert Word(w, r, lane) == Word(w0, r, lane);
    }
    LoadKeepsQuads(env, ds, n, w0, w, w');
  }

  // A load into one aligned quad leaves the other quads as they were.
  lemma LoadKeepsQuads(env: Env, ds: seq<Decoded>, n: nat, w0: Wave, w: Wave, w': Wave)
    requires n < |ds| && IsQuadLoad(ds[n].inst) && ds[n].inst.sdst.n % 4 == 0 && QuadsHold(env, ds, n, w0, w)
    requires var d: nat := ds[n].inst.sdst.n;
             && d + 4 <= NUM_SGPRS
             && StoredVSharp(env, w0, ds[n].inst.sbase, 4 * ds[n].inst.offset) == Some(w'.sgprs[d..d + 4])
             && forall r: nat :: r < NUM_SGPRS && !InSpan(r, d, 4) ==> w'.sgprs[r] == w.sgprs[r]
    ensures QuadsHold(env, ds, n + 1, w0, w')
  {
    hide StoredVSharp;
    var d := ds[n].inst.sdst.n;
    var after := Loaded(ds, n + 1);
    forall q | q in after
      ensures QuadHolds(env, after[q], q, w0, w')
    {
      if q != d {
        assert QuadHolds(env, Loaded(ds, n)[q], q, w0, w);
        OtherQuadKept(w, w', q, d);
      }
    }
  }

  lemma OtherQuadKept(w: Wave, w': Wave, q: nat, d: nat)
    requires q % 4 == 0 && d % 4 == 0 && q != d && q + 4 <= NUM_SGPRS
    requires forall r: nat :: r < NUM_SGPRS && !InSpan(r, d, 4) ==> w'.sgprs[r] == w.sgprs[r]
    ensures w'.sgprs[q..q + 4] == w.sgprs[q..q + 4]
  {
    forall r: nat | q <= r < q + 4 ensures w'.sgprs[r] == w.sgprs[r] {
      assert !InSpan(r, d, 4);
    }
  }

  // ---- fetches ---------------------------------------------------------------------------

  // Fetch `i` left its block, in every live lane, holding what that lane fetches through the
  // V# stored where the table says.
  ghost predicate Holds(env: Env, a: Attribute, inst: Inst, w0: Wave, w: Wave) {
    && inst.Mubuf?
    && StoredVSharp(env, w0, a.descPtrSgpr, a.descOffset).Some?
    && var words := StoredVSharp(env, w0, a.descPtrSgpr, a.descOffset).value;
       forall lane: Lane :: LaneLive(w0, lane) ==>
         && Fetched(env, w0, lane, words, inst).Some?
         && |Fetched(env, w0, lane, words, inst).value| == a.components
         && forall c :: 0 <= c < a.components && a.destVgpr + c < NUM_VGPRS ==>
              Word(w, a.destVgpr + c, lane) == Fetched(env, w0, lane, words, inst).value[c]
  }

  lemma QuadOf(env: Env, ds: seq<Decoded>, n: nat, w0: Wave, w: Wave)
    requires n < |ds| && IsFetch(ds[n].inst, Loaded(ds, n)) && QuadsHold(env, ds, n, w0, w)
    ensures var a := AttributeOf(ds[n].inst, Loaded(ds, n)); var q: nat := ds[n].inst.srsrc;
            q + 3 < NUM_SGPRS && StoredVSharp(env, w0, a.descPtrSgpr, a.descOffset) == Some(w.sgprs[q..q + 4])
  {
    hide StoredVSharp;
  }

  // The registers a fetch reads are as they were at launch, except the quad it names.
  lemma FetchReads(env: Env, ds: seq<Decoded>, n: nat, w0: Wave, w: Wave, lane: Lane)
    requires n < |ds| && IsFetch(ds[n].inst, Loaded(ds, n)) && Conventional(ds, n + 1) && BodyInv(env, ds, n, w0, w)
    ensures var inst := ds[n].inst;
            && inst.vaddr.Vgpr?
            && ReadScalar(w, inst.soffset) == ReadScalar(w0, inst.soffset)
            && Word(w, inst.vaddr.n, lane) == Word(w0, inst.vaddr.n, lane)
            && (inst.offen && inst.vaddr.n + 1 < NUM_VGPRS ==>
                  Word(w, inst.vaddr.n + 1, lane) == Word(w0, inst.vaddr.n + 1, lane))
  {
    hide QuadsHold;
    var inst := ds[n].inst;
    assert VgprFresh(ds, n, inst.vaddr.n);
    assert inst.offen ==> VgprFresh(ds, n, inst.vaddr.n + 1);
    assert inst.soffset.Sgpr? ==> SgprFresh(ds, n, inst.soffset.n);
  }

  lemma FetchYields(env: Env, inst: Inst, w0: Wave, w: Wave, lane: Lane)
    requires inst.Mubuf? && VdataCount(inst.op).Some? && inst.idxen && inst.vaddr.Vgpr? && inst.vdata.Vgpr?
    requires inst.srsrc + 3 < NUM_SGPRS && LaneEffect(env, w, lane, inst).Some?
    requires ReadScalar(w, inst.soffset) == ReadScalar(w0, inst.soffset)
    requires Word(w, inst.vaddr.n, lane) == Word(w0, inst.vaddr.n, lane)
    requires inst.offen && inst.vaddr.n + 1 < NUM_VGPRS ==>
               Word(w, inst.vaddr.n + 1, lane) == Word(w0, inst.vaddr.n + 1, lane)
    ensures var e := LaneEffect(env, w, lane, inst).value;
            && Fetched(env, w0, lane, w.sgprs[inst.srsrc..inst.srsrc + 4], inst) == Some(e.words)
            && e.base == inst.vdata.n && |e.words| == VdataCount(inst.op).value
  {
    hide Load, Component, FetchAddr, DecodeVSharp, ReadScalar, Word;
    var words := w.sgprs[inst.srsrc..inst.srsrc + 4];
    assert ReadVSharp(w, inst.srsrc) == Some(DecodeVSharp(words[0], words[1], words[2], words[3]));
    assert LaneEffect(env, w, lane, inst) == MubufEffect(env, w, lane, inst);
  }

  // What a fetch's lane loop changes: only its block, only in live lanes.
  lemma FetchLoop(env: Env, w: Wave, inst: Inst)
    requires inst.Mubuf? && ExecOne(env, w, inst).Some?
    ensures var w' := ExecOne(env, w, inst).value;
            && w' == w.(vgprs := w'.vgprs)
            && forall lane: Lane :: LaneLive(w, lane) ==>
                 LaneEffect(env, w, lane, inst).Some?
                 && LaneEffect(env, w, lane, inst).value.base + |LaneEffect(env, w, lane, inst).value.words| <= NUM_VGPRS
    ensures forall r: nat, lane: Lane :: r < NUM_VGPRS ==>
              Word(ExecOne(env, w, inst).value, r, lane) ==
                if LaneLive(w, lane) then NewWord(LaneEffect(env, w, lane, inst).value, r, Word(w, r, lane)) else Word(w, r, lane)
  {
    hide LaneEffect, LaneLoop;
    LaneLoopIsSimultaneous(env, w, inst);
    var w' := ExecOne(env, w, inst).value;
    NoRecords(env, w, LANES, inst);
    forall lane: Lane | LaneLive(w, lane)
      ensures LaneEffect(env, w, lane, inst).Some?
      ensures LaneEffect(env, w, lane, inst).value.base + |LaneEffect(env, w, lane, inst).value.words| <= NUM_VGPRS
    {
      assert LaneOk(env, w, lane, inst);
    }
    forall r: nat, lane: Lane | r < NUM_VGPRS
      ensures Word(w', r, lane) == NewWord(EffectOf(env, w, lane, inst), r, Word(w, r, lane))
    {
    }
  }

  lemma {:induction false} NoRecords(env: Env, w: Wave, k: nat, inst: Inst)
    requires inst.Mubuf? && k <= LANES
    ensures Records(env, w, k, inst) == []
  {
    if k > 0 {
      NoRecords(env, w, k - 1, inst);
    }
  }

  lemma FetchStep(env: Env, ds: seq<Decoded>, n: nat, w0: Wave, w: Wave)
    requires n < |ds| && IsFetch(ds[n].inst, Loaded(ds, n)) && Conventional(ds, n + 1) && BodyInv(env, ds, n, w0, w)
    requires ExecOne(env, w, ds[n].inst).Some?
    ensures BodyInv(env, ds, n + 1, w0, ExecOne(env, w, ds[n].inst).value)
    ensures Holds(env, AttributeOf(ds[n].inst, Loaded(ds, n)), ds[n].inst, w0, ExecOne(env, w, ds[n].inst).value)
    ensures forall r: nat, lane: Lane :: r < NUM_VGPRS && !InBlock(r, ds[n].inst) ==>
              Word(ExecOne(env, w, ds[n].inst).value, r, lane) == Word(w, r, lane)
  {
    hide ExecOne, BodyInv, Conventional, Holds, IsFetch, AttributeOf;
    var w' := ExecOne(env, w, ds[n].inst).value;
    FetchFrame(env, ds, n, w0, w, w');
    FetchHolds(env, ds, n, w0, w, w');
  }

  lemma FetchLane(env: Env, ds: seq<Decoded>, n: nat, w0: Wave, w: Wave, lane: Lane)
    requires n < |ds| && IsFetch(ds[n].inst, Loaded(ds, n)) && Conventional(ds, n + 1) && BodyInv(env, ds, n, w0, w)
    requires LaneEffect(env, w, lane, ds[n].inst).Some?
    ensures var a := AttributeOf(ds[n].inst, Loaded(ds, n));
            var e := LaneEffect(env, w, lane, ds[n].inst).value;
            && StoredVSharp(env, w0, a.descPtrSgpr, a.descOffset).Some?
            && e.base == a.destVgpr && |e.words| == a.components
            && Fetched(env, w0, lane, StoredVSharp(env, w0, a.descPtrSgpr, a.descOffset).value, ds[n].inst) == Some(e.words)
  {
    hide LaneEffect, Fetched, StoredVSharp, Conventional, ReadScalar, Word;
    QuadOf(env, ds, n, w0, w);
    FetchReads(env, ds, n, w0, w, lane);
    hide BodyInv, QuadsHold;
    FetchYields(env, ds[n].inst, w0, w, lane);
  }

  lemma FetchHolds(env: Env, ds: seq<Decoded>, n: nat, w0: Wave, w: Wave, w': Wave)
    requires n < |ds| && IsFetch(ds[n].inst, Loaded(ds, n)) && Conventional(ds, n + 1) && BodyInv(env, ds, n, w0, w)
    requires ExecOne(env, w, ds[n].inst) == Some(w')
    ensures Holds(env, AttributeOf(ds[n].inst, Loaded(ds, n)), ds[n].inst, w0, w')
  {
    hide LaneEffect, LaneLoop, ExecOne, Fetched, StoredVSharp, Conventional, QuadsHold, Loaded, AttributeOf, Word;
    var inst := ds[n].inst;
    var a := AttributeOf(inst, Loaded(ds, n));
    FetchLoop(env, w, inst);
    QuadOf(env, ds, n, w0, w);
    forall lane: Lane | LaneLive(w0, lane)
      ensures var e := LaneEffect(env, w, lane, inst).value;
              e.base == a.destVgpr && |e.words| == a.components
              && Fetched(env, w0, lane, StoredVSharp(env, w0, a.descPtrSgpr, a.descOffset).value, inst) == Some(e.words)
    {
      FetchLane(env, ds, n, w0, w, lane);
    }
  }

  lemma FetchFrame(env: Env, ds: seq<Decoded>, n: nat, w0: Wave, w: Wave, w': Wave)
    requires n < |ds| && IsFetch(ds[n].inst, Loaded(ds, n)) && Conventional(ds, n + 1) && BodyInv(env, ds, n, w0, w)
    requires ExecOne(env, w, ds[n].inst) == Some(w')
    ensures BodyInv(env, ds, n + 1, w0, w')
    ensures forall r: nat, lane: Lane :: r < NUM_VGPRS && !InBlock(r, ds[n].inst) ==> Word(w', r, lane) == Word(w, r, lane)
  {
    hide ExecOne, Conventional, BodyInv, IsFetch, InBlock, Loaded;
    FetchKeepsOthers(env, ds, n, w0, w, w');
    FrameKeepsInv(env, ds, n, w0, w, w');
  }

  // A fetch writes only its block.
  lemma FetchKeepsOthers(env: Env, ds: seq<Decoded>, n: nat, w0: Wave, w: Wave, w': Wave)
    requires n < |ds| && IsFetch(ds[n].inst, Loaded(ds, n)) && Conventional(ds, n + 1) && BodyInv(env, ds, n, w0, w)
    requires ExecOne(env, w, ds[n].inst) == Some(w')
    ensures w' == w.(vgprs := w'.vgprs)
    ensures forall r: nat, lane: Lane :: r < NUM_VGPRS && !InBlock(r, ds[n].inst) ==> Word(w', r, lane) == Word(w, r, lane)
  {
    hide LaneEffect, LaneLoop, ExecOne, Fetched, StoredVSharp, Conventional, QuadsHold;
    var inst := ds[n].inst;
    FetchLoop(env, w, inst);
    QuadOf(env, ds, n, w0, w);
    forall r: nat, lane: Lane | r < NUM_VGPRS && !InBlock(r, inst)
      ensures Word(w', r, lane) == Word(w, r, lane)
    {
      if LaneLive(w, lane) {
        FetchReads(env, ds, n, w0, w, lane);
        FetchYields(env, inst, w0, w, lane);
      }
    }
  }

  lemma QuadsKept(env: Env, ds: seq<Decoded>, n: nat, w0: Wave, w: Wave, w': Wave)
    requires n < |ds| && IsFetch(ds[n].inst, Loaded(ds, n)) && QuadsHold(env, ds, n, w0, w) && w'.sgprs == w.sgprs
    ensures QuadsHold(env, ds, n + 1, w0, w')
  {
    hide StoredVSharp;
    var after := Loaded(ds, n + 1);
    assert after == Loaded(ds, n);
    forall d | d in after ensures QuadHolds(env, after[d], d, w0, w') {
      assert QuadHolds(env, Loaded(ds, n)[d], d, w0, w);
    }
  }

  lemma FrameKeepsInv(env: Env, ds: seq<Decoded>, n: nat, w0: Wave, w: Wave, w': Wave)
    requires n < |ds| && IsFetch(ds[n].inst, Loaded(ds, n)) && BodyInv(env, ds, n, w0, w) && w' == w.(vgprs := w'.vgprs)
    requires forall r: nat, lane: Lane :: r < NUM_VGPRS && !InBlock(r, ds[n].inst) ==> Word(w', r, lane) == Word(w, r, lane)
    ensures BodyInv(env, ds, n + 1, w0, w')
  {
    hide QuadsHold, IsFetch, Loaded;
    QuadsKept(env, ds, n, w0, w, w');
    hide SgprFresh, VgprFresh, InBlock, InQuad;
    forall r: nat | r < NUM_SGPRS && SgprFresh(ds, n + 1, r) ensures w'.sgprs[r] == w0.sgprs[r] {
      FreshEarlier(ds, n + 1, r);
    }
    forall r: nat, lane: Lane | r < NUM_VGPRS && VgprFresh(ds, n + 1, r)
      ensures Word(w', r, lane) == Word(w0, r, lane)
    {
      FreshEarlier(ds, n + 1, r);
      assert Word(w, r, lane) == Word(w0, r, lane);
    }
  }

  // A later fetch's block misses an earlier attribute's, so the attribute stays.
  lemma StillHolds(env: Env, ds: seq<Decoded>, i: nat, n: nat, w0: Wave, w: Wave, w': Wave)
    requires i < n < |ds| && IsFetch(ds[i].inst, Loaded(ds, i)) && Conventional(ds, n + 1)
    requires Holds(env, AttributeOf(ds[i].inst, Loaded(ds, i)), ds[i].inst, w0, w)
    requires forall r: nat, lane: Lane :: r < NUM_VGPRS && !InBlock(r, ds[n].inst) ==> Word(w', r, lane) == Word(w, r, lane)
    ensures Holds(env, AttributeOf(ds[i].inst, Loaded(ds, i)), ds[i].inst, w0, w')
  {
    hide Fetched, StoredVSharp;
    var a := AttributeOf(ds[i].inst, Loaded(ds, i));
    forall r: nat, lane: Lane | a.destVgpr <= r < a.destVgpr + a.components && r < NUM_VGPRS
      ensures Word(w', r, lane) == Word(w, r, lane)
    {
      assert InBlock(r, ds[i].inst);
      assert InBlock(r, ds[n].inst) ==> VgprFresh(ds, n, r);
    }
  }

  // Executing the body does what the table says: after the whole body every attribute's block
  // holds, in every live lane, what that lane fetches through the V# stored at the attribute's
  // pointer pair plus byte offset.
  lemma {:induction false} TableDescribesBody(env: Env, ds: seq<Decoded>, n: nat, w0: Wave)
    requires n <= |ds| && Conventional(ds, n) && forall i :: 0 <= i < n ==> InShape(ds, i)
    requires Straight(env, ds, n, w0).Some?
    ensures BodyInv(env, ds, n, w0, Straight(env, ds, n, w0).value)
    ensures forall i :: 0 <= i < n && IsFetch(ds[i].inst, Loaded(ds, i)) ==>
      Holds(env, AttributeOf(ds[i].inst, Loaded(ds, i)), ds[i].inst, w0, Straight(env, ds, n, w0).value)
  {
    hide ExecOne, Holds, BodyInv, Conventional;
    if n == 0 {
      StartInv(env, ds, w0);
    } else {
      ConventionalEarlier(ds, n);
      TableDescribesBody(env, ds, n - 1, w0);
      var w := Straight(env, ds, n - 1, w0).value;
      var inst := ds[n - 1].inst;
      assert InShape(ds, n - 1);
      if IsQuadLoad(inst) {
        LoadStep(env, ds, n - 1, w0, w);
        LoadKeepsVgprs(env, w, inst);
      } else if IsFetch(inst, Loaded(ds, n - 1)) {
        FetchStep(env, ds, n - 1, w0, w);
      } else {
        FillerStep(env, ds, n - 1, w0, w);
      }
      var w' := Straight(env, ds, n, w0).value;
      forall i | 0 <= i < n - 1 && IsFetch(ds[i].inst, Loaded(ds, i))
        ensures Holds(env, AttributeOf(ds[i].inst, Loaded(ds, i)), ds[i].inst, w0, w')
      {
        StillHolds(env, ds, i, n - 1, w0, w, w');
      }
    }
  }

  lemma StartInv(env: Env, ds: seq<Decoded>, w0: Wave)
    ensures BodyInv(env, ds, 0, w0, w0)
  {
    assert forall r: nat, lane: Lane :: r < NUM_VGPRS ==> Word(w0, r, lane) == Word(w0, r, lane);
    assert Loaded(ds, 0) == map[];
  }

  lemma ConventionalEarlier(ds: seq<Decoded>, n: nat)
    requires 0 < n <= |ds| && Conventional(ds, n)
    ensures Conventional(ds, n - 1)
  {
  }

  lemma LoadKeepsVgprs(env: Env, w: Wave, inst: Inst)
    requires IsQuadLoad(inst) && ExecOne(env, w, inst).Some?
    ensures forall r: nat, lane: Lane :: r < NUM_VGPRS ==> Word(ExecOne(env, w, inst).value, r, lane) == Word(w, r, lane)
  {
    hide SmrdWords;
  }

  lemma FillerStep(env: Env, ds: seq<Decoded>, n: nat, w0: Wave, w: Wave)
    requires n < |ds| && IsFiller(ds[n].inst) && BodyInv(env, ds, n, w0, w)
    ensures BodyInv(env, ds, n + 1, w0, w)
  {
    forall r: nat | r < NUM_SGPRS && SgprFresh(ds, n + 1, r)
      ensures w.sgprs[r] == w0.sgprs[r]
    {
      FreshEarlier(ds, n + 1, r);
    }
    forall r: nat, lane: Lane | r < NUM_VGPRS && VgprFresh(ds, n + 1, r)
      ensures Word(w, r, lane) == Word(w0, r, lane)
    {
      FreshEarlier(ds, n + 1, r);
    }
    assert Loaded(ds, n + 1) == Loaded(ds, n);
  }

  // Every entry of the table is one fetch of the body.
  lemma {:induction false} TableEntry(ds: seq<Decoded>, n: nat, k: nat) returns (i: nat)
    requires n <= |ds| && k < |Attributes(ds, n)|
    ensures i < n && IsFetch(ds[i].inst, Loaded(ds, i)) && Attributes(ds, n)[k] == AttributeOf(ds[i].inst, Loaded(ds, i))
  {
    if IsFetch(ds[n - 1].inst, Loaded(ds, n - 1)) && k == |Attributes(ds, n - 1)| {
      i := n - 1;
    } else {
      i := TableEntry(ds, n - 1, k);
    }
  }

  // Each entry, read with the fetch it was recovered from, holds after executing the body.
  lemma TableReplacesSubroutine(env: Env, ds: seq<Decoded>, ret: nat, w0: Wave, k: nat) returns (i: nat)
    requires IsFetchShader(ds, ret) && Conventional(ds, ret) && k < |Attributes(ds, ret)|
    requires Straight(env, ds, ret, w0).Some?
    ensures i < ret && IsFetch(ds[i].inst, Loaded(ds, i)) && AttributeOf(ds[i].inst, Loaded(ds, i)) == Attributes(ds, ret)[k]
    ensures Holds(env, Attributes(ds, ret)[k], ds[i].inst, w0, Straight(env, ds, ret, w0).value)
  {
    hide ExecOne, Holds, Conventional;
    i := TableEntry(ds, ret, k);
    TableDescribesBody(env, ds, ret, w0);
  }

  // The table does not record a fetch's index register or offsets: two accepted shaders that
  // fetch from different addresses recover the same table.
  lemma TableOmitsOffsets(r: Decoded)
    requires IsFetchReturn(r.inst)
    ensures var load := Decoded(Smrd(S_LOAD_DWORDX4, Sgpr(4), 2, true, 0), 1, 0);
            var fetch := (off: u32) => Decoded(Mubuf(0, Vgpr(4), Vgpr(0), 4, InlineInt(0), off, true, false), 2, 1);
            var a, b := [load, fetch(0), r], [load, fetch(16), r];
            && IsFetchShader(a, 2) && IsFetchShader(b, 2) && Attributes(a, 2) == Attributes(b, 2)
            && forall v: VSharp :: v.base + 16 < TWO64 ==> FetchAddr(v, 0, 0, 0, 0) != FetchAddr(v, 0, 0, 16, 0)
  {
    forall ds: seq<Decoded>, off: u32 |
        ds == [Decoded(Smrd(S_LOAD_DWORDX4, Sgpr(4), 2, true, 0), 1, 0),
               Decoded(Mubuf(0, Vgpr(4), Vgpr(0), 4, InlineInt(0), off, true, false), 2, 1), r]
      ensures IsFetchShader(ds, 2) && Attributes(ds, 2) == [Attribute(4, 4, 1, 2, 0)]
    {
      assert Loaded(ds, 0) == map[];
      assert Loaded(ds, 1) == map[4 := Source(2, 0)];
      assert Attributes(ds, 0) == [] && Attributes(ds, 1) == [];
      assert InShape(ds, 0) && InShape(ds, 1);
    }
  }
}
