// When the recovered attribute table alone is enough: a fetch that only its entry describes is exactly
// one indexed by v0 with no offset of its own.

module FetchTable {
  import opened Words
  import opened Bits
  import opened Isa
  import opened Wavefront
  import opened LaneLoops
  import opened Walk
  import opened FetchShader

  // What a lane fetches by the entry alone: through the V# the entry names, at the index in v0.
  function FromTable(env: Env, w: Wave, lane: Lane, a: Attribute): Option<seq<u32>> {
    var words :- StoredVSharp(env, w, a.descPtrSgpr, a.descOffset);
    var v := DecodeVSharp(words[0], words[1], words[2], words[3]);
    FetchWords(env, v, FetchAddr(v, Word(w, 0, lane), 0, 0, 0), a.components)
  }

  // `lane`'s block of attribute `a` holds what the entry alone says it should.
  ghost predicate EntryHolds(env: Env, a: Attribute, w0: Wave, w: Wave, lane: Lane) {
    var words := FromTable(env, w0, lane, a);
    && words.Some? && |words.value| == a.components
    && forall c :: 0 <= c < a.components && a.destVgpr + c < NUM_VGPRS ==>
         Word(w, a.destVgpr + c, lane) == words.value[c]
  }

  // The operand reads as zero in every state.
  predicate IsZero(op: Operand) {
    (op.InlineInt? && op.v % TWO32 == 0) || (op.InlineFloat? && op.bits == 0) || (op.Literal? && op.word == 0)
  }

  // The fetch has no address input but v0: what a caller reads off the instruction.
  predicate Plain(inst: Inst) {
    inst.Mubuf? && inst.vaddr == Vgpr(0) && inst.offset == 0 && IsZero(inst.soffset) && !inst.offen
  }

  ghost predicate AllPlain(ds: seq<Decoded>, n: nat)
    requires n <= |ds|
  {
    forall i :: 0 <= i < n && IsFetch(ds[i].inst, Loaded(ds, i)) ==> Plain(ds[i].inst)
  }

  lemma PlainIsFromTable(env: Env, w: Wave, lane: Lane, inst: Inst, a: Attribute)
    requires Plain(inst) && VdataCount(inst.op) == Some(a.components)
    requires StoredVSharp(env, w, a.descPtrSgpr, a.descOffset).Some?
    ensures FromTable(env, w, lane, a)
         == Fetched(env, w, lane, StoredVSharp(env, w, a.descPtrSgpr, a.descOffset).value, inst)
  {
    hide FetchWords, DecodeVSharp, FetchAddr, StoredVSharp;
    assert ReadScalar(w, inst.soffset) == Some(0);
  }

  // The table suffices: after a body of plain fetches every attribute's block holds, in every live
  // lane, what its entry alone says.
  lemma TableSuffices(env: Env, ds: seq<Decoded>, ret: nat, w0: Wave, k: nat, lane: Lane)
    requires IsFetchShader(ds, ret) && Conventional(ds, ret) && AllPlain(ds, ret)
    requires Straight(env, ds, ret, w0).Some? && k < |Attributes(ds, ret)| && LaneLive(w0, lane)
    ensures EntryHolds(env, Attributes(ds, ret)[k], w0, Straight(env, ds, ret, w0).value, lane)
  {
    hide Conventional, Straight, FromTable, Fetched, StoredVSharp, Bit;
    var i := TableReplacesSubroutine(env, ds, ret, w0, k);
    PlainIsFromTable(env, w0, lane, ds[i].inst, Attributes(ds, ret)[k]);
  }

  // ---- the converse ---------------------------------------------------------------------------

  // The registers the instruction names exist.
  predicate InRange(inst: Inst) {
    && (inst.Smrd? ==> inst.sbase + 1 < NUM_SGPRS && inst.sdst.Sgpr? && inst.sdst.n + 4 <= NUM_SGPRS)
    && (inst.Mubuf? ==>
          && inst.srsrc + 3 < NUM_SGPRS && Readable(inst.soffset)
          && inst.vdata.Vgpr? && VdataCount(inst.op).Some? && inst.vdata.n + VdataCount(inst.op).value <= NUM_VGPRS
          && (inst.offen ==> inst.vaddr.Vgpr? && inst.vaddr.n + 1 < NUM_VGPRS))
  }

  predicate Readable(op: Operand) {
    !op.Raw? && !op.Vgpr? && (op.Sgpr? ==> op.n < NUM_SGPRS)
  }

  // Memory in which every descriptor is a V# of stride 1 based at 2^40, and the elements are zero
  // except the one at `mark`.
  const HEAP: nat := 0x100_0000_0000

  function ByteAt(mark: nat, addr: nat, i: nat): u8 {
    if addr < HEAP then (if i == 5 || i == 6 then 1 else 0)
    else if addr == mark then 1
    else 0
  }

  function Bytes(mark: nat, addr: nat, size: nat): (s: seq<u8>)
    ensures |s| == size && forall i :: 0 <= i < size ==> s[i] == ByteAt(mark, addr, i)
  {
    seq(size, i requires 0 <= i => ByteAt(mark, addr, i))
  }

  // The environment `env` with that memory.
  function Marked(env: Env, mark: nat): Env {
    env.(load := (addr: u64, size: nat) => Some(Bytes(mark, addr, size)))
  }

  // Every scalar register is one, so is the vector register `r`, and the others are zero.
  function Probe(r: nat): Wave {
    Wave(seq(104, _ => 1), ProbeRows(r), TWO32 + 1, TWO32 + 1, true, 1, [])
  }

  function ProbeRows(r: nat): VFile {
    var zero: VFile := seq<Row>(256, _ => ZeroRow());
    if r < 256 then zero[r := FilledRow(1)] else zero
  }

  lemma ProbeWord(r: nat, n: nat)
    requires n < NUM_VGPRS
    ensures Word(Probe(r), n, 0) == if n == r then 1 else 0
  {
  }

  function FilledRow(x: u32): Row {
    seq(64, _ => x)
  }

  lemma MarkedLoads(env: Env, mark: nat, addr: u64, size: nat)
    ensures Load(Marked(env, mark), addr, size) == Some(Bytes(mark, addr, size))
  {
  }

  // The descriptor every pointer pair leads to.
  lemma MarkedVSharp(env: Env, mark: nat, r: nat, ptr: nat, offset: nat)
    requires ptr + 1 < NUM_SGPRS && offset < 0x4_0000_0000
    ensures StoredVSharp(Marked(env, mark), Probe(r), ptr, offset) == Some([0, 0x1_0100, 0, 0])
    ensures DecodeVSharp(0, 0x1_0100, 0, 0) == VSharp(HEAP, 1, 0, 0, 0)
  {
    var base := TWO32 + 1;
    assert ReadSgprPair(Probe(r), ptr) == Some(base);
    MarkedLoads(env, mark, (base + offset) % TWO64, 16);
    assert (base + offset) % TWO64 == base + offset < HEAP;
    var bytes := Bytes(mark, base + offset, 16);
    hide Bytes;
    assert LeWord(bytes, 0) == 0 && LeWord(bytes, 4) == 0x1_0100 && LeWord(bytes, 8) == 0 && LeWord(bytes, 12) == 0;
    assert StoredVSharp(Marked(env, mark), Probe(r), ptr, offset).value == [0, 0x1_0100, 0, 0];
  }

  // The first word of the element at `addr`.
  lemma MarkedElement(env: Env, mark: nat, addr: u64, count: nat)
    requires addr >= HEAP && count > 0
    ensures var words := FetchWords(Marked(env, mark), VSharp(HEAP, 1, 0, 0, 0), addr, count);
            words.Some? && words.value[0] == if addr == mark then 0x101_0101 else 0
  {
    MarkedLoads(env, mark, addr, 4 * count);
    var bytes := Bytes(mark, addr, 4 * count);
    hide Bytes;
    assert LeWord(bytes, 0) == if addr == mark then 0x101_0101 else 0;
  }

  lemma ProbeReads(r: nat, op: Operand)
    requires Readable(op)
    ensures ReadScalar(Probe(r), op).Some? && (ReadScalar(Probe(r), op).value == 0 <==> IsZero(op))
  {
  }

  lemma ReadableReads(w: Wave, op: Operand)
    requires Readable(op)
    ensures ReadScalar(w, op).Some?
  {
  }

  // ---- such a body runs ---------------------------------------------------------------------------

  lemma MarkedStep(env: Env, mark: nat, inst: Inst, loaded: map<u8, Source>, w: Wave)
    requires IsQuadLoad(inst) || IsFetch(inst, loaded)
    requires InRange(inst) && (inst.Mubuf? ==> inst.vaddr.Vgpr?)
    ensures ExecOne(Marked(env, mark), w, inst).Some?
  {
    var e := Marked(env, mark);
    if IsQuadLoad(inst) {
      MarkedLoads(env, mark, SmrdAddr(w, inst).value, 16);
    } else {
      ReadableReads(w, inst.soffset);
      hide ReadScalar, Marked;
      LaneLoopIsSimultaneous(e, w, inst);
      forall lane: Lane ensures LaneOk(e, w, lane, inst) {
        MarkedFetch(env, mark, inst, w, lane);
      }
    }
  }

  lemma MarkedFetch(env: Env, mark: nat, inst: Inst, w: Wave, lane: Lane)
    requires inst.Mubuf? && InRange(inst) && inst.vaddr.Vgpr?
    ensures LaneOk(Marked(env, mark), w, lane, inst)
  {
    var e := Marked(env, mark);
    ReadableReads(w, inst.soffset);
    hide ReadScalar, DecodeVSharp, FetchAddr;
    forall addr: u64 ensures FetchWords(e, ReadVSharp(w, inst.srsrc).value, addr, VdataCount(inst.op).value).Some? {
      MarkedLoads(env, mark, addr, 4 * VdataCount(inst.op).value);
    }
    hide Marked;
    assert MubufEffect(e, w, lane, inst).Some?;
  }

  ghost predicate AllInRange(ds: seq<Decoded>, n: nat)
    requires n <= |ds|
  {
    forall i :: 0 <= i < n ==> InRange(ds[i].inst)
  }

  lemma {:induction false} MarkedRuns(env: Env, mark: nat, ds: seq<Decoded>, n: nat, w: Wave)
    requires n <= |ds| && Conventional(ds, n) && AllInRange(ds, n) && forall i :: 0 <= i < n ==> InShape(ds, i)
    ensures Straight(Marked(env, mark), ds, n, w).Some?
  {
    if n > 0 {
      ConventionalEarlier(ds, n);
      MarkedRuns(env, mark, ds, n - 1, w);
      var before := Straight(Marked(env, mark), ds, n - 1, w).value;
      assert InShape(ds, n - 1);
      if !IsFiller(ds[n - 1].inst) {
        MarkedStep(env, mark, ds[n - 1].inst, Loaded(ds, n - 1), before);
      }
    }
  }

  lemma {:induction false} LoadedInRange(ds: seq<Decoded>, n: nat, q: u8)
    requires n <= |ds| && AllInRange(ds, n) && q in Loaded(ds, n)
    ensures Loaded(ds, n)[q].ptr + 1 < NUM_SGPRS && Loaded(ds, n)[q].offset < 0x4_0000_0000
  {
    var inst := ds[n - 1].inst;
    if !(IsQuadLoad(inst) && inst.sdst.n == q) { LoadedInRange(ds, n - 1, q); }
  }

  lemma {:induction false} EntryOf(ds: seq<Decoded>, n: nat, i: nat) returns (k: nat)
    requires i < n <= |ds| && IsFetch(ds[i].inst, Loaded(ds, i))
    ensures k < |Attributes(ds, n)| && Attributes(ds, n)[k] == AttributeOf(ds[i].inst, Loaded(ds, i))
  {
    if i == n - 1 {
      k := |Attributes(ds, n - 1)|;
    } else {
      k := EntryOf(ds, n - 1, i);
    }
  }

  // The address the fetch reads and the one its entry names, in memory and registers like these.
  function RealAddress(inst: Inst, r: nat): nat
    requires inst.Mubuf? && InRange(inst) && inst.vaddr.Vgpr?
  {
    ReadableReads(Probe(r), inst.soffset);
    HEAP + Word(Probe(r), inst.vaddr.n, 0) + ReadScalar(Probe(r), inst.soffset).value + inst.offset
    + if inst.offen then Word(Probe(r), inst.vaddr.n + 1, 0) else 0
  }

  // A fetch that is not plain reads another address than its entry for one of two launch states.
  lemma AddressesDiffer(inst: Inst) returns (r: nat)
    requires inst.Mubuf? && InRange(inst) && inst.vaddr.Vgpr? && !Plain(inst)
    ensures RealAddress(inst, r) != HEAP + Word(Probe(r), 0, 0)
  {
    r := if inst.offset == 0 && IsZero(inst.soffset) && inst.vaddr.n != 0 then 0 else 1;
    ProbeReads(r, inst.soffset);
    ProbeWord(r, 0);
    ProbeWord(r, inst.vaddr.n);
    if inst.offen { ProbeWord(r, inst.vaddr.n + 1); }
    hide ReadScalar, Probe, Word;
  }

  lemma FetchedWord(env: Env, mark: nat, r: nat, inst: Inst)
    requires inst.Mubuf? && InRange(inst) && inst.vaddr.Vgpr?
    ensures var words := Fetched(Marked(env, mark), Probe(r), 0, [0, 0x1_0100, 0, 0], inst);
            words.Some? ==> |words.value| > 0 && words.value[0] == if RealAddress(inst, r) == mark then 0x101_0101 else 0
  {
    ReadableReads(Probe(r), inst.soffset);
    var a := RealAddress(inst, r);
    assert a < TWO64;
    MarkedElement(env, mark, a, VdataCount(inst.op).value);
    MarkedVSharp(env, mark, r, 0, 0);
    hide ReadScalar, Marked, FetchWords, StoredVSharp;
  }

  lemma TableWord(env: Env, mark: nat, r: nat, a: Attribute)
    requires a.descPtrSgpr + 1 < NUM_SGPRS && a.descOffset < 0x4_0000_0000 && a.components > 0
    ensures var words := FromTable(Marked(env, mark), Probe(r), 0, a);
            words.Some? && |words.value| == a.components
            && words.value[0] == if HEAP + Word(Probe(r), 0, 0) == mark then 0x101_0101 else 0
  {
    MarkedVSharp(env, mark, r, a.descPtrSgpr, a.descOffset);
    MarkedElement(env, mark, HEAP + Word(Probe(r), 0, 0), a.components);
    hide Marked, FetchWords, StoredVSharp;
  }

  // And conversely: a fetch that is not plain has an environment and a launch state in which the whole
  // body runs and the block its entry names holds something else than the entry says.
  lemma TableFallsShort(env: Env, ds: seq<Decoded>, ret: nat, i: nat) returns (mark: nat, r: nat, k: nat)
    requires IsFetchShader(ds, ret) && Conventional(ds, ret) && AllInRange(ds, ret)
    requires i < ret && IsFetch(ds[i].inst, Loaded(ds, i)) && !Plain(ds[i].inst)
    ensures Straight(Marked(env, mark), ds, ret, Probe(r)).Some? && k < |Attributes(ds, ret)| && LaneLive(Probe(r), 0)
    ensures !EntryHolds(Marked(env, mark), Attributes(ds, ret)[k], Probe(r),
                        Straight(Marked(env, mark), ds, ret, Probe(r)).value, 0)
  {
    hide Straight, EntryHolds, LaneLive;
    var inst := ds[i].inst;
    assert inst.vaddr.Vgpr?;
    r := AddressesDiffer(inst);
    mark := HEAP + Word(Probe(r), 0, 0);
    k := EntryOf(ds, ret, i);
    MarkedRuns(env, mark, ds, ret, Probe(r));
    ProbeIsLive(r);
    BlockDiffers(env, mark, r, ds, ret, i);
  }

  lemma ProbeIsLive(r: nat)
    ensures LaneLive(Probe(r), 0)
  {
  }

  lemma BlockDiffers(env: Env, mark: nat, r: nat, ds: seq<Decoded>, ret: nat, i: nat)
    requires IsFetchShader(ds, ret) && Conventional(ds, ret) && AllInRange(ds, ret)
    requires i < ret && IsFetch(ds[i].inst, Loaded(ds, i))
    requires mark == HEAP + Word(Probe(r), 0, 0) && ds[i].inst.vaddr.Vgpr? && RealAddress(ds[i].inst, r) != mark
    requires Straight(Marked(env, mark), ds, ret, Probe(r)).Some?
    ensures !EntryHolds(Marked(env, mark), AttributeOf(ds[i].inst, Loaded(ds, i)), Probe(r),
                        Straight(Marked(env, mark), ds, ret, Probe(r)).value, 0)
  {
    var inst, a := ds[i].inst, AttributeOf(ds[i].inst, Loaded(ds, i));
    var e, w0 := Marked(env, mark), Probe(r);
    var w := Straight(e, ds, ret, w0).value;
    LoadedInRange(ds, i, inst.srsrc);
    hide Straight, Marked, Fetched, FromTable, StoredVSharp, RealAddress, BodyInv, Conventional, Probe, Loaded, LaneLive, Word;
    TableDescribesBody(e, ds, ret, w0);
    assert Holds(e, a, inst, w0, w);
    MarkedVSharp(env, mark, r, a.descPtrSgpr, a.descOffset);
    FetchedWord(env, mark, r, inst);
    TableWord(env, mark, r, a);
    ProbeIsLive(r);
    assert Word(w, a.destVgpr + 0, 0) == 0;
  }

  // ---- the exact condition --------------------------------------------------------------------------

  // A body that ever runs with a live lane names only registers that exist.
  lemma RunStepInRange(env: Env, w: Wave, inst: Inst, loaded: map<u8, Source>, lane: Lane)
    requires IsQuadLoad(inst) || IsFetch(inst, loaded)
    requires ExecOne(env, w, inst).Some? && LaneLive(w, lane)
    ensures InRange(inst)
  {
    if IsQuadLoad(inst) {
      hide Load, LeWord, WriteSgprs;
    } else {
      LaneLoopIsSimultaneous(env, w, inst);
      assert LaneOk(env, w, lane, inst);
      hide LaneLoop, FetchWords, DecodeVSharp, FetchAddr, Bit;
      assert LaneEffect(env, w, lane, inst) == MubufEffect(env, w, lane, inst);
    }
  }

  lemma {:induction false} RunIsInRange(env: Env, ds: seq<Decoded>, n: nat, w0: Wave, lane: Lane)
    requires n <= |ds| && Conventional(ds, n) && (forall i :: 0 <= i < n ==> InShape(ds, i))
    requires Straight(env, ds, n, w0).Some? && LaneLive(w0, lane)
    ensures AllInRange(ds, n)
  {
    hide ExecOne, InRange, Conventional, LaneLive, Loaded;
    if n > 0 {
      ConventionalEarlier(ds, n);
      RunIsInRange(env, ds, n - 1, w0, lane);
      BodyKeepsLive(env, ds, n - 1, w0, lane);
      var before := Straight(env, ds, n - 1, w0).value;
      assert InShape(ds, n - 1);
      if IsFiller(ds[n - 1].inst) {
        FillerInRange(ds[n - 1].inst);
      } else {
        RunStepInRange(env, before, ds[n - 1].inst, Loaded(ds, n - 1), lane);
      }
    }
  }

  lemma BodyKeepsLive(env: Env, ds: seq<Decoded>, n: nat, w0: Wave, lane: Lane)
    requires n <= |ds| && Conventional(ds, n) && (forall i :: 0 <= i < n ==> InShape(ds, i))
    requires Straight(env, ds, n, w0).Some?
    ensures LaneLive(Straight(env, ds, n, w0).value, lane) == LaneLive(w0, lane)
  {
    hide Straight, Conventional, InShape, Holds, QuadsHold, Bit;
    TableDescribesBody(env, ds, n, w0);
  }

  lemma FillerInRange(inst: Inst)
    requires IsFiller(inst)
    ensures InRange(inst)
  {
  }

  // In every environment and from every launch state, every attribute's block ends up holding, in
  // every live lane, what its entry alone says.
  ghost predicate Suffices(ds: seq<Decoded>, ret: nat)
    requires ret <= |ds|
  {
    forall env: Env, w0: Wave, k: nat, lane: Lane ::
      Straight(env, ds, ret, w0).Some? && k < |Attributes(ds, ret)| && LaneLive(w0, lane) ==>
        EntryHolds(env, Attributes(ds, ret)[k], w0, Straight(env, ds, ret, w0).value, lane)
  }

  // The table replaces the subroutine exactly when every fetch is indexed by v0 and adds no offset of
  // its own, for every conventional fetch shader that can run at all.
  lemma TableSufficesIff(env: Env, ds: seq<Decoded>, ret: nat, w: Wave, lane: Lane)
    requires IsFetchShader(ds, ret) && Conventional(ds, ret)
    requires Straight(env, ds, ret, w).Some? && LaneLive(w, lane)
    ensures Suffices(ds, ret) <==> AllPlain(ds, ret)
  {
    hide Straight, EntryHolds, Conventional, LaneLive, Attributes, Loaded, Plain, IsFetch;
    RunIsInRange(env, ds, ret, w, lane);
    if AllPlain(ds, ret) {
      forall env': Env, w0: Wave, k: nat, lane': Lane |
          Straight(env', ds, ret, w0).Some? && k < |Attributes(ds, ret)| && LaneLive(w0, lane')
        ensures EntryHolds(env', Attributes(ds, ret)[k], w0, Straight(env', ds, ret, w0).value, lane')
      {
        TableSuffices(env', ds, ret, w0, k, lane');
      }
    } else {
      var i :| 0 <= i < ret && IsFetch(ds[i].inst, Loaded(ds, i)) && !Plain(ds[i].inst);
      var mark, r, k := TableFallsShort(env, ds, ret, i);
    }
  }
}
