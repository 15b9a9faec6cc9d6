// What one lane's turn of the in-place loop sees and leaves, with no assumption about the operands:
// the lane finds its own column as it was, and of the mask being written the bits of the lanes
// before it new and the others old.

module LaneTurns {
  import opened Words
  import opened Bits
  import opened Isa
  import opened Wavefront
  import opened LaneLoops

  predicate InMask(inst: Inst, r: nat) {
    BitDst(inst).Some? && BitDst(inst).value.Sgpr? && (r == BitDst(inst).value.n || r == BitDst(inst).value.n + 1)
  }

  predicate WritesVcc(inst: Inst) { BitDst(inst).Some? && IsVcc(BitDst(inst).value) }

  // Lane `j`'s bit of the mask the instruction writes.
  predicate MaskBit(w: Wave, inst: Inst, j: Lane) {
    if BitDst(inst).Some? && BitDst(inst).value.Sgpr? then
      var r := PairReg(BitDst(inst).value.n, j);
      r < NUM_SGPRS && Bit(w.sgprs[r], j % 32)
    else Bit(w.vcc, j)
  }

  // Everything is as before but vector registers, exports and the mask.
  ghost predicate SameRest(w: Wave, u: Wave, inst: Inst) {
    && u.exec == w.exec && u.scc == w.scc && u.m0 == w.m0
    && (!WritesVcc(inst) ==> u.vcc == w.vcc)
    && forall r: nat :: r < NUM_SGPRS && !InMask(inst, r) ==> u.sgprs[r] == w.sgprs[r]
  }

  // `u` is what `lane` finds on its turn between `w` and `w'`.
  ghost predicate AtTurn(w: Wave, w': Wave, inst: Inst, lane: Lane, u: Wave) {
    && SameRest(w, u, inst) && SameColumn(u, w, lane)
    && forall j: Lane :: MaskBit(u, inst, j) == if j < lane then MaskBit(w', inst, j) else MaskBit(w, inst, j)
  }

  // What `lane`'s effect left in the final state.
  ghost predicate Left(w: Wave, w': Wave, inst: Inst, lane: Lane, e: Effect) {
    && e.base + |e.words| <= NUM_VGPRS
    && (forall r: nat :: r < NUM_VGPRS ==> Word(w', r, lane) == NewWord(e, r, Word(w, r, lane)))
    && (BitDst(inst).Some? ==> MaskBit(w', inst, lane) == e.bit)
  }

  function Idle(): Effect { Effect(0, [], false, []) }

  lemma StoredBit(v: Wave, k: Lane, inst: Inst, b: bool)
    requires WriteBitIfAny(v, inst, k, b).Some?
    ensures var v' := WriteBitIfAny(v, inst, k, b).value;
            && SameRest(v, v', inst) && v'.vgprs == v.vgprs && v'.exports == v.exports
            && (forall j: Lane :: j != k ==> MaskBit(v', inst, j) == MaskBit(v, inst, j))
            && (BitDst(inst).Some? ==> MaskBit(v', inst, k) == b)
  {
    hide Bit, SetBit;
    var v' := WriteBitIfAny(v, inst, k, b).value;
    if BitDst(inst).Some? {
      forall j: Lane
        ensures MaskBit(v', inst, j) == if j == k then b else MaskBit(v, inst, j)
      {
        if BitDst(inst).value.Sgpr? {
          var n := BitDst(inst).value.n;
          BitOfSetBit(v.sgprs[PairReg(n, k)], k % 32, b, j % 32);
        } else {
          BitOfSetBit(v.vcc, k, b, j);
        }
      }
    }
  }

  lemma TurnFrame(env: Env, v: Wave, k: Lane, inst: Inst)
    requires IsVector(inst) && LaneTurn(env, v, k, inst).Some?
    ensures var v' := LaneTurn(env, v, k, inst).value;
            && SameRest(v, v', inst)
            && (forall j: Lane :: j != k ==> SameColumn(v', v, j) && MaskBit(v', inst, j) == MaskBit(v, inst, j))
            && (if LaneLive(v, k) then
                  LaneEffect(env, v, k, inst).Some? && Left(v, v', inst, k, LaneEffect(env, v, k, inst).value)
                else Left(v, v', inst, k, Idle()))
  {
    hide LaneEffect, WriteBitIfAny, MaskBit, IsVector, BitDst, WriteWords;
    var v' := LaneTurn(env, v, k, inst).value;
    var e := if LaneLive(v, k) then LaneEffect(env, v, k, inst).value else Idle();
    StoredBit(v, k, inst, e.bit);
    var v1 := WriteBitIfAny(v, inst, k, e.bit).value;
    assert v'.vgprs == WriteWords(v1.vgprs, e.base, k, e.words) by { NoWords(v1.vgprs, k); }
    SameMasks(v1, v', inst);
    forall r: nat, j: Lane | r < NUM_VGPRS
      ensures Word(v', r, j) == if j == k then NewWord(e, r, Word(v, r, j)) else Word(v, r, j)
    {
      WrittenWord(v1, v', e, k, r, j);
    }
    forall j: Lane | j != k ensures SameColumn(v', v, j) && MaskBit(v', inst, j) == MaskBit(v, inst, j) {
      assert MaskBit(v', inst, j) == MaskBit(v1, inst, j);
    }
  }

  lemma NoWords(v: VFile, k: Lane)
    ensures WriteWords(v, 0, k, []) == v
  {
  }

  lemma SameMasks(v: Wave, v': Wave, inst: Inst)
    requires v' == v.(vgprs := v'.vgprs, exports := v'.exports)
    ensures forall j: Lane :: MaskBit(v', inst, j) == MaskBit(v, inst, j)
  {
  }

  // The turns from `k` on leave the lanes before `k` alone.
  lemma {:induction false} KeepsEarlier(env: Env, v: Wave, k: nat, inst: Inst, w': Wave)
    requires IsVector(inst) && k <= LANES && LaneLoop(env, v, k, inst) == Some(w')
    ensures SameRest(v, w', inst)
    ensures forall j: Lane :: j < k ==> SameColumn(w', v, j) && MaskBit(w', inst, j) == MaskBit(v, inst, j)
    decreases LANES - k
  {
    hide LaneTurn, MaskBit, IsVector, InMask, WritesVcc, SameColumn;
    if k < LANES {
      TurnFrame(env, v, k, inst);
      var v' := LaneTurn(env, v, k, inst).value;
      KeepsEarlier(env, v', k + 1, inst, w');
      forall j: Lane | j < k ensures SameColumn(w', v, j) && MaskBit(w', inst, j) == MaskBit(v, inst, j) {
        SameColumnTrans(w', v', v, j);
        assert MaskBit(w', inst, j) == MaskBit(v', inst, j);
      }
    } else {
      forall j: Lane ensures SameColumn(v, v, j) { SameColumnRefl(v, j); }
    }
  }

  lemma SameColumnRefl(a: Wave, j: Lane)
    ensures SameColumn(a, a, j)
  {
  }

  lemma SameColumnTrans(a: Wave, b: Wave, c: Wave, j: Lane)
    requires SameColumn(a, b, j) && SameColumn(b, c, j)
    ensures SameColumn(a, c, j)
  {
    forall r: nat | r < NUM_VGPRS ensures Word(a, r, j) == Word(c, r, j) {
      assert Word(a, r, j) == Word(b, r, j);
    }
  }

  lemma LeftFrom(w: Wave, v: Wave, v': Wave, w': Wave, inst: Inst, lane: Lane, e: Effect)
    requires Left(v, v', inst, lane, e) && SameColumn(v, w, lane) && SameColumn(w', v', lane)
    requires MaskBit(w', inst, lane) == MaskBit(v', inst, lane)
    ensures Left(w, w', inst, lane, e)
  {
    hide MaskBit, NewWord;
    forall r: nat | r < NUM_VGPRS ensures Word(w', r, lane) == NewWord(e, r, Word(w, r, lane)) {
      assert Word(w', r, lane) == Word(v', r, lane) && Word(v, r, lane) == Word(w, r, lane);
    }
  }

  // `v`, reached on turn `k`, has the lanes from `k` on as in `w` and the bits before `k` as in `w'`.
  ghost predicate Midway(w: Wave, w': Wave, inst: Inst, k: nat, v: Wave) {
    && SameRest(w, v, inst)
    && (forall j: Lane :: j >= k ==> SameColumn(v, w, j))
    && (forall j: Lane :: MaskBit(v, inst, j) == if j < k then MaskBit(w', inst, j) else MaskBit(w, inst, j))
  }

  lemma {:induction false} ReachTurn(env: Env, w: Wave, w': Wave, inst: Inst, k: nat, v: Wave, lane: Lane) returns (u: Wave)
    requires IsVector(inst) && k <= lane && LaneLoop(env, v, k, inst) == Some(w') && Midway(w, w', inst, k, v)
    ensures AtTurn(w, w', inst, lane, u)
    ensures if LaneLive(w, lane) then
              LaneEffect(env, u, lane, inst).Some? && Left(w, w', inst, lane, LaneEffect(env, u, lane, inst).value)
            else Left(w, w', inst, lane, Idle())
    decreases lane - k
  {
    hide LaneTurn, LaneEffect, MaskBit, IsVector, InMask, WritesVcc, SameColumn, Left;
    TurnFrame(env, v, k, inst);
    var v' := LaneTurn(env, v, k, inst).value;
    KeepsEarlier(env, v', k + 1, inst, w');
    if k == lane {
      u := v;
      LeftFrom(w, v, v', w', inst, lane, if LaneLive(v, k) then LaneEffect(env, v, k, inst).value else Idle());
    } else {
      forall j: Lane | j >= k + 1 ensures SameColumn(v', w, j) {
        SameColumnTrans(v', v, w, j);
      }
      u := ReachTurn(env, w, w', inst, k + 1, v', lane);
    }
  }

  // Whatever the operands overlap: each live lane acts once, on the state it finds on its turn, and a
  // dead lane only loses its mask bit.
  lemma LaneActs(env: Env, w: Wave, w': Wave, inst: Inst, lane: Lane) returns (u: Wave)
    requires IsVector(inst) && LaneLoop(env, w, 0, inst) == Some(w')
    ensures AtTurn(w, w', inst, lane, u) && SameRest(w, w', inst)
    ensures if LaneLive(w, lane) then
              LaneEffect(env, u, lane, inst).Some? && Left(w, w', inst, lane, LaneEffect(env, u, lane, inst).value)
            else Left(w, w', inst, lane, Idle())
  {
    hide LaneEffect, LaneLoop, MaskBit, IsVector, InMask, WritesVcc, SameColumn, Left;
    KeepsEarlier(env, w, 0, inst, w');
    forall j: Lane ensures SameColumn(w, w, j) { SameColumnRefl(w, j); }
    u := ReachTurn(env, w, w', inst, 0, w, lane);
  }
}
