// The virtual guest clock, one operation at a time: what a read returns, what a flip anchors,
// and the budgets that hold over whole runs of reads and flips. Nanoseconds are unbounded here.

module Clock {
  import opened Words

  const FRAME_NS: nat := 16_666_667
  const MAX_FRAME_DELTA_NS: nat := 4 * FRAME_NS
  const READ_FLOOR_NS: nat := 1000

  datatype Mode = Realtime | FixedStep

  // The four atomics; `virt == 0` means no flip has happened yet.
  datatype Cells = Cells(flips: nat, virt: nat, anchor: nat, last: nat)

  function Min(a: nat, b: nat): nat { if a <= b then a else b }
  function Max(a: nat, b: nat): nat { if a >= b then a else b }
  function SaturatingSub(a: nat, b: nat): nat { if a >= b then a - b else 0 }

  // Virtual time before the monotonic floor, as phase and mode define it.
  function ComputedNs(mode: Mode, c: Cells, last: nat, now: nat): nat {
    if c.virt == 0 then Min(now, last + FRAME_NS)
    else
      match mode
      case Realtime => c.virt + Min(SaturatingSub(now, c.anchor), MAX_FRAME_DELTA_NS)
      case FixedStep => c.virt + c.flips * FRAME_NS
  }

  function NextNs(mode: Mode, c: Cells, now: nat): nat {
    Max(ComputedNs(mode, c, c.last, now), c.last + READ_FLOOR_NS)
  }

  function PeekNs(mode: Mode, c: Cells, now: nat): nat {
    Max(ComputedNs(mode, c, c.last, now), c.last)
  }

  function Read(mode: Mode, c: Cells, now: nat): Cells {
    c.(last := NextNs(mode, c, now))
  }

  // `now` is the real time the flip peeks at, `now2` the time it anchors.
  function Flip(mode: Mode, c: Cells, now: nat, now2: nat): Cells {
    var first := c.flips == 0;
    var c1 := c.(flips := c.flips + 1);
    match mode
    case FixedStep => if first then c1.(virt := Max(c.last, 1)) else c1
    case Realtime =>
      c1.(anchor := now2, virt := if first then Max(c.last, 1) else Max(PeekNs(mode, c1, now), 1))
  }

  // The clock as the process holds it: global cells, changed in place.
  class GuestClock {
    const mode: Mode
    var flips: nat
    var virt: nat
    var anchor: nat
    var last: nat

    function State(): Cells
      reads this
    {
      Cells(flips, virt, anchor, last)
    }

    constructor (mode: Mode)
      ensures this.mode == mode && State() == Cells(0, 0, 0, 0)
    {
      this.mode := mode;
      flips, virt, anchor, last := 0, 0, 0, 0;
    }

    // The CAS loop. `others[i]` is what another reader stores into `last` between this reader's
    // `i`-th load and its compare-exchange, if one gets in; after `others` it runs undisturbed.
    method NowNs(nows: seq<nat>, others: seq<Option<nat>>) returns (r: nat)
      requires |nows| == |others| + 1
      requires forall i :: 0 <= i < |others| && others[i].Some? ==> others[i].value > last
      modifies this`last
      ensures exists before: nat, k: nat ::
                (k < |nows| && (before == old(last) || Some(before) in others)
                 && r == NextNs(mode, old(State()).(last := before), nows[k]))
      ensures last == r && r > old(last)
    {
      var seen := last;
      var i := 0;
      while true
        invariant 0 <= i <= |others|
        invariant seen == last && last >= old(last) && (last == old(last) || Some(last) in others)
        decreases |others| - i
      {
        var next := Max(ComputedNs(mode, State(), seen, nows[i]), seen + READ_FLOOR_NS);
        if i < |others| && others[i].Some? {
          last := others[i].value;
        }
        if last == seen {
          last := next;
          return next;
        }
        seen := last;
        i := i + 1;
      }
    }

    method AdvanceFrame(now: nat, now2: nat)
      modifies this
      ensures State() == Flip(mode, old(State()), now, now2)
    {
      var first := flips == 0;
      flips := flips + 1;
      if mode == FixedStep {
        if first {
          virt := Max(last, 1);
        }
        return;
      }
      var v := if first then Max(last, 1) else Max(PeekNs(mode, State(), now), 1);
      anchor := now2;
      virt := v;
    }

    // Reads without moving the clock.
    method Peek(now: nat) returns (r: nat)
      ensures r == PeekNs(mode, State(), now) && last <= r
      ensures virt != 0 && mode == Realtime && last <= virt ==> r <= virt + MAX_FRAME_DELTA_NS
    {
      r := Max(ComputedNs(mode, State(), last, now), last);
    }
  }

  // ---- whole sequential runs ---------------------------------------------------------------

  datatype Op = ReadAt(now: nat) | FlipAt(now: nat, now2: nat)

  function Apply(mode: Mode, c: Cells, op: Op): Cells {
    match op
    case ReadAt(now) => Read(mode, c, now)
    case FlipAt(now, now2) => Flip(mode, c, now, now2)
  }

  function After(mode: Mode, c: Cells, ops: seq<Op>): Cells {
    if |ops| == 0 then c else Apply(mode, After(mode, c, ops[..|ops| - 1]), ops[|ops| - 1])
  }

  // What the reads of a run return, in order.
  function Results(mode: Mode, c: Cells, ops: seq<Op>): seq<nat> {
    if |ops| == 0 then []
    else
      var before := ops[..|ops| - 1];
      var earlier := Results(mode, c, before);
      if ops[|ops| - 1].ReadAt? then earlier + [NextNs(mode, After(mode, c, before), ops[|ops| - 1].now)] else earlier
  }

  predicate AllReads(ops: seq<Op>) { forall i :: 0 <= i < |ops| ==> ops[i].ReadAt? }

  lemma {:induction false} ReadsOnlyMoveLast(mode: Mode, c: Cells, ops: seq<Op>)
    requires AllReads(ops)
    ensures After(mode, c, ops) == c.(last := After(mode, c, ops).last)
  {
    if |ops| > 0 {
      ReadsOnlyMoveLast(mode, c, ops[..|ops| - 1]);
    }
  }

  // Reads strictly increase over any run of reads and flips, by at least the floor.
  lemma {:induction false} LastNeverFalls(mode: Mode, c: Cells, ops: seq<Op>)
    ensures After(mode, c, ops).last >= c.last + READ_FLOOR_NS * |Results(mode, c, ops)|
  {
    if |ops| > 0 {
      LastNeverFalls(mode, c, ops[..|ops| - 1]);
    }
  }

  // One guest frame's budget: after a realtime flip the k-th read is at most the anchor plus
  // the frame clamp plus one floor per further read, however long the host took.
  lemma {:induction false} FrameBudget(c: Cells, flip: Op, ops: seq<Op>)
    requires flip.FlipAt? && AllReads(ops) && |ops| > 0
    ensures var anchored := Apply(Realtime, c, flip);
            After(Realtime, anchored, ops).last
              <= anchored.virt + MAX_FRAME_DELTA_NS + (|ops| - 1) * READ_FLOOR_NS
    decreases |ops|
  {
    var anchored := Apply(Realtime, c, flip);
    assert anchored.last <= anchored.virt && anchored.virt >= 1;
    var before := ops[..|ops| - 1];
    ReadsOnlyMoveLast(Realtime, anchored, before);
    if |before| > 0 {
      FrameBudget(c, flip, before);
    }
  }

  // Boot catches up: after k reads, all made at real time T or later, the clock has reached T or
  // gained k whole frames.
  lemma {:induction false} BootCatchesUp(mode: Mode, c: Cells, ops: seq<Op>, t: nat)
    requires c.virt == 0 && AllReads(ops) && forall i :: 0 <= i < |ops| ==> ops[i].now >= t
    ensures After(mode, c, ops).last >= Min(t, c.last + |ops| * FRAME_NS)
  {
    if |ops| > 0 {
      var before := ops[..|ops| - 1];
      BootCatchesUp(mode, c, before, t);
      ReadsOnlyMoveLast(mode, c, before);
    }
  }

  // And never outruns: k boot reads gain at most k frames.
  lemma {:induction false} BootNeverOutruns(mode: Mode, c: Cells, ops: seq<Op>)
    requires c.virt == 0 && AllReads(ops)
    ensures After(mode, c, ops).last <= c.last + |ops| * FRAME_NS
  {
    if |ops| > 0 {
      var before := ops[..|ops| - 1];
      BootNeverOutruns(mode, c, before);
      ReadsOnlyMoveLast(mode, c, before);
    }
  }

  // The same reads and flips, at possibly different real times.
  predicate SameShape(a: seq<Op>, b: seq<Op>) {
    |a| == |b| && forall i :: 0 <= i < |a| ==> a[i].ReadAt? == b[i].ReadAt?
  }

  lemma {:induction false} FixedStepAgrees(c: Cells, d: Cells, a: seq<Op>, b: seq<Op>)
    requires SameShape(a, b) && c.virt > 0 && c.flips > 0
    requires c.(anchor := d.anchor) == d
    ensures Results(FixedStep, c, a) == Results(FixedStep, d, b)
    ensures After(FixedStep, c, a).(anchor := d.anchor) == After(FixedStep, d, b)
    ensures After(FixedStep, c, a).virt > 0 && After(FixedStep, c, a).flips > 0
    decreases |a|
  {
    if |a| > 0 {
      FixedStepAgrees(c, d, a[..|a| - 1], b[..|b| - 1]);
    }
  }

  // Fixed-step time is a function of presented frames: two runs that have the same last value
  // at their first flip and then make the same reads and flips return identical values,
  // whatever real time does in either.
  lemma FixedStepIsDeterministic(c: Cells, d: Cells, f: Op, g: Op, a: seq<Op>, b: seq<Op>)
    requires f.FlipAt? && g.FlipAt? && SameShape(a, b)
    requires c.flips == 0 && d.flips == 0 && c.virt == 0 && d.virt == 0 && c.last == d.last
    ensures Results(FixedStep, Apply(FixedStep, c, f), a) == Results(FixedStep, Apply(FixedStep, d, g), b)
  {
    FixedStepAgrees(Apply(FixedStep, c, f), Apply(FixedStep, d, g), a, b);
  }

  // ---- what a read returns ------------------------------------------------------------------

  // The value of the latest read, or `start` before any.
  function Latest(results: seq<nat>, start: nat): nat {
    if |results| == 0 then start else results[|results| - 1]
  }

  lemma {:induction false} LastIsLatest(mode: Mode, c: Cells, ops: seq<Op>)
    ensures After(mode, c, ops).last == Latest(Results(mode, c, ops), c.last)
  {
    if |ops| > 0 {
      LastIsLatest(mode, c, ops[..|ops| - 1]);
    }
  }

  // What the read that follows `ops` returns.
  function NextRead(mode: Mode, c: Cells, ops: seq<Op>, t: nat): nat {
    Latest(Results(mode, c, ops + [ReadAt(t)]), c.last)
  }

  lemma NextReadIs(mode: Mode, c: Cells, ops: seq<Op>, t: nat)
    ensures NextRead(mode, c, ops, t) == NextNs(mode, After(mode, c, ops), t)
  {
    assert (ops + [ReadAt(t)])[..|ops|] == ops;
  }

  // A read is a peek with the floor on top, whatever the mode and phase.
  lemma ReadIsPeekWithFloor(mode: Mode, c: Cells, now: nat)
    ensures NextNs(mode, c, now) == Max(PeekNs(mode, c, now), c.last + 1_000)
    ensures Read(mode, c, now).last == NextNs(mode, c, now)
  {
  }

  // Before the first flip a read returns real time, at most one frame above the read before it, or
  // that read plus the floor.
  lemma BootReads(mode: Mode, c: Cells, ops: seq<Op>, t: nat)
    requires c.virt == 0 && AllReads(ops)
    ensures var previous := Latest(Results(mode, c, ops), c.last);
            NextRead(mode, c, ops, t) == Max(Min(t, previous + 16_666_667), previous + 1_000)
  {
    NextReadIs(mode, c, ops, t);
    ReadsOnlyMoveLast(mode, c, ops);
    LastIsLatest(mode, c, ops);
  }

  // Where a realtime flip anchors: the first at the last value read, a later one at the time it peeks.
  function RealtimeAnchor(c: Cells, now: nat): nat {
    if c.flips == 0 then Max(c.last, 1)
    else if c.virt == 0 then Max(Max(Min(now, c.last + 16_666_667), c.last), 1)
    else Max(Max(c.virt + Min(SaturatingSub(now, c.anchor), 66_666_668), c.last), 1)
  }

  // After a realtime flip every read returns the flip's anchor plus the real time since, held to four
  // frames, or the read before it plus the floor.
  lemma RealtimeReads(c: Cells, flip: Op, ops: seq<Op>, t: nat)
    requires flip.FlipAt? && AllReads(ops)
    ensures var previous := Latest(Results(Realtime, Apply(Realtime, c, flip), ops), c.last);
            NextRead(Realtime, Apply(Realtime, c, flip), ops, t)
            == Max(RealtimeAnchor(c, flip.now) + Min(SaturatingSub(t, flip.now2), 66_666_668), previous + 1_000)
  {
    var anchored := Apply(Realtime, c, flip);
    assert anchored.virt == RealtimeAnchor(c, flip.now) && anchored.virt > 0;
    NextReadIs(Realtime, anchored, ops, t);
    ReadsOnlyMoveLast(Realtime, anchored, ops);
    LastIsLatest(Realtime, anchored, ops);
  }

  function Flips(ops: seq<Op>): nat {
    if |ops| == 0 then 0 else Flips(ops[..|ops| - 1]) + if ops[|ops| - 1].FlipAt? then 1 else 0
  }

  lemma {:induction false} FixedStepCounts(c: Cells, ops: seq<Op>)
    requires c.virt > 0 && c.flips > 0
    ensures After(FixedStep, c, ops).virt == c.virt && After(FixedStep, c, ops).flips == c.flips + Flips(ops)
  {
    if |ops| > 0 {
      FixedStepCounts(c, ops[..|ops| - 1]);
    }
  }

  // A fixed-step read returns the value at the first flip plus one frame for every flip so far, or the
  // read before it plus the floor.
  lemma FixedStepReads(c: Cells, flip: Op, ops: seq<Op>, t: nat)
    requires flip.FlipAt? && c.flips == 0 && c.virt == 0
    ensures var previous := Latest(Results(FixedStep, Apply(FixedStep, c, flip), ops), c.last);
            NextRead(FixedStep, Apply(FixedStep, c, flip), ops, t)
            == Max(Max(c.last, 1) + (1 + Flips(ops)) * 16_666_667, previous + 1_000)
  {
    var anchored := Apply(FixedStep, c, flip);
    NextReadIs(FixedStep, anchored, ops, t);
    FixedStepCounts(anchored, ops);
    LastIsLatest(FixedStep, anchored, ops);
  }

  // ---- realtime follows real time -------------------------------------------------------------

  // The real time that passes inside flips, between the peek and the new anchor.
  function InFlips(ops: seq<Op>): int {
    if |ops| == 0 then 0
    else
      InFlips(ops[..|ops| - 1]) +
      match ops[|ops| - 1]
      case ReadAt(_) => 0
      case FlipAt(now, now2) => now2 - now
  }

  function AnchorAt(start: nat, ops: seq<Op>): nat {
    if |ops| == 0 then start
    else
      match ops[|ops| - 1]
      case ReadAt(_) => AnchorAt(start, ops[..|ops| - 1])
      case FlipAt(_, now2) => now2
  }

  // The latest read's real time, as virtual time, or `start` before any.
  function Tracked(offset: int, start: nat, ops: seq<Op>): int {
    if |ops| == 0 then start
    else
      match ops[|ops| - 1]
      case ReadAt(t) => t + offset - InFlips(ops[..|ops| - 1])
      case FlipAt(_, _) => Tracked(offset, start, ops[..|ops| - 1])
  }

  // The frames stay inside the clamp, time does not run backward, and reads are at least a floor apart.
  predicate Paced(c: Cells, ops: seq<Op>) {
    |ops| == 0 ||
    (var before := ops[..|ops| - 1];
     var offset := c.virt - c.anchor;
     var previous := Tracked(offset, c.last, before);
     && Paced(c, before)
     && match ops[|ops| - 1]
        case ReadAt(t) =>
          && 0 <= t - AnchorAt(c.anchor, before) <= 66_666_668
          && t + offset - InFlips(before) >= previous + 1_000
        case FlipAt(now, now2) =>
          && 0 <= now - AnchorAt(c.anchor, before) <= 66_666_668 && now <= now2
          && now + offset - InFlips(before) >= previous)
  }

  lemma {:induction false} RealtimeTracks(c: Cells, ops: seq<Op>)
    requires c.flips > 0 && c.virt > 0 && Paced(c, ops)
    ensures var a := After(Realtime, c, ops);
            && a.last == Tracked(c.virt - c.anchor, c.last, ops)
            && a.anchor == AnchorAt(c.anchor, ops) && a.flips > 0 && a.virt > 0
            && a.virt - a.anchor == c.virt - c.anchor - InFlips(ops)
    decreases |ops|
  {
    if |ops| > 0 {
      RealtimeTracks(c, ops[..|ops| - 1]);
    }
  }

  // Realtime follows real time: two paced reads, with any number of flips and reads between them,
  // differ by the real time between them, less what passed inside the flips.
  lemma RealtimeIsReal(c: Cells, ops: seq<Op>, more: seq<Op>, t1: nat, t2: nat)
    requires c.flips > 0 && c.virt > 0
    requires Paced(c, ops + [ReadAt(t1)]) && Paced(c, ops + [ReadAt(t1)] + more + [ReadAt(t2)])
    ensures NextRead(Realtime, c, ops + [ReadAt(t1)] + more, t2) - NextRead(Realtime, c, ops, t1) == t2 - t1 - InFlips(more)
  {
    var a, b := ops + [ReadAt(t1)], ops + [ReadAt(t1)] + more;
    RealtimeTracks(c, a);
    RealtimeTracks(c, b + [ReadAt(t2)]);
    LastIsLatest(Realtime, c, a);
    LastIsLatest(Realtime, c, b + [ReadAt(t2)]);
    assert a[..|ops|] == ops && (b + [ReadAt(t2)])[..|b|] == b;
    InFlipsAppend(a, more);
  }

  lemma {:induction false} InFlipsAppend(a: seq<Op>, b: seq<Op>)
    ensures InFlips(a + b) == InFlips(a) + InFlips(b)
    decreases |b|
  {
    if |b| > 0 {
      assert (a + b)[..|a + b| - 1] == a + b[..|b| - 1];
      InFlipsAppend(a, b[..|b| - 1]);
    } else {
      assert a + b == a;
    }
  }
}
