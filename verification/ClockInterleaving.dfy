// The lock-free protocol behind the clock: any number of readers and one flipping writer, each
// atomic access its own step, interleaved in any order with real time passing in between.

module ClockInterleaving {
  import opened Words
  import opened Clock

  // A reader inside `now_ns`: `published` is the real anchor that was published together with
  // the virtual anchor it loaded.
  datatype Reader =
    | Idle
    | HasLast(last: nat)
    | HasVirt(last: nat, virt: nat, published: nat)
    | HasAnchor(last: nat, virt: nat, published: nat, anchor: nat)
    | Ready(last: nat, read: Computed)

  // A computed value and what it was computed from.
  datatype Computed = Computed(virt: nat, published: nat, anchor: nat, flips: nat, at: nat, value: nat)

  // The flipping writer inside `advance_frame`.
  datatype Flipper =
    | Resting
    | Counted(first: bool)
    | FixedLast(last: nat)
    | PeekLast(last: nat)
    | PeekVirt(last: nat, virt: nat)
    | PeekAnchor(last: nat, virt: nat, anchor: nat)
    | Chosen(next: nat)
    | Sampled(next: nat, now: nat)
    | Stored(next: nat, now: nat)

  // A successful read: the value it returned, the last value before it, and its computation.
  datatype Sample = Sample(value: nat, before: nat, read: Computed)

  datatype World = World(
    mode: Mode,
    now: nat,
    flips: nat,
    virt: nat,
    published: nat,
    anchor: nat,
    last: nat,
    readers: seq<Reader>,
    flipper: Flipper,
    log: seq<Sample>)

  datatype Event =
    | Tick(elapsed: nat)
    | ReaderStep(i: nat)
    | SpuriousFailure(i: nat)
    | FlipperStep

  function Launch(mode: Mode, readers: nat): World {
    World(mode, 0, 0, 0, 0, 0, 0, seq(readers, _ => Idle), Resting, [])
  }

  function ComputeAt(w: World, virt: nat, published: nat, anchor: nat, last: nat): Computed {
    Computed(virt, published, anchor, w.flips, w.now,
             ComputedNs(w.mode, Cells(w.flips, virt, anchor, last), last, w.now))
  }

  // One atomic access of reader `i`.
  function StepReader(w: World, i: nat): World
    requires i < |w.readers|
  {
    match w.readers[i]
    case Idle => w.(readers := w.readers[i := HasLast(w.last)])
    case HasLast(last) => w.(readers := w.readers[i := HasVirt(last, w.virt, w.published)])
    case HasVirt(last, virt, published) =>
      if virt == 0 || w.mode == FixedStep then
        w.(readers := w.readers[i := Ready(last, ComputeAt(w, virt, published, 0, last))])
      else w.(readers := w.readers[i := HasAnchor(last, virt, published, w.anchor)])
    case HasAnchor(last, virt, published, anchor) =>
      w.(readers := w.readers[i := Ready(last, ComputeAt(w, virt, published, anchor, last))])
    case Ready(last, read) =>
      if w.last != last then w.(readers := w.readers[i := HasLast(w.last)])
      else
        var next := Max(read.value, last + READ_FLOOR_NS);
        w.(last := next, readers := w.readers[i := Idle], log := w.log + [Sample(next, last, read)])
  }

  // One atomic access of the flipper; the real anchor is stored before the virtual one.
  function StepFlipper(w: World): World {
    match w.flipper
    case Resting => w.(flips := w.flips + 1, flipper := Counted(w.flips == 0))
    case Counted(first) =>
      if w.mode == FixedStep && !first then w.(flipper := Resting)
      else if w.mode == FixedStep then w.(flipper := FixedLast(w.last))
      else if first then w.(flipper := Chosen(Max(w.last, 1)))
      else w.(flipper := PeekLast(w.last))
    case FixedLast(last) => w.(virt := Max(last, 1), published := w.anchor, flipper := Resting)
    case PeekLast(last) => w.(flipper := PeekVirt(last, w.virt))
    case PeekVirt(last, virt) => w.(flipper := PeekAnchor(last, virt, w.anchor))
    case PeekAnchor(last, virt, anchor) =>
      var computed := ComputedNs(w.mode, Cells(w.flips, virt, anchor, last), last, w.now);
      w.(flipper := Chosen(Max(Max(computed, last), 1)))
    case Chosen(next) => w.(flipper := Sampled(next, w.now))
    case Sampled(next, now) => w.(anchor := now, flipper := Stored(next, now))
    case Stored(next, now) => w.(virt := next, published := now, flipper := Resting)
  }

  function Do(w: World, e: Event): World {
    match e
    case Tick(elapsed) => w.(now := w.now + elapsed)
    case ReaderStep(i) => if i < |w.readers| then StepReader(w, i) else w
    case SpuriousFailure(i) =>
      if i < |w.readers| && w.readers[i].Ready? then w.(readers := w.readers[i := HasLast(w.last)]) else w
    case FlipperStep => StepFlipper(w)
  }

  function Run(w: World, es: seq<Event>): World {
    if |es| == 0 then w else Do(Run(w, es[..|es| - 1]), es[|es| - 1])
  }

  // ---- what every interleaving keeps -------------------------------------------------------

  // What a computed value is, given the mode and what it was computed from: real time held to a frame
  // before the first flip; then the anchor plus clamped real time, or plus the flips presented.
  predicate Exact(mode: Mode, last: nat, c: Computed) {
    && (c.virt == 0 ==> c.value == Min(c.at, last + 16_666_667))
    && (c.virt != 0 && mode == Realtime ==>
          c.published <= c.anchor && c.value == c.virt + Min(SaturatingSub(c.at, c.anchor), 66_666_668))
    && (c.virt != 0 && mode == FixedStep ==> c.value == c.virt + c.flips * 16_666_667)
  }

  predicate ReaderOk(w: World, r: Reader) {
    match r
    case Idle => true
    case HasLast(last) => last <= w.last
    case HasVirt(last, _, published) => last <= w.last && published <= w.anchor
    case HasAnchor(last, virt, published, anchor) =>
      last <= w.last && published <= anchor <= w.anchor && virt != 0 && w.mode == Realtime
    case Ready(last, read) => last <= w.last && read.at <= w.now && Exact(w.mode, last, read)
  }

  predicate FlipperOk(w: World) {
    match w.flipper
    case Chosen(next) => next >= 1
    case Sampled(next, now) => next >= 1 && w.anchor <= now <= w.now
    case Stored(next, now) => next >= 1 && w.anchor == now
    case _ => true
  }

  predicate SampleOk(mode: Mode, s: Sample) {
    && s.value == Max(s.read.value, s.before + READ_FLOOR_NS)
    && Exact(mode, s.before, s.read)
  }

  ghost predicate LogOk(w: World) {
    && (forall i :: 0 <= i < |w.log| ==> SampleOk(w.mode, w.log[i]))
    && (forall i :: 0 <= i < |w.log| - 1 ==> w.log[i + 1].before == w.log[i].value)
    && w.last == if |w.log| > 0 then w.log[|w.log| - 1].value else 0
  }

  ghost predicate Inv(w: World) {
    && w.published <= w.anchor <= w.now
    && FlipperOk(w) && LogOk(w)
    && forall i :: 0 <= i < |w.readers| ==> ReaderOk(w, w.readers[i])
  }

  lemma ReaderKeeps(w: World, i: nat)
    requires Inv(w) && i < |w.readers|
    ensures Inv(StepReader(w, i))
  {
    var w' := StepReader(w, i);
    assert ReaderOk(w, w.readers[i]);
    ReaderStaysOk(w, i);
    ReaderKeepsLog(w, i);
    hide LogOk, Exact;
    forall j | 0 <= j < |w.readers| && j != i
      ensures ReaderOk(w', w'.readers[j])
    {
      assert ReaderOk(w, w.readers[j]);
    }
  }

  lemma ReaderStaysOk(w: World, i: nat)
    requires i < |w.readers| && ReaderOk(w, w.readers[i]) && w.published <= w.anchor <= w.now
    ensures ReaderOk(StepReader(w, i), StepReader(w, i).readers[i])
  {
  }

  lemma ReaderKeepsLog(w: World, i: nat)
    requires i < |w.readers| && ReaderOk(w, w.readers[i]) && LogOk(w)
    ensures LogOk(StepReader(w, i))
  {
    hide Exact, ComputedNs;
    var w' := StepReader(w, i);
    if w.readers[i].Ready? && w.last == w.readers[i].last {
      assert w'.log[|w.log|] == Sample(w'.last, w.last, w.readers[i].read);
    }
  }

  lemma FlipperKeeps(w: World)
    requires Inv(w)
    ensures Inv(StepFlipper(w))
  {
    var w' := StepFlipper(w);
    forall j | 0 <= j < |w.readers|
      ensures ReaderOk(w', w'.readers[j])
    {
      assert ReaderOk(w, w.readers[j]);
    }
  }

  lemma {:induction false} EveryRunKeepsInv(w: World, es: seq<Event>)
    requires Inv(w)
    ensures Inv(Run(w, es)) && Run(w, es).mode == w.mode
  {
    hide Inv, StepReader, StepFlipper;
    if |es| > 0 {
      EveryRunKeepsInv(w, es[..|es| - 1]);
      EventKeepsInv(Run(w, es[..|es| - 1]), es[|es| - 1]);
    }
  }

  lemma EventKeepsInv(w: World, e: Event)
    requires Inv(w)
    ensures Inv(Do(w, e)) && Do(w, e).mode == w.mode
  {
    match e
    case Tick(_) =>
      hide LogOk, Exact;
      forall j | 0 <= j < |w.readers| ensures ReaderOk(Do(w, e), w.readers[j]) {
        assert ReaderOk(w, w.readers[j]);
      }
      TickKeepsLog(w, Do(w, e));
    case ReaderStep(i) => if i < |w.readers| { ReaderKeeps(w, i); }
    case SpuriousFailure(i) =>
      hide LogOk, Exact;
      forall j | 0 <= j < |w.readers| ensures ReaderOk(Do(w, e), Do(w, e).readers[j]) {
        assert ReaderOk(w, w.readers[j]);
      }
      TickKeepsLog(w, Do(w, e));
    case FlipperStep => FlipperKeeps(w);
  }

  lemma TickKeepsLog(w: World, w': World)
    requires LogOk(w) && w'.log == w.log && w'.mode == w.mode && w'.last == w.last
    ensures LogOk(w')
  {
    hide SampleOk;
  }

  // Under every interleaving of any number of readers with one flipper, taking the successful
  // reads in order: each is at least 1000 ns above the one before and is the value its phase and mode
  // define, or the one before plus the floor; a realtime read pairs its virtual anchor with a real
  // anchor no older than the one published with it, so it is within that anchor plus clamped time.
  lemma ReadsAreOrdered(mode: Mode, readers: nat, es: seq<Event>, i: nat)
    requires i < |Run(Launch(mode, readers), es).log|
    ensures var log := Run(Launch(mode, readers), es).log;
            var s, previous := log[i], if i > 0 then log[i - 1].value else log[0].before;
            && s.before == previous
            && s.value == Max(s.read.value, previous + 1_000)
            && Exact(mode, previous, s.read)
            && (s.read.virt == 0 ==> s.value <= previous + 16_666_667)
            && (s.read.virt != 0 && mode == Realtime ==>
                  s.read.value <= s.read.virt + Min(SaturatingSub(s.read.at, s.read.published), 66_666_668))
  {
    var w0 := Launch(mode, readers);
    assert Inv(w0);
    EveryRunKeepsInv(w0, es);
    var w := Run(w0, es);
    assert SampleOk(w.mode, w.log[i]);
    assert i > 0 ==> w.log[i - 1 + 1].before == w.log[i - 1].value;
  }

  // The pairing itself: a reader that has loaded both anchors never holds a real anchor older
  // than the one published with its virtual anchor.
  lemma NoTornPair(mode: Mode, readers: nat, es: seq<Event>, i: nat)
    requires i < |Run(Launch(mode, readers), es).readers|
    ensures var r := Run(Launch(mode, readers), es).readers[i]; r.HasAnchor? ==> r.published <= r.anchor
  {
    assert Inv(Launch(mode, readers));
    EveryRunKeepsInv(Launch(mode, readers), es);
    var w := Run(Launch(mode, readers), es);
    assert ReaderOk(w, w.readers[i]);
  }

  // ---- the steps, undisturbed, are the sequential clock ------------------------------------------

  function CellsOf(w: World): Cells { Cells(w.flips, w.virt, w.anchor, w.last) }

  function Flipping(w: World, n: nat): World
    decreases n
  {
    if n == 0 then w else Flipping(StepFlipper(w), n - 1)
  }

  // A flip no reader and no time gets into ends with the cells of the sequential flip.
  lemma FlipAlone(w: World) returns (n: nat)
    requires w.flipper == Resting
    ensures Flipping(w, n).flipper == Resting && CellsOf(Flipping(w, n)) == Flip(w.mode, CellsOf(w), w.now, w.now)
    ensures Flipping(w, n).readers == w.readers && Flipping(w, n).log == w.log && n > 0
  {
    hide ComputedNs;
    var w1 := StepFlipper(w);
    var w2 := StepFlipper(w1);
    var w3 := StepFlipper(w2);
    var w4, w5, w6, w7, w8 := FlipLater(w3);
    n := if w.mode == FixedStep then (if w.flips == 0 then 3 else 2) else if w.flips == 0 then 5 else 8;
    assert Flipping(w, 2) == w2 by { assert Flipping(w1, 1) == Flipping(w2, 0); }
    Unroll(w, w1, w2, w3, w4, w5, w6, w7, w8);
  }

  lemma FlipLater(w3: World) returns (w4: World, w5: World, w6: World, w7: World, w8: World)
    ensures w4 == StepFlipper(w3) && w5 == StepFlipper(w4) && w6 == StepFlipper(w5)
    ensures w7 == StepFlipper(w6) && w8 == StepFlipper(w7)
  {
    hide StepFlipper;
    w4 := StepFlipper(w3);
    w5 := StepFlipper(w4);
    w6 := StepFlipper(w5);
    w7 := StepFlipper(w6);
    w8 := StepFlipper(w7);
  }

  lemma Unroll(w: World, w1: World, w2: World, w3: World, w4: World, w5: World, w6: World, w7: World, w8: World)
    requires w1 == StepFlipper(w) && w2 == StepFlipper(w1) && w3 == StepFlipper(w2) && w4 == StepFlipper(w3)
    requires w5 == StepFlipper(w4) && w6 == StepFlipper(w5) && w7 == StepFlipper(w6) && w8 == StepFlipper(w7)
    ensures Flipping(w, 2) == w2 && Flipping(w, 3) == w3 && Flipping(w, 5) == w5 && Flipping(w, 8) == w8
  {
    hide StepFlipper;
    assert Flipping(w6, 2) == w8 && Flipping(w3, 2) == w5 by {
      assert Flipping(w8, 0) == w8 && Flipping(w7, 1) == w8 && Flipping(w5, 0) == w5 && Flipping(w4, 1) == w5;
    }
    assert Flipping(w3, 5) == w8 by { assert Flipping(w5, 3) == w8 && Flipping(w4, 4) == w8; }
    assert Flipping(w2, 1) == w3 && Flipping(w1, 2) == w3 && Flipping(w1, 1) == w2 && Flipping(w2, 0) == w2;
    assert Flipping(w2, 3) == w5 && Flipping(w1, 4) == w5;
    assert Flipping(w2, 6) == w8 && Flipping(w1, 7) == w8;
  }

  function Reading(w: World, i: nat, n: nat): World
    requires i < |w.readers|
    decreases n
  {
    if n == 0 then w else Reading(StepReader(w, i), i, n - 1)
  }

  // And a read nothing gets into returns and stores what the sequential read does.
  lemma ReadAlone(w: World, i: nat) returns (n: nat)
    requires i < |w.readers| && w.readers[i] == Idle
    ensures var v := Reading(w, i, n);
            && v.readers == w.readers && CellsOf(v) == Read(w.mode, CellsOf(w), w.now)
            && |v.log| == |w.log| + 1 && v.log[|w.log|].value == NextNs(w.mode, CellsOf(w), w.now)
  {
    hide ComputedNs;
    var w1 := StepReader(w, i);
    var w2 := StepReader(w1, i);
    var w3 := StepReader(w2, i);
    var w4 := StepReader(w3, i);
    var w5 := StepReader(w4, i);
    ComputedIgnores(w, w.anchor);
    n := if w.virt == 0 || w.mode == FixedStep then 4 else 5;
    assert w4.readers == w.readers || w5.readers == w.readers;
    UnrollReads(w, i, w1, w2, w3, w4, w5);
  }

  // Only a realtime frame looks at the real anchor.
  lemma ComputedIgnores(w: World, anchor: nat)
    ensures w.virt == 0 || w.mode == FixedStep ==>
      ComputedNs(w.mode, Cells(w.flips, w.virt, 0, w.last), w.last, w.now)
      == ComputedNs(w.mode, Cells(w.flips, w.virt, anchor, w.last), w.last, w.now)
  {
  }

  lemma UnrollReads(w: World, i: nat, w1: World, w2: World, w3: World, w4: World, w5: World)
    requires i < |w.readers| == |w1.readers| == |w2.readers| == |w3.readers| == |w4.readers|
    requires w1 == StepReader(w, i) && w2 == StepReader(w1, i) && w3 == StepReader(w2, i)
    requires w4 == StepReader(w3, i) && w5 == StepReader(w4, i) && |w5.readers| == |w.readers|
    ensures Reading(w, i, 4) == w4 && Reading(w, i, 5) == w5
  {
    hide StepReader;
    assert Reading(w4, i, 0) == w4 && Reading(w3, i, 1) == w4 && Reading(w2, i, 2) == w4 && Reading(w1, i, 3) == w4;
    assert Reading(w5, i, 0) == w5 && Reading(w4, i, 1) == w5 && Reading(w3, i, 2) == w5;
    assert Reading(w2, i, 3) == w5 && Reading(w1, i, 4) == w5;
  }
}
