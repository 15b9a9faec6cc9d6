// The slow-frame sample table: open addressing with a bounded probe, one writer.

module ProbeTable {
  import opened Words

  const RIP_SLOTS := 2048
  const RIP_PROBES := 16

  // `(rip.wrapping_mul(0x9E37_79B9_7F4A_7C15) >> 32) % RIP_SLOTS`
  function Home(rip: u64): (i: nat)
    ensures i < RIP_SLOTS
  {
    rip * 0x9E37_79B9_7F4A_7C15 % TWO64 / TWO32 % RIP_SLOTS
  }

  // `rip + 1`, wrapping; 0 marks a free slot.
  function Key(rip: u64): u64 {
    (rip + 1) % TWO64
  }

  datatype Table = Table(addr: seq<u64>, hits: seq<nat>, total: nat, overflow: nat) {
    ghost predicate Shaped() {
      |addr| == |hits| == RIP_SLOTS
    }
  }

  function Empty(): Table {
    Table(seq(RIP_SLOTS, _ => 0), seq(RIP_SLOTS, _ => 0), 0, 0)
  }

  function ProbeAt(rip: u64, d: nat): (i: nat)
    ensures i < RIP_SLOTS
  {
    (Home(rip) + d) % RIP_SLOTS
  }

  lemma ProbeNext(rip: u64, d: nat)
    ensures (ProbeAt(rip, d) + 1) % RIP_SLOTS == ProbeAt(rip, d + 1)
  {
    hide Home;
  }

  lemma FirstProbe(rip: u64)
    ensures Home(rip) == ProbeAt(rip, 0)
  {
    hide Home;
  }

  // The slot an insert of `rip` lands in, looking from its `d`-th probe on.
  function Find(addr: seq<u64>, rip: u64, d: nat): (r: Option<nat>)
    requires |addr| == RIP_SLOTS && d <= RIP_PROBES
    ensures r.Some? ==> r.value < RIP_SLOTS && (addr[r.value] == 0 || addr[r.value] == Key(rip))
    decreases RIP_PROBES - d
  {
    if d == RIP_PROBES then None
    else
      var i := ProbeAt(rip, d);
      if addr[i] == 0 || addr[i] == Key(rip) then Some(i) else Find(addr, rip, d + 1)
  }

  function Insert(t: Table, rip: u64): (n: Table)
    requires |t.addr| == |t.hits| == RIP_SLOTS
    ensures |n.addr| == |n.hits| == RIP_SLOTS
  {
    match Find(t.addr, rip, 0)
    case Some(i) => Table(t.addr[i := Key(rip)], t.hits[i := t.hits[i] + 1], t.total + 1, t.overflow)
    case None => t.(overflow := t.overflow + 1)
  }

  // The table's atomics.
  class RipTable {
    const addr: array<u64>
    const hits: array<nat>
    var total: nat
    var overflow: nat

    ghost predicate Valid()
      reads this
    {
      addr.Length == RIP_SLOTS && hits.Length == RIP_SLOTS
    }

    ghost function Contents(): Table
      reads this, addr, hits
    {
      Table(addr[..], hits[..], total, overflow)
    }

    constructor ()
      ensures Valid() && fresh(addr) && fresh(hits) && Contents() == Empty()
    {
      addr := new u64[RIP_SLOTS](_ => 0);
      hits := new nat[RIP_SLOTS](_ => 0);
      total, overflow := 0, 0;
    }

    method RipInsert(rip: u64)
      requires Valid()
      modifies this, addr, hits
      ensures Contents() == Insert(old(Contents()), rip)
    {
      FirstProbe(rip);
      hide Home, ProbeAt, Key;
      var key := Key(rip);
      var idx := Home(rip);
      var d := 0;
      ghost var was := Contents();
      while d < RIP_PROBES
        invariant 0 <= d <= RIP_PROBES && idx == ProbeAt(rip, d) && Contents() == was
        invariant Find(was.addr, rip, d) == Find(was.addr, rip, 0)
      {
        if addr[idx] != 0 && addr[idx] != key {
          ProbeNext(rip, d);
          idx := (idx + 1) % RIP_SLOTS;
          d := d + 1;
          continue;
        }
        if addr[idx] == 0 {
          addr[idx] := key;
        }
        hits[idx] := hits[idx] + 1;
        total := total + 1;
        return;
      }
      overflow := overflow + 1;
    }

    method RipSnapshot() returns (rows: seq<(u64, nat)>)
      requires Valid()
      ensures rows == Rows(Contents(), RIP_SLOTS)
    {
      rows := [];
      for i := 0 to RIP_SLOTS
        invariant rows == Rows(Contents(), i)
      {
        if addr[i] != 0 {
          rows := rows + [(addr[i] - 1, hits[i])];
        }
      }
    }
  }

  // One row per occupied slot below `n`.
  function Rows(t: Table, n: nat): seq<(u64, nat)>
    requires |t.addr| == |t.hits| == RIP_SLOTS && n <= RIP_SLOTS
  {
    if n == 0 then []
    else if t.addr[n - 1] == 0 then Rows(t, n - 1)
    else Rows(t, n - 1) + [(t.addr[n - 1] - 1, t.hits[n - 1])]
  }

  // ---- histories ------------------------------------------------------------------------------

  function Run(history: seq<u64>): (t: Table)
    ensures |t.addr| == |t.hits| == RIP_SLOTS
  {
    if history == [] then Empty() else Insert(Run(history[..|history| - 1]), history[|history| - 1])
  }

  // The inserts that overflowed.
  function Lost(history: seq<u64>): multiset<u64> {
    if history == [] then multiset{}
    else
      var before, rip := history[..|history| - 1], history[|history| - 1];
      if Find(Run(before).addr, rip, 0).None? then Lost(before) + multiset{rip} else Lost(before)
  }

  function Sum(hits: seq<nat>): nat {
    if hits == [] then 0 else Sum(hits[..|hits| - 1]) + hits[|hits| - 1]
  }

  // Filling a free slot disturbs no search that ended elsewhere.
  lemma {:induction false} FillKeepsFind(addr: seq<u64>, i: nat, key: u64, rip: u64, d: nat)
    requires |addr| == RIP_SLOTS && i < RIP_SLOTS && d <= RIP_PROBES
    requires addr[i] == 0 || addr[i] == key
    requires var r := Find(addr, rip, d); r.Some? ==> addr[r.value] != 0
    ensures Find(addr[i := key], rip, d) == Find(addr, rip, d)
    decreases RIP_PROBES - d
  {
    hide Key, ProbeAt;
    if d < RIP_PROBES {
      var p := ProbeAt(rip, d);
      if addr[p] != 0 && addr[p] != Key(rip) { FillKeepsFind(addr, i, key, rip, d + 1); }
    }
  }

  lemma {:induction false} FillIsFound(addr: seq<u64>, i: nat, rip: u64, d: nat)
    requires |addr| == RIP_SLOTS && d <= RIP_PROBES && Find(addr, rip, d) == Some(i)
    ensures Find(addr[i := Key(rip)], rip, d) == Some(i)
    decreases RIP_PROBES - d
  {
    hide Key, ProbeAt;
    if d < RIP_PROBES && ProbeAt(rip, d) != i { FillIsFound(addr, i, rip, d + 1); }
  }

  ghost predicate Agrees(t: Table, seen: multiset<u64>, lost: multiset<u64>)
    requires t.Shaped()
  {
    && (forall i :: 0 <= i < RIP_SLOTS ==> SlotAgrees(t, seen, lost, i))
    && (forall r: u64 :: AddressAgrees(t, seen, lost, r))
  }

  // A free slot has no hits; an occupied one is where its key is found, and has counted it exactly.
  ghost predicate SlotAgrees(t: Table, seen: multiset<u64>, lost: multiset<u64>, i: nat)
    requires t.Shaped() && i < RIP_SLOTS
  {
    if t.addr[i] == 0 then t.hits[i] == 0
    else
      && Find(t.addr, t.addr[i] - 1, 0) == Some(i)
      && 0 < t.hits[i] == seen[t.addr[i] - 1] && lost[t.addr[i] - 1] == 0
  }

  // An address without a slot has overflowed on every insert, and will again. The address whose key
  // wraps to the free marker can have no slot.
  ghost predicate AddressAgrees(t: Table, seen: multiset<u64>, lost: multiset<u64>, r: u64)
    requires t.Shaped()
  {
    && (lost[r] > 0 ==> Find(t.addr, r, 0) == None && lost[r] == seen[r])
    && (r == TWO64 - 1 || Key(r) !in t.addr ==> lost[r] == seen[r])
  }

  lemma LandsFree(t: Table, seen: multiset<u64>, lost: multiset<u64>, rip: u64, i: nat)
    requires t.Shaped() && Agrees(t, seen, lost) && rip < TWO64 - 1 && Find(t.addr, rip, 0) == Some(i)
    ensures t.hits[i] == seen[rip] && lost[rip] == 0
    ensures t.addr[i] == 0 ==> Key(rip) !in t.addr
  {
    hide Find, Home;
    assert SlotAgrees(t, seen, lost, i) && AddressAgrees(t, seen, lost, rip);
    assert Key(rip) == rip + 1;
    forall j | 0 <= j < RIP_SLOTS && t.addr[j] == Key(rip) ensures j == i {
      assert SlotAgrees(t, seen, lost, j);
    }
  }

  lemma {:induction false} LandingAgrees(t: Table, seen: multiset<u64>, lost: multiset<u64>, rip: u64, i: nat)
    requires t.Shaped() && Agrees(t, seen, lost) && rip < TWO64 - 1 && Find(t.addr, rip, 0) == Some(i)
    ensures Agrees(Insert(t, rip), seen + multiset{rip}, lost)
  {
    var n, more := Insert(t, rip), seen + multiset{rip};
    hide Find, Home, Insert, SlotAgrees, AddressAgrees;
    forall j | 0 <= j < RIP_SLOTS ensures SlotAgrees(n, more, lost, j) {
      LandingKeepsSlot(t, seen, lost, rip, i, j);
    }
    forall r: u64 ensures AddressAgrees(n, more, lost, r) {
      LandingKeepsAddress(t, seen, lost, rip, i, r);
    }
  }

  lemma KeyOf(rip: u64)
    requires rip < TWO64 - 1
    ensures Key(rip) == rip + 1
  {
  }

  lemma LandingKeepsSlot(t: Table, seen: multiset<u64>, lost: multiset<u64>, rip: u64, i: nat, j: nat)
    requires t.Shaped() && Agrees(t, seen, lost) && rip < TWO64 - 1 && Find(t.addr, rip, 0) == Some(i) && j < RIP_SLOTS
    ensures SlotAgrees(Insert(t, rip), seen + multiset{rip}, lost, j)
  {
    hide Home, Key, AddressAgrees;
    KeyOf(rip);
    LandsFree(t, seen, lost, rip, i);
    var n := Insert(t, rip);
    assert n.addr == t.addr[i := Key(rip)] && n.hits == t.hits[i := t.hits[i] + 1];
    assert SlotAgrees(t, seen, lost, j);
    if j == i {
      FillIsFound(t.addr, i, rip, 0);
    } else if t.addr[j] != 0 {
      assert Find(t.addr, t.addr[j] - 1, 0) == Some(j);
      FillKeepsFind(t.addr, i, Key(rip), t.addr[j] - 1, 0);
      hide Find, Agrees, Insert;
    }
  }

  lemma LandingKeepsAddress(t: Table, seen: multiset<u64>, lost: multiset<u64>, rip: u64, i: nat, r: u64)
    requires t.Shaped() && Agrees(t, seen, lost) && rip < TWO64 - 1 && Find(t.addr, rip, 0) == Some(i)
    ensures AddressAgrees(Insert(t, rip), seen + multiset{rip}, lost, r)
  {
    var n := Insert(t, rip);
    LandsFree(t, seen, lost, rip, i);
    assert AddressAgrees(t, seen, lost, r);
    assert r < TWO64 - 1 ==> Key(r) != 0;
    hide Home, Agrees, Key;
    if lost[r] > 0 { FillKeepsFind(t.addr, i, Key(rip), r, 0); }
    hide Find;
    assert n.addr[i] == Key(rip);
    forall j | 0 <= j < RIP_SLOTS && t.addr[j] == Key(r) && r < TWO64 - 1 ensures n.addr[j] == Key(r) {}
  }

  lemma {:induction false} OverflowAgrees(t: Table, seen: multiset<u64>, lost: multiset<u64>, rip: u64)
    requires t.Shaped() && Agrees(t, seen, lost) && Find(t.addr, rip, 0) == None
    ensures Agrees(Insert(t, rip), seen + multiset{rip}, lost + multiset{rip})
  {
    var n, more, gone := Insert(t, rip), seen + multiset{rip}, lost + multiset{rip};
    assert n.addr == t.addr && n.hits == t.hits;
    hide Find, Home, Insert, Key, AddressAgrees;
    forall j | 0 <= j < RIP_SLOTS ensures SlotAgrees(n, more, gone, j) && t.addr[j] != rip + 1 {
      assert SlotAgrees(t, seen, lost, j);
    }
    hide SlotAgrees;
    forall r: u64 ensures AddressAgrees(n, more, gone, r) {
      OverflowKeepsAddress(t, n, seen, lost, rip, r);
    }
  }

  lemma OverflowKeepsAddress(t: Table, n: Table, seen: multiset<u64>, lost: multiset<u64>, rip: u64, r: u64)
    requires t.Shaped() && n.Shaped() && n.addr == t.addr && Agrees(t, seen, lost) && Find(t.addr, rip, 0) == None
    requires forall j :: 0 <= j < RIP_SLOTS ==> t.addr[j] != rip + 1
    ensures AddressAgrees(n, seen + multiset{rip}, lost + multiset{rip}, r)
  {
    hide Find, Home, Key, SlotAgrees;
    if rip < TWO64 - 1 { KeyOf(rip); }
    assert AddressAgrees(t, seen, lost, rip) && AddressAgrees(t, seen, lost, r);
  }

  // No insert of the address whose key wraps to the free marker finds a slot.
  ghost predicate WrapNeverLands(history: seq<u64>) {
    forall k :: 0 <= k < |history| && history[k] == TWO64 - 1 ==> Find(Run(history[..k]).addr, history[k], 0) == None
  }

  lemma WrapNeverLandsBefore(history: seq<u64>)
    requires history != []
    ensures var before, rip := history[..|history| - 1], history[|history| - 1];
            WrapNeverLands(history) <==>
              WrapNeverLands(before) && (rip == TWO64 - 1 ==> Find(Run(before).addr, rip, 0) == None)
  {
    hide Run, Find;
    var before := history[..|history| - 1];
    forall k | 0 <= k <= |before| ensures before[..k] == history[..k] {}
    assert before[..|before|] == before;
  }

  lemma {:induction false} EveryHistoryAgrees(history: seq<u64>)
    requires WrapNeverLands(history)
    ensures Agrees(Run(history), multiset(history), Lost(history))
  {
    hide Home, Find, Key, Empty, Agrees, WrapNeverLands;
    if history == [] {
      EmptyAgrees();
    } else {
      var before, rip := history[..|history| - 1], history[|history| - 1];
      WrapNeverLandsBefore(history);
      EveryHistoryAgrees(before);
      var t := Run(before);
      assert history == before + [rip];
      assert multiset(history) == multiset(before) + multiset{rip};
      if Find(t.addr, rip, 0).None? {
        OverflowAgrees(t, multiset(before), Lost(before), rip);
      } else {
        LandingAgrees(t, multiset(before), Lost(before), rip, Find(t.addr, rip, 0).value);
      }
    }
  }

  // Every insert is either a hit in some slot or an overflow.
  lemma {:induction false} InsertsAreConserved(history: seq<u64>)
    ensures Run(history).total + Run(history).overflow == |history|
    ensures Run(history).overflow == |Lost(history)| && Sum(Run(history).hits) == Run(history).total
  {
    hide Home, Find, Key, Empty, Sum;
    if history == [] {
      EmptyAgrees();
    } else {
      var before, rip := history[..|history| - 1], history[|history| - 1];
      InsertsAreConserved(before);
      var t := Run(before);
      if Find(t.addr, rip, 0).Some? {
        SumOfUpdate(t.hits, Find(t.addr, rip, 0).value);
      }
    }
  }

  lemma EmptyAgrees()
    ensures Agrees(Empty(), multiset{}, multiset{}) && Sum(Empty().hits) == Empty().total == Empty().overflow == 0
  {
    hide Find, Home;
    SumOfZeros(Empty().hits);
    forall i | 0 <= i < RIP_SLOTS ensures SlotAgrees(Empty(), multiset{}, multiset{}, i) {}
    forall r: u64 ensures AddressAgrees(Empty(), multiset{}, multiset{}, r) {}
  }

  lemma {:induction false} SumOfZeros(hits: seq<nat>)
    requires forall i :: 0 <= i < |hits| ==> hits[i] == 0
    ensures Sum(hits) == 0
  {
    if hits != [] { SumOfZeros(hits[..|hits| - 1]); }
  }

  lemma {:induction false} SumOfUpdate(hits: seq<nat>, i: nat)
    requires i < |hits|
    ensures Sum(hits[i := hits[i] + 1]) == Sum(hits) + 1
  {
    var n := |hits| - 1;
    var more := hits[i := hits[i] + 1];
    if i == n {
      assert more[..n] == hits[..n];
    } else {
      SumOfUpdate(hits[..n], i);
      assert more[..n] == hits[..n][i := hits[i] + 1];
    }
  }

  // The snapshot over any history is the multiset of its inserts, restricted to the addresses
  // that found a slot: those are counted exactly, the others not at all.
  lemma {:induction false} TableAgreesWithMultiset(history: seq<u64>, r: u64, c: nat)
    requires WrapNeverLands(history)
    ensures (r, c) in Rows(Run(history), RIP_SLOTS) <==>
              r in history && r !in Lost(history) && c == multiset(history)[r]
    ensures r in Lost(history) ==> Lost(history)[r] == multiset(history)[r]
    ensures forall i, j :: 0 <= i < j < RIP_SLOTS && Run(history).addr[i] != 0 ==>
              Run(history).addr[i] != Run(history).addr[j]
  {
    hide Find, Home, Rows, Run, Lost, Key, WrapNeverLands, Agrees;
    EveryHistoryAgrees(history);
    var t, seen, lost := Run(history), multiset(history), Lost(history);
    RowsAreSlots(t, RIP_SLOTS, r, c);
    SlotIffCounted(t, seen, lost, r, c);
    LostEverytime(t, seen, lost, r);
    KeysAreDistinct(t, seen, lost);
    assert r in seen <==> r in history;
  }

  lemma LostEverytime(t: Table, seen: multiset<u64>, lost: multiset<u64>, r: u64)
    requires t.Shaped() && Agrees(t, seen, lost)
    ensures r in lost ==> lost[r] == seen[r]
  {
    hide Find, SlotAgrees;
    assert AddressAgrees(t, seen, lost, r);
  }

  lemma KeysAreDistinct(t: Table, seen: multiset<u64>, lost: multiset<u64>)
    requires t.Shaped() && Agrees(t, seen, lost)
    ensures forall i, j :: 0 <= i < j < RIP_SLOTS && t.addr[i] != 0 ==> t.addr[i] != t.addr[j]
  {
    hide Find, AddressAgrees;
    forall i, j | 0 <= i < j < RIP_SLOTS && t.addr[i] != 0 ensures t.addr[i] != t.addr[j] {
      assert SlotAgrees(t, seen, lost, i) && SlotAgrees(t, seen, lost, j);
    }
  }

  lemma SlotIffCounted(t: Table, seen: multiset<u64>, lost: multiset<u64>, r: u64, c: nat)
    requires t.Shaped() && Agrees(t, seen, lost)
    ensures (exists i :: 0 <= i < RIP_SLOTS && t.addr[i] == r + 1 && t.hits[i] == c) <==>
              r in seen && r !in lost && c == seen[r]
  {
    hide Find, Home, Key;
    forall i | 0 <= i < RIP_SLOTS && t.addr[i] == r + 1 ensures 0 < t.hits[i] == seen[r] && lost[r] == 0 {
      assert SlotAgrees(t, seen, lost, i);
    }
    assert AddressAgrees(t, seen, lost, r);
    hide Agrees, SlotAgrees;
    if r in seen && r !in lost && c == seen[r] {
      assert r < TWO64 - 1;
      KeyOf(r);
      var j :| 0 <= j < RIP_SLOTS && t.addr[j] == Key(r);
      assert t.addr[j] == r + 1 && t.hits[j] == c;
    }
  }

  lemma {:induction false} RowsAreSlots(t: Table, n: nat, r: u64, c: nat)
    requires t.Shaped() && n <= RIP_SLOTS
    ensures (r, c) in Rows(t, n) <==> exists i :: 0 <= i < n && t.addr[i] == r + 1 && t.hits[i] == c
  {
    if n > 0 { RowsAreSlots(t, n - 1, r, c); }
  }

  // The address whose key wraps to the free marker is in no row of any history.
  lemma WrappedAddressIsNotListed(history: seq<u64>, c: nat)
    ensures (TWO64 - 1, c) !in Rows(Run(history), RIP_SLOTS)
  {
    hide Run, Rows;
    RowsAreSlots(Run(history), RIP_SLOTS, TWO64 - 1, c);
  }

  // Rows that list exactly the addresses that found a slot, each as often as it was inserted.
  ghost predicate Exact(history: seq<u64>) {
    forall r: u64, c: nat :: (r, c) in Rows(Run(history), RIP_SLOTS) <==>
      r in history && r !in Lost(history) && c == multiset(history)[r]
  }

  ghost predicate AlwaysExact(history: seq<u64>) {
    forall k :: 0 <= k <= |history| ==> Exact(history[..k])
  }

  // The counts are exact at every point of a history exactly when no insert of 2^64-1 lands.
  lemma {:induction false} CountsAreExactIff(history: seq<u64>)
    ensures AlwaysExact(history) <==> WrapNeverLands(history)
  {
    hide Run, Rows, Lost, Find, Exact;
    if history == [] {
      assert WrapNeverLands([]);
      NeverLandsIsExact([]);
    } else {
      var before, rip := history[..|history| - 1], history[|history| - 1];
      CountsAreExactIff(before);
      WrapNeverLandsBefore(history);
      forall k | 0 <= k <= |before| ensures before[..k] == history[..k] {}
      assert history[..|history|] == history;
      assert AlwaysExact(history) <==> AlwaysExact(before) && Exact(history);
      hide WrapNeverLands, AlwaysExact;
      if WrapNeverLands(history) {
        NeverLandsIsExact(history);
      } else if WrapNeverLands(before) {
        LandingIsNotExact(history);
      }
    }
  }

  lemma NeverLandsIsExact(history: seq<u64>)
    requires WrapNeverLands(history)
    ensures Exact(history)
  {
    hide Run, Rows, Lost, WrapNeverLands;
    forall r: u64, c: nat
      ensures (r, c) in Rows(Run(history), RIP_SLOTS) <==>
              r in history && r !in Lost(history) && c == multiset(history)[r]
    {
      TableAgreesWithMultiset(history, r, c);
    }
  }

  lemma LandingIsNotExact(history: seq<u64>)
    requires history != [] && WrapNeverLands(history[..|history| - 1]) && history[|history| - 1] == TWO64 - 1
    requires Find(Run(history[..|history| - 1]).addr, TWO64 - 1, 0).Some?
    ensures !Exact(history)
  {
    var before, rip := history[..|history| - 1], history[|history| - 1];
    EveryHistoryAgrees(before);
    assert AddressAgrees(Run(before), multiset(before), Lost(before), rip);
    assert Lost(history) == Lost(before);
    hide Run, Rows, Lost, Find, Agrees, WrapNeverLands;
    var c := multiset(history)[rip];
    WrappedAddressIsNotListed(history, c);
    assert rip in history && rip !in Lost(history);
  }

  // What goes wrong then: the hit stays in a slot still marked free, and the next address to claim
  // the slot inherits it.
  lemma PhantomHitIsInherited(wrapped: u64, r: u64)
    requires wrapped == TWO64 - 1 && r < TWO64 - 1 && Home(r) == Home(wrapped)
    ensures Run([wrapped]).total == 1 && Rows(Run([wrapped]), RIP_SLOTS) == []
    ensures (r, 2) in Rows(Run([wrapped, r]), RIP_SLOTS)
  {
    var e := Empty();
    assert forall i :: 0 <= i < RIP_SLOTS ==> e.addr[i] == 0 && e.hits[i] == 0;
    assert Run([]) == e && [wrapped][..0] == [] && [wrapped, r][..1] == [wrapped];
    var t := Insert(e, wrapped);
    var n := Insert(t, r);
    assert Run([wrapped]) == t && Run([wrapped, r]) == n;
    assert Key(wrapped) == 0 && Key(r) == r + 1;
    var i := ProbeAt(wrapped, 0);
    assert ProbeAt(r, 0) == i;
    hide Home, Key, Empty, ProbeAt, Run;
    assert Find(e.addr, wrapped, 0) == Some(i);
    assert Find(t.addr, r, 0) == Some(i);
    hide Find;
    assert n.addr[i] == r + 1 && n.hits[i] == 2;
    NoRows(t, RIP_SLOTS);
    RowsAreSlots(n, RIP_SLOTS, r, 2);
  }

  // Such an address exists.
  lemma PhantomHitOf2991()
    ensures (2991, 2) in Rows(Run([TWO64 - 1, 2991]), RIP_SLOTS)
  {
    assert (TWO64 - 1) * 0x9E37_79B9_7F4A_7C15 % TWO64 == 7046029254386353131;
    assert 2991 * 0x9E37_79B9_7F4A_7C15 % TWO64 == 9954976380435282267;
    PhantomHitIsInherited(TWO64 - 1, 2991);
  }

  lemma {:induction false} NoRows(t: Table, n: nat)
    requires t.Shaped() && n <= RIP_SLOTS && forall i :: 0 <= i < RIP_SLOTS ==> t.addr[i] == 0
    ensures Rows(t, n) == []
  {
    if n > 0 { NoRows(t, n - 1); }
  }

  // ---- overflow -----------------------------------------------------------------------------------

  // The slot an address hashes to, as the multiplicative hash gives it.
  function HashSlot(rip: u64): nat {
    rip * 0x9E37_79B9_7F4A_7C15 % 0x1_0000_0000_0000_0000 / 0x1_0000_0000 % 2048
  }

  // The `d`-th slot an insert looks at.
  function SlotAt(rip: u64, d: nat): (i: nat)
    ensures i < RIP_SLOTS
  {
    (HashSlot(rip) + d) % 2048
  }

  // It holds another address.
  predicate Taken(t: Table, rip: u64, d: nat)
    requires |t.addr| == RIP_SLOTS
  {
    t.addr[SlotAt(rip, d)] != 0 && t.addr[SlotAt(rip, d)] != (rip + 1) % 0x1_0000_0000_0000_0000
  }

  lemma SlotsAreProbes(rip: u64, d: nat)
    ensures SlotAt(rip, d) == ProbeAt(rip, d)
  {
  }

  lemma SlotsApart(rip: u64, i: nat, j: nat)
    requires i < j < 16
    ensures SlotAt(rip, i) != SlotAt(rip, j)
  {
    hide HashSlot;
  }

  // An insert overflows exactly when the sixteen slots from the one its address hashes to all hold
  // other addresses.
  lemma {:induction false} OverflowsIff(t: Table, rip: u64, d: nat)
    requires t.Shaped() && d <= 16
    ensures Find(t.addr, rip, d) == None <==> forall k :: d <= k < 16 ==> Taken(t, rip, k)
    decreases 16 - d
  {
    hide Home, HashSlot, ProbeAt, SlotAt;
    SlotsAreProbes(rip, d);
    if d < 16 {
      OverflowsIff(t, rip, d + 1);
      assert Taken(t, rip, d) <==> !(t.addr[ProbeAt(rip, d)] == 0 || t.addr[ProbeAt(rip, d)] == Key(rip));
    }
  }

  // The addresses other than `rip` that a full probe meets in its first `d` slots.
  lemma {:induction false} MeetsOthers(history: seq<u64>, rip: u64, d: nat) returns (others: set<u64>)
    requires WrapNeverLands(history) && d <= 16 && forall k :: 0 <= k < 16 ==> Taken(Run(history), rip, k)
    ensures |others| == d && rip !in others && forall r :: r in others ==> r in history
    ensures forall r :: r in others ==> exists k :: 0 <= k < d && Run(history).addr[SlotAt(rip, k)] == r + 1
  {
    hide Run, HashSlot, SlotAt, WrapNeverLands, Agrees;
    others := {};
    if d > 0 {
      var before := MeetsOthers(history, rip, d - 1);
      assert Taken(Run(history), rip, d - 1);
      var r := SlotHolds(history, SlotAt(rip, d - 1));
      forall q | q in before ensures q != r {
        var k :| 0 <= k < d - 1 && Run(history).addr[SlotAt(rip, k)] == q + 1;
        OneSlotEach(history, SlotAt(rip, k), SlotAt(rip, d - 1));
        SlotsApart(rip, k, d - 1);
      }
      others := before + {r};
    }
  }

  lemma SlotHolds(history: seq<u64>, i: nat) returns (r: u64)
    requires WrapNeverLands(history) && i < RIP_SLOTS && Run(history).addr[i] != 0
    ensures Run(history).addr[i] == r + 1 && r in history
  {
    hide Run, Find, WrapNeverLands, AddressAgrees;
    EveryHistoryAgrees(history);
    assert SlotAgrees(Run(history), multiset(history), Lost(history), i);
    r := Run(history).addr[i] - 1;
    assert multiset(history)[r] > 0;
  }

  lemma OneSlotEach(history: seq<u64>, i: nat, j: nat)
    requires WrapNeverLands(history) && i < RIP_SLOTS && j < RIP_SLOTS && Run(history).addr[i] != 0
    ensures Run(history).addr[i] == Run(history).addr[j] ==> i == j
  {
    hide Run, Find, WrapNeverLands, AddressAgrees;
    EveryHistoryAgrees(history);
    assert SlotAgrees(Run(history), multiset(history), Lost(history), i);
    assert SlotAgrees(Run(history), multiset(history), Lost(history), j);
  }

  // So no sample is lost to a full probe before sixteen other addresses have been sampled.
  lemma OverflowNeedsSixteenOthers(history: seq<u64>, rip: u64) returns (others: set<u64>)
    requires WrapNeverLands(history) && Find(Run(history).addr, rip, 0) == None
    ensures |others| == 16 && rip !in others && forall r :: r in others ==> r in history
  {
    hide Run, HashSlot, Find, WrapNeverLands, Taken;
    OverflowsIff(Run(history), rip, 0);
    others := MeetsOthers(history, rip, 16);
  }
}
