// The bump arena for small emulator-owned guest objects, with its per-size free list.

module HleArena {
  const ALIGN := 16

  // `(size + 15) & !15`
  function Rounded(size: nat): (s: nat)
    ensures s % ALIGN == 0 && size <= s < size + ALIGN
  {
    (size + 15) / 16 * 16
  }

  // The arena's words and its free list. Guest address 0 is "none".
  datatype Arena = Arena(base: nat, cursor: nat, end: nat, free: map<nat, seq<nat>>) {
    function Listed(s: nat): seq<nat> {
      if s in free then free[s] else []
    }

    // The compare-and-swap that grows the region.
    function Bump(s: nat): (nat, Arena) {
      if cursor == 0 || cursor + s > end then (0, this) else (cursor, this.(cursor := cursor + s))
    }

    function Alloc(size: nat): (nat, Arena) {
      var s := Rounded(size);
      var list := Listed(s);
      if list != [] then (list[|list| - 1], this.(free := free[s := list[..|list| - 1]]))
      else Bump(s)
    }

    function Free(addr: nat, size: nat): Arena {
      if addr == 0 || end == 0 || addr < base || addr >= end then this
      else
        var s := Rounded(size);
        this.(free := free[s := if addr in Listed(s) then Listed(s) else Listed(s) + [addr]])
    }
  }

  // The process-wide arena statics.
  class Hle {
    var base: nat
    var cursor: nat
    var end: nat
    var freeList: map<nat, seq<nat>>

    ghost function Contents(): Arena
      reads this
    {
      Arena(base, cursor, end, freeList)
    }

    constructor ()
      ensures Contents() == Arena(0, 0, 0, map[])
    {
      base, cursor, end, freeList := 0, 0, 0, map[];
    }

    method SetArena(newBase: nat, size: nat)
      modifies this
      ensures Contents() == Arena(newBase, newBase, newBase + size, old(freeList))
    {
      base := newBase;
      cursor := newBase;
      end := newBase + size;
    }

    method Alloc(size: nat) returns (addr: nat)
      modifies this
      ensures (addr, Contents()) == old(Contents()).Alloc(size)
    {
      var s := Rounded(size);
      if s in freeList {
        var list := freeList[s];
        if list != [] {
          addr := list[|list| - 1];
          freeList := freeList[s := list[..|list| - 1]];
          return;
        }
      }
      if cursor == 0 || cursor + s > end {
        return 0;
      }
      addr := cursor;
      cursor := cursor + s;
    }

    method Free(addr: nat, size: nat)
      modifies this
      ensures Contents() == old(Contents()).Free(addr, size)
    {
      if addr == 0 { return; }
      if end == 0 || addr < base || addr >= end { return; }
      var s := Rounded(size);
      var list := if s in freeList then freeList[s] else [];
      if addr !in list {
        list := list + [addr];
      }
      freeList := freeList[s := list];
    }
  }

  // ---- runs -------------------------------------------------------------------------------

  datatype Block = Block(addr: nat, size: nat)

  // What any thread may do next. `LateBump` is the tail of an allocation that found the list
  // empty earlier and has only its compare-and-swap left; a run of atomic allocations has none.
  datatype Op = Alloc(size: nat) | Free(addr: nat, size: nat) | LateBump(size: nat)

  // The arena beside a record of the blocks ever cut from it and of those handed out now.
  // Blocks of size 0 hold no byte and are not recorded.
  datatype Ledger = Ledger(a: Arena, cut: seq<Block>, live: set<Block>) {
    ghost function Cut(s: nat): set<Block> {
      set b | b in cut && b.size == s
    }

    ghost function Live(s: nat): set<Block> {
      set b | b in live && b.size == s
    }

    // The caller's duty: a free inside the region names a block cut with that size.
    ghost predicate Allows(op: Op) {
      match op
      case Free(addr, size) =>
        a.Free(addr, size) != a && Rounded(size) > 0 ==> Block(addr, Rounded(size)) in cut
      case _ => true
    }

    function HandOut(addr: nat, s: nat, after: Arena): Ledger {
      if addr == 0 || s == 0 then Ledger(after, cut, live)
      else Ledger(after, if after.cursor > a.cursor then cut + [Block(addr, s)] else cut, live + {Block(addr, s)})
    }

    function Step(op: Op): Ledger {
      match op
      case Alloc(size) =>
        var (addr, after) := a.Alloc(size);
        HandOut(addr, Rounded(size), after)
      case LateBump(size) =>
        var (addr, after) := a.Bump(Rounded(size));
        HandOut(addr, Rounded(size), after)
      case Free(addr, size) =>
        Ledger(a.Free(addr, size), cut, live - {Block(addr, Rounded(size))})
    }
  }

  function Start(base: nat, size: nat): Ledger {
    Ledger(Arena(base, base, base + size, map[]), [], {})
  }

  function Run(ops: seq<Op>, base: nat, size: nat): Ledger {
    if ops == [] then Start(base, size) else Run(ops[..|ops| - 1], base, size).Step(ops[|ops| - 1])
  }

  ghost predicate WellUsed(ops: seq<Op>, base: nat, size: nat) {
    forall k :: 0 <= k < |ops| ==> Run(ops[..k], base, size).Allows(ops[k])
  }

  function TotalSize(blocks: seq<Block>): nat {
    if blocks == [] then 0 else TotalSize(blocks[..|blocks| - 1]) + blocks[|blocks| - 1].size
  }

  // Cut end to end from `base`.
  ghost predicate EndToEnd(blocks: seq<Block>, base: nat) {
    forall i :: 0 <= i < |blocks| ==>
      blocks[i].size > 0 && blocks[i].size % ALIGN == 0 && blocks[i].addr == base + TotalSize(blocks[..i])
  }

  // The cursor has passed exactly the blocks cut.
  ghost predicate Region(l: Ledger, base: nat, size: nat) {
    && l.a.base == base && l.a.end == base + size && l.a.cursor <= l.a.end
    && EndToEnd(l.cut, base) && l.a.cursor == base + TotalSize(l.cut)
    && (l.cut != [] ==> base > 0)
  }

  // No block is listed twice.
  ghost predicate ListedOnce(a: Arena) {
    forall s, i, j :: s > 0 && 0 <= i < j < |a.Listed(s)| ==> a.Listed(s)[i] != a.Listed(s)[j]
  }

  // Every block cut is handed out or waiting, and not both.
  ghost predicate Owned(l: Ledger) {
    && (forall b :: b in l.cut <==> b in l.live || OnList(l, b))
    && (forall b :: b in l.live ==> !OnList(l, b))
  }

  ghost predicate Inv(l: Ledger, base: nat, size: nat) {
    Region(l, base, size) && ListedOnce(l.a) && Owned(l)
  }

  // A block of at least one byte waiting on the free list of its size.
  ghost predicate OnList(l: Ledger, b: Block) {
    b.size > 0 && b.addr in l.a.Listed(b.size)
  }

  // ---- every run keeps the invariant --------------------------------------------------------

  lemma {:induction false} TotalSizeSplit(blocks: seq<Block>, i: nat, j: nat)
    requires i <= j <= |blocks|
    ensures TotalSize(blocks[..i]) <= TotalSize(blocks[..j]) <= TotalSize(blocks)
    ensures i < j ==> TotalSize(blocks[..i]) + blocks[i].size <= TotalSize(blocks[..j])
  {
    if j < |blocks| {
      TotalSizeSplit(blocks[..|blocks| - 1], i, j);
      assert blocks[..|blocks| - 1][..i] == blocks[..i] && blocks[..|blocks| - 1][..j] == blocks[..j];
    } else {
      assert blocks[..j] == blocks;
      if i < j {
        TotalSizeSplit(blocks[..j - 1], i, j - 1);
        assert blocks[..j - 1][..i] == blocks[..i] && blocks[..j - 1][..j - 1] == blocks[..j - 1];
      }
    }
  }

  lemma CutOneMore(cut: seq<Block>, b: Block, base: nat)
    requires EndToEnd(cut, base) && b.size > 0 && b.size % ALIGN == 0 && b.addr == base + TotalSize(cut)
    ensures EndToEnd(cut + [b], base) && TotalSize(cut + [b]) == TotalSize(cut) + b.size
    ensures b !in cut
  {
    var more := cut + [b];
    assert more[..|cut|] == cut;
    forall i | 0 <= i < |more|
      ensures more[i].size > 0 && more[i].size % ALIGN == 0 && more[i].addr == base + TotalSize(more[..i])
    {
      assert i < |cut| ==> more[..i] == cut[..i];
    }
    forall i | 0 <= i < |cut| ensures cut[i] != b {
      TotalSizeSplit(cut, i, |cut|);
      assert cut[..|cut|] == cut;
    }
  }

  // What a bump does to the record: nothing, or one more block cut and handed out.
  lemma BumpCases(l: Ledger, s: nat)
    ensures var (addr, after) := l.a.Bump(s);
            var next := l.HandOut(addr, s, after);
            if s > 0 && l.a.cursor != 0 && l.a.cursor + s <= l.a.end
            then next == Grown(l, s) && addr == l.a.cursor
            else next == l && (addr == 0 || s == 0)
  {
  }

  function Grown(l: Ledger, s: nat): Ledger {
    var b := Block(l.a.cursor, s);
    Ledger(l.a.(cursor := l.a.cursor + s), l.cut + [b], l.live + {b})
  }

  lemma BumpKeepsInv(l: Ledger, s: nat, base: nat, size: nat)
    requires Inv(l, base, size) && s % ALIGN == 0
    ensures var (addr, after) := l.a.Bump(s); Inv(l.HandOut(addr, s, after), base, size)
  {
    BumpCases(l, s);
    hide Arena.Bump, Ledger.HandOut, ListedOnce, Owned, Region;
    if s > 0 && l.a.cursor != 0 && l.a.cursor + s <= l.a.end {
      GrowKeepsRegion(l, s, base, size);
      GrowKeepsOwned(l, s, base, size);
    }
  }

  lemma GrowKeepsRegion(l: Ledger, s: nat, base: nat, size: nat)
    requires Region(l, base, size) && s > 0 && s % ALIGN == 0 && l.a.cursor != 0 && l.a.cursor + s <= l.a.end
    ensures Region(Grown(l, s), base, size) && Block(l.a.cursor, s) !in l.cut
  {
    assert l.cut == [] ==> TotalSize(l.cut) == 0;
    hide EndToEnd, TotalSize;
    CutOneMore(l.cut, Block(l.a.cursor, s), base);
  }

  lemma GrowKeepsOwned(l: Ledger, s: nat, base: nat, size: nat)
    requires ListedOnce(l.a) && Owned(l) && s > 0 && Block(l.a.cursor, s) !in l.cut
    ensures ListedOnce(Grown(l, s).a) && Owned(Grown(l, s))
  {
    var b, next := Block(l.a.cursor, s), Grown(l, s);
    forall t ensures next.a.Listed(t) == l.a.Listed(t) {}
    assert b !in l.live && !OnList(l, b);
    forall x ensures OnList(next, x) == OnList(l, x) {}
    forall x ensures x in next.cut <==> x in l.cut || x == b {}
  }

  // The list of one size, changed.
  function Relisted(a: Arena, s: nat, list: seq<nat>): Arena {
    a.(free := a.free[s := list])
  }

  lemma RelistedAt(a: Arena, s: nat, list: seq<nat>, t: nat)
    ensures Relisted(a, s, list).Listed(t) == if t == s then list else a.Listed(t)
  {
  }

  lemma PopKeepsInv(l: Ledger, s: nat, base: nat, size: nat)
    requires Inv(l, base, size) && l.a.Listed(s) != []
    ensures var list := l.a.Listed(s);
            Inv(l.HandOut(list[|list| - 1], s, Relisted(l.a, s, list[..|list| - 1])), base, size)
  {
    var list := l.a.Listed(s);
    var b := Block(list[|list| - 1], s);
    var after := Relisted(l.a, s, list[..|list| - 1]);
    ShorterKeepsListedOnce(l.a, s);
    if s > 0 {
      assert OnList(l, b);
      CutAddress(l, b, base, size);
      hide Region, ListedOnce;
      PopKeepsOwned(l, s);
      assert l.HandOut(b.addr, s, after) == Ledger(after, l.cut, l.live + {b});
      RegionIgnoresLists(l, Ledger(after, l.cut, l.live + {b}), base, size);
    } else {
      assert l.HandOut(b.addr, s, after) == Ledger(after, l.cut, l.live);
      hide Ledger.HandOut, ListedOnce;
      EmptyListsOwnNothing(l, list[..|list| - 1]);
      RegionIgnoresLists(l, Ledger(after, l.cut, l.live), base, size);
    }
  }

  lemma RegionIgnoresLists(l: Ledger, next: Ledger, base: nat, size: nat)
    requires Region(l, base, size) && next.cut == l.cut && next.a == l.a.(free := next.a.free)
    ensures Region(next, base, size)
  {
    hide EndToEnd, TotalSize;
  }

  lemma ShorterKeepsListedOnce(a: Arena, s: nat)
    requires ListedOnce(a) && a.Listed(s) != []
    ensures ListedOnce(Relisted(a, s, a.Listed(s)[..|a.Listed(s)| - 1]))
  {
    var list := a.Listed(s);
    var next := Relisted(a, s, list[..|list| - 1]);
    forall t, i, j | t > 0 && 0 <= i < j < |next.Listed(t)| ensures next.Listed(t)[i] != next.Listed(t)[j] {
      RelistedAt(a, s, list[..|list| - 1], t);
      assert a.Listed(t)[i] != a.Listed(t)[j];
    }
  }

  lemma PopKeepsOwned(l: Ledger, s: nat)
    requires Owned(l) && ListedOnce(l.a) && s > 0 && l.a.Listed(s) != []
    ensures var list := l.a.Listed(s);
            Owned(Ledger(Relisted(l.a, s, list[..|list| - 1]), l.cut, l.live + {Block(list[|list| - 1], s)}))
  {
    var list := l.a.Listed(s);
    var b := Block(list[|list| - 1], s);
    var next := Ledger(Relisted(l.a, s, list[..|list| - 1]), l.cut, l.live + {b});
    assert OnList(l, b);
    forall x ensures OnList(next, x) <==> OnList(l, x) && x != b {
      RelistedAt(l.a, s, list[..|list| - 1], x.size);
      if OnList(l, x) && x.size == s {
        var k :| 0 <= k < |list| && list[k] == x.addr;
      }
    }
  }

  // Blocks of size 0 are not recorded, whatever their list holds.
  lemma EmptyListsOwnNothing(l: Ledger, list: seq<nat>)
    requires Owned(l)
    ensures Owned(Ledger(Relisted(l.a, 0, list), l.cut, l.live))
  {
    var next := Ledger(Relisted(l.a, 0, list), l.cut, l.live);
    forall x ensures OnList(next, x) == OnList(l, x) {
      RelistedAt(l.a, 0, list, x.size);
    }
  }

  lemma CutAddress(l: Ledger, b: Block, base: nat, size: nat)
    requires Region(l, base, size) && b in l.cut
    ensures base > 0 && base <= b.addr && b.addr + b.size <= l.a.cursor && b.size > 0
  {
    var i :| 0 <= i < |l.cut| && l.cut[i] == b;
    TotalSizeSplit(l.cut, i, |l.cut|);
    if i < |l.cut| { assert l.cut[..|l.cut|] == l.cut; }
  }

  // A block handed out is in the region and not listed, so freeing it lists it.
  lemma LiveIsListed(l: Ledger, addr: nat, req: nat, base: nat, size: nat)
    requires Inv(l, base, size) && Block(addr, Rounded(req)) in l.live
    ensures var s := Rounded(req);
            addr !in l.a.Listed(s) && l.a.Free(addr, req) == Relisted(l.a, s, l.a.Listed(s) + [addr])
  {
    var b := Block(addr, Rounded(req));
    assert b in l.cut && !OnList(l, b);
    CutAddress(l, b, base, size);
  }

  lemma FreeKeepsInv(l: Ledger, addr: nat, req: nat, base: nat, size: nat)
    requires Inv(l, base, size) && l.Allows(Op.Free(addr, req))
    ensures Inv(l.Step(Op.Free(addr, req)), base, size)
  {
    var s := Rounded(req);
    var b, list := Block(addr, s), l.a.Listed(s);
    var after := l.a.Free(addr, req);
    var next := Ledger(after, l.cut, l.live - {b});
    assert l.Step(Op.Free(addr, req)) == next;
    RegionIgnoresLists(l, next, base, size);
    if b in l.live { LiveIsListed(l, addr, req, base, size); }
    if after == l.a {
      hide Region, ListedOnce, OnList;
      assert next == l by {
        assert b !in l.live by { if b in l.live { RelistedAt(l.a, s, list + [addr], s); } }
        assert l.live - {b} == l.live;
      }
    } else if s == 0 {
      hide Region, ListedOnce;
      assert after == Relisted(l.a, 0, after.Listed(0)) && b !in l.live && l.live - {b} == l.live;
      EmptyListsOwnNothing(l, after.Listed(0));
      EmptyListsAreFree(l.a, after.Listed(0));
    } else {
      hide Region;
      assert after == Relisted(l.a, s, if addr in list then list else list + [addr]);
      LongerKeepsListedOnce(l.a, s, addr);
      ListKeepsOwned(l, s, addr);
    }
  }

  lemma EmptyListsAreFree(a: Arena, list: seq<nat>)
    requires ListedOnce(a)
    ensures ListedOnce(Relisted(a, 0, list))
  {
    var next := Relisted(a, 0, list);
    forall t, i, j | t > 0 && 0 <= i < j < |next.Listed(t)| ensures next.Listed(t)[i] != next.Listed(t)[j] {
      RelistedAt(a, 0, list, t);
      assert a.Listed(t)[i] != a.Listed(t)[j];
    }
  }

  lemma LongerKeepsListedOnce(a: Arena, s: nat, addr: nat)
    requires ListedOnce(a)
    ensures ListedOnce(Relisted(a, s, if addr in a.Listed(s) then a.Listed(s) else a.Listed(s) + [addr]))
  {
    var list := if addr in a.Listed(s) then a.Listed(s) else a.Listed(s) + [addr];
    var next := Relisted(a, s, list);
    forall t, i, j | t > 0 && 0 <= i < j < |next.Listed(t)| ensures next.Listed(t)[i] != next.Listed(t)[j] {
      RelistedAt(a, s, list, t);
      if j < |a.Listed(t)| { assert a.Listed(t)[i] != a.Listed(t)[j]; }
    }
  }

  lemma ListKeepsOwned(l: Ledger, s: nat, addr: nat)
    requires Owned(l) && s > 0 && Block(addr, s) in l.cut
    ensures var list := if addr in l.a.Listed(s) then l.a.Listed(s) else l.a.Listed(s) + [addr];
            Owned(Ledger(Relisted(l.a, s, list), l.cut, l.live - {Block(addr, s)}))
  {
    var b := Block(addr, s);
    var list := if addr in l.a.Listed(s) then l.a.Listed(s) else l.a.Listed(s) + [addr];
    var next := Ledger(Relisted(l.a, s, list), l.cut, l.live - {b});
    forall x ensures OnList(next, x) <==> OnList(l, x) || x == b {
      RelistedAt(l.a, s, list, x.size);
    }
  }

  lemma {:induction false} EveryRunKeepsInv(ops: seq<Op>, base: nat, size: nat)
    requires WellUsed(ops, base, size)
    ensures Inv(Run(ops, base, size), base, size)
  {
    if ops == [] {
      assert Inv(Start(base, size), base, size);
    } else {
      var before := ops[..|ops| - 1];
      forall k | 0 <= k < |before| ensures Run(before[..k], base, size).Allows(before[k]) {
        assert before[..k] == ops[..k];
      }
      EveryRunKeepsInv(before, base, size);
      var l := Run(before, base, size);
      assert l.Allows(ops[|ops| - 1]);
      StepKeepsInv(l, ops[|ops| - 1], base, size);
    }
  }

  lemma StepKeepsInv(l: Ledger, op: Op, base: nat, size: nat)
    requires Inv(l, base, size) && l.Allows(op)
    ensures Inv(l.Step(op), base, size)
  {
    hide Inv;
    match op
    case Alloc(req) =>
      if l.a.Listed(Rounded(req)) != [] {
        PopKeepsInv(l, Rounded(req), base, size);
      } else {
        BumpKeepsInv(l, Rounded(req), base, size);
      }
    case LateBump(req) => BumpKeepsInv(l, Rounded(req), base, size);
    case Free(addr, req) => FreeKeepsInv(l, addr, req, base, size);
  }

  // ---- what callers rely on -----------------------------------------------------------------

  // Blocks handed out and blocks waiting on a list are different blocks, no two share a byte,
  // each lies in the region, and together they account for every byte the cursor passed, under
  // any interleaving of the arena's atomic steps.
  lemma {:induction false} ArenaIsPartitioned(ops: seq<Op>, base: nat, size: nat)
    requires WellUsed(ops, base, size)
    ensures var l := Run(ops, base, size);
            && (forall b :: b in l.live || OnList(l, b) <==> b in l.cut)
            && (forall b :: b in l.live ==> !OnList(l, b))
            && (forall b :: b in l.cut ==> base <= b.addr && b.addr + b.size <= l.a.cursor <= base + size)
            && (forall b, c :: b in l.cut && c in l.cut && b != c ==>
                  b.addr + b.size <= c.addr || c.addr + c.size <= b.addr)
            && l.a.cursor - base == TotalSize(l.cut)
            && (base % ALIGN == 0 ==> forall b :: b in l.cut ==> b.addr % ALIGN == 0)
  {
    EveryRunKeepsInv(ops, base, size);
    var l := Run(ops, base, size);
    forall b | b in l.cut
      ensures base <= b.addr && b.addr + b.size <= l.a.cursor && (base % ALIGN == 0 ==> b.addr % ALIGN == 0)
    {
      CutAddress(l, b, base, size);
      if base % ALIGN == 0 { CutIsAligned(l, b, base); }
    }
    forall b, c | b in l.cut && c in l.cut && b != c
      ensures b.addr + b.size <= c.addr || c.addr + c.size <= b.addr
    {
      CutBlocksAreDisjoint(l, b, c, base, size);
    }
  }

  lemma CutIsAligned(l: Ledger, b: Block, base: nat)
    requires EndToEnd(l.cut, base) && b in l.cut && base % ALIGN == 0
    ensures b.addr % ALIGN == 0
  {
    var i :| 0 <= i < |l.cut| && l.cut[i] == b;
    assert b.addr == base + TotalSize(l.cut[..i]);
    TotalSizeAligned(l.cut, base, i);
    hide EndToEnd, TotalSize;
    SumAligned(base, TotalSize(l.cut[..i]));
  }

  lemma SumAligned(m: nat, n: nat)
    requires m % ALIGN == 0 && n % ALIGN == 0
    ensures (m + n) % ALIGN == 0
  {
  }

  lemma CutBlocksAreDisjoint(l: Ledger, b: Block, c: Block, base: nat, size: nat)
    requires Inv(l, base, size) && b in l.cut && c in l.cut && b != c
    ensures b.addr + b.size <= c.addr || c.addr + c.size <= b.addr
  {
    var i :| 0 <= i < |l.cut| && l.cut[i] == b;
    var j :| 0 <= j < |l.cut| && l.cut[j] == c;
    if i < j { TotalSizeSplit(l.cut, i, j); } else { TotalSizeSplit(l.cut, j, i); }
  }

  lemma {:induction false} TotalSizeAligned(cut: seq<Block>, base: nat, i: nat)
    requires EndToEnd(cut, base) && i <= |cut|
    ensures TotalSize(cut[..i]) % ALIGN == 0
  {
    if i > 0 {
      TotalSizeAligned(cut, base, i - 1);
      assert cut[..i][..i - 1] == cut[..i - 1];
      SumAligned(TotalSize(cut[..i - 1]), cut[i - 1].size);
    }
  }

  // An allocation is refused only when no block of its class waits and the region cannot grow by
  // one; otherwise it returns a block nobody holds.
  lemma {:induction false} AllocReturnsFreshBlock(ops: seq<Op>, req: nat, base: nat, size: nat)
    requires WellUsed(ops, base, size) && Rounded(req) > 0
    ensures var l := Run(ops, base, size);
            var addr := l.a.Alloc(req).0;
            var b := Block(addr, Rounded(req));
            && (addr == 0 <==> l.a.Listed(Rounded(req)) == []
                               && (base == 0 || base + TotalSize(l.cut) + Rounded(req) > base + size))
            && (addr != 0 ==> b !in l.live && b in l.Step(Op.Alloc(req)).live && req <= b.size
                              && forall c :: c in l.live ==> b.addr + b.size <= c.addr || c.addr + c.size <= b.addr)
  {
    EveryRunKeepsInv(ops, base, size);
    var l := Run(ops, base, size);
    var s := Rounded(req);
    var addr := l.a.Alloc(req).0;
    var b := Block(addr, s);
    if l.a.Listed(s) != [] {
      assert OnList(l, b);
      CutAddress(l, b, base, size);
      ArenaIsPartitioned(ops, base, size);
    } else if addr != 0 {
      forall c | c in l.live ensures c.addr + c.size <= b.addr {
        assert c in l.cut;
        CutAddress(l, c, base, size);
      }
      if b in l.live { assert false; }
    }
    assert base == 0 <==> l.a.cursor == 0 by {
      if base == 0 && l.cut != [] { assert false; }
      assert l.cut == [] ==> TotalSize(l.cut) == 0;
    }
  }

  // ---- peak -----------------------------------------------------------------------------------

  function LiveCount(ops: seq<Op>, s: nat, base: nat, size: nat): nat {
    |set b | b in Run(ops, base, size).live && b.size == s|
  }

  // The most blocks of class `s` ever handed out at once.
  function Peak(ops: seq<Op>, s: nat, base: nat, size: nat): nat {
    var now := LiveCount(ops, s, base, size);
    if ops == [] then now
    else
      var before := Peak(ops[..|ops| - 1], s, base, size);
      if now > before then now else before
  }

  // The compare-and-swap of an allocation that cuts a block of class `s` although one is waiting.
  ghost predicate CutsEarly(l: Ledger, op: Op, s: nat) {
    op.LateBump? && Rounded(op.size) == s && l.a.Bump(s).0 != 0 && l.a.Listed(s) != []
  }

  // Recycling is perfect so far: at every point class `s` owned as many blocks as it had handed out
  // at its busiest until then.
  ghost predicate Perfect(ops: seq<Op>, s: nat, base: nat, size: nat) {
    forall k :: 0 <= k <= |ops| ==> |Run(ops[..k], base, size).Cut(s)| == Peak(ops[..k], s, base, size)
  }

  ghost predicate NeverEarly(ops: seq<Op>, s: nat, base: nat, size: nat) {
    forall k :: 0 <= k < |ops| ==> !CutsEarly(Run(ops[..k], base, size), ops[k], s)
  }

  lemma PrefixOfPrefix<T>(ops: seq<T>, k: nat)
    requires k < |ops|
    ensures ops[..|ops| - 1][..k] == ops[..k]
  {
  }

  lemma WellUsedBefore(ops: seq<Op>, base: nat, size: nat)
    requires ops != [] && WellUsed(ops, base, size)
    ensures WellUsed(ops[..|ops| - 1], base, size)
    ensures Run(ops[..|ops| - 1], base, size).Allows(ops[|ops| - 1])
  {
    var before := ops[..|ops| - 1];
    forall k | 0 <= k < |before| ensures Run(before[..k], base, size).Allows(before[k]) {
      PrefixOfPrefix(ops, k);
    }
  }

  // Recycling is perfect exactly when no compare-and-swap cuts a block while one of its class waits.
  lemma {:induction false} RecyclingIsPerfectIff(ops: seq<Op>, s: nat, base: nat, size: nat)
    requires WellUsed(ops, base, size) && s > 0
    ensures Perfect(ops, s, base, size) <==> NeverEarly(ops, s, base, size)
  {
    hide Run, Peak, CutsEarly, WellUsed;
    if ops == [] {
      assert Perfect(ops, s, base, size) by { StartIsPerfect(s, base, size); }
    } else {
      var before, op, n := ops[..|ops| - 1], ops[|ops| - 1], |ops| - 1;
      WellUsedBefore(ops, base, size);
      RecyclingIsPerfectIff(before, s, base, size);
      assert ops[..|ops|] == ops && before[..n] == before;
      forall k | 0 <= k <= n ensures before[..k] == ops[..k] {}
      assert Perfect(ops, s, base, size) <==>
             Perfect(before, s, base, size) && |Run(ops, base, size).Cut(s)| == Peak(ops, s, base, size);
      assert NeverEarly(ops, s, base, size) <==>
             NeverEarly(before, s, base, size) && !CutsEarly(Run(before, base, size), op, s);
      if Perfect(before, s, base, size) {
        assert |Run(before[..n], base, size).Cut(s)| == Peak(before[..n], s, base, size);
        PeakStep(ops, s, base, size);
      }
    }
  }

  lemma StartIsPerfect(s: nat, base: nat, size: nat)
    ensures |Run([], base, size).Cut(s)| == Peak([], s, base, size)
  {
    assert Start(base, size).Cut(s) == {} && Start(base, size).Live(s) == {};
  }

  // One more step keeps the count at the peak unless it cuts early.
  lemma PeakStep(ops: seq<Op>, s: nat, base: nat, size: nat)
    requires ops != [] && WellUsed(ops, base, size) && s > 0
    requires |Run(ops[..|ops| - 1], base, size).Cut(s)| == Peak(ops[..|ops| - 1], s, base, size)
    ensures |Run(ops, base, size).Cut(s)| == Peak(ops, s, base, size) <==>
              !CutsEarly(Run(ops[..|ops| - 1], base, size), ops[|ops| - 1], s)
  {
    var before, op := ops[..|ops| - 1], ops[|ops| - 1];
    WellUsedBefore(ops, base, size);
    var m, l := Run(before, base, size), Run(ops, base, size);
    assert l == m.Step(op);
    assert LiveCount(ops, s, base, size) == |l.Live(s)|;
    EveryRunKeepsInv(before, base, size);
    hide Run, WellUsed, Inv, LiveCount;
    StepCount(m, op, s, base, size);
  }

  // How one step moves the two counts of class `s`.
  lemma StepCount(m: Ledger, op: Op, s: nat, base: nat, size: nat)
    requires Inv(m, base, size) && m.Allows(op) && s > 0
    ensures var l := m.Step(op);
            if CutsEarly(m, op, s) then |l.Cut(s)| == |m.Cut(s)| + 1 && |l.Live(s)| <= |m.Cut(s)|
            else |l.Live(s)| == |l.Cut(s)| == |m.Cut(s)| + 1 || (|l.Cut(s)| == |m.Cut(s)| && |l.Live(s)| <= |l.Cut(s)|)
  {
    var l := m.Step(op);
    StepKeepsInv(m, op, base, size);
    LiveIsCut(l, s);
    SubsetCount(l.Live(s), l.Cut(s));
    if Cuts(m, op, s) {
      assert l == Grown(m, s) by { StepIsGrown(m, op, s); }
      GrowCount(m, s, base, size);
    } else {
      SameCut(m, op, s);
    }
  }

  // `op` cuts a block of class `s`.
  ghost predicate Cuts(m: Ledger, op: Op, s: nat) {
    && (op.Alloc? || op.LateBump?) && Rounded(op.size) == s
    && (op.Alloc? ==> m.a.Listed(s) == [])
    && m.a.cursor != 0 && m.a.cursor + s <= m.a.end
  }

  lemma StepIsGrown(m: Ledger, op: Op, s: nat)
    requires Cuts(m, op, s) && s > 0
    ensures m.Step(op) == Grown(m, s)
    ensures CutsEarly(m, op, s) <==> m.a.Listed(s) != []
  {
    BumpCases(m, s);
    hide Ledger.HandOut, Grown;
  }

  lemma SameCut(m: Ledger, op: Op, s: nat)
    requires !Cuts(m, op, s) && s > 0
    ensures m.Step(op).Cut(s) == m.Cut(s) && !CutsEarly(m, op, s)
  {
    var l := m.Step(op);
    if op.Alloc? || op.LateBump? {
      BumpCases(m, Rounded(op.size));
    }
    forall b ensures b in l.cut && b.size == s <==> b in m.cut && b.size == s {}
  }

  lemma LiveIsCut(l: Ledger, s: nat)
    requires Owned(l)
    ensures l.Live(s) <= l.Cut(s)
  {
  }

  lemma GrowCount(m: Ledger, s: nat, base: nat, size: nat)
    requires Inv(m, base, size) && s > 0 && s % ALIGN == 0 && m.a.cursor != 0 && m.a.cursor + s <= m.a.end
    ensures var l := Grown(m, s);
            && |l.Cut(s)| == |m.Cut(s)| + 1 && |l.Live(s)| == |m.Live(s)| + 1
            && (m.a.Listed(s) == [] ==> |m.Live(s)| == |m.Cut(s)|)
            && (m.a.Listed(s) != [] ==> |m.Live(s)| < |m.Cut(s)|)
  {
    hide Region, ListedOnce, Owned, Ledger.Cut, Ledger.Live, Grown;
    GrowKeepsRegion(m, s, base, size);
    GrowSets(m, s);
    WaitingCount(m, s);
  }

  lemma GrowSets(m: Ledger, s: nat)
    requires Owned(m) && Block(m.a.cursor, s) !in m.cut
    ensures var b := Block(m.a.cursor, s);
            && Grown(m, s).Cut(s) == m.Cut(s) + {b} && b !in m.Cut(s)
            && Grown(m, s).Live(s) == m.Live(s) + {b} && b !in m.Live(s)
  {
  }

  // A class has all its blocks handed out exactly when none is waiting.
  lemma WaitingCount(m: Ledger, s: nat)
    requires Owned(m) && s > 0
    ensures m.a.Listed(s) == [] ==> |m.Live(s)| == |m.Cut(s)|
    ensures m.a.Listed(s) != [] ==> |m.Live(s)| < |m.Cut(s)|
  {
    LiveIsCut(m, s);
    if m.a.Listed(s) == [] {
      forall x ensures x in m.Live(s) <==> x in m.Cut(s) {}
      assert m.Live(s) == m.Cut(s);
    } else {
      var waiting := Block(m.a.Listed(s)[0], s);
      assert OnList(m, waiting);
      assert waiting in m.Cut(s) && waiting !in m.Live(s);
      SubsetCount(m.Live(s) + {waiting}, m.Cut(s));
    }
  }

  // In particular recycling is perfect when allocations are atomic: a class never owns more blocks
  // than it had handed out at its busiest.
  lemma CutEqualsPeak(ops: seq<Op>, s: nat, base: nat, size: nat)
    requires WellUsed(ops, base, size) && s > 0 && forall op :: op in ops ==> !op.LateBump?
    ensures |Run(ops, base, size).Cut(s)| == Peak(ops, s, base, size)
  {
    hide Run, Peak;
    RecyclingIsPerfectIff(ops, s, base, size);
    assert ops[..|ops|] == ops;
  }

  lemma SubsetCount<T>(a: set<T>, b: set<T>)
    requires a <= b
    ensures |a| <= |b|
  {
    assert b == a + (b - a);
  }

  // The two locks an allocation takes do not make one atomic step: with a free between them, a
  // class can own two blocks though one at a time was ever handed out.
  lemma LateBumpOutrunsPeak()
    ensures exists ops :: WellUsed(ops, 16, 64) && |Run(ops, 16, 64).Cut(16)| > Peak(ops, 16, 16, 64)
  {
    var a, f, b := Op.Alloc(16), Op.Free(16, 16), LateBump(16);
    var ops := [a, f, b];
    var l0 := Start(16, 64);
    var l1, l2, l3 := ThreeSteps(l0, a, f, b);
    RunOfThree(a, f, b);
    hide Run, Ledger.Step;
    ClassesOfThree(l0, l1, l2, l3);
    hide Ledger.Cut, Ledger.Live, Peak;
    PeakOfThree(a, f, b, l0, l1, l2, l3);
    forall k | 0 <= k < |ops| ensures Run(ops[..k], 16, 64).Allows(ops[k]) {
      assert ops[..k] == if k == 0 then [] else if k == 1 then [a] else [a, f];
    }
    assert WellUsed(ops, 16, 64);
  }

  lemma ClassesOfThree(l0: Ledger, l1: Ledger, l2: Ledger, l3: Ledger)
    requires l0 == Start(16, 64) && l1.live == {Block(16, 16)} && l2.live == {}
    requires l3.live == {Block(32, 16)} && l3.cut == [Block(16, 16), Block(32, 16)]
    ensures |l3.Cut(16)| == 2
    ensures |l0.Live(16)| == |l2.Live(16)| == 0 && |l1.Live(16)| == |l3.Live(16)| == 1
  {
    assert l3.Cut(16) == {Block(16, 16), Block(32, 16)};
    assert l1.Live(16) == {Block(16, 16)} && l2.Live(16) == {} && l3.Live(16) == {Block(32, 16)} && l0.Live(16) == {};
  }

  lemma RunOfThree(a: Op, f: Op, b: Op)
    ensures var l0 := Start(16, 64);
            && Run([], 16, 64) == l0 && Run([a], 16, 64) == l0.Step(a)
            && Run([a, f], 16, 64) == l0.Step(a).Step(f) && Run([a, f, b], 16, 64) == l0.Step(a).Step(f).Step(b)
  {
    hide Ledger.Step;
    assert [a, f, b][..2] == [a, f] && [a, f][..1] == [a] && [a][..0] == [];
  }

  lemma PeakOfThree(a: Op, f: Op, b: Op, l0: Ledger, l1: Ledger, l2: Ledger, l3: Ledger)
    requires Run([], 16, 64) == l0 && Run([a], 16, 64) == l1
    requires Run([a, f], 16, 64) == l2 && Run([a, f, b], 16, 64) == l3
    requires |l0.Live(16)| == |l2.Live(16)| == 0 && |l1.Live(16)| == |l3.Live(16)| == 1
    ensures Peak([a, f, b], 16, 16, 64) == 1
  {
    assert LiveCount([], 16, 16, 64) == |l0.Live(16)| && LiveCount([a], 16, 16, 64) == |l1.Live(16)|;
    assert LiveCount([a, f], 16, 16, 64) == |l2.Live(16)| && LiveCount([a, f, b], 16, 16, 64) == |l3.Live(16)|;
    hide LiveCount, Run;
    assert [a, f, b][..2] == [a, f] && [a, f][..1] == [a] && [a][..0] == [];
    assert Peak([a], 16, 16, 64) == 1;
    assert Peak([a, f], 16, 16, 64) == 1;
  }

  lemma ThreeSteps(l0: Ledger, a: Op, f: Op, b: Op) returns (l1: Ledger, l2: Ledger, l3: Ledger)
    requires l0 == Start(16, 64) && a == Op.Alloc(16) && f == Op.Free(16, 16) && b == LateBump(16)
    ensures l1 == l0.Step(a) && l2 == l1.Step(f) && l3 == l2.Step(b)
    ensures l1 == Ledger(Arena(16, 32, 80, map[]), [Block(16, 16)], {Block(16, 16)})
    ensures l2 == Ledger(Arena(16, 32, 80, map[16 := [16]]), [Block(16, 16)], {})
    ensures l3 == Ledger(Arena(16, 48, 80, map[16 := [16]]), [Block(16, 16), Block(32, 16)], {Block(32, 16)})
  {
    assert Rounded(16) == 16;
    l1 := l0.Step(a);
    assert l1.cut == [Block(16, 16)] && l1.live == {Block(16, 16)};
    l2 := l1.Step(f);
    assert l1.a.Listed(16) == [] && l2.a.free[16] == [16] && l2.live == {};
    assert l2.a.free == map[16 := [16]];
    l3 := l2.Step(b);
  }

  // A request of size 0 is granted without moving the cursor: after any run, unless an empty block
  // is waiting, two such requests and the next block cut all get one address.
  lemma EmptyBlocksShareAnAddress(ops: seq<Op>, req: nat, base: nat, size: nat)
    requires WellUsed(ops, base, size) && base > 0 && Run(ops, base, size).a.Listed(0) == []
    ensures var a := Run(ops, base, size).a;
            var (first, after) := a.Alloc(0);
            && first != 0 && after.Alloc(0).0 == first
            && (req > 0 && a.Listed(Rounded(req)) == [] && a.cursor + Rounded(req) <= a.end ==>
                  after.Alloc(req).0 == first)
  {
    EveryRunKeepsInv(ops, base, size);
    hide Run, EndToEnd, TotalSize, Owned, ListedOnce;
    assert Rounded(0) == 0;
  }

  // ---- one free, one allocation -----------------------------------------------------------------

  // A block just freed is the next one its size class hands out, and nothing else has changed.
  lemma FreedIsReused(a: Arena, addr: nat, size: nat, again: nat)
    requires 0 < addr && a.base <= addr < a.end && addr !in a.Listed(Rounded(size)) && Rounded(again) == Rounded(size)
    ensures var (r, after) := a.Free(addr, size).Alloc(again);
            && r == addr && after.cursor == a.cursor && after.base == a.base && after.end == a.end
            && forall s :: after.Listed(s) == a.Listed(s)
  {
    var s := Rounded(size);
    var list := a.Listed(s) + [addr];
    assert list[..|list| - 1] == a.Listed(s);
  }

  // Freeing nothing, an address outside the region, or a block already waiting changes nothing.
  lemma IdleFrees(a: Arena, addr: nat, size: nat)
    requires addr == 0 || addr < a.base || addr >= a.end || addr in a.Listed(Rounded(size))
    ensures var after := a.Free(addr, size);
            && after.cursor == a.cursor && after.base == a.base && after.end == a.end
            && forall s :: after.Listed(s) == a.Listed(s)
  {
  }

  // Two growing allocations in a row are neighbours.
  lemma GrowthIsAdjacent(a: Arena, first: nat, second: nat)
    requires a.cursor > 0 && a.Listed(Rounded(first)) == [] && a.Listed(Rounded(second)) == []
    requires a.cursor + Rounded(first) + Rounded(second) <= a.end
    ensures var (x, b) := a.Alloc(first); var (y, c) := b.Alloc(second);
            x == a.cursor && y == x + Rounded(first) && c.cursor == y + Rounded(second)
  {
  }
}
