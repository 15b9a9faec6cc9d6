// Reading a NUL-terminated string out of guest memory through the bounded read seam.

module CString {
  import opened Words

  const CHUNK := 64

  // Unchanging guest memory: which bytes are mapped, what they hold, the registered arena bounds,
  // and the ranged reader (absent when the seam is not wired).
  datatype Guest = Guest(
    mapped: iset<nat>,
    byteAt: nat -> u8,
    arena: Option<(u64, u64)>,
    reader: Option<(nat, nat) -> Option<seq<u8>>>
  )

  // What the seam promises: exact on one byte, and never wrong on more. It may refuse a long range
  // that is mapped.
  ghost predicate SeamKept(g: Guest) {
    g.reader.Some? ==>
      && (forall a: nat :: g.reader.value(a, 1).Some? <==> a in g.mapped)
      && (forall a: nat, n: nat :: g.reader.value(a, n).Some? ==> Reads(g, a, g.reader.value(a, n).value, n))
  }

  ghost predicate Reads(g: Guest, a: nat, bytes: seq<u8>, n: nat) {
    |bytes| == n && forall i :: 0 <= i < n ==> Served(g, a, bytes, i)
  }

  ghost predicate Served(g: Guest, a: nat, bytes: seq<u8>, i: nat)
    requires i < |bytes|
  {
    a + i in g.mapped && bytes[i] == g.byteAt(a + i)
  }

  predicate RangeInArena(g: Guest, addr: u64, total: u64) {
    if addr == 0 || total == 0 then false
    else
      match g.arena
      case None => false
      case Some((base, end)) =>
        if addr + total >= TWO64 then false else addr >= base && addr + total <= end
  }

  predicate InArena(g: Guest, a: nat) {
    g.arena.Some? && g.arena.value.0 <= a < g.arena.value.1
  }

  // A range is accepted exactly when it is non-null, non-empty, ends below the top of the address
  // space, and each of its bytes is inside the arena.
  lemma {:induction false} RangeInArenaIsExact(g: Guest, addr: u64, total: u64)
    ensures RangeInArena(g, addr, total) <==>
              && addr != 0 && total != 0 && addr + total < TWO64
              && forall a :: addr <= a < addr + total ==> InArena(g, a)
  {
    if addr != 0 && total != 0 && forall a :: addr <= a < addr + total ==> InArena(g, a) {
      assert InArena(g, addr) && InArena(g, addr + total - 1);
    }
  }

  // The byte-at-a-time scan of `[a, limit)`.
  ghost function Scan(g: Guest, a: nat, limit: nat): Option<seq<u8>>
    decreases limit - a
  {
    if a >= limit || a !in g.mapped then None
    else if g.byteAt(a) == 0 then Some([])
    else
      match Scan(g, a + 1, limit)
      case None => None
      case Some(rest) => Some([g.byteAt(a)] + rest)
  }

  // `p` holds the first NUL at or after `a`, below `limit` and reached over mapped bytes.
  ghost predicate StringEndsAt(g: Guest, a: nat, limit: nat, p: nat) {
    && a <= p < limit && g.byteAt(p) == 0
    && (forall k: nat :: a <= k <= p ==> k in g.mapped)
    && (forall k: nat :: a <= k < p ==> g.byteAt(k) != 0)
  }

  lemma {:induction false} ScanFinds(g: Guest, a: nat, limit: nat, p: nat)
    requires StringEndsAt(g, a, limit, p)
    ensures Scan(g, a, limit).Some? && |Scan(g, a, limit).value| == p - a
    ensures forall k :: 0 <= k < p - a ==> Scan(g, a, limit).value[k] == g.byteAt(a + k)
    decreases p - a
  {
    assert a in g.mapped;
    if a < p {
      ScanFinds(g, a + 1, limit, p);
      assert g.byteAt(a) != 0;
      var all, rest := Scan(g, a, limit).value, Scan(g, a + 1, limit).value;
      assert all == [g.byteAt(a)] + rest;
      forall k | 0 <= k < p - a ensures all[k] == g.byteAt(a + k) {
        if k > 0 { assert rest[k - 1] == g.byteAt(a + 1 + (k - 1)); }
      }
    }
  }

  lemma {:induction false} ScanStops(g: Guest, a: nat, limit: nat) returns (p: nat)
    requires Scan(g, a, limit).Some?
    ensures StringEndsAt(g, a, limit, p)
    decreases limit - a
  {
    if g.byteAt(a) == 0 {
      p := a;
    } else {
      p := ScanStops(g, a + 1, limit);
    }
  }

  // `front` put before a scan's result.
  ghost function Onto(front: seq<u8>, tail: Option<seq<u8>>): Option<seq<u8>> {
    match tail case None => None case Some(rest) => Some(front + rest)
  }

  lemma OntoOnto(front: seq<u8>, more: seq<u8>, tail: Option<seq<u8>>)
    ensures Onto(front, Onto(more, tail)) == Onto(front + more, tail)
    ensures Onto([], tail) == tail
  {
    match tail
    case None =>
    case Some(rest) => assert front + (more + rest) == front + more + rest && [] + rest == rest;
  }

  // Passing a run of mapped bytes without a NUL only moves the scan along.
  lemma {:induction false} ScanSkips(g: Guest, a: nat, limit: nat, bytes: seq<u8>)
    requires Reads(g, a, bytes, |bytes|) && a + |bytes| <= limit
    requires forall i :: 0 <= i < |bytes| ==> bytes[i] != 0
    ensures Scan(g, a, limit) == Onto(bytes, Scan(g, a + |bytes|, limit))
    decreases |bytes|
  {
    if bytes == [] {
      OntoOnto([], [], Scan(g, a, limit));
    } else {
      var rest, next := bytes[1..], a + 1;
      assert Served(g, a, bytes, 0);
      forall i | 0 <= i < |rest| ensures Served(g, next, rest, i) {
        assert Served(g, a, bytes, i + 1);
      }
      ScanSkips(g, next, limit, rest);
      assert bytes == [bytes[0]] + rest;
      OntoOnto([bytes[0]], rest, Scan(g, a + |bytes|, limit));
    }
  }

  lemma ReadsPrefix(g: Guest, a: nat, bytes: seq<u8>, n: nat)
    requires Reads(g, a, bytes, |bytes|) && n <= |bytes|
    ensures Reads(g, a, bytes[..n], n)
    ensures n < |bytes| ==> a + n in g.mapped && g.byteAt(a + n) == bytes[n]
  {
    forall i | 0 <= i < n ensures Served(g, a, bytes[..n], i) {
      assert Served(g, a, bytes, i);
    }
    if n < |bytes| { assert Served(g, a, bytes, n); }
  }

  method FirstNul(bytes: seq<u8>) returns (pos: nat)
    ensures pos <= |bytes| && (pos < |bytes| ==> bytes[pos] == 0)
    ensures forall i :: 0 <= i < pos ==> bytes[i] != 0
  {
    pos := 0;
    while pos < |bytes| && bytes[pos] != 0
      invariant 0 <= pos <= |bytes| && forall i :: 0 <= i < pos ==> bytes[i] != 0
    {
      pos := pos + 1;
    }
  }

  // One window: the widest of `want`, `want / 2`, … that the seam serves.
  method ReadWindow(g: Guest, a: nat, want: nat) returns (got: Option<seq<u8>>)
    requires SeamKept(g) && g.reader.Some? && want > 0
    ensures got.None? <==> a !in g.mapped
    ensures got.Some? ==> 0 < |got.value| <= want && Reads(g, a, got.value, |got.value|)
  {
    var chunk := want;
    while chunk > 0
      invariant 0 <= chunk <= want
      invariant chunk == 0 ==> g.reader.value(a, 1).None?
    {
      got := g.reader.value(a, chunk);
      if got.Some? {
        assert Reads(g, a, got.value, chunk);
        assert Served(g, a, got.value, 0);
        return;
      }
      chunk := chunk / 2;
    }
    got := None;
  }

  // The chunked scan is the byte-at-a-time scan, for every seam that keeps its promise.
  method ReadCstr(g: Guest, addr: u64, max: nat) returns (r: Option<seq<u8>>)
    requires SeamKept(g)
    ensures !RangeInArena(g, addr, 1) || g.reader.None? ==> r == None
    ensures RangeInArena(g, addr, 1) && g.reader.Some? ==> r == Scan(g, addr, addr + max)
  {
    if addr == 0 || max == 0 {
      return None;
    }
    if !RangeInArena(g, addr, 1) {
      return None;
    }
    if g.reader.None? {
      return None;
    }
    var out: seq<u8> := [];
    var off: nat := 0;
    ghost var limit := addr + max;
    OntoOnto([], [], Scan(g, addr, limit));
    while off < max
      invariant off <= max && Scan(g, addr, limit) == Onto(out, Scan(g, addr + off, limit))
      decreases max - off
    {
      hide SeamKept;
      var want := if CHUNK < max - off then CHUNK else max - off;
      var got := ReadWindow(g, addr + off, want);
      if got.None? {
        return None;
      }
      var bytes := got.value;
      var pos := FirstNul(bytes);
      ghost var tail := Scan(g, addr + off + pos, limit);
      ReadsPrefix(g, addr + off, bytes, pos);
      ScanSkips(g, addr + off, limit, bytes[..pos]);
      OntoOnto(out, bytes[..pos], tail);
      if pos < |bytes| {
        assert tail == Some([]);
        out := out + bytes[..pos];
        assert out + [] == out;
        return Some(out);
      }
      assert bytes[..pos] == bytes;
      out := out + bytes;
      off := off + |bytes|;
    }
    r := None;
  }

  // What callers get: the bytes before the first NUL, exactly when that NUL lies within `max` and
  // every byte up to it is mapped.
  lemma {:induction false} CstrIsFirstNul(g: Guest, addr: nat, max: nat, s: seq<u8>)
    ensures Scan(g, addr, addr + max) == Some(s) <==>
              && StringEndsAt(g, addr, addr + max, addr + |s|)
              && forall k :: 0 <= k < |s| ==> s[k] == g.byteAt(addr + k)
  {
    var limit := addr + max;
    if Scan(g, addr, limit).Some? {
      var p := ScanStops(g, addr, limit);
      ScanFinds(g, addr, limit, p);
    }
    if StringEndsAt(g, addr, limit, addr + |s|) {
      ScanFinds(g, addr, limit, addr + |s|);
      if forall k :: 0 <= k < |s| ==> s[k] == g.byteAt(addr + k) {
        assert Scan(g, addr, limit).value == s;
      }
    }
  }
}
