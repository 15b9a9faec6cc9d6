// Surface tiling: where a texel's bytes sit in guest memory, and the copy loops that move a
// surface between its tiled and its row-major form. The upload path and the sampling oracle
// must agree on every byte, so the offsets are stated once and both are proved against them.

module Tiling {
  import opened Words
  import opened Arithmetic

  const MICRO_TILE_DIM := 8
  const MICRO_TILE_TEXELS := 64
  const LINEAR_ALIGNED_PITCH_TEXELS := 64

  // The largest extent and pitch the image descriptor's 14-bit minus-one fields can hold.
  const MAX_EXTENT := 16384

  datatype TileKind = Linear | Thin1d | LinearAligned | Macro2d

  function KindOf(tilingIndex: u8): TileKind {
    if tilingIndex == 0 then Linear
    else if tilingIndex <= 7 then Thin1d
    else if tilingIndex == 8 then LinearAligned
    else Macro2d
  }

  // Bits x0 y0 x1 y1 x2 y2, lowest first.
  function MicroTileIndex(x: nat, y: nat): nat {
    var x := x % MICRO_TILE_DIM;
    var y := y % MICRO_TILE_DIM;
    Interleave(x % 2, y % 2, x / 2 % 2, y / 2 % 2, x / 4 % 2, y / 4 % 2)
  }

  // The word whose bits are these, lowest first.
  function Interleave(b0: nat, b1: nat, b2: nat, b3: nat, b4: nat, b5: nat): nat {
    b0 + 2 * b1 + 4 * b2 + 8 * b3 + 16 * b4 + 32 * b5
  }

  // `n.div_ceil(d)`: the least count of `d`s that reaches `n`.
  function DivCeil(n: nat, d: nat): (c: nat)
    requires d > 0
    ensures n <= c * d < n + d
    ensures n > 0 ==> c > 0
  {
    (n + d - 1) / d
  }

  function Thin1dSlot(x: nat, y: nat, width: nat): nat {
    var tileIndex := y / MICRO_TILE_DIM * DivCeil(width, MICRO_TILE_DIM) + x / MICRO_TILE_DIM;
    tileIndex * MICRO_TILE_TEXELS + MicroTileIndex(x, y)
  }

  function AlignedPitch(width: nat): nat {
    DivCeil(width, LINEAR_ALIGNED_PITCH_TEXELS) * LINEAR_ALIGNED_PITCH_TEXELS
  }

  function AlignedPitchOr(width: nat, decoded: nat): nat {
    if decoded >= width then decoded else AlignedPitch(width)
  }

  datatype Layout = Layout(kind: TileKind, width: nat, height: nat, pitch: nat, bytes: nat) {
    predicate Supported() {
      kind != Macro2d && bytes > 0
    }

    function LinearSize(): nat {
      width * height * bytes
    }

    // Texels one row of the stored surface is padded to, and rows it is padded to.
    function PaddedWidth(): nat {
      match kind
      case Thin1d => DivCeil(width, MICRO_TILE_DIM) * MICRO_TILE_DIM
      case LinearAligned => AlignedPitchOr(width, pitch)
      case _ => width
    }

    function PaddedHeight(): nat {
      if kind == Thin1d then DivCeil(height, MICRO_TILE_DIM) * MICRO_TILE_DIM else height
    }

    function TiledSize(): nat {
      var texels: nat := match kind
        case Thin1d => DivCeil(width, MICRO_TILE_DIM) * DivCeil(height, MICRO_TILE_DIM) * MICRO_TILE_TEXELS
        case LinearAligned => AlignedPitchOr(width, pitch) * height
        case _ => width * height;
      texels * bytes
    }

    // The texel slot of (x, y), in texels from the surface's base.
    function Slot(x: nat, y: nat): nat {
      match kind
      case Thin1d => Thin1dSlot(x, y, width)
      case LinearAligned => y * AlignedPitchOr(width, pitch) + x
      case _ => y * width + x
    }

    function Offset(x: nat, y: nat): nat {
      Slot(x, y) * bytes
    }

    function RowMajor(x: nat, y: nat): nat {
      (y * width + x) * bytes
    }

    // Where byte `i` of the row-major view sits in the stored surface.
    function SourceOf(i: nat): nat {
      if width == 0 || bytes == 0 then 0
      else Offset(i / bytes % width, i / bytes / width) + i % bytes
    }
  }

  // ---- the micro-tile ---------------------------------------------------------------------

  function MicroTileX(i: nat): nat {
    i % 2 + 2 * (i / 4 % 2) + 4 * (i / 16 % 2)
  }

  function MicroTileY(i: nat): nat {
    i / 2 % 2 + 2 * (i / 8 % 2) + 4 * (i / 32 % 2)
  }

  lemma {:induction false} MicroTileBijection(x: nat, y: nat, i: nat)
    ensures MicroTileIndex(x, y) < MICRO_TILE_TEXELS
    ensures MicroTileX(MicroTileIndex(x, y)) == x % MICRO_TILE_DIM
    ensures MicroTileY(MicroTileIndex(x, y)) == y % MICRO_TILE_DIM
    ensures i < MICRO_TILE_TEXELS ==>
              MicroTileX(i) < MICRO_TILE_DIM && MicroTileY(i) < MICRO_TILE_DIM
              && MicroTileIndex(MicroTileX(i), MicroTileY(i)) == i
  {
    MicroTileBits(x % 8, y % 8);
    MicroTileOfRemainder(x, y, x % 8, y % 8);
    if i < 64 { MicroTileOnto(i); }
  }

  lemma MicroTileBits(a: nat, b: nat)
    requires a < 8 && b < 8
    ensures var i := MicroTileIndex(a, b); i < 64 && MicroTileX(i) == a && MicroTileY(i) == b
  {
    hide Interleave, MicroTileX, MicroTileY;
    IndexOfBits(a, b);
    hide MicroTileIndex;
    Octal(a);
    Octal(b);
    InterleaveBits(a % 2, b % 2, a / 2 % 2, b / 2 % 2, a / 4 % 2, b / 4 % 2);
  }

  lemma MicroTileOnto(i: nat)
    requires i < 64
    ensures MicroTileX(i) < 8 && MicroTileY(i) < 8 && MicroTileIndex(MicroTileX(i), MicroTileY(i)) == i
  {
    hide Interleave, MicroTileIndex;
    Sextet(i);
    var x, y := MicroTileX(i), MicroTileY(i);
    ThreeBits(i % 2, i / 4 % 2, i / 16 % 2);
    ThreeBits(i / 2 % 2, i / 8 % 2, i / 32 % 2);
    hide MicroTileX, MicroTileY;
    IndexOfBits(x, y);
  }

  lemma IndexOfBits(a: nat, b: nat)
    requires a < 8 && b < 8
    ensures MicroTileIndex(a, b) == Interleave(a % 2, b % 2, a / 2 % 2, b / 2 % 2, a / 4 % 2, b / 4 % 2)
  {
    hide Interleave;
    assert a % 8 == a && b % 8 == b;
  }

  lemma Octal(a: nat)
    requires a < 8
    ensures a == a % 2 + 2 * (a / 2 % 2) + 4 * (a / 4 % 2)
  {
  }

  lemma Sextet(i: nat)
    requires i < 64
    ensures i == Interleave(i % 2, i / 2 % 2, i / 4 % 2, i / 8 % 2, i / 16 % 2, i / 32 % 2)
  {
    Octet(i);
    Octet(i / 8);
    assert i / 8 / 2 == i / 16 && i / 8 / 4 == i / 32 && i / 8 / 8 == 0;
  }

  lemma Octet(n: nat)
    ensures n == n % 2 + 2 * (n / 2 % 2) + 4 * (n / 4 % 2) + 8 * (n / 8)
  {
    assert n / 2 == 2 * (n / 4) + n / 2 % 2;
    assert n / 4 == 2 * (n / 8) + n / 4 % 2;
  }

  lemma ThreeBits(b0: nat, b1: nat, b2: nat)
    requires b0 < 2 && b1 < 2 && b2 < 2
    ensures var n := b0 + 2 * b1 + 4 * b2;
            n < 8 && n % 2 == b0 && n / 2 % 2 == b1 && n / 4 % 2 == b2
  {
  }

  lemma InterleaveBits(b0: nat, b1: nat, b2: nat, b3: nat, b4: nat, b5: nat)
    requires b0 < 2 && b1 < 2 && b2 < 2 && b3 < 2 && b4 < 2 && b5 < 2
    ensures var n := Interleave(b0, b1, b2, b3, b4, b5);
            n < 64 && MicroTileX(n) == b0 + 2 * b2 + 4 * b4 && MicroTileY(n) == b1 + 2 * b3 + 4 * b5
  {
    var n := Interleave(b0, b1, b2, b3, b4, b5);
    assert n / 2 == b1 + 2 * b2 + 4 * b3 + 8 * b4 + 16 * b5;
    assert n / 4 == b2 + 2 * b3 + 4 * b4 + 8 * b5;
    assert n / 8 == b3 + 2 * b4 + 4 * b5;
    assert n / 16 == b4 + 2 * b5;
    assert n / 32 == b5;
    assert n % 2 == b0 && n / 2 % 2 == b1 && n / 4 % 2 == b2 && n / 8 % 2 == b3 && n / 16 % 2 == b4;
  }

  // ---- slots ------------------------------------------------------------------------------

  // The texel a 1D-thin slot holds.
  function Thin1dTexel(slot: nat, width: nat): (nat, nat)
    requires width > 0
  {
    var tiles := DivCeil(width, MICRO_TILE_DIM);
    var tile, within := slot / MICRO_TILE_TEXELS, slot % MICRO_TILE_TEXELS;
    var column: nat := tile % tiles;
    var row: nat := tile / tiles;
    (column * MICRO_TILE_DIM + MicroTileX(within), row * MICRO_TILE_DIM + MicroTileY(within))
  }

  // Every texel of the padded grid has its own slot among the padded surface's.
  lemma {:induction false} Thin1dInjects(x: nat, y: nat, width: nat, height: nat)
    requires width > 0
    requires x < DivCeil(width, MICRO_TILE_DIM) * MICRO_TILE_DIM
    requires y < DivCeil(height, MICRO_TILE_DIM) * MICRO_TILE_DIM
    ensures Thin1dSlot(x, y, width)
         < DivCeil(width, MICRO_TILE_DIM) * DivCeil(height, MICRO_TILE_DIM) * MICRO_TILE_TEXELS
    ensures Thin1dTexel(Thin1dSlot(x, y, width), width) == (x, y)
  {
    hide MicroTileIndex, MicroTileX, MicroTileY;
    var tiles, rows := DivCeil(width, 8), DivCeil(height, 8);
    var tile := y / 8 * tiles + x / 8;
    var within := MicroTileIndex(x, y);
    MicroTileBijection(x, y, 0);
    DivModUnique(tile, within, 64);
    DivModUnique(y / 8, x / 8, tiles);
    GridBound(y / 8, x / 8, rows, tiles);
    GridBound(tile, within, rows * tiles, 64);
  }

  // Every slot of the padded surface holds a texel of the padded grid.
  lemma {:induction false} Thin1dCovers(slot: nat, width: nat, height: nat)
    requires width > 0
    requires slot < DivCeil(width, MICRO_TILE_DIM) * DivCeil(height, MICRO_TILE_DIM) * MICRO_TILE_TEXELS
    ensures var (x, y) := Thin1dTexel(slot, width);
            x < DivCeil(width, MICRO_TILE_DIM) * MICRO_TILE_DIM
            && y < DivCeil(height, MICRO_TILE_DIM) * MICRO_TILE_DIM
            && Thin1dSlot(x, y, width) == slot
  {
    hide MicroTileIndex, MicroTileX, MicroTileY, DivCeil;
    var tiles, rows := DivCeil(width, 8), DivCeil(height, 8);
    var tile, within := slot / 64, slot % 64;
    QuotientBelow(slot, tiles * rows, 64);
    QuotientBelow(tile, rows, tiles) by { assert tiles * rows == rows * tiles; }
    MicroTileBijection(0, 0, within);
    TexelOfTile(tile % tiles, tile / tiles, within, width);
  }

  // The texel at `within` of the tile in this column and row has the slot it should.
  lemma TexelOfTile(column: nat, row: nat, within: nat, width: nat)
    requires within < MICRO_TILE_TEXELS
    ensures var x, y := column * MICRO_TILE_DIM + MicroTileX(within), row * MICRO_TILE_DIM + MicroTileY(within);
            Thin1dSlot(x, y, width) == (row * DivCeil(width, MICRO_TILE_DIM) + column) * MICRO_TILE_TEXELS + within
  {
    hide MicroTileIndex, MicroTileX, MicroTileY, DivCeil;
    MicroTileBijection(0, 0, within);
    var mx, my := MicroTileX(within), MicroTileY(within);
    DivModUnique(column, mx, 8);
    DivModUnique(row, my, 8);
    MicroTileOfRemainder(column * 8 + mx, row * 8 + my, mx, my);
  }

  lemma MicroTileOfRemainder(x: nat, y: nat, mx: nat, my: nat)
    requires x % 8 == mx && y % 8 == my
    ensures MicroTileIndex(x, y) == MicroTileIndex(mx, my)
  {
    assert mx % 8 == mx && my % 8 == my;
  }

  lemma PitchCoversWidth(width: nat, decoded: nat)
    ensures AlignedPitchOr(width, decoded) >= width
    ensures decoded < width ==>
              AlignedPitchOr(width, decoded) % 64 == 0 && AlignedPitchOr(width, decoded) < width + 64
    ensures width <= MAX_EXTENT && decoded <= MAX_EXTENT ==> AlignedPitchOr(width, decoded) <= MAX_EXTENT
  {
  }

  // Distinct texels take distinct slots, all inside the stored surface.
  lemma {:induction false} SlotsAreDistinct(l: Layout, x: nat, y: nat, x': nat, y': nat)
    requires l.Supported()
    requires x < l.width && y < l.height && x' < l.width && y' < l.height
    ensures (l.Slot(x, y) + 1) * l.bytes <= l.TiledSize()
    ensures l.Slot(x, y) == l.Slot(x', y') ==> x == x' && y == y'
  {
    hide Thin1dSlot, Thin1dTexel, AlignedPitchOr;
    match l.kind
    case Thin1d =>
      Thin1dInjects(x, y, l.width, l.height);
      Thin1dInjects(x', y', l.width, l.height);
      MulMono(l.Slot(x, y) + 1, DivCeil(l.width, 8) * DivCeil(l.height, 8) * 64, l.bytes);
    case LinearAligned =>
      var pitch := AlignedPitchOr(l.width, l.pitch);
      PitchCoversWidth(l.width, l.pitch);
      RowMajorSlots(x, y, x', y', pitch, l.height, l.bytes);
    case Linear =>
      RowMajorSlots(x, y, x', y', l.width, l.height, l.bytes);
  }

  lemma RowMajorSlots(x: nat, y: nat, x': nat, y': nat, pitch: nat, height: nat, bytes: nat)
    requires x < pitch && x' < pitch && y < height
    ensures (y * pitch + x + 1) * bytes <= pitch * height * bytes
    ensures y * pitch + x == y' * pitch + x' ==> x == x' && y == y'
  {
    DivModUnique(y, x, pitch);
    DivModUnique(y', x', pitch);
    GridBound(y, x, height, pitch);
    MulMono(y * pitch + x + 1, pitch * height, bytes);
  }

  // No byte of a surface belongs to two texels.
  lemma {:induction false} TilingNeverAliases(l: Layout, x: nat, y: nat, x': nat, y': nat)
    requires l.Supported()
    requires x < l.width && y < l.height && x' < l.width && y' < l.height && (x, y) != (x', y')
    ensures l.Offset(x, y) + l.bytes <= l.TiledSize()
    ensures l.Offset(x, y) + l.bytes <= l.Offset(x', y') || l.Offset(x', y') + l.bytes <= l.Offset(x, y)
  {
    SlotsAreDistinct(l, x, y, x', y');
    var s, s' := l.Slot(x, y), l.Slot(x', y');
    if s < s' { MulMono(s + 1, s', l.bytes); } else { MulMono(s' + 1, s, l.bytes); }
  }

  // No product the source forms in 32 bits overflows for an extent a descriptor can name, so the
  // unbounded arithmetic above is the machine's.
  lemma {:induction false} DescriptorExtentsFitU32(l: Layout, x: nat, y: nat)
    requires l.Supported() && l.width <= MAX_EXTENT && l.height <= MAX_EXTENT && l.pitch <= MAX_EXTENT
    requires x < l.width && y < l.height && l.bytes <= 8
    ensures y / MICRO_TILE_DIM * DivCeil(l.width, MICRO_TILE_DIM) + x / MICRO_TILE_DIM < 0x40_0000
    ensures l.Slot(x, y) < 0x1000_0000
    ensures l.TiledSize() <= 0x8000_0000
  {
    hide Thin1dSlot, AlignedPitchOr;
    var tiles, rows := DivCeil(l.width, 8), DivCeil(l.height, 8);
    GridBound(y / 8, x / 8, 2048, 2048) by { assert x / 8 < 2048 && y / 8 < 2048; }
    MulMono(tiles, 2048, y / 8);
    assert y / 8 * tiles + x / 8 <= y / 8 * 2048 + x / 8;
    PitchCoversWidth(l.width, l.pitch);
    ProductBound(tiles, rows, 2048);
    ProductBound(AlignedPitchOr(l.width, l.pitch), l.height, MAX_EXTENT);
    ProductBound(l.width, l.height, MAX_EXTENT);
    MulMono(l.PaddedWidth() * l.PaddedHeight(), 0x1000_0000, l.bytes);
    PaddedSize(l);
    SlotsAreDistinct(l, x, y, x, y);
    if l.Slot(x, y) >= 0x1000_0000 {
      MulMono(0x1000_0000 + 1, l.Slot(x, y) + 1, l.bytes);
    }
  }

  lemma PaddedSize(l: Layout)
    requires l.Supported()
    ensures l.TiledSize() == l.PaddedWidth() * l.PaddedHeight() * l.bytes
  {
    var tiles, rows := DivCeil(l.width, 8), DivCeil(l.height, 8);
    assert tiles * 8 * (rows * 8) == tiles * rows * 64;
  }

  lemma ProductBound(a: nat, b: nat, m: nat)
    requires a <= m && b <= m
    ensures a * b <= m * m
  {
    MulMono(a, m, b);
    MulMono(b, m, m);
  }

  // ---- the upload path: detile and tile -----------------------------------------------------

  datatype TileResult = Ok(data: seq<u8>) | ShortBuffer(got: nat, expected: nat)

  // Byte for byte over the first `n` bytes of the row-major view, `linear` is what `tiled` stores.
  ghost predicate Gathered(linear: seq<u8>, tiled: seq<u8>, l: Layout, n: nat) {
    && n <= |linear|
    && forall i :: 0 <= i < n ==> l.SourceOf(i) < |tiled| && linear[i] == tiled[l.SourceOf(i)]
  }

  // Bytes of the stored surface that no texel covers are zero.
  ghost predicate PaddingIsZero(tiled: seq<u8>, l: Layout) {
    forall p :: 0 <= p < |tiled| && tiled[p] != 0 ==> exists i :: 0 <= i < l.LinearSize() && l.SourceOf(i) == p
  }

  // The row-major byte `b` of texel (x, y), and where it is stored.
  lemma {:induction false} SourceOfTexel(l: Layout, x: nat, y: nat, b: nat)
    requires l.Supported() && x < l.width && y < l.height && b < l.bytes
    ensures l.RowMajor(x, y) + b < l.LinearSize()
    ensures l.SourceOf(l.RowMajor(x, y) + b) == l.Offset(x, y) + b
  {
    DivModUnique(y * l.width + x, b, l.bytes);
    DivModUnique(y, x, l.width);
    GridBound(y, x, l.height, l.width);
    MulMono(y * l.width + x + 1, l.width * l.height, l.bytes);
  }

  // Every row-major byte belongs to a texel of the extent.
  lemma TexelOfByte(l: Layout, i: nat) returns (x: nat, y: nat, b: nat)
    requires l.Supported() && i < l.LinearSize()
    ensures x < l.width && y < l.height && b < l.bytes
    ensures i == l.RowMajor(x, y) + b
    ensures l.SourceOf(i) == l.Offset(x, y) + b
  {
    QuotientBelow(i, l.width * l.height, l.bytes);
    var texel := i / l.bytes;
    assert l.width > 0;
    QuotientBelow(texel, l.height, l.width);
    x, y, b := texel % l.width, texel / l.width, i % l.bytes;
  }

  // Two row-major bytes are never stored in one place, and each is inside the stored surface.
  lemma {:induction false} SourceInjects(l: Layout, i: nat, j: nat)
    requires l.Supported() && i < l.LinearSize() && j < l.LinearSize()
    ensures l.SourceOf(i) < l.TiledSize()
    ensures l.SourceOf(i) == l.SourceOf(j) ==> i == j
  {
    var x, y, b := TexelOfByte(l, i);
    var x', y', b' := TexelOfByte(l, j);
    hide Layout.SourceOf, Layout.Offset, Layout.TiledSize, Layout.LinearSize;
    hide Layout.RowMajor;
    TexelInSurface(l, x, y);
    if (x, y) != (x', y') { TilingNeverAliases(l, x, y, x', y'); }
  }

  lemma TexelInSurface(l: Layout, x: nat, y: nat)
    requires l.Supported() && x < l.width && y < l.height
    ensures l.Offset(x, y) + l.bytes <= l.TiledSize()
  {
    SlotsAreDistinct(l, x, y, x, y);
    hide Layout.Slot, Layout.TiledSize;
    assert (l.Slot(x, y) + 1) * l.bytes == l.Slot(x, y) * l.bytes + l.bytes;
  }

  // A run of row-major bytes that the layout stores contiguously.
  ghost predicate Contiguous(l: Layout, dst: nat, src: nat, n: nat) {
    forall i :: dst <= i < dst + n ==> l.SourceOf(i) == src + (i - dst)
  }

  lemma {:induction false} TexelIsContiguous(l: Layout, x: nat, y: nat)
    requires l.Supported() && x < l.width && y < l.height
    ensures Contiguous(l, l.RowMajor(x, y), l.Offset(x, y), l.bytes)
    ensures l.RowMajor(x, y) + l.bytes <= l.LinearSize()
    ensures l.Offset(x, y) + l.bytes <= l.TiledSize()
  {
    hide Layout.SourceOf, Layout.Offset, Layout.TiledSize, Layout.LinearSize;
    var dst := l.RowMajor(x, y);
    forall i | dst <= i < dst + l.bytes ensures l.SourceOf(i) == l.Offset(x, y) + (i - dst) {
      SourceOfTexel(l, x, y, i - dst);
    }
    SourceOfTexel(l, x, y, l.bytes - 1);
    SourceInjects(l, dst + l.bytes - 1, dst);
  }

  // A linear-aligned row is stored whole.
  lemma {:induction false} RowIsContiguous(l: Layout, y: nat)
    requires l.Supported() && l.kind.LinearAligned? && y < l.height
    ensures Contiguous(l, y * (l.width * l.bytes), l.Offset(0, y), l.width * l.bytes)
    ensures y * (l.width * l.bytes) + l.width * l.bytes <= l.LinearSize()
    ensures l.Offset(0, y) + l.width * l.bytes <= l.TiledSize()
  {
    var row := l.width * l.bytes;
    hide AlignedPitchOr;
    RowFits(l, y);
    hide Layout.TiledSize;
    forall i | y * row <= i < y * row + row ensures l.SourceOf(i) == l.Offset(0, y) + (i - y * row) {
      ByteOfRow(l, y, i);
    }
  }

  lemma RowFits(l: Layout, y: nat)
    requires l.Supported() && l.kind.LinearAligned? && y < l.height
    ensures y * (l.width * l.bytes) + l.width * l.bytes <= l.LinearSize()
    ensures l.Offset(0, y) + l.width * l.bytes <= l.TiledSize()
  {
    var row, pitch := l.width * l.bytes, AlignedPitchOr(l.width, l.pitch);
    PitchCoversWidth(l.width, l.pitch);
    hide AlignedPitchOr;
    MulMono(y + 1, l.height, row);
    assert l.LinearSize() == l.height * row;
    MulMono(y + 1, l.height, pitch);
    MulMono(l.width, pitch, l.bytes);
    MulMono((y + 1) * pitch, l.height * pitch, l.bytes);
    assert (y + 1) * pitch * l.bytes == y * pitch * l.bytes + pitch * l.bytes;
  }

  lemma ByteOfRow(l: Layout, y: nat, i: nat)
    requires l.Supported() && l.kind.LinearAligned? && y < l.height && i < l.LinearSize()
    requires y * (l.width * l.bytes) <= i < y * (l.width * l.bytes) + l.width * l.bytes
    ensures l.SourceOf(i) == l.Offset(0, y) + (i - y * (l.width * l.bytes))
  {
    hide Layout.SourceOf, Layout.TiledSize, Layout.LinearSize, Layout.Offset;
    var row := l.width * l.bytes;
    var x, y', b := TexelOfByte(l, i);
    Distribute(y' , l.width, x, l.bytes);
    GridBound(x, b, l.width, l.bytes);
    OneQuotient(y, i - y * row, y', x * l.bytes + b, row);
    OffsetInRow(l, x, y);
  }

  lemma OffsetInRow(l: Layout, x: nat, y: nat)
    requires l.kind.LinearAligned?
    ensures l.Offset(x, y) == l.Offset(0, y) + x * l.bytes
  {
    hide AlignedPitchOr;
    Distribute(y, AlignedPitchOr(l.width, l.pitch), x, l.bytes);
    Distribute(y, AlignedPitchOr(l.width, l.pitch), 0, l.bytes);
  }

  lemma Distribute(y: nat, stride: nat, x: nat, bytes: nat)
    ensures (y * stride + x) * bytes == y * (stride * bytes) + x * bytes
  {
  }

  // One `copy_from_slice` of a contiguous run extends what has been gathered.
  lemma GatherRun(before: seq<u8>, after: seq<u8>, tiled: seq<u8>, l: Layout, dst: nat, src: nat, n: nat)
    requires Gathered(before, tiled, l, dst) && Contiguous(l, dst, src, n)
    requires |after| == |before| && dst + n <= |after| && src + n <= |tiled|
    requires after == before[..dst] + tiled[src..src + n] + before[dst + n..]
    ensures Gathered(after, tiled, l, dst + n)
  {
    forall i | 0 <= i < dst + n ensures l.SourceOf(i) < |tiled| && after[i] == tiled[l.SourceOf(i)] {
    }
  }

  // One `copy_from_slice` in the other direction.
  lemma {:induction false} ScatterRun(linear: seq<u8>, before: seq<u8>, after: seq<u8>, l: Layout,
                                      dst: nat, src: nat, n: nat)
    requires l.Supported() && |linear| >= l.LinearSize() && |before| == |after| == l.TiledSize()
    requires Gathered(linear, before, l, src) && PaddingIsZero(before, l) && Contiguous(l, src, dst, n)
    requires src + n <= l.LinearSize() && dst + n <= |after|
    requires after == before[..dst] + linear[src..src + n] + before[dst + n..]
    ensures Gathered(linear, after, l, src + n) && PaddingIsZero(after, l)
  {
    hide Layout.SourceOf, Layout.TiledSize, Layout.LinearSize;
    forall i | 0 <= i < src + n ensures l.SourceOf(i) < |after| && linear[i] == after[l.SourceOf(i)] {
      SourceInjects(l, i, i);
      if i < src {
        if dst <= l.SourceOf(i) < dst + n {
          var j := src + (l.SourceOf(i) - dst);
          SourceInjects(l, i, j);
        }
      }
    }
    forall p | 0 <= p < |after| && after[p] != 0 ensures exists i :: 0 <= i < l.LinearSize() && l.SourceOf(i) == p {
      if dst <= p < dst + n {
        assert l.SourceOf(src + (p - dst)) == p;
      } else {
        assert after[p] == before[p];
      }
    }
  }

  // ---- where the bytes are, said without the layout's own functions ---------------------------

  // Index 0 is linear, 1 to 7 micro-tiled, 8 linear-aligned, and the rest have no detiler.
  lemma KindByIndex(tilingIndex: u8)
    ensures KindOf(tilingIndex).Linear? <==> tilingIndex == 0
    ensures KindOf(tilingIndex).Thin1d? <==> 1 <= tilingIndex <= 7
    ensures KindOf(tilingIndex).LinearAligned? <==> tilingIndex == 8
    ensures KindOf(tilingIndex).Macro2d? <==> tilingIndex >= 9
  {
  }

  // The row stride in texels: the decoded pitch, or where that is too narrow the least multiple of 64
  // that holds a row.
  predicate IsStride(width: nat, pitch: nat, s: nat) {
    if pitch >= width then s == pitch else s % 64 == 0 && width <= s < width + 64
  }

  // The least number of 8-texel columns that holds a row.
  predicate IsColumns(width: nat, c: nat) { width <= 8 * c < width + 8 }

  // Byte `b` of the texel in column `col` of row `row`, when rows are `stride` texels of `bytes` bytes.
  function ByteAt(row: nat, stride: nat, col: nat, bytes: nat, b: nat): nat {
    (row * stride + col) * bytes + b
  }

  // The texel's place in its 8x8 tile: its low coordinate bits, interleaved.
  function Morton(x: nat, y: nat): nat {
    x % 2 + 2 * (y % 2) + 4 * (x / 2 % 2) + 8 * (y / 2 % 2) + 16 * (x / 4 % 2) + 32 * (y / 4 % 2)
  }

  // Byte `b` of texel (x, y) is stored at `at`.
  ghost predicate StoredAt(l: Layout, x: nat, y: nat, b: nat, at: nat) {
    match l.kind
    case Linear => at == ByteAt(y, l.width, x, l.bytes, b)
    case LinearAligned => exists s: nat :: IsStride(l.width, l.pitch, s) && at == ByteAt(y, s, x, l.bytes, b)
    case Thin1d =>
      exists c: nat :: IsColumns(l.width, c) && at == ByteAt(y / 8 * c + x / 8, 64, Morton(x, y), l.bytes, b)
    case Macro2d => false
  }

  // `linear` holds every texel's bytes in row-major order, as `tiled` stores them.
  ghost predicate SameTexels(linear: seq<u8>, tiled: seq<u8>, l: Layout) {
    forall x: nat, y: nat, b: nat, at: nat :: x < l.width && y < l.height && b < l.bytes && StoredAt(l, x, y, b, at) ==>
      at < |tiled| && ByteAt(y, l.width, x, l.bytes, b) < |linear| && linear[ByteAt(y, l.width, x, l.bytes, b)] == tiled[at]
  }

  // Bytes no texel is stored at are zero.
  ghost predicate BlankElsewhere(tiled: seq<u8>, l: Layout) {
    forall at: nat :: at < |tiled| && tiled[at] != 0 ==>
      exists x: nat, y: nat, b: nat :: x < l.width && y < l.height && b < l.bytes && StoredAt(l, x, y, b, at)
  }

  ghost predicate StoredSize(l: Layout, size: nat) {
    match l.kind
    case Linear => size == l.width * l.height * l.bytes
    case LinearAligned => exists s: nat :: IsStride(l.width, l.pitch, s) && size == s * l.height * l.bytes
    case Thin1d => exists c: nat, r: nat :: IsColumns(l.width, c) && IsColumns(l.height, r) && size == c * r * 64 * l.bytes
    case Macro2d => false
  }

  lemma OneStride(width: nat, pitch: nat, s: nat)
    ensures IsStride(width, pitch, s) <==> s == AlignedPitchOr(width, pitch)
  {
    var a, b := s / 64, DivCeil(width, 64);
    if s % 64 == 0 && width <= s < width + 64 {
      Multiples(a, b, width);
    }
  }

  // Two multiples of 64 in the same span of 64 are one.
  lemma Multiples(a: nat, b: nat, width: nat)
    requires width <= a * 64 < width + 64 && width <= b * 64 < width + 64
    ensures a == b
  {
  }

  lemma OneColumns(width: nat, c: nat)
    ensures IsColumns(width, c) <==> c == DivCeil(width, 8)
  {
    var d := DivCeil(width, 8);
    if c < d { MulMono(c + 1, d, 8); }
    if d < c { MulMono(d + 1, c, 8); }
  }

  lemma MortonIs(x: nat, y: nat)
    ensures MicroTileIndex(x, y) == Morton(x, y)
  {
    LowOfRemainder(x);
    LowOfRemainder(y);
  }

  lemma LowOfRemainder(n: nat)
    ensures n % 8 % 2 == n % 2 && n % 8 / 2 % 2 == n / 2 % 2 && n % 8 / 4 % 2 == n / 4 % 2
  {
    var q, r := n / 8, n % 8;
    assert n == 8 * q + r;
    assert n / 2 == 4 * q + r / 2 && n / 4 == 2 * q + r / 4;
  }

  lemma RowMajorIs(l: Layout, x: nat, y: nat, b: nat)
    ensures l.RowMajor(x, y) + b == ByteAt(y, l.width, x, l.bytes, b)
  {
  }

  lemma OffsetIs(l: Layout, x: nat, y: nat, b: nat)
    ensures l.kind.Linear? ==> l.Offset(x, y) + b == ByteAt(y, l.width, x, l.bytes, b)
    ensures l.kind.LinearAligned? ==> l.Offset(x, y) + b == ByteAt(y, AlignedPitchOr(l.width, l.pitch), x, l.bytes, b)
    ensures l.kind.Thin1d? ==>
              l.Offset(x, y) + b == ByteAt(y / 8 * DivCeil(l.width, 8) + x / 8, 64, Morton(x, y), l.bytes, b)
  {
    MortonIs(x, y);
    hide AlignedPitchOr, MicroTileIndex, DivCeil, Morton;
  }

  // That relation places a byte where the layout's offset does.
  lemma StoredIff(l: Layout, x: nat, y: nat, b: nat, at: nat)
    ensures l.kind != Macro2d ==> (StoredAt(l, x, y, b, at) <==> at == l.Offset(x, y) + b)
  {
    OffsetIs(l, x, y, b);
    hide AlignedPitchOr, DivCeil, IsStride, IsColumns, ByteAt, Morton, Layout.Offset;
    forall t: nat ensures IsStride(l.width, l.pitch, t) <==> t == AlignedPitchOr(l.width, l.pitch) {
      OneStride(l.width, l.pitch, t);
    }
    forall t: nat ensures IsColumns(l.width, t) <==> t == DivCeil(l.width, 8) { OneColumns(l.width, t); }
    assert IsStride(l.width, l.pitch, AlignedPitchOr(l.width, l.pitch)) && IsColumns(l.width, DivCeil(l.width, 8));
  }

  lemma SizeIs(l: Layout)
    requires l.kind != Macro2d
    ensures StoredSize(l, l.TiledSize())
  {
    OneStride(l.width, l.pitch, AlignedPitchOr(l.width, l.pitch));
    OneColumns(l.width, DivCeil(l.width, 8));
    OneColumns(l.height, DivCeil(l.height, 8));
    hide AlignedPitchOr, DivCeil, IsStride, IsColumns;
  }

  lemma GatheredTexels(linear: seq<u8>, tiled: seq<u8>, l: Layout)
    requires l.Supported() && Gathered(linear, tiled, l, l.LinearSize())
    ensures SameTexels(linear, tiled, l)
  {
    hide Layout.SourceOf, Layout.Offset, Layout.LinearSize, Layout.RowMajor, StoredAt, ByteAt;
    forall x: nat, y: nat, b: nat, at: nat | x < l.width && y < l.height && b < l.bytes && StoredAt(l, x, y, b, at)
      ensures at < |tiled| && ByteAt(y, l.width, x, l.bytes, b) < |linear|
              && linear[ByteAt(y, l.width, x, l.bytes, b)] == tiled[at]
    {
      StoredIff(l, x, y, b, at);
      SourceOfTexel(l, x, y, b);
      RowMajorIs(l, x, y, b);
      assert linear[l.RowMajor(x, y) + b] == tiled[l.SourceOf(l.RowMajor(x, y) + b)];
    }
  }

  lemma BlankPadding(tiled: seq<u8>, l: Layout)
    requires l.Supported() && PaddingIsZero(tiled, l)
    ensures BlankElsewhere(tiled, l)
  {
    hide Layout.SourceOf, Layout.Offset, Layout.LinearSize, StoredAt;
    forall at: nat | at < |tiled| && tiled[at] != 0
      ensures exists x: nat, y: nat, b: nat :: x < l.width && y < l.height && b < l.bytes && StoredAt(l, x, y, b, at)
    {
      var i :| 0 <= i < l.LinearSize() && l.SourceOf(i) == at;
      var x, y, b := TexelOfByte(l, i);
      StoredIff(l, x, y, b, at);
    }
  }

  // `out[dst..dst + n].copy_from_slice(&data[src..src + n])`
  method CopyRun(data: seq<u8>, src: nat, out: array<u8>, dst: nat, n: nat)
    requires src + n <= |data| && dst + n <= out.Length
    modifies out
    ensures out[..] == old(out[..dst]) + data[src..src + n] + old(out[dst + n..])
  {
    forall i | 0 <= i < n { out[dst + i] := data[src + i]; }
  }

  method Detile(tiled: seq<u8>, l: Layout) returns (r: TileResult)
    requires l.Supported()
    ensures r.ShortBuffer? <==> |tiled| < l.TiledSize()
    ensures r.ShortBuffer? ==> r == ShortBuffer(|tiled|, l.TiledSize())
    ensures r.ShortBuffer? ==> StoredSize(l, r.expected)
    ensures r.Ok? ==> |r.data| == l.LinearSize() && Gathered(r.data, tiled, l, l.LinearSize())
    ensures r.Ok? ==> SameTexels(r.data, tiled, l)
  {
    hide Layout.SourceOf, Layout.TiledSize, Layout.LinearSize, Layout.Offset, SameTexels, StoredSize;
    SizeIs(l);
    var need := l.TiledSize();
    if |tiled| < need {
      return ShortBuffer(|tiled|, need);
    }
    if l.kind.Linear? {
      LinearIsIdentity(l);
      GatheredTexels(tiled[..need], tiled, l);
      return Ok(tiled[..need]);
    }
    var linear := new u8[l.LinearSize()](_ => 0);
    if l.kind.LinearAligned? {
      GatherRows(tiled, linear, l);
    } else {
      GatherTexels(tiled, linear, l);
    }
    GatheredTexels(linear[..], tiled, l);
    r := Ok(linear[..]);
  }

  method GatherRows(tiled: seq<u8>, linear: array<u8>, l: Layout)
    requires l.Supported() && l.kind.LinearAligned?
    requires linear.Length == l.LinearSize() && |tiled| >= l.TiledSize()
    modifies linear
    ensures Gathered(linear[..], tiled, l, l.LinearSize())
  {
    hide Layout.SourceOf, Layout.TiledSize, Layout.LinearSize, Layout.Offset;
    var row := l.width * l.bytes;
    var y := 0;
    while y < l.height
      invariant 0 <= y <= l.height
      invariant Gathered(linear[..], tiled, l, y * row)
    {
      var src, dst := l.Offset(0, y), y * row;
      RowIsContiguous(l, y);
      ghost var before := linear[..];
      CopyRun(tiled, src, linear, dst, row);
      GatherRun(before, linear[..], tiled, l, dst, src, row);
      assert dst + row == (y + 1) * row;
      y := y + 1;
    }
    SizeByRows(l);
  }

  method GatherTexels(tiled: seq<u8>, linear: array<u8>, l: Layout)
    requires l.Supported() && linear.Length == l.LinearSize() && |tiled| >= l.TiledSize()
    modifies linear
    ensures Gathered(linear[..], tiled, l, l.LinearSize())
  {
    hide Layout.SourceOf, Layout.TiledSize, Layout.LinearSize, Layout.Offset, Gathered;
    NothingGathered(linear[..], tiled, l);
    assert l.RowMajor(0, 0) == 0;
    hide Layout.RowMajor;
    for y := 0 to l.height
      invariant Gathered(linear[..], tiled, l, l.RowMajor(0, y))
    {
      for x := 0 to l.width
        invariant Gathered(linear[..], tiled, l, l.RowMajor(x, y))
      {
        var src, dst := l.Offset(x, y), l.RowMajor(x, y);
        TexelIsContiguous(l, x, y);
        ghost var before := linear[..];
        CopyRun(tiled, src, linear, dst, l.bytes);
        GatherRun(before, linear[..], tiled, l, dst, src, l.bytes);
        NextTexel(l, x, y);
      }
      NextRow(l, y);
    }
    SizeByRows(l);
  }

  lemma NothingGathered(linear: seq<u8>, tiled: seq<u8>, l: Layout)
    ensures Gathered(linear, tiled, l, 0)
  {
  }

  lemma NextTexel(l: Layout, x: nat, y: nat)
    ensures l.RowMajor(x, y) + l.bytes == l.RowMajor(x + 1, y)
  {
  }

  lemma NextRow(l: Layout, y: nat)
    ensures l.RowMajor(l.width, y) == l.RowMajor(0, y + 1)
  {
    assert y * l.width + l.width == (y + 1) * l.width;
  }

  lemma SizeByRows(l: Layout)
    ensures l.height * (l.width * l.bytes) == l.LinearSize() == l.RowMajor(0, l.height)
  {
  }

  lemma LinearIsIdentity(l: Layout)
    requires l.Supported() && l.kind.Linear?
    ensures l.TiledSize() == l.LinearSize()
    ensures forall i :: 0 <= i < l.LinearSize() ==> l.SourceOf(i) == i
  {
    forall i | 0 <= i < l.LinearSize() ensures l.SourceOf(i) == i {
      var x, y, b := TexelOfByte(l, i);
    }
  }

  method Tile(linear: seq<u8>, l: Layout) returns (r: TileResult)
    requires l.Supported()
    ensures r.ShortBuffer? <==> |linear| < l.LinearSize()
    ensures r.ShortBuffer? ==> r == ShortBuffer(|linear|, l.LinearSize())
    ensures r.Ok? ==> |r.data| == l.TiledSize() && Gathered(linear, r.data, l, l.LinearSize())
                      && PaddingIsZero(r.data, l)
    ensures r.Ok? ==> StoredSize(l, |r.data|) && SameTexels(linear, r.data, l) && BlankElsewhere(r.data, l)
  {
    hide Layout.SourceOf, Layout.TiledSize, Layout.LinearSize, Layout.Offset, SameTexels, BlankElsewhere, StoredSize;
    SizeIs(l);
    var need := l.LinearSize();
    if |linear| < need {
      return ShortBuffer(|linear|, need);
    }
    if l.kind.Linear? {
      LinearIsIdentity(l);
      GatheredTexels(linear, linear[..need], l);
      BlankPadding(linear[..need], l);
      return Ok(linear[..need]);
    }
    var tiled := new u8[l.TiledSize()](_ => 0);
    if l.kind.LinearAligned? {
      ScatterRows(linear, tiled, l);
    } else {
      ScatterTexels(linear, tiled, l);
    }
    GatheredTexels(linear, tiled[..], l);
    BlankPadding(tiled[..], l);
    r := Ok(tiled[..]);
  }

  method ScatterRows(linear: seq<u8>, tiled: array<u8>, l: Layout)
    requires l.Supported() && l.kind.LinearAligned?
    requires |linear| >= l.LinearSize() && tiled.Length == l.TiledSize()
    requires forall p :: 0 <= p < tiled.Length ==> tiled[p] == 0
    modifies tiled
    ensures Gathered(linear, tiled[..], l, l.LinearSize()) && PaddingIsZero(tiled[..], l)
  {
    hide Layout.SourceOf, Layout.TiledSize, Layout.LinearSize, Layout.Offset;
    var row := l.width * l.bytes;
    assert PaddingIsZero(tiled[..], l);
    NothingGathered(linear, tiled[..], l);
    hide Gathered, PaddingIsZero;
    for y := 0 to l.height
      invariant Gathered(linear, tiled[..], l, y * row) && PaddingIsZero(tiled[..], l)
    {
      var src, dst := y * row, l.Offset(0, y);
      RowIsContiguous(l, y);
      ghost var before := tiled[..];
      CopyRun(linear, src, tiled, dst, row);
      ScatterRun(linear, before, tiled[..], l, dst, src, row);
      assert src + row == (y + 1) * row;
    }
    SizeByRows(l);
  }

  method ScatterTexels(linear: seq<u8>, tiled: array<u8>, l: Layout)
    requires l.Supported() && |linear| >= l.LinearSize() && tiled.Length == l.TiledSize()
    requires forall p :: 0 <= p < tiled.Length ==> tiled[p] == 0
    modifies tiled
    ensures Gathered(linear, tiled[..], l, l.LinearSize()) && PaddingIsZero(tiled[..], l)
  {
    hide Layout.SourceOf, Layout.TiledSize, Layout.LinearSize, Layout.Offset;
    assert PaddingIsZero(tiled[..], l);
    NothingGathered(linear, tiled[..], l);
    assert l.RowMajor(0, 0) == 0;
    hide Layout.RowMajor, Gathered, PaddingIsZero;
    for y := 0 to l.height
      invariant Gathered(linear, tiled[..], l, l.RowMajor(0, y)) && PaddingIsZero(tiled[..], l)
    {
      for x := 0 to l.width
        invariant Gathered(linear, tiled[..], l, l.RowMajor(x, y)) && PaddingIsZero(tiled[..], l)
      {
        var src, dst := l.RowMajor(x, y), l.Offset(x, y);
        TexelIsContiguous(l, x, y);
        ghost var before := tiled[..];
        CopyRun(linear, src, tiled, dst, l.bytes);
        ScatterRun(linear, before, tiled[..], l, dst, src, l.bytes);
        NextTexel(l, x, y);
      }
      NextRow(l, y);
    }
    SizeByRows(l);
  }

  lemma {:induction false} OneRowMajorForm(linear: seq<u8>, tiled: seq<u8>, back: seq<u8>, l: Layout)
    requires l.Supported() && |linear| >= l.LinearSize() && |back| == l.LinearSize()
    requires Gathered(linear, tiled, l, l.LinearSize()) && Gathered(back, tiled, l, l.LinearSize())
    ensures back == linear[..l.LinearSize()]
  {
    hide Layout.SourceOf, Layout.LinearSize;
    forall i | 0 <= i < |back| ensures back[i] == linear[i] {
      assert l.SourceOf(i) < |tiled|;
    }
  }

  lemma {:induction false} OneStoredForm(tiled: seq<u8>, linear: seq<u8>, back: seq<u8>, l: Layout)
    requires l.Supported() && |tiled| == |back| == l.TiledSize() && |linear| == l.LinearSize()
    requires Gathered(linear, tiled, l, l.LinearSize()) && Gathered(linear, back, l, l.LinearSize())
    requires PaddingIsZero(back, l) && PaddingIsZero(tiled, l)
    ensures back == tiled
  {
    hide Layout.SourceOf, Layout.LinearSize, Layout.TiledSize;
    forall p | 0 <= p < |back| ensures back[p] == tiled[p] {
      if back[p] != 0 || tiled[p] != 0 {
        var i :| 0 <= i < l.LinearSize() && l.SourceOf(i) == p;
        assert back[l.SourceOf(i)] == linear[i] == tiled[l.SourceOf(i)];
      }
    }
  }

  // Detiling what tiling stored gives back the surface.
  method TilingRoundTrip(linear: seq<u8>, l: Layout) returns (back: TileResult)
    requires l.Supported()
    ensures |linear| >= l.LinearSize() ==> back == Ok(linear[..l.LinearSize()])
    ensures |linear| < l.LinearSize() ==> back == ShortBuffer(|linear|, l.LinearSize())
  {
    hide Layout.SourceOf, Layout.LinearSize, Layout.TiledSize, Gathered, PaddingIsZero;
    var stored := Tile(linear, l);
    if stored.ShortBuffer? {
      return stored;
    }
    back := Detile(stored.data, l);
    OneRowMajorForm(linear, stored.data, back.data, l);
  }

  // Tiling what detiling read gives back every texel's bytes; it gives back the whole stored surface
  // exactly when its padding was zero.
  method DetilingRoundTrip(tiled: seq<u8>, l: Layout) returns (back: TileResult)
    requires l.Supported()
    ensures |tiled| < l.TiledSize() ==> back == ShortBuffer(|tiled|, l.TiledSize())
    ensures |tiled| >= l.TiledSize() ==>
      && back.Ok? && |back.data| == l.TiledSize()
      && (forall i :: 0 <= i < l.LinearSize() ==>
            l.SourceOf(i) < |back.data| && back.data[l.SourceOf(i)] == tiled[l.SourceOf(i)])
      && (back.data == tiled[..l.TiledSize()] <==> PaddingIsZero(tiled[..l.TiledSize()], l))
  {
    hide Layout.SourceOf, Layout.LinearSize, Layout.TiledSize;
    var linear := Detile(tiled, l);
    if linear.ShortBuffer? {
      return linear;
    }
    back := Tile(linear.data, l);
    ghost var stored := tiled[..l.TiledSize()];
    forall i | 0 <= i < l.LinearSize()
      ensures l.SourceOf(i) < |stored| && linear.data[i] == stored[l.SourceOf(i)]
    {
      SourceInjects(l, i, i);
    }
    assert Gathered(linear.data, stored, l, l.LinearSize());
    if PaddingIsZero(stored, l) {
      OneStoredForm(stored, linear.data, back.data, l);
    }
  }

  // ---- the sampling oracle ------------------------------------------------------------------

  // Repeat addressing: the source's `rem_euclid` of a signed coordinate.
  function Wrap(coord: int, extent: nat): (c: nat)
    requires extent > 0
    ensures c < extent
  {
    coord % extent
  }

  // The surface repeats in both directions, at negative coordinates too.
  lemma {:induction false} WrapRepeats(c: nat, k: int, extent: nat)
    requires c < extent
    ensures Wrap(k * extent + c, extent) == c
  {
    var n := k * extent + c;
    assert n == n / extent * extent + n % extent;
    OneQuotient(k, c, n / extent, n % extent, extent);
  }

  lemma WrapIs(coord: int, extent: nat)
    requires extent > 0
    ensures Wrap(coord, extent) == coord % extent
  {
  }

  // A descriptor's surface, as the 32-bit-per-texel sampler sees it.
  function Surface(tilingIndex: u8, width: nat, height: nat, pitch: nat): Layout {
    Layout(KindOf(tilingIndex), width, height, pitch, 4)
  }

  // The byte offset the oracle loads for a texel coordinate; `None` when it has no detiler.
  function OracleOffset(tilingIndex: u8, width: nat, height: nat, pitch: nat, x: int, y: int): Option<nat>
    requires width > 0 && height > 0
  {
    var l := Surface(tilingIndex, width, height, pitch);
    if l.kind == Macro2d then None else Some(l.Offset(Wrap(x, width), Wrap(y, height)))
  }

  // The oracle defers exactly the macro-tiled indices. For the others, and any coordinate however
  // far outside, its load stays inside the stored surface and reads exactly the bytes the upload
  // put at the wrapped texel of the row-major copy.
  lemma {:induction false} OracleReadsWhatUploadDetiles(tilingIndex: u8, width: nat, height: nat, pitch: nat,
                                                        x: int, y: int, tiled: seq<u8>, linear: seq<u8>)
    returns (off: nat, dst: nat)
    requires width > 0 && height > 0
    requires var l := Surface(tilingIndex, width, height, pitch);
             |tiled| >= l.TiledSize() && |linear| == l.LinearSize()
             && (l.Supported() ==> Gathered(linear, tiled, l, l.LinearSize()))
    ensures OracleOffset(tilingIndex, width, height, pitch, x, y).Some? <==> tilingIndex <= 8
    ensures var l := Surface(tilingIndex, width, height, pitch);
            tilingIndex <= 8 ==>
              && OracleOffset(tilingIndex, width, height, pitch, x, y) == Some(off) && off + 4 <= l.TiledSize()
              && dst == l.RowMajor(Wrap(x, width), Wrap(y, height)) && dst + 4 <= |linear|
              && linear[dst..dst + 4] == tiled[off..off + 4]
              && StoredAt(l, x % width, y % height, 0, off)
  {
    var l := Surface(tilingIndex, width, height, pitch);
    var wx, wy := Wrap(x, width), Wrap(y, height);
    hide Layout.SourceOf, Layout.TiledSize, Layout.LinearSize, Layout.Offset, Layout.RowMajor, Wrap;
    off, dst := l.Offset(wx, wy), l.RowMajor(wx, wy);
    if l.Supported() {
      StoredIff(l, wx, wy, 0, off);
      WrapIs(x, width);
      WrapIs(y, height);
      hide StoredAt;
      TexelIsContiguous(l, wx, wy);
      RunIsCopied(linear, tiled, l, dst, off, 4);
    }
  }

  lemma RunIsCopied(linear: seq<u8>, tiled: seq<u8>, l: Layout, dst: nat, src: nat, n: nat)
    requires Gathered(linear, tiled, l, |linear|) && Contiguous(l, dst, src, n)
    requires dst + n <= |linear| && src + n <= |tiled|
    ensures linear[dst..dst + n] == tiled[src..src + n]
  {
    hide Layout.SourceOf;
    var run := linear[dst..dst + n];
    forall b | 0 <= b < n ensures run[b] == tiled[src..src + n][b] {
      assert linear[dst + b] == tiled[l.SourceOf(dst + b)];
    }
  }
}
