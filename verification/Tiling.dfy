/** Addresses of 32x32-tiled NV12 planes as the de-tiling shader computes them
    (src/video/egl.c), against a frame laid out in tiles. */
module Tiling {
  import opened Arith

  /** Tiles per row, as egl_draw_dmabuf passes it to the shader. */
  function TilesPerRow(frameWidth: nat): nat { (frameWidth + 31) / 32 }

  /** Shader function tiled_offset: byte column bc and row br of a plane.  The shader's shifts and
      masks on non-negative ints are these quotients and remainders. */
  function TiledOffset(tpr: nat, bc: nat, br: nat): nat
  {
    var band := br / 32;
    var trow := br % 32;
    var tx := bc / 32;
    var col := bc % 32;
    band * (tpr * 1024) + tx * 1024 + trow * 32 + col
  }

  /** The dma-buf as the shader sees it: a one-byte texture `pitch` wide. */
  datatype Buffer = Buffer(bytes: seq<int>, pitch: nat)
  {
    /** tex_height in egl_draw_dmabuf: ceil(size / pitch). */
    function Rows(): nat
      requires pitch > 0
    {
      (|bytes| + pitch - 1) / pitch
    }

    /** texelFetch at column c, row r; texels past the end of the buffer have no byte. */
    function Texel(c: nat, r: nat): int
      requires pitch > 0 && c < pitch && r < Rows() && r * pitch + c < |bytes|
    {
      bytes[r * pitch + c]
    }

    /** Shader function fetch_addr. */
    function FetchAddr(addr: nat): int
      requires pitch > 0 && addr < |bytes|
    {
      TexelInside(addr);
      Texel(addr % pitch, addr / pitch)
    }

    /** Every address inside the buffer falls on a texel of the texture, and on its own byte. */
    lemma TexelInside(addr: nat)
      requires pitch > 0 && addr < |bytes|
      ensures addr % pitch < pitch && addr / pitch < Rows()
      ensures (addr / pitch) * pitch + addr % pitch == addr
    {
      var r := addr / pitch;
      assert r * pitch + addr % pitch == addr;
      var size := |bytes|;
      DivMonotone(addr + pitch, size + pitch - 1, pitch);
      DivModUnique(r + 1, addr % pitch, pitch);
      assert (r + 1) * pitch == r * pitch + pitch;
    }
  }

  // ---------------------------------------------------------------------------------------
  // The address map of one plane

  /** Rows of tiles a plane of `rows` rows takes. */
  function Bands(rows: nat): nat { (rows + 31) / 32 }

  /** Bytes of a plane in whole tiles. */
  function PlaneSize(tpr: nat, rows: nat): nat { Bands(rows) * (tpr * 1024) }

  /** The byte column and row stored at an address of a tiled plane: tiles of 1024 bytes run
      along a row of tiles, and bytes along the rows of a tile. */
  function Column(tpr: nat, addr: nat): nat
    requires tpr > 0
  {
    addr / 1024 % tpr * 32 + addr % 1024 % 32
  }

  function Row(tpr: nat, addr: nat): nat
    requires tpr > 0
  {
    addr / 1024 / tpr * 32 + addr % 1024 / 32
  }

  lemma OffsetParts(tpr: nat, bc: nat, br: nat)
    ensures TiledOffset(tpr, bc, br) == (br / 32 * tpr + bc / 32) * 1024 + br % 32 * 32 + bc % 32
  {
    var band, tx := br / 32, bc / 32;
    assert band * (tpr * 1024) == band * tpr * 1024;
  }

  /** Column and Row undo the address map on every column of the plane. */
  lemma OffsetInverse(tpr: nat, bc: nat, br: nat)
    requires tpr > 0 && bc < 32 * tpr
    ensures Column(tpr, TiledOffset(tpr, bc, br)) == bc
    ensures Row(tpr, TiledOffset(tpr, bc, br)) == br
  {
    OffsetParts(tpr, bc, br);
    var addr := TiledOffset(tpr, bc, br);
    var tile := br / 32 * tpr + bc / 32;
    assert addr / 1024 == tile && addr % 1024 == br % 32 * 32 + bc % 32;
    DivModUnique(br / 32, bc / 32, tpr);
  }

  /** And the address map undoes them: it reaches every address. */
  lemma InverseOffset(tpr: nat, addr: nat)
    requires tpr > 0
    ensures Column(tpr, addr) < 32 * tpr
    ensures TiledOffset(tpr, Column(tpr, addr), Row(tpr, addr)) == addr
  {
    var tile, place := addr / 1024, addr % 1024;
    var bc, br := Column(tpr, addr), Row(tpr, addr);
    assert 0 <= tile % tpr < tpr && tile / tpr * tpr + tile % tpr == tile;
    TileParts(tile % tpr, place % 32, bc);
    TileParts(tile / tpr, place / 32, br);
    OffsetParts(tpr, bc, br);
  }

  lemma TileParts(q: nat, r: nat, n: nat)
    requires r < 32 && n == q * 32 + r
    ensures n / 32 == q && n % 32 == r
  {
  }

  /** Rows of the plane stay below its size, and addresses below its size are of its rows. */
  lemma OffsetBound(tpr: nat, bc: nat, br: nat, rows: nat)
    requires tpr > 0 && bc < 32 * tpr
    ensures TiledOffset(tpr, bc, br) < PlaneSize(tpr, rows) <==> br < 32 * Bands(rows)
  {
    OffsetParts(tpr, bc, br);
    var band, bands, tile := br / 32, Bands(rows), br / 32 * tpr + bc / 32;
    assert TiledOffset(tpr, bc, br) / 1024 == tile;
    assert PlaneSize(tpr, rows) == bands * tpr * 1024;
    TileBound(tpr, bc / 32, band, bands);
    assert br < 32 * bands <==> band < bands;
  }

  lemma TileBound(tpr: nat, column: nat, band: nat, bands: nat)
    requires column < tpr
    ensures band * tpr + column < bands * tpr <==> band < bands
  {
    if band < bands {
      MulMonotone(band + 1, bands, tpr);
      assert (band + 1) * tpr == band * tpr + tpr;
    } else {
      MulMonotone(bands, band, tpr);
    }
  }

  /** The shader's address map is a bijection between the padded plane and its bytes. */
  lemma AddressMapBijective(tpr: nat, rows: nat)
    requires tpr > 0
    ensures forall bc, br, bc', br' :: 0 <= bc < 32 * tpr && 0 <= bc' < 32 * tpr && 0 <= br && 0 <= br' ==>
              TiledOffset(tpr, bc, br) == TiledOffset(tpr, bc', br') ==> bc == bc' && br == br'
    ensures forall bc, br :: 0 <= bc < 32 * tpr && 0 <= br < 32 * Bands(rows) ==>
              0 <= TiledOffset(tpr, bc, br) < PlaneSize(tpr, rows)
    ensures forall addr :: 0 <= addr < PlaneSize(tpr, rows) ==>
              Column(tpr, addr) < 32 * tpr && Row(tpr, addr) < 32 * Bands(rows) &&
              TiledOffset(tpr, Column(tpr, addr), Row(tpr, addr)) == addr
  {
    forall bc, br, bc', br' | 0 <= bc < 32 * tpr && 0 <= bc' < 32 * tpr && 0 <= br && 0 <= br' &&
                              TiledOffset(tpr, bc, br) == TiledOffset(tpr, bc', br')
      ensures bc == bc' && br == br'
    {
      OffsetInverse(tpr, bc, br);
      OffsetInverse(tpr, bc', br');
    }
    forall bc, br | 0 <= bc < 32 * tpr && 0 <= br < 32 * Bands(rows)
      ensures TiledOffset(tpr, bc, br) < PlaneSize(tpr, rows)
    {
      OffsetBound(tpr, bc, br, rows);
    }
    forall addr | 0 <= addr < PlaneSize(tpr, rows)
      ensures Column(tpr, addr) < 32 * tpr && Row(tpr, addr) < 32 * Bands(rows)
      ensures TiledOffset(tpr, Column(tpr, addr), Row(tpr, addr)) == addr
    {
      InverseOffset(tpr, addr);
      OffsetBound(tpr, Column(tpr, addr), Row(tpr, addr), rows);
    }
  }

  /** A row of a frame takes as many tiles as it needs and no more, and so do its rows. */
  lemma TilesNeeded(width: nat, tiles: nat)
    ensures tiles == TilesPerRow(width) <==> width <= 32 * tiles < width + 32
    ensures tiles == Bands(width) <==> width <= 32 * tiles < width + 32
  {
  }

  /** Byte column c and row r of tile tx in row ty of tiles: whole tiles of 1024 bytes, row of
      tiles after row of tiles, and rows of 32 bytes in each. */
  function TileAddress(tpr: nat, tx: nat, ty: nat, c: nat, r: nat): nat
  {
    1024 * (ty * tpr + tx) + 32 * r + c
  }

  lemma TileLayout(tpr: nat, tx: nat, ty: nat, c: nat, r: nat)
    requires tx < tpr && c < 32 && r < 32
    ensures TiledOffset(tpr, 32 * tx + c, 32 * ty + r) == TileAddress(tpr, tx, ty, c, r)
    ensures Column(tpr, TileAddress(tpr, tx, ty, c, r)) == 32 * tx + c
    ensures Row(tpr, TileAddress(tpr, tx, ty, c, r)) == 32 * ty + r
  {
    TileParts(tx, c, 32 * tx + c);
    TileParts(ty, r, 32 * ty + r);
    OffsetParts(tpr, 32 * tx + c, 32 * ty + r);
    OffsetInverse(tpr, 32 * tx + c, 32 * ty + r);
  }

  // ---------------------------------------------------------------------------------------
  // A tiled NV12 frame in the buffer, and what the shader reads from it

  /** A plane of `cols` byte columns and `rows` rows is stored in tiles from `off` on: every byte
      of the plane's tiles holds the byte of the plane that lies at its column and row. */
  ghost predicate PlaneHeld(b: Buffer, off: nat, tpr: nat, cols: nat, rows: nat, plane: (nat, nat) -> int)
    requires tpr > 0
  {
    && off + PlaneSize(tpr, rows) <= |b.bytes|
    && forall a: nat :: a < PlaneSize(tpr, rows) && Column(tpr, a) < cols && Row(tpr, a) < rows ==>
         b.bytes[off + a] == plane(Column(tpr, a), Row(tpr, a))
  }

  /** Every byte of the plane lies at its place in its tile. */
  ghost predicate InTiles(b: Buffer, off: nat, tpr: nat, cols: nat, rows: nat, plane: (nat, nat) -> int)
    requires off + PlaneSize(tpr, rows) <= |b.bytes|
  {
    forall tx: nat, ty: nat, c: nat, r: nat ::
      tx < tpr && c < 32 && r < 32 && 32 * tx + c < cols && 32 * ty + r < rows ==>
        0 <= off + TileAddress(tpr, tx, ty, c, r) < |b.bytes| &&
        b.bytes[off + TileAddress(tpr, tx, ty, c, r)] == plane(32 * tx + c, 32 * ty + r)
  }

  lemma TilesHold(b: Buffer, off: nat, tpr: nat, cols: nat, rows: nat, plane: (nat, nat) -> int, a: nat)
    requires tpr > 0 && off + PlaneSize(tpr, rows) <= |b.bytes| && InTiles(b, off, tpr, cols, rows, plane)
    requires a < PlaneSize(tpr, rows) && Column(tpr, a) < cols && Row(tpr, a) < rows
    ensures b.bytes[off + a] == plane(Column(tpr, a), Row(tpr, a))
  {
    var bc, br := Column(tpr, a), Row(tpr, a);
    InverseOffset(tpr, a);
    OffsetParts(tpr, bc, br);
    assert bc / 32 < tpr && 32 * (bc / 32) + bc % 32 == bc && 32 * (br / 32) + br % 32 == br;
    assert a == TileAddress(tpr, bc / 32, br / 32, bc % 32, br % 32);
  }

  /** A plane is held exactly when its bytes are laid out in tiles. */
  lemma HeldIffInTiles(b: Buffer, off: nat, tpr: nat, cols: nat, rows: nat, plane: (nat, nat) -> int)
    requires tpr > 0
    ensures PlaneHeld(b, off, tpr, cols, rows, plane) <==>
            off + PlaneSize(tpr, rows) <= |b.bytes| && InTiles(b, off, tpr, cols, rows, plane)
  {
    if PlaneHeld(b, off, tpr, cols, rows, plane) {
      forall tx: nat, ty: nat, c: nat, r: nat |
        tx < tpr && c < 32 && r < 32 && 32 * tx + c < cols && 32 * ty + r < rows
        ensures 0 <= off + TileAddress(tpr, tx, ty, c, r) < |b.bytes| &&
                b.bytes[off + TileAddress(tpr, tx, ty, c, r)] == plane(32 * tx + c, 32 * ty + r)
      {
        TileLayout(tpr, tx, ty, c, r);
        InsidePlane(tpr, 32 * tx + c, 32 * ty + r, rows);
      }
    }
    if off + PlaneSize(tpr, rows) <= |b.bytes| && InTiles(b, off, tpr, cols, rows, plane) {
      forall a: nat | a < PlaneSize(tpr, rows) && Column(tpr, a) < cols && Row(tpr, a) < rows
        ensures b.bytes[off + a] == plane(Column(tpr, a), Row(tpr, a))
      {
        TilesHold(b, off, tpr, cols, rows, plane, a);
      }
    }
  }

  lemma InsidePlane(tpr: nat, bc: nat, br: nat, rows: nat)
    requires bc < 32 * tpr && br < rows
    ensures TiledOffset(tpr, bc, br) < PlaneSize(tpr, rows)
  {
    OffsetBound(tpr, bc, br, rows);
  }

  /** Shader function fetch_plane. */
  function FetchPlane(b: Buffer, tpr: nat, off: nat, bc: nat, br: nat): int
    requires b.pitch > 0 && off + TiledOffset(tpr, bc, br) < |b.bytes|
  {
    b.FetchAddr(off + TiledOffset(tpr, bc, br))
  }

  /** De-tiling inverts tiling, for every texture pitch. */
  lemma FetchPlaneReads(b: Buffer, off: nat, tpr: nat, cols: nat, rows: nat, plane: (nat, nat) -> int, bc: nat, br: nat)
    requires b.pitch > 0 && tpr > 0 && PlaneHeld(b, off, tpr, cols, rows, plane)
    requires bc < cols <= 32 * tpr && br < rows
    ensures off + TiledOffset(tpr, bc, br) < |b.bytes|
    ensures FetchPlane(b, tpr, off, bc, br) == plane(bc, br)
  {
    var a := TiledOffset(tpr, bc, br);
    InsidePlane(tpr, bc, br, rows);
    OffsetInverse(tpr, bc, br);
    b.TexelInside(off + a);
  }

  /** A frame: a luma byte per pixel, a U and a V byte per two-by-two block. */
  datatype Frame = Frame(width: nat, height: nat,
                         luma: (nat, nat) -> int, u: (nat, nat) -> int, v: (nat, nat) -> int)
  {
    function ChromaRows(): nat { (height + 1) / 2 }

    function ChromaColumns(): nat { (width + 1) / 2 * 2 }

    /** The interleaved chroma plane by byte column. */
    function Chroma(): (nat, nat) -> int
    {
      (bc: nat, br: nat) => if bc % 2 == 0 then u(bc / 2, br) else v(bc / 2, br)
    }
  }

  ghost predicate FrameHeld(b: Buffer, f: Frame, uvOffset: nat)
  {
    var tpr := TilesPerRow(f.width);
    && 0 < f.width
    && PlaneSize(tpr, f.height) <= uvOffset
    && PlaneHeld(b, 0, tpr, f.width, f.height, f.luma)
    && PlaneHeld(b, uvOffset, tpr, f.ChromaColumns(), f.ChromaRows(), f.Chroma())
  }

  datatype Yuv = Yuv(y: int, u: int, v: int)

  /** The luma sample at a pixel: fetched below the chroma plane, and the pixel's own. */
  function LumaSample(b: Buffer, f: Frame, uvOffset: nat, x: nat, y: nat): (sample: int)
    requires b.pitch > 0 && x < f.width && y < f.height && FrameHeld(b, f, uvOffset)
    ensures TiledOffset(TilesPerRow(f.width), x, y) < uvOffset
    ensures sample == f.luma(x, y)
  {
    var tpr := TilesPerRow(f.width);
    ColumnsFit(f);
    FetchPlaneReads(b, 0, tpr, f.width, f.height, f.luma, x, y);
    InsidePlane(tpr, x, y, f.height);
    FetchPlane(b, tpr, 0, x, y)
  }

  /** The chroma plane is never wider than the luma plane's tiles, odd widths included. */
  lemma ColumnsFit(f: Frame)
    ensures f.width <= 32 * TilesPerRow(f.width) && f.ChromaColumns() <= 32 * TilesPerRow(f.width)
  {
    var q, r := f.width / 32, f.width % 32;
    var tpr := if r == 0 then q else q + 1;
    assert f.width + 31 == tpr * 32 + (if r == 0 then 31 else r - 1);
    DivModUnique(tpr, if r == 0 then 31 else r - 1, 32);
    EvenUp(f.width);
  }

  lemma EvenUp(w: nat)
    ensures (w + 1) / 2 * 2 == if w % 2 == 0 then w else w + 1
  {
  }

  /** The chroma sample at a byte column: fetched from the chroma plane, and the column's own. */
  function ChromaSample(b: Buffer, f: Frame, uvOffset: nat, bc: nat, cy: nat): (sample: int)
    requires b.pitch > 0 && bc < f.ChromaColumns() && cy < f.ChromaRows() && FrameHeld(b, f, uvOffset)
    ensures uvOffset + TiledOffset(TilesPerRow(f.width), bc, cy) < |b.bytes|
    ensures sample == f.Chroma()(bc, cy)
  {
    var tpr := TilesPerRow(f.width);
    ColumnsFit(f);
    FetchPlaneReads(b, uvOffset, tpr, f.ChromaColumns(), f.ChromaRows(), f.Chroma(), bc, cy);
    FetchPlane(b, tpr, uvOffset, bc, cy)
  }

  lemma HalfInside(x: nat, w: nat)
    requires x < w
    ensures x / 2 < (w + 1) / 2 && 2 * (x / 2) + 1 < (w + 1) / 2 * 2
  {
  }

  /** The frame column (row) under the centre of fragment `frag` of a view of that many columns
      (rows); the shader's floating-point product is taken as exact. */
  function Across(frag: nat, frame: nat, view: nat): nat
    requires frag < view
  {
    MulMonotone(0, 2 * frag + 1, frame);
    DivMonotone(0, (2 * frag + 1) * frame, 2 * view);
    if view == frame then frag else (2 * frag + 1) * frame / (2 * view)
  }

  /** It stays inside the frame and never steps back; and a view of the frame's own size, which
      the shader treats apart, is no exception to the formula. */
  lemma AcrossInside(frag: nat, next: nat, frame: nat, view: nat)
    requires frag <= next < view && 0 < frame
    ensures Across(frag, frame, view) <= Across(next, frame, view) < frame
    ensures Across(frag, frame, view) == (2 * frag + 1) * frame / (2 * view)
  {
    MulMonotone(2 * frag + 1, 2 * next + 1, frame);
    DivMonotone((2 * frag + 1) * frame, (2 * next + 1) * frame, 2 * view);
    var q := (2 * next + 1) * frame / (2 * view);
    assert q * (2 * view) <= (2 * next + 1) * frame;
    MulMonotone(2 * next + 2, 2 * view, frame);
    assert (2 * next + 2) * frame == (2 * next + 1) * frame + frame;
    assert (2 * view) * frame == frame * (2 * view);
    MulMonotone(frame, q, 2 * view);
    if view == frame {
      Centre(frag, view);
      Centre(next, view);
    }
  }

  lemma Centre(frag: nat, view: nat)
    requires frag < view
    ensures (2 * frag + 1) * view / (2 * view) == frag
  {
    assert (2 * frag + 1) * view == frag * (2 * view) + view;
    DivModUnique(frag, view, 2 * view);
  }

  /** The first odd multiple of `frame` from `edge` on. */
  lemma FirstCentre(edge: nat, frame: nat) returns (frag: nat)
    requires 0 < frame
    ensures edge <= (2 * frag + 1) * frame < edge + 2 * frame
  {
    var t := edge + frame - 1;
    frag := t / (2 * frame);
    assert t == frag * (2 * frame) + t % (2 * frame);
    assert (2 * frag + 1) * frame == frag * (2 * frame) + frame;
  }

  /** An enlarging view shows every column. */
  lemma AcrossCovers(x: nat, frame: nat, view: nat) returns (frag: nat)
    requires x < frame <= view
    ensures frag < view && Across(frag, frame, view) == x
  {
    MulMonotone(0, x, 2 * view);
    frag := FirstCentre(x * (2 * view), frame);
    var centre := (2 * frag + 1) * frame;
    DivModUnique(x, centre - x * (2 * view), 2 * view);
    MulMonotone(x + 1, frame, 2 * view);
    assert (x + 1) * (2 * view) == x * (2 * view) + 2 * view;
    MulMonotone(view, frag, 2 * frame);
    assert centre == frag * (2 * frame) + frame;
    assert frag < view;
    AcrossInside(frag, frag, frame, view);
  }

  lemma ChromaPair(f: Frame, cx: nat, cy: nat)
    ensures f.Chroma()(2 * cx, cy) == f.u(cx, cy) && f.Chroma()(2 * cx + 1, cy) == f.v(cx, cy)
  {
    assert 2 * cx / 2 == cx && (2 * cx + 1) / 2 == cx;
  }

  /** The three samples the shader's main fetches for the pixel at (x, y). */
  function ShadePixel(b: Buffer, f: Frame, uvOffset: nat, x: nat, y: nat): (shown: Yuv)
    requires b.pitch > 0 && x < f.width && y < f.height && FrameHeld(b, f, uvOffset)
    ensures shown == Yuv(f.luma(x, y), f.u(x / 2, y / 2), f.v(x / 2, y / 2))
  {
    var cy := y / 2;
    var cx := x / 2;
    HalfInside(x, f.width);
    HalfInside(y, f.height);
    ChromaPair(f, cx, cy);
    Yuv(LumaSample(b, f, uvOffset, x, y),
        ChromaSample(b, f, uvOffset, 2 * cx, cy),
        ChromaSample(b, f, uvOffset, 2 * cx + 1, cy))
  }

  /** What the shader shows at fragment (fragX, fragY) of the view. */
  function Shade(b: Buffer, f: Frame, uvOffset: nat, viewW: nat, viewH: nat, fragX: nat, fragY: nat): Yuv
    requires b.pitch > 0 && 0 < f.height && fragX < viewW && fragY < viewH && FrameHeld(b, f, uvOffset)
  {
    AcrossInside(fragX, fragX, f.width, viewW);
    AcrossInside(fragY, fragY, f.height, viewH);
    ShadePixel(b, f, uvOffset, Across(fragX, f.width, viewW), f.height - 1 - Across(fragY, f.height, viewH))
  }

  /** For every size of frame and view, every pitch, chroma offset and buffer that hold the tiled
      frame: the view shows the frame's own pixels with the rows flipped once. */
  lemma ShadeShowsFrame(
    b: Buffer, f: Frame, uvOffset: nat, viewW: nat, viewH: nat, fragX: nat, fragY: nat)
    requires b.pitch > 0 && 0 < f.height && fragX < viewW && fragY < viewH && FrameHeld(b, f, uvOffset)
    ensures var x, up := Across(fragX, f.width, viewW), Across(fragY, f.height, viewH);
            var y := f.height - 1 - up;
            && x < f.width && up < f.height
            && Shade(b, f, uvOffset, viewW, viewH, fragX, fragY)
               == Yuv(f.luma(x, y), f.u(x / 2, y / 2), f.v(x / 2, y / 2))
  {
    AcrossInside(fragX, fragX, f.width, viewW);
    AcrossInside(fragY, fragY, f.height, viewH);
  }
}
