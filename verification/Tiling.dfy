/**
  How an update reaches a client's screen: cut into rectangles, each planar-compressed or raw
  (crates/rdpcore-server/src/encode.rs), grouped into fast-path updates, read back, decoded and painted.
 */
module Tiling {
  import opened Bytes
  import opened DirtyRects
  import opened Display
  import Fastpath
  import FastpathOutput
  import Rdp6

  const TILE_SIZE: nat := 64

  /** Part of an update, relative to its origin. */
  datatype Tile = Tile(x: nat, y: nat, w: nat, h: nat)

  predicate In(t: Tile, px: int, py: int) {
    t.x <= px < t.x + t.w && t.y <= py < t.y + t.h
  }

  predicate Within(t: Tile, u: BitmapUpdate) {
    t.w > 0 && t.h > 0 && t.x + t.w <= u.width && t.y + t.h <= u.height
  }

  /** An update that lies on a 16-bit desktop and whose pixels are all in its buffer. */
  ghost predicate Backed(u: BitmapUpdate) {
    && u.width > 0 && u.height > 0 && u.x + u.width < 0x1_0000 && u.y + u.height < 0x1_0000
    && LastByte(u.srcX, u.srcY, u.width, u.height, u.stride) <= |u.data|
  }

  lemma ViewIsBacked(u: BitmapUpdate, f: Frame)
    requires f.Valid() && ViewOf(u, f)
    ensures Backed(u)
  {
    RectInBuffer(f, u.x, u.y, u.width, u.height);
  }

  // ------------------------------------------------------------------
  // The pixels of a tile, bottom row first
  // ------------------------------------------------------------------

  /** Pixel positions counted over whole rows. */
  function Cells(rows: nat, w: nat): nat {
    rows * w
  }

  lemma CellsStep(rows: nat, w: nat)
    ensures Cells(rows + 1, w) == Cells(rows, w) + w
  {
  }

  lemma CellsMonotone(a: nat, b: nat, w: nat)
    requires a <= b
    ensures Cells(a, w) <= Cells(b, w)
  {
    assert b * w - a * w == (b - a) * w;
  }

  /** Byte offset of the pixel (px, py) of an update. */
  function Source(u: BitmapUpdate, px: nat, py: nat): nat {
    Offset(u.srcY + py, u.stride, u.srcX + px, BPP)
  }

  function Row(u: BitmapUpdate, t: Tile, py: nat): Option<seq<byte>> {
    Get(u.data, Source(u, t.x, py), Source(u, t.x, py) + 4 * t.w)
  }

  /** The lowest `k` rows of a tile, the lowest first; nothing if one of them is not in the buffer. */
  function Bottom(u: BitmapUpdate, t: Tile, k: nat): Option<seq<byte>>
    requires k <= t.h
  {
    if k == 0 then Some([])
    else
      var below := Bottom(u, t, k - 1);
      var row := Row(u, t, t.y + t.h - k);
      if below.Some? && row.Some? then Some(below.value + row.value) else None
  }

  /** The three colour bytes of a pixel. */
  function Colour(p: Pixel): seq<byte> {
    if |p| < 3 then p else p[..3]
  }

  lemma OffsetAdvances(y: nat, stride: nat, x: nat, n: nat)
    ensures Offset(y, stride, x + n, BPP) == Offset(y, stride, x, BPP) + 4 * n
  {
  }

  lemma OffsetBelow(y: nat, n: nat, stride: nat, x: nat)
    ensures Offset(y, stride, x, BPP) <= Offset(y + n, stride, x, BPP)
  {
    Distribute(y, n, stride);
  }

  lemma RowBacked(u: BitmapUpdate, t: Tile, py: nat)
    requires Backed(u) && Within(t, u) && t.y <= py < t.y + t.h
    ensures Row(u, t, py).Some? && |Row(u, t, py).value| == 4 * t.w
  {
    hide Offset;
    var right := u.srcX + u.width;
    OffsetAdvances(u.srcY + py, u.stride, u.srcX + t.x, t.w);
    OffsetAdvances(u.srcY + py, u.stride, u.srcX + t.x + t.w, u.width - (t.x + t.w));
    OffsetBelow(u.srcY + py, u.height - 1 - py, u.stride, right);
  }

  /** Pixel `col` of a row is the update's own. */
  lemma RowPixel(u: BitmapUpdate, t: Tile, py: nat, col: nat)
    requires Row(u, t, py).Some? && col < t.w
    ensures var row := Row(u, t, py).value;
            |row| == 4 * t.w && row[4 * col..4 * col + 4] == PixelOf(u.data, u.stride, u.srcX + t.x + col, u.srcY + py)
  {
    hide Offset;
    var at := Source(u, t.x, py);
    var y := u.srcY + py;
    var lo := Offset(y, u.stride, u.srcX + t.x + col, BPP);
    OffsetAdvances(y, u.stride, u.srcX + t.x, col);
    OffsetAdvances(y, u.stride, u.srcX + t.x + col, 1);
    assert u.data[at..at + 4 * t.w][4 * col..4 * col + 4] == u.data[lo..lo + 4];
  }

  lemma {:induction false} BottomBacked(u: BitmapUpdate, t: Tile, k: nat)
    requires Backed(u) && Within(t, u) && k <= t.h
    ensures Bottom(u, t, k).Some? && |Bottom(u, t, k).value| == 4 * Cells(k, t.w)
  {
    hide Row, Backed;
    if k > 0 {
      BottomBacked(u, t, k - 1);
      RowBacked(u, t, t.y + t.h - k);
      CellsStep(k - 1, t.w);
      hide Cells;
    }
  }

  /** Row `r` from the bottom, column `col`. */
  lemma {:induction false} BottomPixel(u: BitmapUpdate, t: Tile, k: nat, r: nat, col: nat)
    requires Backed(u) && Within(t, u) && r < k <= t.h && col < t.w
    ensures var i := Cells(r, t.w) + col;
            && Bottom(u, t, k).Some? && 4 * i + 4 <= |Bottom(u, t, k).value|
            && Bottom(u, t, k).value[4 * i..4 * i + 4]
               == PixelOf(u.data, u.stride, u.srcX + t.x + col, u.srcY + (t.y + t.h - 1 - r))
    decreases k
  {
    hide Row, Backed, PixelOf, Cells;
    BottomBacked(u, t, k - 1);
    RowBacked(u, t, t.y + t.h - k);
    var below, row := Bottom(u, t, k - 1).value, Row(u, t, t.y + t.h - k).value;
    var i := Cells(r, t.w) + col;
    CellsStep(r, t.w);
    CellsMonotone(r + 1, k, t.w);
    CellsStep(k - 1, t.w);
    if r < k - 1 {
      BottomPixel(u, t, k - 1, r, col);
      assert (below + row)[4 * i..4 * i + 4] == below[4 * i..4 * i + 4];
    } else {
      RowPixel(u, t, t.y + t.h - k, col);
      assert (below + row)[4 * i..4 * i + 4] == row[4 * col..4 * col + 4];
    }
  }

  // ------------------------------------------------------------------
  // A tile on the wire
  // ------------------------------------------------------------------

  function RectOf(u: BitmapUpdate, t: Tile, data: seq<byte>, scanWidth: Option<u16>): Fastpath.BitmapRect
    requires Within(t, u) && u.x + u.width < 0x1_0000 && u.y + u.height < 0x1_0000
  {
    Fastpath.BitmapRect(u.x + t.x, u.y + t.y, u.x + t.x + t.w - 1, u.y + t.y + t.h - 1, t.w, t.h, 32, data, scanWidth)
  }

  /** Planar where that is allowed and smaller, else raw; no rectangle for a tile that is not in the buffer. */
  function Encode(u: BitmapUpdate, t: Tile, planar: bool): Option<Fastpath.BitmapRect>
    requires Within(t, u) && u.x + u.width < 0x1_0000 && u.y + u.height < 0x1_0000
    requires planar ==> t.w <= TILE_SIZE
  {
    match Bottom(u, t, t.h)
    case None => None
    case Some(bytes) =>
      var code := Rdp6.Encode(bytes, t.w, t.h);
      if planar && t.w % 4 == 0 && |code| < |bytes| then Some(RectOf(u, t, code, Some(t.w * 4)))
      else Some(RectOf(u, t, bytes, None))
  }

  /** A client's picture of a rectangle's data, bottom row first. */
  function Decoded(r: Fastpath.BitmapRect): Result<seq<byte>> {
    if r.scanWidth.Some? then Rdp6.Decode(r.data, r.width, r.height) else Ok(r.data)
  }

  predicate Inside(r: Fastpath.BitmapRect, x: int, y: int) {
    r.left <= x <= r.right && r.top <= y <= r.bottom
  }

  type Screen = (nat, nat) -> seq<byte>

  function PixelIn(bytes: seq<byte>, i: nat): seq<byte> {
    if 4 * i + 4 <= |bytes| then bytes[4 * i..4 * i + 4] else []
  }

  /** The colour a rectangle gives a position; one that cannot be decoded paints nothing. */
  function PaintedAt(r: Fastpath.BitmapRect, x: nat, y: nat): Option<seq<byte>> {
    match Decoded(r)
    case Err(_) => None
    case Ok(bytes) =>
      if Inside(r, x, y) then Some(Colour(PixelIn(bytes, Cells(r.bottom - y, r.width) + (x - r.left)))) else None
  }

  /** What a client shows after a rectangle. */
  ghost function Draw(s: Screen, r: Fastpath.BitmapRect): Screen {
    (x: nat, y: nat) => match PaintedAt(r, x, y) case Some(c) => c case None => s(x, y)
  }

  /** Planar data loses only the unused byte of each pixel. */
  lemma ColourSurvives(bytes: seq<byte>, n: nat, i: nat)
    requires i < n && 4 * n <= |bytes|
    ensures Colour(PixelIn(Rdp6.WithoutX(bytes, n), i)) == Colour(bytes[4 * i..4 * i + 4])
  {
    var p := Rdp6.WithoutX(bytes, n)[4 * i..4 * i + 4];
    forall k | 0 <= k < 3 ensures p[k] == bytes[4 * i + k] {
      assert (4 * i + k) / 4 == i && (4 * i + k) % 4 == k;
    }
  }

  lemma DecodedPixel(u: BitmapUpdate, t: Tile, planar: bool, i: nat)
    requires Backed(u) && Within(t, u) && (planar ==> t.w <= TILE_SIZE) && i < Cells(t.h, t.w)
    ensures var r := Encode(u, t, planar);
            && Bottom(u, t, t.h).Some? && 4 * i + 4 <= |Bottom(u, t, t.h).value|
            && r.Some? && Decoded(r.value).Ok?
            && Colour(PixelIn(Decoded(r.value).value, i)) == Colour(Bottom(u, t, t.h).value[4 * i..4 * i + 4])
  {
    BottomBacked(u, t, t.h);
    var bytes := Bottom(u, t, t.h).value;
    Rdp6.TileRoundTrip(bytes, t.w, t.h);
    assert t.w * t.h == Cells(t.h, t.w);
    hide Rdp6.Encode, Rdp6.Decode, Bottom, Cells, Colour, Rdp6.WithoutX;
    ColourSurvives(bytes, Cells(t.h, t.w), i);
  }

  /** A tile sent and drawn shows the update over exactly its own area. */
  lemma TileShows(u: BitmapUpdate, t: Tile, planar: bool, x: nat, y: nat)
    requires Backed(u) && Within(t, u) && (planar ==> t.w <= TILE_SIZE)
    ensures var r := Encode(u, t, planar);
            && r.Some?
            && PaintedAt(r.value, x, y)
               == if In(t, x - u.x, y - u.y) then Some(Colour(ShownPixel(u, x, y))) else None
  {
    hide Rdp6.Encode, Rdp6.Decode, Bottom, Cells, Colour, PixelOf, PixelIn, LastByte, Decoded;
    var px, py := x - u.x, y - u.y;
    if In(t, px, py) {
      var row, col := t.y + t.h - 1 - py, px - t.x;
      CellsStep(row, t.w);
      CellsMonotone(row + 1, t.h, t.w);
      DecodedPixel(u, t, planar, Cells(row, t.w) + col);
      BottomPixel(u, t, t.h, row, col);
      assert Inside(Encode(u, t, planar).value, x, y);
    } else {
      SomeRect(u, t, planar);
    }
  }

  lemma SomeRect(u: BitmapUpdate, t: Tile, planar: bool)
    requires Backed(u) && Within(t, u) && (planar ==> t.w <= TILE_SIZE)
    ensures Encode(u, t, planar).Some?
  {
    hide Rdp6.Encode;
    BottomBacked(u, t, t.h);
  }

  // ------------------------------------------------------------------
  // Cutting an update
  // ------------------------------------------------------------------

  /** Tiles of one row of tiles, from column `x` on. */
  function TileRow(w: nat, y: nat, h: nat, x: nat): seq<Tile>
    decreases w - x
  {
    if x >= w then [] else [Tile(x, y, Min(TILE_SIZE, w - x), h)] + TileRow(w, y, h, x + TILE_SIZE)
  }

  function TileRows(w: nat, h: nat, y: nat): seq<Tile>
    decreases h - y
  {
    if y >= h then [] else TileRow(w, y, Min(TILE_SIZE, h - y), 0) + TileRows(w, h, y + TILE_SIZE)
  }

  /** As many rows as the 16-bit length field allows, but at least one. */
  function StripHeight(w: nat): (n: nat)
    requires w > 0
    ensures n > 0
  {
    var rows := 65535 / (4 * w);
    if rows == 0 then 1 else rows
  }

  function Strips(w: nat, h: nat, y: nat): seq<Tile>
    requires w > 0
    decreases h - y
  {
    if y >= h then []
    else
      var n := Min(StripHeight(w), h - y);
      [Tile(0, y, w, n)] + Strips(w, h, y + n)
  }

  function TilesOf(u: BitmapUpdate, planar: bool): seq<Tile>
    requires u.width > 0
  {
    if planar then TileRows(u.width, u.height, 0) else Strips(u.width, u.height, 0)
  }

  predicate Covered(tiles: seq<Tile>, px: int, py: int) {
    tiles != [] && (In(tiles[0], px, py) || Covered(tiles[1..], px, py))
  }

  /** Every tile lies in a w x h area and, if planar, is at most 64 wide and high. */
  ghost predicate Fit(tiles: seq<Tile>, w: nat, h: nat, planar: bool) {
    forall i :: 0 <= i < |tiles| ==> FitsIn(tiles[i], w, h, planar)
  }

  predicate FitsIn(t: Tile, w: nat, h: nat, planar: bool) {
    t.w > 0 && t.h > 0 && t.x + t.w <= w && t.y + t.h <= h && (planar ==> t.w <= TILE_SIZE && t.h <= TILE_SIZE)
  }

  lemma {:induction false} CoveredAppend(a: seq<Tile>, b: seq<Tile>, px: int, py: int)
    ensures Covered(a + b, px, py) <==> Covered(a, px, py) || Covered(b, px, py)
    decreases |a|
  {
    if a == [] {
      assert a + b == b;
    } else {
      CoveredAppend(a[1..], b, px, py);
      assert (a + b)[1..] == a[1..] + b;
    }
  }

  lemma {:induction false} TileRowCovers(w: nat, y: nat, h: nat, x: nat, px: int, py: int)
    ensures Covered(TileRow(w, y, h, x), px, py) <==> x <= px < w && y <= py < y + h
    decreases w - x
  {
    if x < w {
      TileRowCovers(w, y, h, x + TILE_SIZE, px, py);
      var rest := TileRow(w, y, h, x + TILE_SIZE);
      assert TileRow(w, y, h, x)[1..] == rest;
    }
  }

  lemma {:induction false} TileRowsCover(w: nat, h: nat, y: nat, px: int, py: int)
    ensures Covered(TileRows(w, h, y), px, py) <==> 0 <= px < w && y <= py < h
    decreases h - y
  {
    hide TileRow, Covered;
    if y < h {
      var n := Min(TILE_SIZE, h - y);
      TileRowsCover(w, h, y + TILE_SIZE, px, py);
      TileRowCovers(w, y, n, 0, px, py);
      CoveredAppend(TileRow(w, y, n, 0), TileRows(w, h, y + TILE_SIZE), px, py);
    } else {
      NotCovered(px, py);
    }
  }

  lemma NotCovered(px: int, py: int)
    ensures !Covered([], px, py)
  {
  }

  lemma {:induction false} StripsCover(w: nat, h: nat, y: nat, px: int, py: int)
    requires w > 0
    ensures Covered(Strips(w, h, y), px, py) <==> 0 <= px < w && y <= py < h
    decreases h - y
  {
    hide StripHeight;
    if y < h {
      var n := Min(StripHeight(w), h - y);
      StripsCover(w, h, y + n, px, py);
      assert Strips(w, h, y)[1..] == Strips(w, h, y + n);
    }
  }

  lemma {:induction false} TileRowFits(w: nat, y: nat, h: nat, x: nat, height: nat)
    requires 0 < h <= TILE_SIZE && y + h <= height
    ensures Fit(TileRow(w, y, h, x), w, height, true)
    decreases w - x
  {
    if x < w {
      TileRowFits(w, y, h, x + TILE_SIZE, height);
    }
  }

  lemma {:induction false} TileRowsFit(w: nat, h: nat, y: nat)
    ensures Fit(TileRows(w, h, y), w, h, true)
    decreases h - y
  {
    hide TileRow;
    if y < h {
      TileRowsFit(w, h, y + TILE_SIZE);
      TileRowFits(w, y, Min(TILE_SIZE, h - y), 0, h);
    }
  }

  lemma {:induction false} StripsFit(w: nat, h: nat, y: nat)
    requires w > 0
    ensures Fit(Strips(w, h, y), w, h, false)
    ensures forall i :: 0 <= i < |Strips(w, h, y)| ==> Strips(w, h, y)[i].w == w && Strips(w, h, y)[i].h <= StripHeight(w)
    decreases h - y
  {
    hide StripHeight;
    if y < h {
      StripsFit(w, h, y + Min(StripHeight(w), h - y));
    }
  }

  /** No two tiles share the position. */
  ghost predicate Apart(tiles: seq<Tile>, px: int, py: int) {
    forall i, j :: 0 <= i < j < |tiles| ==> !(In(tiles[i], px, py) && In(tiles[j], px, py))
  }

  lemma {:induction false} CoveredBy(tiles: seq<Tile>, i: nat, px: int, py: int)
    requires i < |tiles| && In(tiles[i], px, py)
    ensures Covered(tiles, px, py)
    decreases |tiles|
  {
    if i > 0 {
      CoveredBy(tiles[1..], i - 1, px, py);
    }
  }

  lemma ApartAppend(a: seq<Tile>, b: seq<Tile>, px: int, py: int)
    requires Apart(a, px, py) && Apart(b, px, py) && !(Covered(a, px, py) && Covered(b, px, py))
    ensures Apart(a + b, px, py)
  {
    hide Covered, In;
    var all := a + b;
    forall i, j | 0 <= i < j < |all| && In(all[i], px, py) ensures !In(all[j], px, py) {
      if i < |a| <= j && In(all[j], px, py) {
        CoveredBy(a, i, px, py);
        CoveredBy(b, j - |a|, px, py);
      } else if i >= |a| {
        assert all[i] == b[i - |a|] && all[j] == b[j - |a|];
      }
    }
  }

  lemma {:induction false} TileRowApart(w: nat, y: nat, h: nat, x: nat, px: int, py: int)
    ensures Apart(TileRow(w, y, h, x), px, py)
    decreases w - x
  {
    if x < w {
      var first, rest := Tile(x, y, Min(TILE_SIZE, w - x), h), TileRow(w, y, h, x + TILE_SIZE);
      TileRowApart(w, y, h, x + TILE_SIZE, px, py);
      TileRowCovers(w, y, h, x + TILE_SIZE, px, py);
      assert [first][1..] == [];
      ApartAppend([first], rest, px, py);
    }
  }

  lemma {:induction false} TileRowsApart(w: nat, h: nat, y: nat, px: int, py: int)
    ensures Apart(TileRows(w, h, y), px, py)
    decreases h - y
  {
    hide Apart, Covered, TileRow;
    if y < h {
      var n := Min(TILE_SIZE, h - y);
      TileRowApart(w, y, n, 0, px, py);
      TileRowsApart(w, h, y + TILE_SIZE, px, py);
      TileRowCovers(w, y, n, 0, px, py);
      TileRowsCover(w, h, y + TILE_SIZE, px, py);
      ApartAppend(TileRow(w, y, n, 0), TileRows(w, h, y + TILE_SIZE), px, py);
    } else {
      NoneApart(px, py);
    }
  }

  lemma NoneApart(px: int, py: int)
    ensures Apart([], px, py)
  {
  }

  lemma {:induction false} StripsApart(w: nat, h: nat, y: nat, px: int, py: int)
    requires w > 0
    ensures Apart(Strips(w, h, y), px, py)
    decreases h - y
  {
    hide StripHeight;
    if y < h {
      var n := Min(StripHeight(w), h - y);
      StripsApart(w, h, y + n, px, py);
      StripsCover(w, h, y + n, px, py);
      assert [Tile(0, y, w, n)][1..] == [];
      ApartAppend([Tile(0, y, w, n)], Strips(w, h, y + n), px, py);
    }
  }

  /** The tiles of an update cut it up: each of its positions is in exactly one of them, and none reaches outside. */
  lemma TilesPartition(u: BitmapUpdate, planar: bool, px: int, py: int)
    requires u.width > 0
    ensures Fit(TilesOf(u, planar), u.width, u.height, planar)
    ensures Covered(TilesOf(u, planar), px, py) <==> 0 <= px < u.width && 0 <= py < u.height
    ensures Apart(TilesOf(u, planar), px, py)
  {
    hide TileRows, Strips, Covered, Fit, Apart;
    if planar {
      TileRowsFit(u.width, u.height, 0);
      TileRowsCover(u.width, u.height, 0, px, py);
      TileRowsApart(u.width, u.height, 0, px, py);
    } else {
      StripsFit(u.width, u.height, 0);
      StripsCover(u.width, u.height, 0, px, py);
      StripsApart(u.width, u.height, 0, px, py);
    }
  }

  // ------------------------------------------------------------------
  // Where 16 bits are not enough
  // ------------------------------------------------------------------

  /** The k-th value of a 16-bit tile position that is stepped by 64. */
  function Position(k: nat): u16 {
    if k == 0 then 0 else (Position(k - 1) as int + TILE_SIZE) % 0x1_0000
  }

  lemma {:induction false} PositionAligned(k: nat)
    ensures Position(k) % 64 == 0 && Position(k) <= 65472
  {
    if k > 0 {
      PositionAligned(k - 1);
    }
  }

  lemma {:induction false} PositionBelowWrap(k: nat)
    requires k <= 1023
    ensures Position(k) == TILE_SIZE * k
  {
    if k > 0 {
      PositionBelowWrap(k - 1);
    }
  }

  /** The tile loop over a dimension ends exactly when that is at most 65472: beyond, its 16-bit position wraps to 0. */
  lemma TileLoopEndsIff(size: u16)
    ensures (exists k :: Position(k) >= size) <==> size <= 65472
  {
    hide Position;
    if size <= 65472 {
      PositionBelowWrap(1023);
      assert Position(1023) >= size;
    }
    forall k: nat ensures Position(k) <= 65472 {
      PositionAligned(k);
    }
  }

  /** A raw strip fits the 16-bit length field exactly when a single row does. */
  lemma StripFitsIff(w: nat)
    requires w > 0
    ensures 4 * Cells(StripHeight(w), w) <= 65535 <==> w <= 16383
  {
    var rows := 65535 / (4 * w);
    if w <= 16383 {
      assert rows >= 1 by { Quotient(65535, 4 * w, 1); }
      assert 4 * Cells(rows, w) == (4 * w) * rows;
    } else {
      assert rows == 0;
    }
  }

  lemma Quotient(n: nat, d: nat, q: nat)
    requires d > 0 && q * d <= n
    ensures n / d >= q
  {
    var r := n / d;
    assert n < (r + 1) * d;
    assert r < q ==> (r + 1) * d <= q * d;
  }

  // ------------------------------------------------------------------
  // A whole update
  // ------------------------------------------------------------------

  predicate Placed(u: BitmapUpdate) {
    u.x + u.width < 0x1_0000 && u.y + u.height < 0x1_0000
  }

  function RectsFrom(u: BitmapUpdate, tiles: seq<Tile>, planar: bool): seq<Fastpath.BitmapRect>
    requires Placed(u) && Fit(tiles, u.width, u.height, planar)
  {
    if tiles == [] then []
    else
      assert FitsIn(tiles[0], u.width, u.height, planar);
      (match Encode(u, tiles[0], planar) case Some(r) => [r] case None => []) + RectsFrom(u, tiles[1..], planar)
  }

  /** The rectangles an update is sent as. */
  function Rects(u: BitmapUpdate, planar: bool): seq<Fastpath.BitmapRect>
    requires Placed(u) && u.width > 0
  {
    TilesPartition(u, planar, 0, 0);
    RectsFrom(u, TilesOf(u, planar), planar)
  }

  ghost function DrawAll(s: Screen, rs: seq<Fastpath.BitmapRect>): Screen {
    if rs == [] then s else DrawAll(Draw(s, rs[0]), rs[1..])
  }

  /** The colour an update gives a position it shows. */
  function ColourAt(u: BitmapUpdate, x: nat, y: nat): seq<byte> {
    if Shows(u, x, y) then Colour(ShownPixel(u, x, y)) else []
  }

  /** Some rectangle paints the position. */
  ghost predicate Reaches(rs: seq<Fastpath.BitmapRect>, x: nat, y: nat) {
    exists i :: 0 <= i < |rs| && PaintedAt(rs[i], x, y).Some?
  }

  /** Whatever rectangle paints the position gives it this colour. */
  ghost predicate Only(rs: seq<Fastpath.BitmapRect>, x: nat, y: nat, c: seq<byte>) {
    forall i :: 0 <= i < |rs| && PaintedAt(rs[i], x, y).Some? ==> PaintedAt(rs[i], x, y) == Some(c)
  }

  lemma FirstRect(rs: seq<Fastpath.BitmapRect>, x: nat, y: nat)
    requires rs != []
    ensures Reaches(rs, x, y) <==> PaintedAt(rs[0], x, y).Some? || Reaches(rs[1..], x, y)
    ensures forall c :: Only(rs, x, y, c) <==>
                          (PaintedAt(rs[0], x, y).Some? ==> PaintedAt(rs[0], x, y) == Some(c)) && Only(rs[1..], x, y, c)
  {
    hide PaintedAt;
    if Reaches(rs, x, y) && PaintedAt(rs[0], x, y).None? {
      var i :| 0 <= i < |rs| && PaintedAt(rs[i], x, y).Some?;
      assert rs[1..][i - 1] == rs[i];
    }
    forall c | Only(rs[1..], x, y, c) && (PaintedAt(rs[0], x, y).Some? ==> PaintedAt(rs[0], x, y) == Some(c))
      ensures Only(rs, x, y, c)
    {
      forall i | 0 <= i < |rs| && PaintedAt(rs[i], x, y).Some? ensures PaintedAt(rs[i], x, y) == Some(c) {
        if i > 0 {
          assert rs[1..][i - 1] == rs[i];
        }
      }
    }
  }

  /** Rectangles that all give a position one colour leave it showing that, or untouched. */
  lemma {:induction false} DrawAllAt(s: Screen, rs: seq<Fastpath.BitmapRect>, x: nat, y: nat, c: seq<byte>)
    requires Only(rs, x, y, c)
    ensures DrawAll(s, rs)(x, y) == if Reaches(rs, x, y) then c else s(x, y)
    decreases |rs|
  {
    hide PaintedAt;
    if rs != [] {
      hide Only, Reaches;
      FirstRect(rs, x, y);
      DrawAllAt(Draw(s, rs[0]), rs[1..], x, y, c);
    }
  }

  /** The colour the rectangles leave at a position, if any of them paints it. */
  function LastAt(rs: seq<Fastpath.BitmapRect>, x: nat, y: nat): Option<seq<byte>> {
    if rs == [] then None
    else
      var later := LastAt(rs[1..], x, y);
      if later.Some? then later else PaintedAt(rs[0], x, y)
  }

  lemma {:induction false} DrawAllLeaves(s: Screen, rs: seq<Fastpath.BitmapRect>, x: nat, y: nat)
    ensures DrawAll(s, rs)(x, y) == match LastAt(rs, x, y) case Some(c) => c case None => s(x, y)
    ensures LastAt(rs, x, y).Some? <==> Reaches(rs, x, y)
    decreases |rs|
  {
    hide PaintedAt;
    if rs != [] {
      hide Reaches;
      FirstRect(rs, x, y);
      DrawAllLeaves(Draw(s, rs[0]), rs[1..], x, y);
    }
  }

  lemma {:induction false} DrawAllAppend(s: Screen, a: seq<Fastpath.BitmapRect>, b: seq<Fastpath.BitmapRect>)
    ensures DrawAll(s, a + b) == DrawAll(DrawAll(s, a), b)
    decreases |a|
  {
    hide Draw;
    if a == [] {
      assert a + b == b;
    } else {
      assert (a + b)[0] == a[0] && (a + b)[1..] == a[1..] + b;
      DrawAllAppend(Draw(s, a[0]), a[1..], b);
    }
  }

  lemma AppendPaints(a: seq<Fastpath.BitmapRect>, b: seq<Fastpath.BitmapRect>, x: nat, y: nat, c: seq<byte>)
    ensures Reaches(a + b, x, y) <==> Reaches(a, x, y) || Reaches(b, x, y)
    ensures Only(a + b, x, y, c) <==> Only(a, x, y, c) && Only(b, x, y, c)
  {
    hide PaintedAt;
    var all := a + b;
    assert forall i :: 0 <= i < |a| ==> all[i] == a[i];
    assert forall i :: 0 <= i < |b| ==> all[|a| + i] == b[i];
    assert forall i :: |a| <= i < |all| ==> all[i] == b[i - |a|];
    if Reaches(a, x, y) {
      var i :| 0 <= i < |a| && PaintedAt(a[i], x, y).Some?;
      assert all[i] == a[i];
    }
    if Reaches(b, x, y) {
      var i :| 0 <= i < |b| && PaintedAt(b[i], x, y).Some?;
      assert all[|a| + i] == b[i];
    }
    if Only(all, x, y, c) {
      forall i | 0 <= i < |b| && PaintedAt(b[i], x, y).Some? ensures PaintedAt(b[i], x, y) == Some(c) {
        assert all[|a| + i] == b[i];
      }
      forall i | 0 <= i < |a| && PaintedAt(a[i], x, y).Some? ensures PaintedAt(a[i], x, y) == Some(c) {
        assert all[i] == a[i];
      }
    }
  }

  lemma {:induction false} TilesShow(u: BitmapUpdate, tiles: seq<Tile>, planar: bool, x: nat, y: nat)
    requires Backed(u) && Fit(tiles, u.width, u.height, planar)
    ensures Only(RectsFrom(u, tiles, planar), x, y, ColourAt(u, x, y))
    ensures Reaches(RectsFrom(u, tiles, planar), x, y) <==> Covered(tiles, x - u.x, y - u.y)
    decreases |tiles|
  {
    hide Encode, PaintedAt, Colour, LastByte, PixelOf;
    if tiles != [] {
      hide Only, Reaches;
      var t := tiles[0];
      assert FitsIn(t, u.width, u.height, planar);
      TileShows(u, t, planar, x, y);
      var rs := RectsFrom(u, tiles, planar);
      assert rs[0] == Encode(u, t, planar).value && rs[1..] == RectsFrom(u, tiles[1..], planar);
      FirstRect(rs, x, y);
      TilesShow(u, tiles[1..], planar, x, y);
    }
  }

  /** The rectangles of an update paint its own pixels where it lies, and nothing elsewhere. */
  lemma UpdateShows(u: BitmapUpdate, planar: bool, x: nat, y: nat)
    requires Backed(u)
    ensures Only(Rects(u, planar), x, y, ColourAt(u, x, y))
    ensures Reaches(Rects(u, planar), x, y) <==> Shows(u, x, y)
  {
    hide Covered, Fit, TilesOf, RectsFrom, Colour, LastByte, Only, Reaches, Apart;
    TilesPartition(u, planar, x - u.x, y - u.y);
    TilesShow(u, TilesOf(u, planar), planar, x, y);
  }

  // ------------------------------------------------------------------
  // Over the wire
  // ------------------------------------------------------------------

  lemma EncodedSize(u: BitmapUpdate, t: Tile, planar: bool)
    requires Backed(u) && Within(t, u) && (planar ==> t.w <= TILE_SIZE)
    ensures var r := Encode(u, t, planar);
            && r.Some? && |r.value.data| <= 4 * Cells(t.h, t.w)
            && (!planar ==> |r.value.data| == 4 * Cells(t.h, t.w))
  {
    BottomBacked(u, t, t.h);
    hide Rdp6.Encode, Bottom, Cells;
  }

  predicate SmallTile(t: Tile) {
    4 * Cells(t.h, t.w) < 0x1_0000
  }

  lemma {:induction false} SmallRectsIff(u: BitmapUpdate, tiles: seq<Tile>, planar: bool)
    requires Backed(u) && Fit(tiles, u.width, u.height, planar)
    ensures (forall i :: 0 <= i < |tiles| ==> SmallTile(tiles[i])) ==> FastpathOutput.Small(RectsFrom(u, tiles, planar))
    ensures !planar && FastpathOutput.Small(RectsFrom(u, tiles, planar)) ==> forall i :: 0 <= i < |tiles| ==> SmallTile(tiles[i])
    decreases |tiles|
  {
    hide Encode, Cells, LastByte;
    if tiles != [] {
      var t := tiles[0];
      assert FitsIn(t, u.width, u.height, planar);
      EncodedSize(u, t, planar);
      SmallRectsIff(u, tiles[1..], planar);
      var rs, rest := RectsFrom(u, tiles, planar), RectsFrom(u, tiles[1..], planar);
      assert rs == [Encode(u, t, planar).value] + rest && rs[1..] == rest;
      if |rs[0].data| < 0x1_0000 {
        FastpathOutput.SmallSplits(rs);
      }
    }
  }

  lemma PlanarTilesSmall(u: BitmapUpdate)
    requires Backed(u)
    ensures FastpathOutput.Small(Rects(u, true))
  {
    hide RectsFrom, TilesOf, LastByte, Covered, Apart;
    TilesPartition(u, true, 0, 0);
    var tiles := TilesOf(u, true);
    forall i | 0 <= i < |tiles| ensures SmallTile(tiles[i]) {
      assert FitsIn(tiles[i], u.width, u.height, true);
      Fastpath.ProductBound(tiles[i].h, tiles[i].w, 64, 64);
    }
    SmallRectsIff(u, tiles, true);
  }

  /** Raw strips all fit exactly up to 16383 pixels of width; beyond, a single row is already too long. */
  lemma RawStripsSmallIff(u: BitmapUpdate)
    requires Backed(u)
    ensures FastpathOutput.Small(Rects(u, false)) <==> u.width <= 16383
  {
    hide RectsFrom, LastByte, Covered, StripHeight, Cells, Apart;
    TilesPartition(u, false, 0, 0);
    StripsFit(u.width, u.height, 0);
    StripFitsIff(u.width);
    var tiles := TilesOf(u, false);
    SmallRectsIff(u, tiles, false);
    if u.width <= 16383 {
      forall i | 0 <= i < |tiles| ensures SmallTile(tiles[i]) {
        CellsMonotone(tiles[i].h, StripHeight(u.width), u.width);
      }
    } else {
      CellsMonotone(1, tiles[0].h, u.width);
      CellsStep(0, u.width);
      assert !SmallTile(tiles[0]);
    }
  }

  /** How a client is to be sent bitmaps: planar or raw, and the largest request it says it takes. */
  datatype Policy = Policy(planar: bool, offered: Option<u32>)

  /** A size the tile loops finish on. */
  predicate Finite(width: nat, height: nat, planar: bool) {
    planar ==> width <= 65472 && height <= 65472
  }

  /** A size the encoder can send: its tile loops end, or a row of pixels fits one strip. */
  predicate Sendable(width: nat, height: nat, planar: bool) {
    Finite(width, height, planar) && (!planar ==> width <= 16383)
  }

  /** What an update is sent as; where the tile loops do not end, nothing ever is. */
  function PdusFor(u: BitmapUpdate, p: Policy): seq<FastpathOutput.Pdu> {
    if Placed(u) && u.width > 0 && Finite(u.width, u.height, p.planar)
    then FastpathOutput.SendPdus(Rects(u, p.planar), p.offered, !p.planar) else []
  }

  /** The rectangles a client makes of the frames. */
  function Arrives(u: BitmapUpdate, p: Policy): seq<Fastpath.BitmapRect> {
    FastpathOutput.Decode(FastpathOutput.Frames(PdusFor(u, p)))
  }

  /** What was sent is what arrives, exactly when the encoder can send an update of that size. */
  lemma ArrivesIff(u: BitmapUpdate, p: Policy)
    requires Backed(u)
    ensures Arrives(u, p) == Rects(u, p.planar) <==> Sendable(u.width, u.height, p.planar)
  {
    hide Rects, FastpathOutput.SendPdus, LastByte, FastpathOutput.Small, FastpathOutput.Decode, FastpathOutput.Frames;
    if Finite(u.width, u.height, p.planar) {
      FastpathOutput.SendArrivesIff(Rects(u, p.planar), p.offered, !p.planar);
      if p.planar {
        PlanarTilesSmall(u);
      } else {
        RawStripsSmallIff(u);
      }
    } else {
      NothingDecodes();
      SomeRects(u, p.planar);
    }
  }

  lemma NothingDecodes()
    ensures FastpathOutput.Decode(FastpathOutput.Frames([])) == []
  {
  }

  lemma SomeRects(u: BitmapUpdate, planar: bool)
    requires Backed(u)
    ensures Rects(u, planar) != []
  {
    hide Rects, PaintedAt, ColourAt, LastByte;
    UpdateShows(u, planar, u.x, u.y);
    assert Shows(u, u.x, u.y);
  }

  /** A client makes the same of the PDUs, whatever it had of another update. */
  lemma SentMakes(u: BitmapUpdate, p: Policy, partial: Option<seq<byte>>)
    ensures FastpathOutput.Makes(partial, PdusFor(u, p)) == Arrives(u, p)
    ensures PdusFor(u, p) != [] ==> FastpathOutput.Send(PdusFor(u, p)) && FastpathOutput.Leaves(partial, PdusFor(u, p)) == None
  {
    hide Rects, FastpathOutput.SendPdus, FastpathOutput.Makes, FastpathOutput.Leaves, FastpathOutput.Decode;
    hide FastpathOutput.Frames, FastpathOutput.Send;
    if PdusFor(u, p) == [] {
      FastpathOutput.MakesNothing(partial);
      NothingDecodes();
    } else {
      var rs := Rects(u, p.planar);
      FastpathOutput.SendIsChained(rs, p.offered, !p.planar);
      FastpathOutput.FramesMake(rs, p.offered, !p.planar);
      FastpathOutput.SendMakes(None, rs, p.offered, !p.planar);
      FastpathOutput.SendMakes(partial, rs, p.offered, !p.planar);
    }
  }

  /**
    Encoded, grouped, cut into frames, received, put together and drawn, an update of a size the encoder can send
    changes a screen exactly as its pixels say.
   */
  lemma UpdateDelivered(s: Screen, u: BitmapUpdate, p: Policy, x: nat, y: nat)
    requires Backed(u) && Sendable(u.width, u.height, p.planar)
    ensures DrawAll(s, Arrives(u, p))(x, y) == if Shows(u, x, y) then Colour(ShownPixel(u, x, y)) else s(x, y)
  {
    hide Rects, DrawAll, Arrives, LastByte, Colour, Only, Reaches;
    ArrivesIff(u, p);
    UpdateShows(u, p.planar, x, y);
    DrawAllAt(s, Rects(u, p.planar), x, y, ColourAt(u, x, y));
  }

  // ------------------------------------------------------------------
  // The encoder as the source runs it
  // ------------------------------------------------------------------

  function Opt(r: Option<Fastpath.BitmapRect>): seq<Fastpath.BitmapRect> {
    match r case Some(v) => [v] case None => []
  }

  /** Gathers the tile's rows bottom-up, and compresses them where that pays. */
  method PushBitmapRect(u: BitmapUpdate, t: Tile, planar: bool, rects: seq<Fastpath.BitmapRect>)
    returns (rects': seq<Fastpath.BitmapRect>)
    requires Placed(u) && Within(t, u) && (planar ==> t.w <= TILE_SIZE)
    ensures rects' == rects + Opt(Encode(u, t, planar))
  {
    hide Row, Rdp6.Encode;
    var scratch: seq<byte> := [];
    var k := 0;
    while k < t.h
      invariant k <= t.h && Bottom(u, t, k) == Some(scratch)
    {
      var row := Row(u, t, t.y + t.h - 1 - k);
      if row.None? {
        Missing(u, t, k + 1, t.h);
        assert rects + [] == rects;
        return rects;
      }
      scratch := scratch + row.value;
      k := k + 1;
    }
    if planar && t.w % 4 == 0 {
      var compressed := Rdp6.EncodeTo(scratch, t.w, t.h);
      if |compressed| < |scratch| {
        return rects + [RectOf(u, t, compressed, Some(t.w * 4))];
      }
    }
    rects' := rects + [RectOf(u, t, scratch, None)];
  }

  lemma {:induction false} Missing(u: BitmapUpdate, t: Tile, k: nat, n: nat)
    requires k <= n <= t.h && Bottom(u, t, k).None?
    ensures Bottom(u, t, n).None?
    decreases n - k
  {
    if k < n {
      Missing(u, t, k + 1, n);
    }
  }

  /** The rectangles of the tiles done so far, and of those still to come, make up the whole. */
  ghost predicate Sent(u: BitmapUpdate, planar: bool, rects: seq<Fastpath.BitmapRect>, left: seq<Tile>, all: seq<Tile>) {
    && Placed(u) && Fit(left, u.width, u.height, planar) && Fit(all, u.width, u.height, planar)
    && rects + RectsFrom(u, left, planar) == RectsFrom(u, all, planar)
  }

  lemma SentStart(u: BitmapUpdate, planar: bool, all: seq<Tile>)
    requires Placed(u) && Fit(all, u.width, u.height, planar)
    ensures Sent(u, planar, [], all, all)
  {
    hide RectsFrom;
    assert [] + RectsFrom(u, all, planar) == RectsFrom(u, all, planar);
  }

  lemma SentNext(u: BitmapUpdate, planar: bool, rects: seq<Fastpath.BitmapRect>, left: seq<Tile>, all: seq<Tile>)
    requires left != [] && Sent(u, planar, rects, left, all)
    ensures FitsIn(left[0], u.width, u.height, planar)
    ensures Sent(u, planar, rects + Opt(Encode(u, left[0], planar)), left[1..], all)
  {
    hide Encode;
    var one, more := Opt(Encode(u, left[0], planar)), RectsFrom(u, left[1..], planar);
    assert FitsIn(left[0], u.width, u.height, planar);
    assert RectsFrom(u, left, planar) == one + more;
    assert rects + (one + more) == rects + one + more;
  }

  lemma SentEnd(u: BitmapUpdate, planar: bool, rects: seq<Fastpath.BitmapRect>, all: seq<Tile>)
    requires Sent(u, planar, rects, [], all)
    ensures rects == RectsFrom(u, all, planar)
  {
    assert rects + [] == rects;
  }

  method PushTileRow(u: BitmapUpdate, y: nat, h: nat, rects: seq<Fastpath.BitmapRect>, ghost later: seq<Tile>, ghost all: seq<Tile>)
    returns (rects': seq<Fastpath.BitmapRect>)
    requires Placed(u) && u.width <= 65472
    requires Sent(u, true, rects, TileRow(u.width, y, h, 0) + later, all)
    ensures Sent(u, true, rects', later, all)
  {
    hide Sent, Encode, Fit;
    rects' := rects;
    var x: u16 := 0;
    while x < u.width
      invariant x <= 65472 && x % 64 == 0
      invariant Sent(u, true, rects', TileRow(u.width, y, h, x) + later, all)
      decreases u.width as int - x
    {
      var t := Tile(x, y, Min(TILE_SIZE, u.width - x), h);
      ghost var left := TileRow(u.width, y, h, x) + later;
      assert left[0] == t && left[1..] == TileRow(u.width, y, h, x + TILE_SIZE) + later;
      SentNext(u, true, rects', left, all);
      rects' := PushBitmapRect(u, t, true, rects');
      x := x + TILE_SIZE;
    }
    assert [] + later == later;
  }

  method EncodeBitmapUpdate(u: BitmapUpdate, planar: bool) returns (rects: seq<Fastpath.BitmapRect>)
    requires Placed(u) && u.width > 0 && Finite(u.width, u.height, planar)
    ensures rects == Rects(u, planar)
  {
    hide Sent, Encode, Fit, RectsFrom, StripHeight, Apart;
    ghost var all := TilesOf(u, planar);
    TilesPartition(u, planar, 0, 0);
    SentStart(u, planar, all);
    rects := [];
    var y: u16 := 0;
    if planar {
      while y < u.height
        invariant y <= 65472 && y % 64 == 0 && Sent(u, planar, rects, TileRows(u.width, u.height, y), all)
        decreases u.height as int - y
      {
        var h := Min(TILE_SIZE, u.height - y);
        rects := PushTileRow(u, y, h, rects, TileRows(u.width, u.height, y + TILE_SIZE), all);
        y := y + TILE_SIZE;
      }
    } else {
      var strip := StripHeight(u.width);
      while y < u.height
        invariant y <= u.height && Sent(u, planar, rects, Strips(u.width, u.height, y), all)
        decreases u.height as int - y
      {
        var t := Tile(0, y, u.width, Min(strip, u.height - y));
        ghost var left := Strips(u.width, u.height, y);
        assert left[0] == t && left[1..] == Strips(u.width, u.height, y + t.h);
        SentNext(u, planar, rects, left, all);
        rects := PushBitmapRect(u, t, planar, rects);
        y := y + t.h;
      }
    }
    SentEnd(u, planar, rects, all);
  }
}
