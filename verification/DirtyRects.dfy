/**
  Dirty-rectangle diffing between two frames (crates/rdpcore-server/src/diff.rs): 64x64 tiles are
  compared byte by byte and adjacent dirty tiles are greedily merged into rectangles.
 */
module DirtyRects {
  import opened Bytes

  const TILE: nat := 64

  datatype Rect = Rect(x: nat, y: nat, width: nat, height: nat)

  predicate Contains(r: Rect, x: int, y: int) {
    r.x <= x < r.x + r.width && r.y <= y < r.y + r.height
  }

  ghost predicate Covers(rects: seq<Rect>, x: int, y: int) {
    exists i :: 0 <= i < |rects| && Contains(rects[i], x, y)
  }

  // ------------------------------------------------------------------
  // Comparing pixels
  // ------------------------------------------------------------------

  /** A checked sub-slice: None when it leaves the image. */
  function Get(img: seq<byte>, lo: nat, hi: nat): Option<seq<byte>> {
    if lo <= hi <= |img| then Some(img[lo..hi]) else None
  }

  predicate SlicesEqual(img1: seq<byte>, a1: nat, b1: nat, img2: seq<byte>, a2: nat, b2: nat) {
    Get(img1, a1, b1).Some? && Get(img2, a2, b2).Some? && Get(img1, a1, b1) == Get(img2, a2, b2)
  }

  /** Byte offset of pixel (x, y). */
  function Offset(y: nat, stride: nat, x: nat, bpp: nat): nat {
    y * stride + x * bpp
  }

  /** Two frames of one size, each with its own stride. */
  datatype Frames = Frames(img1: seq<byte>, stride1: nat, img2: seq<byte>, stride2: nat, bpp: nat) {

    /** The bytes of columns [lo, hi) of row `y` exist in both frames and agree. */
    predicate SpanEqual(y: nat, lo: nat, hi: nat) {
      SlicesEqual(
        img1, Offset(y, stride1, lo, bpp), Offset(y, stride1, hi, bpp),
        img2, Offset(y, stride2, lo, bpp), Offset(y, stride2, hi, bpp))
    }

    predicate PixelEqual(x: nat, y: nat) {
      SpanEqual(y, x, x + 1)
    }
  }

  lemma PixelOffsets(y: nat, stride: nat, lo: nat, hi: nat, x: nat, bpp: nat)
    requires lo <= x < hi
    ensures Offset(y, stride, x, bpp) == Offset(y, stride, lo, bpp) + (x - lo) * bpp
    ensures Offset(y, stride, x + 1, bpp) == Offset(y, stride, lo, bpp) + (x - lo) * bpp + bpp
    ensures Offset(y, stride, lo, bpp) + (x - lo) * bpp + bpp <= Offset(y, stride, hi, bpp)
  {
    Distribute(lo, x - lo, bpp);
    Distribute(x, 1, bpp);
    Distribute(x + 1, hi - x - 1, bpp);
  }

  /** Equal slices are equal on every common sub-range. */
  lemma SubSlicesEqual(img1: seq<byte>, a1: nat, b1: nat, img2: seq<byte>, a2: nat, b2: nat, k: nat, n: nat)
    requires SlicesEqual(img1, a1, b1, img2, a2, b2)
    requires a1 + k + n <= b1
    ensures SlicesEqual(img1, a1 + k, a1 + k + n, img2, a2 + k, a2 + k + n)
  {
    assert b1 - a1 == |img1[a1..b1]| == |img2[a2..b2]| == b2 - a2;
    var s1, s2 := img1[a1 + k..a1 + k + n], img2[a2 + k..a2 + k + n];
    forall i | 0 <= i < n ensures s1[i] == s2[i] {
      assert img1[a1..b1][k + i] == img2[a2..b2][k + i];
    }
    assert s1 == s2;
  }

  /** A span that agrees agrees at each of its pixels. */
  lemma SpanPixels(f: Frames, y: nat, lo: nat, hi: nat, x: nat)
    requires f.SpanEqual(y, lo, hi) && lo <= x < hi
    ensures f.PixelEqual(x, y)
  {
    hide Offset, SlicesEqual;
    PixelOffsets(y, f.stride1, lo, hi, x, f.bpp);
    PixelOffsets(y, f.stride2, lo, hi, x, f.bpp);
    SubSlicesEqual(f.img1, Offset(y, f.stride1, lo, f.bpp), Offset(y, f.stride1, hi, f.bpp),
                   f.img2, Offset(y, f.stride2, lo, f.bpp), Offset(y, f.stride2, hi, f.bpp),
                   (x - lo) * f.bpp, f.bpp);
  }

  lemma JoinSlices(img1: seq<byte>, a1: nat, b1: nat, c1: nat, img2: seq<byte>, a2: nat, b2: nat, c2: nat)
    requires SlicesEqual(img1, a1, b1, img2, a2, b2) && SlicesEqual(img1, b1, c1, img2, b2, c2)
    ensures SlicesEqual(img1, a1, c1, img2, a2, c2)
  {
    assert img1[a1..c1] == img1[a1..b1] + img1[b1..c1];
    assert img2[a2..c2] == img2[a2..b2] + img2[b2..c2];
  }

  /** A span whose pixels all agree agrees. */
  lemma {:induction false} PixelsSpan(f: Frames, y: nat, lo: nat, hi: nat)
    requires lo < hi && forall x :: lo <= x < hi ==> f.PixelEqual(x, y)
    ensures f.SpanEqual(y, lo, hi)
    decreases hi
  {
    hide Offset, SlicesEqual;
    assert f.PixelEqual(hi - 1, y);
    if hi > lo + 1 {
      PixelsSpan(f, y, lo, hi - 1);
      JoinSlices(f.img1, Offset(y, f.stride1, lo, f.bpp), Offset(y, f.stride1, hi - 1, f.bpp), Offset(y, f.stride1, hi, f.bpp),
                 f.img2, Offset(y, f.stride2, lo, f.bpp), Offset(y, f.stride2, hi - 1, f.bpp), Offset(y, f.stride2, hi, f.bpp));
    }
  }

  predicate TileDiffers(f: Frames, tile: Rect) {
    exists y :: tile.y <= y < tile.y + tile.height && TileRowDiffers(f, tile, y)
  }

  predicate TileRowDiffers(f: Frames, tile: Rect, y: nat) {
    !f.SpanEqual(y, tile.x, tile.x + tile.width)
  }

  /** Fast path of visible_pixels_equal when rows are packed; row by row otherwise. */
  predicate VisiblePixelsEqual(f: Frames, w: nat, h: nat) {
    if w * f.bpp == 0 then true
    else if f.stride1 == f.stride2 == w * f.bpp then
      var needed := h * (w * f.bpp);
      |f.img1| >= needed && |f.img2| >= needed && f.img1[..needed] == f.img2[..needed]
    else forall y :: 0 <= y < h ==> f.SpanEqual(y, 0, w)
  }

  lemma PackedRow(img: seq<byte>, row: nat, y: nat, h: nat)
    requires y < h && h * row <= |img|
    ensures y * row + row <= h * row
    ensures img[y * row..y * row + row] == img[..h * row][y * row..y * row + row]
  {
    LaterRow(y, h, row);
    SliceOfPrefix(img, h * row, y * row, y * row + row);
  }

  lemma SliceOfPrefix(img: seq<byte>, n: nat, a: nat, b: nat)
    requires a <= b <= n <= |img|
    ensures img[a..b] == img[..n][a..b]
  {
  }

  /** The packed fast path decides the same as the row-by-row comparison. */
  lemma VisiblePixelsEqualIff(f: Frames, w: nat, h: nat)
    requires w > 0 && h > 0 && f.bpp > 0
    ensures VisiblePixelsEqual(f, w, h) <==> forall y :: 0 <= y < h ==> f.SpanEqual(y, 0, w)
  {
    var row := w * f.bpp;
    assert row > 0;
    if f.stride1 == f.stride2 == row {
      if VisiblePixelsEqual(f, w, h) {
        forall y | 0 <= y < h ensures f.SpanEqual(y, 0, w) {
          PackedRow(f.img1, row, y, h);
          PackedRow(f.img2, row, y, h);
        }
      } else if forall y :: 0 <= y < h ==> f.SpanEqual(y, 0, w) {
        PackedRowsAgree(f, w, h);
        assert false;
      }
    }
  }

  lemma {:induction false} PackedRowsAgree(f: Frames, w: nat, h: nat)
    requires f.stride1 == f.stride2 == w * f.bpp
    requires forall y :: 0 <= y < h ==> f.SpanEqual(y, 0, w)
    ensures var n := h * (w * f.bpp); n <= |f.img1| && n <= |f.img2| && f.img1[..n] == f.img2[..n]
  {
    var row := w * f.bpp;
    if h > 0 {
      PackedRowsAgree(f, w, h - 1);
      var n := (h - 1) * row;
      assert f.SpanEqual(h - 1, 0, w);
      assert h * row == n + row;
      assert f.img1[..n + row] == f.img1[..n] + f.img1[n..n + row];
      assert f.img2[..n + row] == f.img2[..n] + f.img2[n..n + row];
    }
  }

  // ------------------------------------------------------------------
  // The tile bit set
  // ------------------------------------------------------------------

  function BitIndex(i: nat): bv6 {
    (i % 64) as bv6
  }

  function Mask(bit: bv6): bv64 {
    1 << bit
  }

  function Masked(word: bv64, mask: bv64): bv64 {
    word & mask
  }

  function Assigned(word: bv64, mask: bv64, val: bool): bv64 {
    if val then word | mask else word & !mask
  }

  predicate TestBit(word: bv64, bit: bv6) {
    Masked(word, Mask(bit)) != 0
  }

  function WithBit(word: bv64, bit: bv6, val: bool): bv64 {
    Assigned(word, Mask(bit), val)
  }

  lemma MasksDisjoint(bit: bv6, other: bv6)
    ensures Mask(bit) != 0
    ensures other != bit ==> Masked(Mask(bit), Mask(other)) == 0
  {
  }

  lemma AssignedMask(word: bv64, m: bv64)
    ensures Masked(Assigned(word, m, true), m) == m && Masked(Assigned(word, m, false), m) == 0
  {
  }

  lemma AssignedOther(word: bv64, m: bv64, n: bv64)
    requires Masked(m, n) == 0
    ensures Masked(Assigned(word, m, true), n) == Masked(word, n)
    ensures Masked(Assigned(word, m, false), n) == Masked(word, n)
  {
  }

  lemma SameBitTests(word: bv64, bit: bv6, val: bool)
    ensures TestBit(WithBit(word, bit, val), bit) == val
  {
    hide Mask, Masked, Assigned;
    MasksDisjoint(bit, bit);
    AssignedMask(word, Mask(bit));
  }

  lemma OtherBitTests(word: bv64, bit: bv6, other: bv6, val: bool)
    requires other != bit
    ensures TestBit(WithBit(word, bit, val), other) == TestBit(word, other)
  {
    hide Mask, Masked, Assigned;
    MasksDisjoint(bit, other);
    AssignedOther(word, Mask(bit), Mask(other));
  }

  lemma BitIndexValue(i: nat)
    ensures BitIndex(i) as nat == i % 64
  {
  }

  lemma BitIndexDistinct(i: nat, j: nat)
    requires i % 64 != j % 64
    ensures BitIndex(i) != BitIndex(j)
  {
    hide BitIndex;
    BitIndexValue(i);
    BitIndexValue(j);
  }

  /** Up to 8192 flags in an inline array, more on the heap. */
  class SmallBitSet {
    const len: nat
    const inlined: array<bv64>
    const heap: array<bv64>

    ghost const Repr: set<object> := {this, inlined, heap}

    ghost predicate Valid() {
      inlined.Length == 128 && inlined != heap &&
      len <= 64 * (if heap.Length == 0 then 128 else heap.Length)
    }

    ghost predicate Has(i: nat)
      requires Valid() && i < len
      reads inlined, heap
    {
      TestBit(if heap.Length == 0 then inlined[i / 64] else heap[i / 64], BitIndex(i))
    }

    /** The flags as a sequence. */
    ghost function Bits(): (b: seq<bool>)
      requires Valid()
      reads inlined, heap
      ensures |b| == len && forall i :: 0 <= i < len ==> b[i] == Has(i)
    {
      seq(len, i requires 0 <= i < len reads inlined, heap => Has(i))
    }

    constructor (n: nat)
      ensures Valid() && len == n && fresh(inlined) && fresh(heap)
      ensures forall i :: 0 <= i < n ==> !Bits()[i]
    {
      len := n;
      var words := (n + 63) / 64;
      inlined := new bv64[128](_ => 0);
      heap := new bv64[if words <= 128 then 0 else words](_ => 0);
    }

    method Get(i: nat) returns (r: bool)
      requires Valid() && i < len
      ensures r == Bits()[i]
    {
      var word := if heap.Length == 0 then inlined[i / 64] else heap[i / 64];
      r := TestBit(word, BitIndex(i));
    }

    method Set(i: nat, val: bool)
      requires Valid() && i < len
      modifies inlined, heap
      ensures Bits() == old(Bits())[i := val]
    {
      hide BitIndex, TestBit, WithBit;
      ghost var before := Bits();
      var words := if heap.Length == 0 then inlined else heap;
      var bit := BitIndex(i);
      words[i / 64] := WithBit(words[i / 64], bit, val);
      forall j | 0 <= j < len ensures Has(j) == before[i := val][j] {
        SameBitTests(old(words[i / 64]), bit, val);
        if j != i && j / 64 == i / 64 {
          BitIndexDistinct(i, j);
          OtherBitTests(old(words[i / 64]), bit, BitIndex(j), val);
        }
      }
    }
  }

  // ------------------------------------------------------------------
  // Merging dirty tiles
  // ------------------------------------------------------------------

  /** Bit number of tile (tx, ty) in a grid `nx` tiles wide. */
  function Index(tx: nat, ty: nat, nx: nat): nat {
    ty * nx + tx
  }

  lemma IndexBound(tx: nat, ty: nat, nx: nat, ny: nat)
    requires tx < nx && ty < ny
    ensures Index(tx, ty, nx) < nx * ny
  {
    assert (ny - 1 - ty) * nx >= 0;
  }

  lemma LaterRow(ty: nat, uy: nat, nx: nat)
    requires ty < uy
    ensures ty * nx + nx <= uy * nx
  {
    Distribute(ty, 1, nx);
    Distribute(ty + 1, uy - ty - 1, nx);
  }

  lemma IndexInjective(tx: nat, ty: nat, ux: nat, uy: nat, nx: nat)
    requires tx < nx && ux < nx && Index(tx, ty, nx) == Index(ux, uy, nx)
    ensures tx == ux && ty == uy
  {
    if ty < uy {
      LaterRow(ty, uy, nx);
    } else if uy < ty {
      LaterRow(uy, ty, nx);
    }
  }

  lemma IndexCoordinates(i: nat, nx: nat, ny: nat)
    requires nx > 0 && i < nx * ny
    ensures Index(i % nx, i / nx, nx) == i && i % nx < nx && i / nx < ny
  {
    if i / nx >= ny {
      assert (i / nx - ny) * nx >= 0;
    }
  }

  predicate InGrid(tx: int, ty: int, nx: nat, ny: nat) {
    0 <= tx < nx && 0 <= ty < ny
  }

  /** Whether tile (tx, ty) is set. */
  ghost predicate At(bits: seq<bool>, nx: nat, tx: nat, ty: nat) {
    Index(tx, ty, nx) < |bits| && bits[Index(tx, ty, nx)]
  }

  lemma SetAt(bits: seq<bool>, nx: nat, ny: nat, ux: nat, uy: nat, val: bool)
    requires |bits| == nx * ny && InGrid(ux, uy, nx, ny)
    ensures Index(ux, uy, nx) < |bits|
    ensures forall tx: nat, ty: nat :: InGrid(tx, ty, nx, ny) ==>
              At(bits[Index(ux, uy, nx) := val], nx, tx, ty)
              == if tx == ux && ty == uy then val else At(bits, nx, tx, ty)
  {
    hide Index;
    IndexBound(ux, uy, nx, ny);
    forall tx: nat, ty: nat | InGrid(tx, ty, nx, ny)
      ensures At(bits[Index(ux, uy, nx) := val], nx, tx, ty)
           == if tx == ux && ty == uy then val else At(bits, nx, tx, ty)
    {
      IndexBound(tx, ty, nx, ny);
      if Index(tx, ty, nx) == Index(ux, uy, nx) {
        IndexInjective(tx, ty, ux, uy, nx);
      }
    }
  }

  ghost predicate BlockInGrid(b: Rect, nx: nat, ny: nat) {
    b.width > 0 && b.height > 0 && b.x + b.width <= nx && b.y + b.height <= ny
  }

  /** Every tile of the block is set. */
  ghost predicate BlockSet(bits: seq<bool>, nx: nat, b: Rect) {
    forall tx: nat, ty: nat :: Contains(b, tx, ty) ==> At(bits, nx, tx, ty)
  }

  ghost predicate RowSet(bits: seq<bool>, nx: nat, tx: nat, width: nat, ty: nat) {
    forall ux: nat :: tx <= ux < tx + width ==> At(bits, nx, ux, ty)
  }

  method ClearRow(dirty: SmallBitSet, nx: nat, ny: nat, b: Rect, ty: nat)
    requires dirty.Valid() && dirty.len == nx * ny && BlockInGrid(b, nx, ny) && ty < ny
    modifies dirty.inlined, dirty.heap
    ensures forall tx: nat, uy: nat :: InGrid(tx, uy, nx, ny) ==>
              At(dirty.Bits(), nx, tx, uy)
              == (At(old(dirty.Bits()), nx, tx, uy) && !(uy == ty && b.x <= tx < b.x + b.width))
  {
    hide Index;
    for k := 0 to b.width
      invariant forall tx: nat, uy: nat :: InGrid(tx, uy, nx, ny) ==>
                  At(dirty.Bits(), nx, tx, uy)
                  == (At(old(dirty.Bits()), nx, tx, uy) && !(uy == ty && b.x <= tx < b.x + k))
    {
      SetAt(dirty.Bits(), nx, ny, b.x + k, ty, false);
      dirty.Set(Index(b.x + k, ty, nx), false);
    }
  }

  method ClearBlock(dirty: SmallBitSet, nx: nat, ny: nat, b: Rect)
    requires dirty.Valid() && dirty.len == nx * ny && BlockInGrid(b, nx, ny)
    modifies dirty.inlined, dirty.heap
    ensures forall tx: nat, ty: nat :: InGrid(tx, ty, nx, ny) ==>
              At(dirty.Bits(), nx, tx, ty) == (At(old(dirty.Bits()), nx, tx, ty) && !Contains(b, tx, ty))
  {
    hide Index;
    for k := 0 to b.height
      invariant forall tx: nat, ty: nat :: InGrid(tx, ty, nx, ny) ==>
                  At(dirty.Bits(), nx, tx, ty)
                  == (At(old(dirty.Bits()), nx, tx, ty) && !Contains(b.(height := k), tx, ty))
    {
      ClearRow(dirty, nx, ny, b, b.y + k);
    }
  }

  method RowAllSet(dirty: SmallBitSet, nx: nat, ny: nat, tx: nat, width: nat, ty: nat) returns (all: bool)
    requires dirty.Valid() && dirty.len == nx * ny && tx + width <= nx && ty < ny
    ensures all == RowSet(dirty.Bits(), nx, tx, width, ty)
  {
    hide Index;
    for k := 0 to width
      invariant RowSet(dirty.Bits(), nx, tx, k, ty)
    {
      IndexBound(tx + k, ty, nx, ny);
      var set? := dirty.Get(Index(tx + k, ty, nx));
      if !set? {
        assert !At(dirty.Bits(), nx, tx + k, ty);
        return false;
      }
    }
    all := true;
  }

  /** The maximal block grown from a dirty tile: right along its row, then down while the whole row is dirty. */
  method GrowBlock(dirty: SmallBitSet, nx: nat, ny: nat, tx: nat, ty: nat) returns (b: Rect)
    requires dirty.Valid() && dirty.len == nx * ny && InGrid(tx, ty, nx, ny)
    requires At(dirty.Bits(), nx, tx, ty)
    ensures b.x == tx && b.y == ty && BlockInGrid(b, nx, ny) && BlockSet(dirty.Bits(), nx, b)
    ensures tx + b.width == nx || !At(dirty.Bits(), nx, tx + b.width, ty)
    ensures ty + b.height == ny
         || !RowSet(dirty.Bits(), nx, tx, b.width, ty + b.height)
  {
    hide Index;
    var width := 1;
    while tx + width < nx
      invariant tx + width <= nx
      invariant RowSet(dirty.Bits(), nx, tx, width, ty)
    {
      IndexBound(tx + width, ty, nx, ny);
      var next := dirty.Get(Index(tx + width, ty, nx));
      if !next {
        break;
      }
      width := width + 1;
    }
    var height := 1;
    while ty + height < ny
      invariant ty + height <= ny
      invariant BlockSet(dirty.Bits(), nx, Rect(tx, ty, width, height))
    {
      var row := RowAllSet(dirty, nx, ny, tx, width, ty + height);
      if !row {
        break;
      }
      height := height + 1;
    }
    b := Rect(tx, ty, width, height);
  }

  /** Tiles `a` and `b` share no tile (or no pixel). */
  ghost predicate Disjoint(a: Rect, b: Rect) {
    forall x: nat, y: nat :: !(Contains(a, x, y) && Contains(b, x, y))
  }

  ghost predicate PairwiseDisjoint(rects: seq<Rect>) {
    forall i, j :: 0 <= i < j < |rects| ==> Disjoint(rects[i], rects[j])
  }

  /** The blocks cut out of `before` so far: in the grid, disjoint, and together exactly what `now` lost. */
  ghost predicate Extracted(before: seq<bool>, now: seq<bool>, blocks: seq<Rect>, nx: nat, ny: nat) {
    && (forall i :: 0 <= i < |blocks| ==> BlockInGrid(blocks[i], nx, ny))
    && PairwiseDisjoint(blocks)
    && forall tx: nat, ty: nat :: InGrid(tx, ty, nx, ny) ==>
         (At(before, nx, tx, ty) <==> At(now, nx, tx, ty) || Covers(blocks, tx, ty))
         && !(At(now, nx, tx, ty) && Covers(blocks, tx, ty))
  }

  lemma CoversAppend(blocks: seq<Rect>, b: Rect, x: int, y: int)
    ensures Covers(blocks + [b], x, y) <==> Covers(blocks, x, y) || Contains(b, x, y)
  {
    var all := blocks + [b];
    if Covers(blocks, x, y) {
      var i :| 0 <= i < |blocks| && Contains(blocks[i], x, y);
      assert all[i] == blocks[i];
    }
    if Contains(b, x, y) {
      assert all[|blocks|] == b;
    }
  }

  lemma ExtractBlock(before: seq<bool>, now: seq<bool>, now': seq<bool>, blocks: seq<Rect>, b: Rect, nx: nat, ny: nat)
    requires Extracted(before, now, blocks, nx, ny)
    requires BlockInGrid(b, nx, ny) && BlockSet(now, nx, b)
    requires forall tx: nat, ty: nat :: InGrid(tx, ty, nx, ny) ==>
               At(now', nx, tx, ty) == (At(now, nx, tx, ty) && !Contains(b, tx, ty))
    ensures Extracted(before, now', blocks + [b], nx, ny)
  {
    hide Index;
    forall tx: nat, ty: nat | InGrid(tx, ty, nx, ny)
      ensures At(before, nx, tx, ty) <==> At(now', nx, tx, ty) || Covers(blocks + [b], tx, ty)
      ensures !(At(now', nx, tx, ty) && Covers(blocks + [b], tx, ty))
    {
      CoversAppend(blocks, b, tx, ty);
    }
    forall i | 0 <= i < |blocks| ensures Disjoint(blocks[i], b) {
      forall x: nat, y: nat ensures !(Contains(blocks[i], x, y) && Contains(b, x, y)) {
        if Contains(blocks[i], x, y) {
          assert InGrid(x, y, nx, ny) && Covers(blocks, x, y);
        }
      }
    }
  }

  /** Tiles in scan order before `idx` are all clear. */
  ghost predicate ClearBelow(bits: seq<bool>, idx: nat) {
    forall i :: 0 <= i < idx && i < |bits| ==> !bits[i]
  }

  /** Size in pixels of `run` tiles starting at tile `start`, clipped to the frame's edge. */
  function PixelExtent(start: nat, run: nat, tiles: nat, size: nat): nat {
    if run > 0 && start + run == tiles && size % TILE > 0 then (run - 1) * TILE + size % TILE else run * TILE
  }

  function PixelRect(b: Rect, nx: nat, ny: nat, w: nat, h: nat): Rect {
    Rect(b.x * TILE, b.y * TILE, PixelExtent(b.x, b.width, nx, w), PixelExtent(b.y, b.height, ny, h))
  }

  function PixelRects(blocks: seq<Rect>, nx: nat, ny: nat, w: nat, h: nat): (r: seq<Rect>)
    ensures |r| == |blocks|
  {
    seq(|blocks|, i requires 0 <= i < |blocks| => PixelRect(blocks[i], nx, ny, w, h))
  }

  /** After a block's row is cleared, the scan may resume past it. */
  lemma ScanAdvances(now: seq<bool>, now': seq<bool>, idx: nat, b: Rect, nx: nat, ny: nat)
    requires |now| == |now'| == nx * ny && nx > 0 && idx < nx * ny
    requires BlockInGrid(b, nx, ny) && b.x == idx % nx && b.y == idx / nx
    requires ClearBelow(now, idx)
    requires forall tx: nat, ty: nat :: InGrid(tx, ty, nx, ny) ==>
               At(now', nx, tx, ty) == (At(now, nx, tx, ty) && !Contains(b, tx, ty))
    ensures ClearBelow(now', idx + b.width)
  {
    hide Index, At, InGrid;
    forall i | 0 <= i < idx + b.width && i < |now'| ensures !now'[i] {
      AtIndex(now, nx, ny, i);
      AtIndex(now', nx, ny, i);
      if i >= idx {
        InFirstRow(idx, i - idx, b, nx);
      }
    }
  }

  lemma InFirstRow(idx: nat, k: nat, b: Rect, nx: nat)
    requires nx > 0 && b.x == idx % nx && b.y == idx / nx && k < b.width && b.x + b.width <= nx && b.height > 0
    ensures Contains(b, (idx + k) % nx, (idx + k) / nx)
  {
    SameRow(idx, k, nx);
  }

  lemma SameRow(idx: nat, k: nat, nx: nat)
    requires nx > 0 && idx % nx + k < nx
    ensures (idx + k) / nx == idx / nx && (idx + k) % nx == idx % nx + k
  {
    var q, r := idx / nx, idx % nx;
    assert idx + k == q * nx + (r + k);
    QuotientIs(idx + k, q, r + k, nx);
  }

  lemma QuotientIs(n: nat, q: nat, r: nat, d: nat)
    requires r < d && n == q * d + r
    ensures n / d == q && n % d == r
  {
    var q', r' := n / d, n % d;
    assert n == q' * d + r';
    if q < q' {
      LaterRow(q, q', d);
    } else if q' < q {
      LaterRow(q', q, d);
    }
  }

  lemma AtIndex(bits: seq<bool>, nx: nat, ny: nat, idx: nat)
    requires |bits| == nx * ny && nx > 0 && idx < nx * ny
    ensures InGrid(idx % nx, idx / nx, nx, ny) && At(bits, nx, idx % nx, idx / nx) == bits[idx]
  {
    hide Index;
    IndexCoordinates(idx, nx, ny);
  }

  /** Grows a block from the dirty tile `idx` and clears it. */
  method TakeBlock(dirty: SmallBitSet, nx: nat, ny: nat, idx: nat, ghost before: seq<bool>, ghost blocks: seq<Rect>)
    returns (b: Rect)
    requires dirty.Valid() && dirty.len == nx * ny && nx > 0 && idx < nx * ny
    requires dirty.Bits()[idx] && ClearBelow(dirty.Bits(), idx)
    requires Extracted(before, dirty.Bits(), blocks, nx, ny)
    modifies dirty.inlined, dirty.heap
    ensures b.width > 0 && ClearBelow(dirty.Bits(), idx + b.width)
    ensures Extracted(before, dirty.Bits(), blocks + [b], nx, ny)
  {
    AtIndex(dirty.Bits(), nx, ny, idx);
    hide Index, Extracted, ClearBelow, BlockSet, At, RowSet;
    b := GrowBlock(dirty, nx, ny, idx % nx, idx / nx);
    ghost var now := dirty.Bits();
    ClearBlock(dirty, nx, ny, b);
    ExtractBlock(before, now, dirty.Bits(), blocks, b, nx, ny);
    ScanAdvances(now, dirty.Bits(), idx, b, nx, ny);
  }

  /** Greedy merge of the dirty tiles: disjoint blocks that together are exactly the dirty tiles. */
  method MergeTiles(dirty: SmallBitSet, nx: nat, ny: nat, w: nat, h: nat)
    returns (rects: seq<Rect>, ghost blocks: seq<Rect>)
    requires dirty.Valid() && dirty.len == nx * ny && nx > 0
    modifies dirty.inlined, dirty.heap
    ensures forall i :: 0 <= i < |blocks| ==> BlockInGrid(blocks[i], nx, ny)
    ensures PairwiseDisjoint(blocks)
    ensures forall tx: nat, ty: nat :: InGrid(tx, ty, nx, ny) ==>
              (At(old(dirty.Bits()), nx, tx, ty) <==> Covers(blocks, tx, ty))
    ensures rects == PixelRects(blocks, nx, ny, w, h)
  {
    hide Index, PixelRect, Extracted, ClearBelow, Covers;
    ghost var before := dirty.Bits();
    rects, blocks := [], [];
    ScanStarts(before, nx, ny);
    var idx := 0;
    while idx < nx * ny
      invariant Extracted(before, dirty.Bits(), blocks, nx, ny)
      invariant ClearBelow(dirty.Bits(), idx)
      invariant rects == PixelRects(blocks, nx, ny, w, h)
      decreases nx * ny - idx
    {
      var set? := dirty.Get(idx);
      if !set? {
        ScanSkips(dirty.Bits(), idx);
        idx := idx + 1;
        continue;
      }
      var b := TakeBlock(dirty, nx, ny, idx, before, blocks);
      rects := rects + [PixelRect(b, nx, ny, w, h)];
      blocks := blocks + [b];
      idx := idx + b.width;
    }
    ScanEnds(before, dirty.Bits(), blocks, nx, ny, idx);
  }

  lemma ScanStarts(bits: seq<bool>, nx: nat, ny: nat)
    ensures Extracted(bits, bits, [], nx, ny) && ClearBelow(bits, 0)
  {
  }

  lemma ScanSkips(bits: seq<bool>, idx: nat)
    requires ClearBelow(bits, idx) && idx < |bits| && !bits[idx]
    ensures ClearBelow(bits, idx + 1)
  {
  }

  lemma ScanEnds(before: seq<bool>, now: seq<bool>, blocks: seq<Rect>, nx: nat, ny: nat, idx: nat)
    requires Extracted(before, now, blocks, nx, ny) && ClearBelow(now, idx) && |now| == nx * ny <= idx
    ensures forall i :: 0 <= i < |blocks| ==> BlockInGrid(blocks[i], nx, ny)
    ensures PairwiseDisjoint(blocks)
    ensures forall tx: nat, ty: nat :: InGrid(tx, ty, nx, ny) ==>
              (At(before, nx, tx, ty) <==> Covers(blocks, tx, ty))
  {
    hide Index;
    forall tx: nat, ty: nat | InGrid(tx, ty, nx, ny)
      ensures At(before, nx, tx, ty) <==> Covers(blocks, tx, ty)
    {
      IndexBound(tx, ty, nx, ny);
    }
  }

  // ------------------------------------------------------------------
  // The diff
  // ------------------------------------------------------------------

  function Tiles(size: nat): nat {
    (size + TILE - 1) / TILE
  }

  function TileRect(tx: nat, ty: nat, w: nat, h: nat): Rect
    requires tx * TILE <= w && ty * TILE <= h
  {
    Rect(tx * TILE, ty * TILE,
         if w - tx * TILE < TILE then w - tx * TILE else TILE,
         if h - ty * TILE < TILE then h - ty * TILE else TILE)
  }

  /** One axis of a merged block: its pixels are exactly the frame's pixels in its tiles. */
  lemma ExtentCovers(start: nat, run: nat, size: nat, x: nat)
    requires run > 0 && start + run <= Tiles(size) && x < size
    ensures start * TILE + PixelExtent(start, run, Tiles(size), size) <= size
    ensures PixelExtent(start, run, Tiles(size), size) > 0
    ensures start * TILE <= x < start * TILE + PixelExtent(start, run, Tiles(size), size)
         <==> start <= x / TILE < start + run
  {
  }

  lemma PixelRectContains(b: Rect, w: nat, h: nat, x: nat, y: nat)
    requires BlockInGrid(b, Tiles(w), Tiles(h)) && x < w && y < h
    ensures Contains(PixelRect(b, Tiles(w), Tiles(h), w, h), x, y) <==> Contains(b, x / TILE, y / TILE)
    ensures InFrame(PixelRect(b, Tiles(w), Tiles(h), w, h), w, h)
  {
    ExtentCovers(b.x, b.width, w, x);
    ExtentCovers(b.y, b.height, h, y);
  }

  ghost predicate InFrame(r: Rect, w: nat, h: nat) {
    r.width > 0 && r.height > 0 && r.x + r.width <= w && r.y + r.height <= h
  }

  /** Some pixel of the tile that holds (x, y) differs. */
  ghost predicate TileDirty(f: Frames, w: nat, h: nat, x: nat, y: nat) {
    exists px: nat, py: nat :: px < w && py < h && px / TILE == x / TILE && py / TILE == y / TILE && !f.PixelEqual(px, py)
  }

  /** What a diff is for: exact at tile precision, disjoint, inside the frame, and empty only for equal frames. */
  ghost predicate IsDiff(f: Frames, w: nat, h: nat, rects: seq<Rect>) {
    && (forall i :: 0 <= i < |rects| ==> InFrame(rects[i], w, h))
    && PairwiseDisjoint(rects)
    && forall x: nat, y: nat :: x < w && y < h ==> (Covers(rects, x, y) <==> TileDirty(f, w, h, x, y))
  }

  lemma TileHolds(tx: nat, ty: nat, w: nat, h: nat, x: nat, y: nat)
    requires tx * TILE < w && ty * TILE < h
    ensures var tile := TileRect(tx, ty, w, h);
            && tile.width > 0
            && (Contains(tile, x, y) <==> x < w && y < h && x / TILE == tx && y / TILE == ty)
  {
  }

  lemma TileDiffersDirty(f: Frames, w: nat, h: nat, tx: nat, ty: nat)
    requires tx * TILE < w && ty * TILE < h && TileDiffers(f, TileRect(tx, ty, w, h))
    ensures TileDirty(f, w, h, tx * TILE, ty * TILE)
  {
    var tile := TileRect(tx, ty, w, h);
    var y: nat :| tile.y <= y < tile.y + tile.height && TileRowDiffers(f, tile, y);
    TileHolds(tx, ty, w, h, tile.x, y);
    hide TileRect;
    if forall x :: tile.x <= x < tile.x + tile.width ==> f.PixelEqual(x, y) {
      PixelsSpan(f, y, tile.x, tile.x + tile.width);
      assert false;
    }
    var x: nat :| tile.x <= x < tile.x + tile.width && !f.PixelEqual(x, y);
    TileHolds(tx, ty, w, h, x, y);
    assert tx * TILE / TILE == tx && ty * TILE / TILE == ty;
  }

  lemma DirtyTileDiffers(f: Frames, w: nat, h: nat, tx: nat, ty: nat)
    requires tx * TILE < w && ty * TILE < h && TileDirty(f, w, h, tx * TILE, ty * TILE)
    ensures TileDiffers(f, TileRect(tx, ty, w, h))
  {
    var tile := TileRect(tx, ty, w, h);
    assert tx * TILE / TILE == tx && ty * TILE / TILE == ty;
    var x: nat, y: nat :| x < w && y < h && x / TILE == tx && y / TILE == ty && !f.PixelEqual(x, y);
    TileHolds(tx, ty, w, h, x, y);
    hide TileRect;
    if f.SpanEqual(y, tile.x, tile.x + tile.width) {
      SpanPixels(f, y, tile.x, tile.x + tile.width, x);
      assert false;
    }
    assert TileRowDiffers(f, tile, y);
  }

  /** A tile is flagged exactly when one of its pixels differs. */
  lemma TileDiffersIff(f: Frames, w: nat, h: nat, tx: nat, ty: nat)
    requires tx * TILE < w && ty * TILE < h
    ensures TileDiffers(f, TileRect(tx, ty, w, h)) <==> TileDirty(f, w, h, tx * TILE, ty * TILE)
  {
    hide TileDiffers, TileDirty;
    if TileDiffers(f, TileRect(tx, ty, w, h)) {
      TileDiffersDirty(f, w, h, tx, ty);
    }
    if TileDirty(f, w, h, tx * TILE, ty * TILE) {
      DirtyTileDiffers(f, w, h, tx, ty);
    }
  }

  lemma TileStarts(tx: nat, size: nat)
    ensures tx < Tiles(size) <==> tx * TILE < size
  {
  }

  /** The bits say which tiles differ, for the tiles before (tx, ty) in scan order. */
  ghost predicate Marked(f: Frames, w: nat, h: nat, bits: seq<bool>, rows: nat, cols: nat) {
    forall tx: nat, ty: nat :: InGrid(tx, ty, Tiles(w), Tiles(h)) && (ty < rows || (ty == rows && tx < cols)) ==>
      At(bits, Tiles(w), tx, ty) == TileDirty(f, w, h, tx * TILE, ty * TILE)
  }

  method MarkTile(f: Frames, w: nat, h: nat, dirty: SmallBitSet, tx: nat, ty: nat)
    requires dirty.Valid() && dirty.len == Tiles(w) * Tiles(h) && InGrid(tx, ty, Tiles(w), Tiles(h))
    requires Marked(f, w, h, dirty.Bits(), ty, tx)
    modifies dirty.inlined, dirty.heap
    ensures Marked(f, w, h, dirty.Bits(), ty, tx + 1)
  {
    hide Index, TileDirty, TileDiffers, Tiles;
    TileStarts(tx, w);
    TileStarts(ty, h);
    var differs := TileDiffers(f, TileRect(tx, ty, w, h));
    TileDiffersIff(f, w, h, tx, ty);
    SetAt(dirty.Bits(), Tiles(w), Tiles(h), tx, ty, differs);
    dirty.Set(Index(tx, ty, Tiles(w)), differs);
  }

  method MarkTiles(f: Frames, w: nat, h: nat) returns (dirty: SmallBitSet)
    ensures dirty.Valid() && dirty.len == Tiles(w) * Tiles(h) && fresh(dirty.inlined) && fresh(dirty.heap)
    ensures forall tx: nat, ty: nat :: InGrid(tx, ty, Tiles(w), Tiles(h)) ==>
              At(dirty.Bits(), Tiles(w), tx, ty) == TileDirty(f, w, h, tx * TILE, ty * TILE)
  {
    hide Index, TileDirty, Tiles, At;
    dirty := new SmallBitSet(Tiles(w) * Tiles(h));
    for ty := 0 to Tiles(h)
      invariant dirty.Valid() && fresh(dirty.inlined) && fresh(dirty.heap)
      invariant Marked(f, w, h, dirty.Bits(), ty, 0)
    {
      for tx := 0 to Tiles(w)
        invariant dirty.Valid() && fresh(dirty.inlined) && fresh(dirty.heap)
        invariant Marked(f, w, h, dirty.Bits(), ty, tx)
      {
        MarkTile(f, w, h, dirty, tx, ty);
      }
    }
  }

  /** Merged tile blocks, read in pixels, are a diff. */
  lemma BlocksAreDiff(f: Frames, w: nat, h: nat, blocks: seq<Rect>)
    requires forall i :: 0 <= i < |blocks| ==> BlockInGrid(blocks[i], Tiles(w), Tiles(h))
    requires PairwiseDisjoint(blocks)
    requires forall tx: nat, ty: nat :: InGrid(tx, ty, Tiles(w), Tiles(h)) ==>
               (TileDirty(f, w, h, tx * TILE, ty * TILE) <==> Covers(blocks, tx, ty))
    requires w > 0 && h > 0
    ensures IsDiff(f, w, h, PixelRects(blocks, Tiles(w), Tiles(h), w, h))
  {
    hide TileDirty, PixelRect, Tiles;
    var rects := PixelRects(blocks, Tiles(w), Tiles(h), w, h);
    forall i | 0 <= i < |rects| ensures InFrame(rects[i], w, h) {
      PixelRectContains(blocks[i], w, h, 0, 0);
    }
    forall i, j | 0 <= i < j < |rects| ensures Disjoint(rects[i], rects[j]) {
      assert Disjoint(blocks[i], blocks[j]);
      forall x: nat, y: nat ensures !(Contains(rects[i], x, y) && Contains(rects[j], x, y)) {
        if Contains(rects[i], x, y) {
          PixelRectContains(blocks[i], w, h, x, y);
          PixelRectContains(blocks[j], w, h, x, y);
        }
      }
    }
    forall x: nat, y: nat | x < w && y < h ensures Covers(rects, x, y) <==> TileDirty(f, w, h, x, y) {
      CoversInPixels(blocks, w, h, x, y);
      TileOfPixel(f, w, h, x, y);
    }
  }

  lemma CoversInPixels(blocks: seq<Rect>, w: nat, h: nat, x: nat, y: nat)
    requires forall i :: 0 <= i < |blocks| ==> BlockInGrid(blocks[i], Tiles(w), Tiles(h))
    requires x < w && y < h
    ensures Covers(PixelRects(blocks, Tiles(w), Tiles(h), w, h), x, y) <==> Covers(blocks, x / TILE, y / TILE)
  {
    hide PixelRect, Tiles, Contains;
    var rects := PixelRects(blocks, Tiles(w), Tiles(h), w, h);
    forall i | 0 <= i < |blocks|
      ensures Contains(rects[i], x, y) <==> Contains(blocks[i], x / TILE, y / TILE)
    {
      PixelRectContains(blocks[i], w, h, x, y);
    }
  }

  lemma TileOfPixel(f: Frames, w: nat, h: nat, x: nat, y: nat)
    requires x < w && y < h
    ensures InGrid(x / TILE, y / TILE, Tiles(w), Tiles(h))
    ensures TileDirty(f, w, h, x, y) == TileDirty(f, w, h, x / TILE * TILE, y / TILE * TILE)
  {
  }

  lemma EqualFramesAreDiff(f: Frames, w: nat, h: nat)
    requires forall y :: 0 <= y < h ==> f.SpanEqual(y, 0, w)
    ensures IsDiff(f, w, h, [])
  {
    forall x: nat, y: nat | x < w && y < h ensures f.PixelEqual(x, y) {
      SpanPixels(f, y, 0, w, x);
    }
  }

  /** The dirty rectangles of two frames. */
  method FindDirtyRects(f: Frames, w: nat, h: nat) returns (rects: seq<Rect>)
    requires f.bpp > 0
    ensures IsDiff(f, w, h, rects)
  {
    if w == 0 || h == 0 {
      return [];
    }
    var equal := VisiblePixelsEqual(f, w, h);
    VisiblePixelsEqualIff(f, w, h);
    if equal {
      EqualFramesAreDiff(f, w, h);
      return [];
    }
    var dirty := MarkTiles(f, w, h);
    ghost var blocks;
    TileStarts(0, w);
    rects, blocks := MergeTiles(dirty, Tiles(w), Tiles(h), w, h);
    BlocksAreDiff(f, w, h, blocks);
  }

  /** The diff is empty exactly when every visible pixel agrees, and covers every pixel that does not. */
  lemma DiffIsSound(f: Frames, w: nat, h: nat, rects: seq<Rect>)
    requires IsDiff(f, w, h, rects)
    ensures forall x: nat, y: nat :: x < w && y < h && !f.PixelEqual(x, y) ==> Covers(rects, x, y)
    ensures rects == [] <==> forall x: nat, y: nat :: x < w && y < h ==> f.PixelEqual(x, y)
  {
    forall x: nat, y: nat | x < w && y < h && !f.PixelEqual(x, y) ensures Covers(rects, x, y) {
      assert TileDirty(f, w, h, x, y);
    }
    if rects != [] {
      var r := rects[0];
      assert Contains(r, r.x, r.y);
      assert Covers(rects, r.x, r.y);
      assert TileDirty(f, w, h, r.x, r.y);
    }
  }

  // ------------------------------------------------------------------
  // There always is one
  // ------------------------------------------------------------------

  predicate Scanned(tx: nat, ty: nat, rows: nat, cols: nat) {
    ty < rows || (ty == rows && tx < cols)
  }

  /** One block for each dirty tile before (cols, rows) in scan order. */
  ghost predicate Dirty(f: Frames, w: nat, h: nat, blocks: seq<Rect>, rows: nat, cols: nat) {
    && (forall i :: 0 <= i < |blocks| ==> BlockInGrid(blocks[i], Tiles(w), Tiles(h)))
    && PairwiseDisjoint(blocks)
    && forall tx: nat, ty: nat :: InGrid(tx, ty, Tiles(w), Tiles(h)) ==>
         (Covers(blocks, tx, ty) <==> Scanned(tx, ty, rows, cols) && TileDirty(f, w, h, tx * TILE, ty * TILE))
  }

  lemma {:induction false} DirtyBlocks(f: Frames, w: nat, h: nat, rows: nat, cols: nat) returns (blocks: seq<Rect>)
    requires rows <= Tiles(h) && cols <= Tiles(w) && (cols > 0 ==> rows < Tiles(h))
    ensures Dirty(f, w, h, blocks, rows, cols)
    decreases rows, cols
  {
    hide TileDirty, Tiles;
    if cols > 0 {
      blocks := DirtyBlocks(f, w, h, rows, cols - 1);
      if TileDirty(f, w, h, (cols - 1) * TILE, rows * TILE) {
        DirtyNext(f, w, h, blocks, rows, cols);
        blocks := blocks + [Rect(cols - 1, rows, 1, 1)];
      }
    } else if rows > 0 {
      blocks := DirtyBlocks(f, w, h, rows - 1, Tiles(w));
    } else {
      blocks := [];
    }
  }

  lemma DirtyNext(f: Frames, w: nat, h: nat, blocks: seq<Rect>, rows: nat, cols: nat)
    requires 0 < cols <= Tiles(w) && rows < Tiles(h) && Dirty(f, w, h, blocks, rows, cols - 1)
    requires TileDirty(f, w, h, (cols - 1) * TILE, rows * TILE)
    ensures Dirty(f, w, h, blocks + [Rect(cols - 1, rows, 1, 1)], rows, cols)
  {
    hide TileDirty, Tiles, Covers;
    var b := Rect(cols - 1, rows, 1, 1);
    var all := blocks + [b];
    forall tx: nat, ty: nat | InGrid(tx, ty, Tiles(w), Tiles(h))
      ensures Covers(all, tx, ty) <==> Scanned(tx, ty, rows, cols) && TileDirty(f, w, h, tx * TILE, ty * TILE)
    {
      CoversAppend(blocks, b, tx, ty);
    }
    forall i, j | 0 <= i < j < |all| ensures Disjoint(all[i], all[j]) {
      if j < |blocks| {
        assert all[i] == blocks[i] && all[j] == blocks[j];
      } else {
        assert InGrid(cols - 1, rows, Tiles(w), Tiles(h));
        InNone(blocks, i, cols - 1, rows);
      }
    }
  }

  lemma InNone(rects: seq<Rect>, i: nat, x: int, y: int)
    requires i < |rects| && !Covers(rects, x, y)
    ensures !Contains(rects[i], x, y)
  {
  }

  lemma SomeDiff(f: Frames, w: nat, h: nat) returns (rects: seq<Rect>)
    ensures IsDiff(f, w, h, rects)
  {
    hide TileDirty;
    if w == 0 || h == 0 {
      rects := [];
    } else {
      var blocks := DirtyBlocks(f, w, h, Tiles(h), 0);
      BlocksAreDiff(f, w, h, blocks);
      rects := PixelRects(blocks, Tiles(w), Tiles(h), w, h);
    }
  }
}
