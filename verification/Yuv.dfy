/**
  BGRX to planar YUV in one walk over 2x2 blocks, after crates/rdpcore-rdpegfx/src/encoder.rs, against the
  definition by pixel.
 */
module Yuv {
  import opened Bytes

  // ------------------------------------------------------------------
  // The conversion by pixel
  // ------------------------------------------------------------------

  /** The visible part of a BGRX buffer. */
  datatype Frame = Frame(w: nat, h: nat, stride: nat, pixels: seq<byte>)

  datatype Rgb = Rgb(r: nat, g: nat, b: nat)

  /** Where row `row` starts, or a plane's: rows times a stride or pitch. */
  function Rows(row: nat, pitch: nat): nat {
    row * pitch
  }

  function ByteAt(f: Frame, row: nat, col: nat, k: nat): byte {
    var i := Rows(row, f.stride) + 4 * col + k;
    if i < |f.pixels| then f.pixels[i] else 0
  }

  function Pixel(f: Frame, row: nat, col: nat): Rgb {
    Rgb(ByteAt(f, row, col, 2), ByteAt(f, row, col, 1), ByteAt(f, row, col, 0))
  }

  function Bt601Y(p: Rgb): int {
    (66 * p.r + 129 * p.g + 25 * p.b + 128) / 256 + 16
  }

  function Bt601U(p: Rgb): int {
    (-38 * p.r - 74 * p.g + 112 * p.b + 128) / 256 + 128
  }

  function Bt601V(p: Rgb): int {
    (112 * p.r - 94 * p.g - 18 * p.b + 128) / 256 + 128
  }

  function Average(s: Rgb, t: Rgb, u: Rgb, v: Rgb): Rgb {
    Rgb((s.r + t.r + u.r + v.r) / 4, (s.g + t.g + u.g + v.g) / 4, (s.b + t.b + u.b + v.b) / 4)
  }

  predicate ByteRgb(p: Rgb) {
    p.r < 256 && p.g < 256 && p.b < 256
  }

  /** The clamps of the source never act: every value is in range before them. */
  lemma ClampsNeverAct(p: Rgb)
    requires ByteRgb(p)
    ensures 16 <= Bt601Y(p) <= 235 && 16 <= Bt601U(p) <= 240 && 16 <= Bt601V(p) <= 240
  {
  }

  function Clamp(v: int): byte {
    if v < 0 then 0 else if v > 255 then 255 else v
  }

  function Luma(f: Frame, row: nat, col: nat): byte {
    Clamp(Bt601Y(Pixel(f, row, col)))
  }

  /** A block's average; past the edge the last row or column counts twice. */
  function BlockAverage(f: Frame, blockRow: nat, blockCol: nat): Rgb
    requires f.h > 0 && f.w > 0
  {
    var row2, col2 := Min(2 * blockRow + 1, f.h - 1), Min(2 * blockCol + 1, f.w - 1);
    Average(Pixel(f, 2 * blockRow, 2 * blockCol), Pixel(f, 2 * blockRow, col2), Pixel(f, row2, 2 * blockCol), Pixel(f, row2, col2))
  }

  function Chroma(f: Frame, blockRow: nat, blockCol: nat): (byte, byte)
    requires f.h > 0 && f.w > 0
  {
    var p := BlockAverage(f, blockRow, blockCol);
    (Clamp(Bt601U(p)), Clamp(Bt601V(p)))
  }

  predicate Visible(f: Frame, p: (nat, nat)) {
    p.0 < f.h && p.1 < f.w
  }

  /** Blocks with at least one visible pixel. */
  predicate VisibleBlock(f: Frame, b: (nat, nat)) {
    2 * b.0 < f.h && 2 * b.1 < f.w
  }

  // ------------------------------------------------------------------
  // Geometry
  // ------------------------------------------------------------------

  /** The bytes a frame must have. */
  function Needed(w: nat, h: nat, stride: nat): nat {
    Rows(if h == 0 then 0 else h - 1, stride) + 4 * w
  }

  const GEOMETRY := InvalidValue("geometry")

  function CheckGeometry(w: u16, h: u16, stride: nat, pixels: seq<byte>, ow: u16, oh: u16): Result<Frame> {
    if ow % 2 != 0 || oh % 2 != 0 then Err(GEOMETRY)
    else if w > ow || h > oh then Err(GEOMETRY)
    else if |pixels| < Needed(w, h, stride) then Err(GEOMETRY)
    else Ok(Frame(w, h, stride, pixels))
  }

  predicate Complete(f: Frame) {
    Needed(f.w, f.h, f.stride) <= |f.pixels|
  }

  lemma RowsMonotone(a: nat, b: nat, pitch: nat)
    requires a <= b
    ensures Rows(a, pitch) <= Rows(b, pitch)
  {
    assert b * pitch - a * pitch == (b - a) * pitch;
  }

  lemma RowsStep(a: nat, pitch: nat)
    ensures Rows(a + 1, pitch) == Rows(a, pitch) + pitch
  {
  }

  /** Every visible pixel is in the buffer, whatever the stride. */
  lemma InBounds(f: Frame, row: nat, col: nat)
    requires Complete(f) && Visible(f, (row, col))
    ensures Rows(row, f.stride) + 4 * col + 3 < |f.pixels|
  {
    RowsMonotone(row, f.h - 1, f.stride);
    hide Rows;
  }

  // ------------------------------------------------------------------
  // Destination planes
  // ------------------------------------------------------------------

  /**
    A luma plane of `yPitch` bytes a row, and a chroma plane where U of a block is at row times `cPitch` plus column
    times `cStep`, V `vBase` further on.
   */
  datatype Layout = Layout(ow: nat, oh: nat, yPitch: nat, cPitch: nat, cStep: nat, vBase: nat)

  function YAddr(l: Layout, p: (nat, nat)): nat {
    Rows(p.0, l.yPitch) + p.1
  }

  function UAddr(l: Layout, b: (nat, nat)): nat {
    Rows(b.0, l.cPitch) + b.1 * l.cStep
  }

  function VAddr(l: Layout, b: (nat, nat)): nat {
    UAddr(l, b) + l.vBase
  }

  function I420(ow: nat, oh: nat): Layout {
    Layout(ow, oh, ow, ow / 2, 1, Rows(oh / 2, ow / 2))
  }

  function Nv12(ow: nat, oh: nat, yPitch: nat, uvPitch: nat): Layout {
    Layout(ow, oh, yPitch, uvPitch, 2, 1)
  }

  predicate Inside(l: Layout, p: (nat, nat)) {
    p.0 < l.oh && p.1 < l.ow
  }

  predicate InsideBlock(l: Layout, b: (nat, nat)) {
    2 * b.0 < l.oh && 2 * b.1 < l.ow
  }

  /** Different samples have different addresses, within planes of these sizes. */
  ghost predicate Sound(l: Layout, ySize: nat, cSize: nat) {
    && l.ow % 2 == 0 && l.oh % 2 == 0
    && (forall p, q :: Inside(l, p) && Inside(l, q) && YAddr(l, p) == YAddr(l, q) ==> p == q)
    && (forall p :: Inside(l, p) ==> YAddr(l, p) < ySize)
    && (forall b, d :: InsideBlock(l, b) && InsideBlock(l, d) && UAddr(l, b) == UAddr(l, d) ==> b == d)
    && (forall b, d :: InsideBlock(l, b) && InsideBlock(l, d) ==> UAddr(l, b) != VAddr(l, d))
    && (forall b :: InsideBlock(l, b) ==> VAddr(l, b) < cSize)
  }

  /** A sample's row and column are its address divided by the pitch. */
  lemma RowUnique(r1: nat, c1: nat, r2: nat, c2: nat, pitch: nat)
    requires Rows(r1, pitch) + c1 == Rows(r2, pitch) + c2 && c1 < pitch && c2 < pitch
    ensures r1 == r2 && c1 == c2
  {
    RowsMonotone(r1 + 1, if r2 > r1 then r2 else r1 + 1, pitch);
    RowsMonotone(r2 + 1, if r1 > r2 then r1 else r2 + 1, pitch);
    RowsStep(r1, pitch);
    RowsStep(r2, pitch);
    hide Rows;
  }

  lemma LumaFits(r: nat, c: nat, w: nat, h: nat, pitch: nat, size: nat)
    requires r < h && c < w && Rows(h - 1, pitch) + w <= size
    ensures Rows(r, pitch) + c < size
  {
    RowsMonotone(r, h - 1, pitch);
    hide Rows;
  }

  lemma I420Sound(ow: nat, oh: nat)
    requires ow % 2 == 0 && oh % 2 == 0
    ensures Sound(I420(ow, oh), Rows(oh, ow), 2 * Rows(oh / 2, ow / 2))
  {
    var l := I420(ow, oh);
    forall p, q | Inside(l, p) && Inside(l, q) && YAddr(l, p) == YAddr(l, q) ensures p == q {
      RowUnique(p.0, p.1, q.0, q.1, ow);
    }
    forall p | Inside(l, p) ensures YAddr(l, p) < Rows(oh, ow) {
      RowsStep(oh - 1, ow);
      LumaFits(p.0, p.1, ow, oh, ow, Rows(oh, ow));
    }
    forall b, d | InsideBlock(l, b) && InsideBlock(l, d) && UAddr(l, b) == UAddr(l, d) ensures b == d {
      RowUnique(b.0, b.1, d.0, d.1, ow / 2);
    }
    forall b | InsideBlock(l, b) ensures UAddr(l, b) < l.vBase && VAddr(l, b) < 2 * l.vBase {
      RowsStep(oh / 2 - 1, ow / 2);
      LumaFits(b.0, b.1, ow / 2, oh / 2, ow / 2, l.vBase);
    }
  }

  lemma Nv12Sound(ow: nat, oh: nat, yPitch: nat, uvPitch: nat, ySize: nat, cSize: nat)
    requires ow % 2 == 0 && oh % 2 == 0 && ow <= yPitch && ow <= uvPitch
    requires oh > 0 ==> Rows(oh - 1, yPitch) + ow <= ySize && Rows(oh / 2 - 1, uvPitch) + ow <= cSize
    ensures Sound(Nv12(ow, oh, yPitch, uvPitch), ySize, cSize)
  {
    hide Rows;
    var l := Nv12(ow, oh, yPitch, uvPitch);
    forall p, q | Inside(l, p) && Inside(l, q) && YAddr(l, p) == YAddr(l, q) ensures p == q {
      RowUnique(p.0, p.1, q.0, q.1, yPitch);
    }
    forall p | Inside(l, p) ensures YAddr(l, p) < ySize {
      LumaFits(p.0, p.1, ow, oh, yPitch, ySize);
    }
    forall b, d | InsideBlock(l, b) && InsideBlock(l, d) && UAddr(l, b) == UAddr(l, d) ensures b == d {
      RowUnique(b.0, 2 * b.1, d.0, 2 * d.1, uvPitch);
    }
    forall b, d | InsideBlock(l, b) && InsideBlock(l, d) ensures UAddr(l, b) != VAddr(l, d) {
      if UAddr(l, b) == VAddr(l, d) {
        RowUnique(b.0, 2 * b.1, d.0, 2 * d.1 + 1, uvPitch);
        assert false;
      }
    }
    forall b | InsideBlock(l, b) ensures VAddr(l, b) < cSize {
      LumaFits(b.0, 2 * b.1 + 1, ow, oh / 2, uvPitch, cSize);
    }
  }

  // ------------------------------------------------------------------
  // What a conversion must leave
  // ------------------------------------------------------------------

  ghost predicate NoLuma(f: Frame, l: Layout, k: nat) {
    forall p :: Visible(f, p) ==> YAddr(l, p) != k
  }

  ghost predicate NoChroma(f: Frame, l: Layout, k: nat) {
    forall b :: VisibleBlock(f, b) ==> UAddr(l, b) != k && VAddr(l, b) != k
  }

  /** Every visible sample by the definition above, and every other byte as it was. */
  ghost predicate LumaPlane(f: Frame, l: Layout, y: seq<byte>, y0: seq<byte>) {
    && |y| == |y0|
    && (forall p :: Visible(f, p) ==> YAddr(l, p) < |y| && y[YAddr(l, p)] == Luma(f, p.0, p.1))
    && (forall k :: 0 <= k < |y| && NoLuma(f, l, k) ==> y[k] == y0[k])
  }

  ghost predicate ChromaPlane(f: Frame, l: Layout, c: seq<byte>, c0: seq<byte>) {
    && |c| == |c0|
    && (forall b :: VisibleBlock(f, b) ==>
          && UAddr(l, b) < |c| && c[UAddr(l, b)] == Chroma(f, b.0, b.1).0
          && VAddr(l, b) < |c| && c[VAddr(l, b)] == Chroma(f, b.0, b.1).1)
    && (forall k :: 0 <= k < |c| && NoChroma(f, l, k) ==> c[k] == c0[k])
  }

  // ------------------------------------------------------------------
  // The fused walk
  // ------------------------------------------------------------------

  /** The planes the walk's two callbacks write, and a record of their calls. */
  class Planes {
    const layout: Layout
    const y: array<byte>
    const c: array<byte>
    ghost const y0: seq<byte>
    ghost const c0: seq<byte>
    ghost var lumas: map<(nat, nat), byte>
    ghost var chromas: map<(nat, nat), (byte, byte)>

    ghost predicate Shaped() {
      y != c && |y0| == y.Length && |c0| == c.Length && Sound(layout, y.Length, c.Length)
    }

    ghost predicate LumaOk()
      reads this`lumas, y
    {
      && |y0| == y.Length
      && (forall p :: p in lumas ==> Inside(layout, p) && YAddr(layout, p) < y.Length && y[YAddr(layout, p)] == lumas[p])
      && (forall k :: 0 <= k < y.Length && y[k] != y0[k] ==> exists p :: p in lumas && YAddr(layout, p) == k)
    }

    ghost predicate ChromaOk()
      reads this`chromas, c
    {
      ChromaWritten(layout, c[..], chromas) && ChromaElsewhere(layout, c[..], c0, chromas)
    }

    constructor (layout: Layout, y: array<byte>, c: array<byte>)
      requires y != c && Sound(layout, y.Length, c.Length)
      ensures Shaped() && LumaOk() && ChromaOk() && lumas == map[] && chromas == map[]
      ensures this.layout == layout && this.y == y && this.c == c && y0 == y[..] && c0 == c[..]
    {
      this.layout, this.y, this.c := layout, y, c;
      y0, c0 := y[..], c[..];
      lumas, chromas := map[], map[];
    }

    /** Called once for a pixel, never again. */
    method EmitY(row: nat, col: nat, v: byte)
      requires Shaped() && LumaOk() && Inside(layout, (row, col)) && (row, col) !in lumas
      modifies this`lumas, y
      ensures LumaOk() && lumas == old(lumas)[(row, col) := v]
    {
      hide Rows;
      var i := Rows(row, layout.yPitch) + col;
      ghost var at := (row, col);
      assert i == YAddr(layout, at) < y.Length;
      ghost var before := lumas;
      y[i] := v;
      lumas := lumas[at := v];
      forall p | p in lumas ensures Inside(layout, p) && YAddr(layout, p) < y.Length && y[YAddr(layout, p)] == lumas[p] {
        if p != at {
          assert YAddr(layout, p) != i;
        }
      }
      forall k | 0 <= k < y.Length && y[k] != y0[k] ensures exists p :: p in lumas && YAddr(layout, p) == k {
        if k == i {
          assert at in lumas && YAddr(layout, at) == k;
        } else {
          var p :| p in before && YAddr(layout, p) == k;
          assert p in lumas;
        }
      }
    }

    /** Called once for a block, never again. */
    method EmitUv(blockRow: nat, blockCol: nat, u: byte, v: byte)
      requires Shaped() && ChromaOk() && InsideBlock(layout, (blockRow, blockCol)) && (blockRow, blockCol) !in chromas
      modifies this`chromas, c
      ensures ChromaOk() && chromas == old(chromas)[(blockRow, blockCol) := (u, v)]
    {
      hide Sound, UAddr, ChromaWritten, ChromaElsewhere;
      var i := UAddr(layout, (blockRow, blockCol));
      ghost var at := (blockRow, blockCol);
      Apart(layout, y.Length, c.Length, at, at);
      ghost var before: seq<byte> := c[..];
      WriteKeeps(layout, y.Length, before, chromas, at, (u, v));
      WriteElsewhere(layout, before, c0, chromas, at, (u, v));
      c[i] := u;
      c[i + layout.vBase] := v;
      assert c[..] == before[i := u][i + layout.vBase := v];
      chromas := chromas[at := (u, v)];
    }
  }

  ghost predicate ChromaWritten(l: Layout, c: seq<byte>, chromas: map<(nat, nat), (byte, byte)>) {
    forall b :: b in chromas ==>
      && InsideBlock(l, b) && UAddr(l, b) < |c| && VAddr(l, b) < |c|
      && c[UAddr(l, b)] == chromas[b].0 && c[VAddr(l, b)] == chromas[b].1
  }

  ghost predicate ChromaElsewhere(l: Layout, c: seq<byte>, c0: seq<byte>, chromas: map<(nat, nat), (byte, byte)>) {
    && |c0| == |c|
    && forall k :: 0 <= k < |c| && c[k] != c0[k] ==> exists b :: b in chromas && (UAddr(l, b) == k || VAddr(l, b) == k)
  }

  lemma WriteKeeps(l: Layout, ySize: nat, c: seq<byte>, chromas: map<(nat, nat), (byte, byte)>, at: (nat, nat), uv: (byte, byte))
    requires Sound(l, ySize, |c|) && InsideBlock(l, at) && at !in chromas && ChromaWritten(l, c, chromas)
    ensures UAddr(l, at) < |c| && VAddr(l, at) < |c|
    ensures ChromaWritten(l, c[UAddr(l, at) := uv.0][VAddr(l, at) := uv.1], chromas[at := uv])
  {
    Apart(l, ySize, |c|, at, at);
    var c' := c[UAddr(l, at) := uv.0][VAddr(l, at) := uv.1];
    hide Sound, UAddr, VAddr;
    forall b | b in chromas[at := uv]
      ensures InsideBlock(l, b) && UAddr(l, b) < |c'| && VAddr(l, b) < |c'|
      ensures c'[UAddr(l, b)] == chromas[at := uv][b].0 && c'[VAddr(l, b)] == chromas[at := uv][b].1
    {
      Apart(l, ySize, |c|, b, at);
    }
  }

  lemma WriteElsewhere(l: Layout, c: seq<byte>, c0: seq<byte>, chromas: map<(nat, nat), (byte, byte)>, at: (nat, nat), uv: (byte, byte))
    requires ChromaElsewhere(l, c, c0, chromas) && UAddr(l, at) < |c| && VAddr(l, at) < |c|
    ensures ChromaElsewhere(l, c[UAddr(l, at) := uv.0][VAddr(l, at) := uv.1], c0, chromas[at := uv])
  {
    var c' := c[UAddr(l, at) := uv.0][VAddr(l, at) := uv.1];
    hide UAddr, VAddr;
    forall k | 0 <= k < |c'| && c'[k] != c0[k]
      ensures exists b :: b in chromas[at := uv] && (UAddr(l, b) == k || VAddr(l, b) == k)
    {
      if k == UAddr(l, at) || k == VAddr(l, at) {
        assert at in chromas[at := uv];
      } else {
        var b :| b in chromas && (UAddr(l, b) == k || VAddr(l, b) == k);
        assert b in chromas[at := uv];
      }
    }
  }

  lemma Apart(l: Layout, ySize: nat, cSize: nat, b: (nat, nat), d: (nat, nat))
    requires Sound(l, ySize, cSize) && InsideBlock(l, b) && InsideBlock(l, d)
    ensures UAddr(l, b) < cSize && VAddr(l, b) < cSize
    ensures UAddr(l, b) != VAddr(l, d) && VAddr(l, b) != UAddr(l, d)
    ensures b != d ==> UAddr(l, b) != UAddr(l, d) && VAddr(l, b) != VAddr(l, d)
  {
    hide Rows;
  }

  predicate Before(p: (nat, nat), row: nat, col: nat) {
    p.0 < row || (p.0 < row + 2 && p.1 < col)
  }

  predicate BlockBefore(b: (nat, nat), row: nat, col: nat) {
    2 * b.0 < row || (2 * b.0 == row && 2 * b.1 < col)
  }

  /** The walk has reached `row`, `col`: exactly the visible pixels before it have been emitted. */
  ghost predicate LumasTo(f: Frame, lumas: map<(nat, nat), byte>, row: nat, col: nat) {
    && (forall p :: p in lumas <==> Visible(f, p) && Before(p, row, col))
    && (forall p :: p in lumas ==> lumas[p] == Luma(f, p.0, p.1))
  }

  ghost predicate ChromasTo(f: Frame, chromas: map<(nat, nat), (byte, byte)>, row: nat, col: nat)
    requires f.h > 0 && f.w > 0
  {
    && (forall b :: b in chromas <==> VisibleBlock(f, b) && BlockBefore(b, row, col))
    && (forall b :: b in chromas ==> chromas[b] == Chroma(f, b.0, b.1))
  }

  lemma NextRow(f: Frame, lumas: map<(nat, nat), byte>, chromas: map<(nat, nat), (byte, byte)>, row: nat, col: nat)
    requires f.h > 0 && f.w > 0 && row % 2 == 0 && col >= f.w
    requires LumasTo(f, lumas, row, col) && ChromasTo(f, chromas, row, col)
    ensures LumasTo(f, lumas, row + 2, 0) && ChromasTo(f, chromas, row + 2, 0)
  {
    hide Luma, Chroma;
    assert forall p :: Visible(f, p) ==> (Before(p, row, col) <==> Before(p, row + 2, 0));
    assert forall b :: VisibleBlock(f, b) ==> (BlockBefore(b, row, col) <==> BlockBefore(b, row + 2, 0));
  }

  method Sample(f: Frame, row: nat, col: nat) returns (p: Rgb)
    requires Complete(f) && Visible(f, (row, col))
    ensures p == Pixel(f, row, col) && ByteRgb(p)
  {
    InBounds(f, row, col);
    hide Rows, Needed;
    var at := Rows(row, f.stride) + 4 * col;
    p := Rgb(f.pixels[at + 2], f.pixels[at + 1], f.pixels[at]);
  }

  /** The luma calls of the block at `row`, `col`. */
  method EmitLumas(f: Frame, planes: Planes, row: nat, col: nat, s0: Rgb, s1: Rgb, s2: Rgb, s3: Rgb)
    requires planes.Shaped() && planes.LumaOk() && f.w <= planes.layout.ow && f.h <= planes.layout.oh
    requires row < f.h && col < f.w && row % 2 == 0 && col % 2 == 0 && LumasTo(f, planes.lumas, row, col)
    requires s0 == Pixel(f, row, col) && s1 == Pixel(f, row, Min(col + 1, f.w - 1))
    requires s2 == Pixel(f, Min(row + 1, f.h - 1), col) && s3 == Pixel(f, Min(row + 1, f.h - 1), Min(col + 1, f.w - 1))
    modifies planes`lumas, planes.y
    ensures planes.LumaOk() && LumasTo(f, planes.lumas, row, col + 2)
  {
    hide Pixel, Bt601Y, Sound, Planes.LumaOk;
    ghost var start := planes.lumas;
    planes.EmitY(row, col, Clamp(Bt601Y(s0)));
    if col + 1 < f.w {
      planes.EmitY(row, col + 1, Clamp(Bt601Y(s1)));
    }
    if row + 1 < f.h {
      planes.EmitY(row + 1, col, Clamp(Bt601Y(s2)));
      if col + 1 < f.w {
        planes.EmitY(row + 1, col + 1, Clamp(Bt601Y(s3)));
      }
    }
    BlockLumas(f, start, planes.lumas, row, col);
  }

  ghost function With(lumas: map<(nat, nat), byte>, f: Frame, row: nat, col: nat): map<(nat, nat), byte> {
    if Visible(f, (row, col)) then lumas[(row, col) := Luma(f, row, col)] else lumas
  }

  lemma BlockLumas(f: Frame, start: map<(nat, nat), byte>, end: map<(nat, nat), byte>, row: nat, col: nat)
    requires LumasTo(f, start, row, col) && row < f.h && col < f.w && row % 2 == 0 && col % 2 == 0
    requires end == With(With(With(With(start, f, row, col), f, row, col + 1), f, row + 1, col), f, row + 1, col + 1)
    ensures LumasTo(f, end, row, col + 2)
  {
    hide Luma;
  }

  /** One read of a block's four pixels gives its luma samples and its chroma. */
  method WalkBlock(f: Frame, planes: Planes, row: nat, col: nat)
    requires planes.Shaped() && planes.LumaOk() && planes.ChromaOk() && Complete(f)
    requires f.w <= planes.layout.ow && f.h <= planes.layout.oh
    requires row < f.h && col < f.w && row % 2 == 0 && col % 2 == 0
    requires LumasTo(f, planes.lumas, row, col) && ChromasTo(f, planes.chromas, row, col)
    modifies planes, planes.y, planes.c
    ensures planes.LumaOk() && planes.ChromaOk()
    ensures LumasTo(f, planes.lumas, row, col + 2) && ChromasTo(f, planes.chromas, row, col + 2)
  {
    hide Pixel, LumasTo, ChromasTo, Sound, Complete, Bt601U, Bt601V, Luma, Planes.LumaOk, Planes.ChromaOk;
    var row2 := if row + 1 < f.h then row + 1 else row;
    var col2 := if col + 1 < f.w then col + 1 else col;
    var s0 := Sample(f, row, col);
    var s1 := Sample(f, row, col2);
    var s2 := Sample(f, row2, col);
    var s3 := Sample(f, row2, col2);
    EmitLumas(f, planes, row, col, s0, s1, s2, s3);
    var p := Average(s0, s1, s2, s3);
    ghost var b := (row / 2, col / 2);
    assert 2 * b.0 == row && 2 * b.1 == col;
    assert p == BlockAverage(f, row / 2, col / 2);
    ghost var start := planes.chromas;
    NotYet(f, start, row, col);
    planes.EmitUv(row / 2, col / 2, Clamp(Bt601U(p)), Clamp(Bt601V(p)));
    BlockChroma(f, start, planes.chromas, row, col);
  }

  lemma NotYet(f: Frame, chromas: map<(nat, nat), (byte, byte)>, row: nat, col: nat)
    requires row < f.h && col < f.w && row % 2 == 0 && col % 2 == 0 && ChromasTo(f, chromas, row, col)
    ensures (row / 2, col / 2) !in chromas
  {
  }

  lemma BlockChroma(f: Frame, start: map<(nat, nat), (byte, byte)>, end: map<(nat, nat), (byte, byte)>, row: nat, col: nat)
    requires row < f.h && col < f.w && row % 2 == 0 && col % 2 == 0 && ChromasTo(f, start, row, col)
    requires end == start[(row / 2, col / 2) := Chroma(f, row / 2, col / 2)]
    ensures ChromasTo(f, end, row, col + 2)
  {
    hide Chroma;
  }

  /** The blocks of one pair of rows. */
  method WalkRow(f: Frame, planes: Planes, row: nat)
    requires planes.Shaped() && planes.LumaOk() && planes.ChromaOk() && Complete(f)
    requires f.w <= planes.layout.ow && f.h <= planes.layout.oh && row < f.h && f.w > 0 && row % 2 == 0
    requires LumasTo(f, planes.lumas, row, 0) && ChromasTo(f, planes.chromas, row, 0)
    modifies planes, planes.y, planes.c
    ensures planes.LumaOk() && planes.ChromaOk()
    ensures LumasTo(f, planes.lumas, row + 2, 0) && ChromasTo(f, planes.chromas, row + 2, 0)
  {
    hide LumasTo, ChromasTo, Complete, Sound, Planes.Shaped, Planes.LumaOk, Planes.ChromaOk;
    var col := 0;
    while col < f.w
      invariant col % 2 == 0 && planes.LumaOk() && planes.ChromaOk()
      invariant LumasTo(f, planes.lumas, row, col) && ChromasTo(f, planes.chromas, row, col)
      decreases f.w - col
    {
      WalkBlock(f, planes, row, col);
      col := col + 2;
    }
    NextRow(f, planes.lumas, planes.chromas, row, col);
  }

  method ForEachBlock(f: Frame, planes: Planes)
    requires planes.Shaped() && planes.LumaOk() && planes.ChromaOk() && Complete(f)
    requires f.w <= planes.layout.ow && f.h <= planes.layout.oh && planes.lumas == map[] && planes.chromas == map[]
    modifies planes, planes.y, planes.c
    ensures LumaPlane(f, planes.layout, planes.y[..], planes.y0)
    ensures ChromaPlane(f, planes.layout, planes.c[..], planes.c0)
  {
    hide LumasTo, ChromasTo, Complete, Sound, LumaPlane, ChromaPlane, Planes.Shaped, Planes.LumaOk, Planes.ChromaOk;
    if f.h == 0 || f.w == 0 {
      NothingVisible(f, planes);
    } else {
      StartWalk(f);
      var row := 0;
      while row < f.h
        invariant row % 2 == 0 && planes.LumaOk() && planes.ChromaOk()
        invariant LumasTo(f, planes.lumas, row, 0) && ChromasTo(f, planes.chromas, row, 0)
        decreases f.h - row
      {
        WalkRow(f, planes, row);
        row := row + 2;
      }
      Rendered(f, planes, row);
    }
  }

  lemma StartWalk(f: Frame)
    requires f.h > 0 && f.w > 0
    ensures LumasTo(f, map[], 0, 0) && ChromasTo(f, map[], 0, 0)
  {
  }

  lemma NothingVisible(f: Frame, planes: Planes)
    requires f.h == 0 || f.w == 0
    requires planes.Shaped() && planes.LumaOk() && planes.ChromaOk() && planes.lumas == map[] && planes.chromas == map[]
    ensures LumaPlane(f, planes.layout, planes.y[..], planes.y0)
    ensures ChromaPlane(f, planes.layout, planes.c[..], planes.c0)
  {
  }

  /** Everything visible emitted: the planes are what they must be. */
  lemma Rendered(f: Frame, planes: Planes, row: nat)
    requires planes.LumaOk() && planes.ChromaOk() && row >= f.h > 0 && f.w > 0 && row % 2 == 0
    requires LumasTo(f, planes.lumas, row, 0) && ChromasTo(f, planes.chromas, row, 0)
    ensures LumaPlane(f, planes.layout, planes.y[..], planes.y0)
    ensures ChromaPlane(f, planes.layout, planes.c[..], planes.c0)
  {
    RenderedLuma(f, planes, row);
    RenderedChroma(f, planes, row);
  }

  lemma RenderedLuma(f: Frame, planes: Planes, row: nat)
    requires planes.LumaOk() && row >= f.h > 0 && f.w > 0 && LumasTo(f, planes.lumas, row, 0)
    ensures LumaPlane(f, planes.layout, planes.y[..], planes.y0)
  {
    hide Luma, YAddr;
    var l, y := planes.layout, planes.y[..];
    forall p | Visible(f, p) ensures YAddr(l, p) < |y| && y[YAddr(l, p)] == Luma(f, p.0, p.1) {
      assert Before(p, row, 0);
      assert p in planes.lumas;
    }
    forall k | 0 <= k < |y| && NoLuma(f, l, k) ensures y[k] == planes.y0[k] {
      assert forall p :: p in planes.lumas ==> Visible(f, p) && YAddr(l, p) != k;
    }
  }

  lemma RenderedChroma(f: Frame, planes: Planes, row: nat)
    requires planes.ChromaOk() && row >= f.h > 0 && f.w > 0 && row % 2 == 0 && ChromasTo(f, planes.chromas, row, 0)
    ensures ChromaPlane(f, planes.layout, planes.c[..], planes.c0)
  {
    hide Chroma, UAddr;
    var l, c := planes.layout, planes.c[..];
    forall b | VisibleBlock(f, b)
      ensures UAddr(l, b) < |c| && VAddr(l, b) < |c|
      ensures c[UAddr(l, b)] == Chroma(f, b.0, b.1).0 && c[VAddr(l, b)] == Chroma(f, b.0, b.1).1
    {
      assert BlockBefore(b, row, 0);
      assert b in planes.chromas;
    }
    forall k | 0 <= k < |c| && NoChroma(f, l, k) ensures c[k] == planes.c0[k] {
      assert forall b :: b in planes.chromas ==> VisibleBlock(f, b) && UAddr(l, b) != k && VAddr(l, b) != k;
    }
  }

  // ------------------------------------------------------------------
  // The three conversions
  // ------------------------------------------------------------------

  function Zeros(n: nat): seq<byte> {
    Repeat(0, n)
  }

  /** Contiguous planes, padding all zero bytes. */
  ghost predicate Contiguous(f: Frame, l: Layout, ySize: nat, cSize: nat, out: seq<byte>) {
    && |out| == ySize + cSize
    && LumaPlane(f, l, out[..ySize], Zeros(ySize))
    && ChromaPlane(f, l, out[ySize..], Zeros(cSize))
  }

  method Convert(f: Frame, l: Layout, ySize: nat, cSize: nat) returns (out: seq<byte>)
    requires Complete(f) && Sound(l, ySize, cSize) && f.w <= l.ow && f.h <= l.oh
    ensures Contiguous(f, l, ySize, cSize, out)
  {
    hide Sound, Complete, LumaPlane, ChromaPlane;
    var y := new byte[ySize](_ => 0);
    var c := new byte[cSize](_ => 0);
    assert y[..] == Zeros(ySize) && c[..] == Zeros(cSize);
    var planes := new Planes(l, y, c);
    ForEachBlock(f, planes);
    out := y[..] + c[..];
    assert out[..ySize] == y[..] && out[ySize..] == c[..];
  }

  method ToI420(w: u16, h: u16, stride: nat, pixels: seq<byte>, ow: u16, oh: u16) returns (r: Result<seq<byte>>)
    ensures match CheckGeometry(w, h, stride, pixels, ow, oh)
            case Err(e) => r == Err(e)
            case Ok(f) => r.Ok? && Contiguous(f, I420(ow, oh), Rows(oh, ow), 2 * Rows(oh / 2, ow / 2), r.value)
  {
    hide Rows, Sound, Contiguous;
    var f :- CheckGeometry(w, h, stride, pixels, ow, oh);
    I420Sound(ow, oh);
    var out := Convert(f, I420(ow, oh), Rows(oh, ow), 2 * Rows(oh / 2, ow / 2));
    r := Ok(out);
  }

  method ToNv12(w: u16, h: u16, stride: nat, pixels: seq<byte>, ow: u16, oh: u16) returns (r: Result<seq<byte>>)
    ensures match CheckGeometry(w, h, stride, pixels, ow, oh)
            case Err(e) => r == Err(e)
            case Ok(f) => r.Ok? && Contiguous(f, Nv12(ow, oh, ow, ow), Rows(oh, ow), 2 * Rows(oh / 2, ow / 2), r.value)
  {
    hide Rows, Sound, Contiguous;
    var f :- CheckGeometry(w, h, stride, pixels, ow, oh);
    PackedNv12(ow, oh);
    Nv12Sound(ow, oh, ow, ow, Rows(oh, ow), 2 * Rows(oh / 2, ow / 2));
    var out := Convert(f, Nv12(ow, oh, ow, ow), Rows(oh, ow), 2 * Rows(oh / 2, ow / 2));
    r := Ok(out);
  }

  lemma DoubleRows(n: nat, half: nat)
    ensures 2 * Rows(n, half) == Rows(n, 2 * half)
  {
  }

  lemma PackedNv12(ow: nat, oh: nat)
    requires ow % 2 == 0 && oh % 2 == 0
    ensures oh > 0 ==> Rows(oh - 1, ow) + ow == Rows(oh, ow) && Rows(oh / 2 - 1, ow) + ow == 2 * Rows(oh / 2, ow / 2)
  {
    hide Rows;
    if oh > 0 {
      RowsStep(oh - 1, ow);
      RowsStep(oh / 2 - 1, ow);
      DoubleRows(oh / 2, ow / 2);
    }
  }

  predicate TooSmall(ow: nat, oh: nat, ySize: nat, yPitch: nat, uvSize: nat, uvPitch: nat) {
    || yPitch < ow || uvPitch < ow
    || ySize < Rows(if oh == 0 then 0 else oh - 1, yPitch) + ow
    || uvSize < Rows(if oh / 2 == 0 then 0 else oh / 2 - 1, uvPitch) + ow
  }

  /** Into planes the caller owns; what is not visible stays as it was. */
  method ToNv12Into(w: u16, h: u16, stride: nat, pixels: seq<byte>, ow: u16, oh: u16,
                    y: array<byte>, yPitch: nat, uv: array<byte>, uvPitch: nat) returns (r: Result<bool>)
    requires y != uv
    modifies y, uv
    ensures r.Ok? <==> CheckGeometry(w, h, stride, pixels, ow, oh).Ok? && !TooSmall(ow, oh, y.Length, yPitch, uv.Length, uvPitch)
    ensures r.Err? ==> y[..] == old(y[..]) && uv[..] == old(uv[..])
    ensures r.Ok? ==> var f := CheckGeometry(w, h, stride, pixels, ow, oh).value;
                      var l := Nv12(ow, oh, yPitch, uvPitch);
                      LumaPlane(f, l, y[..], old(y[..])) && ChromaPlane(f, l, uv[..], old(uv[..]))
  {
    hide Rows, Sound, LumaPlane, ChromaPlane;
    var f :- CheckGeometry(w, h, stride, pixels, ow, oh);
    if TooSmall(ow, oh, y.Length, yPitch, uv.Length, uvPitch) {
      return Err(GEOMETRY);
    }
    Nv12Sound(ow, oh, yPitch, uvPitch, y.Length, uv.Length);
    var planes := new Planes(Nv12(ow, oh, yPitch, uvPitch), y, uv);
    ForEachBlock(f, planes);
    r := Ok(true);
  }

  // ------------------------------------------------------------------
  // Agreement
  // ------------------------------------------------------------------

  /** Planes are determined by the frame: whatever wrote them, two that meet the definition are equal. */
  lemma LumaUnique(f: Frame, l: Layout, y: seq<byte>, z: seq<byte>, base: seq<byte>)
    requires LumaPlane(f, l, y, base) && LumaPlane(f, l, z, base)
    ensures y == z
  {
    hide Luma, YAddr;
    forall k | 0 <= k < |y| ensures y[k] == z[k] {
      if !NoLuma(f, l, k) {
        var p :| Visible(f, p) && YAddr(l, p) == k;
      }
    }
  }

  /** Any two layouts, pitched or not, over any padding, hold the same visible samples. */
  lemma LayoutsAgree(f: Frame, l: Layout, m: Layout, y: seq<byte>, z: seq<byte>, y0: seq<byte>, z0: seq<byte>,
                     c: seq<byte>, d: seq<byte>, c0: seq<byte>, d0: seq<byte>)
    requires LumaPlane(f, l, y, y0) && LumaPlane(f, m, z, z0) && ChromaPlane(f, l, c, c0) && ChromaPlane(f, m, d, d0)
    ensures forall p :: Visible(f, p) ==>
              YAddr(l, p) < |y| && YAddr(m, p) < |z| && y[YAddr(l, p)] == z[YAddr(m, p)]
    ensures forall b :: VisibleBlock(f, b) ==>
              && UAddr(l, b) < |c| && UAddr(m, b) < |d| && c[UAddr(l, b)] == d[UAddr(m, b)]
              && VAddr(l, b) < |c| && VAddr(m, b) < |d| && c[VAddr(l, b)] == d[VAddr(m, b)]
  {
    hide Luma, Chroma, YAddr, UAddr;
  }

  /** U and V of a block, in any layout, zero where the block is padding. */
  lemma ChromaSample(f: Frame, l: Layout, c: seq<byte>, ySize: nat, b: (nat, nat))
    requires Sound(l, ySize, |c|) && ChromaPlane(f, l, c, Zeros(|c|)) && f.w <= l.ow && f.h <= l.oh && InsideBlock(l, b)
    ensures UAddr(l, b) < |c| && VAddr(l, b) < |c|
    ensures VisibleBlock(f, b) ==> c[UAddr(l, b)] == Chroma(f, b.0, b.1).0 && c[VAddr(l, b)] == Chroma(f, b.0, b.1).1
    ensures !VisibleBlock(f, b) ==> c[UAddr(l, b)] == 0 && c[VAddr(l, b)] == 0
  {
    hide Chroma, Rows;
    if !VisibleBlock(f, b) {
      forall d | VisibleBlock(f, d)
        ensures UAddr(l, d) != UAddr(l, b) && VAddr(l, d) != UAddr(l, b)
        ensures UAddr(l, d) != VAddr(l, b) && VAddr(l, d) != VAddr(l, b)
      {
        assert InsideBlock(l, d) && b != d;
      }
      assert NoChroma(f, l, UAddr(l, b)) && NoChroma(f, l, VAddr(l, b));
    }
  }

  /** I420 and NV12 of the same frame hold the same luma plane and, block by block, the same chroma. */
  lemma FormatsAgree(f: Frame, ow: nat, oh: nat, planar: seq<byte>, packed: seq<byte>)
    requires ow % 2 == 0 && oh % 2 == 0 && f.w <= ow && f.h <= oh
    requires Contiguous(f, I420(ow, oh), Rows(oh, ow), 2 * Rows(oh / 2, ow / 2), planar)
    requires Contiguous(f, Nv12(ow, oh, ow, ow), Rows(oh, ow), 2 * Rows(oh / 2, ow / 2), packed)
    ensures planar[..Rows(oh, ow)] == packed[..Rows(oh, ow)]
    ensures forall b: (nat, nat) :: b.0 < oh / 2 && b.1 < ow / 2 ==> SameChroma(ow, oh, planar[Rows(oh, ow)..], packed[Rows(oh, ow)..], b)
  {
    hide Rows, LumaPlane, ChromaPlane, Sound, SameChroma;
    var i, n := I420(ow, oh), Nv12(ow, oh, ow, ow);
    var ySize, cSize := Rows(oh, ow), 2 * Rows(oh / 2, ow / 2);
    I420Sound(ow, oh);
    PackedNv12(ow, oh);
    Nv12Sound(ow, oh, ow, ow, ySize, cSize);
    SameLumaLayout(f, i, n, packed[..ySize], Zeros(ySize));
    LumaUnique(f, i, planar[..ySize], packed[..ySize], Zeros(ySize));
    var p, q := planar[ySize..], packed[ySize..];
    forall b: (nat, nat) | b.0 < oh / 2 && b.1 < ow / 2 ensures SameChroma(ow, oh, p, q, b) {
      ChromaSample(f, i, p, ySize, b);
      ChromaSample(f, n, q, ySize, b);
      SameSamples(ow, oh, p, q, b);
    }
  }

  lemma SameLumaLayout(f: Frame, l: Layout, m: Layout, y: seq<byte>, base: seq<byte>)
    requires l.yPitch == m.yPitch && LumaPlane(f, m, y, base)
    ensures LumaPlane(f, l, y, base)
  {
    hide Luma, Rows;
    assert forall p :: YAddr(l, p) == YAddr(m, p);
    assert forall k: nat :: NoLuma(f, l, k) ==> NoLuma(f, m, k);
  }

  /** The chroma of a block in both formats: U then V planes against pairs. */
  ghost predicate SameChroma(ow: nat, oh: nat, planar: seq<byte>, packed: seq<byte>, b: (nat, nat)) {
    var at, size := Rows(b.0, ow / 2) + b.1, Rows(oh / 2, ow / 2);
    && at < |planar| && at + size < |planar| && 2 * at + 1 < |packed|
    && planar[at] == packed[2 * at] && planar[at + size] == packed[2 * at + 1]
  }

  lemma SameSamples(ow: nat, oh: nat, planar: seq<byte>, packed: seq<byte>, b: (nat, nat))
    requires ow % 2 == 0
    requires var i, n := I420(ow, oh), Nv12(ow, oh, ow, ow);
             && VAddr(i, b) < |planar| && VAddr(n, b) < |packed|
             && planar[UAddr(i, b)] == packed[UAddr(n, b)] && planar[VAddr(i, b)] == packed[VAddr(n, b)]
    ensures SameChroma(ow, oh, planar, packed, b)
  {
    DoubleRows(b.0, ow / 2);
    hide Rows;
    assert UAddr(Nv12(ow, oh, ow, ow), b) == 2 * UAddr(I420(ow, oh), b);
  }
}
