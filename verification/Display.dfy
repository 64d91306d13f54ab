/**
  Bitmap updates as views into a captured frame (crates/rdpcore-server/src/display.rs), the merge of a
  tick's dirty rectangles into one view, and the capturer's comparison (kmsrdp/src/capture/pixel_diff.rs).
 */
module Display {
  import opened Bytes
  import opened DirtyRects

  const BPP: nat := 4

  type Pixel = seq<byte>

  /** One captured BGRX frame. */
  datatype Frame = Frame(width: nat, height: nat, stride: nat, data: seq<byte>) {
    /** What a capture back end delivers: non-empty, 16-bit dimensions, every visible pixel in the buffer. */
    ghost predicate Valid() {
      0 < width < 0x1_0000 && 0 < height < 0x1_0000 && 0 < stride &&
      Offset(height - 1, stride, width, BPP) <= |data|
    }
  }

  /** The four bytes of pixel (x, y), or nothing where the buffer ends. */
  function PixelOf(data: seq<byte>, stride: nat, x: nat, y: nat): Pixel {
    match Get(data, Offset(y, stride, x, BPP), Offset(y, stride, x + 1, BPP))
    case Some(p) => p
    case None => []
  }

  ghost predicate Visible(f: Frame, x: nat, y: nat) {
    x < f.width && y < f.height
  }

  datatype BitmapUpdate = BitmapUpdate(
    x: u16, y: u16, width: u16, height: u16,
    data: seq<byte>, stride: nat, srcX: u16, srcY: u16)

  function FullUpdate(f: Frame): BitmapUpdate
    requires f.width < 0x1_0000 && f.height < 0x1_0000
  {
    BitmapUpdate(0, 0, f.width, f.height, f.data, f.stride, 0, 0)
  }

  predicate Shows(u: BitmapUpdate, x: int, y: int) {
    u.x <= x < u.x + u.width && u.y <= y < u.y + u.height
  }

  /** The pixel an update paints at (x, y). */
  function ShownPixel(u: BitmapUpdate, x: nat, y: nat): Pixel
    requires Shows(u, x, y)
  {
    PixelOf(u.data, u.stride, u.srcX + x - u.x, u.srcY + y - u.y)
  }

  /** Byte just past the last pixel a view of this rectangle reads. */
  function LastByte(srcX: nat, srcY: nat, w: nat, h: nat, stride: nat): nat {
    Offset(srcY + (if h > 0 then h - 1 else 0), stride, srcX + w, BPP)
  }

  /** View of a sub-rectangle that shares the data. */
  function Sub(u: BitmapUpdate, x: u16, y: u16, w: u16, h: u16): Option<BitmapUpdate> {
    if x + w > u.width || y + h > u.height then None
    else if u.srcX + x >= 0x1_0000 || u.srcY + y >= 0x1_0000 then None
    else if LastByte(u.srcX + x, u.srcY + y, w, h, u.stride) > |u.data| then None
    else if u.x + x >= 0x1_0000 || u.y + y >= 0x1_0000 then None
    else Some(BitmapUpdate(u.x + x, u.y + y, w, h, u.data, u.stride, u.srcX + x, u.srcY + y))
  }

  function Max(a: int, b: int): int {
    if a < b then b else a
  }

  /** Bounding box of two updates, backed by the newer one's pixels. */
  function Union(older: BitmapUpdate, newer: BitmapUpdate): BitmapUpdate {
    if older.stride != newer.stride then newer
    else
      var x, y := Min(older.x, newer.x), Min(older.y, newer.y);
      var w := Cut16(Max(older.x + older.width, newer.x + newer.width) - x);
      var h := Cut16(Max(older.y + older.height, newer.y + newer.height) - y);
      if w == 0 || h == 0 then newer
      else if LastByte(x, y, w, h, newer.stride) > |newer.data| then newer
      else BitmapUpdate(x, y, w, h, newer.data, newer.stride, x, y)
  }

  /** An update that shows a rectangle of `f` in place: what it paints at (x, y) is the frame's own pixel. */
  ghost predicate ViewOf(u: BitmapUpdate, f: Frame) {
    && u.data == f.data && u.stride == f.stride && u.srcX == u.x && u.srcY == u.y
    && u.width > 0 && u.height > 0 && u.x + u.width <= f.width && u.y + u.height <= f.height
  }

  lemma ViewShows(u: BitmapUpdate, f: Frame, x: nat, y: nat)
    requires ViewOf(u, f) && Shows(u, x, y)
    ensures Visible(f, x, y) && ShownPixel(u, x, y) == PixelOf(f.data, f.stride, x, y)
  {
  }

  lemma RectInBuffer(f: Frame, x: nat, y: nat, w: nat, h: nat)
    requires f.Valid() && h > 0 && x + w <= f.width && y + h <= f.height
    ensures LastByte(x, y, w, h, f.stride) <= |f.data|
  {
    Distribute(y + h - 1, f.height - (y + h), f.stride);
    Distribute(x + w, f.width - (x + w), BPP);
  }

  /** Cutting a rectangle of the frame out of the full update always succeeds, and shows the frame. */
  lemma SubOfFull(f: Frame, r: Rect)
    requires f.Valid() && InFrame(r, f.width, f.height)
    ensures var s := Sub(FullUpdate(f), r.x, r.y, r.width, r.height);
            s.Some? && ViewOf(s.value, f) && forall x, y :: Shows(s.value, x, y) <==> Contains(r, x, y)
  {
    RectInBuffer(f, r.x, r.y, r.width, r.height);
  }

  /** The union of two views of one frame is a view of it, and shows whatever either shows. */
  lemma UnionOfViews(f: Frame, a: BitmapUpdate, b: BitmapUpdate)
    requires f.Valid() && ViewOf(a, f) && ViewOf(b, f)
    ensures ViewOf(Union(a, b), f)
    ensures forall x, y :: Shows(a, x, y) || Shows(b, x, y) ==> Shows(Union(a, b), x, y)
  {
    hide LastByte;
    var x, y := Min(a.x, b.x), Min(a.y, b.y);
    var w := Max(a.x + a.width, b.x + b.width) - x;
    var h := Max(a.y + a.height, b.y + b.height) - y;
    RectInBuffer(f, x, y, w, h);
  }

  // ------------------------------------------------------------------
  // One update per tick
  // ------------------------------------------------------------------

  /** Folds one dirty rectangle into the tick's update; empty or unaddressable rectangles are skipped. */
  function MergeRect(full: BitmapUpdate, merged: Option<BitmapUpdate>, r: Rect): Option<BitmapUpdate> {
    var w, h := Cut16(r.width), Cut16(r.height);
    if w == 0 || h == 0 then merged
    else
      match Sub(full, Cut16(r.x), Cut16(r.y), w, h)
      case None => merged
      case Some(sub) => if merged.Some? then Some(Union(merged.value, sub)) else Some(sub)
  }

  function MergeRects(full: BitmapUpdate, rects: seq<Rect>): Option<BitmapUpdate> {
    if rects == [] then None
    else MergeRect(full, MergeRects(full, rects[..|rects| - 1]), rects[|rects| - 1])
  }

  lemma MergeOne(f: Frame, merged: Option<BitmapUpdate>, r: Rect)
    requires f.Valid() && InFrame(r, f.width, f.height)
    requires merged.Some? ==> ViewOf(merged.value, f)
    ensures var m := MergeRect(FullUpdate(f), merged, r);
            && m.Some? && ViewOf(m.value, f)
            && (forall x, y :: Contains(r, x, y) ==> Shows(m.value, x, y))
            && (merged.Some? ==> forall x, y :: Shows(merged.value, x, y) ==> Shows(m.value, x, y))
  {
    hide Union;
    SubOfFull(f, r);
    var s := Sub(FullUpdate(f), r.x, r.y, r.width, r.height).value;
    if merged.Some? {
      UnionOfViews(f, merged.value, s);
    }
  }

  /** The tick's update shows the frame over every dirty rectangle; there is none only if there are no rectangles. */
  lemma {:induction false} MergedUpdate(f: Frame, rects: seq<Rect>)
    requires f.Valid() && forall i :: 0 <= i < |rects| ==> InFrame(rects[i], f.width, f.height)
    ensures MergeRects(FullUpdate(f), rects).Some? <==> rects != []
    ensures MergeRects(FullUpdate(f), rects).Some? ==>
              var u := MergeRects(FullUpdate(f), rects).value;
              ViewOf(u, f) && forall x, y :: Covers(rects, x, y) ==> Shows(u, x, y)
  {
    if rects != [] {
      hide MergeRect, ViewOf;
      var init, r := rects[..|rects| - 1], rects[|rects| - 1];
      MergedUpdate(f, init);
      MergeOne(f, MergeRects(FullUpdate(f), init), r);
      assert rects == init + [r];
      forall x, y | Covers(rects, x, y) ensures Shows(MergeRects(FullUpdate(f), rects).value, x, y) {
        CoversAppend(init, r, x, y);
      }
    }
  }

  /** The merge as the capture loop runs it. */
  method MergeDirtyRects(full: BitmapUpdate, rects: seq<Rect>) returns (merged: Option<BitmapUpdate>)
    ensures merged == MergeRects(full, rects)
  {
    merged := None;
    for i := 0 to |rects|
      invariant merged == MergeRects(full, rects[..i])
    {
      assert rects[..i + 1][..i] == rects[..i];
      var r := rects[i];
      var w, h := Cut16(r.width), Cut16(r.height);
      if w == 0 || h == 0 {
        continue;
      }
      var sub := Sub(full, Cut16(r.x), Cut16(r.y), w, h);
      if sub.None? {
        continue;
      }
      merged := if merged.Some? then Some(Union(merged.value, sub.value)) else Some(sub.value);
    }
    assert rects[..|rects|] == rects;
  }

  function DirtyArea(rects: seq<Rect>): nat {
    if rects == [] then 0 else rects[0].width * rects[0].height + DirtyArea(rects[1..])
  }

  /** A heavily dirty frame becomes one full-frame rectangle. */
  function Coalesce(rects: seq<Rect>, w: nat, h: nat): seq<Rect> {
    if rects == [] || w * h == 0 then rects
    else if DirtyArea(rects) * 16 >= w * h then [Rect(0, 0, w, h)]
    else rects
  }

  /** Coalescing loses no pixel, keeps every rectangle in the frame, and never invents or drops a whole update. */
  lemma CoalesceCovers(rects: seq<Rect>, w: nat, h: nat)
    requires forall i :: 0 <= i < |rects| ==> InFrame(rects[i], w, h)
    ensures var c := Coalesce(rects, w, h);
            && (c == [] <==> rects == [])
            && (forall i :: 0 <= i < |c| ==> InFrame(c[i], w, h))
            && forall x: nat, y: nat :: x < w && y < h && Covers(rects, x, y) ==> Covers(c, x, y)
  {
    var c := Coalesce(rects, w, h);
    if rects != [] && c != rects {
      assert InFrame(rects[0], w, h);
      assert c[0] == Rect(0, 0, w, h);
    }
  }

  // ------------------------------------------------------------------
  // Capture
  // ------------------------------------------------------------------

  /** Two frames show the same picture. */
  ghost predicate SamePicture(a: Frame, b: Frame) {
    && a.width == b.width && a.height == b.height
    && forall x: nat, y: nat :: Visible(a, x, y) ==> PixelOf(a.data, a.stride, x, y) == PixelOf(b.data, b.stride, x, y)
  }

  /** Every pixel at which two frames of one size differ lies in one of the rectangles. */
  ghost predicate CoversChanges(a: Frame, b: Frame, rects: seq<Rect>) {
    && a.width == b.width && a.height == b.height
    && (forall i :: 0 <= i < |rects| ==> InFrame(rects[i], b.width, b.height))
    && forall x: nat, y: nat ::
         Visible(b, x, y) && PixelOf(a.data, a.stride, x, y) != PixelOf(b.data, b.stride, x, y) ==> Covers(rects, x, y)
  }

  function FramesOf(a: Frame, b: Frame): Frames {
    Frames(a.data, a.stride, b.data, b.stride, BPP)
  }

  /** In a valid frame every visible pixel is in the buffer, so pixels compare as their bytes. */
  lemma PixelEqualIff(a: Frame, b: Frame, x: nat, y: nat)
    requires a.Valid() && b.Valid() && Visible(a, x, y) && Visible(b, x, y)
    ensures FramesOf(a, b).PixelEqual(x, y) <==> PixelOf(a.data, a.stride, x, y) == PixelOf(b.data, b.stride, x, y)
  {
    hide Offset;
    PixelInBuffer(a, x, y);
    PixelInBuffer(b, x, y);
  }

  lemma PixelInBuffer(f: Frame, x: nat, y: nat)
    requires f.Valid() && Visible(f, x, y)
    ensures Offset(y, f.stride, x, BPP) <= Offset(y, f.stride, x + 1, BPP) <= |f.data|
  {
    RectInBuffer(f, x, y, 1, 1);
  }

  /** A diff of two valid frames covers every change, and is empty only for the same picture. */
  lemma DiffCoversChanges(a: Frame, b: Frame, rects: seq<Rect>)
    requires a.Valid() && b.Valid() && a.width == b.width && a.height == b.height
    requires IsDiff(FramesOf(a, b), b.width, b.height, rects)
    ensures CoversChanges(a, b, rects)
    ensures rects == [] ==> SamePicture(a, b)
  {
    hide Offset, PixelOf, Covers, TileDirty;
    DiffIsSound(FramesOf(a, b), b.width, b.height, rects);
    forall x: nat, y: nat | Visible(b, x, y)
      ensures FramesOf(a, b).PixelEqual(x, y) <==> PixelOf(a.data, a.stride, x, y) == PixelOf(b.data, b.stride, x, y)
    {
      PixelEqualIff(a, b, x, y);
    }
  }

  /** What the capturer hands to the capture loop. */
  datatype Capture = Capture(frame: Frame, forceFull: bool, same: bool, dirty: Option<seq<Rect>>)

  /** Its promise: `same` and the dirty rectangles are about the frame it was given to compare with. */
  ghost predicate Honest(c: Capture, previous: Option<Frame>) {
    && c.frame.Valid()
    && (c.same ==> previous.Some? && SamePicture(previous.value, c.frame))
    && (!c.same && c.dirty.Some? ==>
          previous.Some? && c.dirty.value != [] && CoversChanges(previous.value, c.frame, c.dirty.value))
  }

  /** The comparison every capture back end makes before copying its pixels. */
  method TakePixels(src: Frame, forceFull: bool, previous: Option<Frame>) returns (c: Capture)
    requires src.Valid() && (previous.Some? ==> previous.value.Valid())
    ensures Honest(c, previous) && c.frame == src && c.forceFull == forceFull
    ensures c.dirty.Some? <==>
              !forceFull && previous.Some? && previous.value.width == src.width && previous.value.height == src.height
  {
    if !forceFull && previous.Some? && previous.value.width == src.width && previous.value.height == src.height {
      var dirty := FindDirtyRects(FramesOf(previous.value, src), src.width, src.height);
      DiffCoversChanges(previous.value, src, dirty);
      if dirty == [] {
        return Capture(src, forceFull, true, Some([]));
      }
      return Capture(src, forceFull, false, Some(dirty));
    }
    c := Capture(src, forceFull, false, None);
  }
}
