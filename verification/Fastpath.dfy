/** The bitmap rectangle of a fast-path bitmap update (section 2.2.9.1.1.3.1.2.2 of MS-RDPBCGR). */
module Fastpath {
  import opened Bytes
  import Rdp6

  const BITMAP_COMPRESSION: u16 := 1

  datatype BitmapRect = BitmapRect(
    left: u16, top: u16, right: u16, bottom: u16,
    width: u16, height: u16, bitsPerPixel: u16,
    data: seq<byte>,
    scanWidth: Option<u16>)

  /** The rectangle's bytes in front of `tail`; every length is cut to its 16-bit field. */
  function WriteRect(r: BitmapRect, tail: seq<byte>): seq<byte> {
    U16Le(r.left) + (U16Le(r.top) + (U16Le(r.right) + (U16Le(r.bottom) +
    (U16Le(r.width) + (U16Le(r.height) + (U16Le(r.bitsPerPixel) + WriteBitmap(r, tail)))))))
  }

  function UncompressedSize(height: u16, scan: u16): u16 {
    Cut16(height as int * scan)
  }

  function WriteBitmap(r: BitmapRect, tail: seq<byte>): seq<byte> {
    match r.scanWidth
    case Some(scan) =>
      U16Le(BITMAP_COMPRESSION) + (U16Le(Cut16(8 + |r.data|)) + WriteCompressed(r.height, scan, r.data, tail))
    case None =>
      U16Le(0) + (U16Le(Cut16(|r.data|)) + (r.data + tail))
  }

  /** The compressed-data header (cbCompFirstRowSize is always 0) and the data. */
  function WriteCompressed(height: u16, scan: u16, data: seq<byte>, tail: seq<byte>): seq<byte> {
    WriteLengths(Cut16(|data|), scan, UncompressedSize(height, scan), data + tail)
  }

  function WriteLengths(body: u16, scan: u16, size: u16, tail: seq<byte>): seq<byte> {
    U16Le(0) + (U16Le(body) + (U16Le(scan) + (U16Le(size) + tail)))
  }

  function ReadRect(s: seq<byte>): Result<Parsed<BitmapRect>> {
    var left :- ReadU16Le(s);
    var top :- ReadU16Le(left.rest);
    var right :- ReadU16Le(top.rest);
    var bottom :- ReadU16Le(right.rest);
    var width :- ReadU16Le(bottom.rest);
    var height :- ReadU16Le(width.rest);
    var bpp :- ReadU16Le(height.rest);
    var bitmap :- ReadBitmap(bpp.rest);
    Ok(Parsed(
      BitmapRect(left.value, top.value, right.value, bottom.value, width.value, height.value, bpp.value,
                 bitmap.value.0, bitmap.value.1),
      bitmap.rest))
  }

  function ReadBitmap(s: seq<byte>): Result<Parsed<(seq<byte>, Option<u16>)>> {
    var flags :- ReadU16Le(s);
    var length :- ReadU16Le(flags.rest);
    if flags.value % 2 == 1 then ReadCompressed(length.rest)
    else
      var data :- ReadSlice(length.rest, length.value);
      Ok(Parsed((data.value, None), data.rest))
  }

  function ReadCompressed(s: seq<byte>): Result<Parsed<(seq<byte>, Option<u16>)>> {
    var lengths :- ReadLengths(s);
    var data :- ReadSlice(lengths.rest, lengths.value.0);
    Ok(Parsed((data.value, Some(lengths.value.1)), data.rest))
  }

  /** cbCompFirstRowSize, cbCompMainBodySize, cbScanWidth and cbUncompressedSize; the reader keeps the middle two. */
  function ReadLengths(s: seq<byte>): Result<Parsed<(u16, u16)>> {
    var firstRow :- ReadU16Le(s);
    var body :- ReadU16Le(firstRow.rest);
    var scan :- ReadU16Le(body.rest);
    var size :- ReadU16Le(scan.rest);
    Ok(Parsed((body.value, scan.value), size.rest))
  }

  lemma LengthsRead(body: u16, scan: u16, size: u16, tail: seq<byte>)
    ensures ReadLengths(WriteLengths(body, scan, size, tail)) == Ok(Parsed((body, scan), tail))
  {
    hide ReadU16Le, U16Le;
    var s := U16Le(size) + tail;
    ReadBackU16(size, tail);
    ReadBackU16(scan, s);
    ReadBackU16(body, U16Le(scan) + s);
    ReadBackU16(0, U16Le(body) + (U16Le(scan) + s));
  }

  /** The reader takes as many bytes as the cut length says and leaves the others. */
  function Received(data: seq<byte>, tail: seq<byte>): Parsed<seq<byte>> {
    var n := Cut16(|data|);
    Parsed((data + tail)[..n], (data + tail)[n..])
  }

  lemma DataReads(data: seq<byte>, tail: seq<byte>)
    ensures ReadSlice(data + tail, Cut16(|data|)) == Ok(Received(data, tail))
  {
    assert Cut16(|data|) <= |data|;
  }

  lemma CompressedReads(height: u16, scan: u16, data: seq<byte>, tail: seq<byte>)
    ensures ReadCompressed(WriteCompressed(height, scan, data, tail))
         == Ok(Parsed((Received(data, tail).value, Some(scan)), Received(data, tail).rest))
  {
    hide ReadLengths, WriteLengths, UncompressedSize, Cut16, ReadSlice, Received;
    LengthsRead(Cut16(|data|), scan, UncompressedSize(height, scan), data + tail);
    DataReads(data, tail);
  }

  lemma BitmapReads(r: BitmapRect, tail: seq<byte>)
    ensures ReadBitmap(WriteBitmap(r, tail))
         == Ok(Parsed((Received(r.data, tail).value, r.scanWidth), Received(r.data, tail).rest))
  {
    hide ReadU16Le, U16Le, ReadCompressed, WriteCompressed, Cut16, ReadSlice, Received;
    match r.scanWidth
    case Some(scan) =>
      var s := WriteCompressed(r.height, scan, r.data, tail);
      CompressedReads(r.height, scan, r.data, tail);
      ReadBackU16(Cut16(8 + |r.data|), s);
      ReadBackU16(BITMAP_COMPRESSION, U16Le(Cut16(8 + |r.data|)) + s);
    case None =>
      DataReads(r.data, tail);
      var s := r.data + tail;
      ReadBackU16(Cut16(|r.data|), s);
      ReadBackU16(0, U16Le(Cut16(|r.data|)) + s);
  }

  lemma RectReads(r: BitmapRect, tail: seq<byte>)
    ensures ReadRect(WriteRect(r, tail))
         == Ok(Parsed(r.(data := Received(r.data, tail).value), Received(r.data, tail).rest))
  {
    hide ReadU16Le, U16Le, ReadBitmap, WriteBitmap, Received;
    BitmapReads(r, tail);
    var s := WriteBitmap(r, tail);
    ReadBackU16(r.bitsPerPixel, s);
    s := U16Le(r.bitsPerPixel) + s;
    ReadBackU16(r.height, s);
    s := U16Le(r.height) + s;
    ReadBackU16(r.width, s);
    s := U16Le(r.width) + s;
    ReadBackU16(r.bottom, s);
    s := U16Le(r.bottom) + s;
    ReadBackU16(r.right, s);
    s := U16Le(r.right) + s;
    ReadBackU16(r.top, s);
    s := U16Le(r.top) + s;
    ReadBackU16(r.left, s);
  }

  /** A rectangle survives the wire exactly when its data fits the 16-bit length field. */
  lemma RectRoundTripIff(r: BitmapRect, tail: seq<byte>)
    ensures ReadRect(WriteRect(r, tail)) == Ok(Parsed(r, tail)) <==> |r.data| < 0x1_0000
  {
    hide ReadRect, WriteRect;
    RectReads(r, tail);
    var n := Cut16(|r.data|);
    if |r.data| < 0x1_0000 {
      assert (r.data + tail)[..n] == r.data && (r.data + tail)[n..] == tail;
    } else {
      assert |(r.data + tail)[..n]| != |r.data|;
    }
  }

  lemma ProductBound(x: nat, y: nat, a: nat, b: nat)
    requires x <= a && y <= b
    ensures x * y <= a * b
  {
    assert x * y <= x * b <= a * b;
  }

  /** A planar 64x64 tile is at most 13249 bytes, so neither of its two length fields is cut. */
  lemma PlanarTileFits(bgrx: seq<byte>, w: nat, h: nat)
    requires w <= 64 && h <= 64
    ensures |Rdp6.Encode(bgrx, w, h)| <= 13249
    ensures 8 + |Rdp6.Encode(bgrx, w, h)| < 0x1_0000
  {
    hide Rdp6.Encode;
    Rdp6.TileSize(bgrx, w, h);
    ProductBound(h, Rdp6.CodeBound(w), 64, 69);
  }
}
