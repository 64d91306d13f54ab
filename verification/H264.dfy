/**
  The H.264 parameter-set writer, after crates/rdpcore-rdpegfx/src/h264_headers.rs, against the parsing process
  of sections 7.3.2.1.1 and 9.1 of ITU-T H.264.
 */
module H264 {
  import opened Bytes

  type bit = x: int | 0 <= x < 2 witness 0

  // ------------------------------------------------------------------
  // Bits, most significant first
  // ------------------------------------------------------------------

  function Pow2(n: nat): (p: nat)
    ensures p >= 1
  {
    if n == 0 then 1 else 2 * Pow2(n - 1)
  }

  /** The low `n` bits of `v`. */
  function Bits(v: nat, n: nat): (s: seq<bit>)
    ensures |s| == n
  {
    if n == 0 then [] else Bits(v / 2, n - 1) + [v % 2]
  }

  /** `v` shifted right by `i`. */
  function Shift(v: nat, i: nat): nat {
    if i == 0 then v else Shift(v, i - 1) / 2
  }

  function Value(s: seq<bit>): nat {
    if s == [] then 0 else 2 * Value(s[..|s| - 1]) + s[|s| - 1]
  }

  lemma {:induction false} ValueOfBits(v: nat, n: nat)
    requires v < Pow2(n)
    ensures Value(Bits(v, n)) == v
  {
    if n > 0 {
      ValueOfBits(v / 2, n - 1);
      assert (Bits(v / 2, n - 1) + [v % 2])[..n - 1] == Bits(v / 2, n - 1);
    }
  }

  function BytesBits(bytes: seq<byte>): seq<bit> {
    if bytes == [] then [] else BytesBits(bytes[..|bytes| - 1]) + Bits(bytes[|bytes| - 1], 8)
  }

  function Zeros(n: nat): seq<bit> {
    seq(n, _ => 0)
  }

  // ------------------------------------------------------------------
  // Exp-Golomb codes
  // ------------------------------------------------------------------

  /** Position of the highest set bit. */
  function Log2(v: nat): nat
    requires v >= 1
  {
    if v == 1 then 0 else 1 + Log2(v / 2)
  }

  lemma {:induction false} Log2Bounds(v: nat)
    requires v >= 1
    ensures Pow2(Log2(v)) <= v < 2 * Pow2(Log2(v))
  {
    if v > 1 {
      Log2Bounds(v / 2);
    }
  }

  lemma {:induction false} Log2AtMost(v: nat, n: nat)
    requires 1 <= v < Pow2(n)
    ensures Log2(v) < n
    decreases n
  {
    if n > 0 && v > 1 {
      Log2AtMost(v / 2, n - 1);
    }
  }

  function Ue(v: nat): seq<bit> {
    Zeros(Log2(v + 1)) + Bits(v + 1, Log2(v + 1) + 1)
  }

  datatype Read<+T> = Read(value: T, rest: seq<bit>)

  function ReadBits(s: seq<bit>, n: nat): Result<Read<nat>> {
    if |s| < n then Err(NotEnoughBytes) else Ok(Read(Value(s[..n]), s[n..]))
  }

  /** How many zero bits come before the first one. */
  function LeadingZeros(s: seq<bit>): (r: Result<nat>)
    ensures r.Ok? ==> r.value < |s|
  {
    if s == [] then Err(NotEnoughBytes)
    else if s[0] == 1 then Ok(0)
    else
      var n :- LeadingZeros(s[1..]);
      Ok(n + 1)
  }

  /** codeNum, as section 9.1 defines it. */
  function ReadUe(s: seq<bit>): Result<Read<nat>> {
    var zeros :- LeadingZeros(s);
    var r :- ReadBits(s[zeros + 1..], zeros);
    Ok(Read(NatMinusOne(Pow2(zeros)) + r.value, r.rest))
  }

  function NatMinusOne(n: nat): nat {
    if n == 0 then 0 else n - 1
  }

  lemma {:induction false} LeadingZerosOf(n: nat, s: seq<bit>)
    ensures LeadingZeros(Zeros(n) + ([1] + s)) == Ok(n)
  {
    if n == 0 {
      assert Zeros(0) + ([1] + s) == [1] + s;
    } else {
      LeadingZerosOf(n - 1, s);
      assert (Zeros(n) + ([1] + s))[1..] == Zeros(n - 1) + ([1] + s);
    }
  }

  /** Taking the top bit off. */
  lemma {:induction false} TopBit(v: nat, n: nat)
    requires Pow2(n) <= v < 2 * Pow2(n)
    ensures Bits(v, n + 1) == [1] + Bits(v - Pow2(n), n)
    decreases n
  {
    if n == 0 {
      assert Bits(v / 2, 0) == [];
    } else {
      TopBit(v / 2, n - 1);
      assert (v - Pow2(n)) / 2 == v / 2 - Pow2(n - 1) && (v - Pow2(n)) % 2 == v % 2;
      assert [1] + Bits(v / 2 - Pow2(n - 1), n - 1) + [v % 2] == [1] + (Bits(v / 2 - Pow2(n - 1), n - 1) + [v % 2]);
    }
  }

  /** Every value reads back, with exactly the bits after its code left. */
  lemma UeRoundTrip(v: nat, s: seq<bit>)
    ensures ReadUe(Ue(v) + s) == Ok(Read(v, s))
  {
    hide LeadingZeros, Bits, Zeros;
    var n := Log2(v + 1);
    Log2Bounds(v + 1);
    TopBit(v + 1, n);
    var low := Bits(v + 1 - Pow2(n), n);
    var after := low + s;
    assert Ue(v) + s == Zeros(n) + ([1] + after) by { ZerosLength(n); }
    LeadingZerosOf(n, after);
    ZerosLength(n);
    assert (Zeros(n) + ([1] + after))[n + 1..] == after;
    assert after[..n] == low && after[n..] == s;
    ValueOfBits(v + 1 - Pow2(n), n);
  }

  lemma ZerosLength(n: nat)
    ensures |Zeros(n)| == n
  {
  }

  // ------------------------------------------------------------------
  // The sequence parameter set
  // ------------------------------------------------------------------

  /** Picture width and height in macroblocks, less one. */
  datatype Size = Size(widthMbs: nat, heightMbs: nat)

  datatype Sps = Sps(
    profile: nat, constraints: nat, level: nat, id: nat, frameNumBits: nat, pocType: nat, pocBits: nat, refFrames: nat,
    gaps: nat, size: Size, flags: seq<bit>)

  /** The fields before the size, and `s` after them. */
  function Start(s: seq<bit>): seq<bit> {
    Bits(66, 8) + (Bits(0xC0, 8) + (Bits(41, 8) + (Ue(0) + (Ue(0) + (Ue(0) + (Ue(0) + (Ue(1) + ([0] + s))))))))
  }

  function SpsFields(mbWidth: nat, mbHeight: nat): seq<bit> {
    Start(Ue(NatMinusOne(mbWidth)) + (Ue(NatMinusOne(mbHeight)) + [1, 1, 0, 0]))
  }

  /** A stop bit, and zeros to the next byte boundary. */
  function Trailing(n: nat): seq<bit> {
    [1] + Zeros((7 - n % 8) % 8)
  }

  function SpsBits(mbWidth: nat, mbHeight: nat): seq<bit> {
    SpsFields(mbWidth, mbHeight) + Trailing(|SpsFields(mbWidth, mbHeight)|)
  }

  function ReadSps(s: seq<bit>): Result<Read<Sps>> {
    var profile :- ReadBits(s, 8);
    var constraints :- ReadBits(profile.rest, 8);
    var level :- ReadBits(constraints.rest, 8);
    var id :- ReadUe(level.rest);
    var frameNumBits :- ReadUe(id.rest);
    var pocType :- ReadUe(frameNumBits.rest);
    if pocType.value != 0 then Err(InvalidValue("pic_order_cnt_type"))
    else
      var pocBits :- ReadUe(pocType.rest);
      var refFrames :- ReadUe(pocBits.rest);
      var gaps :- ReadBits(refFrames.rest, 1);
      var size :- ReadSize(gaps.rest);
      var flags :- ReadFlags(size.rest);
      Ok(Read(Sps(profile.value, constraints.value, level.value, id.value, frameNumBits.value, pocType.value, pocBits.value,
                  refFrames.value, gaps.value, size.value, flags.value), flags.rest))
  }

  function ReadSize(s: seq<bit>): Result<Read<Size>> {
    var width :- ReadUe(s);
    var height :- ReadUe(width.rest);
    Ok(Read(Size(width.value, height.value), height.rest))
  }

  /** frame_mbs_only, direct_8x8_inference, frame_cropping and vui_parameters_present, without what the first and the last two may add. */
  function ReadFlags(s: seq<bit>): Result<Read<seq<bit>>> {
    if |s| < 4 then Err(NotEnoughBytes)
    else if s[0] == 0 || s[2] == 1 || s[3] == 1 then Err(InvalidValue("sps.flags"))
    else Ok(Read(s[..4], s[4..]))
  }

  lemma ReadBackBits(v: nat, n: nat, s: seq<bit>)
    requires v < Pow2(n)
    ensures ReadBits(Bits(v, n) + s, n) == Ok(Read(v, s))
  {
    ValueOfBits(v, n);
    assert (Bits(v, n) + s)[..n] == Bits(v, n) && (Bits(v, n) + s)[n..] == s;
  }

  lemma ReadBackSize(mbWidth: nat, mbHeight: nat, s: seq<bit>)
    ensures ReadSize(Ue(NatMinusOne(mbWidth)) + (Ue(NatMinusOne(mbHeight)) + s))
         == Ok(Read(Size(NatMinusOne(mbWidth), NatMinusOne(mbHeight)), s))
  {
    hide ReadUe, Ue, NatMinusOne;
    UeRoundTrip(NatMinusOne(mbWidth), Ue(NatMinusOne(mbHeight)) + s);
    UeRoundTrip(NatMinusOne(mbHeight), s);
  }

  /** The fixed fields, before whatever follows them. */
  lemma ReadBackStart(s: seq<bit>)
    ensures ReadSps(Start(s))
         == (var size :- ReadSize(s);
             var flags :- ReadFlags(size.rest);
             Ok(Read(Sps(66, 0xC0, 41, 0, 0, 0, 0, 1, 0, size.value, flags.value), flags.rest)))
  {
    hide ReadUe, Ue, ReadBits, Bits, ReadSize, ReadFlags;
    assert Pow2(8) == 256 && Pow2(1) == 2 by { assert Pow2(4) == 16; }
    OneBit(0);
    ReadBackBits(0, 1, s);
    UeRoundTrip(1, [0] + s);
    var t := Ue(1) + ([0] + s);
    UeRoundTrip(0, t);
    UeRoundTrip(0, Ue(0) + t);
    UeRoundTrip(0, Ue(0) + (Ue(0) + t));
    t := Ue(0) + (Ue(0) + (Ue(0) + t));
    UeRoundTrip(0, t);
    t := Ue(0) + t;
    ReadBackBits(41, 8, t);
    ReadBackBits(0xC0, 8, Bits(41, 8) + t);
    ReadBackBits(66, 8, Bits(0xC0, 8) + (Bits(41, 8) + t));
  }

  lemma OneBit(b: bit)
    ensures Bits(b, 1) == [b]
  {
    assert Bits(b / 2, 0) == [];
  }

  /** Parsing the written parameter set recovers its fields and leaves the trailing bits, which end on a byte. */
  lemma SpsRoundTrip(mbWidth: nat, mbHeight: nat)
    ensures ReadSps(SpsBits(mbWidth, mbHeight))
         == Ok(Read(Sps(66, 0xC0, 41, 0, 0, 0, 0, 1, 0, Size(NatMinusOne(mbWidth), NatMinusOne(mbHeight)), [1, 1, 0, 0]),
                    Trailing(|SpsFields(mbWidth, mbHeight)|)))
    ensures |SpsBits(mbWidth, mbHeight)| % 8 == 0
  {
    hide Ue, ReadSize, ReadSps, Start, NatMinusOne, Bits;
    var t := Trailing(|SpsFields(mbWidth, mbHeight)|);
    SpsShape(mbWidth, mbHeight, t);
    var s := [1, 1, 0, 0] + t;
    ReadBackStart(Ue(NatMinusOne(mbWidth)) + (Ue(NatMinusOne(mbHeight)) + s));
    ReadBackSize(mbWidth, mbHeight, s);
    assert s[..4] == [1, 1, 0, 0] && s[4..] == t;
  }

  lemma SpsShape(mbWidth: nat, mbHeight: nat, t: seq<bit>)
    ensures SpsFields(mbWidth, mbHeight) + t == Start(Ue(NatMinusOne(mbWidth)) + (Ue(NatMinusOne(mbHeight)) + ([1, 1, 0, 0] + t)))
  {
    hide Ue, Bits, NatMinusOne;
    var w, h, f := Ue(NatMinusOne(mbWidth)), Ue(NatMinusOne(mbHeight)), [1, 1, 0, 0];
    assert w + (h + f) + t == w + (h + (f + t));
    StartAppends(w + (h + f), t);
  }

  lemma StartAppends(s: seq<bit>, t: seq<bit>)
    ensures Start(s) + t == Start(s + t)
  {
    hide Ue, Bits;
    Append([0], s, t);
    Append(Ue(1), [0] + s, t);
    var r := Ue(1) + ([0] + s);
    Append(Ue(0), r, t);
    Append(Ue(0), Ue(0) + r, t);
    Append(Ue(0), Ue(0) + (Ue(0) + r), t);
    r := Ue(0) + (Ue(0) + (Ue(0) + r));
    Append(Ue(0), r, t);
    r := Ue(0) + r;
    Append(Bits(41, 8), r, t);
    Append(Bits(0xC0, 8), Bits(41, 8) + r, t);
    Append(Bits(66, 8), Bits(0xC0, 8) + (Bits(41, 8) + r), t);
  }

  lemma Append(a: seq<bit>, b: seq<bit>, c: seq<bit>)
    ensures a + b + c == a + (b + c)
  {
  }

  /** The coded size comes back from the parsed macroblock counts, for every non-zero 16-aligned size. */
  lemma CodedSizeRoundTrip(width: u16, height: u16)
    requires width > 0 && height > 0 && width % 16 == 0 && height % 16 == 0
    ensures var r := ReadSps(SpsBits(MbCount(width), MbCount(height)));
            r.Ok? && (r.value.value.size.widthMbs + 1) * 16 == width && (r.value.value.size.heightMbs + 1) * 16 == height
  {
    hide ReadSps, SpsBits;
    SpsRoundTrip(MbCount(width), MbCount(height));
  }

  function MbCount(size: u16): (n: nat)
    ensures 1 <= n <= 4095
  {
    if size / 16 == 0 then 1 else size / 16
  }

  // ------------------------------------------------------------------
  // No start code inside the parameter set
  // ------------------------------------------------------------------

  lemma {:induction false} BitAt(v: nat, n: nat, k: nat)
    requires k < n
    ensures v == 0 ==> Bits(v, n)[k] == 0
    ensures v < 4 && k + 2 < n ==> Bits(v, n)[k] == 0
    decreases n
  {
    if k < n - 1 {
      BitAt(v / 2, n - 1, k);
      if v < 4 && k + 2 < n && k + 2 >= n - 1 {
        SmallHalf(v, n - 1, k);
      }
    }
  }

  lemma SmallHalf(v: nat, n: nat, k: nat)
    requires v < 4 && n >= 2 && k == n - 2
    ensures Bits(v / 2, n)[k] == 0
  {
    assert Bits(v / 2 / 2, n - 1)[n - 2] == v / 2 / 2 % 2;
  }

  lemma {:induction false} ByteBitsAt(bytes: seq<byte>, i: nat, k: nat)
    requires i < |bytes| && k < 8
    ensures |BytesBits(bytes)| == 8 * |bytes|
    ensures BytesBits(bytes)[8 * i + k] == Bits(bytes[i], 8)[k]
    decreases |bytes|
  {
    hide Bits;
    var init := bytes[..|bytes| - 1];
    if init == [] {
      assert BytesBits(bytes) == Bits(bytes[0], 8);
    } else {
      ByteBitsAt(init, if i < |init| then i else 0, k);
    }
  }

  /** The code's own one bit. */
  lemma UeOne(v: nat)
    ensures |Ue(v)| == 2 * Log2(v + 1) + 1 && Ue(v)[Log2(v + 1)] == 1
  {
    hide Bits;
    Log2Bounds(v + 1);
    TopBit(v + 1, Log2(v + 1));
  }

  lemma StartOnes(s: seq<bit>)
    ensures |Start(s)| == 32 + |s| && Start(s)[32..] == s
    ensures Start(s)[1] == 1 && Start(s)[8] == 1 && Start(s)[18] == 1 && Start(s)[24] == 1
  {
    FixedBits();
    var a, b, c := Bits(66, 8), Bits(0xC0, 8), Bits(41, 8);
    var u := StartCodes(s);
    hide Bits, Ue;
    var t := a + (b + (c + u));
    assert t[1] == a[1] && t[8] == b[0] && t[18] == c[2] && t[24] == u[0];
    assert t[32..] == u[8..];
  }

  lemma StartCodes(s: seq<bit>) returns (u: seq<bit>)
    ensures u == Ue(0) + (Ue(0) + (Ue(0) + (Ue(0) + (Ue(1) + ([0] + s)))))
    ensures |u| == 8 + |s| && u[0] == 1 && u[8..] == s
  {
    assert Log2(1) == 0 && Log2(2) == 1;
    UeOne(0);
    UeOne(1);
    hide Ue, Log2;
    var t := Ue(1) + ([0] + s);
    assert |t| == 4 + |s| && t[4..] == s;
    var t' := Ue(0) + (Ue(0) + t);
    assert |t'| == 6 + |s| && t'[6..] == t[4..];
    u := Ue(0) + (Ue(0) + t');
    assert u[8..] == t'[6..];
  }

  lemma FixedBits()
    ensures Bits(66, 8)[1] == 1 && Bits(0xC0, 8)[0] == 1 && Bits(41, 8)[2] == 1
  {
    BitIsShift(66, 8, 1);
    assert Shift(66, 3) == 8 && Shift(66, 6) == 1;
    BitIsShift(0xC0, 8, 0);
    assert Shift(0xC0, 3) == 24 && Shift(0xC0, 6) == 3 && Shift(0xC0, 7) == 1;
    BitIsShift(41, 8, 2);
    assert Shift(41, 3) == 5 && Shift(41, 5) == 1;
  }

  lemma {:induction false} BitIsShift(v: nat, n: nat, k: nat)
    requires k < n
    ensures Bits(v, n)[k] == Shift(v, n - 1 - k) % 2
    decreases n
  {
    if k < n - 1 {
      BitIsShift(v / 2, n - 1, k);
      ShiftHalf(v, n - 2 - k);
    }
  }

  lemma {:induction false} ShiftHalf(v: nat, i: nat)
    ensures Shift(v / 2, i) == Shift(v, i + 1)
  {
    if i > 0 {
      ShiftHalf(v, i - 1);
    }
  }

  lemma FieldOnes(v: nat, w: nat, fields: seq<bit>)
    requires fields == Ue(v) + (Ue(w) + [1, 1, 0, 0])
    ensures var zv, zw := Log2(v + 1), Log2(w + 1);
            && |fields| == 2 * zv + 2 * zw + 6
            && fields[zv] == 1 && fields[2 * zv + 1 + zw] == 1
  {
    UeOne(v);
    UeOne(w);
    hide Ue, Log2;
    var zw := Log2(w + 1);
    var rest := Ue(w) + [1, 1, 0, 0];
    assert rest[zw] == 1;
  }

  /** A one bit for every byte boundary `s` with three bytes after it, given the Exp-Golomb prefixes of the two sizes. */
  lemma PickOne(zv: nat, zw: nat, s: nat, total: nat) returns (k: nat)
    requires zv <= 11 && zw <= 11 && s % 8 == 0 && s + 24 <= total <= 46 + 2 * zv + 2 * zw
    ensures s <= k < s + 22
    ensures k in {1, 8, 18, 24, 32 + zv, 33 + 2 * zv + zw}
  {
    if s < 32 {
      k := if s == 0 then 1 else if s == 8 then 8 else if s == 16 then 18 else 24;
    } else if s <= 32 + zv {
      k := 32 + zv;
    } else {
      k := 33 + 2 * zv + zw;
    }
  }

  lemma SpsOne(v: nat, w: nat, bits: seq<bit>, k: nat)
    requires var fields := Ue(v) + (Ue(w) + [1, 1, 0, 0]); bits == Start(fields) + Trailing(|Start(fields)|)
    requires var zv, zw := Log2(v + 1), Log2(w + 1);
             k in {1, 8, 18, 24, 32 + zv, 33 + 2 * zv + zw}
    ensures k < |bits| && bits[k] == 1
  {
    hide Ue, Start, Log2, Trailing;
    var fields := Ue(v) + (Ue(w) + [1, 1, 0, 0]);
    FieldOnes(v, w, fields);
    StartOnes(fields);
    assert bits[k] == Start(fields)[k];
    if k >= 32 {
      assert Start(fields)[k] == Start(fields)[32..][k - 32] == fields[k - 32];
    }
  }

  lemma SpsLength(v: nat, w: nat)
    ensures var fields := Ue(v) + (Ue(w) + [1, 1, 0, 0]);
            |Start(fields) + Trailing(|Start(fields)|)| <= 46 + 2 * Log2(v + 1) + 2 * Log2(w + 1)
  {
    hide Ue, Start, Log2;
    var fields := Ue(v) + (Ue(w) + [1, 1, 0, 0]);
    FieldOnes(v, w, fields);
    StartOnes(fields);
  }

  /** Every 22 bits that start a byte, with the rest of three bytes after it, hold a one. */
  lemma OneInWindow(mbWidth: nat, mbHeight: nat, s: nat) returns (k: nat)
    requires mbWidth <= 4095 && mbHeight <= 4095 && s % 8 == 0 && s + 24 <= |SpsBits(mbWidth, mbHeight)|
    ensures s <= k < s + 22 && k < |SpsBits(mbWidth, mbHeight)| && SpsBits(mbWidth, mbHeight)[k] == 1
  {
    hide Ue, Start, Log2, Trailing;
    var v, w := NatMinusOne(mbWidth), NatMinusOne(mbHeight);
    SmallLog(v + 1);
    SmallLog(w + 1);
    SpsLength(v, w);
    k := PickOne(Log2(v + 1), Log2(w + 1), s, |SpsBits(mbWidth, mbHeight)|);
    SpsOne(v, w, SpsBits(mbWidth, mbHeight), k);
  }

  lemma SmallLog(v: nat)
    requires 1 <= v <= 4095
    ensures Log2(v) <= 11
  {
    assert Pow2(12) == 4096 by { assert Pow2(6) == 64; assert Pow2(9) == 512; }
    Log2AtMost(v, 12);
  }

  /**
    The writer adds no emulation-prevention bytes, and for 16-bit sizes needs none: no three bytes of the parameter
    set read as a start code or as its escape.
   */
  lemma NoStartCode(mbWidth: nat, mbHeight: nat, bytes: seq<byte>, i: nat)
    requires mbWidth <= 4095 && mbHeight <= 4095 && BytesBits(bytes) == SpsBits(mbWidth, mbHeight)
    requires i + 2 < |bytes|
    ensures !(bytes[i] == 0 && bytes[i + 1] == 0 && bytes[i + 2] <= 3)
  {
    hide SpsBits, BytesBits, Bits;
    if bytes[i] == 0 && bytes[i + 1] == 0 && bytes[i + 2] <= 3 {
      ByteBitsAt(bytes, i, 0);
      var k := OneInWindow(mbWidth, mbHeight, 8 * i);
      var j := (k - 8 * i) / 8;
      var o := (k - 8 * i) % 8;
      ByteBitsAt(bytes, i + j, o);
      assert 8 * (i + j) + o == k;
      BitAt(bytes[i + j], 8, o);
      assert false;
    }
  }

  // ------------------------------------------------------------------
  // The writer as the source runs it
  // ------------------------------------------------------------------

  lemma {:induction false} ByteLength(bytes: seq<byte>)
    ensures |BytesBits(bytes)| == 8 * |bytes|
    decreases |bytes|
  {
    if bytes != [] {
      ByteLength(bytes[..|bytes| - 1]);
    }
  }

  lemma PushByte(bytes: seq<byte>, b: byte)
    ensures BytesBits(bytes + [b]) == BytesBits(bytes) + Bits(b, 8)
  {
    hide Bits;
    assert (bytes + [b])[..|bytes|] == bytes;
  }

  lemma PushBit(v: nat, n: nat, b: bit)
    ensures Bits(2 * v + b, n + 1) == Bits(v, n) + [b]
  {
  }

  /** The bits of `v` down to position `i`. */
  lemma NextBit(v: nat, n: nat, i: nat)
    requires i < n
    ensures Bits(Shift(v, i), n - i) == Bits(Shift(v, i + 1), n - i - 1) + [Shift(v, i) % 2]
  {
  }

  class BitWriter {
    var bytes: seq<byte>
    var count: nat
    var cur: nat

    ghost predicate Valid()
      reads this
    {
      count < 8 && cur < Pow2(count)
    }

    /** Everything written so far. */
    ghost function Written(): seq<bit>
      reads this
    {
      BytesBits(bytes) + Bits(cur, count)
    }

    constructor ()
      ensures Valid() && Written() == [] && bytes == []
    {
      bytes, count, cur := [], 0, 0;
    }

    method WriteBit(v: bit)
      requires Valid()
      modifies this
      ensures Valid() && Written() == old(Written()) + [v]
      ensures count == if old(count) == 7 then 0 else old(count) + 1
    {
      assert Pow2(count) <= 128 by {
        Pow2Monotone(count, 7);
        assert Pow2(7) == 128 by { assert Pow2(4) == 16; }
      }
      hide Bits, BytesBits;
      PushBit(cur, count, v);
      assert BytesBits(bytes) + (Bits(cur, count) + [v]) == Written() + [v];
      cur := cur * 2 + v;
      count := count + 1;
      if count == 8 {
        PushByte(bytes, cur);
        NoBits(BytesBits(bytes + [cur]));
        bytes := bytes + [cur];
        count := 0;
        cur := 0;
      }
    }

    method WriteBits(v: nat, n: nat)
      requires Valid()
      modifies this
      ensures Valid() && Written() == old(Written()) + Bits(v, n)
    {
      hide Bits, BytesBits, Shift, Pow2;
      var i := n;
      ghost var start := Written();
      NoBitsOf(Shift(v, n), start);
      while i > 0
        invariant 0 <= i <= n && Valid()
        invariant Written() == start + Bits(Shift(v, i), n - i)
      {
        i := i - 1;
        NextBit(v, n, i);
        ghost var high := Bits(Shift(v, i + 1), n - i - 1);
        WriteBit(Shift(v, i) % 2);
        assert start + high + [Shift(v, i) % 2] == start + (high + [Shift(v, i) % 2]);
      }
      ShiftNone(v);
    }

    method WriteUe(v: u32)
      requires Valid() && v < 0xFFFF_FFFF
      modifies this
      ensures Valid() && Written() == old(Written()) + Ue(v)
    {
      hide Bits, BytesBits, Valid, Written;
      var zeros := Log2(v + 1);
      ghost var start := Written();
      assert start + Zeros(0) == start;
      for k := 0 to zeros
        invariant Valid() && Written() == start + Zeros(k)
      {
        WriteBit(0);
        assert start + Zeros(k) + [0] == start + Zeros(k + 1);
      }
      WriteBits(v + 1, zeros + 1);
      assert start + Zeros(zeros) + Bits(v + 1, zeros + 1) == start + (Zeros(zeros) + Bits(v + 1, zeros + 1));
    }

    lemma Aligned()
      requires Valid()
      ensures |Written()| % 8 == count
      ensures count == 0 ==> Written() == BytesBits(bytes)
    {
      ByteLength(bytes);
      hide BytesBits;
      assert count == 0 ==> Bits(cur, count) == [];
    }

    method WriteTrailing()
      requires Valid()
      modifies this
      ensures Valid() && Written() == BytesBits(bytes)
      ensures Written() == old(Written()) + Trailing(|old(Written())|)
    {
      hide Bits, BytesBits, Written, Zeros;
      Aligned();
      ghost var start, c := Written(), count;
      WriteBit(1);
      ghost var n: nat := 0;
      StopBit(start, 0);
      while count != 0
        invariant Valid() && Written() == start + ([1] + Zeros(n))
        invariant c + 1 + n <= 8 && count == if c + 1 + n == 8 then 0 else c + 1 + n
        decreases if count == 0 then 0 else 8 - count
      {
        WriteBit(0);
        StopBit(start, n);
        n := n + 1;
      }
      Aligned();
      assert n == (7 - |start| % 8) % 8;
    }

    /** The fixed fields, `rest` being what is to come. */
    method WriteStart(ghost rest: seq<bit>)
      requires Valid() && Written() == []
      modifies this
      ensures Valid() && Written() + rest == Start(rest)
    {
      hide Bits, BytesBits, Ue, Written, Valid;
      ghost var whole := Start(rest);
      ghost var s8 := [0] + rest;
      ghost var s7 := Ue(1) + s8;
      ghost var s6 := Ue(0) + s7;
      ghost var s5 := Ue(0) + s6;
      ghost var s4 := Ue(0) + s5;
      ghost var s3 := Ue(0) + s4;
      ghost var s2 := Bits(41, 8) + s3;
      ghost var s1 := Bits(0xC0, 8) + s2;
      assert whole == Bits(66, 8) + s1;
      assert Written() + whole == whole;
      Append(Written(), Bits(66, 8), s1);
      WriteBits(66, 8);
      Append(Written(), Bits(0xC0, 8), s2);
      WriteBits(0xC0, 8);
      Append(Written(), Bits(41, 8), s3);
      WriteBits(41, 8);
      Append(Written(), Ue(0), s4);
      WriteUe(0);
      Append(Written(), Ue(0), s5);
      WriteUe(0);
      Append(Written(), Ue(0), s6);
      WriteUe(0);
      Append(Written(), Ue(0), s7);
      WriteUe(0);
      Append(Written(), Ue(1), s8);
      WriteUe(1);
      Append(Written(), [0], rest);
      WriteBit(0);
    }
  }

  lemma StopBit(start: seq<bit>, n: nat)
    ensures start + [1] == start + ([1] + Zeros(0))
    ensures start + ([1] + Zeros(n)) + [0] == start + ([1] + Zeros(n + 1))
  {
  }

  lemma NoBits(s: seq<bit>)
    ensures s + Bits(0, 0) == s
  {
  }

  lemma NoBitsOf(v: nat, s: seq<bit>)
    ensures s + Bits(v, 0) == s
  {
  }

  lemma ShiftNone(v: nat)
    ensures Shift(v, 0) == v
  {
  }

  lemma {:induction false} Pow2Monotone(m: nat, n: nat)
    requires m <= n
    ensures Pow2(m) <= Pow2(n)
    decreases n
  {
    if m < n {
      Pow2Monotone(m, n - 1);
    }
  }

  method SpsRbsp(mbWidth: u32, mbHeight: u32) returns (bytes: seq<byte>)
    ensures BytesBits(bytes) == SpsBits(mbWidth, mbHeight)
  {
    hide Bits, BytesBits, Ue, BitWriter.Written, BitWriter.Valid, Start;
    var w, h := NatMinusOne(mbWidth), NatMinusOne(mbHeight);
    var b := new BitWriter();
    ghost var flags := [1, 1, 0, 0];
    b.WriteStart(Ue(w) + (Ue(h) + flags));
    Append(b.Written(), Ue(w), Ue(h) + flags);
    b.WriteUe(w);
    Append(b.Written(), Ue(h), flags);
    b.WriteUe(h);
    ghost var sized := b.Written();
    b.WriteBit(1);
    b.WriteBit(1);
    b.WriteBit(0);
    b.WriteBit(0);
    assert sized + [1] + [1] + [0] + [0] == sized + flags;
    b.WriteTrailing();
    bytes := b.bytes;
  }
}
