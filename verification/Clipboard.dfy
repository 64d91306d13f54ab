/** UTF-16LE text, after crates/rdpcore-pdu/src/utf16.rs. */
module Utf16 {
  import opened Bytes

  /** A Unicode scalar value. */
  type scalar = x: int | 0 <= x < 0x11_0000 && !(0xD800 <= x < 0xE000) witness 0

  type Text = seq<scalar>

  const REPLACEMENT: scalar := 0xFFFD

  function Code(x: scalar): seq<u16> {
    if x < 0x1_0000 then [x] else [0xD800 + (x - 0x1_0000) / 0x400, 0xDC00 + (x - 0x1_0000) % 0x400]
  }

  function Units(t: Text): seq<u16> {
    if t == [] then [] else Code(t[0]) + Units(t[1..])
  }

  predicate High(u: u16) {
    0xD800 <= u < 0xDC00
  }

  predicate Low(u: u16) {
    0xDC00 <= u < 0xE000
  }

  /** A surrogate without its partner becomes a replacement character. */
  function Decode(s: seq<u16>): Text {
    if s == [] then []
    else if !High(s[0]) && !Low(s[0]) then [s[0]] + Decode(s[1..])
    else if High(s[0]) && |s| > 1 && Low(s[1]) then
      [0x1_0000 + (s[0] - 0xD800) * 0x400 + (s[1] - 0xDC00)] + Decode(s[2..])
    else [REPLACEMENT] + Decode(s[1..])
  }

  function ToBytes(s: seq<u16>): seq<byte> {
    if s == [] then [] else U16Le(s[0]) + ToBytes(s[1..])
  }

  /** Whole pairs of bytes; an odd last byte is dropped. */
  function FromBytes(s: seq<byte>): seq<u16> {
    if |s| < 2 then [] else [Word(s[0], s[1])] + FromBytes(s[2..])
  }

  function UntilNul(s: seq<u16>): seq<u16> {
    if s == [] || s[0] == 0 then [] else [s[0]] + UntilNul(s[1..])
  }

  function EncodeUnits(t: Text): seq<byte> {
    ToBytes(Units(t))
  }

  function DecodeUnits(s: seq<byte>): Text {
    Decode(FromBytes(s))
  }

  function ReadFixed(s: seq<byte>): Text {
    Decode(UntilNul(FromBytes(s)))
  }

  function WriteFixed(t: Text, byteLen: nat): seq<byte> {
    ToBytes(FixedUnits(t, byteLen / 2))
  }

  // ------------------------------------------------------------------
  // Round trips
  // ------------------------------------------------------------------

  lemma DecodeCode(x: scalar, s: seq<u16>)
    ensures Decode(Code(x) + s) == [x] + Decode(s)
  {
    if x < 0x1_0000 {
      assert ([x] + s)[1..] == s;
    } else {
      assert (Code(x) + s)[2..] == s;
    }
  }

  lemma {:induction false} DecodeInverts(t: Text)
    ensures Decode(Units(t)) == t
  {
    if t != [] {
      DecodeCode(t[0], Units(t[1..]));
      DecodeInverts(t[1..]);
    }
  }

  lemma FromUnit(u: u16, s: seq<byte>)
    ensures FromBytes(U16Le(u) + s) == [u] + FromBytes(s)
  {
    assert (U16Le(u) + s)[2..] == s;
  }

  lemma {:induction false} BytesInvert(s: seq<u16>, tail: seq<byte>)
    ensures FromBytes(ToBytes(s) + tail) == s + FromBytes(tail)
    ensures |ToBytes(s)| == 2 * |s|
  {
    hide FromBytes;
    if s == [] {
      assert ToBytes(s) + tail == tail;
    } else {
      BytesInvert(s[1..], tail);
      FromUnit(s[0], ToBytes(s[1..]) + tail);
      assert ToBytes(s) + tail == U16Le(s[0]) + (ToBytes(s[1..]) + tail);
      assert [s[0]] + (s[1..] + FromBytes(tail)) == s + FromBytes(tail);
    }
  }

  /** Unterminated text comes back whole. */
  lemma UnitsRoundTrip(t: Text)
    ensures DecodeUnits(EncodeUnits(t)) == t
  {
    BytesInvert(Units(t), []);
    assert ToBytes(Units(t)) + [] == ToBytes(Units(t)) && Units(t) + [] == Units(t);
    DecodeInverts(t);
  }

  /** The text before its first U+0000. */
  function BeforeNul(t: Text): Text {
    if t == [] || t[0] == 0 then [] else [t[0]] + BeforeNul(t[1..])
  }

  lemma {:induction false} UntilNulUnits(t: Text, s: seq<u16>)
    requires s != [] ==> s[0] == 0
    ensures UntilNul(Units(t) + s) == Units(BeforeNul(t))
  {
    if t == [] {
      assert Units(t) + s == s;
    } else {
      var rest := Units(t[1..]) + s;
      UntilNulUnits(t[1..], s);
      assert Units(t) + s == Code(t[0]) + rest;
      if t[0] != 0 {
        UntilNulCode(t[0], rest);
        assert ([t[0]] + BeforeNul(t[1..]))[1..] == BeforeNul(t[1..]);
      }
    }
  }

  lemma UntilNulCode(x: scalar, s: seq<u16>)
    requires x != 0
    ensures UntilNul(Code(x) + s) == Code(x) + UntilNul(s)
  {
    if x < 0x1_0000 {
      assert ([x] + s)[1..] == s;
    } else {
      var all := Code(x) + s;
      assert all[1..][1..] == s && all[1..][0] == Code(x)[1];
    }
  }

  /** Terminated text comes back up to its first U+0000. */
  lemma TerminatedReads(t: Text, tail: seq<byte>)
    ensures ReadFixed(EncodeUnits(t) + ([0, 0] + tail)) == BeforeNul(t)
  {
    var end := [0, 0] + tail;
    BytesInvert(Units(t), end);
    UntilNulUnits(t, FromBytes(end));
    DecodeInverts(BeforeNul(t));
  }

  lemma {:induction false} BeforeNulIsWhole(t: Text)
    ensures BeforeNul(t) == t <==> 0 !in t
    ensures |BeforeNul(t)| <= |t| && |Units(BeforeNul(t))| <= |Units(t)|
    ensures 0 in t ==> |Units(BeforeNul(t))| < |Units(t)|
  {
    if t != [] {
      BeforeNulIsWhole(t[1..]);
      if t[0] != 0 {
        var b := [t[0]] + BeforeNul(t[1..]);
        assert b[1..] == BeforeNul(t[1..]);
        assert t == [t[0]] + t[1..];
      }
    }
  }

  // ------------------------------------------------------------------
  // Fixed-width fields
  // ------------------------------------------------------------------

  /** Decoding loses no units, even of broken surrogates. */
  lemma {:induction false} DecodeKeepsCount(s: seq<u16>)
    ensures |Units(Decode(s))| == |s|
    decreases |s|
  {
    if s != [] {
      var x := Decode(s)[0];
      var n := if High(s[0]) && |s| > 1 && Low(s[1]) then 2 else 1;
      DecodeKeepsCount(s[n..]);
      assert Decode(s) == [x] + Decode(s[n..]) && Decode(s)[1..] == Decode(s[n..]);
      assert |Code(x)| == n;
    }
  }

  lemma {:induction false} UntilNulLength(s: seq<u16>)
    ensures |UntilNul(s)| <= |s|
    ensures forall i :: 0 <= i < |UntilNul(s)| ==> UntilNul(s)[i] == s[i]
    ensures |UntilNul(s)| < |s| ==> s[|UntilNul(s)|] == 0
    ensures forall i :: 0 <= i < |UntilNul(s)| ==> s[i] != 0
  {
    if s != [] && s[0] != 0 {
      UntilNulLength(s[1..]);
    }
  }

  /** The units a fixed field carries: as many as leave room for one zero, then zeros. */
  function FixedUnits(t: Text, max: nat): seq<u16> {
    var room := if max == 0 then 0 else max - 1;
    var units := if |Units(t)| <= room then Units(t) else Units(t)[..room];
    units + seq(max - |units|, _ => 0)
  }

  lemma FixedReads(t: Text, byteLen: nat)
    ensures ReadFixed(WriteFixed(t, byteLen)) == Decode(UntilNul(FixedUnits(t, byteLen / 2)))
  {
    hide Units, UntilNul, Decode;
    var units := FixedUnits(t, byteLen / 2);
    BytesInvert(units, []);
    assert ToBytes(units) + [] == ToBytes(units) && units + [] == units;
  }

  lemma CutShort(units: seq<u16>, max: nat)
    requires |units| < max
    ensures |UntilNul(units + seq(max - |units|, _ => 0))| <= |units|
  {
    var field := units + seq(max - |units|, _ => 0);
    UntilNulLength(field);
    hide UntilNul;
    assert field[|units|] == 0;
  }

  /** A fixed field gives its text back exactly when the text is free of U+0000 and leaves room for the terminator. */
  lemma FixedRoundTripIff(t: Text, byteLen: nat)
    ensures ReadFixed(WriteFixed(t, byteLen)) == t <==> t == [] || (0 !in t && |Units(t)| < byteLen / 2)
  {
    hide ReadFixed, WriteFixed, UntilNul, Decode, BeforeNul;
    var max := byteLen / 2;
    FixedReads(t, byteLen);
    BeforeNulIsWhole(t);
    if |Units(t)| < max || t == [] {
      UntilNulUnits(t, seq(max - |Units(t)|, _ => 0));
      DecodeInverts(BeforeNul(t));
    } else {
      SomeUnits(t);
      var read := UntilNul(FixedUnits(t, max));
      if max == 0 {
        UntilNulLength(FixedUnits(t, max));
      } else {
        CutShort(Units(t)[..max - 1], max);
      }
      DecodeKeepsCount(read);
    }
  }

  lemma SomeUnits(t: Text)
    requires t != []
    ensures |Units(t)| >= 1
  {
  }

  // ------------------------------------------------------------------
  // The writers as the source runs them
  // ------------------------------------------------------------------

  lemma {:induction false} ToBytesAppend(s: seq<u16>, u: u16)
    ensures ToBytes(s + [u]) == ToBytes(s) + U16Le(u)
  {
    if s == [] {
      assert s + [u] == [u] && [u][1..] == [];
    } else {
      ToBytesAppend(s[1..], u);
      assert (s + [u])[1..] == s[1..] + [u];
    }
  }

  method EncodeText(t: Text) returns (out: seq<byte>)
    ensures out == EncodeUnits(t)
  {
    var units := Units(t);
    out := [];
    for k := 0 to |units|
      invariant out == ToBytes(units[..k])
    {
      ToBytesAppend(units[..k], units[k]);
      assert units[..k] + [units[k]] == units[..k + 1];
      out := out + U16Le(units[k]);
    }
    assert units[..|units|] == units;
  }
}

/** Clipboard text (section 2.2.5.2 of MS-RDPECLIP), after crates/rdpcore-cliprdr/src/pdu.rs. */
module Clipboard {
  import opened Bytes
  import opened Utf16

  const FORMAT_DATA_RESPONSE: u16 := 5
  const RESPONSE_OK: u16 := 1
  const RESPONSE_FAIL: u16 := 2

  function TextBody(t: Text): seq<byte> {
    EncodeUnits(t) + [0, 0]
  }

  function EncodeResponse(t: Text): seq<byte> {
    U16Le(FORMAT_DATA_RESPONSE) + (U16Le(RESPONSE_OK) + (U32Le(|TextBody(t)| % 0x1_0000_0000) + TextBody(t)))
  }

  /** Even length, and a zero high byte in the first unit or a zero low byte in a later one. */
  predicate LooksUtf16(body: seq<byte>) {
    && |body| >= 2 && |body| % 2 == 0
    && (body[1] == 0 || exists i :: 1 <= i < |body| && 2 * i < |body| && body[2 * i] == 0)
  }

  function UntilZero(body: seq<byte>): seq<byte> {
    if body == [] || body[0] == 0 then [] else [body[0]] + UntilZero(body[1..])
  }

  function DecodeText(ansi: seq<byte> -> Text, body: seq<byte>): Text {
    if body == [] then []
    else if LooksUtf16(body) then ReadFixed(body)
    else ansi(UntilZero(body))
  }

  datatype Response = Received(text: Text) | Failed | OtherMessage

  /** A client message, as far as it is a Format Data Response. `ansi` is the lossy 8-bit decoder. */
  function DecodeResponse(ansi: seq<byte> -> Text, input: seq<byte>): Result<Response> {
    var msgType :- ReadU16Le(input);
    var flags :- ReadU16Le(msgType.rest);
    var n :- ReadU32Le(flags.rest);
    var body :- ReadSlice(n.rest, n.value);
    if msgType.value != FORMAT_DATA_RESPONSE then Ok(OtherMessage)
    else if flags.value / 2 % 2 == 1 then Ok(Failed)
    else Ok(Received(DecodeText(ansi, body.value)))
  }

  /** The terminator alone makes every encoded text look like UTF-16. */
  lemma EncodedLooksUtf16(t: Text)
    ensures LooksUtf16(TextBody(t))
  {
    BytesInvert(Units(t), []);
    var n := |Units(t)|;
    var body := TextBody(t);
    assert |body| == 2 * n + 2 && body[2 * n] == 0;
    if n == 0 {
      assert body[1] == 0;
    }
  }

  /** A response's header leads to its body. */
  lemma ResponseBody(ansi: seq<byte> -> Text, body: seq<byte>)
    requires |body| < 0x1_0000_0000
    ensures DecodeResponse(ansi, U16Le(FORMAT_DATA_RESPONSE) + (U16Le(RESPONSE_OK) + (U32Le(|body|) + body)))
         == Ok(Received(DecodeText(ansi, body)))
  {
    hide U32Le, ReadU32Le, U16Le, ReadU16Le, DecodeText;
    ReadBackU16(FORMAT_DATA_RESPONSE, U16Le(RESPONSE_OK) + (U32Le(|body|) + body));
    ReadBackU16(RESPONSE_OK, U32Le(|body|) + body);
    ReadBackU32(|body|, body);
    assert body[..|body|] == body;
  }

  lemma TextReads(ansi: seq<byte> -> Text, t: Text)
    ensures DecodeText(ansi, TextBody(t)) == BeforeNul(t)
  {
    hide LooksUtf16, ReadFixed, BeforeNul, EncodeUnits;
    EncodedLooksUtf16(t);
    TerminatedReads(t, []);
    var end: seq<byte> := [0, 0];
    assert end + [] == end;
  }

  /** The receiver reads the text up to its first U+0000, whatever it would do with 8-bit text. */
  lemma ResponseReads(ansi: seq<byte> -> Text, t: Text)
    requires |TextBody(t)| < 0x1_0000_0000
    ensures DecodeResponse(ansi, EncodeResponse(t)) == Ok(Received(BeforeNul(t)))
  {
    hide U32Le, U16Le, DecodeResponse, DecodeText, BeforeNul, TextBody;
    TextReads(ansi, t);
    ResponseBody(ansi, TextBody(t));
  }

  /** Clipboard text survives, surrogate pairs included, exactly when it holds no U+0000. */
  lemma TextRoundTripIff(ansi: seq<byte> -> Text, t: Text)
    requires |TextBody(t)| < 0x1_0000_0000
    ensures DecodeResponse(ansi, EncodeResponse(t)) == Ok(Received(t)) <==> 0 !in t
  {
    hide DecodeResponse, EncodeResponse, BeforeNul;
    ResponseReads(ansi, t);
    BeforeNulIsWhole(t);
  }

  lemma {:induction false} UntilZeroReads(s: seq<byte>)
    requires 0 !in s
    ensures UntilZero(s + [0]) == s
  {
    if s != [] {
      UntilZeroReads(s[1..]);
      assert (s + [0])[1..] == s[1..] + [0];
    }
  }

  /** Zero-terminated 8-bit text is taken for what it is, but for a single byte, which reads as that code point. */
  lemma EightBitReads(ansi: seq<byte> -> Text, s: seq<byte>)
    requires 0 !in s
    ensures DecodeText(ansi, s + [0]) == if |s| == 1 then [s[0]] else ansi(s)
  {
    var body := s + [0];
    UntilZeroReads(s);
    assert forall i :: 0 <= i < |body| && body[i] == 0 ==> i == |s|;
    if |s| == 1 {
      assert Word(s[0], 0) == s[0];
      assert body[2..] == [];
      assert FromBytes(body) == [s[0]];
      assert UntilNul([s[0]]) == [s[0]] && Decode([s[0]]) == [s[0]];
    }
  }
}
