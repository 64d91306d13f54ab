/**
  NSCodec run-length coding of one plane, after crates/rdpcore-pdu/src/nscodec.rs: runs within all but the last
  four bytes, which follow raw. The decoder is that of section 2.2.2 of MS-RDPNSC.
 */
module NsCodec {
  import opened Bytes

  const LONG: byte := 0xFF

  /** Runs are counted up to one past the largest 32-bit value. */
  const RUN_LIMIT: nat := 0x1_0000_0000

  /** Planes whose sides are 16-bit. */
  const MAX_PLANE: nat := 65535 * 65535

  /** Length of the run that `s` starts with, as far as it is counted. */
  function RunLength(s: seq<byte>): (n: nat)
    requires s != []
    ensures 1 <= n <= |s| && n <= RUN_LIMIT
    ensures forall i :: 0 <= i < n ==> s[i] == s[0]
    ensures n < |s| && n < RUN_LIMIT ==> s[n] != s[0]
  {
    RunFrom(s, 1)
  }

  /** The run, of which the first `n` bytes have been seen. */
  function RunFrom(s: seq<byte>, n: nat): (m: nat)
    requires 1 <= n <= |s| && n <= RUN_LIMIT && forall i :: 0 <= i < n ==> s[i] == s[0]
    ensures n <= m <= |s| && m <= RUN_LIMIT
    ensures forall i :: 0 <= i < m ==> s[i] == s[0]
    ensures m < |s| && m < RUN_LIMIT ==> s[m] != s[0]
    decreases |s| - n
  {
    if n < |s| && n < RUN_LIMIT && s[n] == s[0] then RunFrom(s, n + 1) else n
  }

  function Packet(v: byte, run: nat): seq<byte>
    requires 1 <= run
  {
    if run == 1 then [v]
    else if run <= 255 then [v, v, run - 2]
    else [v, v, LONG] + U32Le(if run < 0x1_0000_0000 then run else 0xFFFF_FFFF)
  }

  function EncodeBody(body: seq<byte>): seq<byte> {
    if body == [] then [] else Packet(body[0], RunLength(body)) + EncodeBody(body[RunLength(body)..])
  }

  function Encode(plane: seq<byte>): seq<byte> {
    if |plane| <= 4 then plane else EncodeBody(plane[..|plane| - 4]) + plane[|plane| - 4..]
  }

  function EncodeConst(v: byte, n: nat): seq<byte> {
    if n <= 4 then Repeat(v, n) else Packet(v, n - 4) + Repeat(v, 4)
  }

  // ------------------------------------------------------------------
  // The decoder of the standard
  // ------------------------------------------------------------------

  function Then(bytes: seq<byte>, more: Result<Parsed<seq<byte>>>): Result<Parsed<seq<byte>>> {
    match more
    case Err(e) => Err(e)
    case Ok(p) => Ok(Parsed(bytes + p.value, p.rest))
  }

  /** `left` bytes still to come: the last four raw, the one before them literal, the rest runs and literals. */
  function Decode(left: nat, s: seq<byte>): Result<Parsed<seq<byte>>>
    decreases |s|, 0
  {
    if left <= 4 then ReadSlice(s, left)
    else if s == [] then Err(NotEnoughBytes)
    else if left == 5 || |s| < 2 || s[1] != s[0] then Then([s[0]], Decode(left - 1, s[1..]))
    else if |s| < 3 then Err(NotEnoughBytes)
    else if s[2] != LONG then DecodeRun(left, s[0], s[2] as int + 2, s[3..])
    else if |s| < 7 then Err(NotEnoughBytes)
    else DecodeRun(left, s[0], ReadU32Le(s[3..]).value.value, s[7..])
  }

  function DecodeRun(left: nat, v: byte, run: nat, s: seq<byte>): Result<Parsed<seq<byte>>>
    requires left > 4
    decreases |s|, 1
  {
    if run > left - 4 then Err(InvalidValue("nscodec.run")) else Then(Repeat(v, run), Decode(left - run, s))
  }

  // ------------------------------------------------------------------
  // Round trip
  // ------------------------------------------------------------------

  lemma FirstByte(body: seq<byte>, s: seq<byte>)
    requires body != []
    ensures EncodeBody(body) + s != [] && (EncodeBody(body) + s)[0] == body[0]
  {
  }

  lemma DecodeLiteral(left: nat, v: byte, s: seq<byte>)
    requires left > 4 && (left == 5 || s == [] || s[0] != v)
    ensures Decode(left, [v] + s) == Then([v], Decode(left - 1, s))
  {
    assert ([v] + s)[1..] == s;
  }

  lemma DecodePacket(left: nat, v: byte, run: nat, s: seq<byte>)
    requires 2 <= run < 0x1_0000_0000 && run <= left - 4
    ensures Decode(left, Packet(v, run) + s) == Then(Repeat(v, run), Decode(left - run, s))
  {
    var t := Packet(v, run) + s;
    assert t[0] == v && t[1] == v;
    if run <= 255 {
      assert t[2] == run - 2 && t[3..] == s;
    } else {
      assert t[2] == LONG && t[3..] == U32Le(run) + s && t[7..] == s;
      ReadBackU32(run, s);
    }
  }

  /** One packet of the body, before the code of the rest. */
  lemma DecodeFirst(body: seq<byte>, end: seq<byte>)
    requires body != [] && |body| < 0x1_0000_0000
    ensures var run := RunLength(body);
            Decode(|body| + 4, EncodeBody(body) + end)
            == Then(Repeat(body[0], run), Decode(|body| - run + 4, EncodeBody(body[run..]) + end))
  {
    hide Decode, Packet, RunLength, RunFrom;
    var v, run := body[0], RunLength(body);
    var rest := body[run..];
    var code := EncodeBody(rest) + end;
    assert EncodeBody(body) + end == Packet(v, run) + code;
    if run == 1 {
      PacketOfOne(v);
      if rest != [] {
        FirstByte(rest, end);
      }
      DecodeLiteral(|body| + 4, v, code);
      assert Repeat(v, 1) == [v];
    } else {
      DecodePacket(|body| + 4, v, run, code);
    }
  }

  lemma {:induction false} BodyRoundTrip(body: seq<byte>, raw: seq<byte>, tail: seq<byte>)
    requires |raw| == 4 && |body| < 0x1_0000_0000
    ensures Decode(|body| + 4, EncodeBody(body) + (raw + tail)) == Ok(Parsed(body + raw, tail))
    decreases |body|
  {
    hide Decode, Packet, RunLength, RunFrom, ReadSlice;
    if body == [] {
      assert EncodeBody(body) + (raw + tail) == raw + tail && [] + raw == raw;
      ReadBackSlice(raw, tail);
      DecodeEnd(4, raw + tail);
    } else {
      var run := RunLength(body);
      var rest := body[run..];
      DecodeFirst(body, raw + tail);
      BodyRoundTrip(rest, raw, tail);
      assert Repeat(body[0], run) + (rest + raw) == body + raw;
    }
  }

  lemma DecodeEnd(left: nat, s: seq<byte>)
    requires left <= 4
    ensures Decode(left, s) == ReadSlice(s, left)
  {
  }

  lemma PacketOfOne(v: byte)
    ensures Packet(v, 1) == [v]
  {
  }

  /** Every plane comes back, and nothing after it is touched, even where the raw bytes continue the last run. */
  lemma PlaneRoundTrip(plane: seq<byte>, tail: seq<byte>)
    requires |plane| <= MAX_PLANE
    ensures Decode(|plane|, Encode(plane) + tail) == Ok(Parsed(plane, tail))
  {
    hide EncodeBody, Decode;
    if |plane| <= 4 {
      ReadBackSlice(plane, tail);
      DecodeEnd(|plane|, plane + tail);
    } else {
      var body, raw := plane[..|plane| - 4], plane[|plane| - 4..];
      BodyRoundTrip(body, raw, tail);
      assert body + raw == plane;
      assert Encode(plane) + tail == EncodeBody(body) + (raw + tail);
    }
  }

  // ------------------------------------------------------------------
  // The constant plane
  // ------------------------------------------------------------------

  lemma ConstRun(v: byte, n: nat)
    requires n > 0
    ensures RunLength(Repeat(v, n)) == if n <= RUN_LIMIT then n else RUN_LIMIT
  {
    hide RunFrom;
    var s := Repeat(v, n);
    var m := RunLength(s);
    assert m < n ==> s[m] == v == s[0];
  }

  lemma ConstParts(v: byte, n: nat)
    requires n > 4
    ensures Encode(Repeat(v, n)) == EncodeBody(Repeat(v, n - 4)) + Repeat(v, 4)
  {
    hide EncodeBody;
    assert Repeat(v, n)[..n - 4] == Repeat(v, n - 4) && Repeat(v, n)[n - 4..] == Repeat(v, 4);
  }

  lemma ConstBody(v: byte, m: nat)
    requires 0 < m
    ensures m <= RUN_LIMIT ==> EncodeBody(Repeat(v, m)) == Packet(v, m)
    ensures m > RUN_LIMIT ==> |EncodeBody(Repeat(v, m))| > |Packet(v, m)|
  {
    hide RunLength, RunFrom, Packet;
    var body := Repeat(v, m);
    ConstRun(v, m);
    if m <= RUN_LIMIT {
      assert body[m..] == [];
      assert Packet(v, m) + [] == Packet(v, m);
    } else {
      LongPackets(v, m);
      FirstByte(body[RUN_LIMIT..], []);
      assert EncodeBody(body[RUN_LIMIT..]) + [] == EncodeBody(body[RUN_LIMIT..]);
    }
  }

  /** The shortcut for constant planes is the general encoder, exactly up to the length where a run is cut. */
  lemma ConstAgreesIff(v: byte, n: nat)
    ensures EncodeConst(v, n) == Encode(Repeat(v, n)) <==> n <= RUN_LIMIT + 4
  {
    hide EncodeBody, Packet;
    if n > 4 {
      ConstParts(v, n);
      ConstBody(v, n - 4);
    } else {
      assert |Repeat(v, n)| == n;
    }
  }

  lemma LongPackets(v: byte, n: nat)
    requires n > RUN_LIMIT
    ensures |Packet(v, n)| == |Packet(v, RUN_LIMIT)| == 7
  {
  }

  // ------------------------------------------------------------------
  // The encoder as the source runs it
  // ------------------------------------------------------------------

  /** `out` is the code of the first `i` bytes of the body. */
  ghost predicate Encoded(body: seq<byte>, i: nat, out: seq<byte>) {
    i <= |body| && out + EncodeBody(body[i..]) == EncodeBody(body)
  }

  lemma EncodeStep(body: seq<byte>, i: nat, run: nat, out: seq<byte>)
    requires i < |body| && run == RunLength(body[i..]) && Encoded(body, i, out)
    ensures i + run <= |body| && Encoded(body, i + run, out + Packet(body[i], run))
  {
    hide Packet, RunLength, RunFrom;
    var rest := body[i..];
    assert rest[run..] == body[i + run..];
    var p, q := Packet(body[i], run), EncodeBody(body[i + run..]);
    assert EncodeBody(rest) == p + q;
    assert out + (p + q) == out + p + q;
  }

  lemma EncodeEnds(body: seq<byte>, out: seq<byte>)
    ensures Encoded(body, 0, [])
    ensures Encoded(body, |body|, out) ==> out == EncodeBody(body)
  {
    assert body[0..] == body && [] + EncodeBody(body) == EncodeBody(body);
    assert body[|body|..] == [] && out + [] == out;
  }

  method CountRun(plane: seq<byte>, i: nat, end: nat) returns (run: nat)
    requires i < end <= |plane|
    ensures run == RunLength(plane[i..end])
  {
    ghost var s := plane[i..end];
    run := 1;
    while i + run < end && plane[i + run] == plane[i]
      invariant 1 <= run <= |s| && run < RUN_LIMIT
      invariant forall k :: 0 <= k < run ==> s[k] == s[0]
      invariant RunFrom(s, run) == RunFrom(s, 1)
      decreases end - run
    {
      assert s[run] == s[0];
      if run + 1 == RUN_LIMIT {
        run := run + 1;
        break;
      }
      run := run + 1;
    }
  }

  method RleEncode(plane: seq<byte>) returns (out: seq<byte>)
    ensures out == Encode(plane)
  {
    hide RunLength, RunFrom, Packet, EncodeBody, Encoded;
    var n := |plane|;
    if n <= 4 {
      return plane;
    }
    var end := n - 4;
    ghost var body := plane[..end];
    out := [];
    var i := 0;
    EncodeEnds(body, out);
    while i < end
      invariant 0 <= i <= end && Encoded(body, i, out)
      decreases end - i
    {
      var run := CountRun(plane, i, end);
      assert plane[i..end] == body[i..];
      EncodeStep(body, i, run, out);
      out := out + Packet(plane[i], run);
      i := i + run;
    }
    EncodeEnds(body, out);
    out := out + plane[end..];
  }
}
