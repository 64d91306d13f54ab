/** X.224 Data TPDUs over TPKT (RFC 1006), after crates/rdpcore-pdu/src/x224.rs, tpkt.rs and tpdu.rs. */
module X224 {
  import opened Bytes

  const TPKT_VERSION: byte := 3
  const TPDU_DATA: byte := 0xF0

  /** Header (TPKT length saturates at 16 bits) and payload. */
  function WrapData(payload: seq<byte>): seq<byte> {
    [TPKT_VERSION, 0] + (U16Be(if 7 + |payload| < 0xFFFF then 7 + |payload| else 0xFFFF) + ([2, TPDU_DATA, 0x80] + payload))
  }

  function UnwrapData(input: seq<byte>): Result<seq<byte>> {
    if |input| < 4 then Err(NotEnoughBytes)
    else if input[0] != TPKT_VERSION then Err(InvalidValue("tpkt.version"))
    else
      var s := input[4..];
      if |s| < 2 then Err(NotEnoughBytes)
      else if s[1] != TPDU_DATA then Err(InvalidValue("tpdu.code"))
      else if s[0] == 0xFF || s[0] + 1 < 3 then Err(InvalidValue("tpdu.li"))
      else if |s| < 3 then Err(NotEnoughBytes)
      else Ok(s[3..])
  }

  lemma UnwrapWrap(payload: seq<byte>)
    ensures UnwrapData(WrapData(payload)) == Ok(payload)
  {
    var w := WrapData(payload);
    assert w[4..] == [2, TPDU_DATA, 0x80] + payload;
    assert w[4..][3..] == payload;
  }
}

/** The PER subset of the MCS domain PDUs (crates/rdpcore-pdu/src/per.rs). */
module Per {
  import opened Bytes

  /** One byte up to 0x7F, else a 16-bit value with its top bit forced on. */
  function WriteLength(n: nat): seq<byte> {
    if n <= 0x7F then [n]
    else if Cut16(n) < 0x8000 then U16Be(Cut16(n) + 0x8000)
    else U16Be(Cut16(n))
  }

  function ReadLength(s: seq<byte>): Result<Parsed<nat>> {
    if |s| < 1 then Err(NotEnoughBytes)
    else if s[0] < 0x80 then Ok(Parsed(s[0], s[1..]))
    else
      var v :- ReadU16Be(s);
      Ok(Parsed(v.value % 0x8000, v.rest))
  }

  /** A length survives exactly when it is below 0x8000. */
  lemma LengthRoundTripIff(n: nat, s: seq<byte>)
    ensures ReadLength(WriteLength(n) + s) == Ok(Parsed(n, s)) <==> n < 0x8000
  {
    if n <= 0x7F {
      assert ([n] + s)[1..] == s;
    } else {
      TwoByteLength(n, s);
    }
  }

  lemma TwoByteLength(n: nat, s: seq<byte>)
    requires n > 0x7F
    ensures ReadLength(WriteLength(n) + s) == Ok(Parsed(n % 0x8000, s))
  {
    hide ReadU16Be;
    var v: u16 := if Cut16(n) < 0x8000 then Cut16(n) + 0x8000 else Cut16(n);
    assert WriteLength(n) == U16Be(v);
    assert (U16Be(v) + s)[0] == v / 0x100 >= 0x80;
    assert v % 0x8000 == n % 0x8000 by { LowBits(n, v); }
    ReadBackU16(v, s);
  }

  lemma LowBits(n: nat, v: nat)
    requires v == n % 0x1_0000 || v == n % 0x1_0000 + 0x8000
    ensures v % 0x8000 == n % 0x8000
  {
    var q, r := n / 0x1_0000, n % 0x1_0000;
    var k, low := if r < 0x8000 then 2 * q else 2 * q + 1, if r < 0x8000 then r else r - 0x8000;
    assert n == 0x8000 * k + low;
  }

  /** A longer length loses everything above its low fifteen bits. */
  lemma LongLength(n: nat, s: seq<byte>)
    requires n >= 0x8000
    ensures ReadLength(WriteLength(n) + s) == Ok(Parsed(n % 0x8000, s))
  {
    TwoByteLength(n, s);
  }

  function WriteU16(v: u16, min: u16): seq<byte> {
    U16Be((v as int - min) % 0x1_0000)
  }

  function ReadU16(s: seq<byte>, min: u16): Result<Parsed<u16>> {
    var v :- ReadU16Be(s);
    Ok(Parsed((v.value as int + min) % 0x1_0000, v.rest))
  }

  lemma U16RoundTrip(v: u16, min: u16, s: seq<byte>)
    ensures ReadU16(WriteU16(v, min) + s, min) == Ok(Parsed(v, s))
  {
    ReadBackU16((v as int - min) % 0x1_0000, s);
  }

  /** A length-prefixed big-endian integer, kept to 32 bits. */
  function ReadU32(s: seq<byte>): Result<Parsed<u32>> {
    var n :- ReadLength(s);
    var bytes :- ReadSlice(n.rest, n.value);
    Ok(Parsed(Fold(bytes.value), bytes.rest))
  }

  function Fold(bytes: seq<byte>): u32 {
    if bytes == [] then 0
    else (Fold(bytes[..|bytes| - 1]) as int * 0x100 + bytes[|bytes| - 1]) % 0x1_0000_0000
  }
}

/** MCS domain PDUs (ITU-T T.125), after crates/rdpcore-pdu/src/mcs.rs. */
module Mcs {
  import opened Bytes
  import Per

  const BASE_CHANNEL_ID: u16 := 1001

  datatype DomainPdu =
    | ErectDomainRequest | DisconnectProviderUltimatum | AttachUserRequest | AttachUserConfirm
    | ChannelJoinRequest | ChannelJoinConfirm | SendDataRequest | SendDataIndication

  function Code(p: DomainPdu): byte {
    match p
    case ErectDomainRequest => 1
    case DisconnectProviderUltimatum => 8
    case AttachUserRequest => 10
    case AttachUserConfirm => 11
    case ChannelJoinRequest => 14
    case ChannelJoinConfirm => 15
    case SendDataRequest => 25
    case SendDataIndication => 26
  }

  /** The choice byte is the PDU code and two option bits. */
  function ReadChoice(s: seq<byte>, expected: DomainPdu): Result<Parsed<byte>> {
    var b :- ReadU8(s);
    if b.value / 4 != Code(expected) then Err(InvalidValue("mcs.domain_pdu.choice"))
    else Ok(Parsed(b.value % 4, b.rest))
  }

  datatype SendData = SendData(initiator: u16, channel: u16, data: seq<byte>, complete: bool)

  /** RDP never segments at this layer, so the encoder always marks the PDU complete. */
  function WriteSendData(sd: SendData, pdu: DomainPdu, tail: seq<byte>): seq<byte> {
    [Code(pdu) * 4] + (Per.WriteU16(sd.initiator, BASE_CHANNEL_ID) + (Per.WriteU16(sd.channel, 0) +
    ([0x70] + (Per.WriteLength(|sd.data|) + (sd.data + tail)))))
  }

  function ReadSendData(s: seq<byte>, pdu: DomainPdu): Result<Parsed<SendData>> {
    var choice :- ReadChoice(s, pdu);
    var initiator :- Per.ReadU16(choice.rest, BASE_CHANNEL_ID);
    var channel :- Per.ReadU16(initiator.rest, 0);
    var segmentation :- ReadU8(channel.rest);
    var data :- ReadData(segmentation.rest);
    Ok(Parsed(SendData(initiator.value, channel.value, data.value, segmentation.value / 0x10 % 2 == 1), data.rest))
  }

  function ReadData(s: seq<byte>): Result<Parsed<seq<byte>>> {
    var n :- Per.ReadLength(s);
    ReadSlice(n.rest, n.value)
  }

  /** A longer payload is announced modulo 0x8000, and read back cut to that. */
  lemma DataReads(data: seq<byte>, tail: seq<byte>)
    ensures var n := if |data| < 0x8000 then |data| else |data| % 0x8000;
            ReadData(Per.WriteLength(|data|) + (data + tail)) == Ok(Parsed((data + tail)[..n], (data + tail)[n..]))
  {
    if |data| < 0x8000 {
      Per.LengthRoundTripIff(|data|, data + tail);
    } else {
      Per.LongLength(|data|, data + tail);
    }
  }

  lemma SendDataReads(sd: SendData, pdu: DomainPdu, tail: seq<byte>)
    ensures var n := if |sd.data| < 0x8000 then |sd.data| else |sd.data| % 0x8000;
            ReadSendData(WriteSendData(sd, pdu, tail), pdu)
            == Ok(Parsed(sd.(complete := true, data := (sd.data + tail)[..n]), (sd.data + tail)[n..]))
  {
    hide Per.WriteU16, Per.ReadU16, ReadData, Per.WriteLength;
    DataReads(sd.data, tail);
    var s := Per.WriteLength(|sd.data|) + (sd.data + tail);
    assert ReadU8([0x70] + s) == Ok(Parsed(0x70, s)) by {
      assert ([0x70] + s)[1..] == s;
    }
    s := [0x70] + s;
    Per.U16RoundTrip(sd.channel, 0, s);
    s := Per.WriteU16(sd.channel, 0) + s;
    Per.U16RoundTrip(sd.initiator, BASE_CHANNEL_ID, s);
    s := Per.WriteU16(sd.initiator, BASE_CHANNEL_ID) + s;
    assert ([Code(pdu) * 4] + s)[1..] == s;
  }

  /** A Send Data PDU reads back, complete and with the bytes after it untouched, exactly when it is below 32 KiB. */
  lemma SendDataRoundTripIff(sd: SendData, pdu: DomainPdu, tail: seq<byte>)
    ensures ReadSendData(WriteSendData(sd, pdu, tail), pdu) == Ok(Parsed(sd.(complete := true), tail)) <==> |sd.data| < 0x8000
  {
    hide ReadSendData, WriteSendData;
    SendDataReads(sd, pdu, tail);
    var all := sd.data + tail;
    if |sd.data| < 0x8000 {
      assert all[..|sd.data|] == sd.data && all[|sd.data|..] == tail;
    } else {
      assert |all[..|sd.data| % 0x8000]| < |sd.data|;
    }
  }
}

/** Static virtual channel chunking (section 2.2.6.1 of MS-RDPBCGR), after crates/rdpcore-pdu/src/svc.rs. */
module Svc {
  import opened Bytes
  import X224
  import Mcs

  const CHUNK: nat := 1600
  const FIRST: u32 := 1
  const LAST: u32 := 2

  predicate IsFirst(flags: u32) {
    flags % 2 == 1
  }

  predicate IsLast(flags: u32) {
    flags / 2 % 2 == 1
  }

  function Flags(first: bool, last: bool): u32 {
    (if first then FIRST else 0) + (if last then LAST else 0)
  }

  function Chunk(total: nat, flags: u32, body: seq<byte>): seq<byte> {
    U32Le(total % 0x1_0000_0000) + (U32Le(flags) + body)
  }

  /** The chunks of `data`, of which the message is `total` bytes in all. */
  function ChunksFrom(total: nat, data: seq<byte>, first: bool): seq<seq<byte>> {
    if |data| <= CHUNK then [Chunk(total, Flags(first, true), data)]
    else [Chunk(total, Flags(first, false), data[..CHUNK])] + ChunksFrom(total, data[CHUNK..], false)
  }

  /** An empty message is one header-only chunk; any other is cut every 1600 bytes. */
  function Chunkify(data: seq<byte>): seq<seq<byte>> {
    ChunksFrom(|data|, data, true)
  }

  datatype Dechunked = Dechunked(total: u32, flags: u32, body: seq<byte>)

  function Dechunkify(input: seq<byte>): Result<Dechunked> {
    var total :- ReadU32Le(input);
    var flags :- ReadU32Le(total.rest);
    Ok(Dechunked(total.value, flags.value, flags.rest))
  }

  lemma DechunkifyChunk(total: nat, flags: u32, body: seq<byte>)
    ensures Dechunkify(Chunk(total, flags, body)) == Ok(Dechunked(total % 0x1_0000_0000, flags, body))
  {
    hide U32Le, ReadU32Le;
    ReadBackU32(total % 0x1_0000_0000, U32Le(flags) + body);
    ReadBackU32(flags, body);
  }

  /** The outcome of feeding one chunk: the buffer afterwards, and the message if the chunk completed one. */
  datatype Fed = Fed(buffer: seq<byte>, result: Result<Option<seq<byte>>>)

  const TOO_BIG := InvalidValue("svc.buffer")

  function Feed(buffer: seq<byte>, payload: seq<byte>, maxSize: nat): Fed {
    match Dechunkify(payload)
    case Err(e) => Fed(buffer, Err(e))
    case Ok(c) =>
      if !IsFirst(c.flags) && buffer == [] then Fed(buffer, Ok(None))
      else
        var base := if IsFirst(c.flags) then [] else buffer;
        if |base| + |c.body| > maxSize then Fed([], Err(TOO_BIG))
        else if IsLast(c.flags) then Fed([], Ok(Some(base + c.body)))
        else Fed(base + c.body, Ok(None))
  }

  /** The source's in-place form: a buffer that successive chunks are fed into. */
  class Reassembly {
    var buffer: seq<byte>

    constructor ()
      ensures buffer == []
    {
      buffer := [];
    }

    method Reassemble(payload: seq<byte>, maxSize: nat) returns (r: Result<Option<seq<byte>>>)
      modifies this
      ensures Fed(buffer, r) == Feed(old(buffer), payload, maxSize)
    {
      var c := Dechunkify(payload);
      if c.Err? {
        return Err(c.error);
      }
      if IsFirst(c.value.flags) {
        buffer := [];
      } else if buffer == [] {
        return Ok(None);
      }
      if |buffer| + |c.value.body| > maxSize {
        buffer := [];
        return Err(TOO_BIG);
      }
      buffer := buffer + c.value.body;
      if !IsLast(c.value.flags) {
        return Ok(None);
      }
      r := Ok(Some(buffer));
      buffer := [];
    }
  }

  // ------------------------------------------------------------------
  // Arbitrary streams
  // ------------------------------------------------------------------

  function Buffer(stream: seq<seq<byte>>, maxSize: nat): seq<byte> {
    if stream == [] then []
    else Feed(Buffer(stream[..|stream| - 1], maxSize), stream[|stream| - 1], maxSize).buffer
  }

  /** All chunk bodies from the most recent FIRST chunk of the stream through its last one. */
  function SinceFirst(stream: seq<seq<byte>>): Option<seq<byte>> {
    if stream == [] then None else Extend(SinceFirst(stream[..|stream| - 1]), stream[|stream| - 1])
  }

  /** The bodies since FIRST after one more chunk. */
  function Extend(bodies: Option<seq<byte>>, payload: seq<byte>): Option<seq<byte>> {
    match Dechunkify(payload)
    case Err(_) => bodies
    case Ok(c) =>
      if IsFirst(c.flags) then Some(c.body)
      else
        match bodies
        case None => None
        case Some(b) => Some(b + c.body)
  }

  /** One chunk keeps the buffer equal to the bodies since FIRST, and a completed message is those bodies. */
  lemma BufferedAgrees(buffer: seq<byte>, bodies: Option<seq<byte>>, payload: seq<byte>, maxSize: nat)
    requires |buffer| <= maxSize && (buffer != [] ==> bodies == Some(buffer))
    ensures var fed := Feed(buffer, payload, maxSize);
            && |fed.buffer| <= maxSize
            && (fed.buffer != [] ==> Extend(bodies, payload) == Some(fed.buffer))
            && (fed.result.Ok? && fed.result.value.Some? ==>
                  Extend(bodies, payload) == fed.result.value && |fed.result.value.value| <= maxSize)
  {
    hide Dechunkify;
    match Dechunkify(payload)
    case Err(_) =>
    case Ok(c) =>
      assert [] + c.body == c.body;
  }

  /** What is buffered is everything since the latest FIRST chunk, and never more than the cap. */
  lemma {:induction false} BufferIsSinceFirst(stream: seq<seq<byte>>, maxSize: nat)
    ensures |Buffer(stream, maxSize)| <= maxSize
    ensures Buffer(stream, maxSize) != [] ==> SinceFirst(stream) == Some(Buffer(stream, maxSize))
  {
    hide Dechunkify;
    if stream != [] {
      var init := stream[..|stream| - 1];
      BufferIsSinceFirst(init, maxSize);
      BufferedAgrees(Buffer(init, maxSize), SinceFirst(init), stream[|stream| - 1], maxSize);
    }
  }

  /**
    For every stream of chunks, well-formed or not, a returned message is exactly the concatenation of all
    chunk bodies from the most recent FIRST chunk through the current one, within the cap.
   */
  lemma MessageIsSinceFirst(stream: seq<seq<byte>>, payload: seq<byte>, maxSize: nat)
    ensures var r := Feed(Buffer(stream, maxSize), payload, maxSize).result;
            r.Ok? && r.value.Some? ==> SinceFirst(stream + [payload]) == r.value && |r.value.value| <= maxSize
  {
    hide Feed, Extend;
    BufferIsSinceFirst(stream, maxSize);
    assert (stream + [payload])[..|stream|] == stream;
    BufferedAgrees(Buffer(stream, maxSize), SinceFirst(stream), payload, maxSize);
  }

  // ------------------------------------------------------------------
  // A whole message
  // ------------------------------------------------------------------

  /** Feeding several chunks: the buffer and the messages completed, or the first error. */
  datatype FedAll = FedAll(buffer: seq<byte>, result: Result<seq<seq<byte>>>)

  function FeedAll(buffer: seq<byte>, chunks: seq<seq<byte>>, maxSize: nat): FedAll
    decreases |chunks|
  {
    if chunks == [] then FedAll(buffer, Ok([]))
    else
      var one := Feed(buffer, chunks[0], maxSize);
      match one.result
      case Err(e) => FedAll(one.buffer, Err(e))
      case Ok(m) =>
        var more := FeedAll(one.buffer, chunks[1..], maxSize);
        match more.result
        case Err(e) => more
        case Ok(ms) => FedAll(more.buffer, Ok((if m.Some? then [m.value] else []) + ms))
  }

  lemma FeedChunk(buffer: seq<byte>, total: nat, first: bool, last: bool, body: seq<byte>, maxSize: nat)
    requires first || buffer != []
    requires (if first then 0 else |buffer|) + |body| <= maxSize
    ensures var base := if first then [] else buffer;
            Feed(buffer, Chunk(total, Flags(first, last), body), maxSize)
            == if last then Fed([], Ok(Some(base + body))) else Fed(base + body, Ok(None))
  {
    hide Dechunkify, Chunk;
    DechunkifyChunk(total, Flags(first, last), body);
  }

  lemma {:induction false} FeedChunks(buffer: seq<byte>, total: nat, data: seq<byte>, first: bool, maxSize: nat)
    requires first || buffer != []
    requires (if first then 0 else |buffer|) + |data| <= maxSize
    ensures var base := if first then [] else buffer;
            FeedAll(buffer, ChunksFrom(total, data, first), maxSize) == FedAll([], Ok([base + data]))
    decreases |data|
  {
    hide Feed, Chunk;
    var base := if first then [] else buffer;
    if |data| <= CHUNK {
      var c := Chunk(total, Flags(first, true), data);
      FeedChunk(buffer, total, first, true, data, maxSize);
      FeedOne(buffer, c, maxSize);
    } else {
      var c := Chunk(total, Flags(first, false), data[..CHUNK]);
      var rest := ChunksFrom(total, data[CHUNK..], false);
      FeedChunk(buffer, total, first, false, data[..CHUNK], maxSize);
      FeedChunks(base + data[..CHUNK], total, data[CHUNK..], false, maxSize);
      assert base + data[..CHUNK] + data[CHUNK..] == base + data;
      assert ([c] + rest)[1..] == rest;
      assert [] + [base + data] == [base + data];
    }
  }

  lemma FeedOne(buffer: seq<byte>, chunk: seq<byte>, maxSize: nat)
    ensures var one := Feed(buffer, chunk, maxSize);
            one.result.Ok? && one.result.value.Some? ==>
              FeedAll(buffer, [chunk], maxSize) == FedAll(one.buffer, Ok([one.result.value.value]))
  {
    hide Feed;
    assert [chunk][1..] == [];
    var one := Feed(buffer, chunk, maxSize);
    if one.result.Ok? && one.result.value.Some? {
      assert [one.result.value.value] + [] == [one.result.value.value];
    }
  }

  /** Whatever was buffered before, feeding a message's chunks completes exactly that message, at the last chunk. */
  lemma ChunkifyReassembles(buffer: seq<byte>, data: seq<byte>, maxSize: nat)
    requires |data| <= maxSize
    ensures FeedAll(buffer, Chunkify(data), maxSize) == FedAll([], Ok([data]))
  {
    FeedChunks(buffer, |data|, data, true, maxSize);
    assert [] + data == data;
  }

  /** Chunks, each as one complete MCS indication in one X.224 packet. */
  function WrapIndication(initiator: u16, channel: u16, data: seq<byte>): seq<seq<byte>> {
    WrapChunks(initiator, channel, Chunkify(data))
  }

  function WrapChunks(initiator: u16, channel: u16, chunks: seq<seq<byte>>): (frames: seq<seq<byte>>)
    ensures |frames| == |chunks|
  {
    seq(|chunks|, i requires 0 <= i < |chunks| => WrapChunk(initiator, channel, chunks[i]))
  }

  function WrapChunk(initiator: u16, channel: u16, chunk: seq<byte>): seq<byte> {
    X224.WrapData(Mcs.WriteSendData(Mcs.SendData(initiator, channel, chunk, true), Mcs.SendDataIndication, []))
  }

  /** The receiving side of one packet: the chunk inside it. */
  function UnwrapChunk(frame: seq<byte>): Result<Mcs.SendData> {
    var payload :- X224.UnwrapData(frame);
    var sd :- Mcs.ReadSendData(payload, Mcs.SendDataIndication);
    Ok(sd.value)
  }

  lemma UnwrapWrapChunk(initiator: u16, channel: u16, chunk: seq<byte>)
    requires |chunk| < 0x8000
    ensures UnwrapChunk(WrapChunk(initiator, channel, chunk)) == Ok(Mcs.SendData(initiator, channel, chunk, true))
  {
    hide Mcs.ReadSendData, Mcs.WriteSendData, X224.UnwrapData, X224.WrapData;
    var sd := Mcs.SendData(initiator, channel, chunk, true);
    X224.UnwrapWrap(Mcs.WriteSendData(sd, Mcs.SendDataIndication, []));
    Mcs.SendDataRoundTripIff(sd, Mcs.SendDataIndication, []);
  }

  /** No chunk is larger than its header and 1600 bytes, so every packet round-trips. */
  lemma {:induction false} ChunkSizes(total: nat, data: seq<byte>, first: bool)
    ensures forall i :: 0 <= i < |ChunksFrom(total, data, first)| ==> |ChunksFrom(total, data, first)[i]| <= CHUNK + 8
    decreases |data|
  {
    if |data| > CHUNK {
      ChunkSizes(total, data[CHUNK..], false);
    }
  }
}
