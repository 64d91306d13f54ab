/** Dynamic virtual channel PDUs (MS-RDPEDYC), after crates/rdpcore-dvc/src/pdu.rs. */
module DvcPdu {
  import opened Bytes

  const MAX_DATA_SIZE: nat := 1590

  const CMD_CREATE: byte := 1
  const CMD_DATA_FIRST: byte := 2
  const CMD_DATA: byte := 3
  const CMD_CLOSE: byte := 4
  const CMD_CAPABILITY: byte := 5

  /** Selector 0, 1 or 2 for a field of 1, 2 or 4 bytes: the smallest that holds the value. */
  function Selector(v: u32): byte {
    if v <= 0xFF then 0 else if v <= 0xFFFF then 1 else 2
  }

  function WriteVariable(v: u32): (s: seq<byte>)
    ensures |s| <= 4
  {
    if v <= 0xFF then [v] else if v <= 0xFFFF then U16Le(v) else U32Le(v)
  }

  function ReadVariable(s: seq<byte>, selector: byte): Result<Parsed<u32>> {
    match selector
    case 0 =>
      var v :- ReadU8(s);
      Ok(Parsed(v.value, v.rest))
    case 1 =>
      var v :- ReadU16Le(s);
      Ok(Parsed(v.value, v.rest))
    case 2 => ReadU32Le(s)
    case _ => Err(InvalidValue("dvc.field_selector"))
  }

  lemma VariableRoundTrip(v: u32, s: seq<byte>)
    ensures ReadVariable(WriteVariable(v) + s, Selector(v)) == Ok(Parsed(v, s))
  {
    if v <= 0xFF {
      assert ([v] + s)[1..] == s;
    } else if v <= 0xFFFF {
      ReadBackU16(v, s);
    } else {
      ReadBackU32(v, s);
    }
  }

  function EncodeData(channel: u32, data: seq<byte>): seq<byte> {
    [CMD_DATA * 16 + Selector(channel)] + (WriteVariable(channel) + data)
  }

  function EncodeDataFirst(channel: u32, total: u32, data: seq<byte>): seq<byte> {
    [CMD_DATA_FIRST * 16 + Selector(total) * 4 + Selector(channel)] + (WriteVariable(channel) + (WriteVariable(total) + data))
  }

  function EncodeCreateRequest(channel: u32, name: seq<byte>): seq<byte> {
    [CMD_CREATE * 16 + Selector(channel)] + (WriteVariable(channel) + (name + [0]))
  }

  /** Continuation PDUs: one Data PDU for every 1590 bytes. */
  function DataPdus(channel: u32, data: seq<byte>): seq<seq<byte>> {
    if data == [] then []
    else if |data| <= MAX_DATA_SIZE then [EncodeData(channel, data)]
    else [EncodeData(channel, data[..MAX_DATA_SIZE])] + DataPdus(channel, data[MAX_DATA_SIZE..])
  }

  /** One Data PDU, or a Data First PDU announcing the total and continuations. */
  function EncodeChannelPayload(channel: u32, payload: seq<byte>): seq<seq<byte>> {
    if |payload| <= MAX_DATA_SIZE then [EncodeData(channel, payload)]
    else
      [EncodeDataFirst(channel, |payload| % 0x1_0000_0000, payload[..MAX_DATA_SIZE])]
      + DataPdus(channel, payload[MAX_DATA_SIZE..])
  }

  datatype ClientMessage =
    | CapabilityResponse(version: u16)
    | CreateResponse(channel: u32, status: u32)
    | Data(channel: u32, data: seq<byte>)
    | DataFirst(channel: u32, total: u32, data: seq<byte>)
    | Close(channel: u32)
    | Other

  function DecodeClientMessage(input: seq<byte>): Result<ClientMessage> {
    var header :- ReadU8(input);
    var sp := header.value / 4 % 4;
    var cbId := header.value % 4;
    match header.value / 16
    case 5 =>
      var pad :- ReadU8(header.rest);
      var version :- ReadU16Le(pad.rest);
      Ok(CapabilityResponse(version.value))
    case 1 =>
      var channel :- ReadVariable(header.rest, cbId);
      var status :- ReadU32Le(channel.rest);
      Ok(CreateResponse(channel.value, status.value))
    case 3 =>
      var channel :- ReadVariable(header.rest, cbId);
      Ok(Data(channel.value, channel.rest))
    case 2 =>
      var channel :- ReadVariable(header.rest, cbId);
      var total :- ReadVariable(channel.rest, sp);
      Ok(DataFirst(channel.value, total.value, total.rest))
    case 4 =>
      var channel :- ReadVariable(header.rest, cbId);
      Ok(Close(channel.value))
    case _ => Ok(Other)
  }

  /** Data and Data First PDUs decode to what was encoded, and fit one 1600-byte chunk when cut at 1590. */
  lemma DataRoundTrip(channel: u32, data: seq<byte>)
    ensures DecodeClientMessage(EncodeData(channel, data)) == Ok(Data(channel, data))
    ensures |EncodeData(channel, data)| <= |data| + 5
  {
    hide ReadVariable, WriteVariable;
    var s := EncodeData(channel, data);
    assert s[1..] == WriteVariable(channel) + data;
    VariableRoundTrip(channel, data);
    assert s[0] / 16 == 3 && s[0] % 4 == Selector(channel);
  }

  lemma DataFirstRoundTrip(channel: u32, total: u32, data: seq<byte>)
    ensures DecodeClientMessage(EncodeDataFirst(channel, total, data)) == Ok(DataFirst(channel, total, data))
    ensures |EncodeDataFirst(channel, total, data)| <= |data| + 9
  {
    hide ReadVariable, WriteVariable;
    var s := EncodeDataFirst(channel, total, data);
    assert s[1..] == WriteVariable(channel) + (WriteVariable(total) + data);
    VariableRoundTrip(channel, WriteVariable(total) + data);
    VariableRoundTrip(total, data);
    assert s[0] / 16 == 2 && s[0] / 4 % 4 == Selector(total) && s[0] % 4 == Selector(channel);
  }

  lemma {:induction false} DataPdusFit(channel: u32, data: seq<byte>)
    ensures forall i :: 0 <= i < |DataPdus(channel, data)| ==> |DataPdus(channel, data)[i]| <= 1600
    decreases |data|
  {
    hide EncodeData;
    if |data| > MAX_DATA_SIZE {
      DataRoundTrip(channel, data[..MAX_DATA_SIZE]);
      DataPdusFit(channel, data[MAX_DATA_SIZE..]);
    } else {
      DataRoundTrip(channel, data);
    }
  }

  /** Every PDU of a payload fits in one 1600-byte chunk, for every channel id and every payload. */
  lemma PdusFit(channel: u32, payload: seq<byte>)
    ensures forall i :: 0 <= i < |EncodeChannelPayload(channel, payload)| ==> |EncodeChannelPayload(channel, payload)[i]| <= 1600
  {
    hide EncodeData, EncodeDataFirst, DataPdus;
    if |payload| <= MAX_DATA_SIZE {
      DataRoundTrip(channel, payload);
    } else {
      DataFirstRoundTrip(channel, |payload| % 0x1_0000_0000, payload[..MAX_DATA_SIZE]);
      DataPdusFit(channel, payload[MAX_DATA_SIZE..]);
    }
  }
}
