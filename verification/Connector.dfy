/**
  The connection sequence (section 1.3.1.1 of MS-RDPBCGR), after crates/rdpcore-connector/src/lib.rs: from
  the X.224 Connection Request to steady state, and back into capability exchange for a resize.
 */
module Connector {
  import opened Bytes
  import X224
  import Per
  import Mcs

  const USER_CHANNEL_ID: u16 := 1002
  const IO_CHANNEL_ID: u16 := 1003
  const MAX_CONFIRM_ACTIVE_LEN: nat := 1024 * 1024
  const CHANNELS_MAX: nat := 31

  datatype State =
    | WaitConnectionRequest
    | WaitConnectInitial
    | WaitErectDomain
    | WaitAttachUser
    | WaitChannelJoin(remaining: u32)
    | WaitClientInfo
    | WaitAuthApproval
    | WaitConfirmActive
    | WaitFinalization(granted: bool)
    | Accepted
    | Rejected

  predicate InDomain(s: State) {
    s.WaitErectDomain? || s.WaitAttachUser? || s.WaitChannelJoin?
  }

  predicate Reactivating(s: State) {
    s.WaitConfirmActive? || s.WaitFinalization?
  }

  predicate Finished(s: State) {
    s.Accepted? || s.Rejected?
  }

  /** Reached only through an approval. */
  predicate Admitted(s: State) {
    Reactivating(s) || s.Accepted?
  }

  // ------------------------------------------------------------------
  // What crosses the wire
  // ------------------------------------------------------------------

  datatype Protocol = Ssl | Hybrid

  type ChannelNames = s: seq<string> | |s| <= CHANNELS_MAX witness []

  datatype ClientBlocks = ClientBlocks(name: string, channels: ChannelNames, messageChannel: bool)

  datatype Credentials = Credentials(domain: string, username: string, password: string)

  /** What Confirm Active negotiates. */
  datatype Capabilities = Capabilities(nscodec: Option<nat>, maxRequestSize: Option<u32>)

  datatype ShareType = ConfirmActiveType | DataType | OtherType

  datatype DataPdu = ControlPdu(action: Option<u16>) | FontListPdu | OtherPdu

  const REQUEST_CONTROL: u16 := 1

  /** The decoders of the flat structures the sequence carries. Nothing is assumed of them. */
  datatype Codec = Codec(
    connectionRequest: seq<byte> -> Result<u32>,
    connectInitial: seq<byte> -> Result<ClientBlocks>,
    clientInfo: seq<byte> -> Result<Credentials>,
    shareType: seq<byte> -> Option<ShareType>,
    confirmActive: seq<byte> -> Result<Capabilities>,
    dataPdu: seq<byte> -> Option<DataPdu>)

  /** One server packet each. */
  datatype ServerPdu =
    | ConnectionConfirm(protocol: Protocol)
    | NegotiationFailure(code: u32)
    | ConnectResponse(requested: u32, io: u16, channels: seq<u16>, message: Option<u16>)
    | AttachUserConfirm(initiator: u16)
    | ChannelJoinConfirm(joiner: u16, channel: u16)
    | License
    | DemandActive(width: u16, height: u16)
    | DeactivateAll
    | Synchronize
    | Cooperate
    | GrantedControl
    | FontMap
    | SaveSessionInfo

  datatype Connection = Connection(
    io: u16, user: u16, channels: seq<(string, u16)>, width: u16, height: u16, clientName: string, caps: Capabilities)

  datatype Event =
    | NoEvent
    | NegotiationRejected
    | TlsUpgrade
    | ClientInfoReceived(credentials: Credentials)
    | ConnectionAccepted(connection: Connection)

  datatype ConnectorError = Decode(error: DecodeError) | AlreadyFinished | NotReady

  datatype Outcome<+T> = Done(value: T) | Failed(error: ConnectorError)

  // ------------------------------------------------------------------
  // The acceptor as a value
  // ------------------------------------------------------------------

  datatype Snapshot = Snapshot(
    state: State, width: u16, height: u16, names: ChannelNames, messageChannel: Option<u16>, clientName: string,
    requested: u32, selected: Protocol, requireNla: bool, confirmBuf: seq<byte>, caps: Capabilities)

  function New(width: u16, height: u16, requireNla: bool): Snapshot {
    Snapshot(WaitConnectionRequest, width, height, [], None, "", 1, Ssl, requireNla, [], Capabilities(None, None))
  }

  /**
    What one call does: the acceptor afterwards, every reply it built, the Send Data requests it handled, and
    its result. A failed call hands its caller no reply, built or not.
   */
  datatype Stepped = Stepped(acc: Snapshot, built: seq<ServerPdu>, handled: seq<Mcs.SendData>, result: Outcome<Event>)

  function Fail(a: Snapshot, e: ConnectorError): Stepped {
    Stepped(a, [], [], Failed(e))
  }

  function After(first: Stepped, second: Stepped): Stepped {
    second.(built := first.built + second.built, handled := first.handled + second.handled)
  }

  function StaticId(i: nat): u16
    requires i <= CHANNELS_MAX
  {
    IO_CHANNEL_ID + 1 + i
  }

  function StaticIds(n: nat): seq<u16>
    requires n <= CHANNELS_MAX
  {
    seq(n, i requires 0 <= i < n => StaticId(i))
  }

  function Channels(names: ChannelNames): seq<(string, u16)> {
    seq(|names|, i requires 0 <= i < |names| => (names[i], StaticId(i)))
  }

  /** The user and I/O channels, each static channel, and the message channel if there is one. */
  function JoinTotal(a: Snapshot): u32 {
    2 + |a.names| + if a.messageChannel.Some? then 1 else 0
  }

  function OnConnectionRequest(c: Codec, a: Snapshot, input: seq<byte>): Stepped {
    match c.connectionRequest(input)
    case Err(e) => Fail(a, Decode(e))
    case Ok(requested) =>
      if requested / 2 % 2 == 1 then
        Stepped(a.(state := WaitConnectInitial, requested := requested, selected := Hybrid), [ConnectionConfirm(Hybrid)], [], Done(TlsUpgrade))
      else if !a.requireNla && requested % 2 == 1 then
        Stepped(a.(state := WaitConnectInitial, requested := requested, selected := Ssl), [ConnectionConfirm(Ssl)], [], Done(TlsUpgrade))
      else
        Stepped(a.(state := Rejected), [NegotiationFailure(if a.requireNla then 5 else 1)], [], Done(NegotiationRejected))
  }

  function OnConnectInitial(c: Codec, a: Snapshot, input: seq<byte>): Stepped {
    match X224.UnwrapData(input)
    case Err(e) => Fail(a, Decode(e))
    case Ok(payload) =>
      match c.connectInitial(payload)
      case Err(e) => Fail(a, Decode(e))
      case Ok(blocks) =>
        var message := if blocks.messageChannel then Some(StaticId(|blocks.channels|)) else None;
        Stepped(
          a.(state := WaitErectDomain, clientName := blocks.name, names := blocks.channels, messageChannel := message),
          [ConnectResponse(a.requested, IO_CHANNEL_ID, StaticIds(|blocks.channels|), message)], [], Done(NoEvent))
  }

  function OnClientInfo(c: Codec, a: Snapshot, input: seq<byte>): Stepped {
    match X224.UnwrapData(input)
    case Err(e) => Fail(a, Decode(e))
    case Ok(payload) =>
      match Mcs.ReadSendData(payload, Mcs.SendDataRequest)
      case Err(e) => Fail(a, Decode(e))
      case Ok(sd) =>
        match c.clientInfo(sd.value.data)
        case Err(e) => Fail(a, Decode(e))
        case Ok(credentials) =>
          Stepped(a.(state := WaitAuthApproval), [License], [], Done(ClientInfoReceived(credentials)))
  }

  // ------------------------------------------------------------------
  // MCS domain setup
  // ------------------------------------------------------------------

  function SkipNonStandard(s: seq<byte>, options: byte): Result<seq<byte>> {
    if options / 2 % 2 == 0 then Ok(s)
    else if |s| < 2 then Err(NotEnoughBytes)
    else Ok(s[2..])
  }

  function ReadErectDomain(s: seq<byte>): Result<Parsed<bool>> {
    var choice :- Mcs.ReadChoice(s, Mcs.ErectDomainRequest);
    var height :- Per.ReadU32(choice.rest);
    var interval :- Per.ReadU32(height.rest);
    var rest :- SkipNonStandard(interval.rest, choice.value);
    Ok(Parsed(true, rest))
  }

  function ReadAttachUser(s: seq<byte>): Result<Parsed<bool>> {
    var choice :- Mcs.ReadChoice(s, Mcs.AttachUserRequest);
    var rest :- SkipNonStandard(choice.rest, choice.value);
    Ok(Parsed(true, rest))
  }

  datatype Join = Join(initiator: u16, channel: u16)

  function ReadChannelJoin(s: seq<byte>): Result<Parsed<Join>> {
    var choice :- Mcs.ReadChoice(s, Mcs.ChannelJoinRequest);
    var initiator :- Per.ReadU16(choice.rest, Mcs.BASE_CHANNEL_ID);
    var channel :- Per.ReadU16(initiator.rest, 0);
    Ok(Parsed(Join(initiator.value, channel.value), channel.rest))
  }

  datatype Moved = Moved(acc: Snapshot, replies: seq<ServerPdu>)

  /** One domain PDU in the phase that expects it. */
  function HandleDomain(a: Snapshot, s: seq<byte>): Result<Parsed<Moved>>
    requires InDomain(a.state)
  {
    match a.state
    case WaitErectDomain =>
      var p :- ReadErectDomain(s);
      Ok(Parsed(Moved(a.(state := WaitAttachUser), []), p.rest))
    case WaitAttachUser =>
      var p :- ReadAttachUser(s);
      Ok(Parsed(Moved(a.(state := WaitChannelJoin(JoinTotal(a))), [AttachUserConfirm(USER_CHANNEL_ID)]), p.rest))
    case WaitChannelJoin(remaining) =>
      var p :- ReadChannelJoin(s);
      var left := if remaining == 0 then 0 else remaining - 1;
      Ok(Parsed(Moved(a.(state := if left == 0 then WaitClientInfo else WaitChannelJoin(left)),
                      [ChannelJoinConfirm(p.value.initiator, p.value.channel)]), p.rest))
  }

  const DISCONNECTED := InvalidValue("mcs.domain_pdu")

  /** Every domain PDU packed into one payload, until the last join. A PDU that does not decode rejects. */
  function DomainLoop(a: Snapshot, s: seq<byte>): Stepped
    requires InDomain(a.state)
    decreases |s|
  {
    if s == [] then Stepped(a, [], [], Done(NoEvent))
    else if s[0] / 4 == Mcs.Code(Mcs.DisconnectProviderUltimatum) then Fail(a.(state := Rejected), Decode(DISCONNECTED))
    else
      match HandleDomain(a, s)
      case Err(e) => Fail(a.(state := Rejected), Decode(e))
      case Ok(p) =>
        var one := Stepped(p.value.acc, p.value.replies, [], Done(NoEvent));
        if p.value.acc.state.WaitClientInfo? then one
        else
          DomainStable(a, s, []);
          After(one, DomainLoop(p.value.acc, p.rest))
  }

  // ------------------------------------------------------------------
  // Capability exchange and finalization
  // ------------------------------------------------------------------

  /** Confirm Active, or the same behind a four-byte security header. */
  function TryConfirm(c: Codec, data: seq<byte>): Result<Capabilities> {
    match c.confirmActive(data)
    case Ok(caps) => Ok(caps)
    case Err(first) =>
      if |data| >= 14 && c.confirmActive(data[4..]).Ok? then c.confirmActive(data[4..]) else Err(first)
  }

  /** May carry Confirm Active: on the I/O channel and not recognisably another share PDU. */
  predicate Eligible(c: Codec, sd: Mcs.SendData) {
    sd.channel == IO_CHANNEL_ID && (c.shareType(sd.data).None? || c.shareType(sd.data) == Some(ConfirmActiveType))
  }

  const CONFIRM_TOO_BIG := InvalidValue("confirm_active.reassembly")

  function OnConfirmActive(c: Codec, a: Snapshot, sd: Mcs.SendData): Stepped {
    if !Eligible(c, sd) then Stepped(a, [], [sd], Done(NoEvent))
    else if |a.confirmBuf| + |sd.data| > MAX_CONFIRM_ACTIVE_LEN then
      Stepped(a.(confirmBuf := []), [], [sd], Failed(Decode(CONFIRM_TOO_BIG)))
    else
      var data := a.confirmBuf + sd.data;
      if !sd.complete then Stepped(a.(confirmBuf := data), [], [sd], Done(NoEvent))
      else
        match TryConfirm(c, data)
        case Err(e) => Stepped(a.(confirmBuf := []), [], [sd], Failed(Decode(e)))
        case Ok(caps) =>
          Stepped(a.(state := WaitFinalization(false), confirmBuf := [], caps := caps), [Synchronize, Cooperate], [sd], Done(NoEvent))
  }

  function ConnectionOf(a: Snapshot): Connection {
    Connection(IO_CHANNEL_ID, USER_CHANNEL_ID, Channels(a.names), a.width, a.height, a.clientName, a.caps)
  }

  /** A data PDU of the finalization phase; anything that is not one is ignored. */
  function FinalizationPdu(c: Codec, sd: Mcs.SendData): Option<DataPdu> {
    if sd.channel != IO_CHANNEL_ID then None
    else if c.shareType(sd.data).Some? && c.shareType(sd.data) != Some(DataType) then None
    else c.dataPdu(sd.data)
  }

  function OnFinalization(c: Codec, a: Snapshot, granted: bool, sd: Mcs.SendData): Stepped {
    match FinalizationPdu(c, sd)
    case Some(ControlPdu(action)) =>
      if action == Some(REQUEST_CONTROL) && !granted then
        Stepped(a.(state := WaitFinalization(true)), [GrantedControl], [sd], Done(NoEvent))
      else Stepped(a, [], [sd], Done(NoEvent))
    case Some(FontListPdu) =>
      Stepped(a.(state := Accepted), [FontMap, SaveSessionInfo], [sd], Done(ConnectionAccepted(ConnectionOf(a))))
    case _ => Stepped(a, [], [sd], Done(NoEvent))
  }

  function OnSendData(c: Codec, a: Snapshot, sd: Mcs.SendData): Stepped
    requires Reactivating(a.state)
  {
    match a.state
    case WaitConfirmActive => OnConfirmActive(c, a, sd)
    case WaitFinalization(granted) => OnFinalization(c, a, granted, sd)
  }

  /** Every Send Data request packed into one payload, until the connection is accepted. */
  function ReactivationLoop(c: Codec, a: Snapshot, s: seq<byte>): Stepped
    requires Reactivating(a.state)
    decreases |s|
  {
    if s == [] then Stepped(a, [], [], Done(NoEvent))
    else
      match Mcs.ReadSendData(s, Mcs.SendDataRequest)
      case Err(e) => Fail(a, Decode(e))
      case Ok(p) =>
        SendDataStable(s, []);
        var one := OnSendData(c, a, p.value);
        if one.result.Failed? || one.acc.state.Accepted? then one else After(one, ReactivationLoop(c, one.acc, p.rest))
  }

  // ------------------------------------------------------------------
  // The calls
  // ------------------------------------------------------------------

  function Step(c: Codec, a: Snapshot, input: seq<byte>): Stepped {
    if InDomain(a.state) then
      match X224.UnwrapData(input)
      case Err(e) => Fail(a, Decode(e))
      case Ok(payload) => DomainLoop(a, payload)
    else if Finished(a.state) then Fail(a, AlreadyFinished)
    else if Reactivating(a.state) then
      match X224.UnwrapData(input)
      case Err(e) => Fail(a, Decode(e))
      case Ok(payload) => ReactivationLoop(c, a, payload)
    else
      match a.state
      case WaitConnectionRequest => OnConnectionRequest(c, a, input)
      case WaitConnectInitial => OnConnectInitial(c, a, input)
      case WaitClientInfo => OnClientInfo(c, a, input)
      case WaitAuthApproval => Fail(a, NotReady)
  }

  function Approve(a: Snapshot): Stepped {
    if !a.state.WaitAuthApproval? then Fail(a, NotReady)
    else Stepped(a.(state := WaitConfirmActive), [DemandActive(a.width, a.height)], [], Done(NoEvent))
  }

  function Reject(a: Snapshot): Snapshot {
    if a.state.WaitAuthApproval? then a.(state := Rejected) else a
  }

  function BeginResize(a: Snapshot, width: u16, height: u16): Stepped {
    if !a.state.Accepted? then Fail(a, NotReady)
    else
      Stepped(a.(state := WaitConfirmActive, width := width, height := height, confirmBuf := []),
              [DeactivateAll, DemandActive(width, height)], [], Done(NoEvent))
  }

  // ------------------------------------------------------------------
  // Decoding one PDU is not affected by what follows it
  // ------------------------------------------------------------------

  lemma ChoiceStable(s: seq<byte>, t: seq<byte>, pdu: Mcs.DomainPdu)
    requires Mcs.ReadChoice(s, pdu).Ok?
    ensures var p := Mcs.ReadChoice(s, pdu).value;
            |p.rest| < |s| && Mcs.ReadChoice(s + t, pdu) == Ok(Parsed(p.value, p.rest + t))
  {
    assert (s + t)[1..] == s[1..] + t;
  }

  lemma PerU16Stable(s: seq<byte>, t: seq<byte>, min: u16)
    requires Per.ReadU16(s, min).Ok?
    ensures var p := Per.ReadU16(s, min).value;
            |p.rest| < |s| && Per.ReadU16(s + t, min) == Ok(Parsed(p.value, p.rest + t))
  {
    assert (s + t)[2..] == s[2..] + t;
  }

  lemma LengthStable(s: seq<byte>, t: seq<byte>)
    requires Per.ReadLength(s).Ok?
    ensures var p := Per.ReadLength(s).value;
            |p.rest| < |s| && Per.ReadLength(s + t) == Ok(Parsed(p.value, p.rest + t))
  {
    if s[0] < 0x80 {
      assert (s + t)[1..] == s[1..] + t;
    } else {
      assert (s + t)[2..] == s[2..] + t;
    }
  }

  lemma SliceStable(s: seq<byte>, t: seq<byte>, n: nat)
    requires ReadSlice(s, n).Ok?
    ensures var p := ReadSlice(s, n).value;
            |p.rest| <= |s| && ReadSlice(s + t, n) == Ok(Parsed(p.value, p.rest + t))
  {
    assert (s + t)[..n] == s[..n] && (s + t)[n..] == s[n..] + t;
  }

  lemma PerU32Stable(s: seq<byte>, t: seq<byte>)
    requires Per.ReadU32(s).Ok?
    ensures var p := Per.ReadU32(s).value;
            |p.rest| < |s| && Per.ReadU32(s + t) == Ok(Parsed(p.value, p.rest + t))
  {
    hide Per.ReadLength, ReadSlice;
    LengthStable(s, t);
    var n := Per.ReadLength(s).value;
    SliceStable(n.rest, t, n.value);
  }

  lemma SkipStable(s: seq<byte>, t: seq<byte>, options: byte)
    requires SkipNonStandard(s, options).Ok?
    ensures |SkipNonStandard(s, options).value| <= |s|
    ensures SkipNonStandard(s + t, options) == Ok(SkipNonStandard(s, options).value + t)
  {
    if options / 2 % 2 != 0 {
      assert (s + t)[2..] == s[2..] + t;
    }
  }

  lemma ErectStable(s: seq<byte>, t: seq<byte>)
    requires ReadErectDomain(s).Ok?
    ensures var p := ReadErectDomain(s).value;
            |p.rest| < |s| && ReadErectDomain(s + t) == Ok(Parsed(p.value, p.rest + t))
  {
    hide Mcs.ReadChoice, Per.ReadU32, SkipNonStandard;
    ChoiceStable(s, t, Mcs.ErectDomainRequest);
    var choice := Mcs.ReadChoice(s, Mcs.ErectDomainRequest).value;
    PerU32Stable(choice.rest, t);
    var height := Per.ReadU32(choice.rest).value;
    PerU32Stable(height.rest, t);
    SkipStable(Per.ReadU32(height.rest).value.rest, t, choice.value);
  }

  lemma AttachStable(s: seq<byte>, t: seq<byte>)
    requires ReadAttachUser(s).Ok?
    ensures var p := ReadAttachUser(s).value;
            |p.rest| < |s| && ReadAttachUser(s + t) == Ok(Parsed(p.value, p.rest + t))
  {
    hide Mcs.ReadChoice, SkipNonStandard;
    ChoiceStable(s, t, Mcs.AttachUserRequest);
    var choice := Mcs.ReadChoice(s, Mcs.AttachUserRequest).value;
    SkipStable(choice.rest, t, choice.value);
  }

  lemma JoinStable(s: seq<byte>, t: seq<byte>)
    requires ReadChannelJoin(s).Ok?
    ensures var p := ReadChannelJoin(s).value;
            |p.rest| < |s| && ReadChannelJoin(s + t) == Ok(Parsed(p.value, p.rest + t))
  {
    hide Mcs.ReadChoice, Per.ReadU16;
    ChoiceStable(s, t, Mcs.ChannelJoinRequest);
    var choice := Mcs.ReadChoice(s, Mcs.ChannelJoinRequest).value;
    PerU16Stable(choice.rest, t, Mcs.BASE_CHANNEL_ID);
    PerU16Stable(Per.ReadU16(choice.rest, Mcs.BASE_CHANNEL_ID).value.rest, t, 0);
  }

  lemma DomainStable(a: Snapshot, s: seq<byte>, t: seq<byte>)
    requires InDomain(a.state) && HandleDomain(a, s).Ok?
    ensures var p := HandleDomain(a, s).value;
            && |p.rest| < |s| && HandleDomain(a, s + t) == Ok(Parsed(p.value, p.rest + t))
            && (InDomain(p.value.acc.state) || p.value.acc.state.WaitClientInfo?)
  {
    hide ReadErectDomain, ReadAttachUser, ReadChannelJoin;
    match a.state
    case WaitErectDomain => ErectStable(s, t);
    case WaitAttachUser => AttachStable(s, t);
    case WaitChannelJoin(_) => JoinStable(s, t);
  }

  lemma SendDataStable(s: seq<byte>, t: seq<byte>)
    requires Mcs.ReadSendData(s, Mcs.SendDataRequest).Ok?
    ensures var p := Mcs.ReadSendData(s, Mcs.SendDataRequest).value;
            |p.rest| < |s| && Mcs.ReadSendData(s + t, Mcs.SendDataRequest) == Ok(Parsed(p.value, p.rest + t))
  {
    hide Mcs.ReadChoice, Per.ReadU16, Mcs.ReadData;
    ChoiceStable(s, t, Mcs.SendDataRequest);
    var choice := Mcs.ReadChoice(s, Mcs.SendDataRequest).value;
    PerU16Stable(choice.rest, t, Mcs.BASE_CHANNEL_ID);
    var initiator := Per.ReadU16(choice.rest, Mcs.BASE_CHANNEL_ID).value;
    PerU16Stable(initiator.rest, t, 0);
    var channel := Per.ReadU16(initiator.rest, 0).value;
    assert (channel.rest + t)[1..] == channel.rest[1..] + t;
    DataStable(channel.rest[1..], t);
  }

  lemma DataStable(s: seq<byte>, t: seq<byte>)
    requires Mcs.ReadData(s).Ok?
    ensures var p := Mcs.ReadData(s).value;
            |p.rest| < |s| && Mcs.ReadData(s + t) == Ok(Parsed(p.value, p.rest + t))
  {
    hide Per.ReadLength, ReadSlice;
    LengthStable(s, t);
    var n := Per.ReadLength(s).value;
    SliceStable(n.rest, t, n.value);
  }

  // ------------------------------------------------------------------
  // Batching
  // ------------------------------------------------------------------

  lemma AfterAfter(x: Stepped, y: Stepped, z: Stepped)
    ensures After(After(x, y), z) == After(x, After(y, z))
  {
    assert x.built + (y.built + z.built) == x.built + y.built + z.built;
    assert x.handled + (y.handled + z.handled) == x.handled + y.handled + z.handled;
  }

  lemma {:induction false} DomainBatch(a: Snapshot, p: seq<byte>, q: seq<byte>)
    requires InDomain(a.state) && DomainLoop(a, p).result.Done?
    ensures var first := DomainLoop(a, p);
            DomainLoop(a, p + q) == if InDomain(first.acc.state) then After(first, DomainLoop(first.acc, q)) else first
    decreases |p|
  {
    if p == [] {
      assert [] + q == q;
      assert After(Stepped(a, [], [], Done(NoEvent)), DomainLoop(a, q)) == DomainLoop(a, q);
    } else {
      hide HandleDomain;
      DomainStable(a, p, q);
      var m := HandleDomain(a, p).value;
      assert (p + q)[0] == p[0];
      var one := Stepped(m.value.acc, m.value.replies, [], Done(NoEvent));
      if InDomain(m.value.acc.state) {
        DomainBatch(m.value.acc, m.rest, q);
        var rest := DomainLoop(m.value.acc, m.rest);
        if InDomain(rest.acc.state) {
          AfterAfter(one, rest, DomainLoop(rest.acc, q));
        }
      }
    }
  }

  lemma {:induction false} ReactivationBatch(c: Codec, a: Snapshot, p: seq<byte>, q: seq<byte>)
    requires Reactivating(a.state) && ReactivationLoop(c, a, p).result.Done?
    ensures var first := ReactivationLoop(c, a, p);
            ReactivationLoop(c, a, p + q)
            == if Reactivating(first.acc.state) then After(first, ReactivationLoop(c, first.acc, q)) else first
    decreases |p|
  {
    if p == [] {
      assert [] + q == q;
      assert After(Stepped(a, [], [], Done(NoEvent)), ReactivationLoop(c, a, q)) == ReactivationLoop(c, a, q);
    } else {
      hide Mcs.ReadSendData;
      SendDataStable(p, q);
      var m := Mcs.ReadSendData(p, Mcs.SendDataRequest).value;
      var one := OnSendData(c, a, m.value);
      if !one.acc.state.Accepted? {
        ReactivationBatch(c, one.acc, m.rest, q);
        var rest := ReactivationLoop(c, one.acc, m.rest);
        if Reactivating(rest.acc.state) {
          AfterAfter(one, rest, ReactivationLoop(c, rest.acc, q));
        }
      }
    }
  }

  predicate SamePhase(s: State, t: State) {
    (InDomain(s) && InDomain(t)) || (Reactivating(s) && Reactivating(t))
  }

  /**
    Batching is invisible. Where two packets arrive one after the other, one packet with both their payloads
    has the same effect, replies and result, an error of the second included, unless the first ends the phase;
    then the rest of the batch is dropped.
   */
  lemma BatchOfTwo(c: Codec, a: Snapshot, p: seq<byte>, q: seq<byte>)
    requires InDomain(a.state) || Reactivating(a.state)
    requires Step(c, a, X224.WrapData(p)).result.Done?
    ensures var first := Step(c, a, X224.WrapData(p));
            Step(c, a, X224.WrapData(p + q))
            == if SamePhase(a.state, first.acc.state) then After(first, Step(c, first.acc, X224.WrapData(q))) else first
  {
    hide X224.WrapData, X224.UnwrapData;
    X224.UnwrapWrap(p);
    X224.UnwrapWrap(q);
    X224.UnwrapWrap(p + q);
    if InDomain(a.state) {
      hide DomainLoop, ReactivationLoop;
      DomainBatch(a, p, q);
      DomainPhases(a, p);
    } else {
      hide DomainLoop, ReactivationLoop;
      ReactivationBatch(c, a, p, q);
      ReactivationPhases(c, a, p);
    }
  }

  lemma {:induction false} DomainPhases(a: Snapshot, s: seq<byte>)
    requires InDomain(a.state)
    ensures var o := DomainLoop(a, s);
            && (o.result.Done? ==> o.result == Done(NoEvent) && (InDomain(o.acc.state) || o.acc.state.WaitClientInfo?))
            && (o.result.Failed? ==> o.acc.state.Rejected?)
            && o.acc == a.(state := o.acc.state) && o.handled == []
    decreases |s|
  {
    if s != [] && s[0] / 4 != Mcs.Code(Mcs.DisconnectProviderUltimatum) && HandleDomain(a, s).Ok? {
      DomainStable(a, s, []);
      var p := HandleDomain(a, s).value;
      assert p.value.acc == a.(state := p.value.acc.state) by {
        hide ReadErectDomain, ReadAttachUser, ReadChannelJoin;
      }
      hide HandleDomain;
      if InDomain(p.value.acc.state) {
        DomainPhases(p.value.acc, p.rest);
      }
    }
  }

  lemma {:induction false} ReactivationPhases(c: Codec, a: Snapshot, s: seq<byte>)
    requires Reactivating(a.state)
    ensures var o := ReactivationLoop(c, a, s);
            && Admitted(o.acc.state)
            && (o.acc.state.Accepted? <==> o.result.Done? && o.result.value.ConnectionAccepted?)
            && (o.result.Done? && !o.acc.state.Accepted? ==> o.result == Done(NoEvent))
    decreases |s|
  {
    if s != [] && Mcs.ReadSendData(s, Mcs.SendDataRequest).Ok? {
      SendDataStable(s, []);
      var p := Mcs.ReadSendData(s, Mcs.SendDataRequest).value;
      hide Mcs.ReadSendData;
      var one := OnSendData(c, a, p.value);
      if Reactivating(one.acc.state) && one.result.Done? {
        ReactivationPhases(c, one.acc, p.rest);
      }
    }
  }

  /** One call per packet, until a call fails or the phase ends. */
  function Each(c: Codec, a: Snapshot, payloads: seq<seq<byte>>): Stepped
    decreases |payloads|
  {
    if payloads == [] then Stepped(a, [], [], Done(NoEvent))
    else
      var one := Step(c, a, X224.WrapData(payloads[0]));
      if one.result.Failed? || !SamePhase(a.state, one.acc.state) then one
      else After(one, Each(c, one.acc, payloads[1..]))
  }

  /** No packet but the last fails. */
  ghost predicate OnlyLastMayFail(c: Codec, a: Snapshot, payloads: seq<seq<byte>>)
    decreases |payloads|
  {
    |payloads| > 1 ==>
      var one := Step(c, a, X224.WrapData(payloads[0]));
      one.result.Done? && (SamePhase(a.state, one.acc.state) ==> OnlyLastMayFail(c, one.acc, payloads[1..]))
  }

  function Batch(payloads: seq<seq<byte>>): seq<byte> {
    if payloads == [] then [] else payloads[0] + Batch(payloads[1..])
  }

  lemma StepInPhase(c: Codec, a: Snapshot, p: seq<byte>)
    requires InDomain(a.state) || Reactivating(a.state)
    ensures var o := Step(c, a, X224.WrapData(p));
            o.result.Done? && SamePhase(a.state, o.acc.state) ==> o.result == Done(NoEvent)
  {
    hide X224.WrapData, X224.UnwrapData, DomainLoop, ReactivationLoop;
    X224.UnwrapWrap(p);
    if InDomain(a.state) {
      DomainPhases(a, p);
    } else {
      ReactivationPhases(c, a, p);
    }
  }

  /**
    The same for any number of packets: the state, the replies and the result of one call on them all are those
    of a call on each, up to the accept or the last join, even where the last packet fails.
   */
  lemma {:induction false} BatchingIsInvisible(c: Codec, a: Snapshot, payloads: seq<seq<byte>>)
    requires InDomain(a.state) || Reactivating(a.state)
    requires OnlyLastMayFail(c, a, payloads)
    ensures Step(c, a, X224.WrapData(Batch(payloads))) == Each(c, a, payloads)
    decreases |payloads|
  {
    if payloads == [] {
      hide X224.WrapData, X224.UnwrapData;
      X224.UnwrapWrap([]);
    } else {
      hide Step, X224.WrapData;
      var p, rest := payloads[0], payloads[1..];
      var one := Step(c, a, X224.WrapData(p));
      StepInPhase(c, a, p);
      if rest == [] {
        assert Batch(payloads) == p + [] == p;
        assert After(one, Stepped(one.acc, [], [], Done(NoEvent))).built == one.built + [] == one.built;
        assert one.handled + [] == one.handled;
      } else {
        BatchOfTwo(c, a, p, Batch(rest));
        if SamePhase(a.state, one.acc.state) {
          BatchingIsInvisible(c, one.acc, rest);
        }
      }
    }
  }

  // ------------------------------------------------------------------
  // The acceptor as the source runs it
  // ------------------------------------------------------------------

  datatype Reply = Reply(response: seq<ServerPdu>, event: Event)

  /** What a caller gets of a step: its replies only if it succeeded. */
  function Returned(o: Stepped): Outcome<Reply> {
    match o.result
    case Failed(e) => Failed(e)
    case Done(event) => Done(Reply(o.built, event))
  }

  class Acceptor {
    const codec: Codec
    const requireNla: bool
    var state: State
    var desktopWidth: u16
    var desktopHeight: u16
    var staticChannelNames: ChannelNames
    var messageChannelId: Option<u16>
    var clientName: string
    var clientRequestedProtocols: u32
    var selectedProtocol: Protocol
    var confirmActiveBuf: seq<byte>
    var capabilities: Capabilities

    ghost function View(): Snapshot
      reads this
    {
      Snapshot(state, desktopWidth, desktopHeight, staticChannelNames, messageChannelId, clientName,
               clientRequestedProtocols, selectedProtocol, requireNla, confirmActiveBuf, capabilities)
    }

    constructor (codec: Codec, width: u16, height: u16, requireNla: bool)
      ensures View() == New(width, height, requireNla) && this.codec == codec
    {
      this.codec, this.requireNla := codec, requireNla;
      state, desktopWidth, desktopHeight := WaitConnectionRequest, width, height;
      staticChannelNames, messageChannelId, clientName := [], None, "";
      clientRequestedProtocols, selectedProtocol := 1, Ssl;
      confirmActiveBuf, capabilities := [], Capabilities(None, None);
    }

    method ApproveClientInfo() returns (r: Outcome<seq<ServerPdu>>)
      modifies this
      ensures var o := Approve(old(View()));
              View() == o.acc && r == (if o.result.Failed? then Failed(o.result.error) else Done(o.built))
    {
      if !state.WaitAuthApproval? {
        return Failed(NotReady);
      }
      state := WaitConfirmActive;
      r := Done([DemandActive(desktopWidth, desktopHeight)]);
    }

    method RejectClientInfo()
      modifies this
      ensures View() == Reject(old(View()))
    {
      if state.WaitAuthApproval? {
        state := Rejected;
      }
    }

    method Resize(width: u16, height: u16) returns (r: Outcome<seq<ServerPdu>>)
      modifies this
      ensures var o := BeginResize(old(View()), width, height);
              View() == o.acc && r == (if o.result.Failed? then Failed(o.result.error) else Done(o.built))
    {
      if !state.Accepted? {
        return Failed(NotReady);
      }
      desktopWidth, desktopHeight := width, height;
      confirmActiveBuf := [];
      state := WaitConfirmActive;
      r := Done([DeactivateAll, DemandActive(width, height)]);
    }

    method OnConfirmActiveSendData(sd: Mcs.SendData) returns (r: Outcome<Reply>)
      requires state.WaitConfirmActive?
      modifies this
      ensures var o := OnConfirmActive(codec, old(View()), sd);
              View() == o.acc && r == Returned(o)
    {
      if !Eligible(codec, sd) {
        return Done(Reply([], NoEvent));
      }
      if |confirmActiveBuf| + |sd.data| > MAX_CONFIRM_ACTIVE_LEN {
        confirmActiveBuf := [];
        return Failed(Decode(CONFIRM_TOO_BIG));
      }
      confirmActiveBuf := confirmActiveBuf + sd.data;
      if !sd.complete {
        return Done(Reply([], NoEvent));
      }
      var data := confirmActiveBuf;
      confirmActiveBuf := [];
      var confirm := TryConfirm(codec, data);
      if confirm.Err? {
        return Failed(Decode(confirm.error));
      }
      capabilities := confirm.value;
      state := WaitFinalization(false);
      r := Done(Reply([Synchronize, Cooperate], NoEvent));
    }

    method OnFinalizationSendData(sd: Mcs.SendData) returns (r: Outcome<Reply>)
      requires state.WaitFinalization?
      modifies this
      ensures var o := OnFinalization(codec, old(View()), old(state.granted), sd);
              View() == o.acc && r == Returned(o)
    {
      var pdu := FinalizationPdu(codec, sd);
      var response := [];
      if pdu == Some(FontListPdu) {
        state := Accepted;
        var connection := Connection(IO_CHANNEL_ID, USER_CHANNEL_ID, Channels(staticChannelNames), desktopWidth, desktopHeight, clientName, capabilities);
        return Done(Reply([FontMap, SaveSessionInfo], ConnectionAccepted(connection)));
      }
      if pdu == Some(ControlPdu(Some(REQUEST_CONTROL))) && !state.granted {
        response := [GrantedControl];
        state := WaitFinalization(true);
      }
      r := Done(Reply(response, NoEvent));
    }

    /** Peels every Send Data request off one payload. */
    method StepReactivation(input: seq<byte>) returns (r: Outcome<Reply>)
      requires Reactivating(state)
      modifies this
      ensures var o := Step(codec, old(View()), input);
              View() == o.acc && r == Returned(o)
    {
      hide X224.UnwrapData, Mcs.ReadSendData, FinalizationPdu, TryConfirm, Eligible, Channels;
      var unwrapped := X224.UnwrapData(input);
      if unwrapped.Err? {
        return Failed(Decode(unwrapped.error));
      }
      var rest := unwrapped.value;
      var response: seq<ServerPdu> := [];
      var event := NoEvent;
      ghost var whole := ReactivationLoop(codec, View(), rest);
      while rest != [] && !Finished(state)
        invariant Reactivating(state) || state.Accepted?
        invariant Reactivating(state) ==> event == NoEvent && Remaining(whole, response, ReactivationLoop(codec, View(), rest))
        invariant state.Accepted? ==> whole.acc == View() && whole.built == response && whole.result == Done(event)
        decreases |rest|
      {
        var p := Mcs.ReadSendData(rest, Mcs.SendDataRequest);
        if p.Err? {
          return Failed(Decode(p.error));
        }
        SendDataStable(rest, []);
        ghost var before, left := View(), rest;
        rest := p.value.rest;
        var one;
        if state.WaitConfirmActive? {
          one := OnConfirmActiveSendData(p.value.value);
        } else {
          one := OnFinalizationSendData(p.value.value);
        }
        ghost var o := OnSendData(codec, before, p.value.value);
        assert View() == o.acc && one == Returned(o);
        if one.Failed? {
          return Failed(one.error);
        }
        ReactivationPeel(codec, before, left, whole, response);
        response := response + one.value.response;
        if one.value.event.ConnectionAccepted? {
          event := one.value.event;
          break;
        }
      }
      assert response + [] == response;
      r := Done(Reply(response, event));
    }

    /** Peels every domain PDU off one payload. */
    method StepMcsDomainPdus(input: seq<byte>) returns (r: Outcome<Reply>)
      requires InDomain(state)
      modifies this
      ensures var o := Step(codec, old(View()), input);
              View() == o.acc && r == Returned(o)
    {
      hide X224.UnwrapData, HandleDomain;
      var unwrapped := X224.UnwrapData(input);
      if unwrapped.Err? {
        return Failed(Decode(unwrapped.error));
      }
      var rest := unwrapped.value;
      var response: seq<ServerPdu> := [];
      ghost var whole := DomainLoop(View(), rest);
      while rest != []
        invariant InDomain(state) && Remaining(whole, response, DomainLoop(View(), rest))
        decreases |rest|
      {
        if rest[0] / 4 == Mcs.Code(Mcs.DisconnectProviderUltimatum) {
          state := Rejected;
          return Failed(Decode(DISCONNECTED));
        }
        ghost var before, left := View(), rest;
        var reply;
        reply, rest := HandleDomainPdu(rest);
        if reply.Err? {
          return Failed(Decode(reply.error));
        }
        DomainStable(before, left, []);
        DomainPeel(before, left, whole, response);
        response := response + reply.value;
        if state.WaitClientInfo? {
          break;
        }
      }
      assert response + [] == response;
      r := Done(Reply(response, NoEvent));
    }

    /** The handlers of the three domain phases; a PDU that does not decode leaves the acceptor rejected. */
    method HandleDomainPdu(s: seq<byte>) returns (r: Result<seq<ServerPdu>>, rest: seq<byte>)
      requires InDomain(state)
      modifies this`state
      ensures match HandleDomain(old(View()), s)
              case Err(e) => r == Err(e) && View() == old(View()).(state := Rejected)
              case Ok(p) => r == Ok(p.value.replies) && rest == p.rest && View() == p.value.acc
    {
      hide ReadErectDomain, ReadAttachUser, ReadChannelJoin;
      rest := s;
      var previous := state;
      state := Rejected;
      match previous
      case WaitErectDomain =>
        var p :- ReadErectDomain(s);
        rest := p.rest;
        state := WaitAttachUser;
        r := Ok([]);
      case WaitAttachUser =>
        var p :- ReadAttachUser(s);
        rest := p.rest;
        var remaining := 2 + |staticChannelNames|;
        if messageChannelId.Some? {
          remaining := remaining + 1;
        }
        state := WaitChannelJoin(remaining);
        r := Ok([AttachUserConfirm(USER_CHANNEL_ID)]);
      case WaitChannelJoin(remaining) =>
        var p :- ReadChannelJoin(s);
        rest := p.rest;
        var left := if remaining == 0 then 0 else remaining - 1;
        state := if left == 0 then WaitClientInfo else WaitChannelJoin(left);
        r := Ok([ChannelJoinConfirm(p.value.initiator, p.value.channel)]);
    }

    method StepOnce(input: seq<byte>) returns (r: Outcome<Reply>)
      modifies this
      ensures var o := Step(codec, old(View()), input);
              View() == o.acc && r == Returned(o)
    {
      hide DomainLoop, ReactivationLoop, X224.UnwrapData, Mcs.ReadSendData;
      if InDomain(state) {
        r := StepMcsDomainPdus(input);
      } else if Finished(state) {
        r := Failed(AlreadyFinished);
      } else if Reactivating(state) {
        r := StepReactivation(input);
      } else {
        r := StepOpening(input);
      }
    }

    /** The phases that take one packet of their own: an error restores the phase. */
    method StepOpening(input: seq<byte>) returns (r: Outcome<Reply>)
      requires !InDomain(state) && !Finished(state) && !Reactivating(state)
      modifies this
      ensures var o := Step(codec, old(View()), input);
              View() == o.acc && r == Returned(o)
    {
      hide DomainLoop, ReactivationLoop, X224.UnwrapData, Mcs.ReadSendData;
      ghost var before := View();
      var previous := state;
      state := Rejected;
      assert View().(state := previous) == before;
      match previous {
        case WaitConnectionRequest => r := HandleConnectionRequest(input);
        case WaitConnectInitial => r := HandleConnectInitial(input);
        case WaitClientInfo => r := HandleClientInfo(input);
        case WaitAuthApproval => r := Failed(NotReady);
      }
      if r.Failed? && state.Rejected? {
        state := previous;
        assert View() == before;
      }
    }

    method HandleConnectionRequest(input: seq<byte>) returns (r: Outcome<Reply>)
      requires state.Rejected?
      modifies this
      ensures var a := old(View()).(state := WaitConnectionRequest);
              var o := OnConnectionRequest(codec, a, input);
              r == Returned(o) && View() == if r.Failed? then old(View()) else o.acc
    {
      var request := codec.connectionRequest(input);
      if request.Err? {
        return Failed(Decode(request.error));
      }
      var selected := Hybrid;
      if request.value / 2 % 2 == 1 {
        selected := Hybrid;
      } else if !requireNla && request.value % 2 == 1 {
        selected := Ssl;
      } else {
        return Done(Reply([NegotiationFailure(if requireNla then 5 else 1)], NegotiationRejected));
      }
      clientRequestedProtocols := request.value;
      selectedProtocol := selected;
      state := WaitConnectInitial;
      r := Done(Reply([ConnectionConfirm(selected)], TlsUpgrade));
    }

    method HandleConnectInitial(input: seq<byte>) returns (r: Outcome<Reply>)
      requires state.Rejected?
      modifies this
      ensures var a := old(View()).(state := WaitConnectInitial);
              var o := OnConnectInitial(codec, a, input);
              r == Returned(o) && View() == if r.Failed? then old(View()) else o.acc
    {
      hide X224.UnwrapData;
      var payload := X224.UnwrapData(input);
      if payload.Err? {
        return Failed(Decode(payload.error));
      }
      var blocks := codec.connectInitial(payload.value);
      if blocks.Err? {
        return Failed(Decode(blocks.error));
      }
      clientName := blocks.value.name;
      staticChannelNames := blocks.value.channels;
      var ids := StaticIds(|staticChannelNames|);
      messageChannelId := if blocks.value.messageChannel then Some(StaticId(|staticChannelNames|)) else None;
      state := WaitErectDomain;
      r := Done(Reply([ConnectResponse(clientRequestedProtocols, IO_CHANNEL_ID, ids, messageChannelId)], NoEvent));
    }

    method HandleClientInfo(input: seq<byte>) returns (r: Outcome<Reply>)
      requires state.Rejected?
      modifies this`state
      ensures var a := old(View()).(state := WaitClientInfo);
              var o := OnClientInfo(codec, a, input);
              r == Returned(o) && View() == if r.Failed? then old(View()) else o.acc
    {
      hide X224.UnwrapData, Mcs.ReadSendData;
      var payload := X224.UnwrapData(input);
      if payload.Err? {
        return Failed(Decode(payload.error));
      }
      var sd := Mcs.ReadSendData(payload.value, Mcs.SendDataRequest);
      if sd.Err? {
        return Failed(Decode(sd.error));
      }
      var info := codec.clientInfo(sd.value.value.data);
      if info.Err? {
        return Failed(Decode(info.error));
      }
      state := WaitAuthApproval;
      r := Done(Reply([License], ClientInfoReceived(info.value)));
    }
  }

  /** A loop's replies so far, and what is still to come, make up the whole. */
  ghost predicate Remaining(whole: Stepped, response: seq<ServerPdu>, left: Stepped) {
    whole.acc == left.acc && whole.built == response + left.built && whole.result == left.result
  }

  lemma ReactivationPeel(c: Codec, a: Snapshot, s: seq<byte>, whole: Stepped, response: seq<ServerPdu>)
    requires Reactivating(a.state) && s != [] && Mcs.ReadSendData(s, Mcs.SendDataRequest).Ok?
    requires Remaining(whole, response, ReactivationLoop(c, a, s))
    ensures var p := Mcs.ReadSendData(s, Mcs.SendDataRequest).value;
            var one := OnSendData(c, a, p.value);
            && (one.result.Done? && Reactivating(one.acc.state) ==>
                  Remaining(whole, response + one.built, ReactivationLoop(c, one.acc, p.rest)))
            && (one.acc.state.Accepted? ==>
                  whole.acc == one.acc && whole.built == response + one.built && whole.result == one.result)
  {
    hide Mcs.ReadSendData;
    SendDataStable(s, []);
    var p := Mcs.ReadSendData(s, Mcs.SendDataRequest).value;
    var one := OnSendData(c, a, p.value);
    if one.result.Done? && Reactivating(one.acc.state) {
      var left := ReactivationLoop(c, one.acc, p.rest);
      assert response + (one.built + left.built) == response + one.built + left.built;
    }
  }

  lemma DomainPeel(a: Snapshot, s: seq<byte>, whole: Stepped, response: seq<ServerPdu>)
    requires InDomain(a.state) && s != [] && s[0] / 4 != Mcs.Code(Mcs.DisconnectProviderUltimatum)
    requires HandleDomain(a, s).Ok? && Remaining(whole, response, DomainLoop(a, s))
    ensures var p := HandleDomain(a, s).value;
            && (InDomain(p.value.acc.state) ==> Remaining(whole, response + p.value.replies, DomainLoop(p.value.acc, p.rest)))
            && (p.value.acc.state.WaitClientInfo? ==>
                  whole.acc == p.value.acc && whole.built == response + p.value.replies && whole.result == Done(NoEvent))
  {
    hide HandleDomain;
    DomainStable(a, s, []);
    var p := HandleDomain(a, s).value;
    if InDomain(p.value.acc.state) {
      var left := DomainLoop(p.value.acc, p.rest);
      assert response + (p.value.replies + left.built) == response + p.value.replies + left.built;
    }
  }
}
