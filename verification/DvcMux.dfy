/** The dynamic channel multiplexer (crates/rdpcore-dvc/src/lib.rs). */
module DvcMux {
  import opened Bytes
  import opened DvcPdu
  import Svc

  const MAX_DVC_MESSAGE_SIZE: nat := 0x100_0000

  const TOTAL_TOO_BIG := InvalidValue("dvc.data_first.total_length")
  const BUFFERED_TOO_BIG := InvalidValue("dvc.data.buffered")

  /** Any channel handler, as functions over its own state. */
  datatype Behaviour<!H> = Behaviour(
    name: H -> seq<byte>,
    onOpen: H -> (H, seq<seq<byte>>),
    onData: (H, seq<byte>) -> (H, seq<seq<byte>>))

  /** A Data First message still being collected. */
  datatype Partial = Partial(total: u32, buffered: seq<byte>)

  datatype Slot<H> = Slot(id: u32, handler: H, partial: Option<Partial>)

  /** A payload handed to a handler; `declared` is the total its Data First announced, if it had one. */
  datatype Delivery = Delivery(id: u32, payload: seq<byte>, declared: Option<u32>)

  datatype Mux<H> = Mux(
    channel: u16,
    user: u16,
    svc: seq<byte>,
    nextId: u32,
    negotiated: bool,
    pending: seq<H>,
    slots: seq<Slot<H>>,
    registered: seq<H>,        // history: every handler registered, in order
    created: seq<H>,           // history: every handler a Create Request was sent for, in order
    deliveries: seq<Delivery>) // history: every payload handed over, in order

  /** A step's new state and the frames it sends, or its error. */
  datatype Stepped<H> = Stepped(mux: Mux<H>, result: Result<seq<seq<byte>>>)

  function New<H>(channel: u16, user: u16): Mux<H> {
    Mux(channel, user, [], 1, false, [], [], [], [], [])
  }

  function Open<H>(b: Behaviour<H>, m: Mux<H>, h: H): Stepped<H> {
    Stepped(
      m.(nextId := (m.nextId as int + 1) % 0x1_0000_0000,
         slots := m.slots + [Slot(m.nextId, h, None)],
         created := m.created + [h]),
      Ok(Svc.WrapIndication(m.user, m.channel, EncodeCreateRequest(m.nextId, b.name(h)))))
  }

  function Register<H>(b: Behaviour<H>, m: Mux<H>, h: H): Stepped<H> {
    var m1 := m.(registered := m.registered + [h]);
    if m.negotiated then Open(b, m1, h) else Stepped(m1.(pending := m.pending + [h]), Ok([]))
  }

  /** Opens every deferred handler, oldest first. */
  function OpenAll<H>(b: Behaviour<H>, m: Mux<H>, hs: seq<H>): (r: Stepped<H>)
    ensures r.result.Ok?
    decreases |hs|
  {
    if hs == [] then Stepped(m, Ok([]))
    else
      var one := Open(b, m, hs[0]);
      var more := OpenAll(b, one.mux, hs[1..]);
      Stepped(more.mux, Ok(one.result.value + more.result.value))
  }

  /** Position of the first slot with this id. */
  function Find<H>(slots: seq<Slot<H>>, id: u32): (r: Option<nat>)
    ensures r.Some? ==> r.value < |slots| && slots[r.value].id == id
    ensures r.None? ==> forall i :: 0 <= i < |slots| ==> slots[i].id != id
  {
    if slots == [] then None
    else if slots[0].id == id then Some(0)
    else
      match Find(slots[1..], id)
      case None => None
      case Some(i) => Some(i + 1)
  }

  function Without<H>(slots: seq<Slot<H>>, id: u32): seq<Slot<H>> {
    if slots == [] then []
    else (if slots[0].id == id then [] else [slots[0]]) + Without(slots[1..], id)
  }

  /** What one Data or Data First body does to a slot: its partial message afterwards, and a completed payload. */
  datatype Collected = Collected(partial: Option<Partial>, complete: Result<Option<Delivery>>)

  function Collect(id: u32, partial: Option<Partial>, data: seq<byte>, startsNew: Option<u32>): Collected {
    match startsNew
    case Some(total) =>
      if total > MAX_DVC_MESSAGE_SIZE then Collected(partial, Err(TOTAL_TOO_BIG))
      else if |data| >= total then Collected(partial, Ok(Some(Delivery(id, data[..total], Some(total)))))
      else Collected(Some(Partial(total, data)), Ok(None))
    case None =>
      match partial
      case None => Collected(None, Ok(Some(Delivery(id, data, None))))
      case Some(p) =>
        if |p.buffered| + |data| > MAX_DVC_MESSAGE_SIZE then Collected(None, Err(BUFFERED_TOO_BIG))
        else
          var all := p.buffered + data;
          if |all| >= p.total then Collected(None, Ok(Some(Delivery(id, all[..p.total], Some(p.total)))))
          else Collected(Some(Partial(p.total, all)), Ok(None))
  }

  /** The frames that carry payloads to the other side. */
  function EncodePayloads<H>(m: Mux<H>, id: u32, payloads: seq<seq<byte>>): seq<seq<byte>> {
    if payloads == [] then []
    else WrapPdus(m.user, m.channel, EncodeChannelPayload(id, payloads[0])) + EncodePayloads(m, id, payloads[1..])
  }

  function WrapPdus(user: u16, channel: u16, pdus: seq<seq<byte>>): seq<seq<byte>> {
    if pdus == [] then [] else Svc.WrapIndication(user, channel, pdus[0]) + WrapPdus(user, channel, pdus[1..])
  }

  function IncomingData<H>(b: Behaviour<H>, m: Mux<H>, id: u32, data: seq<byte>, startsNew: Option<u32>): Stepped<H> {
    match Find(m.slots, id)
    case None => Stepped(m, Ok([]))
    case Some(i) =>
      var slot := m.slots[i];
      var c := Collect(id, slot.partial, data, startsNew);
      var kept := m.(slots := m.slots[i := slot.(partial := c.partial)]);
      match c.complete
      case Err(e) => Stepped(kept, Err(e))
      case Ok(None) => Stepped(kept, Ok([]))
      case Ok(Some(d)) =>
        var r := b.onData(slot.handler, d.payload);
        var m' := m.(slots := m.slots[i := slot.(partial := c.partial, handler := r.0)], deliveries := m.deliveries + [d]);
        Stepped(m', Ok(EncodePayloads(m', id, r.1)))
  }

  function OnMessage<H>(b: Behaviour<H>, m: Mux<H>, msg: ClientMessage): Stepped<H> {
    match msg
    case CapabilityResponse(_) => OpenAll(b, m.(negotiated := true, pending := []), m.pending)
    case CreateResponse(id, status) =>
      if status != 0 then Stepped(m.(slots := Without(m.slots, id)), Ok([]))
      else
        (match Find(m.slots, id)
         case None => Stepped(m, Ok([]))
         case Some(i) =>
           var r := b.onOpen(m.slots[i].handler);
           var m' := m.(slots := m.slots[i := m.slots[i].(handler := r.0)]);
           Stepped(m', Ok(EncodePayloads(m', id, r.1))))
    case Data(id, data) => IncomingData(b, m, id, data, None)
    case DataFirst(id, total, data) => IncomingData(b, m, id, data, Some(total))
    case Close(id) => Stepped(m.(slots := Without(m.slots, id)), Ok([]))
    case Other => Stepped(m, Ok([]))
  }

  /** One static-channel chunk from the client. */
  function OnChannelData<H>(b: Behaviour<H>, m: Mux<H>, payload: seq<byte>): Stepped<H> {
    var fed := Svc.Feed(m.svc, payload, MAX_DVC_MESSAGE_SIZE);
    var m1 := m.(svc := fed.buffer);
    match fed.result
    case Err(e) => Stepped(m1, Err(e))
    case Ok(None) => Stepped(m1, Ok([]))
    case Ok(Some(message)) =>
      match DecodeClientMessage(message)
      case Err(e) => Stepped(m1, Err(e))
      case Ok(msg) => OnMessage(b, m1, msg)
  }

  // ------------------------------------------------------------------
  // Every reachable state
  // ------------------------------------------------------------------

  datatype Action<H> = RegisterHandler(h: H) | ChannelData(payload: seq<byte>)

  function Step<H>(b: Behaviour<H>, m: Mux<H>, a: Action<H>): Mux<H> {
    match a
    case RegisterHandler(h) => Register(b, m, h).mux
    case ChannelData(payload) => OnChannelData(b, m, payload).mux
  }

  function Run<H>(b: Behaviour<H>, m: Mux<H>, actions: seq<Action<H>>): Mux<H>
    decreases |actions|
  {
    if actions == [] then m else Step(b, Run(b, m, actions[..|actions| - 1]), actions[|actions| - 1])
  }

  ghost predicate PartialOk(p: Option<Partial>) {
    p.Some? ==> |p.value.buffered| < p.value.total <= MAX_DVC_MESSAGE_SIZE
  }

  /** Slot ids are distinct and were all handed out, unless the 32-bit counter has wrapped. */
  ghost predicate IdsOk<H>(m: Mux<H>) {
    && m.nextId == (1 + |m.created|) % 0x1_0000_0000
    && (|m.created| < 0xFFFF_FFFF ==>
          && (forall i :: 0 <= i < |m.slots| ==> 0 < m.slots[i].id < m.nextId)
          && forall i, j :: 0 <= i < j < |m.slots| ==> m.slots[i].id != m.slots[j].id)
  }

  ghost predicate SlotsOk<H>(m: Mux<H>) {
    forall i :: 0 <= i < |m.slots| ==> PartialOk(m.slots[i].partial)
  }

  /** Deferred handlers exist only before negotiation and slots only after; every handler is opened once, in order. */
  ghost predicate OrderOk<H>(m: Mux<H>) {
    && m.registered == m.created + m.pending
    && (m.negotiated ==> m.pending == [])
    && (!m.negotiated ==> m.slots == [] && m.created == [])
  }

  ghost predicate DeliveriesOk(ds: seq<Delivery>) {
    forall i :: 0 <= i < |ds| && ds[i].declared.Some? ==> |ds[i].payload| == ds[i].declared.value
  }

  ghost predicate Inv<H>(m: Mux<H>) {
    && |m.svc| <= MAX_DVC_MESSAGE_SIZE
    && IdsOk(m) && SlotsOk(m) && OrderOk(m) && DeliveriesOk(m.deliveries)
  }

  lemma CollectOk(id: u32, partial: Option<Partial>, data: seq<byte>, startsNew: Option<u32>)
    requires PartialOk(partial)
    ensures var c := Collect(id, partial, data, startsNew);
            && PartialOk(c.partial)
            && (c.complete.Ok? && c.complete.value.Some? && c.complete.value.value.declared.Some? ==>
                  |c.complete.value.value.payload| == c.complete.value.value.declared.value <= MAX_DVC_MESSAGE_SIZE)
  {
  }

  lemma {:induction false} WithoutKeeps<H>(slots: seq<Slot<H>>, id: u32)
    ensures forall s :: s in Without(slots, id) ==> s in slots && s.id != id
    ensures (forall i, j :: 0 <= i < j < |slots| ==> slots[i].id != slots[j].id) ==>
              forall i, j :: 0 <= i < j < |Without(slots, id)| ==> Without(slots, id)[i].id != Without(slots, id)[j].id
  {
    if slots != [] {
      var rest := Without(slots[1..], id);
      WithoutKeeps(slots[1..], id);
      if slots[0].id != id && (forall i, j :: 0 <= i < j < |slots| ==> slots[i].id != slots[j].id) {
        var all := [slots[0]] + rest;
        forall j | 0 < j < |all| ensures all[0].id != all[j].id {
          assert all[j] in rest && all[j] in slots[1..];
        }
      }
    }
  }

  lemma OpenIds<H>(b: Behaviour<H>, m: Mux<H>, h: H)
    requires IdsOk(m) && SlotsOk(m)
    ensures IdsOk(Open(b, m, h).mux) && SlotsOk(Open(b, m, h).mux)
  {
    hide Svc.WrapIndication, EncodeCreateRequest;
    var m' := Open(b, m, h).mux;
    if |m'.created| < 0xFFFF_FFFF {
      assert m.nextId == 1 + |m.created| && m'.nextId == m.nextId + 1;
    }
  }

  lemma {:induction false} OpenAllKeeps<H>(b: Behaviour<H>, m: Mux<H>, hs: seq<H>)
    requires IdsOk(m) && SlotsOk(m) && m.negotiated && m.pending == [] && m.registered == m.created + hs
    ensures var m' := OpenAll(b, m, hs).mux;
            && IdsOk(m') && SlotsOk(m') && OrderOk(m')
            && m'.svc == m.svc && m'.deliveries == m.deliveries && m'.registered == m.registered
    decreases |hs|
  {
    hide IdsOk, SlotsOk;
    if hs != [] {
      OpenIds(b, m, hs[0]);
      assert m.created + hs == m.created + [hs[0]] + hs[1..];
      OpenAllKeeps(b, Open(b, m, hs[0]).mux, hs[1..]);
    }
  }

  /** Replacing one slot by another with the same id and a sound partial message. */
  lemma SlotKeeps<H>(m: Mux<H>, i: nat, slot: Slot<H>, ds: seq<Delivery>)
    requires Inv(m) && i < |m.slots| && slot.id == m.slots[i].id && PartialOk(slot.partial) && DeliveriesOk(ds)
    ensures Inv(m.(slots := m.slots[i := slot], deliveries := ds))
  {
  }

  lemma IncomingDataKeeps<H>(b: Behaviour<H>, m: Mux<H>, id: u32, data: seq<byte>, startsNew: Option<u32>)
    requires Inv(m)
    ensures Inv(IncomingData(b, m, id, data, startsNew).mux)
  {
    match Find(m.slots, id)
    case None =>
    case Some(i) =>
      var slot := m.slots[i];
      var c := Collect(id, slot.partial, data, startsNew);
      CollectOk(id, slot.partial, data, startsNew);
      hide Inv, Collect, Find, EncodePayloads;
      InvDeliveries(m);
      SlotKeeps(m, i, slot.(partial := c.partial), m.deliveries);
      if c.complete.Ok? && c.complete.value.Some? {
        var d := c.complete.value.value;
        var r := b.onData(slot.handler, d.payload);
        SlotKeeps(m, i, slot.(partial := c.partial, handler := r.0), m.deliveries + [d]);
      }
  }

  lemma InvDeliveries<H>(m: Mux<H>)
    requires Inv(m)
    ensures DeliveriesOk(m.deliveries)
  {
  }

  lemma RetainKeeps<H>(m: Mux<H>, id: u32)
    requires Inv(m)
    ensures Inv(m.(slots := Without(m.slots, id)))
  {
    WithoutKeeps(m.slots, id);
    hide Without;
    var m' := m.(slots := Without(m.slots, id));
    forall i | 0 <= i < |m'.slots| ensures m'.slots[i] in m.slots {
    }
    if !m.negotiated {
      NothingRetained<H>(id);
    }
  }

  lemma NothingRetained<H>(id: u32)
    ensures Without<H>([], id) == []
  {
  }

  lemma OnMessageKeeps<H>(b: Behaviour<H>, m: Mux<H>, msg: ClientMessage)
    requires Inv(m)
    ensures Inv(OnMessage(b, m, msg).mux)
  {
    match msg
    case CapabilityResponse(_) => OpenAllKeeps(b, m.(negotiated := true, pending := []), m.pending);
    case CreateResponse(id, status) =>
      if status != 0 {
        RetainKeeps(m, id);
      } else if Find(m.slots, id).Some? {
        var i := Find(m.slots, id).value;
        var r := b.onOpen(m.slots[i].handler);
        SlotKeeps(m, i, m.slots[i].(handler := r.0), m.deliveries);
      }
    case Data(id, data) => IncomingDataKeeps(b, m, id, data, None);
    case DataFirst(id, total, data) => IncomingDataKeeps(b, m, id, data, Some(total));
    case Close(id) => RetainKeeps(m, id);
    case Other =>
  }

  lemma OnChannelDataKeeps<H>(b: Behaviour<H>, m: Mux<H>, payload: seq<byte>)
    requires Inv(m)
    ensures Inv(OnChannelData(b, m, payload).mux)
  {
    FeedBounded(m.svc, payload);
    var fed := Svc.Feed(m.svc, payload, MAX_DVC_MESSAGE_SIZE);
    hide Svc.Feed, OnMessage, DecodeClientMessage;
    var m1 := m.(svc := fed.buffer);
    assert Inv(m1);
    if fed.result.Ok? && fed.result.value.Some? {
      var msg := DecodeClientMessage(fed.result.value.value);
      if msg.Ok? {
        OnMessageKeeps(b, m1, msg.value);
      }
    }
  }

  lemma FeedBounded(buffer: seq<byte>, payload: seq<byte>)
    requires |buffer| <= MAX_DVC_MESSAGE_SIZE
    ensures |Svc.Feed(buffer, payload, MAX_DVC_MESSAGE_SIZE).buffer| <= MAX_DVC_MESSAGE_SIZE
  {
  }

  lemma RegisterKeeps<H>(b: Behaviour<H>, m: Mux<H>, h: H)
    requires Inv(m)
    ensures Inv(Register(b, m, h).mux)
  {
    var m1 := m.(registered := m.registered + [h]);
    if m.negotiated {
      OpenIds(b, m1, h);
    } else {
      assert m.registered + [h] == m.created + (m.pending + [h]);
    }
  }

  /**
    In every reachable state: slot ids are distinct and below the counter until 2^32 - 1 channels were opened;
    every partial message is shorter than its declared total, which is at most 16 MiB; handlers wait only before
    negotiation; each registered handler got one Create Request, in registration order; and every fragmented
    delivery has exactly its declared length.
   */
  lemma {:induction false} RunKeeps<H>(b: Behaviour<H>, channel: u16, user: u16, actions: seq<Action<H>>)
    ensures Inv(Run(b, New(channel, user), actions))
    decreases |actions|
  {
    if actions == [] {
      assert Inv(New<H>(channel, user));
    } else {
      hide Inv, Register, OnChannelData;
      var init := actions[..|actions| - 1];
      var m := Run(b, New(channel, user), init);
      RunKeeps(b, channel, user, init);
      match actions[|actions| - 1]
      case RegisterHandler(h) => RegisterKeeps(b, m, h);
      case ChannelData(payload) => OnChannelDataKeeps(b, m, payload);
    }
  }

  // ------------------------------------------------------------------
  // Through the whole stack
  // ------------------------------------------------------------------

  /** A packet on its way up: X.224, MCS, then the multiplexer's channel. */
  function OnFrame<H>(b: Behaviour<H>, m: Mux<H>, frame: seq<byte>): Stepped<H> {
    match Svc.UnwrapChunk(frame)
    case Err(e) => Stepped(m, Err(e))
    case Ok(sd) => OnChannelData(b, m, sd.data)
  }

  /** Packets in wire order, up to the first error. */
  function OnFrames<H>(b: Behaviour<H>, m: Mux<H>, frames: seq<seq<byte>>): Stepped<H>
    decreases |frames|
  {
    if frames == [] then Stepped(m, Ok([]))
    else
      var one := OnFrame(b, m, frames[0]);
      match one.result
      case Err(_) => one
      case Ok(_) => OnFrames(b, one.mux, frames[1..])
  }

  /** The packets of one PDU that fits a chunk: a single packet, which hands the PDU to the multiplexer whole. */
  lemma OnePacket<H>(b: Behaviour<H>, m: Mux<H>, user: u16, channel: u16, pdu: seq<byte>, msg: ClientMessage)
    requires |pdu| <= 1600 && DecodeClientMessage(pdu) == Ok(msg)
    ensures |Svc.WrapIndication(user, channel, pdu)| == 1
    ensures OnFrame(b, m, Svc.WrapIndication(user, channel, pdu)[0]) == OnMessage(b, m.(svc := []), msg)
  {
    hide Svc.UnwrapChunk, Svc.WrapChunk, Svc.Feed, Svc.Chunk, Svc.Chunkify, DecodeClientMessage, OnMessage;
    var chunk := Svc.Chunk(|pdu|, Svc.Flags(true, true), pdu);
    SingleChunk(pdu);
    Svc.UnwrapWrapChunk(user, channel, chunk);
    Svc.FeedChunk(m.svc, |pdu|, true, true, pdu, MAX_DVC_MESSAGE_SIZE);
    assert [] + pdu == pdu;
  }

  lemma SingleChunk(pdu: seq<byte>)
    requires |pdu| <= 1600
    ensures var chunk := Svc.Chunk(|pdu|, Svc.Flags(true, true), pdu);
            Svc.Chunkify(pdu) == [chunk] && |chunk| <= 1608
  {
  }

  lemma FramesStep<H>(b: Behaviour<H>, m: Mux<H>, frame: seq<byte>, rest: seq<seq<byte>>)
    requires OnFrame(b, m, frame).result.Ok?
    ensures OnFrames(b, m, [frame] + rest) == OnFrames(b, OnFrame(b, m, frame).mux, rest)
  {
    hide OnFrame;
    assert ([frame] + rest)[1..] == rest;
  }

  /** The multiplexer after its slot `i` collected to `partial`. */
  function WithPartial<H>(m: Mux<H>, i: nat, partial: Option<Partial>): Mux<H>
    requires i < |m.slots|
  {
    m.(svc := [], slots := m.slots[i := m.slots[i].(partial := partial)])
  }

  /** The multiplexer after its slot `i` was handed `payload` and has no partial message. */
  function Delivered<H>(b: Behaviour<H>, m: Mux<H>, i: nat, d: Delivery): Mux<H>
    requires i < |m.slots|
  {
    m.(svc := [],
       slots := m.slots[i := m.slots[i].(partial := None, handler := b.onData(m.slots[i].handler, d.payload).0)],
       deliveries := m.deliveries + [d])
  }

  lemma {:induction false} FindUnchanged<H>(slots: seq<Slot<H>>, i: nat, slot: Slot<H>, id: u32)
    requires i < |slots| && slot.id == slots[i].id
    ensures Find(slots[i := slot], id) == Find(slots, id)
  {
    if i > 0 {
      FindUnchanged(slots[1..], i - 1, slot, id);
      assert slots[i := slot][1..] == slots[1..][i - 1 := slot];
    } else {
      assert slots[i := slot][1..] == slots[1..];
    }
  }

  /** One continuation packet on a slot that is collecting. */
  lemma ContinuationPacket<H>(b: Behaviour<H>, m: Mux<H>, user: u16, channel: u16, i: nat, id: u32, p: Partial, data: seq<byte>)
    requires Find(m.slots, id) == Some(i) && m.slots[i].partial == Some(p)
    requires |p.buffered| + |data| <= p.total <= MAX_DVC_MESSAGE_SIZE && |data| <= MAX_DATA_SIZE
    ensures |Svc.WrapIndication(user, channel, EncodeData(id, data))| == 1
    ensures var r := OnFrame(b, m, Svc.WrapIndication(user, channel, EncodeData(id, data))[0]);
            var all := p.buffered + data;
            && r.result.Ok?
            && r.mux == if |all| == p.total then Delivered(b, m, i, Delivery(id, all, Some(p.total)))
                        else WithPartial(m, i, Some(Partial(p.total, all)))
  {
    DataRoundTrip(id, data);
    hide EncodeData, DecodeClientMessage, Svc.WrapIndication, OnFrame, EncodePayloads, Find;
    OnePacket(b, m, user, channel, EncodeData(id, data), Data(id, data));
    var all := p.buffered + data;
    if |all| == p.total {
      assert all[..p.total] == all;
    }
  }

  lemma WrapFirst(user: u16, channel: u16, pdu: seq<byte>, rest: seq<seq<byte>>)
    requires |Svc.WrapIndication(user, channel, pdu)| == 1
    ensures WrapPdus(user, channel, [pdu] + rest) == [Svc.WrapIndication(user, channel, pdu)[0]] + WrapPdus(user, channel, rest)
  {
    hide Svc.WrapIndication;
    assert ([pdu] + rest)[1..] == rest;
  }

  lemma NoFrames<H>(b: Behaviour<H>, m: Mux<H>, user: u16, channel: u16)
    ensures WrapPdus(user, channel, []) == [] && OnFrames(b, m, []) == Stepped(m, Ok([]))
  {
  }

  /** The continuations complete exactly the announced message. */
  lemma {:induction false} ContinuationPackets<H>(b: Behaviour<H>, m: Mux<H>, user: u16, channel: u16, i: nat, id: u32, p: Partial, data: seq<byte>)
    requires Find(m.slots, id) == Some(i) && m.slots[i].partial == Some(p)
    requires |p.buffered| + |data| == p.total <= MAX_DVC_MESSAGE_SIZE && data != []
    ensures var r := OnFrames(b, m, WrapPdus(user, channel, DataPdus(id, data)));
            r.result.Ok? && r.mux == Delivered(b, m, i, Delivery(id, p.buffered + data, Some(p.total)))
    decreases |data|
  {
    hide Find, OnFrame, OnFrames, WrapPdus, EncodeData, Svc.WrapIndication, Delivered;
    if |data| <= MAX_DATA_SIZE {
      ContinuationPacket(b, m, user, channel, i, id, p, data);
      var frames := Svc.WrapIndication(user, channel, EncodeData(id, data));
      WrapFirst(user, channel, EncodeData(id, data), []);
      assert DataPdus(id, data) == [EncodeData(id, data)] + [];
      FramesStep(b, m, frames[0], []);
      NoFrames(b, OnFrame(b, m, frames[0]).mux, user, channel);
    } else {
      var head, tail := data[..MAX_DATA_SIZE], data[MAX_DATA_SIZE..];
      var p' := Partial(p.total, p.buffered + head);
      ContinuationPacket(b, m, user, channel, i, id, p, head);
      var frames := Svc.WrapIndication(user, channel, EncodeData(id, head));
      var rest := WrapPdus(user, channel, DataPdus(id, tail));
      WrapFirst(user, channel, EncodeData(id, head), DataPdus(id, tail));
      FramesStep(b, m, frames[0], rest);
      var m' := WithPartial(m, i, Some(p'));
      FindUnchanged(m.slots, i, m'.slots[i], id);
      ContinuationPackets(b, m', user, channel, i, id, p', tail);
      assert p'.buffered + tail == p.buffered + data;
      DeliveredFromPartial(b, m, i, Some(p'), Delivery(id, p.buffered + data, Some(p.total)));
    }
  }

  lemma DeliveredFromPartial<H>(b: Behaviour<H>, m: Mux<H>, i: nat, partial: Option<Partial>, d: Delivery)
    requires i < |m.slots|
    ensures Delivered(b, WithPartial(m, i, partial), i, d) == Delivered(b, m, i, d)
  {
    var x := m.slots[i].(partial := None, handler := b.onData(m.slots[i].handler, d.payload).0);
    assert m.slots[i := m.slots[i].(partial := partial)][i := x] == m.slots[i := x];
  }

  /**
    A payload of up to 16 MiB sent on any channel id arrives through X.224, MCS, chunking and fragmentation at
    the slot of that id, unless the slot holds a partial message that a single Data PDU would be taken to
    continue: handed over exactly once, exactly as sent, with nothing left in either reassembly buffer,
    whatever was buffered below before.
   */
  lemma PayloadArrives<H>(b: Behaviour<H>, sender: Mux<H>, m: Mux<H>, i: nat, id: u32, payload: seq<byte>)
    requires |payload| <= MAX_DVC_MESSAGE_SIZE
    requires Find(m.slots, id) == Some(i) && (m.slots[i].partial.None? || |payload| > MAX_DATA_SIZE)
    ensures var r := OnFrames(b, m, EncodePayloads(sender, id, [payload]));
            var declared := if |payload| <= MAX_DATA_SIZE then None else Some(|payload|);
            r.result.Ok? && r.mux == Delivered(b, m, i, Delivery(id, payload, declared))
  {
    hide Find, OnFrame, EncodeData, EncodeDataFirst, Svc.WrapIndication, DataPdus;
    var user, channel := sender.user, sender.channel;
    var pdus := EncodeChannelPayload(id, payload);
    assert [payload][1..] == [];
    assert EncodePayloads(sender, id, [payload]) == WrapPdus(user, channel, pdus) + [] == WrapPdus(user, channel, pdus);
    if |payload| <= MAX_DATA_SIZE {
      WholePacket(b, m, user, channel, i, id, payload);
      var frames := Svc.WrapIndication(user, channel, EncodeData(id, payload));
      assert WrapPdus(user, channel, pdus) == frames + [] == [frames[0]] + [] by {
        assert pdus[1..] == [];
      }
      FramesStep(b, m, frames[0], []);
    } else {
      var head, tail := payload[..MAX_DATA_SIZE], payload[MAX_DATA_SIZE..];
      var p := Partial(|payload|, head);
      FirstPacket(b, m, user, channel, i, id, |payload|, head);
      var frames := Svc.WrapIndication(user, channel, EncodeDataFirst(id, |payload|, head));
      var rest := WrapPdus(user, channel, DataPdus(id, tail));
      assert WrapPdus(user, channel, pdus) == frames + rest == [frames[0]] + rest by {
        assert pdus[1..] == DataPdus(id, tail);
      }
      FramesStep(b, m, frames[0], rest);
      var m' := WithPartial(m, i, Some(p));
      FindUnchanged(m.slots, i, m'.slots[i], id);
      ContinuationPackets(b, m', user, channel, i, id, p, tail);
      assert head + tail == payload;
      DeliveredFromPartial(b, m, i, Some(p), Delivery(id, payload, Some(|payload|)));
    }
  }

  /** Exactly one more message was handed over, to this channel, with these bytes. */
  ghost predicate HandedOver(before: seq<Delivery>, after: seq<Delivery>, id: u32, payload: seq<byte>) {
    |after| == |before| + 1 && after[..|before|] == before && after[|before|].id == id && after[|before|].payload == payload
  }

  /**
    A one-PDU message taken for the continuation of a partial message still comes out as itself if it brings that to
    its announced total and the bytes up to there happen to be its own.
   */
  predicate ComesOut(p: Partial, payload: seq<byte>) {
    && |p.buffered| + |payload| <= MAX_DVC_MESSAGE_SIZE && |p.buffered| + |payload| >= p.total
    && (p.buffered + payload)[..p.total] == payload
  }

  /** Exactly when a message that fits one Data PDU survives a partial message in its slot. */
  lemma ContinuedIff<H>(b: Behaviour<H>, sender: Mux<H>, m: Mux<H>, i: nat, id: u32, payload: seq<byte>)
    requires |payload| <= MAX_DATA_SIZE && Find(m.slots, id) == Some(i) && m.slots[i].partial.Some?
    ensures HandedOver(m.deliveries, OnFrames(b, m, EncodePayloads(sender, id, [payload])).mux.deliveries, id, payload)
            <==> ComesOut(m.slots[i].partial.value, payload)
  {
    DataRoundTrip(id, payload);
    hide Find, OnFrame, EncodeData, DecodeClientMessage, Svc.WrapIndication, HandedOver, ComesOut;
    var user, channel := sender.user, sender.channel;
    OnePacket(b, m, user, channel, EncodeData(id, payload), Data(id, payload));
    var frames := Svc.WrapIndication(user, channel, EncodeData(id, payload));
    assert [payload][1..] == [];
    var pdus := EncodeChannelPayload(id, payload);
    assert EncodePayloads(sender, id, [payload]) == WrapPdus(user, channel, pdus) + [] == WrapPdus(user, channel, pdus);
    assert WrapPdus(user, channel, pdus) == frames + [] == [frames[0]] + [] by {
      assert pdus[1..] == [];
    }
    if OnFrame(b, m, frames[0]).result.Ok? {
      FramesStep(b, m, frames[0], []);
    }
    CollectedIff(b, m.(svc := []), i, id, payload);
  }

  lemma CollectedIff<H>(b: Behaviour<H>, m: Mux<H>, i: nat, id: u32, payload: seq<byte>)
    requires Find(m.slots, id) == Some(i) && m.slots[i].partial.Some?
    ensures HandedOver(m.deliveries, IncomingData(b, m, id, payload, None).mux.deliveries, id, payload)
            <==> ComesOut(m.slots[i].partial.value, payload)
  {
    hide Find, EncodePayloads;
    var c := Collect(id, m.slots[i].partial, payload, None);
    if c.complete.Ok? && c.complete.value.Some? {
      var after := m.deliveries + [c.complete.value.value];
      assert after[..|m.deliveries|] == m.deliveries && after[|m.deliveries|] == c.complete.value.value;
    }
  }

  /** Exactly when a payload reaches its handler as the bytes it was sent as, once. */
  lemma PayloadArrivesIff<H>(b: Behaviour<H>, sender: Mux<H>, m: Mux<H>, i: nat, id: u32, payload: seq<byte>)
    requires |payload| <= MAX_DVC_MESSAGE_SIZE && Find(m.slots, id) == Some(i)
    ensures HandedOver(m.deliveries, OnFrames(b, m, EncodePayloads(sender, id, [payload])).mux.deliveries, id, payload)
            <==> || m.slots[i].partial.None? || |payload| > MAX_DATA_SIZE
                 || ComesOut(m.slots[i].partial.value, payload)
  {
    hide Find, OnFrames, EncodePayloads, ComesOut;
    if m.slots[i].partial.None? || |payload| > MAX_DATA_SIZE {
      PayloadArrives(b, sender, m, i, id, payload);
      var d := Delivery(id, payload, if |payload| <= MAX_DATA_SIZE then None else Some(|payload|));
      assert (m.deliveries + [d])[..|m.deliveries|] == m.deliveries;
    } else {
      ContinuedIff(b, sender, m, i, id, payload);
    }
  }

  /** While a partial message stays below its total, that takes a message exactly as long, which repeats what is buffered. */
  lemma ComesOutIff(p: Partial, payload: seq<byte>)
    requires |p.buffered| < p.total
    ensures ComesOut(p, payload) <==>
              && |p.buffered| + |payload| <= MAX_DVC_MESSAGE_SIZE && |payload| == p.total && p.buffered <= payload
              && payload[|p.buffered|..] == payload[..|payload| - |p.buffered|]
  {
    var n := |p.buffered|;
    var all := p.buffered + payload;
    if |payload| == p.total {
      assert all[..p.total] == p.buffered + payload[..p.total - n];
      if all[..p.total] == payload {
        assert payload[..n] == p.buffered && payload[n..] == payload[..p.total - n];
      }
      if p.buffered <= payload && payload[n..] == payload[..p.total - n] {
        assert payload == payload[..n] + payload[n..];
      }
    }
  }

  lemma WholePacket<H>(b: Behaviour<H>, m: Mux<H>, user: u16, channel: u16, i: nat, id: u32, data: seq<byte>)
    requires Find(m.slots, id) == Some(i) && m.slots[i].partial.None? && |data| <= MAX_DATA_SIZE
    ensures |Svc.WrapIndication(user, channel, EncodeData(id, data))| == 1
    ensures var r := OnFrame(b, m, Svc.WrapIndication(user, channel, EncodeData(id, data))[0]);
            r.result.Ok? && r.mux == Delivered(b, m, i, Delivery(id, data, None))
  {
    DataRoundTrip(id, data);
    hide EncodeData, DecodeClientMessage, Svc.WrapIndication, OnFrame, EncodePayloads, Find;
    OnePacket(b, m, user, channel, EncodeData(id, data), Data(id, data));
  }

  lemma FirstPacket<H>(b: Behaviour<H>, m: Mux<H>, user: u16, channel: u16, i: nat, id: u32, total: u32, data: seq<byte>)
    requires Find(m.slots, id) == Some(i) && |data| <= MAX_DATA_SIZE && |data| < total <= MAX_DVC_MESSAGE_SIZE
    ensures |Svc.WrapIndication(user, channel, EncodeDataFirst(id, total, data))| == 1
    ensures var r := OnFrame(b, m, Svc.WrapIndication(user, channel, EncodeDataFirst(id, total, data))[0]);
            r.result.Ok? && r.mux == WithPartial(m, i, Some(Partial(total, data)))
  {
    DataFirstRoundTrip(id, total, data);
    hide EncodeDataFirst, DecodeClientMessage, Svc.WrapIndication, OnFrame, EncodePayloads, Find;
    OnePacket(b, m, user, channel, EncodeDataFirst(id, total, data), DataFirst(id, total, data));
  }

  // ------------------------------------------------------------------
  // The multiplexer as the source runs it
  // ------------------------------------------------------------------

  class Multiplexer<H> {
    const behaviour: Behaviour<H>
    const channel: u16
    const user: u16
    var svcIncoming: seq<byte>
    var nextDynamicId: u32
    var negotiated: bool
    var pending: seq<H>
    var channels: seq<Slot<H>>
    ghost var registered: seq<H>
    ghost var created: seq<H>
    ghost var deliveries: seq<Delivery>

    ghost function View(): Mux<H>
      reads this
    {
      Mux(channel, user, svcIncoming, nextDynamicId, negotiated, pending, channels, registered, created, deliveries)
    }

    ghost predicate Valid()
      reads this
    {
      Inv(View())
    }

    constructor (behaviour: Behaviour<H>, channel: u16, user: u16)
      ensures Valid() && View() == New(channel, user) && this.behaviour == behaviour
    {
      this.behaviour, this.channel, this.user := behaviour, channel, user;
      svcIncoming, nextDynamicId, negotiated, pending, channels := [], 1, false, [], [];
      registered, created, deliveries := [], [], [];
    }

    method OpenChannel(handler: H) returns (frames: seq<seq<byte>>)
      modifies this
      ensures Stepped(View(), Ok(frames)) == Open(behaviour, old(View()), handler)
    {
      var id := nextDynamicId;
      nextDynamicId := (nextDynamicId as int + 1) % 0x1_0000_0000;
      channels := channels + [Slot(id, handler, None)];
      created := created + [handler];
      frames := Svc.WrapIndication(user, channel, EncodeCreateRequest(id, behaviour.name(handler)));
    }

    method RegisterChannel(handler: H) returns (frames: seq<seq<byte>>)
      requires Valid()
      modifies this
      ensures Valid() && Stepped(View(), Ok(frames)) == Register(behaviour, old(View()), handler)
    {
      RegisterKeeps(behaviour, View(), handler);
      registered := registered + [handler];
      if negotiated {
        frames := OpenChannel(handler);
      } else {
        pending := pending + [handler];
        frames := [];
      }
    }

    /** A Capability Response: the deferred channels open in the order they were registered. */
    method OnCapabilityResponse() returns (frames: seq<seq<byte>>)
      modifies this
      ensures Stepped(View(), Ok(frames)) == OpenAll(behaviour, old(View()).(negotiated := true, pending := []), old(pending))
    {
      hide Open;
      negotiated := true;
      var waiting := pending;
      pending := [];
      ghost var start := View();
      frames := [];
      assert waiting[0..] == waiting;
      for k := 0 to |waiting|
        invariant OpenAll(behaviour, View(), waiting[k..]).mux == OpenAll(behaviour, start, waiting).mux
        invariant frames + OpenAll(behaviour, View(), waiting[k..]).result.value == OpenAll(behaviour, start, waiting).result.value
      {
        assert waiting[k..][0] == waiting[k] && waiting[k..][1..] == waiting[k + 1..];
        var request := OpenChannel(waiting[k]);
        frames := frames + request;
      }
      assert frames + [] == frames;
    }

    method FindSlot(id: u32) returns (r: Option<nat>)
      ensures r == Find(channels, id)
    {
      assert channels[0..] == channels;
      for k := 0 to |channels|
        invariant Find(channels, id) == match Find(channels[k..], id) case None => None case Some(i) => Some(i + k)
      {
        if channels[k].id == id {
          return Some(k);
        }
        assert channels[k..][1..] == channels[k + 1..];
      }
      r := None;
    }

    method HandleIncomingData(id: u32, data: seq<byte>, startsNew: Option<u32>) returns (r: Result<seq<seq<byte>>>)
      modifies this
      ensures Stepped(View(), r) == IncomingData(behaviour, old(View()), id, data, startsNew)
    {
      hide EncodePayloads, Find;
      var at := FindSlot(id);
      if at.None? {
        return Ok([]);
      }
      var i := at.value;
      var slot := channels[i];
      var c := Collect(id, slot.partial, data, startsNew);
      channels := channels[i := slot.(partial := c.partial)];
      if c.complete.Err? {
        return Err(c.complete.error);
      }
      if c.complete.value.None? {
        return Ok([]);
      }
      var d := c.complete.value.value;
      var reply := behaviour.onData(slot.handler, d.payload);
      deliveries := deliveries + [d];
      channels := channels[i := slot.(partial := c.partial, handler := reply.0)];
      assert channels == old(channels)[i := channels[i]];
      r := Ok(EncodePayloads(Mux(channel, user, svcIncoming, nextDynamicId, negotiated, pending, channels, [], [], []), id, reply.1));
      SamePayloads(View(), Mux(channel, user, svcIncoming, nextDynamicId, negotiated, pending, channels, [], [], []), id, reply.1);
    }

    /** A Create Response: a refused channel is dropped, an opened one runs its handler's opening. */
    method OnCreateResponse(id: u32, status: u32) returns (frames: seq<seq<byte>>)
      modifies this
      ensures Stepped(View(), Ok(frames)) == OnMessage(behaviour, old(View()), CreateResponse(id, status))
    {
      hide EncodePayloads, Find, Without;
      if status != 0 {
        channels := Without(channels, id);
        return [];
      }
      var at := FindSlot(id);
      if at.None? {
        return [];
      }
      var i := at.value;
      var reply := behaviour.onOpen(channels[i].handler);
      channels := channels[i := channels[i].(handler := reply.0)];
      var mux := Mux(channel, user, svcIncoming, nextDynamicId, negotiated, pending, channels, [], [], []);
      frames := EncodePayloads(mux, id, reply.1);
      SamePayloads(View(), mux, id, reply.1);
    }

    method OnClientMessage(msg: ClientMessage) returns (r: Result<seq<seq<byte>>>)
      modifies this
      ensures Stepped(View(), r) == OnMessage(behaviour, old(View()), msg)
    {
      hide OpenAll, IncomingData, Without;
      match msg
      case CapabilityResponse(_) =>
        var frames := OnCapabilityResponse();
        r := Ok(frames);
      case CreateResponse(id, status) =>
        var frames := OnCreateResponse(id, status);
        r := Ok(frames);
      case Data(id, data) =>
        r := HandleIncomingData(id, data, None);
      case DataFirst(id, total, data) =>
        r := HandleIncomingData(id, data, Some(total));
      case Close(id) =>
        channels := Without(channels, id);
        r := Ok([]);
      case Other =>
        r := Ok([]);
    }

    /** One chunk of the static channel. */
    method OnChunk(payload: seq<byte>) returns (r: Result<seq<seq<byte>>>)
      requires Valid()
      modifies this
      ensures Valid() && Stepped(View(), r) == OnChannelData(behaviour, old(View()), payload)
    {
      OnChannelDataKeeps(behaviour, View(), payload);
      hide Svc.Feed, DecodeClientMessage, OnMessage, Inv;
      var fed := Svc.Feed(svcIncoming, payload, MAX_DVC_MESSAGE_SIZE);
      svcIncoming := fed.buffer;
      if fed.result.Err? {
        return Err(fed.result.error);
      }
      if fed.result.value.None? {
        return Ok([]);
      }
      var msg := DecodeClientMessage(fed.result.value.value);
      if msg.Err? {
        return Err(msg.error);
      }
      r := OnClientMessage(msg.value);
    }
  }

  lemma {:induction false} SamePayloads<H>(a: Mux<H>, b: Mux<H>, id: u32, payloads: seq<seq<byte>>)
    requires a.user == b.user && a.channel == b.channel
    ensures EncodePayloads(a, id, payloads) == EncodePayloads(b, id, payloads)
    decreases |payloads|
  {
    if payloads != [] {
      SamePayloads(a, b, id, payloads[1..]);
    }
  }
}
