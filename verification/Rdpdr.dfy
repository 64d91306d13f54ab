/**
  The outstanding-request table of the device redirection channel (sections 2.2.1.4 and 2.2.1.5 of MS-RDPEFS),
  after crates/rdpcore-rdpdr/src/lib.rs: completion ids, caps, synthetic failures, and a work queue whose
  callbacks produce more work. A ledger beside the real state records what became of every command.
 */
module Rdpdr {
  import opened Bytes

  const MAX_PENDING_OPS: nat := 4096
  const MAX_DEVICES: nat := 256
  const STATUS_SUCCESS: u32 := 0
  const STATUS_UNSUCCESSFUL: u32 := 0xC000_0001
  const STATUS_NO_MORE_FILES: u32 := 0x8000_0006

  datatype Kind = Create | Close | Read | Write | QueryDirectory | SetInformation

  /** IRP major function codes. */
  function Major(k: Kind): u32 {
    match k
    case Create => 0x0
    case Close => 0x2
    case Read => 0x3
    case Write => 0x4
    case QueryDirectory => 0xC
    case SetInformation => 0x6
  }

  /** `operands` stands for whatever the kind carries beside its device and tag: paths, offsets, data. */
  datatype Command = Command(kind: Kind, device: u32, tag: nat, operands: seq<byte>)

  /** An I/O request as the client gets it. */
  datatype Request = Request(device: u32, id: u32, major: u32, operands: seq<byte>)

  datatype Packet = Io(request: Request) | DeviceReply(device: u32, status: u32)

  function RequestOf(cmd: Command, id: u32): Request {
    Request(cmd.device, id, Major(cmd.kind), cmd.operands)
  }

  datatype PendingOp = PendingOp(device: u32, major: u32, tag: nat)

  datatype Reply<+T> = Done(value: T) | Failed(status: u32)

  /** A call of one of the consumer's reply callbacks. */
  datatype Callback =
    | OnCreate(tag: nat, created: Reply<(u32, byte)>)
    | OnClose(tag: nat, status: u32)
    | OnRead(tag: nat, data: Reply<seq<byte>>)
    | OnWrite(tag: nat, written: Reply<u32>)
    | OnQueryDirectory(tag: nat, entry: Reply<Option<seq<byte>>>)
    | OnSetInformation(tag: nat, set_: Reply<()>)

  function KindOf(cb: Callback): Kind {
    match cb
    case OnCreate(_, _) => Create
    case OnClose(_, _) => Close
    case OnRead(_, _) => Read
    case OnWrite(_, _) => Write
    case OnQueryDirectory(_, _) => QueryDirectory
    case OnSetInformation(_, _) => SetInformation
  }

  /** A callback that reports failure with `status`. */
  predicate Reports(cb: Callback, status: u32) {
    match cb
    case OnCreate(_, r) => r == Failed(status)
    case OnClose(_, s) => s == status
    case OnRead(_, r) => r == Failed(status)
    case OnWrite(_, r) => r == Failed(status)
    case OnQueryDirectory(_, r) => r == Failed(status)
    case OnSetInformation(_, r) => r == Failed(status)
  }

  // ------------------------------------------------------------------
  // Callbacks
  // ------------------------------------------------------------------

  function DecodeCreateReply(body: seq<byte>): Result<(u32, byte)> {
    var file :- ReadU32Le(body);
    var info :- ReadU8(file.rest);
    Ok((file.value, info.value))
  }

  function DecodeReadReply(body: seq<byte>): Result<seq<byte>> {
    var length :- ReadU32Le(body);
    var data :- ReadSlice(length.rest, length.value);
    Ok(data.value)
  }

  function DecodeWriteReply(body: seq<byte>): Result<u32> {
    var n :- ReadU32Le(body);
    Ok(n.value)
  }

  /** The bytes of one directory entry; none for an empty reply. */
  function DecodeDirectoryReply(body: seq<byte>): Result<Option<seq<byte>>> {
    if body == [] then Ok(None)
    else
      var length :- ReadU32Le(body);
      if length.value == 0 then Ok(None)
      else
        var entry :- ReadSlice(length.rest, length.value);
        if |entry.value| < 64 then Err(NotEnoughBytes)
        else
          var name :- ReadU32Le(entry.value[60..]);
          var bytes :- ReadSlice(name.rest, name.value);
          Ok(Some(entry.value))
  }

  /** A decoded success, or failure: with the reported status, or 1 when a success has no readable body. */
  function ReplyOf<T>(status: u32, decoded: Result<T>): Reply<T> {
    if status != STATUS_SUCCESS then Failed(status)
    else if decoded.Ok? then Done(decoded.value)
    else Failed(1)
  }

  /** The callback a completion makes; an unknown major function makes none. */
  function CompletionCallback(op: PendingOp, status: u32, body: seq<byte>): Option<Callback> {
    match op.major
    case 0x0 => Some(OnCreate(op.tag, ReplyOf(status, DecodeCreateReply(body))))
    case 0x2 => Some(OnClose(op.tag, status))
    case 0x3 => Some(OnRead(op.tag, ReplyOf(status, DecodeReadReply(body))))
    case 0x4 => Some(OnWrite(op.tag, ReplyOf(status, DecodeWriteReply(body))))
    case 0xC => Some(OnQueryDirectory(op.tag,
                 if status == STATUS_NO_MORE_FILES then Done(None) else ReplyOf(status, DecodeDirectoryReply(body))))
    case 0x6 => Some(OnSetInformation(op.tag, if status == STATUS_SUCCESS then Done(()) else Failed(status)))
    case _ => None
  }

  /** The callback that fails a command which was never put on the wire. */
  function FailureCallback(c: Command, status: u32): Callback {
    match c.kind
    case Create => OnCreate(c.tag, Failed(status))
    case Close => OnClose(c.tag, status)
    case Read => OnRead(c.tag, Failed(status))
    case Write => OnWrite(c.tag, Failed(status))
    case QueryDirectory => OnQueryDirectory(c.tag, Failed(status))
    case SetInformation => OnSetInformation(c.tag, Failed(status))
  }

  /** A completion calls back the command's own kind with its own tag; a synthetic failure also reports failure. */
  lemma CallbacksMatch(c: Command, op: PendingOp, status: u32, body: seq<byte>)
    requires op == PendingOp(c.device, Major(c.kind), c.tag)
    ensures var cb := CompletionCallback(op, status, body);
            cb.Some? && KindOf(cb.value) == c.kind && cb.value.tag == c.tag
    ensures KindOf(FailureCallback(c, status)) == c.kind && FailureCallback(c, status).tag == c.tag
    ensures Reports(FailureCallback(c, STATUS_UNSUCCESSFUL), STATUS_UNSUCCESSFUL)
    ensures Reports(CompletionCallback(op, STATUS_UNSUCCESSFUL, []).value, STATUS_UNSUCCESSFUL)
  {
  }

  // ------------------------------------------------------------------
  // State
  // ------------------------------------------------------------------

  /** Any consumer at all, as transition functions over its own state. */
  datatype Consumer<!S> = Consumer(
    onReply: (S, Callback) -> (S, seq<Command>),
    onReady: (S, u32, bv32) -> (S, seq<Command>),
    poll: S -> (S, seq<Command>),
    weight: S -> nat)

  /** Being told of a failure may lead to more commands only finitely often: `weight` drops each time. */
  ghost predicate Tame<S(!new)>(c: Consumer<S>) {
    forall s: S, cmd: Command {:trigger c.onReply(s, FailureCallback(cmd, STATUS_UNSUCCESSFUL))} ::
      var r := c.onReply(s, FailureCallback(cmd, STATUS_UNSUCCESSFUL));
      c.weight(r.0) + (if r.1 == [] then 0 else 1) <= c.weight(s)
  }

  /** What became of a command. */
  datatype Fate =
    | Queued
    | Pending(id: u32)
    | Answered(call: nat, issued: bool)
    | Mismatched(id: u32, device: u32)
    | Overwritten

  /**
    Commands by serial number and their fates, who owns each pending id, every callback made so far, and every
    packet sent, with the serial number of the command in each request and the place of each command's request.
   */
  datatype Ledger = Ledger(
    commands: seq<Command>,
    fates: seq<Fate>,
    owner: map<u32, nat>,
    calls: seq<(nat, Callback)>,
    issued: nat,
    wire: seq<Packet>,
    serials: seq<nat>,
    places: seq<Option<nat>>)

  datatype World<S> = World(
    supported: bv32,
    devices: map<u32, bv32>,
    nextId: u32,
    pending: map<u32, PendingOp>,
    consumer: S,
    ledger: Ledger)

  // ------------------------------------------------------------------
  // Ledger bookkeeping
  // ------------------------------------------------------------------

  function Serials(lo: nat, n: nat): seq<nat> {
    seq(n, i requires 0 <= i => lo + i)
  }

  /** New commands enter the ledger as queued. */
  function Submit(l: Ledger, cmds: seq<Command>): Ledger {
    l.(commands := l.commands + cmds, fates := l.fates + seq(|cmds|, _ => Queued), places := l.places + seq(|cmds|, _ => None))
  }

  function SetFate(fates: seq<Fate>, n: nat, f: Fate): seq<Fate> {
    if n < |fates| then fates[n := f] else fates
  }

  /** The consumer answers one callback for command `n`. */
  function Call<S>(c: Consumer<S>, w: World<S>, n: nat, cb: Callback): (World<S>, seq<Command>) {
    var r := c.onReply(w.consumer, cb);
    var l := w.ledger;
    (w.(consumer := r.0,
        ledger := l.(fates := SetFate(l.fates, n, Answered(|l.calls|, false)), calls := l.calls + [(n, cb)])), r.1)
  }

  /** Puts command `n` on the wire under the next completion id, which wraps at 2^32. */
  function Issue<S>(w: World<S>, n: nat, cmd: Command): World<S> {
    var id := w.nextId;
    var l := w.ledger;
    var fates := if id in l.owner then SetFate(l.fates, l.owner[id], Overwritten) else l.fates;
    w.(nextId := (id + 1) % 0x1_0000_0000,
       pending := w.pending[id := PendingOp(cmd.device, Major(cmd.kind), cmd.tag)],
       ledger := Post(l.(fates := SetFate(fates, n, Pending(id)), owner := l.owner[id := n], issued := l.issued + 1), n,
                      RequestOf(cmd, id)))
  }

  /** A packet goes out: the request of command `n`, or a reply to a device. */
  function Post(l: Ledger, n: nat, request: Request): Ledger {
    l.(wire := l.wire + [Io(request)], serials := l.serials + [n],
       places := if n < |l.places| then l.places[n := Some(|l.wire|)] else l.places)
  }

  function PostReply(l: Ledger, device: u32, status: u32): Ledger {
    l.(wire := l.wire + [DeviceReply(device, status)], serials := l.serials + [0])
  }

  /** One turn of the work queue. */
  function QueueStep<S>(c: Consumer<S>, w: World<S>, queue: seq<nat>): (World<S>, seq<nat>)
    requires queue != [] && queue[0] < |w.ledger.commands|
  {
    var n, cmd := queue[0], w.ledger.commands[queue[0]];
    if |w.pending| >= MAX_PENDING_OPS then
      var (w1, more) := Call(c, w, n, FailureCallback(cmd, STATUS_UNSUCCESSFUL));
      (w1.(ledger := Submit(w1.ledger, more)), queue[1..] + Serials(|w1.ledger.commands|, |more|))
    else (Issue(w, n, cmd), queue[1..])
  }

  ghost predicate QueueOk<S>(w: World<S>, queue: seq<nat>) {
    forall i :: 0 <= i < |queue| ==> queue[i] < |w.ledger.commands|
  }

  /** encode_commands: drains the queue, ending because failures cannot breed follow-ups for ever. */
  ghost function Drain<S(!new)>(c: Consumer<S>, w: World<S>, queue: seq<nat>): World<S>
    requires Tame(c) && QueueOk(w, queue)
    decreases c.weight(w.consumer), |queue|
  {
    if queue == [] then w
    else
      var (w', queue') := QueueStep(c, w, queue);
      Drain(c, w', queue')
  }

  ghost function Encode<S(!new)>(c: Consumer<S>, w: World<S>, cmds: seq<Command>): World<S>
    requires Tame(c)
  {
    Drain(c, w.(ledger := Submit(w.ledger, cmds)), Serials(|w.ledger.commands|, |cmds|))
  }

  // ------------------------------------------------------------------
  // Messages from the client
  // ------------------------------------------------------------------

  /** Takes a pending request off the table and records what became of its command. */
  function Settle<S>(w: World<S>, id: u32, fate: Fate): World<S>
    requires id in w.ledger.owner
  {
    var l := w.ledger;
    w.(pending := w.pending - {id},
       ledger := l.(owner := l.owner - {id}, fates := SetFate(l.fates, l.owner[id], fate)))
  }

  /** Settles a pending request by answering it. */
  function Complete<S>(c: Consumer<S>, w: World<S>, id: u32, cb: Callback): (World<S>, seq<Command>)
    requires id in w.ledger.owner
  {
    var r := c.onReply(w.consumer, cb);
    var v := Settle(w, id, Answered(|w.ledger.calls|, true));
    (v.(consumer := r.0, ledger := v.ledger.(calls := w.ledger.calls + [(w.ledger.owner[id], cb)])), r.1)
  }

  datatype Message =
    | DeviceListAnnounce(announced: seq<(u32, bv32)>)
    | DeviceListRemove(ids: seq<u32>, order: seq<u32>)  // `order`: in which order the table yields the stale requests
    | DeviceIoCompletion(device: u32, id: u32, status: u32, body: seq<byte>)
    | FlushPendingCommands
    | OtherMessage

  /** The pending requests of the devices being removed. */
  ghost predicate Stale<S>(w: World<S>, ids: seq<u32>, id: u32) {
    id in w.pending && w.pending[id].device in ids
  }

  ghost predicate Listing<S>(w: World<S>, ids: seq<u32>, order: seq<u32>) {
    && (forall i, j :: 0 <= i < j < |order| ==> order[i] != order[j])
    && forall id: u32 :: id in order <==> Stale(w, ids, id)
  }

  /** A request and its owner are recorded together. */
  ghost predicate Owned<S>(w: World<S>) {
    w.ledger.owner.Keys == w.pending.Keys
  }

  /** The consumer's reaction to the completion of a pending request, and the commands it asks for. */
  function AnswerOne<S>(c: Consumer<S>, w: World<S>, id: u32, status: u32, body: seq<byte>): (World<S>, seq<Command>) {
    if id !in w.pending || id !in w.ledger.owner then (w, [])
    else
      match CompletionCallback(w.pending[id], status, body)
      case None => (Settle(w, id, Mismatched(id, w.pending[id].device)), [])
      case Some(cb) => Complete(c, w, id, cb)
  }

  function CompleteOne<S>(c: Consumer<S>, w: World<S>, device: u32, id: u32, status: u32, body: seq<byte>): (World<S>, seq<Command>) {
    if id in w.pending && id in w.ledger.owner && w.pending[id].device != device
    then (Settle(w, id, Mismatched(id, device)), [])
    else AnswerOne(c, w, id, status, body)
  }

  predicate Supports(supported: bv32, deviceType: bv32) {
    supported & deviceType != 0
  }

  predicate AtCapacity(devices: map<u32, bv32>, id: u32) {
    id !in devices && |devices| >= MAX_DEVICES
  }

  /** One announced device: replied to, and if accepted offered to the consumer. */
  function AcceptOne<S>(c: Consumer<S>, w: World<S>, id: u32, deviceType: bv32): (World<S>, seq<Command>) {
    if Supports(w.supported, deviceType) && !AtCapacity(w.devices, id) then
      var r := c.onReady(w.consumer, id, deviceType);
      (w.(devices := w.devices[id := deviceType], consumer := r.0, ledger := PostReply(w.ledger, id, STATUS_SUCCESS)), r.1)
    else (w.(ledger := PostReply(w.ledger, id, STATUS_UNSUCCESSFUL)), [])
  }

  ghost function AnswerAll<S(!new)>(c: Consumer<S>, w: World<S>, order: seq<u32>): World<S>
    requires Tame(c)
    decreases |order|
  {
    if order == [] then w
    else AnswerAll(c, AnswerStale(c, w, order[0]), order[1..])
  }

  ghost function AnswerStale<S(!new)>(c: Consumer<S>, w: World<S>, id: u32): World<S>
    requires Tame(c)
  {
    var r := AnswerOne(c, w, id, STATUS_UNSUCCESSFUL, []);
    Encode(c, r.0, r.1)
  }

  ghost function CompleteIo<S(!new)>(c: Consumer<S>, w: World<S>, device: u32, id: u32, status: u32, body: seq<byte>): World<S>
    requires Tame(c)
  {
    var r := CompleteOne(c, w, device, id, status, body);
    Encode(c, r.0, r.1)
  }

  ghost function Announce<S(!new)>(c: Consumer<S>, w: World<S>, announced: seq<(u32, bv32)>): World<S>
    requires Tame(c)
    decreases |announced|
  {
    if announced == [] then w
    else Announce(c, AnnounceOne(c, w, announced[0].0, announced[0].1), announced[1..])
  }

  ghost function AnnounceOne<S(!new)>(c: Consumer<S>, w: World<S>, id: u32, deviceType: bv32): World<S>
    requires Tame(c)
  {
    var r := AcceptOne(c, w, id, deviceType);
    Encode(c, r.0, r.1)
  }

  function Unplug<S>(w: World<S>, ids: seq<u32>): World<S> {
    w.(devices := w.devices - (set i | i in ids))
  }

  function Polled<S>(c: Consumer<S>, w: World<S>): (World<S>, seq<Command>) {
    var r := c.poll(w.consumer);
    (w.(consumer := r.0), r.1)
  }

  /** A whole message, for a consumer whose follow-ups come to an end. */
  ghost function Handle<S(!new)>(c: Consumer<S>, w: World<S>, m: Message): World<S>
    requires Tame(c)
  {
    match m
    case DeviceListAnnounce(announced) => Announce(c, w, announced)
    case DeviceListRemove(ids, order) => AnswerAll(c, Unplug(w, ids), order)
    case DeviceIoCompletion(device, id, status, body) => CompleteIo(c, w, device, id, status, body)
    case FlushPendingCommands =>
      var r := Polled(c, w);
      Encode(c, r.0, r.1)
    case OtherMessage => w
  }

  function New<S>(supported: bv32, consumer: S): World<S> {
    World(supported, map[], 0, map[], consumer, Ledger([], [], map[], [], 0, [], [], []))
  }

  // ------------------------------------------------------------------
  // Runs, a turn at a time, for every consumer
  // ------------------------------------------------------------------

  /** The channel in the midst of a message: the commands queued, the devices and the stale requests still to see. */
  datatype Work<S> = Work(world: World<S>, queue: seq<nat>, announced: seq<(u32, bv32)>, stale: seq<u32>)

  predicate Idle<S>(k: Work<S>) {
    k.queue == [] && k.announced == [] && k.stale == []
  }

  function Enqueue<S>(k: Work<S>, r: (World<S>, seq<Command>)): Work<S> {
    k.(world := r.0.(ledger := Submit(r.0.ledger, r.1)), queue := Serials(|r.0.ledger.commands|, |r.1|))
  }

  /** The next piece of work: a turn of the queue, else the next device or stale request of the message. */
  function Advance<S>(c: Consumer<S>, k: Work<S>): Work<S> {
    if k.queue != [] then
      if k.queue[0] < |k.world.ledger.commands| then
        var (w, queue) := QueueStep(c, k.world, k.queue);
        k.(world := w, queue := queue)
      else k
    else if k.announced != [] then
      Enqueue(k.(announced := k.announced[1..]), AcceptOne(c, k.world, k.announced[0].0, k.announced[0].1))
    else if k.stale != [] then
      Enqueue(k.(stale := k.stale[1..]), AnswerOne(c, k.world, k.stale[0], STATUS_UNSUCCESSFUL, []))
    else k
  }

  /** A message arrives; the channel takes it only once it is done with the one before. */
  function Arrive<S>(c: Consumer<S>, k: Work<S>, m: Message): Work<S> {
    if !Idle(k) then k
    else
      match m
      case DeviceListAnnounce(announced) => k.(announced := announced)
      case DeviceListRemove(ids, order) => k.(world := Unplug(k.world, ids), stale := order)
      case DeviceIoCompletion(device, id, status, body) => Enqueue(k, CompleteOne(c, k.world, device, id, status, body))
      case FlushPendingCommands => Enqueue(k, Polled(c, k.world))
      case OtherMessage => k
  }

  datatype Event = Arrives(message: Message) | Continues

  function Next<S>(c: Consumer<S>, k: Work<S>, e: Event): Work<S> {
    match e
    case Arrives(m) => Arrive(c, k, m)
    case Continues => Advance(c, k)
  }

  function Run<S>(c: Consumer<S>, supported: bv32, consumer: S, events: seq<Event>): Work<S>
    decreases |events|
  {
    if events == [] then Work(New(supported, consumer), [], [], [])
    else Next(c, Run(c, supported, consumer, events[..|events| - 1]), events[|events| - 1])
  }

  // ------------------------------------------------------------------
  // The books balance
  // ------------------------------------------------------------------

  function OpOf(cmd: Command): PendingOp {
    PendingOp(cmd.device, Major(cmd.kind), cmd.tag)
  }

  /** The table and the fates agree: a request is on the table exactly while its command's fate says so. */
  ghost predicate TableOk<S>(w: World<S>) {
    var l := w.ledger;
    && |l.fates| == |l.commands|
    && Owned(w)
    && (forall id {:trigger l.owner[id]} :: id in w.pending ==>
          l.owner[id] < |l.fates| && l.fates[l.owner[id]] == Pending(id) && w.pending[id] == OpOf(l.commands[l.owner[id]]))
    && (forall n :: 0 <= n < |l.fates| && l.fates[n].Pending? ==>
          l.fates[n].id in l.owner && l.owner[l.fates[n].id] == n)
  }

  /** The calls and the fates agree: each call answered one command, of its own kind and tag, once. */
  ghost predicate CallsOk(l: Ledger) {
    && |l.fates| == |l.commands|
    && (forall k :: 0 <= k < |l.calls| ==>
          && l.calls[k].0 < |l.fates| && l.fates[l.calls[k].0].Answered? && l.fates[l.calls[k].0].call == k
          && KindOf(l.calls[k].1) == l.commands[l.calls[k].0].kind && l.calls[k].1.tag == l.commands[l.calls[k].0].tag)
    && (forall n :: 0 <= n < |l.fates| && l.fates[n].Answered? ==>
          l.fates[n].call < |l.calls| && l.calls[l.fates[n].call].0 == n)
  }

  /** Exactly the commands in the work queue are undecided. */
  ghost predicate QueuedOk(l: Ledger, queue: seq<nat>) {
    && (forall i :: 0 <= i < |queue| ==> queue[i] < |l.fates| && l.fates[queue[i]].Queued?)
    && (forall i, j :: 0 <= i < j < |queue| ==> queue[i] != queue[j])
    && (forall n :: 0 <= n < |l.fates| && l.fates[n].Queued? ==> n in queue)
  }

  /** Ids count up from 0 modulo 2^32; until they wrap, a new id is never on the table. */
  ghost predicate IdsOk<S>(w: World<S>) {
    && w.nextId == w.ledger.issued % 0x1_0000_0000
    && (w.ledger.issued <= 0x1_0000_0000 ==>
          && (forall id :: id in w.pending ==> id < w.ledger.issued)
          && Overwritten !in w.ledger.fates)
  }

  ghost predicate CapsOk<S>(w: World<S>) {
    |w.pending| <= MAX_PENDING_OPS && |w.devices| <= MAX_DEVICES
  }

  /** Fates of commands whose request went out. */
  predicate WasSent(f: Fate) {
    f.Pending? || f.Mismatched? || f.Overwritten? || (f.Answered? && f.issued)
  }

  predicate UnderId(f: Fate, id: u32) {
    (f.Pending? ==> f.id == id) && (f.Mismatched? ==> f.id == id)
  }

  /** The request of command `n` is at its place, and nowhere else. */
  ghost predicate PlaceOk(l: Ledger, n: nat)
    requires n < |l.fates| && n < |l.commands| && n < |l.places|
  {
    && (WasSent(l.fates[n]) <==> l.places[n].Some?)
    && (l.places[n].Some? ==>
          var k := l.places[n].value;
          && k < |l.wire| && k < |l.serials| && l.wire[k].Io? && l.serials[k] == n
          && l.wire[k].request == RequestOf(l.commands[n], l.wire[k].request.id)
          && UnderId(l.fates[n], l.wire[k].request.id))
  }

  /** The packets and the fates agree: each request is that of one command, sent once, under the id it waits for. */
  ghost predicate WireOk(l: Ledger) {
    && |l.fates| == |l.commands| == |l.places| && |l.serials| == |l.wire|
    && (forall k :: 0 <= k < |l.wire| && l.wire[k].Io? ==> l.serials[k] < |l.places| && l.places[l.serials[k]] == Some(k))
    && (forall n :: 0 <= n < |l.places| ==> PlaceOk(l, n))
  }

  ghost predicate Booked<S>(w: World<S>, queue: seq<nat>) {
    TableOk(w) && CallsOk(w.ledger) && QueuedOk(w.ledger, queue) && IdsOk(w) && CapsOk(w) && WireOk(w.ledger)
  }

  lemma SubmitWire(l: Ledger, cmds: seq<Command>)
    requires WireOk(l)
    ensures WireOk(Submit(l, cmds))
  {
    var l' := Submit(l, cmds);
    forall n | 0 <= n < |l'.places| ensures PlaceOk(l', n) {
      if n < |l.places| {
        assert PlaceOk(l, n);
      }
    }
  }

  /** A command answered without being issued. */
  lemma FailWire<S>(c: Consumer<S>, w: World<S>, n: nat, cb: Callback)
    requires WireOk(w.ledger) && n < |w.ledger.fates| && w.ledger.fates[n].Queued?
    ensures WireOk(Call(c, w, n, cb).0.ledger)
  {
    var l, l' := w.ledger, Call(c, w, n, cb).0.ledger;
    forall m | 0 <= m < |l'.places| ensures PlaceOk(l', m) {
      assert PlaceOk(l, m);
    }
  }

  lemma IssueWire<S>(w: World<S>, n: nat)
    requires TableOk(w) && WireOk(w.ledger) && n < |w.ledger.fates| && w.ledger.fates[n].Queued?
    ensures WireOk(Issue(w, n, w.ledger.commands[n]).ledger)
  {
    IssueFates(w, n);
    var l, l' := w.ledger, Issue(w, n, w.ledger.commands[n]).ledger;
    assert PlaceOk(l, n);
    forall m | 0 <= m < |l'.places| ensures PlaceOk(l', m) {
      assert PlaceOk(l, m);
    }
    forall k | 0 <= k < |l'.wire| && l'.wire[k].Io? ensures l'.serials[k] < |l'.places| && l'.places[l'.serials[k]] == Some(k) {
      if k < |l.wire| {
        assert l.places[l.serials[k]] == Some(k);
      }
    }
  }

  lemma SettleWire<S>(w: World<S>, id: u32, fate: Fate)
    requires TableOk(w) && WireOk(w.ledger) && id in w.pending && WasSent(fate) && UnderId(fate, id)
    ensures WireOk(Settle(w, id, fate).ledger)
  {
    var l, l' := w.ledger, Settle(w, id, fate).ledger;
    assert l.fates[l.owner[id]] == Pending(id);
    forall m | 0 <= m < |l'.places| ensures PlaceOk(l', m) {
      assert PlaceOk(l, m);
    }
  }

  lemma ReplyWire(l: Ledger, device: u32, status: u32)
    requires WireOk(l)
    ensures WireOk(PostReply(l, device, status))
  {
    var l' := PostReply(l, device, status);
    forall m | 0 <= m < |l'.places| ensures PlaceOk(l', m) {
      assert PlaceOk(l, m);
    }
  }

  lemma SubmitTable<S>(w: World<S>, cmds: seq<Command>)
    requires TableOk(w) && CallsOk(w.ledger)
    ensures TableOk(w.(ledger := Submit(w.ledger, cmds)))
  {
    hide CallsOk;
    var w' := w.(ledger := Submit(w.ledger, cmds));
    forall id {:trigger w'.ledger.owner[id]} | id in w'.pending
      ensures w'.ledger.owner[id] < |w'.ledger.fates| && w'.ledger.fates[w'.ledger.owner[id]] == Pending(id)
      ensures w'.pending[id] == OpOf(w'.ledger.commands[w'.ledger.owner[id]])
    {
      assert w.ledger.fates[w.ledger.owner[id]] == Pending(id);
    }
  }

  lemma SubmitCalls(l: Ledger, cmds: seq<Command>)
    requires CallsOk(l)
    ensures CallsOk(Submit(l, cmds))
  {
  }

  lemma SubmitQueue(l: Ledger, queue: seq<nat>, cmds: seq<Command>)
    requires |l.fates| == |l.commands| && QueuedOk(l, queue)
    ensures QueuedOk(Submit(l, cmds), queue + Serials(|l.commands|, |cmds|))
  {
    var l' := Submit(l, cmds);
    var queue' := queue + Serials(|l.commands|, |cmds|);
    forall n | 0 <= n < |l'.fates| && l'.fates[n].Queued? ensures n in queue' {
      if n >= |l.fates| {
        assert queue'[|queue| + n - |l.fates|] == n;
      } else {
        assert l.fates[n].Queued?;
      }
    }
  }

  lemma SubmitKeeps<S>(w: World<S>, queue: seq<nat>, cmds: seq<Command>)
    requires Booked(w, queue)
    ensures Booked(w.(ledger := Submit(w.ledger, cmds)), queue + Serials(|w.ledger.commands|, |cmds|))
  {
    SameLengths(w);
    hide TableOk, CallsOk, QueuedOk, WireOk;
    SubmitTable(w, cmds);
    SubmitCalls(w.ledger, cmds);
    SubmitQueue(w.ledger, queue, cmds);
    SubmitWire(w.ledger, cmds);
  }

  lemma SameLengths<S>(w: World<S>)
    requires TableOk(w)
    ensures |w.ledger.fates| == |w.ledger.commands|
  {
  }

  /** Answering a command that is still queued. */
  lemma FailTable<S>(c: Consumer<S>, w: World<S>, n: nat, cb: Callback)
    requires TableOk(w) && n < |w.ledger.fates| && w.ledger.fates[n].Queued?
    ensures TableOk(Call(c, w, n, cb).0)
  {
    var w' := Call(c, w, n, cb).0;
    forall id {:trigger w'.ledger.owner[id]} | id in w'.pending
      ensures w'.ledger.owner[id] < |w'.ledger.fates| && w'.ledger.fates[w'.ledger.owner[id]] == Pending(id)
    {
      assert w.ledger.fates[w.ledger.owner[id]] == Pending(id);
    }
  }

  lemma FailCalls<S>(c: Consumer<S>, w: World<S>, n: nat, cb: Callback)
    requires CallsOk(w.ledger) && n < |w.ledger.fates| && w.ledger.fates[n].Queued?
    requires KindOf(cb) == w.ledger.commands[n].kind && cb.tag == w.ledger.commands[n].tag
    ensures CallsOk(Call(c, w, n, cb).0.ledger)
  {
    hide KindOf;
  }

  lemma FailQueue<S>(c: Consumer<S>, w: World<S>, queue: seq<nat>, cb: Callback)
    requires QueuedOk(w.ledger, queue) && queue != [] && |w.ledger.fates| == |w.ledger.commands|
    ensures QueuedOk(Call(c, w, queue[0], cb).0.ledger, queue[1..])
  {
    var l, l' := w.ledger, Call(c, w, queue[0], cb).0.ledger;
    forall n | 0 <= n < |l'.fates| && l'.fates[n].Queued? ensures n in queue[1..] {
      assert l.fates[n].Queued? && n in queue && n != queue[0];
    }
  }

  lemma FailKeeps<S>(c: Consumer<S>, w: World<S>, queue: seq<nat>, cb: Callback)
    requires Booked(w, queue) && queue != []
    requires KindOf(cb) == w.ledger.commands[queue[0]].kind && cb.tag == w.ledger.commands[queue[0]].tag
    ensures Booked(Call(c, w, queue[0], cb).0, queue[1..])
  {
    SameLengths(w);
    hide TableOk, CallsOk, KindOf, WireOk;
    FailTable(c, w, queue[0], cb);
    FailCalls(c, w, queue[0], cb);
    FailQueue(c, w, queue, cb);
    FailWire(c, w, queue[0], cb);
    hide QueuedOk;
  }

  /** The fates after issuing command `n`: it is pending, and whoever held the id before has lost it. */
  lemma IssueFates<S>(w: World<S>, n: nat)
    requires TableOk(w) && n < |w.ledger.fates| && !w.ledger.fates[n].Pending?
    ensures var l, l' := w.ledger, Issue(w, n, w.ledger.commands[n]).ledger;
            && |l'.fates| == |l.fates| && l'.fates[n] == Pending(w.nextId)
            && (forall m :: 0 <= m < |l.fates| && m != n ==>
                  l'.fates[m] == if l.fates[m] == Pending(w.nextId) then Overwritten else l.fates[m])
  {
    if w.nextId in w.pending {
      assert w.ledger.fates[w.ledger.owner[w.nextId]] == Pending(w.nextId);
    }
  }

  lemma IssueTable<S>(w: World<S>, n: nat)
    requires TableOk(w) && n < |w.ledger.fates| && w.ledger.fates[n].Queued?
    ensures TableOk(Issue(w, n, w.ledger.commands[n]))
  {
    IssueFates(w, n);
    var w' := Issue(w, n, w.ledger.commands[n]);
    var l, l' := w.ledger, w'.ledger;
    forall id {:trigger l'.owner[id]} | id in w'.pending
      ensures l'.owner[id] < |l'.fates| && l'.fates[l'.owner[id]] == Pending(id)
      ensures w'.pending[id] == OpOf(l'.commands[l'.owner[id]])
    {
      if id != w.nextId {
        assert l'.owner[id] == l.owner[id] && l.fates[l.owner[id]] == Pending(id);
      }
    }
    assert l'.owner.Keys == w'.pending.Keys;
    forall m | 0 <= m < |l'.fates| && l'.fates[m].Pending?
      ensures l'.fates[m].id in l'.owner && l'.owner[l'.fates[m].id] == m
    {
      if m != n {
        assert l.fates[m] == l'.fates[m];
      }
    }
  }

  lemma IssueCalls<S>(w: World<S>, n: nat)
    requires TableOk(w) && CallsOk(w.ledger) && n < |w.ledger.fates| && w.ledger.fates[n].Queued?
    ensures CallsOk(Issue(w, n, w.ledger.commands[n]).ledger)
  {
    IssueFates(w, n);
    var l, l' := w.ledger, Issue(w, n, w.ledger.commands[n]).ledger;
    forall m | 0 <= m < |l.fates| ensures l'.fates[m].Answered? ==> l'.fates[m] == l.fates[m] {
    }
  }

  lemma IssueQueue<S>(w: World<S>, queue: seq<nat>)
    requires TableOk(w) && QueuedOk(w.ledger, queue) && queue != []
    ensures QueuedOk(Issue(w, queue[0], w.ledger.commands[queue[0]]).ledger, queue[1..])
  {
    hide Issue;
    IssueFates(w, queue[0]);
    var l' := Issue(w, queue[0], w.ledger.commands[queue[0]]).ledger;
    forall n | 0 <= n < |l'.fates| && l'.fates[n].Queued? ensures n in queue[1..] {
      assert n in queue && n != queue[0];
    }
  }

  lemma IssueIds<S>(w: World<S>, n: nat)
    requires TableOk(w) && IdsOk(w) && n < |w.ledger.fates| && w.ledger.fates[n].Queued?
    ensures IdsOk(Issue(w, n, w.ledger.commands[n]))
  {
    var w' := Issue(w, n, w.ledger.commands[n]);
    if w'.ledger.issued <= 0x1_0000_0000 {
      assert w.nextId == w.ledger.issued && w.nextId !in w.pending;
    }
  }

  lemma IssueKeeps<S>(w: World<S>, queue: seq<nat>)
    requires Booked(w, queue) && queue != [] && |w.pending| < MAX_PENDING_OPS
    ensures Booked(Issue(w, queue[0], w.ledger.commands[queue[0]]), queue[1..])
  {
    hide TableOk, CallsOk, IdsOk, WireOk;
    IssueTable(w, queue[0]);
    IssueCalls(w, queue[0]);
    IssueQueue(w, queue);
    IssueIds(w, queue[0]);
    IssueWire(w, queue[0]);
    IssueCaps(w, queue[0], w.ledger.commands[queue[0]]);
    hide QueuedOk, Issue, CapsOk;
  }

  lemma IssueCaps<S>(w: World<S>, n: nat, cmd: Command)
    requires CapsOk(w) && |w.pending| < MAX_PENDING_OPS
    ensures CapsOk(Issue(w, n, cmd))
  {
    assert Issue(w, n, cmd).pending.Keys == w.pending.Keys + {w.nextId};
  }

  lemma QueueStepKeeps<S>(c: Consumer<S>, w: World<S>, queue: seq<nat>)
    requires Booked(w, queue) && queue != []
    ensures QueueOk(w, queue)
    ensures var r := QueueStep(c, w, queue); Booked(r.0, r.1) && QueueOk(r.0, r.1)
  {
    var n, cmd := queue[0], w.ledger.commands[queue[0]];
    if |w.pending| >= MAX_PENDING_OPS {
      CallbacksMatch(cmd, OpOf(cmd), STATUS_UNSUCCESSFUL, []);
      var cb := FailureCallback(cmd, STATUS_UNSUCCESSFUL);
      FailKeeps(c, w, queue, cb);
      var (w1, more) := Call(c, w, n, cb);
      SubmitKeeps(w1, queue[1..], more);
    } else {
      IssueKeeps(w, queue);
    }
  }

  /** Nothing recorded is ever unrecorded: the history only grows and a settled command stays settled. */
  ghost predicate Remembers(l: Ledger, l': Ledger) {
    && l.commands <= l'.commands && l.calls <= l'.calls && l.issued <= l'.issued && |l.fates| <= |l'.fates| && l.wire <= l'.wire
    && (forall n :: 0 <= n < |l.fates| && (l.fates[n].Answered? || l.fates[n].Mismatched?) ==> l'.fates[n] == l.fates[n])
  }

  /** Beyond that, issuing commands leaves every earlier request on the table while ids have not wrapped. */
  ghost predicate Extends<S>(w: World<S>, w': World<S>) {
    var l, l' := w.ledger, w'.ledger;
    && Remembers(l, l')
    && (l'.issued <= 0x1_0000_0000 ==>
          forall n :: 0 <= n < |l.fates| && l.fates[n].Pending? ==> l'.fates[n] == l.fates[n])
  }

  lemma ExtendsTransitive<S>(a: World<S>, b: World<S>, c: World<S>)
    requires Extends(a, b) && Extends(b, c)
    ensures Extends(a, c)
  {
  }

  lemma IssueExtends<S>(w: World<S>, n: nat)
    requires TableOk(w) && IdsOk(w) && n < |w.ledger.fates| && w.ledger.fates[n].Queued?
    ensures Extends(w, Issue(w, n, w.ledger.commands[n]))
  {
    IssueFates(w, n);
    var l, l' := w.ledger, Issue(w, n, w.ledger.commands[n]).ledger;
    if l'.issued <= 0x1_0000_0000 {
      assert w.nextId == l.issued && w.nextId !in w.pending;
    }
  }

  /** A command failed at the cap, and its follow-ups queued. */
  lemma FailExtends<S>(c: Consumer<S>, w: World<S>, n: nat, cb: Callback)
    requires n < |w.ledger.fates| && w.ledger.fates[n].Queued?
    ensures var r := Call(c, w, n, cb);
            Extends(w, r.0.(ledger := Submit(r.0.ledger, r.1))) && Grows(w.ledger, Submit(r.0.ledger, r.1))
  {
  }

  lemma QueueStepExtends<S>(c: Consumer<S>, w: World<S>, queue: seq<nat>)
    requires Booked(w, queue) && queue != []
    ensures QueueOk(w, queue) && Extends(w, QueueStep(c, w, queue).0)
  {
    hide CallsOk, FailureCallback, WireOk, Extends, Issue, Call, Submit;
    if |w.pending| < MAX_PENDING_OPS {
      IssueExtends(w, queue[0]);
    } else {
      FailExtends(c, w, queue[0], FailureCallback(w.ledger.commands[queue[0]], STATUS_UNSUCCESSFUL));
    }
  }

  lemma {:induction false} DrainKeeps<S(!new)>(c: Consumer<S>, w: World<S>, queue: seq<nat>)
    requires Tame(c) && Booked(w, queue)
    ensures QueueOk(w, queue)
    ensures Booked(Drain(c, w, queue), []) && Extends(w, Drain(c, w, queue))
    decreases c.weight(w.consumer), |queue|
  {
    if queue != [] {
      QueueStepKeeps(c, w, queue);
      QueueStepExtends(c, w, queue);
      var (w', queue') := QueueStep(c, w, queue);
      hide Booked, Extends;
      DrainKeeps(c, w', queue');
      ExtendsTransitive(w, w', Drain(c, w', queue'));
    }
  }

  lemma SubmitExtends<S>(w: World<S>, cmds: seq<Command>)
    ensures Extends(w, w.(ledger := Submit(w.ledger, cmds)))
  {
  }

  lemma EncodeKeeps<S(!new)>(c: Consumer<S>, w: World<S>, cmds: seq<Command>)
    requires Tame(c) && Booked(w, [])
    ensures Booked(Encode(c, w, cmds), []) && Extends(w, Encode(c, w, cmds))
  {
    var w1 := w.(ledger := Submit(w.ledger, cmds));
    var queue := Serials(|w.ledger.commands|, |cmds|);
    hide Booked, Extends;
    SubmitKeeps(w, [], cmds);
    assert [] + queue == queue;
    SubmitExtends(w, cmds);
    DrainKeeps(c, w1, queue);
    ExtendsTransitive(w, w1, Drain(c, w1, queue));
  }

  // ------------------------------------------------------------------
  // Every message keeps the books
  // ------------------------------------------------------------------

  lemma SettleTable<S>(w: World<S>, id: u32, fate: Fate)
    requires TableOk(w) && id in w.pending && !fate.Pending?
    ensures TableOk(Settle(w, id, fate))
  {
    var l := w.ledger;
    assert l.fates[l.owner[id]] == Pending(id);
    var w' := Settle(w, id, fate);
    forall i {:trigger w'.ledger.owner[i]} | i in w'.pending
      ensures w'.ledger.owner[i] < |w'.ledger.fates| && w'.ledger.fates[w'.ledger.owner[i]] == Pending(i)
      ensures w'.pending[i] == OpOf(l.commands[w'.ledger.owner[i]])
    {
      assert l.fates[l.owner[i]] == Pending(i);
    }
    assert w'.ledger.owner.Keys == w'.pending.Keys;
  }

  lemma SettleRest<S>(w: World<S>, id: u32, fate: Fate)
    requires TableOk(w) && IdsOk(w) && CapsOk(w) && QueuedOk(w.ledger, [])
    requires id in w.pending && !fate.Queued? && fate != Overwritten
    ensures IdsOk(Settle(w, id, fate)) && CapsOk(Settle(w, id, fate)) && QueuedOk(Settle(w, id, fate).ledger, [])
  {
    assert w.ledger.fates[w.ledger.owner[id]] == Pending(id);
    assert (w.pending - {id}).Keys == w.pending.Keys - {id};
  }

  lemma SettleCalls<S>(w: World<S>, id: u32, fate: Fate)
    requires TableOk(w) && CallsOk(w.ledger) && id in w.pending && !fate.Answered?
    ensures CallsOk(Settle(w, id, fate).ledger)
  {
    assert w.ledger.fates[w.ledger.owner[id]] == Pending(id);
  }

  lemma CompleteCalls<S>(c: Consumer<S>, w: World<S>, id: u32, cb: Callback)
    requires TableOk(w) && CallsOk(w.ledger) && id in w.pending
    requires var cmd := w.ledger.commands[w.ledger.owner[id]]; KindOf(cb) == cmd.kind && cb.tag == cmd.tag
    ensures CallsOk(Complete(c, w, id, cb).0.ledger)
  {
    assert w.ledger.fates[w.ledger.owner[id]] == Pending(id);
  }

  lemma CompleteOthers<S>(c: Consumer<S>, w: World<S>, id: u32, cb: Callback)
    requires id in w.ledger.owner
    ensures var v, w' := Settle(w, id, Answered(|w.ledger.calls|, true)), Complete(c, w, id, cb).0;
            && (TableOk(v) && IdsOk(v) && CapsOk(v) && QueuedOk(v.ledger, [])
                ==> TableOk(w') && IdsOk(w') && CapsOk(w') && QueuedOk(w'.ledger, []))
  {
  }

  lemma CompleteWire<S>(c: Consumer<S>, w: World<S>, id: u32, cb: Callback)
    requires TableOk(w) && WireOk(w.ledger) && id in w.pending
    ensures WireOk(Complete(c, w, id, cb).0.ledger)
  {
    SettleWire(w, id, Answered(|w.ledger.calls|, true));
    var l, l' := Settle(w, id, Answered(|w.ledger.calls|, true)).ledger, Complete(c, w, id, cb).0.ledger;
    forall m | 0 <= m < |l'.places| ensures PlaceOk(l', m) {
      assert PlaceOk(l, m);
    }
  }

  lemma CompleteKeeps<S>(c: Consumer<S>, w: World<S>, id: u32, cb: Callback)
    requires Booked(w, []) && id in w.pending
    requires var cmd := w.ledger.commands[w.ledger.owner[id]]; KindOf(cb) == cmd.kind && cb.tag == cmd.tag
    ensures Booked(Complete(c, w, id, cb).0, [])
  {
    hide WireOk;
    SettleTable(w, id, Answered(|w.ledger.calls|, true));
    SettleRest(w, id, Answered(|w.ledger.calls|, true));
    CompleteCalls(c, w, id, cb);
    CompleteOthers(c, w, id, cb);
    CompleteWire(c, w, id, cb);
  }

  lemma DiscardKeeps<S>(w: World<S>, id: u32, device: u32)
    requires Booked(w, []) && id in w.pending
    ensures Booked(Settle(w, id, Mismatched(id, device)), [])
  {
    hide WireOk;
    SettleTable(w, id, Mismatched(id, device));
    SettleRest(w, id, Mismatched(id, device));
    SettleCalls(w, id, Mismatched(id, device));
    SettleWire(w, id, Mismatched(id, device));
  }

  /** A request on the table is answered by a callback of its own kind and tag. */
  lemma OnTable<S>(w: World<S>, id: u32, status: u32, body: seq<byte>)
    requires Booked(w, []) && id in w.pending
    ensures id in w.ledger.owner && w.ledger.owner[id] < |w.ledger.commands|
    ensures var cmd, cb := w.ledger.commands[w.ledger.owner[id]], CompletionCallback(w.pending[id], status, body);
            && w.pending[id] == OpOf(cmd)
            && cb.Some? && KindOf(cb.value) == cmd.kind && cb.value.tag == cmd.tag
            && (status == STATUS_UNSUCCESSFUL && body == [] ==> Reports(cb.value, STATUS_UNSUCCESSFUL))
  {
    var n := w.ledger.owner[id];
    assert w.ledger.fates[n] == Pending(id);
    CallbacksMatch(w.ledger.commands[n], w.pending[id], status, body);
  }

  lemma AnswerOneKeeps<S>(c: Consumer<S>, w: World<S>, id: u32, status: u32, body: seq<byte>)
    requires Booked(w, [])
    ensures Booked(AnswerOne(c, w, id, status, body).0, [])
    ensures id in w.pending ==>
              var cb := CompletionCallback(w.pending[id], status, body);
              cb.Some? && id in w.ledger.owner && AnswerOne(c, w, id, status, body) == Complete(c, w, id, cb.value)
  {
    hide CompletionCallback, Complete, KindOf, Reports, Booked;
    if id in w.pending {
      OnTable(w, id, status, body);
      CompleteKeeps(c, w, id, CompletionCallback(w.pending[id], status, body).value);
    }
  }

  lemma CompleteOneKeeps<S>(c: Consumer<S>, w: World<S>, device: u32, id: u32, status: u32, body: seq<byte>)
    requires Booked(w, [])
    ensures Booked(CompleteOne(c, w, device, id, status, body).0, [])
  {
    hide AnswerOne, Booked;
    if id in w.pending && id in w.ledger.owner && w.pending[id].device != device {
      DiscardKeeps(w, id, device);
    } else {
      AnswerOneKeeps(c, w, id, status, body);
    }
  }

  lemma DevicesKeep<S>(w: World<S>, devices: map<u32, bv32>, consumer: S)
    requires Booked(w, []) && |devices| <= MAX_DEVICES
    ensures Booked(w.(devices := devices, consumer := consumer), [])
  {
  }

  lemma ReplyKeeps<S>(w: World<S>, device: u32, status: u32)
    requires Booked(w, [])
    ensures Booked(w.(ledger := PostReply(w.ledger, device, status)), [])
  {
    hide WireOk;
    ReplyWire(w.ledger, device, status);
  }

  lemma DevicesGrow(devices: map<u32, bv32>, id: u32, deviceType: bv32)
    requires |devices| <= MAX_DEVICES && (id in devices || |devices| < MAX_DEVICES)
    ensures |devices[id := deviceType]| <= MAX_DEVICES
  {
    assert devices[id := deviceType].Keys == devices.Keys + {id};
  }

  lemma AcceptOneKeeps<S>(c: Consumer<S>, w: World<S>, id: u32, deviceType: bv32)
    requires Booked(w, [])
    ensures Booked(AcceptOne(c, w, id, deviceType).0, [])
  {
    DevicesFit(w);
    hide Booked, PostReply, Supports;
    if Supports(w.supported, deviceType) && !AtCapacity(w.devices, id) {
      DevicesGrow(w.devices, id, deviceType);
      var w1 := w.(devices := w.devices[id := deviceType], consumer := c.onReady(w.consumer, id, deviceType).0);
      DevicesKeep(w, w1.devices, w1.consumer);
      ReplyKeeps(w1, id, STATUS_SUCCESS);
    } else {
      ReplyKeeps(w, id, STATUS_UNSUCCESSFUL);
    }
  }

  lemma UnplugKeeps<S>(w: World<S>, ids: seq<u32>)
    requires Booked(w, [])
    ensures Booked(Unplug(w, ids), [])
  {
    var left := w.devices - (set i | i in ids);
    assert left.Keys <= w.devices.Keys;
    SubsetSize(left.Keys, w.devices.Keys);
    DevicesFit(w);
    DevicesKeep(w, left, w.consumer);
  }

  lemma SubsetSize<T>(a: set<T>, b: set<T>)
    requires a <= b
    ensures |a| <= |b|
  {
    assert b == a + (b - a);
  }

  lemma DevicesFit<S>(w: World<S>)
    requires Booked(w, [])
    ensures |w.devices| <= MAX_DEVICES
  {
  }

  // Every piece of work, whatever the consumer

  lemma EnqueueKeeps<S>(k: Work<S>, r: (World<S>, seq<Command>))
    requires Booked(r.0, [])
    ensures Booked(Enqueue(k, r).world, Enqueue(k, r).queue)
  {
    hide Booked;
    SubmitKeeps(r.0, [], r.1);
    assert [] + Serials(|r.0.ledger.commands|, |r.1|) == Serials(|r.0.ledger.commands|, |r.1|);
  }

  lemma AdvanceKeeps<S>(c: Consumer<S>, k: Work<S>)
    requires Booked(k.world, k.queue)
    ensures Booked(Advance(c, k).world, Advance(c, k).queue)
  {
    hide Booked, AcceptOne, AnswerOne, QueueStep, Enqueue;
    if k.queue != [] {
      QueueStepKeeps(c, k.world, k.queue);
    } else if k.announced != [] {
      AcceptOneKeeps(c, k.world, k.announced[0].0, k.announced[0].1);
      EnqueueKeeps(k.(announced := k.announced[1..]), AcceptOne(c, k.world, k.announced[0].0, k.announced[0].1));
    } else if k.stale != [] {
      AnswerOneKeeps(c, k.world, k.stale[0], STATUS_UNSUCCESSFUL, []);
      EnqueueKeeps(k.(stale := k.stale[1..]), AnswerOne(c, k.world, k.stale[0], STATUS_UNSUCCESSFUL, []));
    }
  }

  lemma ArriveKeeps<S>(c: Consumer<S>, k: Work<S>, m: Message)
    requires Booked(k.world, k.queue)
    ensures Booked(Arrive(c, k, m).world, Arrive(c, k, m).queue)
  {
    hide Booked, CompleteOne, Unplug, Enqueue;
    if Idle(k) {
      match m
      case DeviceListAnnounce(_) =>
      case DeviceListRemove(ids, _) => UnplugKeeps(k.world, ids);
      case DeviceIoCompletion(device, id, status, body) =>
        CompleteOneKeeps(c, k.world, device, id, status, body);
        EnqueueKeeps(k, CompleteOne(c, k.world, device, id, status, body));
      case FlushPendingCommands =>
        DevicesFit(k.world);
        DevicesKeep(k.world, k.world.devices, Polled(c, k.world).0.consumer);
        EnqueueKeeps(k, Polled(c, k.world));
      case OtherMessage =>
    }
  }

  /** The books balance at every turn of every run, for every consumer, endless ones included. */
  lemma {:induction false} RunKeeps<S>(c: Consumer<S>, supported: bv32, consumer: S, events: seq<Event>)
    ensures var k := Run(c, supported, consumer, events); Booked(k.world, k.queue)
    decreases |events|
  {
    hide Advance, Arrive;
    if events != [] {
      hide Booked;
      RunKeeps(c, supported, consumer, events[..|events| - 1]);
      var k := Run(c, supported, consumer, events[..|events| - 1]);
      match events[|events| - 1]
      case Arrives(m) => ArriveKeeps(c, k, m);
      case Continues => AdvanceKeeps(c, k);
    }
  }

  // Whole messages, for consumers whose follow-ups end

  lemma CompleteIoKeeps<S(!new)>(c: Consumer<S>, w: World<S>, device: u32, id: u32, status: u32, body: seq<byte>)
    requires Tame(c) && Booked(w, [])
    ensures Booked(CompleteIo(c, w, device, id, status, body), [])
  {
    hide Encode, CompleteOne, Booked;
    CompleteOneKeeps(c, w, device, id, status, body);
    var r := CompleteOne(c, w, device, id, status, body);
    EncodeKeeps(c, r.0, r.1);
  }

  lemma AnswerStaleKeeps<S(!new)>(c: Consumer<S>, w: World<S>, id: u32)
    requires Tame(c) && Booked(w, [])
    ensures Booked(AnswerStale(c, w, id), [])
  {
    hide Encode, AnswerOne, Booked;
    AnswerOneKeeps(c, w, id, STATUS_UNSUCCESSFUL, []);
    var r := AnswerOne(c, w, id, STATUS_UNSUCCESSFUL, []);
    EncodeKeeps(c, r.0, r.1);
  }

  lemma {:induction false} AnswerAllKeeps<S(!new)>(c: Consumer<S>, w: World<S>, order: seq<u32>)
    requires Tame(c) && Booked(w, [])
    ensures Booked(AnswerAll(c, w, order), [])
    decreases |order|
  {
    hide Booked, AnswerStale;
    if order != [] {
      AnswerStaleKeeps(c, w, order[0]);
      AnswerAllKeeps(c, AnswerStale(c, w, order[0]), order[1..]);
    }
  }

  lemma AnnounceOneKeeps<S(!new)>(c: Consumer<S>, w: World<S>, id: u32, deviceType: bv32)
    requires Tame(c) && Booked(w, [])
    ensures Booked(AnnounceOne(c, w, id, deviceType), [])
  {
    hide Encode, AcceptOne, Booked;
    AcceptOneKeeps(c, w, id, deviceType);
    var r := AcceptOne(c, w, id, deviceType);
    EncodeKeeps(c, r.0, r.1);
  }

  lemma {:induction false} AnnounceKeeps<S(!new)>(c: Consumer<S>, w: World<S>, announced: seq<(u32, bv32)>)
    requires Tame(c) && Booked(w, [])
    ensures Booked(Announce(c, w, announced), [])
    decreases |announced|
  {
    hide Booked, AnnounceOne;
    if announced != [] {
      AnnounceOneKeeps(c, w, announced[0].0, announced[0].1);
      AnnounceKeeps(c, AnnounceOne(c, w, announced[0].0, announced[0].1), announced[1..]);
    }
  }

  lemma HandleKeeps<S(!new)>(c: Consumer<S>, w: World<S>, m: Message)
    requires Tame(c) && Booked(w, [])
    ensures Booked(Handle(c, w, m), [])
  {
    hide Booked, AnswerAll, Announce, CompleteIo, Encode, Unplug;
    match m
    case DeviceListAnnounce(announced) => AnnounceKeeps(c, w, announced);
    case DeviceListRemove(ids, order) =>
      UnplugKeeps(w, ids);
      AnswerAllKeeps(c, Unplug(w, ids), order);
    case DeviceIoCompletion(device, id, status, body) => CompleteIoKeeps(c, w, device, id, status, body);
    case FlushPendingCommands =>
      var r := Polled(c, w);
      DevicesFit(w);
      DevicesKeep(w, w.devices, r.0.consumer);
      EncodeKeeps(c, r.0, r.1);
    case OtherMessage =>
  }

  // ------------------------------------------------------------------
  // What the books say
  // ------------------------------------------------------------------

  ghost function CallsFor(l: Ledger, n: nat): set<nat> {
    set k: nat | k < |l.calls| && l.calls[k].0 == n
  }

  /** The requests of command `n` among the packets sent. */
  ghost function RequestsFor(l: Ledger, n: nat): set<nat>
    requires |l.serials| == |l.wire|
  {
    set k: nat | k < |l.wire| && l.wire[k].Io? && l.serials[k] == n
  }

  /** Its one request went out at place `k`, under `id`, with its own device, operation and operands. */
  ghost predicate SentOnce(l: Ledger, n: nat, k: nat, id: u32) {
    && n < |l.commands| && |l.serials| == |l.wire| && RequestsFor(l, n) == {k}
    && k < |l.wire| && l.wire[k] == Io(RequestOf(l.commands[n], id))
  }

  /**
    What became of a command. It waits in the queue, not sent and not called back. Or it is on the table as its own
    request, sent once under the id it waits for, with no callback yet. Or it was answered by exactly one callback,
    of its own kind and tag: after its request was sent once, or, if it was failed at the cap, with nothing sent. Or
    its request was sent once and consumed silently by a completion for another device. Or, only once more than 2^32
    requests were issued, its request was sent once and lost to a reused id.
   */
  ghost predicate Accounted<S>(w: World<S>, queue: seq<nat>, n: nat)
    requires n < |w.ledger.commands| == |w.ledger.fates| && |w.ledger.serials| == |w.ledger.wire|
  {
    var l, cmd, calls, sent := w.ledger, w.ledger.commands[n], CallsFor(w.ledger, n), RequestsFor(w.ledger, n);
    match l.fates[n]
    case Queued => n in queue && calls == {} && sent == {}
    case Pending(id) => calls == {} && id in w.pending && w.pending[id] == OpOf(cmd) && exists k :: SentOnce(l, n, k, id)
    case Answered(k, issued) =>
      && calls == {k} && KindOf(l.calls[k].1) == cmd.kind && l.calls[k].1.tag == cmd.tag
      && if issued then exists k, id :: SentOnce(l, n, k, id) else sent == {}
    case Mismatched(id, device) => calls == {} && exists k :: SentOnce(l, n, k, id)
    case Overwritten => calls == {} && l.issued > 0x1_0000_0000 && exists k, id :: SentOnce(l, n, k, id)
  }

  lemma WireAccounts(l: Ledger, n: nat)
    requires WireOk(l) && n < |l.fates|
    ensures if WasSent(l.fates[n])
            then exists k, id :: SentOnce(l, n, k, id) && UnderId(l.fates[n], id)
            else RequestsFor(l, n) == {}
  {
    assert PlaceOk(l, n);
    if l.places[n].Some? {
      var k := l.places[n].value;
      forall j | j in RequestsFor(l, n) ensures j == k {
        assert l.places[l.serials[j]] == Some(j);
      }
      assert RequestsFor(l, n) == {k};
      assert SentOnce(l, n, k, l.wire[k].request.id);
    } else {
      forall j: nat | j < |l.wire| && l.wire[j].Io? ensures l.serials[j] != n {
        assert l.places[l.serials[j]] == Some(j);
      }
    }
  }

  lemma BookedAccounts<S>(w: World<S>, queue: seq<nat>, n: nat)
    requires Booked(w, queue) && n < |w.ledger.commands|
    ensures |w.ledger.commands| == |w.ledger.fates| && |w.ledger.serials| == |w.ledger.wire| && Accounted(w, queue, n)
  {
    hide KindOf, SentOnce, RequestsFor;
    WireAccounts(w.ledger, n);
    OneCall(w, queue, n);
    if w.ledger.fates[n].Pending? {
      assert w.ledger.owner[w.ledger.fates[n].id] == n;
    }
  }

  /** At every turn of every run every command ever given to the channel is accounted for. */
  lemma EveryCommandAccounted<S>(c: Consumer<S>, supported: bv32, consumer: S, events: seq<Event>, n: nat)
    requires n < |Run(c, supported, consumer, events).world.ledger.commands|
    ensures var k := Run(c, supported, consumer, events);
            var l := k.world.ledger;
            |l.commands| == |l.fates| && |l.serials| == |l.wire| && Accounted(k.world, k.queue, n)
  {
    hide Run, Accounted, Booked;
    RunKeeps(c, supported, consumer, events);
    var k := Run(c, supported, consumer, events);
    BookedAccounts(k.world, k.queue, n);
  }

  /** At most 4096 requests pending and 256 devices registered, at every turn, whatever the consumer asks for. */
  lemma CapsHold<S>(c: Consumer<S>, supported: bv32, consumer: S, events: seq<Event>)
    ensures var w := Run(c, supported, consumer, events).world;
            |w.pending| <= MAX_PENDING_OPS && |w.devices| <= MAX_DEVICES
  {
    hide Run, TableOk, CallsOk, QueuedOk, IdsOk, WireOk;
    RunKeeps(c, supported, consumer, events);
  }

  /** Two requests on the table belong to two commands. */
  lemma RequestsHaveOwners<S>(c: Consumer<S>, supported: bv32, consumer: S, events: seq<Event>, id: u32)
    requires id in Run(c, supported, consumer, events).world.pending
    ensures var w := Run(c, supported, consumer, events).world;
            && id in w.ledger.owner && w.ledger.owner[id] < |w.ledger.fates|
            && forall n :: 0 <= n < |w.ledger.fates| ==> (w.ledger.fates[n] == Pending(id) <==> n == w.ledger.owner[id])
  {
    RunKeeps(c, supported, consumer, events);
    var w := Run(c, supported, consumer, events).world;
    hide Run, WireOk;
    assert w.ledger.fates[w.ledger.owner[id]] == Pending(id);
  }

  // ------------------------------------------------------------------
  // Silent losses
  // ------------------------------------------------------------------

  /** No fate turned to a mismatch. */
  ghost predicate NoMismatch(l: Ledger, l': Ledger) {
    forall n :: 0 <= n < |l'.fates| && l'.fates[n].Mismatched? ==> n < |l.fates| && l.fates[n] == l'.fates[n]
  }

  /** The event that lost command `n`: a completion of its request that names another device. */
  ghost predicate Misdirected(e: Event, l: Ledger, n: nat)
    requires n < |l.commands| && n < |l.fates| && l.fates[n].Mismatched?
  {
    && e.Arrives? && e.message.DeviceIoCompletion?
    && e.message.id == l.fates[n].id && e.message.device == l.fates[n].device != l.commands[n].device
  }

  /** Nothing is forgotten and nothing new is a mismatch. */
  ghost predicate Grows(l: Ledger, l': Ledger) {
    NoMismatch(l, l') && l.commands <= l'.commands
  }

  lemma EnqueueGrows<S>(l: Ledger, k: Work<S>, r: (World<S>, seq<Command>))
    requires Grows(l, r.0.ledger)
    ensures Grows(l, Enqueue(k, r).world.ledger)
  {
  }

  lemma QueueStepGrows<S>(c: Consumer<S>, w: World<S>, queue: seq<nat>)
    requires Booked(w, queue) && queue != []
    ensures QueueOk(w, queue) && Grows(w.ledger, QueueStep(c, w, queue).0.ledger)
  {
    hide CallsOk, WireOk, IdsOk, FailureCallback, Issue, Call, Submit, Grows;
    if |w.pending| < MAX_PENDING_OPS {
      IssueGrows(w, queue[0]);
    } else {
      FailExtends(c, w, queue[0], FailureCallback(w.ledger.commands[queue[0]], STATUS_UNSUCCESSFUL));
    }
  }

  lemma IssueGrows<S>(w: World<S>, n: nat)
    requires TableOk(w) && n < |w.ledger.fates| && w.ledger.fates[n].Queued?
    ensures Grows(w.ledger, Issue(w, n, w.ledger.commands[n]).ledger)
  {
    hide Issue;
    IssueFates(w, n);
    IssueCommands(w, n, w.ledger.commands[n]);
  }

  lemma IssueCommands<S>(w: World<S>, n: nat, cmd: Command)
    ensures Issue(w, n, cmd).ledger.commands == w.ledger.commands
  {
  }

  lemma AnswerOneGrows<S>(c: Consumer<S>, w: World<S>, id: u32, status: u32, body: seq<byte>)
    requires Booked(w, [])
    ensures Grows(w.ledger, AnswerOne(c, w, id, status, body).0.ledger)
  {
    hide Booked, CompletionCallback;
    AnswerOneKeeps(c, w, id, status, body);
  }

  lemma AdvanceGrows<S>(c: Consumer<S>, k: Work<S>)
    requires Booked(k.world, k.queue)
    ensures Grows(k.world.ledger, Advance(c, k).world.ledger)
  {
    if k.queue != [] {
      hide Booked, QueueStep, Grows;
      QueueStepGrows(c, k.world, k.queue);
    } else if k.announced != [] {
      EnqueueGrows(k.world.ledger, k.(announced := k.announced[1..]), AcceptOne(c, k.world, k.announced[0].0, k.announced[0].1));
    } else if k.stale != [] {
      hide Booked, AnswerOne, Grows, Enqueue;
      AnswerOneGrows(c, k.world, k.stale[0], STATUS_UNSUCCESSFUL, []);
      EnqueueGrows(k.world.ledger, k.(stale := k.stale[1..]), AnswerOne(c, k.world, k.stale[0], STATUS_UNSUCCESSFUL, []));
    }
  }

  lemma DiscardMisdirects<S>(w: World<S>, id: u32, device: u32, m: Message, n: nat)
    requires Booked(w, []) && id in w.pending && id in w.ledger.owner && w.pending[id].device != device
    requires m.DeviceIoCompletion? && m.id == id && m.device == device
    ensures var l' := Settle(w, id, Mismatched(id, device)).ledger;
            && l'.commands == w.ledger.commands && |l'.fates| == |w.ledger.fates| == |l'.commands|
            && (n < |l'.fates| && l'.fates[n].Mismatched? ==>
                  l'.fates[n] == w.ledger.fates[n] || Misdirected(Arrives(m), l', n))
  {
    hide CallsOk, WireOk, IdsOk;
    assert w.ledger.fates[w.ledger.owner[id]] == Pending(id);
  }

  lemma ArriveMismatch<S>(c: Consumer<S>, k: Work<S>, m: Message, n: nat)
    requires Booked(k.world, k.queue)
    requires n < |Arrive(c, k, m).world.ledger.fates| && Arrive(c, k, m).world.ledger.fates[n].Mismatched?
    ensures var l, l' := k.world.ledger, Arrive(c, k, m).world.ledger;
            && l.commands <= l'.commands && n < |l'.commands|
            && ((n < |l.fates| && l.fates[n] == l'.fates[n]) || Misdirected(Arrives(m), l', n))
  {
    hide Booked, AnswerOne, Grows, TableOk;
    ArriveKeeps(c, k, m);
    BookedLengths(Arrive(c, k, m));
    if Idle(k) && m.DeviceIoCompletion? {
      var w := k.world;
      if m.id in w.pending && m.id in w.ledger.owner && w.pending[m.id].device != m.device {
        DiscardMisdirects(w, m.id, m.device, m, n);
      } else {
        AnswerOneGrows(c, w, m.id, m.status, m.body);
        EnqueueGrows(w.ledger, k, AnswerOne(c, w, m.id, m.status, m.body));
        GrowsKeepsFate(w.ledger, Arrive(c, k, m).world.ledger, n);
      }
    }
  }

  lemma BookedLengths<S>(k: Work<S>)
    requires Booked(k.world, k.queue)
    ensures |k.world.ledger.fates| == |k.world.ledger.commands|
  {
  }

  lemma GrowsKeepsFate(l: Ledger, l': Ledger, n: nat)
    requires Grows(l, l') && n < |l'.fates| && l'.fates[n].Mismatched?
    ensures l.commands <= l'.commands && n < |l.fates| && l.fates[n] == l'.fates[n]
  {
  }

  /** A request is consumed without a callback only by a completion in the run that names it and another device. */
  lemma {:induction false} MismatchesAreMisdirected<S>(c: Consumer<S>, supported: bv32, consumer: S, events: seq<Event>, n: nat)
    requires var l := Run(c, supported, consumer, events).world.ledger;
             n < |l.fates| && n < |l.commands| && l.fates[n].Mismatched?
    ensures exists i :: 0 <= i < |events| && Misdirected(events[i], Run(c, supported, consumer, events).world.ledger, n)
    decreases |events|
  {
    var init := events[..|events| - 1];
    var k, e := Run(c, supported, consumer, init), events[|events| - 1];
    var l, l' := k.world.ledger, Run(c, supported, consumer, events).world.ledger;
    RunKeeps(c, supported, consumer, init);
    SameLengths(k.world);
    assert l.commands <= l'.commands && ((n < |l.fates| && l.fates[n] == l'.fates[n]) || Misdirected(e, l', n)) by {
      hide Advance, Arrive, Booked;
      match e
      case Arrives(m) => ArriveMismatch(c, k, m, n);
      case Continues => AdvanceGrows(c, k);
    }
    hide Next, Booked;
    if !Misdirected(e, l', n) {
      MismatchesAreMisdirected(c, supported, consumer, init, n);
      var i :| 0 <= i < |init| && Misdirected(init[i], l, n);
      assert events[i] == init[i] && Misdirected(events[i], l', n);
    } else {
      assert events[|events| - 1] == e;
    }
  }

  lemma RemembersTransitive(a: Ledger, b: Ledger, c: Ledger)
    requires Remembers(a, b) && Remembers(b, c)
    ensures Remembers(a, c)
  {
  }

  lemma CompleteEffect<S>(c: Consumer<S>, w: World<S>, id: u32, cb: Callback)
    requires Booked(w, []) && id in w.pending
    ensures var l, l' := w.ledger, Complete(c, w, id, cb).0.ledger;
            && Remembers(l, l') && l'.calls == l.calls + [(l.owner[id], cb)]
            && forall n :: 0 <= n < |l.fates| && l.fates[n].Pending? ==>
                 l'.fates[n] == if l.fates[n].id == id then Answered(|l.calls|, true) else l.fates[n]
  {
    assert w.ledger.fates[w.ledger.owner[id]] == Pending(id);
  }

  lemma PendingIsOwned<S>(w: World<S>, n: nat)
    requires Booked(w, []) && n < |w.ledger.fates| && w.ledger.fates[n].Pending?
    ensures w.ledger.fates[n].id in w.pending
  {
  }

  /** Command `n`, pending in `l`, has been failed back to the consumer. */
  ghost predicate FailedBack(l: Ledger, l': Ledger, n: nat) {
    && n < |l'.fates| && l'.fates[n].Answered? && |l.calls| <= l'.fates[n].call < |l'.calls|
    && Reports(l'.calls[l'.fates[n].call].1, STATUS_UNSUCCESSFUL)
  }

  /** How a request stands while the requests of `order` are being failed: untouched so far, or failed back. */
  ghost predicate Standing<S>(l: Ledger, k: Work<S>, order: seq<u32>, n: nat)
    requires n < |l.fates| && l.fates[n].Pending?
  {
    var l', id := k.world.ledger, l.fates[n].id;
    && Remembers(l, l') && k.announced == [] && (forall i :: i in k.stale ==> i in order)
    && (l'.issued <= 0x1_0000_0000 ==>
          || (l'.fates[n] == l.fates[n] && (id in order ==> id in k.stale))
          || (id in order && FailedBack(l, l', n)))
  }

  lemma EnqueueRemembers<S>(k: Work<S>, r: (World<S>, seq<Command>))
    ensures var l, l' := r.0.ledger, Enqueue(k, r).world.ledger;
            Remembers(l, l') && l'.calls == l.calls && l'.issued == l.issued && l.fates <= l'.fates
  {
  }

  /** Failing one stale request back. */
  lemma AnswerStaleEffect<S>(c: Consumer<S>, w: World<S>, id: u32)
    requires Booked(w, [])
    ensures var l, l' := w.ledger, AnswerOne(c, w, id, STATUS_UNSUCCESSFUL, []).0.ledger;
            && Remembers(l, l')
            && (l'.issued <= 0x1_0000_0000 ==> l.issued <= 0x1_0000_0000)
            && forall n :: 0 <= n < |l.fates| && l.fates[n].Pending? ==>
                 if l.fates[n].id == id then FailedBack(l, l', n) else l'.fates[n] == l.fates[n]
  {
    hide Reports, Complete, Booked, CompletionCallback, KindOf;
    AnswerOneKeeps(c, w, id, STATUS_UNSUCCESSFUL, []);
    var l, l' := w.ledger, AnswerOne(c, w, id, STATUS_UNSUCCESSFUL, []).0.ledger;
    forall n | 0 <= n < |l.fates| && l.fates[n].Pending? ensures l.fates[n].id in w.pending {
      PendingIsOwned(w, n);
    }
    if id in w.pending {
      OnTable(w, id, STATUS_UNSUCCESSFUL, []);
      CompleteEffect(c, w, id, CompletionCallback(w.pending[id], STATUS_UNSUCCESSFUL, []).value);
    }
  }

  lemma AdvanceStands<S>(c: Consumer<S>, l: Ledger, k: Work<S>, order: seq<u32>, n: nat)
    requires Booked(k.world, k.queue) && n < |l.fates| && l.fates[n].Pending? && Standing(l, k, order, n)
    ensures Standing(l, Advance(c, k), order, n)
  {
    hide Booked, AnswerOne, QueueStep, Enqueue, Reports;
    if k.queue != [] {
      QueueStepExtends(c, k.world, k.queue);
      RemembersTransitive(l, k.world.ledger, Advance(c, k).world.ledger);
    } else if k.stale != [] {
      var r := AnswerOne(c, k.world, k.stale[0], STATUS_UNSUCCESSFUL, []);
      var k0 := k.(stale := k.stale[1..]);
      AnswerStaleEffect(c, k.world, k.stale[0]);
      EnqueueRemembers(k0, r);
      RemembersTransitive(l, k.world.ledger, r.0.ledger);
      RemembersTransitive(l, r.0.ledger, Enqueue(k0, r).world.ledger);
      EnqueueStale(k0, r);
    }
  }

  lemma EnqueueStale<S>(k: Work<S>, r: (World<S>, seq<Command>))
    ensures Enqueue(k, r).stale == k.stale && Enqueue(k, r).announced == k.announced
  {
  }

  /** After any number of turns, whatever the consumer asks for in between. */
  lemma {:induction false} AdvancesStand<S>(c: Consumer<S>, l: Ledger, k: Work<S>, order: seq<u32>, n: nat, turns: nat)
    requires Booked(k.world, k.queue) && n < |l.fates| && l.fates[n].Pending? && Standing(l, k, order, n)
    ensures Booked(Advances(c, k, turns).world, Advances(c, k, turns).queue) && Standing(l, Advances(c, k, turns), order, n)
    decreases turns
  {
    hide Booked, Advance, Standing;
    if turns > 0 {
      AdvanceKeeps(c, k);
      AdvanceStands(c, l, k, order, n);
      AdvancesStand(c, l, Advance(c, k), order, n, turns - 1);
    }
  }

  /**
    Removing devices, for every consumer: once the channel is done with the message, every request that was pending on
    one of them has been answered, exactly once and with failure, and every other is still on the table, whatever the
    callbacks asked for in between.
   */
  lemma RemoveAnswersStale<S>(c: Consumer<S>, w: World<S>, ids: seq<u32>, order: seq<u32>, n: nat, turns: nat)
    requires Booked(w, []) && Listing(w, ids, order)
    requires n < |w.ledger.fates| && w.ledger.fates[n].Pending?
    requires var k := Advances(c, Arrive(c, Work(w, [], [], []), DeviceListRemove(ids, order)), turns);
             Idle(k) && k.world.ledger.issued <= 0x1_0000_0000
    ensures var l, l' := w.ledger, Advances(c, Arrive(c, Work(w, [], [], []), DeviceListRemove(ids, order)), turns).world.ledger;
            && n < |l'.fates|
            && if l.commands[n].device in ids then FailedBack(l, l', n) && CallsFor(l', n) == {l'.fates[n].call}
               else l'.fates[n] == l.fates[n]
  {
    hide Booked, Advance, Advances, Reports, Unplug;
    var k := Arrive(c, Work(w, [], [], []), DeviceListRemove(ids, order));
    UnplugKeeps(w, ids);
    UnplugLedger(w, ids);
    AdvancesStand(c, w.ledger, k, order, n, turns);
    ListedIff(w, ids, order, n);
    OneCall(Advances(c, k, turns).world, [], n);
  }

  lemma UnplugLedger<S>(w: World<S>, ids: seq<u32>)
    ensures Unplug(w, ids).ledger == w.ledger && Unplug(w, ids).pending == w.pending
  {
  }

  lemma ListedIff<S>(w: World<S>, ids: seq<u32>, order: seq<u32>, n: nat)
    requires Booked(w, []) && Listing(w, ids, order) && n < |w.ledger.fates| && w.ledger.fates[n].Pending?
    ensures n < |w.ledger.commands| && (w.ledger.fates[n].id in order <==> w.ledger.commands[n].device in ids)
  {
    var id := w.ledger.fates[n].id;
    assert w.ledger.owner[id] == n;
    assert id in order <==> Stale(w, ids, id);
  }

  lemma OneCall<S>(w: World<S>, queue: seq<nat>, n: nat)
    requires Booked(w, queue) && n < |w.ledger.fates|
    ensures CallsFor(w.ledger, n) == if w.ledger.fates[n].Answered? then {w.ledger.fates[n].call} else {}
  {
    hide TableOk, IdsOk, WireOk;
  }

  /** A reused id loses a request exactly when the id is still on the table. */
  lemma IssueOverwritesIff<S>(w: World<S>, queue: seq<nat>)
    requires Booked(w, queue) && queue != []
    ensures var l, l' := w.ledger, Issue(w, queue[0], w.ledger.commands[queue[0]]).ledger;
            && |l'.fates| == |l.fates|
            && ((exists m :: 0 <= m < |l.fates| && l'.fates[m].Overwritten? && !l.fates[m].Overwritten?) <==> w.nextId in w.pending)
  {
    hide CallsOk, Issue;
    IssueFates(w, queue[0]);
    var l, l' := w.ledger, Issue(w, queue[0], w.ledger.commands[queue[0]]).ledger;
    if w.nextId in w.pending {
      var m := l.owner[w.nextId];
      assert l.fates[m] == Pending(w.nextId);
      assert l'.fates[m].Overwritten? && !l.fates[m].Overwritten?;
    }
  }

  // ------------------------------------------------------------------
  // Why the weight is needed
  // ------------------------------------------------------------------

  /** A consumer that answers every failure with another command. */
  ghost predicate NeverGivesUp<S(!new)>(c: Consumer<S>) {
    forall s: S, cmd: Command {:trigger c.onReply(s, FailureCallback(cmd, STATUS_UNSUCCESSFUL))} ::
      c.onReply(s, FailureCallback(cmd, STATUS_UNSUCCESSFUL)).1 != []
  }

  /** The work queue after `turns` turns. */
  ghost function Turns<S(!new)>(c: Consumer<S>, w: World<S>, queue: seq<nat>, turns: nat): (World<S>, seq<nat>)
    requires QueueOk(w, queue)
    decreases turns
  {
    if turns == 0 || queue == [] then (w, queue)
    else
      var (w', queue') := QueueStep(c, w, queue);
      Turns(c, w', queue', turns - 1)
  }

  /** At the cap such a consumer keeps the queue busy for ever: no number of turns empties it. */
  lemma {:induction false} QueueNeverEmpties<S(!new)>(c: Consumer<S>, w: World<S>, queue: seq<nat>, turns: nat)
    requires NeverGivesUp(c) && QueueOk(w, queue) && queue != [] && |w.pending| >= MAX_PENDING_OPS
    ensures Turns(c, w, queue, turns).1 != []
    decreases turns
  {
    if turns > 0 {
      var (w', queue') := QueueStep(c, w, queue);
      QueueNeverEmpties(c, w', queue', turns - 1);
    }
  }

  // ------------------------------------------------------------------
  // With it, turns add up to whole messages
  // ------------------------------------------------------------------

  /** `turns` further pieces of work. */
  function Advances<S>(c: Consumer<S>, k: Work<S>, turns: nat): Work<S>
    decreases turns
  {
    if turns == 0 then k else Advances(c, Advance(c, k), turns - 1)
  }

  lemma {:induction false} AdvancesAdd<S>(c: Consumer<S>, k: Work<S>, m: nat, n: nat)
    ensures Advances(c, Advances(c, k, m), n) == Advances(c, k, m + n)
    decreases m
  {
    hide Advance;
    if m > 0 {
      AdvancesAdd(c, Advance(c, k), m - 1, n);
    }
  }

  lemma {:induction false} DrainReached<S(!new)>(c: Consumer<S>, k: Work<S>) returns (turns: nat)
    requires Tame(c) && QueueOk(k.world, k.queue)
    ensures Advances(c, k, turns) == k.(world := Drain(c, k.world, k.queue), queue := [])
    decreases c.weight(k.world.consumer), |k.queue|
  {
    if k.queue == [] {
      turns := 0;
    } else {
      var k' := Advance(c, k);
      var more := DrainReached(c, k');
      turns := 1 + more;
    }
  }

  /** A piece of work whose follow-ups have been drained. */
  lemma EnqueueReached<S(!new)>(c: Consumer<S>, k: Work<S>, r: (World<S>, seq<Command>)) returns (turns: nat)
    requires Tame(c)
    ensures Advances(c, Enqueue(k, r), turns) == k.(world := Encode(c, r.0, r.1), queue := [])
  {
    turns := DrainReached(c, Enqueue(k, r));
  }

  lemma {:induction false} AnnounceReached<S(!new)>(c: Consumer<S>, k: Work<S>) returns (turns: nat)
    requires Tame(c) && k.queue == [] && k.stale == []
    ensures Advances(c, k, turns) == k.(world := Announce(c, k.world, k.announced), announced := [])
    decreases |k.announced|
  {
    if k.announced == [] {
      turns := 0;
    } else {
      hide AcceptOne, Encode, Enqueue;
      var k0 := k.(announced := k.announced[1..]);
      var r := AcceptOne(c, k.world, k.announced[0].0, k.announced[0].1);
      var first := EnqueueReached(c, k0, r);
      var k1 := k0.(world := Encode(c, r.0, r.1), queue := []);
      var rest := AnnounceReached(c, k1);
      AdvancesAdd(c, Enqueue(k0, r), first, rest);
      turns := 1 + (first + rest);
    }
  }

  lemma {:induction false} AnswersReached<S(!new)>(c: Consumer<S>, k: Work<S>) returns (turns: nat)
    requires Tame(c) && k.queue == [] && k.announced == []
    ensures Advances(c, k, turns) == k.(world := AnswerAll(c, k.world, k.stale), stale := [])
    decreases |k.stale|
  {
    if k.stale == [] {
      turns := 0;
    } else {
      hide AnswerOne, Encode, Enqueue;
      var k0 := k.(stale := k.stale[1..]);
      var r := AnswerOne(c, k.world, k.stale[0], STATUS_UNSUCCESSFUL, []);
      var first := EnqueueReached(c, k0, r);
      var k1 := k0.(world := Encode(c, r.0, r.1), queue := []);
      var rest := AnswersReached(c, k1);
      AdvancesAdd(c, Enqueue(k0, r), first, rest);
      turns := 1 + (first + rest);
    }
  }

  /** For a consumer whose follow-ups end, finitely many turns after a message arrived the channel has handled it. */
  lemma MessageHandled<S(!new)>(c: Consumer<S>, w: World<S>, m: Message) returns (turns: nat)
    requires Tame(c)
    ensures Advances(c, Arrive(c, Work(w, [], [], []), m), turns) == Work(Handle(c, w, m), [], [], [])
  {
    hide CompleteOne, Polled, Encode, Enqueue, Announce, AnswerAll, Unplug;
    var k := Work(w, [], [], []);
    match m
    case DeviceListAnnounce(announced) => turns := AnnounceReached(c, k.(announced := announced));
    case DeviceListRemove(ids, order) => turns := AnswersReached(c, k.(world := Unplug(w, ids), stale := order));
    case DeviceIoCompletion(device, id, status, body) => turns := EnqueueReached(c, k, CompleteOne(c, w, device, id, status, body));
    case FlushPendingCommands => turns := EnqueueReached(c, k, Polled(c, w));
    case OtherMessage => turns := 0;
  }

  // ------------------------------------------------------------------
  // The channel as the source runs it
  // ------------------------------------------------------------------

  lemma DrainStep<S(!new)>(c: Consumer<S>, w: World<S>, queue: seq<nat>)
    requires Tame(c) && Booked(w, queue)
    ensures QueueOk(w, queue)
    ensures queue == [] ==> Drain(c, w, queue) == w
    ensures queue != [] ==>
              var r := QueueStep(c, w, queue);
              Booked(r.0, r.1) && QueueOk(r.0, r.1) && Drain(c, w, queue) == Drain(c, r.0, r.1)
  {
    if queue != [] {
      QueueStepKeeps(c, w, queue);
    }
  }

  /** The queued commands are those of the ledger numbers beside them. */
  ghost predicate Matching(l: Ledger, queue: seq<Command>, serials: seq<nat>) {
    |serials| == |queue| && forall i :: 0 <= i < |queue| ==> serials[i] < |l.commands| && l.commands[serials[i]] == queue[i]
  }

  lemma SubmitMatches(l: Ledger, cmds: seq<Command>)
    ensures |Serials(|l.commands|, |cmds|)| == |cmds| && Matching(Submit(l, cmds), cmds, Serials(|l.commands|, |cmds|))
  {
  }

  lemma MatchingEnds(l: Ledger, serials: seq<nat>)
    requires Matching(l, [], serials)
    ensures serials == []
  {
  }

  class RdpdrChannel<S(!new)> {
    const consumer: Consumer<S>
    const supported: bv32
    var devices: map<u32, bv32>
    var nextCompletionId: u32
    var pending: map<u32, PendingOp>
    var state: S
    ghost var ledger: Ledger

    ghost function View(): World<S>
      reads this
    {
      World(supported, devices, nextCompletionId, pending, state, ledger)
    }

    ghost predicate Valid()
      reads this
    {
      Tame(consumer) && Booked(View(), [])
    }

    constructor (consumer: Consumer<S>, supported: bv32, state: S)
      requires Tame(consumer)
      ensures Valid() && View() == New(supported, state) && this.consumer == consumer
    {
      this.consumer, this.supported, this.state := consumer, supported, state;
      devices, pending, nextCompletionId := map[], map[], 0;
      ledger := Ledger([], [], map[], [], 0, [], [], []);
    }

    /** Reports a command as failed without ever putting it on the wire. */
    method FailCommandWithoutIssuing(command: Command, ghost n: nat) returns (followUp: seq<Command>)
      modifies this
      ensures (View(), followUp) == Call(consumer, old(View()), n, FailureCallback(command, STATUS_UNSUCCESSFUL))
    {
      var cb := FailureCallback(command, STATUS_UNSUCCESSFUL);
      ledger := ledger.(fates := SetFate(ledger.fates, n, Answered(|ledger.calls|, false)), calls := ledger.calls + [(n, cb)]);
      var reply := consumer.onReply(state, cb);
      state := reply.0;
      followUp := reply.1;
    }

    /** Puts a command on the table under the next completion id. */
    method IssueCommand(command: Command, ghost n: nat) returns (packet: Packet)
      modifies this
      ensures View() == Issue(old(View()), n, command) && ledger.wire == old(ledger.wire) + [packet]
    {
      var id := nextCompletionId;
      ledger := Issue(View(), n, command).ledger;
      nextCompletionId := (id as int + 1) % 0x1_0000_0000;
      pending := pending[id := PendingOp(command.device, Major(command.kind), command.tag)];
      packet := Io(Request(command.device, id, Major(command.kind), command.operands));
    }

    /** One turn of the work queue; `serials` are the ledger numbers of the queued commands. */
    method Turn(queue: seq<Command>, ghost serials: seq<nat>) returns (queue': seq<Command>, ghost serials': seq<nat>, sent: seq<Packet>)
      requires QueueOk(View(), serials) && queue != [] && Matching(ledger, queue, serials)
      modifies this
      ensures (View(), serials') == QueueStep(consumer, old(View()), serials) && ledger.wire == old(ledger.wire) + sent
      ensures |serials'| == |queue'| && Matching(ledger, queue', serials')
      ensures Tame(consumer) ==>
                || consumer.weight(state) < consumer.weight(old(state))
                || (consumer.weight(state) == consumer.weight(old(state)) && |queue'| < |queue|)
    {
      if |pending| >= MAX_PENDING_OPS {
        var followUp := FailCommandWithoutIssuing(queue[0], serials[0]);
        queue', serials' := queue[1..] + followUp, serials[1..] + Serials(|ledger.commands|, |followUp|);
        ledger := Submit(ledger, followUp);
        sent := [];
      } else {
        var packet := IssueCommand(queue[0], serials[0]);
        queue', serials', sent := queue[1..], serials[1..], [packet];
      }
    }

    method EncodeCommands(commands: seq<Command>) returns (sent: seq<Packet>)
      requires Valid()
      modifies this
      ensures Valid() && View() == Encode(consumer, old(View()), commands) && ledger.wire == old(ledger.wire) + sent
    {
      hide Booked, QueueStep, Drain, Matching, QueueOk, Serials;
      sent := [];
      var queue := commands;
      ghost var serials: seq<nat> := Serials(|ledger.commands|, |commands|);
      SubmitKeeps(View(), [], commands);
      assert [] + serials == serials;
      SubmitMatches(ledger, commands);
      ledger := Submit(ledger, commands);
      DrainStep(consumer, View(), serials);
      while queue != []
        invariant |serials| == |queue| && Matching(ledger, queue, serials)
        invariant Booked(View(), serials) && QueueOk(View(), serials)
        invariant Drain(consumer, View(), serials) == Encode(consumer, old(View()), commands)
        invariant ledger.wire == old(ledger.wire) + sent
        decreases consumer.weight(state), |queue|
      {
        DrainStep(consumer, View(), serials);
        var packets;
        queue, serials, packets := Turn(queue, serials);
        sent := sent + packets;
      }
      MatchingEnds(ledger, serials);
      DrainStep(consumer, View(), serials);
    }

    /** Answers the request under `id`; the caller has seen it on the table. */
    method Answer(id: u32, status: u32, body: seq<byte>) returns (sent: seq<Packet>)
      requires Valid() && id in pending
      modifies this
      ensures Valid() && ledger.wire == old(ledger.wire) + sent
      ensures var r := AnswerOne(consumer, old(View()), id, status, body); View() == Encode(consumer, r.0, r.1)
    {
      hide Encode, CompletionCallback, Booked, AnswerOne;
      ghost var w := View();
      OnTable(w, id, status, body);
      AnswerOneKeeps(consumer, w, id, status, body);
      var cb := CompletionCallback(pending[id], status, body).value;
      pending := pending - {id};
      var reply := consumer.onReply(state, cb);
      state := reply.0;
      ledger := Complete(consumer, w, id, cb).0.ledger;
      sent := EncodeCommands(reply.1);
    }

    method OnDeviceIoCompletion(device: u32, id: u32, status: u32, body: seq<byte>) returns (sent: seq<Packet>)
      requires Valid()
      modifies this
      ensures Valid() && ledger.wire == old(ledger.wire) + sent
      ensures View() == Handle(consumer, old(View()), DeviceIoCompletion(device, id, status, body))
    {
      hide Encode, CompletionCallback, Booked, Complete;
      sent := [];
      if id in pending {
        OnTable(View(), id, status, body);
        if pending[id].device != device {
          DiscardKeeps(View(), id, device);
          ghost var settled := Settle(View(), id, Mismatched(id, device));
          pending := pending - {id};
          ledger := settled.ledger;
          EncodeNothing(consumer, View());
        } else {
          sent := Answer(id, status, body);
        }
      } else {
        EncodeNothing(consumer, View());
      }
    }

    /** Removes the devices, then fails their requests in whatever order the table yields them. */
    method OnDeviceListRemove(ids: seq<u32>) returns (sent: seq<Packet>, ghost order: seq<u32>)
      requires Valid()
      modifies this
      ensures Valid() && Listing(old(View()), ids, order) && ledger.wire == old(ledger.wire) + sent
      ensures View() == Handle(consumer, old(View()), DeviceListRemove(ids, order))
    {
      hide Booked, AnswerAll, Listing;
      var stale := ListStale(ids);
      order := stale;
      UnplugKeeps(View(), ids);
      devices := devices - (set i | i in ids);
      sent := AnswerEach(stale);
    }

    method AnswerEach(stale: seq<u32>) returns (sent: seq<Packet>)
      requires Valid()
      modifies this
      ensures Valid() && View() == AnswerAll(consumer, old(View()), stale) && ledger.wire == old(ledger.wire) + sent
    {
      hide Encode, Booked, AnswerOne, AnswerStale;
      sent := [];
      assert stale[0..] == stale;
      for k := 0 to |stale|
        invariant Valid() && ledger.wire == old(ledger.wire) + sent
        invariant AnswerAll(consumer, View(), stale[k..]) == AnswerAll(consumer, old(View()), stale)
      {
        assert stale[k..][0] == stale[k] && stale[k..][1..] == stale[k + 1..];
        if stale[k] in pending {
          StaleIs(consumer, View(), stale[k]);
          var packets := Answer(stale[k], STATUS_UNSUCCESSFUL, []);
          sent := sent + packets;
        } else {
          NotStale(consumer, View(), stale[k]);
        }
      }
    }

    method ListStale(ids: seq<u32>) returns (stale: seq<u32>)
      ensures Listing(View(), ids, stale)
    {
      stale := [];
      var rest := pending.Keys;
      while rest != {}
        invariant rest <= pending.Keys
        invariant forall i, j :: 0 <= i < j < |stale| ==> stale[i] != stale[j]
        invariant forall id: u32 :: id in stale <==> Stale(View(), ids, id) && id !in rest
        decreases rest
      {
        var id :| id in rest;
        rest := rest - {id};
        if pending[id].device in ids {
          stale := stale + [id];
        }
      }
    }

    method AcceptDevice(id: u32, deviceType: bv32) returns (sent: seq<Packet>)
      requires Valid()
      modifies this
      ensures Valid() && View() == AnnounceOne(consumer, old(View()), id, deviceType) && ledger.wire == old(ledger.wire) + sent
    {
      hide Encode, Booked, Supports, AtCapacity;
      AcceptOneKeeps(consumer, View(), id, deviceType);
      ghost var accepted := AcceptOne(consumer, View(), id, deviceType).0;
      if Supports(supported, deviceType) && !AtCapacity(devices, id) {
        var ready := consumer.onReady(state, id, deviceType);
        devices := devices[id := deviceType];
        state := ready.0;
        ledger := accepted.ledger;
        var packets := EncodeCommands(ready.1);
        sent := [DeviceReply(id, STATUS_SUCCESS)] + packets;
      } else {
        ledger := accepted.ledger;
        sent := [DeviceReply(id, STATUS_UNSUCCESSFUL)];
        EncodeNothing(consumer, View());
      }
    }

    method OnDeviceListAnnounce(announced: seq<(u32, bv32)>) returns (sent: seq<Packet>)
      requires Valid()
      modifies this
      ensures Valid() && ledger.wire == old(ledger.wire) + sent
      ensures View() == Handle(consumer, old(View()), DeviceListAnnounce(announced))
    {
      hide AnnounceOne, Booked;
      sent := [];
      ghost var w0 := View();
      for k := 0 to |announced|
        invariant Valid() && ledger.wire == old(ledger.wire) + sent
        invariant Announce(consumer, View(), announced[k..]) == Announce(consumer, w0, announced)
      {
        assert announced[k..][0] == announced[k] && announced[k..][1..] == announced[k + 1..];
        var packets := AcceptDevice(announced[k].0, announced[k].1);
        sent := sent + packets;
      }
    }
  }

  lemma EncodeNothing<S(!new)>(c: Consumer<S>, w: World<S>)
    requires Tame(c)
    ensures Encode(c, w, []) == w
  {
    var l := w.ledger;
    assert Submit(l, []) == l by {
      assert l.commands + [] == l.commands && l.fates + seq(0, _ => Queued) == l.fates;
      assert l.places + seq(0, _ => None) == l.places;
    }
    assert Serials(|l.commands|, 0) == [];
  }

  lemma StaleIs<S(!new)>(c: Consumer<S>, w: World<S>, id: u32)
    requires Tame(c)
    ensures var r := AnswerOne(c, w, id, STATUS_UNSUCCESSFUL, []); AnswerStale(c, w, id) == Encode(c, r.0, r.1)
  {
  }

  lemma NotStale<S(!new)>(c: Consumer<S>, w: World<S>, id: u32)
    requires Tame(c) && id !in w.pending
    ensures AnswerStale(c, w, id) == w
  {
    EncodeNothing(c, w);
  }
}
