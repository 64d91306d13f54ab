/**
  From the captured desktop to one client's screen: the session loop's graphics
  (crates/rdpcore-server/src/server/session_loop.rs, slow_path.rs and frame_pump.rs) over the fan-out hub. What the hub
  broadcasts only wakes the session: it sends the difference between the frame it last confirmed and the latest one,
  in the background, one send at a time; a client that resumes output or asks for a refresh is sent the latest frame
  directly. Both sends hand their fast-path PDUs to one queue. Capture, session, both sends and the network interleave
  at every await.
 */
module Session {
  import opened Bytes
  import opened BitmapSync
  import opened DirtyRects
  import opened Display
  import opened Tiling
  import Fastpath
  import Fp = FastpathOutput
  import Hub = DisplayHub

  datatype Phase = Absent | Cloned | Attached

  datatype Sender = Background | Foreground

  /** Whose fragments an unfinished update is made of. */
  datatype Owner = Nobody | Of(sender: Sender) | Mixed

  /**
    How a position stands: nothing was completed for it; it shows the confirmed frame, or is about to; a direct send
    gave it another colour; the update that would have given it the confirmed colour was broken up, or a broken one
    painted it.
   */
  datatype Mark = Blank | Synced | Direct | Torn

  type Rectangle = Fastpath.BitmapRect

  type Ink = (nat, nat) -> Option<seq<byte>>

  /** A client: what it has of an unfinished update, and what it shows. */
  datatype View = View(partial: Option<seq<byte>>, screen: Screen)

  datatype Session = Session(
    hub: Hub.Hub,                     // the capture side; no other subscriber matters here
    phase: Phase,
    initial: Option<Frame>,           // full frame taken at subscribe time
    next: nat,                        // index of the next broadcast to receive
    gateOpen: bool,                   // the start-up delay has passed
    allowed: bool,                    // the client wants display updates
    sync: Sync,
    bulk: Option<seq<Fp.Pdu>>,        // the background send, and what it has yet to hand to the writer
    direct: seq<seq<Fp.Pdu>>,         // the direct sends the loop waits for, and what they have yet to hand over
    wire: seq<Fp.Pdu>,                // handed over, on its way to the client
    client: View,
    // What has been handed to the writer, for the record:
    first: Screen,                    // what the client showed at first
    writer: Option<seq<byte>>,        // the update unfinished there
    owner: Owner,                     // and whose it is
    painted: Ink,                     // the colour last completed there, for each position
    marks: (nat, nat) -> Mark,
    behind: (nat, nat) -> bool,       // the confirmed frame was not the latest here when output was resumed
    missed: bool,                     // no frame is confirmed, and the wake-up for the latest will not come again
    source: Option<Frame>)            // what was last sent directly

  ghost function Init(screen: Screen, gateOpen: bool): Session {
    Session(Hub.Init(), Absent, None, 0, gateOpen, true, START, None, [], [], View(None, screen),
            screen, None, Nobody, (x: nat, y: nat) => None, (x: nat, y: nat) => Blank, (x: nat, y: nat) => false, false, None)
  }

  /** How a catch-up turns out: what the comparison finds, the kernel's backlog, and whether anything was queued. */
  datatype Choice = Choice(diff: seq<Rect>, backlog: bool, queued: bool)

  /** An inclusive rectangle of a Refresh Rect request. */
  datatype Corners = Corners(left: u16, top: u16, right: u16, bottom: u16)

  datatype Action =
    | Tick(capture: Capture, diff: seq<Rect>)
    | Send
    | Subscribe                           // first half: take the latest frame
    | Attach                              // second half: join the channel
    | Wake(choice: Choice)                // an update arrives from the hub
    | Join(choice: Choice)                // the background send has finished
    | OpenGate(choice: Choice)
    | Ticker(choice: Choice)              // the catch-up timer
    | Suppress(allow: bool)               // a Suppress Output request
    | Refresh(rects: seq<Corners>)        // a Refresh Rect request
    | HandBulk                            // one PDU of the background send reaches the writer
    | HandDirect
    | GiveUp                              // a direct send times out; its error is ignored
    | Arrive                              // one PDU reaches the client

  function Latest(h: Hub.Hub): Option<BitmapUpdate> {
    match h.latest
    case None => None
    case Some(f) => Hub.FramePicture(f)
  }

  /** The comparison is made only while the client takes updates. */
  ghost predicate ChoiceOk(s: Session, c: Choice) {
    s.allowed && Latest(s.hub).Some? ==> Found(s.sync.synced, Latest(s.hub).value, c.diff)
  }

  /** The session loop is at its select. */
  predicate Free(s: Session) {
    s.phase.Attached? && s.direct == []
  }

  function Rest(bulk: Option<seq<Fp.Pdu>>): seq<Fp.Pdu> {
    if bulk.Some? then bulk.value else []
  }

  ghost predicate Enabled(s: Session, a: Action) {
    match a
    case Tick(c, diff) => Hub.Enabled(s.hub, Hub.Tick(c, diff))
    case Send => Hub.Enabled(s.hub, Hub.Send)
    case Subscribe => s.phase.Absent?
    case Attach => s.phase.Cloned?
    case Wake(c) => Free(s) && (s.initial.Some? || s.next < |s.hub.sent|) && ChoiceOk(s, c)
    case Join(c) => Free(s) && s.bulk == Some([]) && ChoiceOk(s, c)
    case OpenGate(c) => Free(s) && !s.gateOpen && ChoiceOk(s, c)
    case Ticker(c) => Free(s) && s.bulk.None? && s.allowed && s.gateOpen && s.sync.pending && ChoiceOk(s, c)
    case Suppress(_) => Free(s)
    case Refresh(_) => Free(s)
    case HandBulk => Rest(s.bulk) != []
    case HandDirect => s.direct != [] && s.direct[0] != []
    case GiveUp => s.direct != []
    case Arrive => s.wire != []
  }

  // ------------------------------------------------------------------
  // Catching up
  // ------------------------------------------------------------------

  predicate CoversDesktop(u: BitmapUpdate, full: BitmapUpdate) {
    u.x == 0 && u.y == 0 && u.width == full.width && u.height == full.height
  }

  ghost function Resynced(marks: (nat, nat) -> Mark, u: BitmapUpdate): (nat, nat) -> Mark {
    (x: nat, y: nat) => if Shows(u, x, y) then Synced else marks(x, y)
  }

  /** The confirmed frame is the latest. */
  ghost function Current(s: Session): Session {
    s.(behind := (x: nat, y: nat) => false, missed := false)
  }

  /** Encodes the update and starts the background send; the confirmed frame advances only if that has bytes to send. */
  ghost function Queue(s: Session, p: Policy, taken: Sync, u: BitmapUpdate, queued: bool): Session {
    var (left, target) := TakeTarget(taken);
    var full := Latest(s.hub);
    var sync := ConfirmSend(left, queued, target, if full.Some? && CoversDesktop(u, full.value) then Some(u) else None);
    if queued then Current(s).(sync := sync, bulk := Some(PdusFor(u, p)), marks := Resynced(s.marks, u))
    else s.(sync := sync)
  }

  ghost function CatchUp(s: Session, p: Policy, c: Choice): Session {
    var (taken, bitmap) := TakePending(s.sync, Latest(s.hub), c.diff);
    if bitmap.None? then
      (if s.sync.pending && Latest(s.hub).Some? then Current(s) else s).(sync := taken)
    else if s.bulk.Some? || c.backlog then s.(sync := Defer(taken))
    else Queue(s, p, taken, bitmap.value, c.queued)
  }

  /** The subscription after next_update has returned: a lag counts as one update. */
  function Woken(s: Session): Session {
    if s.initial.Some? then s.(initial := None)
    else if s.next < Hub.Oldest(s.hub) then s.(next := Hub.Oldest(s.hub))
    else s.(next := s.next + 1)
  }

  /** A wake-up is dropped while the client wants no updates. */
  ghost function OnUpdate(s: Session, p: Policy, c: Choice): Session {
    if !s.gateOpen then s.(sync := MarkDirty(s.sync), missed := false)
    else if !s.allowed then s.(missed := s.sync.synced.None?)
    else CatchUp(s.(sync := MarkDirty(s.sync), missed := false), p, c)
  }

  // ------------------------------------------------------------------
  // Direct sends
  // ------------------------------------------------------------------

  /** The colour of a frame's pixel. */
  function FrameColour(f: Frame, x: nat, y: nat): seq<byte> {
    Colour(PixelAt(f, x, y))
  }

  /** The confirmed frame's. */
  function Confirmed(s: Session, x: nat, y: nat): seq<byte>
    requires s.sync.synced.Some?
  {
    FrameColour(FrameOf(s.sync.synced.value), x, y)
  }

  function Limit(n: int): u16 {
    if n < 0x1_0000 then if n < 0 then 0 else n else 0xFFFF
  }

  /** The requested parts of a full frame; one that leaves the frame is skipped. */
  function Parts(full: BitmapUpdate, rects: seq<Corners>): seq<BitmapUpdate> {
    if rects == [] then []
    else
      var r := rects[0];
      var w, h := Limit(Limit(r.right - r.left) + 1), Limit(Limit(r.bottom - r.top) + 1);
      (match Sub(full, r.left, r.top, w, h) case Some(u) => [u] case None => []) + Parts(full, rects[1..])
  }

  /** Each part is a send of its own. */
  function Sends(us: seq<BitmapUpdate>, p: Policy): seq<seq<Fp.Pdu>> {
    if us == [] then [] else [PdusFor(us[0], p)] + Sends(us[1..], p)
  }

  predicate ShownBy(us: seq<BitmapUpdate>, x: nat, y: nat) {
    us != [] && (Shows(us[0], x, y) || ShownBy(us[1..], x, y))
  }

  function SendDirect(s: Session, p: Policy, us: seq<BitmapUpdate>, f: Frame): Session {
    s.(direct := Sends(us, p), source := Some(f))
  }

  ghost function Lagging(s: Session, f: Frame): (nat, nat) -> bool {
    (x: nat, y: nat) => s.sync.synced.Some? && Confirmed(s, x, y) != FrameColour(f, x, y)
  }

  /** Resuming output sends the whole latest frame. */
  ghost function OnSuppress(s: Session, p: Policy, allow: bool): Session {
    var full := Latest(s.hub);
    if allow && !s.allowed && full.Some? then
      SendDirect(s.(allowed := allow, behind := Lagging(s, FrameOf(full.value))), p, [full.value], FrameOf(full.value))
    else s.(allowed := allow)
  }

  ghost function OnRefresh(s: Session, p: Policy, rects: seq<Corners>): Session {
    var full := Latest(s.hub);
    if full.None? then s
    else SendDirect(s, p, if rects == [] then [full.value] else Parts(full.value, rects), FrameOf(full.value))
  }

  // ------------------------------------------------------------------
  // At the writer
  // ------------------------------------------------------------------

  ghost function Inked(ink: Ink, rs: seq<Rectangle>): Ink {
    (x: nat, y: nat) => if LastAt(rs, x, y).Some? then LastAt(rs, x, y) else ink(x, y)
  }

  function NextOwner(owner: Owner, who: Sender, p: Fp.Pdu): Owner {
    match p.fragmentation
    case Single => Nobody
    case First => Of(who)
    case Next => if owner.Nobody? || owner == Of(who) then owner else Mixed
    case Last => Nobody
  }

  /** What the background send will still have completed, if nothing comes between: not an update already broken. */
  function Ahead(s: Session): seq<Rectangle> {
    Fp.Makes(if s.owner == Of(Background) then s.writer else None, Rest(s.bulk))
  }

  /** The colour last completed at the position is the confirmed frame's. */
  predicate Agrees(s: Session, x: nat, y: nat) {
    s.sync.synced.Some? && s.painted(x, y) == Some(Confirmed(s, x, y))
  }

  /** The marks once `t` has completed rectangles; `whole` if they are a direct send's own. */
  ghost function Remarked(t: Session, rs: seq<Rectangle>, whole: bool): (nat, nat) -> Mark {
    (x: nat, y: nat) =>
      if Reaches(rs, x, y) then if Agrees(t, x, y) then Synced else if whole then Direct else Torn
      else if t.marks(x, y).Synced? && !Agrees(t, x, y) && !Reaches(Ahead(t), x, y) then Torn
      else t.marks(x, y)
  }

  ghost function Handed(s: Session, who: Sender, p: Fp.Pdu): Session {
    s.(wire := s.wire + [p], writer := Fp.Leaves(s.writer, [p]), owner := NextOwner(s.owner, who, p),
       painted := Inked(s.painted, Fp.Makes(s.writer, [p])))
  }

  ghost function Hand(s: Session, who: Sender, p: Fp.Pdu): Session {
    var t := Handed(s, who, p);
    t.(marks := Remarked(t, Fp.Makes(s.writer, [p]), who.Foreground? && (p.fragmentation.Single? || s.owner == Of(who))))
  }

  /** Without the first PDU. */
  function Advanced(direct: seq<seq<Fp.Pdu>>): seq<seq<Fp.Pdu>>
    requires direct != [] && direct[0] != []
  {
    if |direct[0]| == 1 then direct[1..] else [direct[0][1..]] + direct[1..]
  }

  /** What a client makes of PDUs. */
  ghost function OnPdus(v: View, pdus: seq<Fp.Pdu>): View {
    View(Fp.Leaves(v.partial, pdus), DrawAll(v.screen, Fp.Makes(v.partial, pdus)))
  }

  // ------------------------------------------------------------------
  // Runs
  // ------------------------------------------------------------------

  ghost function Step(s: Session, p: Policy, a: Action): Session
    requires Enabled(s, a)
  {
    match a
    case Tick(c, diff) => s.(hub := Hub.Step(s.hub, Hub.Tick(c, diff)))
    case Send => s.(hub := Hub.Step(s.hub, Hub.Send))
    case Subscribe => s.(phase := Cloned, initial := s.hub.latest)
    case Attach =>
      s.(phase := Attached, next := |s.hub.sent|,
         missed := s.initial.None? && s.hub.latest.Some? && s.hub.inFlight.None?)
    case Wake(c) => OnUpdate(Woken(s), p, c)
    case Join(c) =>
      var t := s.(bulk := None);
      if s.allowed && s.gateOpen then CatchUp(t, p, c) else t
    case OpenGate(c) =>
      var t := s.(gateOpen := true);
      if s.allowed then CatchUp(t, p, c) else t
    case Ticker(c) => CatchUp(s, p, c)
    case Suppress(allow) => OnSuppress(s, p, allow)
    case Refresh(rects) => OnRefresh(s, p, rects)
    case HandBulk => Hand(s.(bulk := Some(Rest(s.bulk)[1..])), Background, Rest(s.bulk)[0])
    case HandDirect => Hand(s.(direct := Advanced(s.direct)), Foreground, s.direct[0][0])
    case GiveUp => s.(direct := s.direct[1..])
    case Arrive => s.(wire := s.wire[1..], client := OnPdus(s.client, [s.wire[0]]))
  }

  ghost function Run(s: Session, p: Policy, actions: seq<Action>): Session
    decreases |actions|
  {
    if actions == [] then s
    else
      var before := Run(s, p, actions[..|actions| - 1]);
      var a := actions[|actions| - 1];
      if Enabled(before, a) then Step(before, p, a) else before
  }

  /** A desktop the encoder can send. */
  predicate SizeOk(a: Action, p: Policy) {
    a.Tick? ==> Sendable(a.capture.frame.width, a.capture.frame.height, p.planar)
  }

  // ------------------------------------------------------------------
  // The invariant
  // ------------------------------------------------------------------

  /** Something is still on its way from the capture side to the session, or the session knows it must catch up. */
  predicate Owed(s: Session) {
    !s.phase.Attached? || s.initial.Some? || s.next < |s.hub.sent| || s.hub.inFlight.Some? || s.sync.pending
  }

  ghost predicate SyncOk(s: Session) {
    && s.sync.target.None?
    && (s.sync.synced.Some? ==>
          && s.hub.latest.Some? && IsFull(s.sync.synced.value)
          && s.sync.synced.value.width == s.hub.latest.value.width
          && s.sync.synced.value.height == s.hub.latest.value.height)
    && (s.bulk.Some? || s.sync.pending ==> s.phase.Attached?)
    && (s.bulk.Some? ==> s.sync.synced.Some?)
    && (s.missed ==> s.sync.synced.None?)
  }

  /** No direct PDU is, or will be, in the midst of another's update. */
  predicate Alone(s: Session) {
    && Rest(s.bulk) == [] && (s.owner.Nobody? || s.owner == Of(Foreground))
    && (s.direct != [] && s.direct[0] != [] && Fp.Mid(s.direct[0][0]) ==> s.owner == Of(Foreground))
  }

  ghost predicate StreamsOk(s: Session) {
    && Fp.Chained(Rest(s.bulk))
    && (Rest(s.bulk) != [] ==> Fp.Ends(Rest(s.bulk)[|Rest(s.bulk)| - 1]))
    && (s.owner == Of(Background) ==> Rest(s.bulk) != [] && Fp.Mid(Rest(s.bulk)[0]))
    && (forall i :: 0 <= i < |s.direct| ==> s.direct[i] != [] && Fp.Chained(s.direct[i]))
    && (forall i :: 0 < i < |s.direct| ==> !Fp.Mid(s.direct[i][0]))
    && (s.sync.synced.None? ==> Alone(s))
  }

  ghost predicate Base(s: Session, p: Policy) {
    && Hub.HubInv(s.hub) && s.hub.subs == []
    && (s.hub.latest.Some? ==> Sendable(s.hub.latest.value.width, s.hub.latest.value.height, p.planar))
    && (s.phase.Attached? ==> s.next <= |s.hub.sent|)
    && (s.initial.Some? ==> s.hub.latest.Some?)
    && (!s.phase.Attached? ==> s.sync == START)
    && SyncOk(s) && StreamsOk(s)
    && (s.hub.latest.None? || !s.phase.Attached? ==>
          s.direct == [] && forall x: nat, y: nat :: s.marks(x, y) == Blank && s.painted(x, y) == None && !s.behind(x, y))
  }

  /** What a position shows once `painted` has arrived. */
  ghost function ShownAt(s: Session, x: nat, y: nat): seq<byte> {
    match s.painted(x, y) case Some(c) => c case None => s.first(x, y)
  }

  /** What is on its way brings the client to what was completed at the writer. */
  ghost predicate WireOk(s: Session) {
    var v := OnPdus(s.client, s.wire);
    v.partial == s.writer && forall x: nat, y: nat :: v.screen(x, y) == ShownAt(s, x, y)
  }

  ghost predicate MarkOk(s: Session, x: nat, y: nat) {
    match s.marks(x, y)
    case Blank => s.sync.synced.None? && s.painted(x, y) == None
    case Synced => s.sync.synced.Some? && (Agrees(s, x, y) || Reaches(Ahead(s), x, y))
    case Direct => s.painted(x, y).Some?
    case Torn => s.sync.synced.Some?
  }

  /** The background send paints the confirmed frame. */
  ghost predicate BulkOk(s: Session, x: nat, y: nat) {
    s.sync.synced.Some? ==> Only(Ahead(s), x, y, Confirmed(s, x, y))
  }

  /** With nothing owed, the confirmed frame is the latest one, but for what was behind when output was resumed. */
  ghost predicate UpToDate(s: Session, x: nat, y: nat)
    requires s.hub.latest.Some?
  {
    !Owed(s) ==>
      && (s.allowed && s.sync.synced.Some? && !s.behind(x, y) ==> Confirmed(s, x, y) == FrameColour(s.hub.latest.value, x, y))
      && (s.marks(x, y).Blank? ==> s.missed)
  }

  ghost predicate PixelOk(s: Session, x: nat, y: nat)
    requires s.hub.latest.Some?
  {
    BulkOk(s, x, y) && MarkOk(s, x, y) && UpToDate(s, x, y)
  }

  ghost predicate PixelsOk(s: Session) {
    s.hub.latest.Some? ==> forall x: nat, y: nat :: Visible(s.hub.latest.value, x, y) ==> PixelOk(s, x, y)
  }

  ghost predicate Inv(s: Session, p: Policy) {
    Base(s, p) && WireOk(s) && PixelsOk(s)
  }

  // ------------------------------------------------------------------
  // What arrives of an update
  // ------------------------------------------------------------------

  lemma LatestFull(h: Hub.Hub)
    requires Hub.HubInv(h) && h.latest.Some?
    ensures var f := h.latest.value;
            f.Valid() && Latest(h) == Some(FullUpdate(f)) && FrameOf(FullUpdate(f)) == f && IsFull(FullUpdate(f))
            && ViewOf(FullUpdate(f), f)
  {
  }

  /** A view of a frame the encoder can send paints that frame where it lies, and nothing elsewhere. */
  lemma ViewArrives(u: BitmapUpdate, f: Frame, p: Policy, x: nat, y: nat)
    requires f.Valid() && ViewOf(u, f) && Sendable(f.width, f.height, p.planar)
    ensures Only(Arrives(u, p), x, y, FrameColour(f, x, y))
    ensures Reaches(Arrives(u, p), x, y) <==> Shows(u, x, y)
  {
    hide Rects, Arrives, LastByte, Colour, PixelOf, PaintedAt, Backed;
    ViewIsBacked(u, f);
    ArrivesIff(u, p);
    UpdateShows(u, p.planar, x, y);
    if Shows(u, x, y) {
      ViewShows(u, f, x, y);
    }
  }

  lemma ViewSends(u: BitmapUpdate, f: Frame, p: Policy)
    requires f.Valid() && ViewOf(u, f) && Sendable(f.width, f.height, p.planar)
    ensures Fp.Send(PdusFor(u, p)) && Fp.Makes(None, PdusFor(u, p)) == Arrives(u, p)
  {
    hide Rects, Arrives, LastByte, Fp.SendPdus, Fp.Makes, Fp.Leaves, Fp.Send;
    ViewIsBacked(u, f);
    SentMakes(u, p, None);
    Fp.SendIsChained(Rects(u, p.planar), p.offered, !p.planar);
    SendNotEmpty(PdusFor(u, p));
  }

  lemma SendNotEmpty(pdus: seq<Fp.Pdu>)
    ensures Fp.Send(pdus) ==> pdus != []
  {
  }

  ghost predicate AllViews(us: seq<BitmapUpdate>, f: Frame) {
    forall i :: 0 <= i < |us| ==> ViewOf(us[i], f)
  }

  lemma {:induction false} PartsAreViews(f: Frame, rects: seq<Corners>)
    requires f.Valid()
    ensures AllViews(Parts(FullUpdate(f), rects), f)
    decreases |rects|
  {
    if rects != [] {
      PartsAreViews(f, rects[1..]);
    }
  }

  lemma FullShown(f: Frame, x: nat, y: nat)
    requires f.Valid() && Visible(f, x, y)
    ensures ShownBy([FullUpdate(f)], x, y) && AllViews([FullUpdate(f)], f)
  {
  }

  /** What is sent directly: each part a send of its own. */
  lemma {:induction false} SendsAreSends(us: seq<BitmapUpdate>, f: Frame, p: Policy)
    requires f.Valid() && AllViews(us, f) && Sendable(f.width, f.height, p.planar)
    ensures forall i :: 0 <= i < |Sends(us, p)| ==> Fp.Send(Sends(us, p)[i])
    decreases |us|
  {
    hide Fp.Send, PdusFor, ViewOf;
    if us != [] {
      assert ViewOf(us[0], f);
      ViewSends(us[0], f, p);
      assert AllViews(us[1..], f);
      SendsAreSends(us[1..], f, p);
      var all, rest := Sends(us, p), Sends(us[1..], p);
      assert forall i :: 0 < i < |all| ==> all[i] == rest[i - 1];
    }
  }

  // ------------------------------------------------------------------
  // Every step keeps the invariant: catching up
  // ------------------------------------------------------------------

  /** The resync that is about to be sent. */
  lemma Taken(s: Session, p: Policy, c: Choice)
    requires Base(s, p) && s.allowed && ChoiceOk(s, c) && s.sync.pending && s.hub.latest.Some?
    ensures var f := s.hub.latest.value;
            var u := Resync(s.sync.synced, FullUpdate(f), c.diff);
            && Latest(s.hub) == Some(FullUpdate(f))
            && TakePending(s.sync, Latest(s.hub), c.diff)
               == (if u.None? then s.sync.(pending := false) else s.sync.(pending := false, target := Some(FullUpdate(f))), u)
            && (u.None? ==> s.sync.synced.Some? && SamePicture(FrameOf(s.sync.synced.value), f))
            && (u.Some? ==> ViewOf(u.value, f) && forall x: nat, y: nat :: Visible(f, x, y) && !Shows(u.value, x, y) ==>
                  s.sync.synced.Some? && PixelAt(FrameOf(s.sync.synced.value), x, y) == PixelAt(f, x, y))
  {
    hide PixelOf, Found, Resync, SamePicture, Hub.Replayable, StreamsOk;
    LatestFull(s.hub);
    ResyncCovers(s.sync.synced, FullUpdate(s.hub.latest.value), c.diff);
  }

  ghost predicate PutOff(s: Session, t: Session) {
    && t == s.(sync := t.sync) && t.sync.synced == s.sync.synced && t.sync.target.None?
    && (t.sync.pending || !s.sync.pending || s.hub.latest.None?)
  }

  ghost predicate NothingNew(s: Session, t: Session) {
    && t == Current(s).(sync := s.sync.(pending := false)) && s.hub.latest.Some? && s.sync.pending
    && s.sync.synced.Some? && SamePicture(FrameOf(s.sync.synced.value), s.hub.latest.value)
  }

  /** What a catch-up does: nothing yet, or nothing to send, or a background send of the difference. */
  lemma CatchUpIs(s: Session, p: Policy, c: Choice)
    requires Base(s, p) && s.phase.Attached? && s.allowed && ChoiceOk(s, c)
    ensures var t := CatchUp(s, p, c);
            PutOff(s, t) || NothingNew(s, t) || exists u :: QueuedUpdate(s, t, p, u)
  {
    hide Resync, Found, Hub.HubInv, SamePicture, PixelOf, StreamsOk, ViewOf;
    if s.sync.pending && s.hub.latest.Some? {
      Taken(s, p, c);
      var u := Resync(s.sync.synced, FullUpdate(s.hub.latest.value), c.diff);
      var t := CatchUp(s, p, c);
      if u.Some? && s.bulk.None? && !c.backlog && c.queued {
        assert QueuedUpdate(s, t, p, u.value);
      }
    } else if s.sync.pending {
      assert Latest(s.hub).None?;
    }
  }

  ghost predicate QueuedUpdate(s: Session, t: Session, p: Policy, u: BitmapUpdate) {
    && s.hub.latest.Some? && s.bulk.None? && s.hub.latest.value.width < 0x1_0000 && s.hub.latest.value.height < 0x1_0000
    && var f := s.hub.latest.value;
    && t == Current(s).(sync := Sync(false, Some(FullUpdate(f)), None), bulk := Some(PdusFor(u, p)), marks := Resynced(s.marks, u))
    && ViewOf(u, f)
    && forall x: nat, y: nat :: Visible(f, x, y) && !Shows(u, x, y) ==>
         s.sync.synced.Some? && PixelAt(FrameOf(s.sync.synced.value), x, y) == PixelAt(f, x, y)
  }

  lemma QueuedKeeps(s: Session, t: Session, p: Policy, u: BitmapUpdate)
    requires Inv(s, p) && s.phase.Attached? && s.direct == [] && QueuedUpdate(s, t, p, u)
    ensures Inv(t, p)
  {
    hide Hub.HubInv, PixelOf, Colour, PaintedAt, ViewOf, Sendable, Fp.Makes, Fp.Leaves, Arrives, PdusFor, LastAt, DrawAll, Fp.Chained;
    var f := s.hub.latest.value;
    LatestFull(s.hub);
    ViewSends(u, f, p);
    SendIsWhole(PdusFor(u, p));
    assert Ahead(t) == Arrives(u, p);
    assert Ahead(s) == [] by { Fp.MakesNothing(None); }
    forall x: nat, y: nat | Visible(f, x, y) ensures PixelOk(t, x, y) {
      assert PixelOk(s, x, y);
      ViewArrives(u, f, p, x, y);
    }
  }

  lemma SendIsWhole(pdus: seq<Fp.Pdu>)
    requires Fp.Send(pdus)
    ensures pdus != [] && Fp.Chained(pdus) && Fp.Ends(pdus[|pdus| - 1]) && pdus[0].fragmentation.Single?
  {
  }

  /** A change that only adds to what is owed, or leaves the session waiting for less, touches no position. */
  lemma Unmoved(s: Session, t: Session, p: Policy)
    requires Inv(s, p) && Base(t, p)
    requires t == s.(phase := t.phase, initial := t.initial, next := t.next, gateOpen := t.gateOpen, allowed := t.allowed,
                     sync := t.sync, bulk := t.bulk, direct := t.direct, source := t.source, missed := t.missed, behind := t.behind)
    requires t.sync.synced == s.sync.synced && Rest(t.bulk) == Rest(s.bulk)
    requires s.hub.latest.Some? ==> forall x: nat, y: nat :: Visible(s.hub.latest.value, x, y) ==> UpToDate(t, x, y)
    ensures Inv(t, p)
  {
    hide Base, Hub.HubInv, PixelOf, Colour, DrawAll, Reaches, Only, Fp.Makes, Fp.Leaves, UpToDate;
    assert OnPdus(t.client, t.wire) == OnPdus(s.client, s.wire);
    assert Ahead(t) == Ahead(s);
    if s.hub.latest.Some? {
      forall x: nat, y: nat | Visible(s.hub.latest.value, x, y) ensures PixelOk(t, x, y) {
        assert PixelOk(s, x, y);
      }
    }
  }

  lemma CatchUpKeeps(s: Session, p: Policy, c: Choice)
    requires Inv(s, p) && Free(s) && s.allowed && ChoiceOk(s, c)
    ensures Inv(CatchUp(s, p, c), p)
  {
    hide CatchUp, Hub.HubInv, PixelOf, Colour, WireOk, Found, QueuedUpdate, Ahead, Reaches, Only;
    CatchUpIs(s, p, c);
    var t := CatchUp(s, p, c);
    if u :| QueuedUpdate(s, t, p, u) {
      QueuedKeeps(s, t, p, u);
    } else {
      if s.hub.latest.Some? {
        forall x: nat, y: nat | Visible(s.hub.latest.value, x, y) ensures UpToDate(t, x, y) {
          assert PixelOk(s, x, y);
          if t.sync.synced.Some? && SamePicture(FrameOf(s.sync.synced.value), s.hub.latest.value) {
            assert PixelAt(FrameOf(s.sync.synced.value), x, y) == PixelAt(s.hub.latest.value, x, y);
          }
        }
      }
      Unmoved(s, t, p);
    }
  }

  // ------------------------------------------------------------------
  // Requests and wake-ups
  // ------------------------------------------------------------------

  /** A direct send has yet to complete anything. */
  lemma DirectBase(s: Session, t: Session, p: Policy, us: seq<BitmapUpdate>)
    requires Base(s, p) && Free(s) && s.hub.latest.Some? && AllViews(us, s.hub.latest.value)
    requires t == SendDirect(s, p, us, s.hub.latest.value).(allowed := t.allowed, behind := t.behind)
    ensures Base(t, p)
  {
    hide Hub.HubInv, AllViews, Sendable, Fp.Chained, IsFull;
    LatestFull(s.hub);
    SendsAreSends(us, s.hub.latest.value, p);
    forall i | 0 <= i < |t.direct| ensures t.direct[i] != [] && Fp.Chained(t.direct[i]) && !Fp.Mid(t.direct[i][0]) {
      SendIsWhole(t.direct[i]);
    }
  }

  lemma SuppressKeeps(s: Session, p: Policy, allow: bool)
    requires Inv(s, p) && Enabled(s, Suppress(allow))
    ensures Inv(OnSuppress(s, p, allow), p)
  {
    hide Sends, Hub.HubInv, PixelOf, Colour, Sendable, Reaches, Only, WireOk, Ahead, StreamsOk;
    var t := OnSuppress(s, p, allow);
    if s.hub.latest.Some? {
      var f := s.hub.latest.value;
      LatestFull(s.hub);
      if allow && !s.allowed {
        FullViews(f);
        DirectBase(s, t, p, [FullUpdate(f)]);
      } else {
        assert StreamsOk(t) by { SameStreams(s, t); }
      }
      forall x: nat, y: nat | Visible(f, x, y) ensures UpToDate(t, x, y) {
        assert PixelOk(s, x, y);
      }
    } else {
      assert StreamsOk(t) by { SameStreams(s, t); }
    }
    Unmoved(s, t, p);
  }

  lemma FullViews(f: Frame)
    requires f.Valid()
    ensures AllViews([FullUpdate(f)], f)
  {
  }

  lemma SameStreams(s: Session, t: Session)
    requires StreamsOk(s) && Rest(t.bulk) == Rest(s.bulk) && t.owner == s.owner && t.direct == s.direct
    requires t.sync.synced == s.sync.synced
    ensures StreamsOk(t)
  {
    hide Fp.Chained;
  }

  lemma RefreshKeeps(s: Session, p: Policy, rects: seq<Corners>)
    requires Inv(s, p) && Enabled(s, Refresh(rects))
    ensures Inv(OnRefresh(s, p, rects), p)
  {
    hide Sends, Hub.HubInv, PixelOf, Colour, Sendable, Reaches, Only, WireOk, Ahead, Parts, Base;
    var t := OnRefresh(s, p, rects);
    if s.hub.latest.Some? {
      var f := s.hub.latest.value;
      assert Hub.HubInv(s.hub) by { BaseHub(s, p); }
      LatestFull(s.hub);
      FullViews(f);
      PartsAreViews(f, rects);
      DirectBase(s, t, p, if rects == [] then [FullUpdate(f)] else Parts(FullUpdate(f), rects));
      forall x: nat, y: nat | Visible(f, x, y) ensures UpToDate(t, x, y) {
        assert PixelOk(s, x, y);
      }
      Unmoved(s, t, p);
    }
  }

  lemma BaseHub(s: Session, p: Policy)
    requires Base(s, p)
    ensures Hub.HubInv(s.hub)
  {
  }

  lemma GiveUpKeeps(s: Session, p: Policy)
    requires Inv(s, p) && Enabled(s, GiveUp)
    ensures Inv(Step(s, p, GiveUp), p)
  {
    hide Hub.HubInv, PixelOf, Colour, Reaches, Only, WireOk, Ahead, Fp.Chained;
    var t := Step(s, p, GiveUp);
    if s.hub.latest.Some? {
      forall x: nat, y: nat | Visible(s.hub.latest.value, x, y) ensures UpToDate(t, x, y) {
        assert PixelOk(s, x, y);
      }
    }
    Unmoved(s, t, p);
  }

  /** A step of the loop before it catches up. */
  lemma LoopKeeps(s: Session, t: Session, p: Policy)
    requires Inv(s, p) && s.phase.Attached?
    requires t == s.(initial := t.initial, next := t.next, gateOpen := t.gateOpen, sync := t.sync, bulk := t.bulk, missed := t.missed)
    requires t.sync == s.sync || t.sync == MarkDirty(s.sync)
    requires Rest(t.bulk) == Rest(s.bulk) && (t.bulk.Some? ==> s.bulk.Some?)
    requires s.next <= t.next <= |s.hub.sent| && (t.initial.Some? ==> t.initial == s.initial)
    requires t.missed ==> s.sync.synced.None?
    requires Owed(t) || (!Owed(s) && t.missed == s.missed) || (!s.allowed && (s.sync.synced.None? ==> t.missed))
    ensures Inv(t, p)
  {
    hide Hub.HubInv, PixelOf, Colour, Reaches, Only, WireOk, Ahead, Sendable, StreamsOk, IsFull;
    SameStreams(s, t);
    if s.hub.latest.Some? {
      forall x: nat, y: nat | Visible(s.hub.latest.value, x, y) ensures UpToDate(t, x, y) {
        assert PixelOk(s, x, y);
      }
    }
    Unmoved(s, t, p);
  }

  lemma WakeKeeps(s: Session, p: Policy, c: Choice)
    requires Inv(s, p) && Enabled(s, Wake(c))
    ensures Inv(Step(s, p, Wake(c)), p)
  {
    hide CatchUp, Inv, Found, Woken;
    AtMostSent(s, p);
    WokenIs(s);
    var t := Woken(s);
    var d := t.(sync := MarkDirty(t.sync), missed := false);
    if !t.gateOpen || t.allowed {
      LoopKeeps(s, d, p);
      if t.gateOpen {
        CatchUpKeeps(d, p, c);
      }
    } else {
      LoopKeeps(s, t.(missed := s.sync.synced.None?), p);
    }
  }

  lemma WokenIs(s: Session)
    requires s.initial.Some? || s.next < |s.hub.sent|
    ensures var t := Woken(s);
            && t == s.(initial := t.initial, next := t.next) && t.initial.None?
            && s.next <= t.next && (s.next <= |s.hub.sent| ==> t.next <= |s.hub.sent|)
            && (s.initial.None? ==> s.next < t.next)
  {
  }

  lemma AtMostSent(s: Session, p: Policy)
    requires Inv(s, p) && s.phase.Attached?
    ensures s.next <= |s.hub.sent| && (s.missed ==> s.sync.synced.None?)
  {
  }

  lemma JoinKeeps(s: Session, p: Policy, c: Choice)
    requires Inv(s, p) && Enabled(s, Join(c))
    ensures Inv(Step(s, p, Join(c)), p)
  {
    hide CatchUp, Inv, Found;
    AtMostSent(s, p);
    LoopKeeps(s, s.(bulk := None), p);
    if s.allowed && s.gateOpen {
      CatchUpKeeps(s.(bulk := None), p, c);
    }
  }

  lemma OpenGateKeeps(s: Session, p: Policy, c: Choice)
    requires Inv(s, p) && Enabled(s, OpenGate(c))
    ensures Inv(Step(s, p, OpenGate(c)), p)
  {
    hide CatchUp, Inv, Found;
    AtMostSent(s, p);
    LoopKeeps(s, s.(gateOpen := true), p);
    if s.allowed {
      CatchUpKeeps(s.(gateOpen := true), p, c);
    }
  }

  /** Before it is attached, a session has sent nothing and is owed everything. */
  lemma SubscribeKeeps(s: Session, p: Policy, a: Action)
    requires a.Subscribe? || a.Attach?
    requires Inv(s, p) && Enabled(s, a)
    ensures Inv(Step(s, p, a), p)
  {
    hide Hub.HubInv, PixelOf, Colour, Reaches, Only, WireOk, Ahead, Sendable, StreamsOk;
    var t := Step(s, p, a);
    SameStreams(s, t);
    if s.hub.latest.Some? {
      forall x: nat, y: nat | Visible(s.hub.latest.value, x, y) ensures UpToDate(t, x, y) {
        assert PixelOk(s, x, y);
      }
    }
    Unmoved(s, t, p);
  }

  // ------------------------------------------------------------------
  // Handing over
  // ------------------------------------------------------------------

  /** What the background send has ahead of it: less the rectangles it completes, unless its update was broken before. */
  lemma BulkAhead(s: Session, t: Session, p: Fp.Pdu)
    requires Rest(s.bulk) != [] && p == Rest(s.bulk)[0]
    requires t.owner == NextOwner(s.owner, Background, p) && t.writer == Fp.Leaves(s.writer, [p]) && Rest(t.bulk) == Rest(s.bulk)[1..]
    ensures s.owner == Of(Background) || !Fp.Mid(p) ==> Ahead(s) == Fp.Makes(s.writer, [p]) + Ahead(t)
    ensures s.owner != Of(Background) && Fp.Mid(p) ==> Ahead(t) == Ahead(s)
  {
    hide Fp.Makes, Fp.Leaves;
    var from := if s.owner == Of(Background) then s.writer else None;
    Fp.MakesFirst(from, Rest(s.bulk));
    Fp.OnePdu(s.writer, p);
    Fp.OnePdu(None, p);
    assert [] + Ahead(t) == Ahead(t);
  }

  /** A direct PDU breaks the update the background send is in. */
  lemma DirectBreaks(s: Session, t: Session) returns (lost: seq<Rectangle>)
    requires t.owner != Of(Background) && Rest(t.bulk) == Rest(s.bulk)
    ensures Ahead(s) == lost + Ahead(t)
    ensures s.owner != Of(Background) ==> lost == []
  {
    hide Fp.Makes;
    if s.owner == Of(Background) {
      lost := Fp.Forgetting(s.writer, Rest(s.bulk));
    } else {
      lost := [];
      assert [] + Ahead(t) == Ahead(t);
    }
  }

  lemma InkedAt(ink: Ink, rs: seq<Rectangle>, x: nat, y: nat)
    ensures !Reaches(rs, x, y) ==> Inked(ink, rs)(x, y) == ink(x, y)
    ensures Reaches(rs, x, y) ==> Inked(ink, rs)(x, y).Some?
    ensures forall c :: Reaches(rs, x, y) && Only(rs, x, y, c) ==> Inked(ink, rs)(x, y) == Some(c)
  {
    hide PaintedAt;
    var s: Screen := (x, y) => [];
    DrawAllLeaves(s, rs, x, y);
    hide LastAt, Reaches, Only;
    forall c | Reaches(rs, x, y) && Only(rs, x, y, c) ensures LastAt(rs, x, y) == Some(c) {
      DrawAllAt(s, rs, x, y, c);
    }
  }

  lemma HandBulkPixel(s: Session, t: Session, p: Policy, x: nat, y: nat)
    requires Base(s, p) && Enabled(s, HandBulk) && t == Step(s, p, HandBulk)
    requires s.hub.latest.Some? && PixelOk(s, x, y)
    ensures PixelOk(t, x, y)
  {
    hide Hub.HubInv, FrameColour, DrawAll, Reaches, Only, LastAt, Fp.Makes, Fp.Leaves, Ahead, StreamsOk, Inked;
    var pdu := Rest(s.bulk)[0];
    var rs := Fp.Makes(s.writer, [pdu]);
    BulkAhead(s, t, pdu);
    InkedAt(s.painted, rs, x, y);
    var c := Confirmed(s, x, y);
    AppendPaints(rs, Ahead(t), x, y, c);
    RemarkedAt(s.(bulk := Some(Rest(s.bulk)[1..])), Background, pdu, x, y);
  }

  lemma RemarkedAt(s: Session, who: Sender, pdu: Fp.Pdu, x: nat, y: nat)
    ensures var t := Hand(s, who, pdu);
            var rs := Fp.Makes(s.writer, [pdu]);
            && t.painted(x, y) == Inked(s.painted, rs)(x, y)
            && t.marks(x, y) ==
               if Reaches(rs, x, y) then
                 if Agrees(t, x, y) then Synced
                 else if who.Foreground? && (pdu.fragmentation.Single? || s.owner == Of(who)) then Direct else Torn
               else if s.marks(x, y).Synced? && !Agrees(t, x, y) && !Reaches(Ahead(t), x, y) then Torn
               else s.marks(x, y)
  {
    hide Reaches, Ahead, Inked, Fp.Makes, Fp.Leaves, FrameColour;
    var t, h := Hand(s, who, pdu), Handed(s, who, pdu);
    var rs := Fp.Makes(s.writer, [pdu]);
    var whole := who.Foreground? && (pdu.fragmentation.Single? || s.owner == Of(who));
    assert t == h.(marks := Remarked(h, rs, whole));
    SameAhead(t, h);
    assert Agrees(t, x, y) == Agrees(h, x, y);
    assert t.painted(x, y) == Inked(s.painted, rs)(x, y);
    assert Remarked(h, rs, whole)(x, y) ==
             if Reaches(rs, x, y) then if Agrees(h, x, y) then Synced else if whole then Direct else Torn
             else if h.marks(x, y).Synced? && !Agrees(h, x, y) && !Reaches(Ahead(h), x, y) then Torn
             else h.marks(x, y);
  }

  lemma SameAhead(s: Session, t: Session)
    requires s.owner == t.owner && s.writer == t.writer && Rest(s.bulk) == Rest(t.bulk)
    ensures Ahead(s) == Ahead(t)
  {
  }

  lemma HandDirectPixel(s: Session, t: Session, p: Policy, x: nat, y: nat)
    requires Base(s, p) && Enabled(s, HandDirect) && t == Step(s, p, HandDirect)
    requires s.hub.latest.Some? && PixelOk(s, x, y)
    ensures PixelOk(t, x, y)
  {
    hide Hub.HubInv, FrameColour, DrawAll, Reaches, Only, LastAt, Fp.Makes, Fp.Leaves, Ahead, Inked, Fp.Chained;
    var pdu := s.direct[0][0];
    var rs := Fp.Makes(s.writer, [pdu]);
    var lost := DirectBreaks(s, t);
    InkedAt(s.painted, rs, x, y);
    if s.sync.synced.Some? {
      AppendPaints(lost, Ahead(t), x, y, Confirmed(s, x, y));
    } else if !pdu.fragmentation.Single? && s.owner != Of(Foreground) {
      assert !Fp.Mid(pdu);
      Fp.OnePdu(s.writer, pdu);
      NothingReaches(x, y);
    }
    RemarkedAt(s.(direct := Advanced(s.direct)), Foreground, pdu, x, y);
  }

  lemma NothingReaches(x: nat, y: nat)
    ensures !Reaches([], x, y)
  {
  }

  lemma HandBase(s: Session, p: Policy, a: Action)
    requires a.HandBulk? || a.HandDirect?
    requires Base(s, p) && Enabled(s, a)
    ensures Base(Step(s, p, a), p)
  {
    hide Hub.HubInv, Inked, Remarked, Fp.Makes, Fp.Leaves, Sendable, IsFull, StreamsOk;
    HandStreams(s, p, a);
    assert s.hub.latest.Some? && s.phase.Attached? by { SendingAttached(s, p, a); }
  }

  lemma SendingAttached(s: Session, p: Policy, a: Action)
    requires a.HandBulk? || a.HandDirect?
    requires Base(s, p) && Enabled(s, a)
    ensures s.hub.latest.Some? && s.phase.Attached?
  {
  }

  lemma HandStreams(s: Session, p: Policy, a: Action)
    requires a.HandBulk? || a.HandDirect?
    requires Base(s, p) && Enabled(s, a)
    ensures StreamsOk(Step(s, p, a))
  {
    hide Hub.HubInv, Inked, Remarked, Fp.Makes, Fp.Leaves, Sendable, IsFull, StreamsOk;
    var t := Step(s, p, a);
    if a.HandBulk? {
      BulkStreams(s, t);
    } else {
      DirectStreams(s, t);
    }
  }

  lemma BulkStreams(s: Session, t: Session)
    requires StreamsOk(s) && SyncOk(s) && Rest(s.bulk) != []
    requires t.bulk == Some(Rest(s.bulk)[1..]) && t.direct == s.direct && t.sync == s.sync
    requires t.owner == NextOwner(s.owner, Background, Rest(s.bulk)[0])
    ensures StreamsOk(t)
  {
    hide Fp.Chained, IsFull;
    ChainedTail(Rest(s.bulk));
  }

  lemma DirectStreams(s: Session, t: Session)
    requires StreamsOk(s) && s.direct != []
    requires t.bulk == s.bulk && t.direct == Advanced(s.direct) && t.sync == s.sync
    requires t.owner == NextOwner(s.owner, Foreground, s.direct[0][0])
    ensures StreamsOk(t)
    ensures Alone(s) ==> Alone(t)
  {
    hide Fp.Chained;
    ChainedTail(s.direct[0]);
    var rest := s.direct[1..];
    assert forall i :: 0 <= i < |rest| ==> rest[i] == s.direct[i + 1];
    forall i | 0 <= i < |t.direct|
      ensures t.direct[i] != [] && Fp.Chained(t.direct[i]) && (i > 0 ==> !Fp.Mid(t.direct[i][0]))
    {
      if |s.direct[0]| > 1 && i > 0 {
        assert t.direct[i] == rest[i - 1];
      }
    }
  }

  lemma ChainedTail(pdus: seq<Fp.Pdu>)
    requires pdus != [] && Fp.Chained(pdus)
    ensures Fp.Chained(pdus[1..]) && (|pdus| > 1 ==> (Fp.Mid(pdus[1]) <==> !Fp.Ends(pdus[0])))
  {
  }

  lemma ViewAppend(v: View, a: seq<Fp.Pdu>, b: seq<Fp.Pdu>)
    ensures OnPdus(v, a + b) == OnPdus(OnPdus(v, a), b)
  {
    hide Fp.Makes, Fp.Leaves, DrawAll;
    Fp.MakesAppend(v.partial, a, b);
    DrawAllAppend(v.screen, Fp.Makes(v.partial, a), Fp.Makes(Fp.Leaves(v.partial, a), b));
  }

  lemma HandWire(s: Session, t: Session, pdu: Fp.Pdu)
    requires WireOk(s) && t.wire == s.wire + [pdu] && t.client == s.client && t.first == s.first
    requires t.writer == Fp.Leaves(s.writer, [pdu]) && t.painted == Inked(s.painted, Fp.Makes(s.writer, [pdu]))
    ensures WireOk(t)
  {
    hide Fp.Makes, Fp.Leaves;
    ViewAppend(s.client, s.wire, [pdu]);
    var v, rs := OnPdus(s.client, s.wire), Fp.Makes(s.writer, [pdu]);
    var w := OnPdus(t.client, t.wire);
    assert w == OnPdus(v, [pdu]) && w.screen == DrawAll(v.screen, rs);
    forall x: nat, y: nat ensures w.screen(x, y) == ShownAt(t, x, y) {
      DrawAllLeaves(v.screen, rs, x, y);
      assert v.screen(x, y) == ShownAt(s, x, y);
    }
  }

  lemma HandKeeps(s: Session, p: Policy, a: Action)
    requires a.HandBulk? || a.HandDirect?
    requires Inv(s, p) && Enabled(s, a)
    ensures Inv(Step(s, p, a), p)
  {
    hide PixelOk, Base, WireOk, Inked, Remarked, Fp.Makes, Fp.Leaves;
    var t := Step(s, p, a);
    HandBase(s, p, a);
    if a.HandBulk? {
      HandWire(s, t, Rest(s.bulk)[0]);
    } else {
      HandWire(s, t, s.direct[0][0]);
    }
    if s.hub.latest.Some? {
      forall x: nat, y: nat | Visible(s.hub.latest.value, x, y) ensures PixelOk(t, x, y) {
        if a.HandBulk? {
          HandBulkPixel(s, t, p, x, y);
        } else {
          HandDirectPixel(s, t, p, x, y);
        }
      }
    }
  }

  lemma ArriveKeeps(s: Session, p: Policy)
    requires Inv(s, p) && Enabled(s, Arrive)
    ensures Inv(Step(s, p, Arrive), p)
  {
    hide Hub.HubInv, PixelOf, Colour, Reaches, Only, OnPdus, Fp.Makes, StreamsOk, Sendable;
    var t := Step(s, p, Arrive);
    ViewAppend(s.client, [s.wire[0]], s.wire[1..]);
    assert [s.wire[0]] + s.wire[1..] == s.wire;
    SameStreams(s, t);
    SameAhead(s, t);
    if s.hub.latest.Some? {
      forall x: nat, y: nat | Visible(s.hub.latest.value, x, y) ensures PixelOk(t, x, y) {
        assert PixelOk(s, x, y);
      }
    }
  }

  // ------------------------------------------------------------------
  // The capture side
  // ------------------------------------------------------------------

  /** A tick with nothing to broadcast leaves every visible pixel as it was. */
  lemma QuietTick(h: Hub.Hub, c: Capture, diff: seq<Rect>, x: nat, y: nat)
    requires Hub.HubInv(h) && Hub.Enabled(h, Hub.Tick(c, diff)) && Visible(c.frame, x, y)
    requires Hub.Step(h, Hub.Tick(c, diff)).inFlight.None? && !c.same
    ensures h.latest.Some? && FrameColour(h.latest.value, x, y) == FrameColour(c.frame, x, y)
  {
    hide Hub.HubInv, PixelOf, Colour, MergeRects, Hub.TickRects, Honest, IsDiff;
    Hub.TickUpdate(h, c, diff);
    assert !Hub.Changed(h.latest.value, c.frame, x, y);
  }

  lemma TickHub(h: Hub.Hub, c: Capture, diff: seq<Rect>)
    requires Hub.HubInv(h) && h.subs == [] && Hub.Enabled(h, Hub.Tick(c, diff))
    ensures Hub.HubInv(Hub.Step(h, Hub.Tick(c, diff)))
  {
    hide Hub.HubInv, Hub.Step, Hub.Enabled;
    Hub.TickKeeps(h, c, diff);
  }

  lemma TickKeeps(s: Session, p: Policy, c: Capture, diff: seq<Rect>)
    requires Inv(s, p) && Enabled(s, Tick(c, diff)) && SizeOk(Tick(c, diff), p)
    ensures Inv(Step(s, p, Tick(c, diff)), p)
  {
    hide Hub.HubInv, PixelOf, Colour, PaintedAt, Only, Reaches, DrawAll, MergeRects, Hub.TickRects, Honest, IsDiff, Ahead, StreamsOk;
    hide Fp.Makes, Fp.Leaves;
    var t := Step(s, p, Tick(c, diff));
    TickHub(s.hub, c, diff);
    SameStreams(s, t);
    SameAhead(s, t);
    if t.hub.latest.Some? {
      forall x: nat, y: nat | Visible(t.hub.latest.value, x, y) ensures PixelOk(t, x, y) {
        if !c.same && t.hub.inFlight.None? {
          QuietTick(s.hub, c, diff, x, y);
        }
        if s.hub.latest.Some? {
          assert PixelOk(s, x, y);
        }
      }
    }
  }

  lemma SendHub(h: Hub.Hub)
    requires Hub.HubInv(h) && h.subs == [] && h.inFlight.Some?
    ensures Hub.HubInv(Hub.Step(h, Hub.Send)) && Hub.Step(h, Hub.Send).subs == []
  {
    hide Hub.HubInv;
    Hub.SendKeeps(h);
  }

  lemma SendKeeps(s: Session, p: Policy)
    requires Inv(s, p) && Enabled(s, Send)
    ensures Inv(Step(s, p, Send), p)
  {
    hide Hub.HubInv, PixelOf, Colour, Reaches, Only, DrawAll, Ahead, StreamsOk, Fp.Makes, Fp.Leaves;
    var t := Step(s, p, Send);
    SendHub(s.hub);
    SameStreams(s, t);
    SameAhead(s, t);
    if s.hub.latest.Some? {
      forall x: nat, y: nat | Visible(s.hub.latest.value, x, y) ensures PixelOk(t, x, y) {
        assert PixelOk(s, x, y);
      }
    }
  }

  lemma StepKeeps(s: Session, p: Policy, a: Action)
    requires Inv(s, p) && Enabled(s, a) && SizeOk(a, p)
    ensures Inv(Step(s, p, a), p)
  {
    hide Inv, SizeOk;
    match a
    case Tick(c, diff) => TickKeeps(s, p, c, diff);
    case Send => SendKeeps(s, p);
    case Subscribe => SubscribeKeeps(s, p, a);
    case Attach => SubscribeKeeps(s, p, a);
    case Wake(c) => WakeKeeps(s, p, c);
    case Join(c) => JoinKeeps(s, p, c);
    case OpenGate(c) => OpenGateKeeps(s, p, c);
    case Ticker(c) => CatchUpKeeps(s, p, c);
    case Suppress(allow) => SuppressKeeps(s, p, allow);
    case Refresh(rects) => RefreshKeeps(s, p, rects);
    case HandBulk => HandKeeps(s, p, a);
    case HandDirect => HandKeeps(s, p, a);
    case GiveUp => GiveUpKeeps(s, p);
    case Arrive => ArriveKeeps(s, p);
  }

  ghost predicate SizesOk(actions: seq<Action>, p: Policy) {
    forall i :: 0 <= i < |actions| ==> SizeOk(actions[i], p)
  }

  lemma {:induction false} RunKeepsFrom(s: Session, p: Policy, actions: seq<Action>)
    requires Inv(s, p) && SizesOk(actions, p)
    ensures Inv(Run(s, p, actions), p) && Run(s, p, actions).first == s.first
    decreases |actions|
  {
    hide Inv, Step, Enabled, SizeOk;
    if actions != [] {
      var init, a := actions[..|actions| - 1], actions[|actions| - 1];
      RunKeepsFrom(s, p, init);
      assert SizeOk(a, p);
      if Enabled(Run(s, p, init), a) {
        StepKeeps(Run(s, p, init), p, a);
        FirstStays(Run(s, p, init), p, a);
      }
    }
  }

  lemma FirstStays(s: Session, p: Policy, a: Action)
    requires Enabled(s, a)
    ensures Step(s, p, a).first == s.first
  {
    hide Hub.Enabled, Found, Remarked, Inked, Fp.Makes, Fp.Leaves, CatchUp, Hub.Step, OnPdus;
    match a
    case Wake(c) => FirstCaughtUp(Woken(s).(sync := MarkDirty(s.sync), missed := false), p, c);
    case Join(c) => FirstCaughtUp(s.(bulk := None), p, c);
    case OpenGate(c) => FirstCaughtUp(s.(gateOpen := true), p, c);
    case Ticker(c) => FirstCaughtUp(s, p, c);
    case _ =>
  }

  lemma FirstCaughtUp(s: Session, p: Policy, c: Choice)
    ensures CatchUp(s, p, c).first == s.first
  {
    hide Resync, PdusFor;
  }

  /** Every state that any interleaving leads to. */
  lemma RunKeeps(screen: Screen, gateOpen: bool, p: Policy, actions: seq<Action>)
    requires SizesOk(actions, p)
    ensures Inv(Run(Init(screen, gateOpen), p, actions), p)
    ensures Run(Init(screen, gateOpen), p, actions).first == screen
  {
    hide Inv, Run;
    InitInv(screen, gateOpen, p);
    RunKeepsFrom(Init(screen, gateOpen), p, actions);
  }

  lemma InitInv(screen: Screen, gateOpen: bool, p: Policy)
    ensures Inv(Init(screen, gateOpen), p)
  {
    var s := Init(screen, gateOpen);
    assert OnPdus(s.client, []) == s.client;
  }

  // ------------------------------------------------------------------
  // What a client shows once everything has settled
  // ------------------------------------------------------------------

  /** Updates are wanted, none is owed, and everything that was sent has arrived. */
  ghost predicate Settled(s: Session) {
    && s.allowed && !Owed(s) && s.bulk.None? && s.direct == [] && s.wire == []
    && s.hub.latest.Some?
  }

  /** The client's pixel is the captured desktop's. */
  ghost predicate ShowsDesktop(s: Session, x: nat, y: nat) {
    s.hub.screen.Some? && s.client.screen(x, y) == FrameColour(s.hub.screen.value, x, y)
  }

  lemma SettledShows(s: Session, p: Policy, x: nat, y: nat)
    requires Inv(s, p) && Settled(s) && Visible(s.hub.latest.value, x, y)
    ensures s.hub.screen.Some? && FrameColour(s.hub.screen.value, x, y) == FrameColour(s.hub.latest.value, x, y)
    ensures s.client.screen(x, y) == ShownAt(s, x, y)
    ensures s.marks(x, y).Synced? ==> Agrees(s, x, y)
    ensures s.marks(x, y).Synced? && !s.behind(x, y) ==> ShowsDesktop(s, x, y)
    ensures s.marks(x, y).Blank? ==> s.missed && s.painted(x, y) == None
    ensures s.missed ==> s.marks(x, y).Blank? || s.marks(x, y).Direct?
  {
    hide Colour, PixelOf, Reaches, Only, Hub.Replayable, Ahead;
    assert PixelOk(s, x, y);
    assert OnPdus(s.client, []) == s.client;
    NothingAhead(s, x, y);
    assert PixelAt(s.hub.latest.value, x, y) == PixelAt(s.hub.screen.value, x, y);
  }

  lemma NothingAhead(s: Session, x: nat, y: nat)
    ensures s.bulk.None? ==> Ahead(s) == [] && !Reaches(Ahead(s), x, y)
  {
  }

  /**
    Over every interleaving, a settled client shows at each position the colour of the last update completed there,
    and what it showed at first where none was: so it shows the captured desktop exactly if that is the desktop's
    colour. It is, where the confirmed frame was last and was not behind when output was resumed. Nothing was ever
    completed at a position only if the session missed the wake-up for the latest frame, and then no resync was sent.
   */
  lemma ClientShowsDesktopIff(screen: Screen, gateOpen: bool, p: Policy, actions: seq<Action>, x: nat, y: nat)
    requires SizesOk(actions, p)
    requires var s := Run(Init(screen, gateOpen), p, actions);
             Settled(s) && Visible(s.hub.latest.value, x, y)
    ensures var s := Run(Init(screen, gateOpen), p, actions);
            var shown := if s.painted(x, y).Some? then s.painted(x, y).value else screen(x, y);
            && s.hub.screen.Some?
            && (ShowsDesktop(s, x, y) <==> shown == FrameColour(s.hub.screen.value, x, y))
            && (s.marks(x, y).Synced? && !s.behind(x, y) ==> ShowsDesktop(s, x, y))
            && (s.marks(x, y).Blank? ==> s.missed && s.painted(x, y) == None)
            && (s.missed ==> s.marks(x, y).Blank? || s.marks(x, y).Direct?)
  {
    hide Run, Inv;
    RunKeeps(screen, gateOpen, p, actions);
    SettledShows(Run(Init(screen, gateOpen), p, actions), p, x, y);
  }

  // ------------------------------------------------------------------
  // When direct sends do no harm
  // ------------------------------------------------------------------

  /** The confirmed frame, if there is one, has the latest frame's colours. */
  ghost predicate Agreed(s: Session) {
    s.hub.latest.Some? && s.sync.synced.Some? ==>
      forall x: nat, y: nat :: Visible(s.hub.latest.value, x, y) ==> Confirmed(s, x, y) == FrameColour(s.hub.latest.value, x, y)
  }

  predicate SendsDirectly(s: Session, a: Action) {
    a.Refresh? || (a.Suppress? && a.allow && !s.allowed)
  }

  /**
    Direct sends are made only while no background send is under way and the confirmed frame agrees with the latest,
    and are given up only if a frame is confirmed.
   */
  ghost predicate CalmAction(s: Session, a: Action) {
    && (SendsDirectly(s, a) ==> Agreed(s) && Rest(s.bulk) == [])
    && (a.GiveUp? ==> s.sync.synced.Some?)
  }

  ghost predicate Calm(s: Session, p: Policy, actions: seq<Action>)
    decreases |actions|
  {
    actions != [] ==>
      var init, a := actions[..|actions| - 1], actions[|actions| - 1];
      var before := Run(s, p, init);
      Calm(s, p, init) && (Enabled(before, a) ==> CalmAction(before, a))
  }

  function Flat(direct: seq<seq<Fp.Pdu>>): seq<Fp.Pdu> {
    if direct == [] then [] else direct[0] + Flat(direct[1..])
  }

  /** What the direct sends will still have completed, if nothing comes between. */
  function DirectAhead(s: Session): seq<Rectangle> {
    Fp.Makes(if s.owner == Of(Foreground) then s.writer else None, Flat(s.direct))
  }

  /** No update is broken. */
  predicate Unbroken(s: Session) {
    && !s.owner.Mixed? && (s.direct != [] ==> Alone(s) && s.source.Some?)
    && (Rest(s.bulk) != [] && Fp.Mid(Rest(s.bulk)[0]) ==> s.owner == Of(Background))
  }

  ghost predicate CalmPixel(s: Session, x: nat, y: nat)
    requires s.hub.latest.Some? && Unbroken(s)
  {
    var current := s.allowed && !Owed(s);
    && !s.behind(x, y)
    && !s.marks(x, y).Torn?
    && (s.marks(x, y).Direct? ==>
          && s.sync.synced.None?
          && (current ==> s.painted(x, y) == Some(FrameColour(s.hub.latest.value, x, y)) || Reaches(DirectAhead(s), x, y)))
    && (s.direct != [] ==>
          var c := FrameColour(s.source.value, x, y);
          && Only(DirectAhead(s), x, y, c)
          && (s.sync.synced.Some? ==> c == Confirmed(s, x, y))
          && (current ==> c == FrameColour(s.hub.latest.value, x, y)))
  }

  ghost predicate CalmInv(s: Session) {
    Unbroken(s) &&
    (s.hub.latest.Some? ==> forall x: nat, y: nat :: Visible(s.hub.latest.value, x, y) ==> CalmPixel(s, x, y))
  }

  lemma {:induction false} FlatMakes(us: seq<BitmapUpdate>, f: Frame, p: Policy, x: nat, y: nat)
    requires f.Valid() && AllViews(us, f) && Sendable(f.width, f.height, p.planar)
    ensures Only(Fp.Makes(None, Flat(Sends(us, p))), x, y, FrameColour(f, x, y))
    ensures Reaches(Fp.Makes(None, Flat(Sends(us, p))), x, y) <==> ShownBy(us, x, y)
    ensures Sends(us, p) != [] ==> Sends(us, p)[0] != [] && !Fp.Mid(Sends(us, p)[0][0])
    decreases |us|
  {
    hide Fp.Makes, Fp.Leaves, PdusFor, Arrives, FrameColour, PaintedAt, ViewOf, Fp.Chained;
    if us == [] {
      Fp.MakesNothing(None);
    } else {
      hide Only, Reaches;
      assert ViewOf(us[0], f) && AllViews(us[1..], f);
      var one, rest := PdusFor(us[0], p), Flat(Sends(us[1..], p));
      ViewSends(us[0], f, p);
      ViewArrives(us[0], f, p, x, y);
      FlatMakes(us[1..], f, p, x, y);
      SendIsWhole(one);
      assert Flat(Sends(us, p)) == one + rest by { assert Sends(us, p)[1..] == Sends(us[1..], p); }
      Fp.MakesAppend(None, one, rest);
      Fp.LeavesNothing(None, one);
      AppendPaints(Arrives(us[0], p), Fp.Makes(None, rest), x, y, FrameColour(f, x, y));
    }
  }

  lemma CalmCatchUp(s: Session, p: Policy, c: Choice)
    requires Inv(s, p) && CalmInv(s) && Free(s) && s.allowed && ChoiceOk(s, c)
    ensures CalmInv(CatchUp(s, p, c))
  {
    hide CatchUp, Hub.HubInv, WireOk, Found, PixelOf, Colour, PdusFor, Fp.Makes, Reaches, Only, PixelOk, Fp.Chained, ViewOf, Sendable;
    CatchUpIs(s, p, c);
    var t := CatchUp(s, p, c);
    if u :| QueuedUpdate(s, t, p, u) {
      LatestFull(s.hub);
      ViewSends(u, s.hub.latest.value, p);
      SendIsWhole(PdusFor(u, p));
    }
    if s.hub.latest.Some? {
      forall x: nat, y: nat | Visible(s.hub.latest.value, x, y) ensures CalmPixel(t, x, y) {
        assert CalmPixel(s, x, y);
        NoDirectAhead(s, x, y);
      }
    }
  }

  lemma NoDirectAhead(s: Session, x: nat, y: nat)
    ensures s.direct == [] ==> !Reaches(DirectAhead(s), x, y)
  {
  }

  lemma CalmDirect(s: Session, p: Policy, a: Action)
    requires Inv(s, p) && CalmInv(s) && Enabled(s, a) && (a.Suppress? || a.Refresh?) && CalmAction(s, a)
    ensures CalmInv(Step(s, p, a))
  {
    hide Hub.HubInv, FrameColour, SendDirect, Parts, WireOk, PixelOk, Reaches, Only, CalmPixel, Sendable, StreamsOk, IsFull;
    var t := Step(s, p, a);
    if s.hub.latest.Some? {
      LatestFull(s.hub);
      var f := s.hub.latest.value;
      FullViews(f);
      if SendsDirectly(s, a) {
        PartsAreViews(f, if a.Refresh? then a.rects else []);
        var us := if a.Refresh? && a.rects != [] then Parts(FullUpdate(f), a.rects) else [FullUpdate(f)];
        var b := if a.Suppress? then s.(allowed := true, behind := Lagging(s, f)) else s;
        assert t == SendDirect(b, p, us, f);
        CalmSends(s, b, p, us);
      } else {
        forall x: nat, y: nat | Visible(f, x, y) ensures CalmPixel(t, x, y) {
          CalmPaused(s, t, x, y);
        }
      }
    }
  }

  lemma CalmPaused(s: Session, t: Session, x: nat, y: nat)
    requires s.hub.latest.Some? && Unbroken(s) && CalmPixel(s, x, y) && (t == s || t == s.(allowed := false))
    ensures CalmPixel(t, x, y)
  {
    hide FrameColour, Reaches, Only, Fp.Makes;
    assert DirectAhead(t) == DirectAhead(s);
  }

  lemma CalmSends(s: Session, b: Session, p: Policy, us: seq<BitmapUpdate>)
    requires Base(s, p) && CalmInv(s) && Free(s) && s.hub.latest.Some? && Agreed(s) && Rest(s.bulk) == []
    requires AllViews(us, s.hub.latest.value)
    requires b == s || (b == s.(allowed := true, behind := Lagging(s, s.hub.latest.value)) && us == [FullUpdate(s.hub.latest.value)])
    ensures CalmInv(SendDirect(b, p, us, s.hub.latest.value))
  {
    hide Hub.HubInv, FrameColour, Sends, ShownBy, Reaches, Only, Flat, Fp.Chained, Sendable, IsFull, AllViews, Fp.Makes;
    var f := s.hub.latest.value;
    var t := SendDirect(b, p, us, f);
    LatestFull(s.hub);
    FlatMakes(us, f, p, 0, 0);
    StartsAnew(t);
    assert s.owner.Of? ==> s.owner.sender.Foreground?;
    assert Unbroken(t);
    forall x: nat, y: nat | Visible(f, x, y) ensures CalmPixel(t, x, y) {
      assert CalmPixel(s, x, y);
      NoDirectAhead(s, x, y);
      FlatMakes(us, f, p, x, y);
      FullShown(f, x, y);
    }
  }

  lemma StartsAnew(s: Session)
    requires s.direct != [] ==> s.direct[0] != [] && !Fp.Mid(s.direct[0][0])
    ensures DirectAhead(s) == Fp.Makes(None, Flat(s.direct))
  {
    hide Fp.Makes;
    Fp.Anew(if s.owner == Of(Foreground) then s.writer else None, Flat(s.direct));
  }

  lemma CalmTick(s: Session, p: Policy, c: Capture, diff: seq<Rect>)
    requires Inv(s, p) && CalmInv(s) && Enabled(s, Tick(c, diff))
    ensures CalmInv(Step(s, p, Tick(c, diff)))
  {
    hide Hub.HubInv, FrameColour, MergeRects, Hub.TickRects, Honest, IsDiff, PixelOk, WireOk, Reaches, Only, StreamsOk, Fp.Makes;
    var t := Step(s, p, Tick(c, diff));
    assert DirectAhead(t) == DirectAhead(s);
    if t.hub.latest.Some? {
      forall x: nat, y: nat | Visible(t.hub.latest.value, x, y) ensures CalmPixel(t, x, y) {
        if !c.same && t.hub.inFlight.None? {
          QuietTick(s.hub, c, diff, x, y);
        }
        if s.hub.latest.Some? {
          assert CalmPixel(s, x, y);
        }
      }
    }
  }

  /** The direct sends have the rectangles they complete ahead of them. */
  lemma DirectHands(s: Session, t: Session)
    requires s.direct != [] && s.direct[0] != [] && (Fp.Mid(s.direct[0][0]) ==> s.owner == Of(Foreground))
    requires t.owner == NextOwner(s.owner, Foreground, s.direct[0][0]) && t.direct == Advanced(s.direct)
    requires t.writer == Fp.Leaves(s.writer, [s.direct[0][0]])
    ensures DirectAhead(s) == Fp.Makes(s.writer, [s.direct[0][0]]) + DirectAhead(t)
  {
    hide Fp.Makes, Fp.Leaves;
    var pdu, flat := s.direct[0][0], Flat(s.direct);
    FlatAdvances(s.direct);
    var from := if s.owner == Of(Foreground) then s.writer else None;
    Fp.MakesFirst(from, flat);
    Fp.OnePdu(s.writer, pdu);
    Fp.OnePdu(None, pdu);
  }

  lemma WithoutFirst(a: seq<Fp.Pdu>, b: seq<Fp.Pdu>)
    requires a != []
    ensures (a + b)[0] == a[0] && (a + b)[1..] == a[1..] + b && (|a| == 1 ==> (a + b)[1..] == b)
  {
  }

  lemma FlatAdvances(direct: seq<seq<Fp.Pdu>>)
    requires direct != [] && direct[0] != []
    ensures Flat(direct) != [] && Flat(direct)[0] == direct[0][0] && Flat(direct)[1..] == Flat(Advanced(direct))
  {
    var rest := Flat(direct[1..]);
    assert Flat(direct) == direct[0] + rest;
    var a := Advanced(direct);
    if |direct[0]| > 1 {
      assert a[0] == direct[0][1..] && a[1..] == direct[1..];
      assert Flat(a) == a[0] + Flat(a[1..]);
    }
    hide Flat;
    WithoutFirst(direct[0], rest);
  }

  lemma CalmHandDirect(s: Session, p: Policy)
    requires Inv(s, p) && CalmInv(s) && Enabled(s, HandDirect)
    ensures CalmInv(Step(s, p, HandDirect))
  {
    hide Hub.HubInv, FrameColour, WireOk, PixelOk, Reaches, Only, Fp.Chained, Fp.Makes, Fp.Leaves, Inked, Remarked, Sendable, Flat, IsFull;
    var t := Step(s, p, HandDirect);
    DirectStreams(s, t);
    if s.hub.latest.Some? {
      forall x: nat, y: nat | Visible(s.hub.latest.value, x, y) ensures CalmPixel(t, x, y) {
        assert PixelOk(s, x, y);
        assert CalmPixel(s, x, y);
        CalmHandDirectAt(s, t, p, x, y);
      }
    }
  }

  lemma CalmHandDirectAt(s: Session, t: Session, p: Policy, x: nat, y: nat)
    requires s.hub.latest.Some? && t.hub == s.hub && Unbroken(s) && Unbroken(t)
    requires Enabled(s, HandDirect) && t == Step(s, p, HandDirect)
    requires Base(s, p) && PixelOk(s, x, y) && CalmPixel(s, x, y)
    ensures CalmPixel(t, x, y)
  {
    hide Hub.HubInv, FrameColour, Reaches, Only, StreamsOk, Fp.Makes, Fp.Leaves, Inked, Sendable, DirectAhead, Ahead, IsFull;
    var pdu := s.direct[0][0];
    var rs := Fp.Makes(s.writer, [pdu]);
    DirectHands(s, t);
    InkedAt(s.painted, rs, x, y);
    AppendPaints(rs, DirectAhead(t), x, y, FrameColour(s.source.value, x, y));
    RemarkedAt(s.(direct := Advanced(s.direct)), Foreground, pdu, x, y);
    NoBulkAhead(s, x, y);
    if Reaches(rs, x, y) && !pdu.fragmentation.Single? {
      Fp.OnePdu(s.writer, pdu);
      NothingReaches(x, y);
    }
  }

  lemma NoBulkAhead(s: Session, x: nat, y: nat)
    ensures Rest(s.bulk) == [] ==> !Reaches(Ahead(s), x, y)
  {
  }

  lemma CalmHandBulk(s: Session, p: Policy)
    requires Inv(s, p) && CalmInv(s) && Enabled(s, HandBulk)
    ensures CalmInv(Step(s, p, HandBulk))
  {
    hide Hub.HubInv, FrameColour, WireOk, PixelOk, Reaches, Only, Fp.Chained, Fp.Makes, Fp.Leaves, Inked, Remarked, Sendable, IsFull;
    var t := Step(s, p, HandBulk);
    ChainedTail(Rest(s.bulk));
    assert s.direct == [] && t.direct == [];
    if s.hub.latest.Some? {
      forall x: nat, y: nat | Visible(s.hub.latest.value, x, y) ensures CalmPixel(t, x, y) {
        assert PixelOk(s, x, y);
        assert CalmPixel(s, x, y);
        CalmHandBulkAt(s, t, p, x, y);
      }
    }
  }

  lemma CalmHandBulkAt(s: Session, t: Session, p: Policy, x: nat, y: nat)
    requires s.hub.latest.Some? && t.hub == s.hub && Unbroken(s) && Unbroken(t)
    requires Enabled(s, HandBulk) && t == Step(s, p, HandBulk)
    requires Base(s, p) && PixelOk(s, x, y) && CalmPixel(s, x, y)
    ensures CalmPixel(t, x, y)
  {
    hide Hub.HubInv, FrameColour, Reaches, Only, StreamsOk, Fp.Makes, Fp.Leaves, Inked, Sendable, DirectAhead, Ahead, IsFull;
    var pdu := Rest(s.bulk)[0];
    var rs := Fp.Makes(s.writer, [pdu]);
    BulkAhead(s, t, pdu);
    InkedAt(s.painted, rs, x, y);
    AppendPaints(rs, Ahead(t), x, y, Confirmed(s, x, y));
    RemarkedAt(s.(bulk := Some(Rest(s.bulk)[1..])), Background, pdu, x, y);
  }

  lemma CalmGiveUp(s: Session, p: Policy)
    requires Inv(s, p) && CalmInv(s) && Enabled(s, GiveUp) && s.sync.synced.Some?
    ensures CalmInv(Step(s, p, GiveUp))
  {
    hide Hub.HubInv, FrameColour, WireOk, PixelOk, Reaches, Only, Fp.Chained, Fp.Makes, Fp.Leaves, Sendable, IsFull;
    var t := Step(s, p, GiveUp);
    var from := if s.owner == Of(Foreground) then s.writer else None;
    assert t.direct != [] ==> t.direct[0] != [] && !Fp.Mid(t.direct[0][0]);
    StartsAnew(t);
    Fp.MakesAppend(from, s.direct[0], Flat(t.direct));
    assert Flat(t.direct) == [] || !Fp.Mid(Flat(t.direct)[0]);
    Fp.Anew(Fp.Leaves(from, s.direct[0]), Flat(t.direct));
    if s.hub.latest.Some? {
      forall x: nat, y: nat | Visible(s.hub.latest.value, x, y) ensures CalmPixel(t, x, y) {
        assert CalmPixel(s, x, y);
        AppendPaints(Fp.Makes(from, s.direct[0]), DirectAhead(t), x, y, FrameColour(s.source.value, x, y));
      }
    }
  }

  /** The steps that touch neither a mark nor a send. */
  lemma CalmStays(s: Session, t: Session)
    requires CalmInv(s) && t.hub.latest == s.hub.latest && t.sync.synced == s.sync.synced && Rest(t.bulk) == Rest(s.bulk)
    requires t == s.(hub := t.hub, phase := t.phase, initial := t.initial, next := t.next, gateOpen := t.gateOpen, sync := t.sync,
                     bulk := t.bulk, wire := t.wire, client := t.client, missed := t.missed)
    requires t.allowed && !Owed(t) ==> !Owed(s)
    ensures CalmInv(t)
  {
    hide FrameColour, Reaches, Only, Fp.Makes;
    assert DirectAhead(t) == DirectAhead(s);
    if s.hub.latest.Some? {
      forall x: nat, y: nat | Visible(s.hub.latest.value, x, y) ensures CalmPixel(t, x, y) {
        assert CalmPixel(s, x, y);
      }
    }
  }

  predicate CatchesUp(a: Action) {
    a.Wake? || a.Join? || a.OpenGate? || a.Ticker?
  }

  lemma CalmWake(s: Session, p: Policy, c: Choice)
    requires Inv(s, p) && CalmInv(s) && Enabled(s, Wake(c))
    ensures CalmInv(Step(s, p, Wake(c)))
  {
    hide Inv, CalmInv, CatchUp, Found, Woken;
    AtMostSent(s, p);
    WokenIs(s);
    var t := Woken(s);
    var d := t.(sync := MarkDirty(t.sync), missed := false);
    if !t.gateOpen || t.allowed {
      CalmStays(s, d);
      LoopKeeps(s, d, p);
      if t.gateOpen {
        CalmCatchUp(d, p, c);
      }
    } else {
      CalmStays(s, t.(missed := s.sync.synced.None?));
    }
  }

  lemma CalmCatchesUp(s: Session, p: Policy, a: Action)
    requires Inv(s, p) && CalmInv(s) && Enabled(s, a) && CatchesUp(a)
    ensures CalmInv(Step(s, p, a))
  {
    hide Inv, CalmInv, CatchUp, Found;
    AtMostSent(s, p);
    match a
    case Wake(c) => CalmWake(s, p, c);
    case Join(c) =>
      CalmStays(s, s.(bulk := None));
      LoopKeeps(s, s.(bulk := None), p);
      if s.gateOpen && s.allowed {
        CalmCatchUp(s.(bulk := None), p, c);
      }
    case OpenGate(c) =>
      CalmStays(s, s.(gateOpen := true));
      LoopKeeps(s, s.(gateOpen := true), p);
      if s.allowed {
        CalmCatchUp(s.(gateOpen := true), p, c);
      }
    case Ticker(c) => CalmCatchUp(s, p, c);
    case _ =>
  }

  lemma CalmStep(s: Session, p: Policy, a: Action)
    requires Inv(s, p) && CalmInv(s) && Enabled(s, a) && CalmAction(s, a)
    ensures CalmInv(Step(s, p, a))
  {
    hide Inv, CalmInv, CatchUp, OnPdus, Hand, Agreed;
    match a
    case Tick(c, diff) => CalmTick(s, p, c, diff);
    case Suppress(_) => CalmDirect(s, p, a);
    case Refresh(_) => CalmDirect(s, p, a);
    case HandBulk => CalmHandBulk(s, p);
    case HandDirect => CalmHandDirect(s, p);
    case GiveUp => CalmGiveUp(s, p);
    case Arrive => CalmStays(s, Step(s, p, a));
    case Send =>
      if s.phase.Attached? {
        AtMostSent(s, p);
      }
      CalmStays(s, Step(s, p, a));
    case Subscribe => CalmStays(s, Step(s, p, a));
    case Attach => CalmAttach(s, p);
    case _ => CalmCatchesUp(s, p, a);
  }

  lemma CalmAttach(s: Session, p: Policy)
    requires Inv(s, p) && CalmInv(s) && Enabled(s, Attach)
    ensures CalmInv(Step(s, p, Attach))
  {
    hide FrameColour, Reaches, Only, Fp.Makes, Hub.HubInv, WireOk;
    var t := Step(s, p, Attach);
    if s.hub.latest.Some? {
      forall x: nat, y: nat | Visible(s.hub.latest.value, x, y) ensures CalmPixel(t, x, y) {
        assert CalmPixel(s, x, y);
      }
    }
  }

  lemma {:induction false} CalmRuns(screen: Screen, gateOpen: bool, p: Policy, actions: seq<Action>)
    requires SizesOk(actions, p) && Calm(Init(screen, gateOpen), p, actions)
    ensures CalmInv(Run(Init(screen, gateOpen), p, actions))
    decreases |actions|
  {
    hide Inv, Step, Enabled, SizeOk, CalmInv, CalmAction;
    if actions == [] {
      assert CalmInv(Init(screen, gateOpen)) by {
        CalmInit(screen, gateOpen);
      }
    } else {
      var init, a := actions[..|actions| - 1], actions[|actions| - 1];
      CalmRuns(screen, gateOpen, p, init);
      RunKeeps(screen, gateOpen, p, init);
      var before := Run(Init(screen, gateOpen), p, init);
      if Enabled(before, a) {
        CalmStep(before, p, a);
      }
    }
  }

  lemma CalmInit(screen: Screen, gateOpen: bool)
    ensures CalmInv(Init(screen, gateOpen))
  {
  }

  /**
    In a run whose direct sends are all made while no background send is under way and the confirmed frame agrees
    with the latest, and given up only if a frame is confirmed, a settled client shows the captured desktop, unless
    the session missed the wake-up for it and nothing was ever sent.
   */
  lemma CalmClientShowsDesktop(screen: Screen, gateOpen: bool, p: Policy, actions: seq<Action>, x: nat, y: nat)
    requires SizesOk(actions, p) && Calm(Init(screen, gateOpen), p, actions)
    requires var s := Run(Init(screen, gateOpen), p, actions);
             Settled(s) && Visible(s.hub.latest.value, x, y)
    ensures var s := Run(Init(screen, gateOpen), p, actions);
            ShowsDesktop(s, x, y) || (s.missed && s.marks(x, y).Blank?)
  {
    hide Run, Inv, FrameColour, Reaches, Only;
    var s := Run(Init(screen, gateOpen), p, actions);
    RunKeeps(screen, gateOpen, p, actions);
    CalmRuns(screen, gateOpen, p, actions);
    SettledShows(s, p, x, y);
    assert CalmPixel(s, x, y);
    NoDirectAhead(s, x, y);
  }

  /** With nothing owed and nothing behind, the confirmed frame agrees with the latest: a refresh is calm. */
  lemma SettledIsAgreed(s: Session, p: Policy)
    requires Inv(s, p) && s.allowed && !Owed(s) && s.hub.latest.Some?
    requires forall x: nat, y: nat :: Visible(s.hub.latest.value, x, y) ==> !s.behind(x, y)
    ensures Agreed(s)
  {
    hide FrameColour, MarkOk, BulkOk, Base, WireOk;
    if s.sync.synced.Some? {
      forall x: nat, y: nat | Visible(s.hub.latest.value, x, y)
        ensures Confirmed(s, x, y) == FrameColour(s.hub.latest.value, x, y)
      {
        assert PixelOk(s, x, y);
      }
    }
  }
}
