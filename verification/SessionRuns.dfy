/**
  Whole runs of a session, each with its exact outcome: output suppressed for a while and resumed, a direct send given
  up, a direct send in the midst of a background send, and a subscription that races the first frame.
 */
module SessionRuns {
  import opened Bytes
  import opened BitmapSync
  import opened DirtyRects
  import opened Display
  import opened Tiling
  import opened Session
  import Fp = FastpathOutput
  import Hub = DisplayHub

  // ------------------------------------------------------------------
  // Putting runs together
  // ------------------------------------------------------------------

  lemma {:induction false} RunAppend(s: Session, p: Policy, a: seq<Action>, b: seq<Action>)
    ensures Run(s, p, a + b) == Run(Run(s, p, a), p, b)
    decreases |b|
  {
    hide Step, Enabled;
    if b == [] {
      assert a + b == a;
    } else {
      var init := b[..|b| - 1];
      RunAppend(s, p, a, init);
      assert (a + b)[..|a + b| - 1] == a + init && (a + b)[|a + b| - 1] == b[|b| - 1];
    }
  }

  lemma RunOne(s: Session, p: Policy, a: Action)
    requires Enabled(s, a)
    ensures Run(s, p, [a]) == Step(s, p, a)
  {
    hide Step, Enabled;
    assert [a][..0] == [];
  }

  lemma RunNothing(s: Session, p: Policy)
    ensures Run(s, p, []) == s
  {
  }

  lemma RunThen(s: Session, p: Policy, actions: seq<Action>, a: Action)
    requires Enabled(Run(s, p, actions), a)
    ensures Run(s, p, actions + [a]) == Step(Run(s, p, actions), p, a)
  {
    hide Run, Step, Enabled;
    RunAppend(s, p, actions, [a]);
    RunOne(Run(s, p, actions), p, a);
  }

  function Times(a: Action, n: nat): seq<Action> {
    if n == 0 then [] else [a] + Times(a, n - 1)
  }

  lemma FirstOfTimes(s: Session, p: Policy, a: Action, n: nat)
    requires n > 0 && Enabled(s, a)
    ensures Run(s, p, Times(a, n)) == Run(Step(s, p, a), p, Times(a, n - 1))
  {
    hide Run, Step, Enabled;
    RunAppend(s, p, [a], Times(a, n - 1));
    RunOne(s, p, a);
  }

  lemma {:induction false} TimesOk(a: Action, n: nat, p: Policy)
    requires SizeOk(a, p)
    ensures SizesOk(Times(a, n), p)
  {
    if n > 0 {
      TimesOk(a, n - 1, p);
    }
  }

  /** The same session, but for the record of what was handed over. */
  ghost predicate Like(t: Session, s: Session) {
    t == s.(writer := t.writer, owner := t.owner, painted := t.painted, marks := t.marks,
            behind := t.behind, missed := t.missed, source := t.source)
  }

  lemma HandLike(s: Session, who: Sender, pdu: Fp.Pdu)
    ensures Like(Hand(s, who, pdu), s.(wire := s.wire + [pdu]))
  {
    hide Remarked, Inked, Fp.Leaves, Fp.Makes;
  }

  lemma {:induction false} DirectFlows(s: Session, p: Policy)
    requires forall i :: 0 <= i < |s.direct| ==> s.direct[i] != []
    ensures Like(Run(s, p, Times(HandDirect, |Flat(s.direct)|)), s.(direct := [], wire := s.wire + Flat(s.direct)))
    decreases |Flat(s.direct)|
  {
    hide Run, Hand, Flat;
    if s.direct == [] {
      assert Flat(s.direct) == [] by { FlatNothing(); }
      RunNothing(s, p);
      assert s.wire + [] == s.wire;
    } else {
      FlatAdvances(s.direct);
      var flat, pdu := Flat(s.direct), s.direct[0][0];
      FirstOfTimes(s, p, HandDirect, |flat|);
      var t := Step(s, p, HandDirect);
      HandLike(s.(direct := Advanced(s.direct)), Foreground, pdu);
      assert forall i :: 0 < i < |t.direct| ==> t.direct[i] in s.direct[1..];
      DirectFlows(t, p);
      assert s.wire + [pdu] + flat[1..] == s.wire + flat by { assert [pdu] + flat[1..] == flat; }
    }
  }

  lemma FlatNothing()
    ensures Flat([]) == []
  {
  }

  lemma {:induction false} BulkFlows(s: Session, p: Policy, n: nat)
    requires s.bulk.Some? && n <= |s.bulk.value|
    ensures Like(Run(s, p, Times(HandBulk, n)), s.(bulk := Some(s.bulk.value[n..]), wire := s.wire + s.bulk.value[..n]))
    decreases n
  {
    hide Run, Hand;
    var rest := s.bulk.value;
    if n == 0 {
      RunNothing(s, p);
      assert s.wire + rest[..0] == s.wire && rest[0..] == rest;
    } else {
      FirstOfTimes(s, p, HandBulk, n);
      HandLike(s.(bulk := Some(rest[1..])), Background, rest[0]);
      BulkFlows(Step(s, p, HandBulk), p, n - 1);
      TakeFirst(rest, n);
      assert s.wire + [rest[0]] + rest[1..][..n - 1] == s.wire + ([rest[0]] + rest[1..][..n - 1]);
    }
  }

  lemma TakeFirst(pdus: seq<Fp.Pdu>, n: nat)
    requires 0 < n <= |pdus|
    ensures [pdus[0]] + pdus[1..][..n - 1] == pdus[..n] && pdus[1..][n - 1..] == pdus[n..]
  {
  }

  lemma {:induction false} AllArrive(s: Session, p: Policy)
    ensures Run(s, p, Times(Arrive, |s.wire|)) == s.(wire := [], client := OnPdus(s.client, s.wire))
    decreases |s.wire|
  {
    hide Run, OnPdus;
    if s.wire == [] {
      RunNothing(s, p);
      OnNothing(s.client);
    } else {
      FirstOfTimes(s, p, Arrive, |s.wire|);
      var one := OnPdus(s.client, [s.wire[0]]);
      AllArrive(s.(wire := s.wire[1..], client := one), p);
      ViewAppend(s.client, [s.wire[0]], s.wire[1..]);
      assert [s.wire[0]] + s.wire[1..] == s.wire;
    }
  }

  lemma OnNothing(v: View)
    ensures OnPdus(v, []) == v
  {
  }

  // ------------------------------------------------------------------
  // Capture
  // ------------------------------------------------------------------

  const GOOD := Choice([], false, true)

  /** A frame is captured and broadcast, and wakes the session. */
  function Showing(f: Frame, diff: seq<Rect>): seq<Action> {
    [Tick(Hub.FullTick(f), [])] + [Send] + [Wake(Choice(diff, false, true))]
  }

  /** The hub after a frame of the same size was captured and broadcast. */
  function Broadcast(h: Hub.Hub, f: Frame): Hub.Hub
    requires f.width < 0x1_0000 && f.height < 0x1_0000 && Hub.TickMessage(f).Some?
  {
    h.(screen := Some(f), latest := Some(f), sent := h.sent + [Hub.TickMessage(f).value])
  }

  lemma BroadcastRuns(s: Session, p: Policy, f: Frame)
    requires f.Valid() && s.hub.inFlight.None? && s.hub.subs == []
    requires s.hub.latest.Some? ==> s.hub.latest.value.width == f.width && s.hub.latest.value.height == f.height
    ensures Hub.TickMessage(f).Some?
    ensures Run(s, p, [Tick(Hub.FullTick(f), [])] + [Send]) == s.(hub := Broadcast(s.hub, f))
  {
    hide Run, Hub.TickMessage;
    Hub.FullTickStep(s.hub, f);
    RunOne(s, p, Tick(Hub.FullTick(f), []));
    RunThen(s, p, [Tick(Hub.FullTick(f), [])], Send);
  }

  lemma SameFrame(f: Frame)
    requires f.Valid()
    ensures IsDiff(Compared(FullUpdate(f), FullUpdate(f)), f.width, f.height, [])
  {
    var fs := Compared(FullUpdate(f), FullUpdate(f));
    assert fs == FramesOf(f, f);
    forall x: nat, y: nat | x < f.width && y < f.height ensures !TileDirty(fs, f.width, f.height, x, y) {
      NoTileDirty(f, x, y);
    }
  }

  lemma NoTileDirty(f: Frame, x: nat, y: nat)
    requires f.Valid()
    ensures !TileDirty(FramesOf(f, f), f.width, f.height, x, y)
  {
    hide Offset;
    forall px: nat, py: nat | px < f.width && py < f.height ensures FramesOf(f, f).PixelEqual(px, py) {
      PixelEqualIff(f, f, px, py);
    }
  }

  /** A session that has confirmed `f0`, with nothing on its way anywhere, while `f1` is on the desktop. */
  ghost predicate Idle(s: Session, f0: Frame, f1: Frame) {
    && Free(s) && s.gateOpen && s.bulk.None? && s.wire == [] && !Owed(s) && s.next == |s.hub.sent|
    && f0.Valid() && f1.Valid() && f0.width == f1.width && f0.height == f1.height
    && s.sync == Sync(false, Some(FullUpdate(f0)), None)
    && s.hub.latest == Some(f1) && s.hub.screen == Some(f1) && s.hub.subs == []
  }

  /** The client's picture. */
  ghost predicate Pictures(s: Session, f: Frame) {
    forall x: nat, y: nat :: Visible(f, x, y) ==> s.client.screen(x, y) == FrameColour(f, x, y)
  }

  /** The confirmed frame comes back: the comparison finds no difference and nothing is sent. */
  lemma ReturnRuns(s: Session, p: Policy, f0: Frame, f1: Frame)
    requires Idle(s, f0, f1) && s.allowed
    ensures var r := Run(s, p, Showing(f0, []));
            Idle(r, f0, f0) && r.allowed && r.client == s.client
  {
    hide Run, Hub.TickMessage, FrameColour;
    BroadcastRuns(s, p, f0);
    assert Found(s.sync.synced, FullUpdate(f0), []) by {
      SameFrame(f0);
    }
    RunThen(s, p, [Tick(Hub.FullTick(f0), [])] + [Send], Wake(GOOD));
  }

  // ------------------------------------------------------------------
  // A client connects
  // ------------------------------------------------------------------

  /** A client connects while `f` is on the desktop, and is sent all of it. */
  function Opening(f: Frame, p: Policy): seq<Action>
    requires f.width < 0x1_0000 && f.height < 0x1_0000
  {
    var n := |PdusFor(FullUpdate(f), p)|;
    [Tick(Hub.FullTick(f), [])] + [Send] + [Subscribe] + [Attach] + [Wake(GOOD)] +
    Times(HandBulk, n) + Times(Arrive, n) + [Join(GOOD)]
  }

  /** The first wake-up queues the whole frame. */
  lemma FirstWake(screen: Screen, f: Frame, p: Policy)
    requires f.Valid()
    ensures Hub.TickMessage(f).Some?
    ensures Like(Run(Init(screen, true), p, [Tick(Hub.FullTick(f), [])] + [Send] + [Subscribe] + [Attach] + [Wake(GOOD)]),
                 Init(screen, true).(hub := Broadcast(Hub.Init(), f), phase := Attached, next := 1,
                                     sync := Sync(false, Some(FullUpdate(f)), None), bulk := Some(PdusFor(FullUpdate(f), p))))
  {
    hide Run, Hub.TickMessage, PdusFor;
    var s := Init(screen, true);
    BroadcastRuns(s, p, f);
    var acts := [Tick(Hub.FullTick(f), [])] + [Send];
    RunThen(s, p, acts, Subscribe);
    RunThen(s, p, acts + [Subscribe], Attach);
    RunThen(s, p, acts + [Subscribe] + [Attach], Wake(GOOD));
  }

  /** The end of a background send that has all been handed over. */
  lemma DrainRuns(s: Session, p: Policy, f: Frame)
    requires s.phase.Attached? && s.hub.latest == Some(f) && f.Valid()
    requires s.bulk == Some([]) && s.direct == [] && s.allowed && s.sync == Sync(false, Some(FullUpdate(f)), None)
    ensures Like(Run(s, p, Times(Arrive, |s.wire|) + [Join(GOOD)]), s.(bulk := None, wire := [], client := OnPdus(s.client, s.wire)))
  {
    hide Run, OnPdus, Times;
    AllArrive(s, p);
    SameFrame(f);
    RunThen(s, p, Times(Arrive, |s.wire|), Join(GOOD));
  }

  lemma OpeningRuns(screen: Screen, f: Frame, p: Policy)
    requires f.Valid() && Sendable(f.width, f.height, p.planar)
    ensures var r := Run(Init(screen, true), p, Opening(f, p));
            Idle(r, f, f) && r.allowed && Pictures(r, f)
  {
    hide Run, Hub.TickMessage, PdusFor, OnPdus, Times, FrameColour, Sendable;
    FirstWake(screen, f, p);
    var s, pdus := Init(screen, true), PdusFor(FullUpdate(f), p);
    var acts := [Tick(Hub.FullTick(f), [])] + [Send] + [Subscribe] + [Attach] + [Wake(GOOD)];
    var t := Run(s, p, acts);
    RunAppend(s, p, acts, Times(HandBulk, |pdus|));
    BulkFlows(t, p, |pdus|);
    assert [] + pdus[..|pdus|] == pdus && pdus[|pdus|..] == [];
    var u := Run(s, p, acts + Times(HandBulk, |pdus|));
    DrainRuns(u, p, f);
    var last := Times(Arrive, |pdus|) + [Join(GOOD)];
    RunAppend(s, p, acts + Times(HandBulk, |pdus|), last);
    assert acts + Times(HandBulk, |pdus|) + last == Opening(f, p);
    FullPictures(View(None, screen), f, p);
  }

  /** All of a frame, sent and received. */
  lemma FullPictures(v: View, f: Frame, p: Policy)
    requires f.Valid() && Sendable(f.width, f.height, p.planar)
    ensures forall x: nat, y: nat :: Visible(f, x, y) ==>
              OnPdus(v, PdusFor(FullUpdate(f), p)).screen(x, y) == FrameColour(f, x, y)
  {
    hide PdusFor, Arrives, Fp.Makes, Fp.Leaves, FrameColour, DrawAll, Reaches, Only, Sendable;
    var u := FullUpdate(f);
    SentMakes(u, p, v.partial);
    forall x: nat, y: nat | Visible(f, x, y)
      ensures OnPdus(v, PdusFor(u, p)).screen(x, y) == FrameColour(f, x, y)
    {
      assert ViewOf(u, f) && Shows(u, x, y);
      ViewArrives(u, f, p, x, y);
      DrawAllAt(v.screen, Arrives(u, p), x, y, FrameColour(f, x, y));
    }
  }

  // ------------------------------------------------------------------
  // Output suppressed, and resumed
  // ------------------------------------------------------------------

  /** The client asks for no output, and the desktop changes. */
  function Away(f: Frame): seq<Action> {
    [Suppress(false)] + Showing(f, [])
  }

  lemma AwayRuns(s: Session, p: Policy, f0: Frame, f1: Frame)
    requires Idle(s, f0, f0) && s.allowed && f1.Valid() && f0.width == f1.width && f0.height == f1.height
    ensures var r := Run(s, p, Away(f1));
            Idle(r, f0, f1) && !r.allowed && r.client == s.client
  {
    hide Run, Hub.TickMessage, FrameColour;
    var t := s.(allowed := false);
    RunOne(s, p, Suppress(false));
    BroadcastRuns(t, p, f1);
    RunThen(t, p, [Tick(Hub.FullTick(f1), [])] + [Send], Wake(GOOD));
    RunAppend(s, p, [Suppress(false)], Showing(f1, []));
  }

  /** The client resumes output and is sent the latest frame, all of which arrives. */
  function Resume(full: BitmapUpdate, p: Policy): seq<Action> {
    var n := |PdusFor(full, p)|;
    [Suppress(true)] + Times(HandDirect, n) + Times(Arrive, n)
  }

  lemma ResumeRuns(s: Session, p: Policy, f0: Frame, f1: Frame)
    requires Idle(s, f0, f1) && !s.allowed && Sendable(f1.width, f1.height, p.planar)
    ensures var r := Run(s, p, Resume(FullUpdate(f1), p));
            Idle(r, f0, f1) && r.allowed && Pictures(r, f1)
  {
    hide Run, PdusFor, Times, FrameColour, OnPdus, Sendable;
    var full := FullUpdate(f1);
    var pdus := PdusFor(full, p);
    RunOne(s, p, Suppress(true));
    var t := Step(s, p, Suppress(true));
    OneSend(full, p);
    assert ViewOf(full, f1);
    ViewSends(full, f1, p);
    SendNotEmpty(pdus);
    RunAppend(s, p, [Suppress(true)], Times(HandDirect, |pdus|));
    DirectFlows(t, p);
    assert [] + pdus == pdus;
    var u := Run(t, p, Times(HandDirect, |pdus|));
    RunAppend(s, p, [Suppress(true)] + Times(HandDirect, |pdus|), Times(Arrive, |pdus|));
    AllArrive(u, p);
    FullPictures(s.client, f1, p);
  }

  lemma OneSend(u: BitmapUpdate, p: Policy)
    ensures Sends([u], p) == [PdusFor(u, p)] && Flat(Sends([u], p)) == PdusFor(u, p)
  {
    hide PdusFor;
    assert [u][1..] == [] && Sends([], p) == [];
    var one := [PdusFor(u, p)];
    assert Sends([u], p) == one && one[1..] == [];
    assert Flat(one) == PdusFor(u, p) + [] == PdusFor(u, p);
  }

  /** The client resumes output over the new frame `f1`, and then the desktop returns to the confirmed frame `f0`. */
  function ResumeAndReturn(f0: Frame, f1: Frame, p: Policy): seq<Action>
    requires f1.width < 0x1_0000 && f1.height < 0x1_0000
  {
    Resume(FullUpdate(f1), p) + Showing(f0, [])
  }

  /**
    Resuming output does no harm exactly where the latest frame agrees with the confirmed one: from any session with
    output suppressed and nothing on its way, the desktop has only to return to the confirmed frame for the client
    to settle on the frame in between.
   */
  lemma ResumeHarmlessIff(s: Session, p: Policy, f0: Frame, f1: Frame, x: nat, y: nat)
    requires Idle(s, f0, f1) && !s.allowed && Sendable(f1.width, f1.height, p.planar) && Visible(f0, x, y)
    ensures var r := Run(s, p, ResumeAndReturn(f0, f1, p));
            && Settled(r) && r.hub.screen == Some(f0)
            && (ShowsDesktop(r, x, y) <==> FrameColour(f0, x, y) == FrameColour(f1, x, y))
  {
    hide Run, Resume, Showing, FrameColour, Sendable;
    ResumeRuns(s, p, f0, f1);
    var t := Run(s, p, Resume(FullUpdate(f1), p));
    ReturnRuns(t, p, f0, f1);
    RunAppend(s, p, Resume(FullUpdate(f1), p), Showing(f0, []));
    assert Visible(f1, x, y);
  }

  /**
    The failing run, for any two frames: a client is sent `f0`, asks for no output, and the desktop changes to `f1`;
    output is resumed and the desktop returns to `f0`. With nothing left to send, the client shows the desktop exactly
    where the two frames agree in colour.
   */
  lemma StrandedIff(screen: Screen, p: Policy, f0: Frame, f1: Frame, x: nat, y: nat)
    requires f0.Valid() && f1.Valid() && f0.width == f1.width && f0.height == f1.height
    requires Sendable(f0.width, f0.height, p.planar) && Visible(f0, x, y)
    ensures var r := Run(Init(screen, true), p, Opening(f0, p) + Away(f1) + ResumeAndReturn(f0, f1, p));
            && Settled(r) && r.hub.screen == Some(f0)
            && (ShowsDesktop(r, x, y) <==> FrameColour(f0, x, y) == FrameColour(f1, x, y))
  {
    hide Run, Opening, Away, ResumeAndReturn, FrameColour, Idle, Pictures, Sendable, Settled;
    PausedRuns(screen, p, f0, f1);
    var s, acts := Init(screen, true), Opening(f0, p) + Away(f1);
    RunAppend(s, p, acts, ResumeAndReturn(f0, f1, p));
    ResumeHarmlessIff(Run(s, p, acts), p, f0, f1, x, y);
  }

  lemma PausedRuns(screen: Screen, p: Policy, f0: Frame, f1: Frame)
    requires f0.Valid() && f1.Valid() && f0.width == f1.width && f0.height == f1.height
    requires Sendable(f0.width, f0.height, p.planar)
    ensures var r := Run(Init(screen, true), p, Opening(f0, p) + Away(f1));
            Idle(r, f0, f1) && !r.allowed && Pictures(r, f0)
  {
    hide Run, Opening, Away, FrameColour, Idle, Sendable;
    var s := Init(screen, true);
    OpeningRuns(screen, f0, p);
    AwayRuns(Run(s, p, Opening(f0, p)), p, f0, f1);
    RunAppend(s, p, Opening(f0, p), Away(f1));
  }

  /** The client resumes output, and the send of the latest frame times out at once. */
  const RESUME_IN_VAIN := [Suppress(true)] + [GiveUp]

  /**
    The same with the direct send given up: the session has nothing left to send, and the client shows the desktop
    exactly where the two frames agree in colour.
   */
  lemma GivenUpIff(screen: Screen, p: Policy, f0: Frame, f1: Frame, x: nat, y: nat)
    requires f0.Valid() && f1.Valid() && f0.width == f1.width && f0.height == f1.height
    requires Sendable(f0.width, f0.height, p.planar) && Visible(f0, x, y)
    ensures var r := Run(Init(screen, true), p, Opening(f0, p) + Away(f1) + RESUME_IN_VAIN);
            && Settled(r) && r.hub.screen == Some(f1)
            && (ShowsDesktop(r, x, y) <==> FrameColour(f0, x, y) == FrameColour(f1, x, y))
  {
    hide Run, Opening, Away, FrameColour, Sendable, PdusFor;
    PausedRuns(screen, p, f0, f1);
    var s, acts := Init(screen, true), Opening(f0, p) + Away(f1);
    var t := Run(s, p, acts);
    RunAppend(s, p, acts, RESUME_IN_VAIN);
    RunOne(t, p, Suppress(true));
    OneSend(FullUpdate(f1), p);
    RunThen(t, p, [Suppress(true)], GiveUp);
    assert [PdusFor(FullUpdate(f1), p)][1..] == [];
  }

  // ------------------------------------------------------------------
  // A direct send in the midst of a background send
  // ------------------------------------------------------------------

  /** The resync from a confirmed `f0` to `f1` is `u`. */
  ghost predicate Difference(f0: Frame, f1: Frame, diff: seq<Rect>, u: BitmapUpdate)
    requires f0.Valid() && f1.Valid()
  {
    var last, full := Some(FullUpdate(f0)), FullUpdate(f1);
    Found(last, full, diff) && Resync(last, full, diff) == Some(u)
  }

  /** What a refresh sends. */
  function Refreshed(f: Frame, rects: seq<Corners>): seq<BitmapUpdate>
    requires f.width < 0x1_0000 && f.height < 0x1_0000
  {
    if rects == [] then [FullUpdate(f)] else Parts(FullUpdate(f), rects)
  }

  /** The background send of `u` is `k` PDUs under way when the client asks for a refresh. */
  function Overlap(u: BitmapUpdate, f: Frame, p: Policy, k: nat, rects: seq<Corners>): seq<Action>
    requires f.width < 0x1_0000 && f.height < 0x1_0000 && k <= |PdusFor(u, p)|
  {
    var m, n := |PdusFor(u, p)|, |Flat(Sends(Refreshed(f, rects), p))|;
    Times(HandBulk, k) + [Refresh(rects)] + Times(HandDirect, n) + Times(HandBulk, m - k) + Times(Arrive, m + n) + [Join(GOOD)]
  }

  /** A session in the midst of a background send of `f`. */
  ghost predicate Sending(s: Session, f: Frame) {
    && f.Valid() && s.bulk.Some? && s.direct == [] && s.allowed && s.phase.Attached?
    && s.sync == Sync(false, Some(FullUpdate(f)), None) && s.hub.latest == Some(f)
  }

  lemma RefreshRuns(s: Session, f: Frame, p: Policy, rects: seq<Corners>)
    requires Sending(s, f) && Sendable(f.width, f.height, p.planar)
    ensures var others := Flat(Sends(Refreshed(f, rects), p));
            Like(Run(s, p, [Refresh(rects)] + Times(HandDirect, |others|)), s.(wire := s.wire + others))
  {
    hide Run, PdusFor, Times, Sends, Parts, Sendable, Flat, OnPdus;
    var us := Refreshed(f, rects);
    var others := Flat(Sends(us, p));
    RunOne(s, p, Refresh(rects));
    var v := Step(s, p, Refresh(rects));
    RefreshedViews(f, rects);
    SendsNotEmpty(us, f, p);
    DirectFlows(v, p);
    RunAppend(s, p, [Refresh(rects)], Times(HandDirect, |others|));
  }

  /** The background send, cut in two by the refresh, is handed over. */
  lemma OverlapFlows(s: Session, pdus: seq<Fp.Pdu>, f: Frame, p: Policy, k: nat, rects: seq<Corners>)
    requires Sending(s, f) && Sendable(f.width, f.height, p.planar) && k <= |pdus|
    requires s.bulk == Some(pdus) && s.wire == []
    ensures var others := Flat(Sends(Refreshed(f, rects), p));
            Like(Run(s, p, Times(HandBulk, k) + ([Refresh(rects)] + Times(HandDirect, |others|)) + Times(HandBulk, |pdus| - k)),
                 s.(bulk := Some([]), wire := pdus[..k] + others + pdus[k..]))
  {
    hide Run, Times, Sends, Refreshed, Sendable, Flat;
    var others := Flat(Sends(Refreshed(f, rects), p));
    BulkFlows(s, p, k);
    var a, b, c := Times(HandBulk, k), [Refresh(rects)] + Times(HandDirect, |others|), Times(HandBulk, |pdus| - k);
    assert [] + pdus[..k] == pdus[..k];
    RefreshRuns(Run(s, p, a), f, p, rects);
    RunAppend(s, p, a, b);
    BulkFlows(Run(s, p, a + b), p, |pdus| - k);
    RunAppend(s, p, a + b, c);
    assert pdus[k..][..|pdus| - k] == pdus[k..] && pdus[k..][|pdus| - k..] == [];
  }

  lemma OverlapRuns(s: Session, u: BitmapUpdate, f: Frame, p: Policy, k: nat, rects: seq<Corners>)
    requires Sending(s, f) && Sendable(f.width, f.height, p.planar) && k <= |PdusFor(u, p)|
    requires s.bulk == Some(PdusFor(u, p)) && s.wire == []
    ensures var pdus, others := PdusFor(u, p), Flat(Sends(Refreshed(f, rects), p));
            Like(Run(s, p, Overlap(u, f, p, k, rects)),
                 s.(bulk := None, client := OnPdus(s.client, pdus[..k] + others + pdus[k..])))
  {
    hide Run, PdusFor, Times, OnPdus, Sends, Refreshed, Sendable, Flat;
    var pdus, n := PdusFor(u, p), |Flat(Sends(Refreshed(f, rects), p))|;
    OverlapFlows(s, pdus, f, p, k, rects);
    var acts := Times(HandBulk, k) + ([Refresh(rects)] + Times(HandDirect, n)) + Times(HandBulk, |pdus| - k);
    DrainRuns(Run(s, p, acts), p, f);
    var last := Times(Arrive, |pdus| + n) + [Join(GOOD)];
    RunAppend(s, p, acts, last);
    assert acts + last == Overlap(u, f, p, k, rects);
  }

  lemma RefreshedViews(f: Frame, rects: seq<Corners>)
    requires f.Valid()
    ensures AllViews(Refreshed(f, rects), f)
  {
    FullViews(f);
    PartsAreViews(f, rects);
  }

  lemma SendsNotEmpty(us: seq<BitmapUpdate>, f: Frame, p: Policy)
    requires f.Valid() && AllViews(us, f) && Sendable(f.width, f.height, p.planar)
    ensures forall i :: 0 <= i < |Sends(us, p)| ==> Sends(us, p)[i] != []
  {
    hide Sends, Fp.Send;
    SendsAreSends(us, f, p);
    forall i | 0 <= i < |Sends(us, p)| ensures Sends(us, p)[i] != [] {
      SendNotEmpty(Sends(us, p)[i]);
    }
  }

  lemma {:induction false} FlatIsSend(us: seq<BitmapUpdate>, f: Frame, p: Policy)
    requires f.Valid() && AllViews(us, f) && Sendable(f.width, f.height, p.planar)
    ensures if us == [] then Flat(Sends(us, p)) == [] else Fp.Send(Flat(Sends(us, p)))
    decreases |us|
  {
    hide PdusFor, ViewOf, Sendable, Fp.Send;
    if us != [] {
      assert ViewOf(us[0], f) && AllViews(us[1..], f);
      ViewSends(us[0], f, p);
      FlatIsSend(us[1..], f, p);
      assert Sends(us, p)[1..] == Sends(us[1..], p);
      var one, rest := PdusFor(us[0], p), Flat(Sends(us[1..], p));
      if us[1..] == [] {
        assert one + [] == one;
      } else {
        Fp.SendAppend(one, rest);
      }
    }
  }

  /** What reaches the client of the two sends. */
  lemma OverlapMakes(v: View, u: BitmapUpdate, f: Frame, p: Policy, k: nat, rects: seq<Corners>, x: nat, y: nat)
    requires f.Valid() && Sendable(f.width, f.height, p.planar) && ViewOf(u, f) && k <= |PdusFor(u, p)|
    ensures var pdus, us := PdusFor(u, p), Refreshed(f, rects);
            OnPdus(v, pdus[..k] + Flat(Sends(us, p)) + pdus[k..]).screen(x, y)
            == if Reaches(if us == [] then Arrives(u, p) else Fp.Spared(pdus, k), x, y) || ShownBy(us, x, y)
               then FrameColour(f, x, y) else v.screen(x, y)
  {
    hide PdusFor, Arrives, Fp.Makes, Fp.Leaves, FrameColour, DrawAll, Reaches, Only, Sendable, Flat, Sends, Fp.Send, ViewOf, Parts;
    var pdus, us, c := PdusFor(u, p), Refreshed(f, rects), FrameColour(f, x, y);
    var others := Flat(Sends(us, p));
    RefreshedViews(f, rects);
    ViewSends(u, f, p);
    ViewArrives(u, f, p, x, y);
    FlatMakes(us, f, p, x, y);
    FlatIsSend(us, f, p);
    var front, back := Fp.Makes(None, pdus[..k]), Fp.Makes(None, pdus[k..]);
    if us == [] {
      assert pdus[..k] + others + pdus[k..] == pdus;
      SentMakes(u, p, v.partial);
      DrawAllAt(v.screen, Arrives(u, p), x, y, c);
    } else {
      Fp.CutThrough(v.partial, pdus, k, others);
      SparedOnly(pdus, k, x, y, c);
      var made := front + Fp.Makes(None, others) + back;
      AppendPaints(front, Fp.Makes(None, others), x, y, c);
      AppendPaints(front + Fp.Makes(None, others), back, x, y, c);
      AppendPaints(front, back, x, y, c);
      DrawAllAt(v.screen, made, x, y, c);
    }
  }

  /** What a cut spares is part of what was sent. */
  lemma SparedOnly(pdus: seq<Fp.Pdu>, k: nat, x: nat, y: nat, c: seq<byte>)
    requires k <= |pdus| && Only(Fp.Makes(None, pdus), x, y, c)
    ensures Only(Fp.Makes(None, pdus[..k]), x, y, c) && Only(Fp.Makes(None, pdus[k..]), x, y, c)
  {
    hide Fp.Makes, Fp.Leaves, Only, Reaches;
    assert pdus[..k] + pdus[k..] == pdus;
    Fp.MakesAppend(None, pdus[..k], pdus[k..]);
    var rest := Fp.Makes(Fp.Leaves(None, pdus[..k]), pdus[k..]);
    AppendPaints(Fp.Makes(None, pdus[..k]), rest, x, y, c);
    var lost := Fp.Forgetting(Fp.Leaves(None, pdus[..k]), pdus[k..]);
    AppendPaints(lost, Fp.Makes(None, pdus[k..]), x, y, c);
  }

  /**
    A client that shows `f0` is sent the difference to `f1` when it asks for a refresh after `k` PDUs. With nothing
    left to send, it shows the desktop exactly where the refresh sent something, or an update that was not cut
    through reaches, or the two frames agree in colour; everywhere, if the refresh sent nothing.
   */
  lemma TornIff(screen: Screen, p: Policy, f0: Frame, f1: Frame, diff: seq<Rect>, u: BitmapUpdate, k: nat, rects: seq<Corners>,
                x: nat, y: nat)
    requires f0.Valid() && f1.Valid() && f0.width == f1.width && f0.height == f1.height
    requires Sendable(f0.width, f0.height, p.planar) && Visible(f0, x, y)
    requires Difference(f0, f1, diff, u)
    requires k <= |PdusFor(u, p)|
    ensures var us := Refreshed(f1, rects);
            var r := Run(Init(screen, true), p, Opening(f0, p) + Showing(f1, diff) + Overlap(u, f1, p, k, rects));
            && Settled(r) && r.hub.screen == Some(f1)
            && (ShowsDesktop(r, x, y) <==>
                  || us == [] || ShownBy(us, x, y) || Reaches(Fp.Spared(PdusFor(u, p), k), x, y)
                  || FrameColour(f0, x, y) == FrameColour(f1, x, y))
  {
    hide Run, Opening, Showing, Overlap, FrameColour, Sendable, PdusFor, Arrives, OnPdus, Reaches, Fp.Spared, Difference, Hub.TickMessage;
    hide ViewOf, Parts, Flat, Sends, ShownBy, Only;
    var s := Init(screen, true);
    OpeningRuns(screen, f0, p);
    var t := Run(s, p, Opening(f0, p));
    ChangeRuns(t, p, f0, f1, diff, u);
    RunAppend(s, p, Opening(f0, p), Showing(f1, diff));
    var v := Run(s, p, Opening(f0, p) + Showing(f1, diff));
    OverlapRuns(v, u, f1, p, k, rects);
    RunAppend(s, p, Opening(f0, p) + Showing(f1, diff), Overlap(u, f1, p, k, rects));
    Elsewhere(p, f0, f1, diff, u, x, y);
    OverlapMakes(v.client, u, f1, p, k, rects, x, y);
    ViewArrives(u, f1, p, x, y);
    assert t.client.screen(x, y) == FrameColour(f0, x, y);
  }

  /**
    In particular: where the difference is one bitmap update, cut through anywhere, all of it is lost and only the
    refresh is shown.
   */
  lemma TornThroughIff(screen: Screen, p: Policy, f0: Frame, f1: Frame, diff: seq<Rect>, u: BitmapUpdate, k: nat,
                       rects: seq<Corners>, x: nat, y: nat)
    requires f0.Valid() && f1.Valid() && f0.width == f1.width && f0.height == f1.height
    requires Sendable(f0.width, f0.height, p.planar) && Visible(f0, x, y)
    requires Difference(f0, f1, diff, u)
    requires ViewOf(u, f1) && |Rects(u, p.planar)| <= Fp.MaxRects(Fp.MaxRequest(p.offered), !p.planar)
    requires 1 < k < |PdusFor(u, p)| - 1
    ensures var us := Refreshed(f1, rects);
            var r := Run(Init(screen, true), p, Opening(f0, p) + Showing(f1, diff) + Overlap(u, f1, p, k, rects));
            && Settled(r) && r.hub.screen == Some(f1)
            && (ShowsDesktop(r, x, y) <==> us == [] || ShownBy(us, x, y) || FrameColour(f0, x, y) == FrameColour(f1, x, y))
  {
    hide Run, Opening, Showing, Overlap, FrameColour, Fp.Spared, Difference, Rects, Fp.SendPdus, Fp.MaxRects, Reaches;
    hide ShownBy, Settled, LastByte;
    TornIff(screen, p, f0, f1, diff, u, k, rects, x, y);
    ViewIsBacked(u, f1);
    SomeRects(u, p.planar);
    Fp.CutLosesAll(Rects(u, p.planar), p.offered, !p.planar, k);
    NothingReaches(x, y);
  }

  /** The wake-up that queues the difference. */
  lemma ChangeRuns(s: Session, p: Policy, f0: Frame, f1: Frame, diff: seq<Rect>, u: BitmapUpdate)
    requires Idle(s, f0, f0) && s.allowed && f1.Valid() && f0.width == f1.width && f0.height == f1.height
    requires Difference(f0, f1, diff, u)
    ensures Hub.TickMessage(f1).Some?
    ensures Like(Run(s, p, Showing(f1, diff)),
                 s.(hub := Broadcast(s.hub, f1), next := s.next + 1, sync := Sync(false, Some(FullUpdate(f1)), None),
                    bulk := Some(PdusFor(u, p))))
  {
    hide Run, Hub.TickMessage, Found, Resync, PdusFor, FrameColour;
    BroadcastRuns(s, p, f1);
    RunThen(s, p, [Tick(Hub.FullTick(f1), [])] + [Send], Wake(Choice(diff, false, true)));
  }

  /** Outside the difference the frames agree; inside, an uncut send reaches every position. */
  lemma Elsewhere(p: Policy, f0: Frame, f1: Frame, diff: seq<Rect>, u: BitmapUpdate, x: nat, y: nat)
    requires f0.Valid() && f1.Valid() && f0.width == f1.width && f0.height == f1.height
    requires Difference(f0, f1, diff, u)
    requires Visible(f1, x, y)
    ensures ViewOf(u, f1) && (!Shows(u, x, y) ==> FrameColour(f0, x, y) == FrameColour(f1, x, y))
  {
    hide Found, Resync, PixelOf, Colour, SamePicture;
    assert FrameOf(FullUpdate(f0)) == f0 && FrameOf(FullUpdate(f1)) == f1;
    ResyncCovers(Some(FullUpdate(f0)), FullUpdate(f1), diff);
  }

  // ------------------------------------------------------------------
  // A subscription racing the first frame
  // ------------------------------------------------------------------

  function Race(f: Frame): seq<Action> {
    [Subscribe] + [Tick(Hub.FullTick(f), [])] + [Send] + [Attach]
  }

  /**
    The first frame captured and broadcast between the two halves of the subscription: the session has nothing to
    read and nothing to send, and its client goes on showing whatever it showed.
   */
  lemma RaceLeavesBlank(screen: Screen, gateOpen: bool, p: Policy, f: Frame)
    requires f.Valid()
    ensures var r := Run(Init(screen, gateOpen), p, Race(f));
            Settled(r) && r.missed && r.hub.screen == Some(f) && r.client.screen == screen
  {
    hide Run, Hub.TickMessage;
    var s := Init(screen, gateOpen);
    RunOne(s, p, Subscribe);
    var t := Step(s, p, Subscribe);
    BroadcastRuns(t, p, f);
    var acts := [Tick(Hub.FullTick(f), [])] + [Send];
    RunAppend(s, p, [Subscribe], acts);
    assert [Subscribe] + acts == [Subscribe] + [Tick(Hub.FullTick(f), [])] + [Send];
    RunThen(s, p, [Subscribe] + [Tick(Hub.FullTick(f), [])] + [Send], Attach);
  }
}
