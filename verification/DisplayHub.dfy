/**
  The display fan-out protocol (kmsrdp/src/display_hub.rs): one capture loop publishes the latest full frame
  and then broadcasts one update per tick; subscribers paint what they receive, and one that fell behind the
  256-message ring repaints from the latest full frame and then replays the older updates still retained.
  Capture and subscribers interleave at every await and at every lock; the desktop size is fixed.
 */
module DisplayHub {
  import opened Bytes
  import opened DirtyRects
  import opened Display

  const BROADCAST_CAPACITY: nat := 256

  /** What a client shows at each position. */
  type Canvas = (nat, nat) -> Pixel

  ghost function Paint(c: Canvas, u: BitmapUpdate): Canvas {
    (x, y) => if Shows(u, x, y) then ShownPixel(u, x, y) else c(x, y)
  }

  ghost function PaintAll(c: Canvas, us: seq<BitmapUpdate>): Canvas {
    if us == [] then c else PaintAll(Paint(c, us[0]), us[1..])
  }

  ghost predicate ShowsFrame(c: Canvas, f: Frame) {
    forall x: nat, y: nat :: Visible(f, x, y) ==> c(x, y) == PixelOf(f.data, f.stride, x, y)
  }

  /** How a subscription stands: between its two halves, or attached to the channel. */
  datatype Phase = Cloned | Attached

  datatype Subscriber = Subscriber(
    phase: Phase,
    initial: Option<Frame>,   // full frame still to paint first
    next: nat,                // index of the next message to receive
    resync: bool,             // a lag was reported and the latest frame not yet read
    missed: bool,             // a frame newer than `initial` was broadcast before it attached, and no resync since
    canvas: Canvas)

  datatype Hub = Hub(
    screen: Option<Frame>,           // the picture last captured
    latest: Option<Frame>,           // latest_full; also the loop's comparison frame
    sent: seq<BitmapUpdate>,         // every message broadcast so far; the last 256 are retained
    inFlight: Option<BitmapUpdate>,  // published with `latest` but not broadcast yet
    subs: seq<Subscriber>)

  function Init(): Hub {
    Hub(None, None, [], None, [])
  }

  /** The loop compares the frames itself only when the capturer offered no rectangles and no full refresh is due. */
  predicate ComparesItself(previous: Option<Frame>, c: Capture) {
    c.dirty.None? && !c.forceFull && previous.Some? &&
    previous.value.width == c.frame.width && previous.value.height == c.frame.height
  }

  /** The tick's rectangles: the capturer's, the loop's own `diff`, or the whole frame. */
  function TickRects(previous: Option<Frame>, c: Capture, diff: seq<Rect>): seq<Rect> {
    if c.dirty.Some? then Coalesce(c.dirty.value, c.frame.width, c.frame.height)
    else if ComparesItself(previous, c) then Coalesce(diff, c.frame.width, c.frame.height)
    else [Rect(0, 0, c.frame.width, c.frame.height)]
  }

  function FramePicture(f: Frame): Option<BitmapUpdate> {
    if f.width < 0x1_0000 && f.height < 0x1_0000 then Some(FullUpdate(f)) else None
  }

  datatype Action =
    | Tick(capture: Capture, diff: seq<Rect>)  // capture, compare, publish `latest`, merge the rectangles
    | Send                      // broadcast the merged update
    | Clone(canvas: Canvas)     // first half of subscribe, by a client showing anything at all
    | Attach(i: nat)            // second half of subscribe
    | Receive(i: nat)           // one poll of the subscriber's channel
    | Resync(i: nat)            // the read of `latest` after a reported lag

  ghost predicate Enabled(h: Hub, a: Action) {
    match a
    case Tick(c, diff) =>
      && h.inFlight.None? && Honest(c, h.latest)
      && (h.latest.Some? ==> c.frame.width == h.latest.value.width && c.frame.height == h.latest.value.height)
      && (ComparesItself(h.latest, c) ==> IsDiff(FramesOf(h.latest.value, c.frame), c.frame.width, c.frame.height, diff))
    case Send => h.inFlight.Some?
    case Clone(_) => true
    case Attach(i) => i < |h.subs| && h.subs[i].phase.Cloned?
    case Receive(i) =>
      i < |h.subs| && h.subs[i].phase.Attached? && !h.subs[i].resync &&
      (h.subs[i].initial.Some? || h.subs[i].next < |h.sent|)
    case Resync(i) => i < |h.subs| && h.subs[i].resync
  }

  function Oldest(h: Hub): nat {
    if |h.sent| > BROADCAST_CAPACITY then |h.sent| - BROADCAST_CAPACITY else 0
  }

  /** next_update up to the point where it returns or reports a lag. */
  ghost function ReceiveStep(h: Hub, s: Subscriber): Subscriber
    requires s.initial.Some? || s.next < |h.sent|
  {
    if s.initial.Some? then
      s.(initial := None, canvas := PaintFrame(s.canvas, s.initial.value))
    else if s.next < Oldest(h) then
      s.(next := Oldest(h), resync := true)
    else
      s.(next := s.next + 1, canvas := Paint(s.canvas, h.sent[s.next]))
  }

  ghost function PaintFrame(c: Canvas, f: Frame): Canvas {
    match FramePicture(f)
    case Some(u) => Paint(c, u)
    case None => c
  }

  ghost function Step(h: Hub, a: Action): Hub
    requires Enabled(h, a)
  {
    match a
    case Tick(c, diff) =>
      if c.same then h.(screen := Some(c.frame))
      else
        h.(screen := Some(c.frame), latest := Some(c.frame),
           inFlight := MergeRects(FullUpdate(c.frame), TickRects(h.latest, c, diff)))
    case Send =>
      h.(sent := h.sent + [h.inFlight.value], inFlight := None, subs := MarkMissed(h.subs, h.latest))
    case Clone(canvas) =>
      h.(subs := h.subs + [Subscriber(Cloned, h.latest, 0, false, false, canvas)])
    case Attach(i) =>
      h.(subs := h.subs[i := h.subs[i].(phase := Attached, next := |h.sent|)])
    case Receive(i) =>
      h.(subs := h.subs[i := ReceiveStep(h, h.subs[i])])
    case Resync(i) =>
      var s := h.subs[i].(resync := false);
      h.(subs := h.subs[i := if h.latest.Some? then s.(canvas := PaintFrame(s.canvas, h.latest.value), missed := false) else s])
  }

  /** A broadcast is lost on a subscriber that took its initial frame before that broadcast was published. */
  ghost predicate Misses(s: Subscriber, latest: Option<Frame>) {
    s.phase.Cloned? && s.initial != latest
  }

  ghost function MarkMissed(subs: seq<Subscriber>, latest: Option<Frame>): (r: seq<Subscriber>)
    ensures |r| == |subs|
    ensures forall i :: 0 <= i < |subs| ==> r[i] == subs[i].(missed := subs[i].missed || Misses(subs[i], latest))
  {
    seq(|subs|, i requires 0 <= i < |subs| => subs[i].(missed := subs[i].missed || Misses(subs[i], latest)))
  }

  ghost function Run(h: Hub, actions: seq<Action>): Hub
    decreases |actions|
  {
    if actions == [] then h
    else
      var before := Run(h, actions[..|actions| - 1]);
      var a := actions[|actions| - 1];
      if Enabled(before, a) then Step(before, a) else before
  }

  // ------------------------------------------------------------------
  // Painting
  // ------------------------------------------------------------------

  /** What ends up at a position depends only on what was there and on the updates. */
  lemma {:induction false} PaintAllPoint(c: Canvas, d: Canvas, us: seq<BitmapUpdate>, x: nat, y: nat)
    requires c(x, y) == d(x, y)
    ensures PaintAll(c, us)(x, y) == PaintAll(d, us)(x, y)
    decreases |us|
  {
    if us != [] {
      PaintAllPoint(Paint(c, us[0]), Paint(d, us[0]), us[1..], x, y);
    }
  }

  lemma {:induction false} PaintAllLast(c: Canvas, us: seq<BitmapUpdate>, u: BitmapUpdate)
    ensures PaintAll(c, us + [u]) == Paint(PaintAll(c, us), u)
    decreases |us|
  {
    if us == [] {
      assert [u][1..] == [];
    } else {
      assert (us + [u])[0] == us[0] && (us + [u])[1..] == us[1..] + [u];
      PaintAllLast(Paint(c, us[0]), us[1..], u);
    }
  }

  /** Painting a valid frame in full shows it. */
  lemma PaintFrameShows(c: Canvas, f: Frame)
    requires f.Valid()
    ensures ShowsFrame(PaintFrame(c, f), f)
  {
    hide PixelOf, ShownPixel;
    assert ViewOf(FullUpdate(f), f);
    forall x: nat, y: nat | Visible(f, x, y)
      ensures PaintFrame(c, f)(x, y) == PixelOf(f.data, f.stride, x, y)
    {
      ViewShows(FullUpdate(f), f, x, y);
    }
  }

  ghost predicate Changed(a: Frame, b: Frame, x: nat, y: nat) {
    PixelOf(a.data, a.stride, x, y) != PixelOf(b.data, b.stride, x, y)
  }

  /** Updates `us` bring canvas `c` to frame `f`. */
  ghost predicate Brings(c: Canvas, us: seq<BitmapUpdate>, f: Frame) {
    ShowsFrame(PaintAll(c, us), f)
  }

  /** Appending an update that shows the new frame wherever it differs from the old one. */
  lemma BringsNext(c: Canvas, c': Canvas, us: seq<BitmapUpdate>, u: BitmapUpdate, f: Frame, g: Frame)
    requires Brings(c, us, f) && f.width == g.width && f.height == g.height
    requires ViewOf(u, g)
    requires forall x: nat, y: nat :: Visible(g, x, y) && Changed(f, g, x, y) ==> Shows(u, x, y)
    requires forall x: nat, y: nat :: Visible(g, x, y) && !Changed(f, g, x, y) ==> c(x, y) == c'(x, y)
    ensures Brings(c', us + [u], g)
  {
    hide PixelOf, ShownPixel;
    PaintAllLast(c', us, u);
    forall x: nat, y: nat | Visible(g, x, y)
      ensures PaintAll(c', us + [u])(x, y) == PixelOf(g.data, g.stride, x, y)
    {
      if Shows(u, x, y) {
        ViewShows(u, g, x, y);
      } else {
        PaintAllPoint(c, c', us, x, y);
      }
    }
  }

  /** A full-frame update brings any canvas to its frame. */
  lemma BringsFirst(c: Canvas, u: BitmapUpdate, g: Frame)
    requires ViewOf(u, g)
    requires forall x: nat, y: nat :: Visible(g, x, y) ==> Shows(u, x, y)
    ensures Brings(c, [u], g)
  {
    hide PixelOf, ShownPixel;
    assert [u][1..] == [];
    forall x: nat, y: nat | Visible(g, x, y)
      ensures PaintAll(c, [u])(x, y) == PixelOf(g.data, g.stride, x, y)
    {
      ViewShows(u, g, x, y);
    }
  }

  /** A canvas that already shows the frame where another does is brought to it by the same updates. */
  lemma BringsFrom(c: Canvas, d: Canvas, us: seq<BitmapUpdate>, f: Frame)
    requires Brings(c, us, f) && ShowsFrame(c, f) && ShowsFrame(d, f)
    ensures Brings(d, us, f)
  {
    hide PixelOf;
    forall x: nat, y: nat | Visible(f, x, y)
      ensures PaintAll(d, us)(x, y) == PixelOf(f.data, f.stride, x, y)
    {
      PaintAllPoint(c, d, us, x, y);
    }
  }

  // ------------------------------------------------------------------
  // The invariant
  // ------------------------------------------------------------------

  ghost function InFlightList(h: Hub): seq<BitmapUpdate> {
    if h.inFlight.Some? then [h.inFlight.value] else []
  }

  /** The updates a subscriber at position `k` has yet to see. */
  ghost function Unread(h: Hub, k: nat): seq<BitmapUpdate>
    requires k <= |h.sent|
  {
    h.sent[k..] + InFlightList(h)
  }

  ghost function FrameCanvas(f: Frame): Canvas {
    (x, y) => PixelOf(f.data, f.stride, x, y)
  }

  /** Replaying the messages from any point over the latest frame leaves the latest frame. */
  ghost predicate Replayable(h: Hub, f: Frame) {
    forall k :: 0 <= k <= |h.sent| ==> Brings(FrameCanvas(f), Unread(h, k), f)
  }

  ghost predicate HubInv(h: Hub) {
    match h.latest
    case None => h.screen.None? && h.sent == [] && h.inFlight.None?
    case Some(f) =>
      && f.Valid()
      && h.screen.Some? && SamePicture(f, h.screen.value)
      && (h.inFlight.Some? ==> ViewOf(h.inFlight.value, f))
      && Replayable(h, f)
  }

  ghost function Position(h: Hub, s: Subscriber): nat {
    if s.phase.Cloned? then |h.sent| else s.next
  }

  /** The canvas once a pending initial frame has been painted. */
  ghost function StartCanvas(s: Subscriber): Canvas {
    if s.initial.Some? then PaintFrame(s.canvas, s.initial.value) else s.canvas
  }

  ghost predicate InPlace(h: Hub, s: Subscriber) {
    && Position(h, s) <= |h.sent|
    && (h.latest.None? ==> s.initial.None?)
    && (s.resync ==> s.phase.Attached? && s.initial.None?)
  }

  /** What is still unread brings the subscriber's canvas to the latest frame. */
  ghost predicate CatchesUp(h: Hub, s: Subscriber)
    requires InPlace(h, s)
  {
    h.latest.Some? && !s.resync ==> Brings(StartCanvas(s), Unread(h, Position(h, s)), h.latest.value)
  }

  ghost predicate SubInv(h: Hub, s: Subscriber) {
    InPlace(h, s) && (s.missed || CatchesUp(h, s))
  }

  ghost predicate Inv(h: Hub) {
    HubInv(h) && forall i :: 0 <= i < |h.subs| ==> SubInv(h, h.subs[i])
  }

  // ------------------------------------------------------------------
  // Every step keeps it
  // ------------------------------------------------------------------

  /** A tick's rectangles lie in the frame and cover every change; there are none only for the same picture. */
  lemma TickRectsCover(h: Hub, c: Capture, diff: seq<Rect>)
    requires HubInv(h) && Enabled(h, Tick(c, diff)) && !c.same
    ensures var rects := TickRects(h.latest, c, diff);
            && (forall i :: 0 <= i < |rects| ==> InFrame(rects[i], c.frame.width, c.frame.height))
            && (h.latest.None? ==> rects != [] && forall x: nat, y: nat :: Visible(c.frame, x, y) ==> Covers(rects, x, y))
            && (h.latest.Some? ==> forall x: nat, y: nat ::
                  Visible(c.frame, x, y) && Changed(h.latest.value, c.frame, x, y) ==> Covers(rects, x, y))
  {
    hide PixelOf, Replayable, TileDirty, Offset;
    if c.dirty.Some? {
      CoalesceCovers(c.dirty.value, c.frame.width, c.frame.height);
    } else if ComparesItself(h.latest, c) {
      DiffCoversChanges(h.latest.value, c.frame, diff);
      CoalesceCovers(diff, c.frame.width, c.frame.height);
    } else {
      var all := Rect(0, 0, c.frame.width, c.frame.height);
      forall x: nat, y: nat | Visible(c.frame, x, y) ensures Covers([all], x, y) {
        assert Contains([all][0], x, y);
      }
    }
  }

  /** The update a tick publishes: a view of the new frame over every pixel that changed, or nothing to show. */
  lemma TickUpdate(h: Hub, c: Capture, diff: seq<Rect>)
    requires HubInv(h) && Enabled(h, Tick(c, diff)) && !c.same
    ensures var g := c.frame;
            var m := MergeRects(FullUpdate(g), TickRects(h.latest, c, diff));
            && (m.Some? ==> ViewOf(m.value, g))
            && (h.latest.None? ==> m.Some? && forall x: nat, y: nat :: Visible(g, x, y) ==> Shows(m.value, x, y))
            && (h.latest.Some? ==> forall x: nat, y: nat ::
                  Visible(g, x, y) && Changed(h.latest.value, g, x, y) ==> m.Some? && Shows(m.value, x, y))
  {
    hide PixelOf, MergeRects, TickRects, ViewOf;
    TickRectsCover(h, c, diff);
    MergedUpdate(c.frame, TickRects(h.latest, c, diff));
  }

  lemma BringsSame(c: Canvas, c': Canvas, us: seq<BitmapUpdate>, f: Frame, g: Frame)
    requires Brings(c, us, f) && f.width == g.width && f.height == g.height
    requires forall x: nat, y: nat :: Visible(g, x, y) ==> !Changed(f, g, x, y) && c(x, y) == c'(x, y)
    ensures Brings(c', us, g)
  {
    hide PixelOf;
    forall x: nat, y: nat | Visible(g, x, y)
      ensures PaintAll(c', us)(x, y) == PixelOf(g.data, g.stride, x, y)
    {
      assert !Changed(f, g, x, y);
      PaintAllPoint(c, c', us, x, y);
    }
  }

  lemma TickBrings(h: Hub, h': Hub, c: Capture, diff: seq<Rect>, start: Canvas, start': Canvas, k: nat)
    requires HubInv(h) && Enabled(h, Tick(c, diff)) && !c.same && h' == Step(h, Tick(c, diff)) && k <= |h.sent|
    requires h.latest.Some? ==> Brings(start, Unread(h, k), h.latest.value)
    requires h.latest.Some? ==> forall x: nat, y: nat ::
               Visible(c.frame, x, y) && !Changed(h.latest.value, c.frame, x, y) ==> start(x, y) == start'(x, y)
    ensures Brings(start', Unread(h', k), c.frame)
  {
    hide PixelOf, MergeRects, TickRects, Brings, Replayable, ViewOf, Honest, SamePicture, IsDiff;
    TickUpdate(h, c, diff);
    var m := MergeRects(FullUpdate(c.frame), TickRects(h.latest, c, diff));
    if m.None? {
      assert Unread(h', k) == Unread(h, k);
      BringsSame(start, start', Unread(h, k), h.latest.value, c.frame);
    } else {
      assert Unread(h', k) == Unread(h, k) + [m.value];
      if h.latest.Some? {
        BringsNext(start, start', Unread(h, k), m.value, h.latest.value, c.frame);
      } else {
        assert Unread(h, k) == [] && [] + [m.value] == [m.value];
        BringsFirst(start', m.value, c.frame);
      }
    }
  }

  lemma TickKeeps(h: Hub, c: Capture, diff: seq<Rect>)
    requires Inv(h) && Enabled(h, Tick(c, diff))
    ensures Inv(Step(h, Tick(c, diff)))
  {
    hide PixelOf, MergeRects, TickRects, Brings, ViewOf, PaintFrame, IsDiff;
    var h' := Step(h, Tick(c, diff));
    if !c.same {
      TickUpdate(h, c, diff);
      forall k | 0 <= k <= |h'.sent| ensures Brings(FrameCanvas(c.frame), Unread(h', k), c.frame) {
        TickBrings(h, h', c, diff,
                   if h.latest.Some? then FrameCanvas(h.latest.value) else FrameCanvas(c.frame), FrameCanvas(c.frame), k);
      }
      forall i | 0 <= i < |h'.subs| ensures SubInv(h', h'.subs[i]) {
        var s := h.subs[i];
        if !s.missed && !s.resync {
          TickBrings(h, h', c, diff, StartCanvas(s), StartCanvas(s), Position(h, s));
        }
      }
    } else {
      assert forall k :: 0 <= k <= |h.sent| ==> Unread(h', k) == Unread(h, k);
      forall i | 0 <= i < |h'.subs| ensures SubInv(h', h'.subs[i]) {
        assert SubInv(h, h.subs[i]);
      }
    }
  }

  lemma SendKeeps(h: Hub)
    requires Inv(h) && Enabled(h, Send)
    ensures Inv(Step(h, Send))
  {
    hide PixelOf, Brings, ViewOf, SamePicture;
    var h' := Step(h, Send);
    var f := h.latest.value;
    assert forall k :: 0 <= k <= |h.sent| ==> Unread(h', k) == Unread(h, k);
    SendLast(h);
    forall i | 0 <= i < |h'.subs| ensures SubInv(h', h'.subs[i]) {
      var s := h.subs[i];
      assert SubInv(h, s);
      if s.phase.Cloned? && !h'.subs[i].missed {
        PaintFrameShows(s.canvas, f);
        BringsNothing(PaintFrame(s.canvas, f), f);
      }
    }
  }

  lemma BringsNothing(c: Canvas, f: Frame)
    ensures Brings(c, [], f) <==> ShowsFrame(c, f)
  {
  }

  lemma SendLast(h: Hub)
    requires h.inFlight.Some? && h.latest.Some?
    ensures Unread(Step(h, Send), |h.sent| + 1) == []
    ensures Brings(FrameCanvas(h.latest.value), [], h.latest.value)
  {
  }

  lemma CloneKeeps(h: Hub, canvas: Canvas)
    requires Inv(h)
    ensures Inv(Step(h, Clone(canvas)))
  {
    hide PixelOf, Brings, ViewOf, SamePicture;
    var h' := Step(h, Clone(canvas));
    assert forall k :: 0 <= k <= |h.sent| ==> Unread(h', k) == Unread(h, k);
    forall i | 0 <= i < |h'.subs| ensures SubInv(h', h'.subs[i]) {
      if i < |h.subs| {
        assert SubInv(h, h.subs[i]);
      } else if h.latest.Some? {
        var f := h.latest.value;
        PaintFrameShows(canvas, f);
        FrameCanvasShows(f);
        assert Brings(FrameCanvas(f), Unread(h, |h.sent|), f);
        BringsFrom(FrameCanvas(f), PaintFrame(canvas, f), Unread(h, |h.sent|), f);
      }
    }
  }

  lemma FrameCanvasShows(f: Frame)
    ensures ShowsFrame(FrameCanvas(f), f)
  {
  }

  /** A step of one subscriber leaves the hub and every other subscriber as they were. */
  lemma OneSubscriberSteps(h: Hub, i: nat, s: Subscriber)
    requires Inv(h) && i < |h.subs| && SubInv(h, s)
    ensures Inv(h.(subs := h.subs[i := s]))
  {
    hide PixelOf, Brings, ViewOf, SamePicture;
    var h' := h.(subs := h.subs[i := s]);
    assert forall k :: 0 <= k <= |h.sent| ==> Unread(h', k) == Unread(h, k);
    forall j | 0 <= j < |h'.subs| ensures SubInv(h', h'.subs[j]) {
      assert SubInv(h, h.subs[j]);
    }
  }

  lemma ReceiveKeeps(h: Hub, i: nat)
    requires Inv(h) && Enabled(h, Receive(i))
    ensures SubInv(h, ReceiveStep(h, h.subs[i]))
  {
    var s := h.subs[i];
    var s' := ReceiveStep(h, s);
    assert SubInv(h, s);
    if s.initial.None? && Oldest(h) <= s.next && h.latest.Some? && !s.missed {
      var q := Unread(h, s.next);
      assert q[0] == h.sent[s.next] && q[1..] == Unread(h, s.next + 1);
      assert PaintAll(s.canvas, q) == PaintAll(s'.canvas, Unread(h, s.next + 1));
    }
  }

  lemma ResyncKeeps(h: Hub, i: nat)
    requires Inv(h) && Enabled(h, Resync(i))
    ensures Inv(Step(h, Resync(i)))
  {
    hide PixelOf, Brings, ViewOf, SamePicture, PaintFrame;
    var s := h.subs[i];
    assert SubInv(h, s);
    var s' := Step(h, Resync(i)).subs[i];
    if h.latest.Some? {
      var f := h.latest.value;
      FrameCanvasShows(f);
      PaintFrameShows(s.canvas, f);
      assert Brings(FrameCanvas(f), Unread(h, s.next), f);
      BringsFrom(FrameCanvas(f), PaintFrame(s.canvas, f), Unread(h, s.next), f);
    }
    OneSubscriberSteps(h, i, s');
  }

  lemma StepKeeps(h: Hub, a: Action)
    requires Inv(h) && Enabled(h, a)
    ensures Inv(Step(h, a))
  {
    hide Inv;
    match a
    case Tick(c, diff) => TickKeeps(h, c, diff);
    case Send => SendKeeps(h);
    case Clone(canvas) => CloneKeeps(h, canvas);
    case Attach(i) =>
      AttachKeeps(h, i);
      OneSubscriberSteps(h, i, h.subs[i].(phase := Attached, next := |h.sent|));
    case Receive(i) =>
      ReceiveKeeps(h, i);
      OneSubscriberSteps(h, i, ReceiveStep(h, h.subs[i]));
    case Resync(i) => ResyncKeeps(h, i);
  }

  lemma AttachKeeps(h: Hub, i: nat)
    requires Inv(h) && Enabled(h, Attach(i))
    ensures SubInv(h, h.subs[i].(phase := Attached, next := |h.sent|))
  {
    assert SubInv(h, h.subs[i]);
  }

  lemma {:induction false} RunKeeps(actions: seq<Action>)
    ensures Inv(Run(Init(), actions))
    decreases |actions|
  {
    hide Inv;
    if actions == [] {
      InitInv();
    } else {
      var before := Run(Init(), actions[..|actions| - 1]);
      RunKeeps(actions[..|actions| - 1]);
      if Enabled(before, actions[|actions| - 1]) {
        StepKeeps(before, actions[|actions| - 1]);
      }
    }
  }

  lemma InitInv()
    ensures Inv(Init())
  {
  }

  /** Nothing unread by subscriber `i` and no tick in flight. */
  ghost predicate Quiescent(h: Hub, i: nat) {
    && i < |h.subs| && h.inFlight.None?
    && h.subs[i].phase.Attached? && h.subs[i].initial.None? && !h.subs[i].resync && h.subs[i].next == |h.sent|
  }

  /**
    In every interleaving of ticks, broadcasts, subscriptions, receives, lags and resyncs, a subscriber that
    has nothing left to read shows exactly the picture last captured, unless a frame was broadcast between
    the two halves of its own subscribe and it has not resynced since.
   */
  lemma QuiescentShowsScreen(actions: seq<Action>, i: nat)
    requires Quiescent(Run(Init(), actions), i)
    ensures var h := Run(Init(), actions);
            h.screen.Some? && !h.subs[i].missed ==> ShowsFrame(h.subs[i].canvas, h.screen.value)
  {
    hide PixelOf, PaintFrame;
    var h := Run(Init(), actions);
    RunKeeps(actions);
    assert SubInv(h, h.subs[i]);
    if h.screen.Some? && !h.subs[i].missed {
      assert Unread(h, h.subs[i].next) == [];
      BringsNothing(h.subs[i].canvas, h.latest.value);
    }
  }

  // ------------------------------------------------------------------
  // The loop and the receiver as the source runs them
  // ------------------------------------------------------------------

  class CaptureLoop {
    var previous: Option<Frame>
    var latestFull: Option<BitmapUpdate>

    /** The comparison frame and the published frame are always the same one. */
    ghost predicate Valid()
      reads this
    {
      match previous
      case None => latestFull.None?
      case Some(f) => f.Valid() && latestFull == Some(FullUpdate(f))
    }

    constructor ()
      ensures Valid() && previous.None?
    {
      previous, latestFull := None, None;
    }

    /** One successful capture at the negotiated size: publish first, then hand back what to broadcast. */
    method OnCapture(c: Capture) returns (message: Option<BitmapUpdate>, ghost diff: seq<Rect>)
      requires Valid() && Honest(c, previous)
      modifies this
      ensures Valid()
      ensures c.same ==> previous == old(previous) && message.None?
      ensures !c.same ==>
                && previous == Some(c.frame)
                && (ComparesItself(old(previous), c) ==>
                      IsDiff(FramesOf(old(previous).value, c.frame), c.frame.width, c.frame.height, diff))
                && message == MergeRects(FullUpdate(c.frame), TickRects(old(previous), c, diff))
    {
      diff := [];
      if c.same {
        return None, diff;
      }
      var full := FullUpdate(c.frame);
      var rects;
      if c.dirty.Some? {
        rects := Coalesce(c.dirty.value, c.frame.width, c.frame.height);
      } else if ComparesItself(previous, c) {
        var found := FindDirtyRects(FramesOf(previous.value, c.frame), c.frame.width, c.frame.height);
        diff := found;
        rects := Coalesce(found, c.frame.width, c.frame.height);
      } else {
        rects := [Rect(0, 0, c.frame.width, c.frame.height)];
      }
      latestFull := Some(full);
      previous := Some(c.frame);
      message := MergeDirtyRects(full, rects);
    }
  }

  class DisplayUpdates {
    var initial: Option<BitmapUpdate>
    var next: nat

    constructor (latest: Option<BitmapUpdate>, sent: seq<BitmapUpdate>)
      ensures initial == latest && next == |sent|
    {
      initial, next := latest, |sent|;
    }

    /** The next update to paint, given the channel and the latest full frame; None while there is nothing to receive. */
    method NextUpdate(sent: seq<BitmapUpdate>, latest: Option<BitmapUpdate>) returns (r: Option<BitmapUpdate>)
      requires next <= |sent|
      modifies this
      ensures next <= |sent| && initial.None?
      ensures old(initial).Some? ==> r == old(initial) && next == old(next)
      ensures old(initial).None? ==>
                var oldest := if |sent| > BROADCAST_CAPACITY then |sent| - BROADCAST_CAPACITY else 0;
                if old(next) < oldest && latest.Some? then r == latest && next == oldest
                else
                  var at := if old(next) < oldest then oldest else old(next);
                  if at < |sent| then r == Some(sent[at]) && next == at + 1 else r.None? && next == at
    {
      if initial.Some? {
        r := initial;
        initial := None;
        return;
      }
      var oldest := if |sent| > BROADCAST_CAPACITY then |sent| - BROADCAST_CAPACITY else 0;
      while true
        invariant next <= |sent| && initial.None?
        invariant next == old(next) || (latest.None? && old(next) < oldest && next == oldest)
        decreases oldest - next
      {
        if next < oldest {
          next := oldest;
          if latest.Some? {
            return latest;
          }
          continue;
        }
        if next == |sent| {
          return None;
        }
        r := Some(sent[next]);
        next := next + 1;
        return;
      }
    }
  }

  // ------------------------------------------------------------------
  // A subscription racing a tick
  // ------------------------------------------------------------------

  /**
    Exactly when a subscription recovers: attaching now catches up if and only if every pixel in which the subscriber,
    its initial frame painted if it has one, does not show the latest frame is in the update still in flight.
   */
  lemma AttachCatchesUpIff(h: Hub, i: nat)
    requires HubInv(h) && Enabled(h, Attach(i)) && h.latest.Some? && !h.subs[i].resync
    ensures var s := h.subs[i].(phase := Attached, next := |h.sent|);
            && InPlace(h, s)
            && (CatchesUp(h, s) <==>
                  forall x: nat, y: nat :: Visible(h.latest.value, x, y) && Lags(h.subs[i], h.latest.value, x, y)
                    ==> h.inFlight.Some? && Shows(h.inFlight.value, x, y))
  {
    hide PixelOf, ShownPixel, PaintFrame;
    var s := h.subs[i].(phase := Attached, next := |h.sent|);
    var g := h.latest.value;
    var c := StartCanvas(s);
    assert c == StartCanvas(h.subs[i]);
    assert Unread(h, |h.sent|) == InFlightList(h);
    if h.inFlight.Some? {
      var u := h.inFlight.value;
      assert [u][1..] == [];
      assert PaintAll(c, [u]) == Paint(c, u);
      forall x: nat, y: nat | Visible(g, x, y)
        ensures Paint(c, u)(x, y) == PixelOf(g.data, g.stride, x, y) <==> !Lags(h.subs[i], g, x, y) || Shows(u, x, y)
      {
        if Shows(u, x, y) {
          ViewShows(u, g, x, y);
        }
      }
    }
  }

  ghost predicate Lags(s: Subscriber, latest: Frame, x: nat, y: nat) {
    StartCanvas(s)(x, y) != PixelOf(latest.data, latest.stride, x, y)
  }

  /** A capture that asks for a full refresh, and the update its tick broadcasts. */
  function FullTick(f: Frame): Capture {
    Capture(f, true, false, None)
  }

  function TickMessage(f: Frame): Option<BitmapUpdate>
    requires f.width < 0x1_0000 && f.height < 0x1_0000
  {
    MergeRects(FullUpdate(f), [Rect(0, 0, f.width, f.height)])
  }

  lemma FullTickStep(h: Hub, f: Frame)
    requires f.Valid() && h.inFlight.None?
    requires h.latest.Some? ==> h.latest.value.width == f.width && h.latest.value.height == f.height
    ensures Enabled(h, Tick(FullTick(f), [])) && TickMessage(f).Some?
    ensures Step(h, Tick(FullTick(f), [])) == h.(screen := Some(f), latest := Some(f), inFlight := TickMessage(f))
  {
    hide MergeRects;
    var all := Rect(0, 0, f.width, f.height);
    assert TickRects(h.latest, FullTick(f), []) == [all];
    MergedUpdate(f, [all]);
  }

  lemma RunSnoc(actions: seq<Action>, a: Action)
    ensures var h := Run(Init(), actions);
            Run(Init(), actions + [a]) == if Enabled(h, a) then Step(h, a) else h
  {
    assert (actions + [a])[..|actions|] == actions;
  }

  lemma RunNothing()
    ensures Run(Init(), []) == Init()
  {
  }

  /** The schedule of the race: the first frame is captured and broadcast between the two halves of subscribe. */
  function RaceActions(f: Frame, canvas: Canvas): seq<Action> {
    [Clone(canvas)] + [Tick(FullTick(f), [])] + [Send] + [Attach(0)]
  }

  /** The race leaves a subscriber with nothing to read and nothing shown, whatever the first frame and its canvas. */
  lemma RaceLeavesBlank(f: Frame, canvas: Canvas)
    requires f.Valid()
    ensures var h := Run(Init(), RaceActions(f, canvas));
            Quiescent(h, 0) && h.subs[0].missed && h.screen == Some(f) && h.subs[0].canvas == canvas
  {
    hide Run, TickMessage;
    RunNothing();
    assert [] + [Clone(canvas)] == [Clone(canvas)];
    RunSnoc([], Clone(canvas));
    var acts := [Clone(canvas)];
    RunSnoc(acts, Tick(FullTick(f), []));
    FullTickStep(Run(Init(), acts), f);
    acts := acts + [Tick(FullTick(f), [])];
    RunSnoc(acts, Send);
    acts := acts + [Send];
    RunSnoc(acts, Attach(0));
  }
}
