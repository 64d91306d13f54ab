/** A session always settles: what it owes its client can be delivered without any further capture or request. */
module SessionProgress {
  import opened Bytes
  import opened BitmapSync
  import opened DirtyRects
  import opened Display
  import opened Tiling
  import opened Session
  import opened SessionRuns
  import Hub = DisplayHub

  /** A catch-up with no backlog, whose bytes are queued. */
  predicate Clear(c: Choice) {
    !c.backlog && c.queued
  }

  /** Work already under way: no capture, no request, nothing given up. */
  predicate Moves(a: Action) {
    match a
    case Send => true
    case Wake(c) => Clear(c)
    case Join(c) => Clear(c)
    case Ticker(c) => Clear(c)
    case HandBulk => true
    case HandDirect => true
    case Arrive => true
    case _ => false
  }

  ghost predicate AllMove(actions: seq<Action>) {
    forall i :: 0 <= i < |actions| ==> Moves(actions[i])
  }

  ghost predicate Going(s: Session, p: Policy) {
    Inv(s, p) && s.phase.Attached? && s.gateOpen && s.allowed && s.hub.latest.Some?
  }

  lemma {:induction false} TimesMove(a: Action, n: nat)
    requires Moves(a)
    ensures AllMove(Times(a, n))
  {
    if n > 0 {
      TimesMove(a, n - 1);
    }
  }

  /** A finding for the comparison there is to make. */
  lemma SomeChoice(s: Session, p: Policy) returns (c: Choice)
    requires Going(s, p)
    ensures Clear(c) && ChoiceOk(s, c)
  {
    hide IsDiff, Inv;
    var full := Latest(s.hub);
    if full.Some? && s.sync.synced.Some? {
      var diff := SomeDiff(Compared(s.sync.synced.value, full.value), full.value.width, full.value.height);
      c := Choice(diff, false, true);
    } else {
      c := Choice([], false, true);
    }
  }

  /** A clear catch-up leaves nothing pending if no background send is in its way, and touches nothing but that send. */
  lemma ClearCatchUp(s: Session, p: Policy, c: Choice)
    requires Going(s, p) && s.direct == [] && Clear(c) && ChoiceOk(s, c)
    ensures var t := CatchUp(s, p, c);
            && t.hub == s.hub && t.phase == s.phase && t.initial == s.initial && t.next == s.next && t.gateOpen == s.gateOpen
            && t.allowed == s.allowed && t.direct == [] && t.wire == s.wire
            && (s.bulk.None? ==> !t.sync.pending)
            && (s.bulk.Some? ==> t.bulk == s.bulk)
            && (!s.sync.pending ==> t.bulk == s.bulk && !t.sync.pending)
    ensures Going(CatchUp(s, p, c), p)
  {
    hide Hub.HubInv, PixelsOk, WireOk, StreamsOk, Found, Resync, PdusFor;
    CatchUpKeeps(s, p, c);
    if s.sync.pending {
      Taken(s, p, c);
    }
  }

  /** Handing everything over. */
  lemma HandAll(s: Session, p: Policy) returns (actions: seq<Action>)
    requires Going(s, p)
    ensures AllMove(actions) && Going(Run(s, p, actions), p)
    ensures var t := Run(s, p, actions);
            && t.direct == [] && t.hub == s.hub && t.initial == s.initial && t.next == s.next && t.sync == s.sync
            && t.bulk == if s.bulk.Some? then Some([]) else None
  {
    hide Run, Times, Flat, Inv;
    actions := Times(HandDirect, |Flat(s.direct)|);
    PartsNotEmpty(s, p);
    DirectFlows(s, p);
    TimesMove(HandDirect, |Flat(s.direct)|);
    MovesKeep(s, p, actions);
    if s.bulk.Some? {
      var t, n := Run(s, p, actions), |s.bulk.value|;
      BulkFlows(t, p, n);
      assert s.bulk.value[n..] == [];
      TimesMove(HandBulk, n);
      MovesKeep(t, p, Times(HandBulk, n));
      RunAppend(s, p, actions, Times(HandBulk, n));
      actions := actions + Times(HandBulk, n);
    }
  }

  lemma PartsNotEmpty(s: Session, p: Policy)
    requires Inv(s, p)
    ensures forall i :: 0 <= i < |s.direct| ==> s.direct[i] != []
  {
  }

  lemma MovesKeep(s: Session, p: Policy, actions: seq<Action>)
    requires Inv(s, p) && AllMove(actions)
    ensures Inv(Run(s, p, actions), p)
  {
    hide Inv, Run;
    RunKeepsFrom(s, p, actions);
  }

  /** Reading everything there is to read. */
  lemma {:induction false} ReadAll(s: Session, p: Policy) returns (actions: seq<Action>)
    requires Going(s, p) && s.direct == [] && s.hub.inFlight.None?
    ensures AllMove(actions) && Going(Run(s, p, actions), p)
    ensures var t := Run(s, p, actions);
            t.direct == [] && t.hub == s.hub && t.initial.None? && t.next == |t.hub.sent|
    decreases s.initial.Some?, |s.hub.sent| - s.next
  {
    hide Run, Inv, CatchUp;
    AtMostSent(s, p);
    if s.initial.None? && s.next == |s.hub.sent| {
      actions := [];
      RunNothing(s, p);
    } else {
      var c := SomeChoice(s, p);
      var t := Step(s, p, Wake(c));
      WakeKeeps(s, p, c);
      RunOne(s, p, Wake(c));
      Wakes(s, p, c);
      var more := ReadAll(t, p);
      actions := [Wake(c)] + more;
      RunAppend(s, p, [Wake(c)], more);
    }
  }

  lemma Wakes(s: Session, p: Policy, c: Choice)
    requires Going(s, p) && Enabled(s, Wake(c)) && Clear(c)
    ensures var t := Step(s, p, Wake(c));
            && t.direct == [] && t.hub == s.hub && t.phase == s.phase && t.gateOpen && t.allowed
            && t.next <= |s.hub.sent| && (t.initial.Some? ==> s.initial.Some?)
            && if s.initial.Some? then t.initial.None? else t.initial.None? && t.next > s.next
  {
    hide Inv, CatchUp, Found, Woken;
    AtMostSent(s, p);
    WokenIs(s);
    var d := Woken(s).(sync := MarkDirty(s.sync), missed := false);
    LoopKeeps(s, d, p);
    ClearCatchUp(d, p, c);
  }

  /** Nothing is left to read or in flight. */
  predicate Read(s: Session) {
    s.direct == [] && s.hub.inFlight.None? && s.initial.None? && s.next == |s.hub.sent|
  }

  lemma Joins(s: Session, p: Policy) returns (actions: seq<Action>)
    requires Going(s, p) && Read(s) && s.bulk.Some?
    ensures AllMove(actions) && Going(Run(s, p, actions), p) && Read(Run(s, p, actions)) && !Run(s, p, actions).sync.pending
    ensures !s.sync.pending ==> Run(s, p, actions).bulk.None?
  {
    hide Run, Inv, CatchUp, Found;
    actions := HandAll(s, p);
    var t := Run(s, p, actions);
    var c := SomeChoice(t, p);
    RunThen(s, p, actions, Join(c));
    AtMostSent(t, p);
    LoopKeeps(t, t.(bulk := None), p);
    ClearCatchUp(t.(bulk := None), p, c);
    actions := actions + [Join(c)];
  }

  /** Catching up until nothing is pending. */
  lemma Flushes(s: Session, p: Policy) returns (actions: seq<Action>)
    requires Going(s, p) && Read(s)
    ensures AllMove(actions) && Going(Run(s, p, actions), p) && Read(Run(s, p, actions))
    ensures !Run(s, p, actions).sync.pending && Run(s, p, actions).bulk.None?
  {
    hide Run, Inv, CatchUp, Found;
    if s.bulk.Some? {
      actions := Joins(s, p);
    } else if s.sync.pending {
      var c := SomeChoice(s, p);
      ClearCatchUp(s, p, c);
      RunOne(s, p, Ticker(c));
      actions := [Ticker(c)];
    } else {
      actions := [];
      RunNothing(s, p);
    }
    var t := Run(s, p, actions);
    if t.bulk.Some? {
      var more := Joins(t, p);
      RunAppend(s, p, actions, more);
      actions := actions + more;
    }
  }

  /**
    From every reachable state with output allowed and the gate open, some sequence of steps already under way, with no
    backlog, settles the session.
   */
  lemma Settles(s: Session, p: Policy) returns (actions: seq<Action>)
    requires Going(s, p)
    ensures AllMove(actions) && Settled(Run(s, p, actions))
  {
    hide Run, Inv;
    actions := HandAll(s, p);
    var t := Run(s, p, actions);
    if t.hub.inFlight.Some? {
      SendKeeps(t, p);
      RunThen(s, p, actions, Send);
      actions := actions + [Send];
      t := Run(s, p, actions);
    }
    var more := ReadAll(t, p);
    RunAppend(s, p, actions, more);
    actions := actions + more;
    t := Run(s, p, actions);
    more := Flushes(t, p);
    RunAppend(s, p, actions, more);
    actions := actions + more;
    t := Run(s, p, actions);
    AllArrive(t, p);
    TimesMove(Arrive, |t.wire|);
    RunAppend(s, p, actions, Times(Arrive, |t.wire|));
    actions := actions + Times(Arrive, |t.wire|);
  }

  /** Of every run from the start. */
  lemma EveryRunSettles(screen: Screen, gateOpen: bool, p: Policy, actions: seq<Action>) returns (more: seq<Action>)
    requires SizesOk(actions, p)
    requires var s := Run(Init(screen, gateOpen), p, actions);
             s.phase.Attached? && s.gateOpen && s.allowed && s.hub.latest.Some?
    ensures AllMove(more) && Settled(Run(Init(screen, gateOpen), p, actions + more))
  {
    hide Run, Inv;
    var start := Init(screen, gateOpen);
    RunKeeps(screen, gateOpen, p, actions);
    more := Settles(Run(start, p, actions), p);
    RunAppend(start, p, actions, more);
  }
}
