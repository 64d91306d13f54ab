/** Whole runs of the connection sequence: any calls, on any bytes, in any order. */
module ConnectorRuns {
  import opened Bytes
  import opened Connector
  import X224
  import Mcs

  datatype Call = StepCall(input: seq<byte>) | ApproveCall | RejectCall | ResizeCall(newWidth: u16, newHeight: u16)

  /** What the run has seen: activations (an approval or a resize that was not refused) and Send Data requests. */
  datatype Entry = Approved | Resized(width: u16, height: u16) | Request(data: Mcs.SendData)

  /** A reported connection, and how much of the log had been seen by then. */
  datatype Acceptance = Acceptance(at: nat, connection: Connection)

  /**
    The acceptor and the history of its run: `sent` is what its caller got to write, `built` also what failed
    calls discarded, `lost` how much of that was since the last activation.
   */
  datatype World = World(
    acc: Snapshot, log: seq<Entry>, sent: seq<ServerPdu>, built: seq<ServerPdu>, lost: nat, acceptances: seq<Acceptance>)

  function Start(width: u16, height: u16, requireNla: bool): World {
    World(New(width, height, requireNla), [], [], [], 0, [])
  }

  function Requests(handled: seq<Mcs.SendData>): seq<Entry> {
    seq(|handled|, i requires 0 <= i < |handled| => Request(handled[i]))
  }

  function AfterStep(w: World, o: Stepped): World {
    var log := w.log + Requests(o.handled);
    World(
      o.acc, log,
      w.sent + (if o.result.Done? then o.built else []),
      w.built + o.built,
      w.lost + (if o.result.Done? then 0 else |o.built|),
      w.acceptances + (if o.result.Done? && o.result.value.ConnectionAccepted?
                       then [Acceptance(|log|, o.result.value.connection)] else []))
  }

  /** An approval or a resize; a refused one changes nothing. */
  function AfterActivation(w: World, o: Stepped, entry: Entry): World {
    if o.result.Failed? then w
    else w.(acc := o.acc, log := w.log + [entry], sent := w.sent + o.built, built := w.built + o.built, lost := 0)
  }

  function Act(c: Codec, w: World, call: Call): World {
    match call
    case StepCall(input) => AfterStep(w, Step(c, w.acc, input))
    case ApproveCall => AfterActivation(w, Approve(w.acc), Approved)
    case RejectCall => w.(acc := Reject(w.acc))
    case ResizeCall(width, height) => AfterActivation(w, BeginResize(w.acc, width, height), Resized(width, height))
  }

  function Run(c: Codec, w: World, calls: seq<Call>): World
    decreases |calls|
  {
    if calls == [] then w else Act(c, Run(c, w, calls[..|calls| - 1]), calls[|calls| - 1])
  }

  // ------------------------------------------------------------------
  // Finished states
  // ------------------------------------------------------------------

  /** Nothing moves a rejected acceptor, and nothing more is sent. */
  lemma {:induction false} RejectedIsAbsorbing(c: Codec, w: World, calls: seq<Call>)
    requires w.acc.state.Rejected?
    ensures Run(c, w, calls) == w
    decreases |calls|
  {
    if calls != [] {
      RejectedIsAbsorbing(c, w, calls[..|calls| - 1]);
      assert w.log + Requests([]) == w.log && w.sent + [] == w.sent && w.built + [] == w.built;
      assert w.acceptances + [] == w.acceptances;
    }
  }

  lemma AdmittedStays(c: Codec, w: World, call: Call)
    requires Admitted(w.acc.state)
    ensures Admitted(Act(c, w, call).acc.state)
  {
    hide ReactivationLoop, DomainLoop, X224.UnwrapData;
    if call.StepCall? && Reactivating(w.acc.state) {
      match X224.UnwrapData(call.input)
      case Err(_) =>
      case Ok(payload) => ReactivationPhases(c, w.acc, payload);
    }
  }

  /** Once approved, and so once accepted, a connection never turns rejected, whatever it receives. */
  lemma {:induction false} AcceptedNeverRejected(c: Codec, w: World, calls: seq<Call>)
    requires Admitted(w.acc.state)
    ensures Admitted(Run(c, w, calls).acc.state)
    decreases |calls|
  {
    if calls != [] {
      AcceptedNeverRejected(c, w, calls[..|calls| - 1]);
      AdmittedStays(c, Run(c, w, calls[..|calls| - 1]), calls[|calls| - 1]);
    }
  }

  // ------------------------------------------------------------------
  // What the log must hold before a connection is reported
  // ------------------------------------------------------------------

  predicate Activation(e: Entry) {
    !e.Request?
  }

  /** The position just after the last activation. */
  function SinceActivation(log: seq<Entry>): (n: nat)
    ensures n <= |log|
  {
    if log == [] then 0
    else if Activation(log[|log| - 1]) then |log|
    else SinceActivation(log[..|log| - 1])
  }

  /** The most recently requested desktop size. */
  function LastSize(log: seq<Entry>, initial: (u16, u16)): (u16, u16) {
    if log == [] then initial
    else
      var last := log[|log| - 1];
      if last.Resized? then (last.width, last.height) else LastSize(log[..|log| - 1], initial)
  }

  function Piece(c: Codec, e: Entry): seq<byte> {
    if e.Request? && Eligible(c, e.data) then e.data.data else []
  }

  /** The bytes of the requests from `start` on that may carry Confirm Active. */
  function Pieces(c: Codec, log: seq<Entry>, start: nat): seq<byte>
    requires start <= |log|
  {
    if start == |log| then [] else Pieces(c, log[..|log| - 1], start) + Piece(c, log[|log| - 1])
  }

  /** The request at `i` completes a Confirm Active whose fragments begin at `start`. */
  ghost predicate ConfirmedBy(c: Codec, log: seq<Entry>, start: nat, i: nat, caps: Capabilities) {
    && SinceActivation(log) <= start <= i < |log|
    && log[i].Request? && Eligible(c, log[i].data) && log[i].data.complete
    && TryConfirm(c, Pieces(c, log[..i + 1], start)) == Ok(caps)
  }

  ghost predicate Confirmed(c: Codec, log: seq<Entry>, caps: Capabilities) {
    exists start, i :: ConfirmedBy(c, log, start, i, caps)
  }

  predicate IsFontList(c: Codec, e: Entry) {
    e.Request? && FinalizationPdu(c, e.data) == Some(FontListPdu)
  }

  /** The fragments so far. */
  ghost predicate Collecting(c: Codec, log: seq<Entry>, buffer: seq<byte>) {
    exists start :: SinceActivation(log) <= start <= |log| && buffer == Pieces(c, log, start)
  }

  ghost predicate History(c: Codec, a: Snapshot, log: seq<Entry>, initial: (u16, u16)) {
    && |a.confirmBuf| <= MAX_CONFIRM_ACTIVE_LEN
    && (!a.state.WaitConfirmActive? ==> a.confirmBuf == [])
    && (a.width, a.height) == LastSize(log, initial)
    && (Admitted(a.state) <==> Approved in log)
    && (a.state.WaitConfirmActive? ==> Collecting(c, log, a.confirmBuf))
    && (a.state.WaitFinalization? || a.state.Accepted? ==> Confirmed(c, log, a.caps))
  }

  /**
    An approval came first; since the last activation a complete Confirm Active arrived and then, last of all, a
    Font List; and the report carries the last size asked for and what that Confirm Active negotiated.
   */
  ghost predicate WellAccepted(c: Codec, log: seq<Entry>, connection: Connection, initial: (u16, u16)) {
    && log != []
    && IsFontList(c, log[|log| - 1])
    && var before := log[..|log| - 1];
       && Approved in before
       && Confirmed(c, before, connection.caps)
       && (connection.width, connection.height) == LastSize(before, initial)
  }

  lemma LogGrows(c: Codec, log: seq<Entry>, e: Entry, initial: (u16, u16))
    requires e.Request?
    ensures var log' := log + [e];
            && SinceActivation(log') == SinceActivation(log)
            && LastSize(log', initial) == LastSize(log, initial)
            && (Approved in log' <==> Approved in log)
  {
    assert (log + [e])[..|log|] == log;
  }

  lemma PiecesGrow(c: Codec, log: seq<Entry>, e: Entry, start: nat)
    requires start <= |log|
    ensures Pieces(c, log + [e], start) == Pieces(c, log, start) + Piece(c, e)
  {
    assert (log + [e])[..|log|] == log;
  }

  lemma ConfirmedGrows(c: Codec, log: seq<Entry>, e: Entry, caps: Capabilities)
    requires e.Request? && Confirmed(c, log, caps)
    ensures Confirmed(c, log + [e], caps)
  {
    var start, i :| ConfirmedBy(c, log, start, i, caps);
    LogGrows(c, log, e, (0, 0));
    assert (log + [e])[..i + 1] == log[..i + 1];
    assert ConfirmedBy(c, log + [e], start, i, caps);
  }

  lemma FragmentKeeps(c: Codec, a: Snapshot, log: seq<Entry>, sd: Mcs.SendData, initial: (u16, u16))
    requires a.state.WaitConfirmActive? && History(c, a, log, initial)
    ensures History(c, OnConfirmActive(c, a, sd).acc, log + [Request(sd)], initial)
  {
    hide Pieces, Eligible, TryConfirm;
    var e := Request(sd);
    var log' := log + [e];
    LogGrows(c, log, e, initial);
    var start :| SinceActivation(log) <= start <= |log| && a.confirmBuf == Pieces(c, log, start);
    PiecesGrow(c, log, e, start);
    var o := OnConfirmActive(c, a, sd);
    if !Eligible(c, sd) {
      assert Pieces(c, log', start) == a.confirmBuf + [] == a.confirmBuf;
    } else if o.result.Failed? {
      assert Pieces(c, log', |log'|) == [] by { EmptyPieces(c, log'); }
    } else if o.acc.state.WaitFinalization? {
      assert log'[..|log| + 1] == log';
      assert ConfirmedBy(c, log', start, |log|, o.acc.caps);
    }
  }

  lemma EmptyPieces(c: Codec, log: seq<Entry>)
    ensures Pieces(c, log, |log|) == []
  {
  }

  lemma FinalizationKeeps(c: Codec, a: Snapshot, granted: bool, log: seq<Entry>, sd: Mcs.SendData, initial: (u16, u16))
    requires a.state == WaitFinalization(granted) && History(c, a, log, initial)
    ensures var o := OnFinalization(c, a, granted, sd);
            && History(c, o.acc, log + [Request(sd)], initial)
            && (o.acc.state.Accepted? ==> o.result.Done? && o.result.value.ConnectionAccepted?
                                          && WellAccepted(c, log + [Request(sd)], o.result.value.connection, initial))
  {
    hide Confirmed, FinalizationPdu, Channels;
    LogGrows(c, log, Request(sd), initial);
    ConfirmedGrows(c, log, Request(sd), a.caps);
    assert (log + [Request(sd)])[..|log|] == log;
  }

  lemma RequestKeeps(c: Codec, a: Snapshot, log: seq<Entry>, sd: Mcs.SendData, initial: (u16, u16))
    requires Reactivating(a.state) && History(c, a, log, initial)
    ensures var o := OnSendData(c, a, sd);
            && History(c, o.acc, log + [Request(sd)], initial)
            && o.handled == [sd]
            && (o.result.Done? ==> Admitted(o.acc.state))
            && (o.result.Failed? ==> Reactivating(o.acc.state))
            && (o.acc.state.Accepted? ==> o.result.Done? && o.result.value.ConnectionAccepted?
                                          && WellAccepted(c, log + [Request(sd)], o.result.value.connection, initial))
  {
    hide History, WellAccepted, FinalizationPdu, Eligible, TryConfirm, Channels;
    if a.state.WaitConfirmActive? {
      FragmentKeeps(c, a, log, sd, initial);
    } else {
      FinalizationKeeps(c, a, a.state.granted, log, sd, initial);
    }
  }

  lemma RequestsAppend(log: seq<Entry>, sd: Mcs.SendData, more: seq<Mcs.SendData>)
    ensures log + Requests([sd] + more) == log + [Request(sd)] + Requests(more)
    ensures log + Requests([sd]) == log + [Request(sd)]
    ensures log + Requests([]) == log
  {
  }

  lemma {:induction false} LoopKeepsHistory(c: Codec, a: Snapshot, s: seq<byte>, log: seq<Entry>, initial: (u16, u16))
    requires Reactivating(a.state) && History(c, a, log, initial)
    ensures var o := ReactivationLoop(c, a, s);
            && History(c, o.acc, log + Requests(o.handled), initial)
            && (o.acc.state.Accepted? ==> o.result.Done? && o.result.value.ConnectionAccepted?
                                          && WellAccepted(c, log + Requests(o.handled), o.result.value.connection, initial))
    decreases |s|
  {
    hide Mcs.ReadSendData, History, WellAccepted, OnSendData, Requests;
    if s == [] || Mcs.ReadSendData(s, Mcs.SendDataRequest).Err? {
      RequestsAppend(log, Mcs.SendData(0, 0, [], true), []);
    } else {
      SendDataStable(s, []);
      var p := Mcs.ReadSendData(s, Mcs.SendDataRequest).value;
      var one := OnSendData(c, a, p.value);
      RequestKeeps(c, a, log, p.value, initial);
      if one.result.Done? && !one.acc.state.Accepted? {
        LoopKeepsHistory(c, one.acc, p.rest, log + [Request(p.value)], initial);
        RequestsAppend(log, p.value, ReactivationLoop(c, one.acc, p.rest).handled);
      } else {
        RequestsAppend(log, p.value, []);
      }
    }
  }

  // ------------------------------------------------------------------
  // What the server sends
  // ------------------------------------------------------------------

  /** The replies since the last Demand Active. */
  function SinceDemand(pdus: seq<ServerPdu>): seq<ServerPdu> {
    if pdus == [] then []
    else
      var last := pdus[|pdus| - 1];
      if last.DemandActive? then [] else SinceDemand(pdus[..|pdus| - 1]) + [last]
  }

  predicate FinalizationReply(p: ServerPdu) {
    p.Synchronize? || p.Cooperate? || p.GrantedControl? || p.FontMap? || p.SaveSessionInfo?
  }

  ghost predicate AllFinalization(pdus: seq<ServerPdu>) {
    forall i :: 0 <= i < |pdus| ==> FinalizationReply(pdus[i])
  }

  /** The order section 1.3.1.1 of MS-RDPBCGR prescribes, as far as the phase has come. */
  predicate InOrder(s: State, replies: seq<ServerPdu>) {
    match s
    case WaitConfirmActive => replies == []
    case WaitFinalization(false) => replies == [Synchronize, Cooperate]
    case WaitFinalization(true) => replies == [Synchronize, Cooperate, GrantedControl]
    case Accepted =>
      || replies == [Synchronize, Cooperate, FontMap, SaveSessionInfo]
      || replies == [Synchronize, Cooperate, GrantedControl, FontMap, SaveSessionInfo]
    case _ => true
  }

  lemma {:induction false} SinceDemandGrows(pdus: seq<ServerPdu>, more: seq<ServerPdu>)
    requires AllFinalization(more)
    ensures SinceDemand(pdus + more) == SinceDemand(pdus) + more
    decreases |more|
  {
    if more == [] {
      assert pdus + more == pdus;
    } else {
      var init, last := more[..|more| - 1], more[|more| - 1];
      SinceDemandGrows(pdus, init);
      assert (pdus + more)[..|pdus + more| - 1] == pdus + init;
      assert init + [last] == more;
    }
  }

  lemma RequestReplies(c: Codec, a: Snapshot, sd: Mcs.SendData, replies: seq<ServerPdu>)
    requires Reactivating(a.state) && InOrder(a.state, replies)
    ensures var o := OnSendData(c, a, sd);
            && InOrder(o.acc.state, replies + o.built) && AllFinalization(o.built)
            && o.acc == a.(state := o.acc.state, confirmBuf := o.acc.confirmBuf, caps := o.acc.caps)
            && Admitted(o.acc.state)
            && (o.acc.state.Accepted? ==> o.result == Done(ConnectionAccepted(ConnectionOf(o.acc))))
  {
    hide FinalizationPdu, Eligible, TryConfirm, Channels;
    assert replies + [] == replies;
  }

  lemma {:induction false} LoopReplies(c: Codec, a: Snapshot, s: seq<byte>, replies: seq<ServerPdu>)
    requires Reactivating(a.state) && InOrder(a.state, replies)
    ensures var o := ReactivationLoop(c, a, s);
            && InOrder(o.acc.state, replies + o.built) && AllFinalization(o.built)
            && o.acc == a.(state := o.acc.state, confirmBuf := o.acc.confirmBuf, caps := o.acc.caps)
            && (o.acc.state.Accepted? ==> o.result == Done(ConnectionAccepted(ConnectionOf(o.acc))))
    decreases |s|
  {
    hide Mcs.ReadSendData, InOrder, OnSendData, ConnectionOf;
    assert replies + [] == replies;
    if s != [] && Mcs.ReadSendData(s, Mcs.SendDataRequest).Ok? {
      SendDataStable(s, []);
      var p := Mcs.ReadSendData(s, Mcs.SendDataRequest).value;
      var one := OnSendData(c, a, p.value);
      RequestReplies(c, a, p.value, replies);
      if one.result.Done? && !one.acc.state.Accepted? {
        LoopReplies(c, one.acc, p.rest, replies + one.built);
        var rest := ReactivationLoop(c, one.acc, p.rest);
        assert replies + one.built + rest.built == replies + (one.built + rest.built);
      }
    }
  }

  function Joins(pdus: seq<ServerPdu>): nat {
    if pdus == [] then 0 else Joins(pdus[..|pdus| - 1]) + if pdus[|pdus| - 1].ChannelJoinConfirm? then 1 else 0
  }

  function Offers(pdus: seq<ServerPdu>): seq<ServerPdu> {
    if pdus == [] then []
    else Offers(pdus[..|pdus| - 1]) + if pdus[|pdus| - 1].ConnectResponse? then [pdus[|pdus| - 1]] else []
  }

  lemma {:induction false} CountsAppend(x: seq<ServerPdu>, y: seq<ServerPdu>)
    ensures Joins(x + y) == Joins(x) + Joins(y)
    ensures Offers(x + y) == Offers(x) + Offers(y)
    decreases |y|
  {
    if y == [] {
      assert x + y == x;
    } else {
      CountsAppend(x, y[..|y| - 1]);
      assert (x + y)[..|x + y| - 1] == x + y[..|y| - 1];
    }
  }

  lemma {:induction false} NoCounts(y: seq<ServerPdu>)
    requires forall i :: 0 <= i < |y| ==> !y[i].ChannelJoinConfirm? && !y[i].ConnectResponse?
    ensures Joins(y) == 0 && Offers(y) == []
    decreases |y|
  {
    if y != [] {
      NoCounts(y[..|y| - 1]);
    }
  }

  lemma OneCount(p: ServerPdu)
    ensures Joins([p]) == if p.ChannelJoinConfirm? then 1 else 0
    ensures Offers([p]) == if p.ConnectResponse? then [p] else []
  {
    assert [p][..0] == [];
  }

  /** Confirms sent and joins still awaited make up the channels there are. */
  ghost predicate JoinsDue(a: Snapshot, sent: nat) {
    match a.state
    case WaitConnectionRequest => sent == 0
    case WaitConnectInitial => sent == 0
    case WaitErectDomain => sent == 0
    case WaitAttachUser => sent == 0
    case WaitChannelJoin(remaining) => remaining >= 1 && sent + remaining == JoinTotal(a)
    case Rejected => true
    case _ => sent == JoinTotal(a)
  }

  lemma DomainCounts(a: Snapshot, s: seq<byte>, sent: nat)
    requires InDomain(a.state) && JoinsDue(a, sent) && HandleDomain(a, s).Ok?
    ensures var m := HandleDomain(a, s).value.value;
            JoinsDue(m.acc, sent + Joins(m.replies)) && Offers(m.replies) == [] && m.acc == a.(state := m.acc.state)
  {
    hide ReadErectDomain, ReadAttachUser, ReadChannelJoin;
    var m := HandleDomain(a, s).value.value;
    if m.replies != [] {
      OneCount(m.replies[0]);
    }
  }

  lemma {:induction false} DomainJoins(a: Snapshot, s: seq<byte>, sent: nat)
    requires InDomain(a.state) && JoinsDue(a, sent)
    ensures var o := DomainLoop(a, s);
            Offers(o.built) == [] && (o.result.Done? ==> JoinsDue(o.acc, sent + Joins(o.built)))
    decreases |s|
  {
    hide HandleDomain, JoinsDue;
    if s != [] && s[0] / 4 != Mcs.Code(Mcs.DisconnectProviderUltimatum) && HandleDomain(a, s).Ok? {
      DomainStable(a, s, []);
      DomainCounts(a, s, sent);
      var p := HandleDomain(a, s).value;
      if InDomain(p.value.acc.state) {
        DomainJoins(p.value.acc, p.rest, sent + Joins(p.value.replies));
        CountsAppend(p.value.replies, DomainLoop(p.value.acc, p.rest).built);
      }
    }
  }

  // ------------------------------------------------------------------
  // Every reachable state
  // ------------------------------------------------------------------

  ghost predicate Answered(w: World) {
    && InOrder(w.acc.state, SinceDemand(w.built))
    && |SinceDemand(w.sent)| + w.lost == |SinceDemand(w.built)|
    && (w.lost == 0 ==> SinceDemand(w.sent) == SinceDemand(w.built))
  }

  predicate Offered(s: State) {
    !s.WaitConnectionRequest? && !s.WaitConnectInitial? && !s.Rejected?
  }

  function MessageId(a: Snapshot): Option<u16> {
    if a.messageChannel.Some? then Some(StaticId(|a.names|)) else None
  }

  function OfferOf(a: Snapshot): ServerPdu {
    ConnectResponse(a.requested, IO_CHANNEL_ID, StaticIds(|a.names|), MessageId(a))
  }

  ghost predicate Offering(w: World) {
    && (w.acc.state.WaitConnectionRequest? || w.acc.state.WaitConnectInitial? ==> Offers(w.sent) == [])
    && (Offered(w.acc.state) ==> w.acc.messageChannel == MessageId(w.acc) && Offers(w.sent) == [OfferOf(w.acc)])
  }

  ghost predicate Reported(c: Codec, w: World, initial: (u16, u16)) {
    && (w.acceptances != [] ==> Admitted(w.acc.state))
    && forall k :: 0 <= k < |w.acceptances| ==> ReportOk(c, w, w.acceptances[k], initial)
  }

  ghost predicate ReportOk(c: Codec, w: World, r: Acceptance, initial: (u16, u16)) {
    && r.at <= |w.log|
    && WellAccepted(c, w.log[..r.at], r.connection, initial)
    && r.connection.io == IO_CHANNEL_ID && r.connection.user == USER_CHANNEL_ID
    && r.connection.channels == Channels(w.acc.names)
  }

  ghost predicate Inv(c: Codec, w: World, initial: (u16, u16)) {
    && History(c, w.acc, w.log, initial)
    && (Admitted(w.acc.state) ==> Answered(w))
    && JoinsDue(w.acc, Joins(w.sent))
    && Offering(w)
    && Reported(c, w, initial)
  }

  /** A call that handles no request and reports no connection. */
  lemma QuietStep(w: World, o: Stepped)
    requires o.handled == [] && (o.result.Done? ==> !o.result.value.ConnectionAccepted?)
    ensures var w' := AfterStep(w, o);
            && w'.log == w.log && w'.acceptances == w.acceptances && w'.acc == o.acc
            && w'.sent == w.sent + (if o.result.Done? then o.built else [])
  {
    assert w.log + Requests([]) == w.log;
    assert w.acceptances + [] == w.acceptances;
  }

  lemma ReportsCarry(c: Codec, w: World, w': World, initial: (u16, u16))
    requires Reported(c, w, initial)
    requires w'.acceptances == w.acceptances && w'.acc.names == w.acc.names
    requires w.acceptances == [] || (w.log <= w'.log && Admitted(w'.acc.state))
    ensures Reported(c, w', initial)
  {
    hide WellAccepted, Channels;
    forall k | 0 <= k < |w'.acceptances| ensures ReportOk(c, w', w'.acceptances[k], initial) {
      var r := w.acceptances[k];
      assert ReportOk(c, w, r, initial);
      assert w'.log[..r.at] == w.log[..r.at];
    }
  }

  /** Before any approval there is nothing in the log that a step could change. */
  lemma HandshakeHistory(c: Codec, a: Snapshot, a': Snapshot, log: seq<Entry>, initial: (u16, u16))
    requires History(c, a, log, initial) && !Admitted(a.state) && !Admitted(a'.state)
    requires a'.confirmBuf == a.confirmBuf && a'.width == a.width && a'.height == a.height
    ensures History(c, a', log, initial)
  {
    hide LastSize;
  }

  /** The phases that take one packet of their own. */
  predicate Opening(s: State) {
    s.WaitConnectionRequest? || s.WaitConnectInitial? || s.WaitClientInfo? || s.WaitAuthApproval?
  }

  /** What one of their packets may do. */
  ghost predicate OpeningStep(a: Snapshot, o: Stepped) {
    && o.handled == []
    && match o.result
       case Failed(_) => o.acc == a && o.built == []
       case Done(event) =>
         && !event.ConnectionAccepted? && !a.state.WaitAuthApproval?
         && o.acc.confirmBuf == a.confirmBuf && o.acc.width == a.width && o.acc.height == a.height
         && |o.built| == 1 && !o.built[0].ChannelJoinConfirm?
         && (a.state.WaitConnectionRequest? ==> !o.built[0].ConnectResponse? && (o.acc.state.WaitConnectInitial? || o.acc.state.Rejected?))
         && (a.state.WaitConnectInitial? ==>
               o.acc.state.WaitErectDomain? && o.built[0] == OfferOf(o.acc) && o.acc.messageChannel == MessageId(o.acc))
         && (a.state.WaitClientInfo? ==> !o.built[0].ConnectResponse? && o.acc == a.(state := WaitAuthApproval))
  }

  lemma OpeningSteps(c: Codec, a: Snapshot, input: seq<byte>)
    requires Opening(a.state)
    ensures OpeningStep(a, Step(c, a, input))
  {
    hide X224.UnwrapData, Mcs.ReadSendData, StaticIds;
  }

  lemma OpeningOffers(w: World, o: Stepped, w': World)
    requires w'.acc == o.acc && w'.sent == w.sent + (if o.result.Done? then o.built else [])
    requires Opening(w.acc.state) && OpeningStep(w.acc, o)
    requires Offering(w) && JoinsDue(w.acc, Joins(w.sent))
    ensures Offering(w') && JoinsDue(w'.acc, Joins(w'.sent))
  {
    hide StaticIds, Joins, Offers;
    if o.result.Done? {
      CountsAppend(w.sent, o.built);
      OneCount(o.built[0]);
      assert o.built == [o.built[0]];
    } else {
      assert w'.sent == w.sent;
    }
  }

  lemma OpeningStepKeeps(c: Codec, w: World, input: seq<byte>, initial: (u16, u16))
    requires Inv(c, w, initial) && Opening(w.acc.state)
    ensures Inv(c, AfterStep(w, Step(c, w.acc, input)), initial)
  {
    hide Step, History, Reported, Offering, JoinsDue, AfterStep, Answered, OfferOf, MessageId;
    var o := Step(c, w.acc, input);
    OpeningSteps(c, w.acc, input);
    QuietStep(w, o);
    var w' := AfterStep(w, o);
    HandshakeHistory(c, w.acc, o.acc, w.log, initial);
    NotYetReported(c, w, w', initial);
    OpeningOffers(w, o, w');
  }

  lemma NotYetReported(c: Codec, w: World, w': World, initial: (u16, u16))
    requires Reported(c, w, initial) && !Admitted(w.acc.state) && w'.acceptances == w.acceptances
    ensures Reported(c, w', initial)
  {
  }

  lemma DomainStepKeeps(c: Codec, w: World, input: seq<byte>, initial: (u16, u16))
    requires Inv(c, w, initial) && InDomain(w.acc.state)
    ensures Inv(c, AfterStep(w, Step(c, w.acc, input)), initial)
  {
    hide X224.UnwrapData, DomainLoop, History, Reported, OfferOf, AfterStep, Answered, JoinsDue;
    var o := Step(c, w.acc, input);
    if X224.UnwrapData(input).Ok? {
      var payload := X224.UnwrapData(input).value;
      DomainPhases(w.acc, payload);
      DomainJoins(w.acc, payload, Joins(w.sent));
      assert o == DomainLoop(w.acc, payload);
    }
    QuietStep(w, o);
    var w' := AfterStep(w, o);
    HandshakeHistory(c, w.acc, o.acc, w.log, initial);
    NotYetReported(c, w, w', initial);
    DomainOffers(w, o, w');
  }

  lemma DomainOffers(w: World, o: Stepped, w': World)
    requires w'.acc == o.acc && w'.sent == w.sent + (if o.result.Done? then o.built else [])
    requires Offering(w) && InDomain(w.acc.state) && JoinsDue(w.acc, Joins(w.sent))
    requires o.acc == w.acc.(state := o.acc.state)
    requires o.result.Done? ==> Offers(o.built) == [] && Offered(o.acc.state) && JoinsDue(o.acc, Joins(w.sent) + Joins(o.built))
    requires o.result.Failed? ==> o.acc == w.acc || o.acc.state.Rejected?
    ensures Offering(w') && JoinsDue(w'.acc, Joins(w'.sent))
  {
    hide JoinsDue;
    if o.result.Done? {
      CountsAppend(w.sent, o.built);
    } else {
      assert w'.sent == w.sent;
    }
    assert o.acc.state.Rejected? ==> JoinsDue(o.acc, Joins(w'.sent)) by { RejectedJoins(o.acc, Joins(w'.sent)); }
  }

  lemma RejectedJoins(a: Snapshot, sent: nat)
    ensures a.state.Rejected? ==> JoinsDue(a, sent)
  {
  }

  lemma ReplyCounts(replies: seq<ServerPdu>)
    requires AllFinalization(replies)
    ensures Joins(replies) == 0 && Offers(replies) == []
  {
    forall i | 0 <= i < |replies| ensures !replies[i].ChannelJoinConfirm? && !replies[i].ConnectResponse? {
      assert FinalizationReply(replies[i]);
    }
    NoCounts(replies);
  }

  lemma StillAnswered(w: World, o: Stepped)
    requires Answered(w) && AllFinalization(o.built) && InOrder(o.acc.state, SinceDemand(w.built) + o.built)
    ensures Answered(AfterStep(w, o))
  {
    hide InOrder, SinceDemand, Requests;
    SinceDemandGrows(w.built, o.built);
    if o.result.Done? {
      SinceDemandGrows(w.sent, o.built);
    } else {
      assert w.sent + [] == w.sent;
    }
  }

  lemma StillOffered(w: World, w': World, replies: seq<ServerPdu>)
    requires w'.sent == w.sent + replies && AllFinalization(replies)
    requires w'.acc.names == w.acc.names && w'.acc.messageChannel == w.acc.messageChannel && w'.acc.requested == w.acc.requested
    requires Admitted(w.acc.state) && Admitted(w'.acc.state)
    requires Offering(w) && JoinsDue(w.acc, Joins(w.sent))
    ensures Offering(w') && JoinsDue(w'.acc, Joins(w'.sent))
  {
    hide StaticIds, Joins, Offers;
    CountsAppend(w.sent, replies);
    ReplyCounts(replies);
  }

  lemma ReportsGrow(c: Codec, w: World, o: Stepped, initial: (u16, u16))
    requires Reported(c, w, initial) && Admitted(o.acc.state) && o.acc.names == w.acc.names
    requires o.result.Done? && o.result.value.ConnectionAccepted? ==>
               && o.result.value.connection == ConnectionOf(o.acc)
               && WellAccepted(c, w.log + Requests(o.handled), o.result.value.connection, initial)
    ensures Reported(c, AfterStep(w, o), initial)
  {
    hide WellAccepted, Channels, Requests;
    var w' := AfterStep(w, o);
    ReportsCarry(c, w, w'.(acceptances := w.acceptances), initial);
    forall k | 0 <= k < |w'.acceptances| ensures ReportOk(c, w', w'.acceptances[k], initial) {
      if k < |w.acceptances| {
        assert ReportOk(c, w'.(acceptances := w.acceptances), w.acceptances[k], initial);
      } else {
        assert w'.log[..|w'.log|] == w'.log;
      }
    }
  }

  lemma ReactivationStepKeeps(c: Codec, w: World, input: seq<byte>, initial: (u16, u16))
    requires Inv(c, w, initial) && Reactivating(w.acc.state)
    ensures Inv(c, AfterStep(w, Step(c, w.acc, input)), initial)
  {
    hide X224.UnwrapData, ReactivationLoop, History, Reported, Offering, JoinsDue, Answered, WellAccepted, ConnectionOf, Requests;
    var o := Step(c, w.acc, input);
    var w' := AfterStep(w, o);
    if X224.UnwrapData(input).Err? {
      QuietStep(w, o);
      StuckStep(c, w, o, initial);
    } else {
      var payload := X224.UnwrapData(input).value;
      assert o == ReactivationLoop(c, w.acc, payload);
      assert InOrder(w.acc.state, SinceDemand(w.built)) by { AnsweredOrder(w); }
      LoopReplies(c, w.acc, payload, SinceDemand(w.built));
      LoopKeepsHistory(c, w.acc, payload, w.log, initial);
      ReactivationPhases(c, w.acc, payload);
      StillAnswered(w, o);
      NoReplies();
      StillOffered(w, w', if o.result.Done? then o.built else []);
      ReportsGrow(c, w, o, initial);
    }
  }

  lemma NoReplies()
    ensures AllFinalization([])
  {
  }

  lemma AnsweredOrder(w: World)
    requires Answered(w)
    ensures InOrder(w.acc.state, SinceDemand(w.built))
  {
  }

  /** A refused call changes nothing. */
  lemma StuckStep(c: Codec, w: World, o: Stepped, initial: (u16, u16))
    requires Inv(c, w, initial) && o.acc == w.acc && o.built == [] && o.handled == [] && o.result.Failed?
    ensures AfterStep(w, o) == w
  {
    assert w.log + Requests([]) == w.log && w.sent + [] == w.sent && w.built + [] == w.built;
    assert w.acceptances + [] == w.acceptances;
  }

  lemma {:induction false} FreshDemand(pdus: seq<ServerPdu>, more: seq<ServerPdu>, width: u16, height: u16)
    ensures SinceDemand(pdus + (more + [DemandActive(width, height)])) == []
  {
    var all := pdus + (more + [DemandActive(width, height)]);
    assert all[|all| - 1] == DemandActive(width, height);
  }

  lemma LogActivates(c: Codec, log: seq<Entry>, e: Entry, initial: (u16, u16))
    requires Activation(e)
    ensures var log' := log + [e];
            && SinceActivation(log') == |log'|
            && LastSize(log', initial) == (if e.Resized? then (e.width, e.height) else LastSize(log, initial))
            && (Approved in log' <==> Approved in log || e.Approved?)
            && Collecting(c, log', [])
  {
    var log' := log + [e];
    assert log'[..|log|] == log;
    EmptyPieces(c, log');
    assert Pieces(c, log', |log'|) == [];
  }

  lemma ApproveKeeps(c: Codec, w: World, initial: (u16, u16))
    requires Inv(c, w, initial) && w.acc.state.WaitAuthApproval?
    ensures Inv(c, Act(c, w, ApproveCall), initial)
  {
    hide SinceDemand, LastSize, StaticIds, Joins, Offers, Collecting, Confirmed, Reported, SinceActivation;
    var demand := DemandActive(w.acc.width, w.acc.height);
    LogActivates(c, w.log, Approved, initial);
    FreshDemand(w.sent, [], w.acc.width, w.acc.height);
    FreshDemand(w.built, [], w.acc.width, w.acc.height);
    assert [] + [demand] == [demand];
    CountsAppend(w.sent, [demand]);
    OneCount(demand);
    ReportsCarry(c, w, Act(c, w, ApproveCall), initial) by {
      assert w.acceptances == [] by { Unreported(c, w, initial); }
    }
  }

  lemma Unreported(c: Codec, w: World, initial: (u16, u16))
    requires Reported(c, w, initial) && !Admitted(w.acc.state)
    ensures w.acceptances == []
  {
  }

  lemma ResizeKeeps(c: Codec, w: World, width: u16, height: u16, initial: (u16, u16))
    requires Inv(c, w, initial) && w.acc.state.Accepted?
    ensures Inv(c, Act(c, w, ResizeCall(width, height)), initial)
  {
    hide SinceDemand, LastSize, StaticIds, Joins, Offers, Collecting, Confirmed, Reported, SinceActivation;
    var demand := DemandActive(width, height);
    LogActivates(c, w.log, Resized(width, height), initial);
    FreshDemand(w.sent, [DeactivateAll], width, height);
    FreshDemand(w.built, [DeactivateAll], width, height);
    assert [DeactivateAll] + [demand] == [DeactivateAll, demand];
    CountsAppend(w.sent, [DeactivateAll, demand]);
    NoCounts([DeactivateAll, demand]);
    ReportsCarry(c, w, Act(c, w, ResizeCall(width, height)), initial);
  }

  lemma ActKeeps(c: Codec, w: World, call: Call, initial: (u16, u16))
    requires Inv(c, w, initial)
    ensures Inv(c, Act(c, w, call), initial)
  {
    match call
    case StepCall(input) =>
      hide Inv, AfterStep;
      if InDomain(w.acc.state) {
        DomainStepKeeps(c, w, input, initial);
      } else if Reactivating(w.acc.state) {
        ReactivationStepKeeps(c, w, input, initial);
      } else if Finished(w.acc.state) {
        StuckStep(c, w, Step(c, w.acc, input), initial);
      } else {
        OpeningStepKeeps(c, w, input, initial);
      }
    case ApproveCall =>
      hide Inv;
      if w.acc.state.WaitAuthApproval? {
        ApproveKeeps(c, w, initial);
      }
    case RejectCall =>
      RejectKeeps(c, w, initial);
    case ResizeCall(width, height) =>
      hide Inv;
      if w.acc.state.Accepted? {
        ResizeKeeps(c, w, width, height, initial);
      }
  }

  lemma RejectKeeps(c: Codec, w: World, initial: (u16, u16))
    requires Inv(c, w, initial)
    ensures Inv(c, w.(acc := Reject(w.acc)), initial)
  {
    hide History, Reported, Joins, Offers;
    if w.acc.state.WaitAuthApproval? {
      HandshakeHistory(c, w.acc, Reject(w.acc), w.log, initial);
      NotYetReported(c, w, w.(acc := Reject(w.acc)), initial);
    }
  }

  lemma StartHolds(c: Codec, width: u16, height: u16, requireNla: bool)
    ensures Inv(c, Start(width, height, requireNla), (width, height))
  {
  }

  /** Every state that any calls on any bytes lead to. */
  lemma {:induction false} RunKeeps(c: Codec, width: u16, height: u16, requireNla: bool, calls: seq<Call>)
    ensures Inv(c, Run(c, Start(width, height, requireNla), calls), (width, height))
    decreases |calls|
  {
    hide Inv, Act;
    var start := Start(width, height, requireNla);
    if calls == [] {
      StartHolds(c, width, height, requireNla);
    } else {
      RunKeeps(c, width, height, requireNla, calls[..|calls| - 1]);
      ActKeeps(c, Run(c, start, calls[..|calls| - 1]), calls[|calls| - 1], (width, height));
    }
  }

  // ------------------------------------------------------------------
  // What that means for a connection
  // ------------------------------------------------------------------

  /** The reported channels carry the ids that were offered, in order. */
  ghost predicate SameChannels(offer: ServerPdu, connection: Connection) {
    && offer.ConnectResponse? && offer.io == connection.io
    && |offer.channels| == |connection.channels|
    && forall i :: 0 <= i < |offer.channels| ==> connection.channels[i].1 == offer.channels[i]
  }

  /** Every connection ever reported was earned, and names the channels the client had been offered, once. */
  lemma EveryAcceptanceIsEarned(c: Codec, width: u16, height: u16, requireNla: bool, calls: seq<Call>, r: Acceptance)
    requires r in Run(c, Start(width, height, requireNla), calls).acceptances
    ensures var w := Run(c, Start(width, height, requireNla), calls);
            && r.at <= |w.log| && WellAccepted(c, w.log[..r.at], r.connection, (width, height))
            && exists offer :: Offers(w.sent) == [offer] && SameChannels(offer, r.connection)
  {
    hide Run, WellAccepted, History, Answered, JoinsDue, Offers;
    RunKeeps(c, width, height, requireNla, calls);
    var w := Run(c, Start(width, height, requireNla), calls);
    assert ReportOk(c, w, r, (width, height));
    assert Offers(w.sent) == [OfferOf(w.acc)] && SameChannels(OfferOf(w.acc), r.connection);
  }

  /** The Confirm Active buffer is bounded, and empty outside its phase. */
  lemma ConfirmBufferBounded(c: Codec, width: u16, height: u16, requireNla: bool, calls: seq<Call>)
    ensures var a := Run(c, Start(width, height, requireNla), calls).acc;
            |a.confirmBuf| <= 1024 * 1024 && (!a.state.WaitConfirmActive? ==> a.confirmBuf == [])
  {
    hide Run, Answered, JoinsDue, Offering, Reported, LastSize, Collecting, Confirmed;
    RunKeeps(c, width, height, requireNla, calls);
  }

  /** By client-info every channel has been confirmed exactly once, however the joins were batched. */
  lemma JoinsConfirmed(c: Codec, width: u16, height: u16, requireNla: bool, calls: seq<Call>)
    ensures var w := Run(c, Start(width, height, requireNla), calls);
            w.acc.state.WaitClientInfo? || w.acc.state.WaitAuthApproval? || Admitted(w.acc.state) ==>
              Joins(w.sent) == 2 + |w.acc.names| + if w.acc.messageChannel.Some? then 1 else 0
  {
    hide Run, Answered, Offering, Reported, History;
    RunKeeps(c, width, height, requireNla, calls);
  }

  /** The replies since the last Demand Active have all gone out, in order, exactly when no failed call discarded one. */
  lemma RepliesSentIff(c: Codec, width: u16, height: u16, requireNla: bool, calls: seq<Call>)
    ensures var w := Run(c, Start(width, height, requireNla), calls);
            Admitted(w.acc.state) ==>
              && InOrder(w.acc.state, SinceDemand(w.built))
              && (SinceDemand(w.sent) == SinceDemand(w.built) <==> w.lost == 0)
  {
    hide Run, JoinsDue, Offering, Reported, History, InOrder, SinceDemand;
    RunKeeps(c, width, height, requireNla, calls);
  }

  /** Every channel of the connection: user, I/O, static, and the message channel if there is one. */
  function ChannelIds(a: Snapshot): seq<u16> {
    [USER_CHANNEL_ID, IO_CHANNEL_ID] + StaticIds(|a.names|) + if a.messageChannel.Some? then [a.messageChannel.value] else []
  }

  lemma IdsIncrease(a: Snapshot)
    requires a.messageChannel == MessageId(a)
    ensures |ChannelIds(a)| == JoinTotal(a) && forall i, j :: 0 <= i < j < |ChannelIds(a)| ==> ChannelIds(a)[i] < ChannelIds(a)[j]
  {
  }

  /** From the channels' offer on, in every reachable state, no two channels have the same id. */
  lemma ChannelIdsDistinct(c: Codec, width: u16, height: u16, requireNla: bool, calls: seq<Call>)
    ensures var a := Run(c, Start(width, height, requireNla), calls).acc;
            Offered(a.state) ==>
              |ChannelIds(a)| == JoinTotal(a) && forall i, j :: 0 <= i < j < |ChannelIds(a)| ==> ChannelIds(a)[i] != ChannelIds(a)[j]
  {
    hide Run, History, Answered, JoinsDue, Reported, Offers, OfferOf, MessageId, ChannelIds;
    RunKeeps(c, width, height, requireNla, calls);
    var a := Run(c, Start(width, height, requireNla), calls).acc;
    if Offered(a.state) {
      IdsIncrease(a);
    }
  }

  // ------------------------------------------------------------------
  // Negotiation and the order of the opening
  // ------------------------------------------------------------------

  function NonJoins(pdus: seq<ServerPdu>): seq<ServerPdu> {
    if pdus == [] then []
    else NonJoins(pdus[..|pdus| - 1]) + if pdus[|pdus| - 1].ChannelJoinConfirm? then [] else [pdus[|pdus| - 1]]
  }

  lemma {:induction false} NonJoinsAppend(x: seq<ServerPdu>, y: seq<ServerPdu>)
    ensures NonJoins(x + y) == NonJoins(x) + NonJoins(y)
    decreases |y|
  {
    if y == [] {
      assert x + y == x;
    } else {
      NonJoinsAppend(x, y[..|y| - 1]);
      assert (x + y)[..|x + y| - 1] == x + y[..|y| - 1];
    }
  }

  lemma NonJoinsOne(p: ServerPdu)
    ensures NonJoins([p]) == if p.ChannelJoinConfirm? then [] else [p]
  {
    assert [p][..0] == [];
  }

  /** NLA where the client offers it, and never anything less where it is required. */
  predicate WellSelected(a: Snapshot) {
    && (a.selected.Hybrid? <==> a.requested / 2 % 2 == 1)
    && (a.selected.Ssl? ==> !a.requireNla && a.requested % 2 == 1)
  }

  /** What the server has said, joins aside, by the time of each phase up to the approval. */
  function Greeting(a: Snapshot): seq<ServerPdu> {
    match a.state
    case WaitConnectionRequest => []
    case Rejected => []
    case WaitConnectInitial => [ConnectionConfirm(a.selected)]
    case WaitErectDomain => [ConnectionConfirm(a.selected), OfferOf(a)]
    case WaitAttachUser => [ConnectionConfirm(a.selected), OfferOf(a)]
    case WaitChannelJoin(_) => [ConnectionConfirm(a.selected), OfferOf(a), AttachUserConfirm(USER_CHANNEL_ID)]
    case WaitClientInfo => [ConnectionConfirm(a.selected), OfferOf(a), AttachUserConfirm(USER_CHANNEL_ID)]
    case _ => [ConnectionConfirm(a.selected), OfferOf(a), AttachUserConfirm(USER_CHANNEL_ID), License]
  }

  ghost predicate Greeted(a: Snapshot, said: seq<ServerPdu>) {
    a.state.Rejected? ||
    (&& (!a.state.WaitConnectionRequest? ==> WellSelected(a))
     && if Admitted(a.state) then Greeting(a) <= said else said == Greeting(a))
  }

  lemma OpeningGreets(c: Codec, a: Snapshot, input: seq<byte>, said: seq<ServerPdu>)
    requires Opening(a.state) && Greeted(a, said)
    ensures var o := Step(c, a, input);
            Greeted(o.acc, said + if o.result.Done? then NonJoins(o.built) else [])
  {
    hide X224.UnwrapData, Mcs.ReadSendData, StaticIds, NonJoins;
    OpeningSteps(c, a, input);
    var o := Step(c, a, input);
    if o.result.Done? {
      assert o.built == [o.built[0]];
      NonJoinsOne(o.built[0]);
    } else {
      assert said + [] == said;
    }
  }

  lemma DomainPduGreets(a: Snapshot, s: seq<byte>, said: seq<ServerPdu>)
    requires InDomain(a.state) && Greeted(a, said) && HandleDomain(a, s).Ok?
    ensures var m := HandleDomain(a, s).value.value;
            Greeted(m.acc, said + NonJoins(m.replies))
  {
    hide ReadErectDomain, ReadAttachUser, ReadChannelJoin, StaticIds, NonJoins;
    var m := HandleDomain(a, s).value.value;
    if m.replies != [] {
      NonJoinsOne(m.replies[0]);
      assert m.replies == [m.replies[0]];
    } else {
      NoNonJoins();
    }
    assert said + [] == said;
  }

  lemma NoNonJoins()
    ensures NonJoins([]) == []
  {
  }

  lemma {:induction false} DomainGreets(a: Snapshot, s: seq<byte>, said: seq<ServerPdu>)
    requires InDomain(a.state) && Greeted(a, said)
    ensures var o := DomainLoop(a, s);
            o.result.Done? ==> Greeted(o.acc, said + NonJoins(o.built))
    decreases |s|
  {
    hide HandleDomain, Greeted, NonJoins;
    NoNonJoins();
    assert said + [] == said;
    if s != [] && s[0] / 4 != Mcs.Code(Mcs.DisconnectProviderUltimatum) && HandleDomain(a, s).Ok? {
      DomainStable(a, s, []);
      DomainPduGreets(a, s, said);
      var p := HandleDomain(a, s).value;
      if InDomain(p.value.acc.state) {
        var rest := DomainLoop(p.value.acc, p.rest);
        DomainGreets(p.value.acc, p.rest, said + NonJoins(p.value.replies));
        NonJoinsAppend(p.value.replies, rest.built);
        assert said + NonJoins(p.value.replies) + NonJoins(rest.built) == said + (NonJoins(p.value.replies) + NonJoins(rest.built));
      }
    }
  }

  lemma StaysGreeted(a: Snapshot, a': Snapshot, said: seq<ServerPdu>, more: seq<ServerPdu>)
    requires Admitted(a.state) && Admitted(a'.state) && Greeted(a, said)
    requires a'.names == a.names && a'.messageChannel == a.messageChannel && a'.requested == a.requested
    requires a'.selected == a.selected && a'.requireNla == a.requireNla
    ensures Greeted(a', said + more)
  {
    hide StaticIds;
    assert OfferOf(a') == OfferOf(a);
    assert said <= said + more;
  }

  lemma StepGreets(c: Codec, w: World, input: seq<byte>, initial: (u16, u16))
    requires Inv(c, w, initial) && Greeted(w.acc, NonJoins(w.sent))
    ensures var w' := AfterStep(w, Step(c, w.acc, input)); Greeted(w'.acc, NonJoins(w'.sent))
  {
    hide DomainLoop, ReactivationLoop, X224.UnwrapData, Greeted, NonJoins, History, Offering, JoinsDue, Reported, Requests;
    var o := Step(c, w.acc, input);
    var said := NonJoins(w.sent);
    NonJoinsAppend(w.sent, if o.result.Done? then o.built else []);
    NoNonJoins();
    assert said + [] == said;
    if InDomain(w.acc.state) {
      if X224.UnwrapData(input).Ok? {
        var payload := X224.UnwrapData(input).value;
        DomainPhases(w.acc, payload);
        DomainGreets(w.acc, payload, said);
        RejectedGreeted(o.acc, said);
      }
    } else if Reactivating(w.acc.state) {
      if X224.UnwrapData(input).Ok? {
        var payload := X224.UnwrapData(input).value;
        AnsweredOrder(w);
        LoopReplies(c, w.acc, payload, SinceDemand(w.built));
        ReactivationPhases(c, w.acc, payload);
        StaysGreeted(w.acc, o.acc, said, NonJoins(if o.result.Done? then o.built else []));
      }
    } else if !Finished(w.acc.state) {
      OpeningGreets(c, w.acc, input, said);
    }
  }

  lemma RejectedGreeted(a: Snapshot, said: seq<ServerPdu>)
    ensures a.state.Rejected? ==> Greeted(a, said)
  {
  }

  lemma ActGreets(c: Codec, w: World, call: Call, initial: (u16, u16))
    requires Inv(c, w, initial) && Greeted(w.acc, NonJoins(w.sent))
    ensures var w' := Act(c, w, call); Greeted(w'.acc, NonJoins(w'.sent))
  {
    hide Inv, NonJoins, StaticIds;
    match call
    case StepCall(input) => StepGreets(c, w, input, initial);
    case ApproveCall =>
      if w.acc.state.WaitAuthApproval? {
        NonJoinsAppend(w.sent, [DemandActive(w.acc.width, w.acc.height)]);
      }
    case RejectCall =>
    case ResizeCall(width, height) =>
      if w.acc.state.Accepted? {
        NonJoinsAppend(w.sent, [DeactivateAll, DemandActive(width, height)]);
        StaysGreeted(w.acc, Act(c, w, call).acc, NonJoins(w.sent), NonJoins([DeactivateAll, DemandActive(width, height)]));
      }
  }

  /**
    In every reachable state but the rejected one the protocol was selected as the client's offer and the server's
    policy demand, and what the server has said, joins aside, is the opening of that phase in order; past the
    approval it begins with the whole opening.
   */
  lemma {:induction false} OpeningInOrder(c: Codec, width: u16, height: u16, requireNla: bool, calls: seq<Call>)
    ensures var w := Run(c, Start(width, height, requireNla), calls);
            w.acc.requireNla == requireNla && Greeted(w.acc, NonJoins(w.sent))
    decreases |calls|
  {
    hide Inv, Act, Greeted;
    var start := Start(width, height, requireNla);
    if calls == [] {
      StartGreets(width, height, requireNla);
    } else {
      var before := Run(c, start, calls[..|calls| - 1]);
      OpeningInOrder(c, width, height, requireNla, calls[..|calls| - 1]);
      RunKeeps(c, width, height, requireNla, calls[..|calls| - 1]);
      ActGreets(c, before, calls[|calls| - 1], (width, height));
      PolicyStays(c, before, calls[|calls| - 1], (width, height));
    }
  }

  lemma StartGreets(width: u16, height: u16, requireNla: bool)
    ensures Greeted(New(width, height, requireNla), NonJoins([]))
  {
  }

  lemma PolicyStays(c: Codec, w: World, call: Call, initial: (u16, u16))
    requires Inv(c, w, initial)
    ensures Act(c, w, call).acc.requireNla == w.acc.requireNla
  {
    hide DomainLoop, ReactivationLoop, X224.UnwrapData, Mcs.ReadSendData, History, Offering, JoinsDue, Reported, StaticIds, Requests;
    if call.StepCall? && X224.UnwrapData(call.input).Ok? {
      var payload := X224.UnwrapData(call.input).value;
      if InDomain(w.acc.state) {
        DomainPhases(w.acc, payload);
      } else if Reactivating(w.acc.state) {
        AnsweredOrder(w);
        LoopReplies(c, w.acc, payload, SinceDemand(w.built));
      }
    }
  }

  // ------------------------------------------------------------------
  // How a reply gets lost
  // ------------------------------------------------------------------

  /** The requests at the front of a payload, up to the first bytes that are none. */
  function Decoded(s: seq<byte>): seq<Mcs.SendData>
    decreases |s|
  {
    match Mcs.ReadSendData(s, Mcs.SendDataRequest)
    case Err(_) => []
    case Ok(p) =>
      SendDataStable(s, []);
      [p.value] + Decoded(p.rest)
  }

  /** Whether the payload ends in bytes that are no request. */
  predicate Broken(s: seq<byte>)
    decreases |s|
  {
    s != [] &&
    match Mcs.ReadSendData(s, Mcs.SendDataRequest)
    case Err(_) => true
    case Ok(p) =>
      SendDataStable(s, []);
      Broken(p.rest)
  }

  ghost predicate NoFontList(c: Codec, rs: seq<Mcs.SendData>) {
    forall i :: 0 <= i < |rs| ==> !IsFontList(c, Request(rs[i]))
  }

  predicate RequestsControl(c: Codec, sd: Mcs.SendData) {
    FinalizationPdu(c, sd) == Some(ControlPdu(Some(REQUEST_CONTROL)))
  }

  ghost predicate ControlRequested(c: Codec, rs: seq<Mcs.SendData>) {
    exists i :: 0 <= i < |rs| && RequestsControl(c, rs[i])
  }

  /** What requests add to the Confirm Active buffer. */
  function Gathered(c: Codec, rs: seq<Mcs.SendData>): seq<byte> {
    if rs == [] then [] else Piece(c, Request(rs[0])) + Gathered(c, rs[1..])
  }

  /** Request `i` is the first that is complete, and it completes a Confirm Active begun in `buffer`. */
  ghost predicate Completes(c: Codec, buffer: seq<byte>, rs: seq<Mcs.SendData>, i: nat) {
    && i < |rs| && Eligible(c, rs[i]) && rs[i].complete
    && (forall j :: 0 <= j < i && Eligible(c, rs[j]) ==> !rs[j].complete)
    && |buffer + Gathered(c, rs[..i + 1])| <= MAX_CONFIRM_ACTIVE_LEN
    && TryConfirm(c, buffer + Gathered(c, rs[..i + 1])).Ok?
  }

  /** The requests earn a reply, and none of them completes the connection. */
  ghost predicate EarnsReplies(c: Codec, a: Snapshot, rs: seq<Mcs.SendData>) {
    match a.state
    case WaitConfirmActive => exists i :: 0 <= i < |rs| && Completes(c, a.confirmBuf, rs, i) && NoFontList(c, rs[i + 1..])
    case WaitFinalization(granted) => !granted && ControlRequested(c, rs) && NoFontList(c, rs)
    case _ => false
  }

  lemma HeadOfRequests(c: Codec, sd: Mcs.SendData, rs: seq<Mcs.SendData>)
    ensures NoFontList(c, [sd] + rs) <==> !IsFontList(c, Request(sd)) && NoFontList(c, rs)
    ensures ControlRequested(c, [sd] + rs) <==> RequestsControl(c, sd) || ControlRequested(c, rs)
  {
    hide FinalizationPdu;
    var all := [sd] + rs;
    assert forall i :: 0 <= i < |rs| ==> all[i + 1] == rs[i];
    assert forall i :: 1 <= i < |all| ==> all[i] == rs[i - 1];
    assert all[0] == sd;
  }

  /** In finalization a payload fails exactly if it is broken and completes nothing; it then costs at most a granted control. */
  lemma {:induction false} FinalizationLoses(c: Codec, a: Snapshot, s: seq<byte>)
    requires a.state.WaitFinalization?
    ensures var o := ReactivationLoop(c, a, s);
            && (o.result.Failed? <==> Broken(s) && NoFontList(c, Decoded(s)))
            && (o.result.Failed? ==> (o.built != [] <==> !a.state.granted && ControlRequested(c, Decoded(s))))
    decreases |s|
  {
    hide Mcs.ReadSendData, FinalizationPdu, Channels, NoFontList, ControlRequested;
    NoRequests(c);
    if s != [] && Mcs.ReadSendData(s, Mcs.SendDataRequest).Ok? {
      SendDataStable(s, []);
      var p := Mcs.ReadSendData(s, Mcs.SendDataRequest).value;
      var one := OnSendData(c, a, p.value);
      HeadOfRequests(c, p.value, Decoded(p.rest));
      if one.acc.state.WaitFinalization? {
        FinalizationLoses(c, one.acc, p.rest);
      }
    } else if s == [] {
      NothingReads();
    }
  }

  lemma NothingReads()
    ensures Mcs.ReadSendData([], Mcs.SendDataRequest).Err?
  {
  }

  lemma NoRequests(c: Codec)
    ensures NoFontList(c, []) && !ControlRequested(c, [])
  {
  }

  lemma GatheredHead(c: Codec, buffer: seq<byte>, sd: Mcs.SendData, rs: seq<Mcs.SendData>, i: nat)
    requires i < |rs|
    ensures buffer + Gathered(c, ([sd] + rs)[..i + 2]) == buffer + Piece(c, Request(sd)) + Gathered(c, rs[..i + 1])
  {
    hide Piece;
    var all := ([sd] + rs)[..i + 2];
    assert all[0] == sd && all[1..] == rs[..i + 1];
  }

  /** A request that is not complete only moves the fragments on. */
  lemma CompletesLater(c: Codec, buffer: seq<byte>, sd: Mcs.SendData, rs: seq<Mcs.SendData>, i: nat)
    requires Eligible(c, sd) ==> !sd.complete
    ensures Completes(c, buffer, [sd] + rs, i + 1) <==> Completes(c, buffer + Piece(c, Request(sd)), rs, i)
    ensures !Completes(c, buffer, [sd] + rs, 0)
  {
    hide Eligible, TryConfirm, Gathered, Piece;
    var all := [sd] + rs;
    assert all[0] == sd;
    assert forall j :: 0 <= j < |rs| ==> all[j + 1] == rs[j];
    if i < |rs| {
      GatheredHead(c, buffer, sd, rs, i);
      if Completes(c, buffer + Piece(c, Request(sd)), rs, i) {
        forall j | 0 <= j < i + 1 && Eligible(c, all[j]) ensures !all[j].complete {
          if j > 0 {
            assert all[j] == rs[j - 1];
          }
        }
      }
      if Completes(c, buffer, all, i + 1) {
        forall j | 0 <= j < i && Eligible(c, rs[j]) ensures !rs[j].complete {
          assert all[j + 1] == rs[j];
        }
      }
    }
  }

  lemma EarnsLater(c: Codec, a: Snapshot, sd: Mcs.SendData, rs: seq<Mcs.SendData>)
    requires a.state.WaitConfirmActive? && (Eligible(c, sd) ==> !sd.complete)
    ensures EarnsReplies(c, a, [sd] + rs) <==> EarnsReplies(c, a.(confirmBuf := a.confirmBuf + Piece(c, Request(sd))), rs)
  {
    hide Completes, NoFontList, Piece, Eligible;
    var all := [sd] + rs;
    var b := a.(confirmBuf := a.confirmBuf + Piece(c, Request(sd)));
    if i :| 0 <= i < |all| && Completes(c, a.confirmBuf, all, i) && NoFontList(c, all[i + 1..]) {
      CompletesLater(c, a.confirmBuf, sd, rs, if i > 0 then i - 1 else 0);
      assert all[i + 1..] == rs[i..];
      assert rs[i - 1 + 1..] == rs[i..];
    }
    if i :| 0 <= i < |rs| && Completes(c, b.confirmBuf, rs, i) && NoFontList(c, rs[i + 1..]) {
      CompletesLater(c, a.confirmBuf, sd, rs, i);
      assert all[i + 1 + 1..] == rs[i + 1..];
    }
  }

  /** A complete request decides: either it completes Confirm Active or nothing does. */
  lemma EarnsNow(c: Codec, a: Snapshot, sd: Mcs.SendData, rs: seq<Mcs.SendData>)
    requires a.state.WaitConfirmActive? && Eligible(c, sd) && sd.complete
    ensures EarnsReplies(c, a, [sd] + rs) <==>
              && |a.confirmBuf| + |sd.data| <= MAX_CONFIRM_ACTIVE_LEN
              && TryConfirm(c, a.confirmBuf + sd.data).Ok? && NoFontList(c, rs)
  {
    hide TryConfirm, NoFontList, Eligible;
    var all := [sd] + rs;
    assert all[..1] == [sd] && [sd][1..] == [];
    assert Gathered(c, [sd]) == sd.data + [] == sd.data;
    assert all[0] == sd && all[1..] == rs;
    if i :| 0 <= i < |all| && Completes(c, a.confirmBuf, all, i) && NoFontList(c, all[i + 1..]) {
      assert i == 0;
    }
    assert Completes(c, a.confirmBuf, all, 0) <==>
             |a.confirmBuf + sd.data| <= MAX_CONFIRM_ACTIVE_LEN && TryConfirm(c, a.confirmBuf + sd.data).Ok?;
  }

  lemma TooBig(c: Codec, a: Snapshot, sd: Mcs.SendData, rs: seq<Mcs.SendData>)
    requires a.state.WaitConfirmActive? && Eligible(c, sd) && |a.confirmBuf| + |sd.data| > MAX_CONFIRM_ACTIVE_LEN
    ensures !EarnsReplies(c, a, [sd] + rs)
  {
    hide TryConfirm, NoFontList, Eligible;
    var all := [sd] + rs;
    forall i | 0 <= i < |all| ensures !Completes(c, a.confirmBuf, all, i) {
      assert all[..i + 1][0] == sd;
      assert |Gathered(c, all[..i + 1])| >= |sd.data|;
    }
  }

  lemma {:induction false} ConfirmLoses(c: Codec, a: Snapshot, s: seq<byte>)
    requires a.state.WaitConfirmActive?
    ensures var o := ReactivationLoop(c, a, s);
            o.result.Failed? && o.built != [] <==> Broken(s) && EarnsReplies(c, a, Decoded(s))
    decreases |s|
  {
    hide Mcs.ReadSendData, EarnsReplies, Eligible, TryConfirm, NoFontList, ControlRequested;
    if s == [] || Mcs.ReadSendData(s, Mcs.SendDataRequest).Err? {
      NothingEarned(c, a);
    } else {
      SendDataStable(s, []);
      var p := Mcs.ReadSendData(s, Mcs.SendDataRequest).value;
      var sd, rest := p.value, Decoded(p.rest);
      var one := OnSendData(c, a, sd);
      if Eligible(c, sd) && |a.confirmBuf| + |sd.data| > MAX_CONFIRM_ACTIVE_LEN {
        TooBig(c, a, sd, rest);
      } else if Eligible(c, sd) && sd.complete {
        EarnsNow(c, a, sd, rest);
        if one.acc.state.WaitFinalization? {
          FinalizationLoses(c, one.acc, p.rest);
        }
      } else {
        EarnsLater(c, a, sd, rest);
        assert a.confirmBuf + [] == a.confirmBuf;
        ConfirmLoses(c, one.acc, p.rest);
      }
    }
  }

  lemma NothingEarned(c: Codec, a: Snapshot)
    ensures !EarnsReplies(c, a, [])
  {
  }

  /**
    A call loses replies exactly when its payload ends in bytes that are no request, none of the requests before them
    completes the connection, and one of them completes Confirm Active or, in finalization, is the first request for
    control.
   */
  lemma LosesRepliesIff(c: Codec, a: Snapshot, s: seq<byte>)
    requires Reactivating(a.state)
    ensures var o := Step(c, a, X224.WrapData(s));
            o.result.Failed? && o.built != [] <==> Broken(s) && EarnsReplies(c, a, Decoded(s))
  {
    hide X224.WrapData, X224.UnwrapData, ReactivationLoop, Broken, Decoded, Completes, NoFontList, ControlRequested;
    X224.UnwrapWrap(s);
    if a.state.WaitConfirmActive? {
      ConfirmLoses(c, a, s);
    } else {
      FinalizationLoses(c, a, s);
    }
  }

  // ------------------------------------------------------------------
  // A connection accepted without its Synchronize
  // ------------------------------------------------------------------

  /** A request, alone in its packet, that completes Confirm Active. */
  ghost predicate CompletesConfirm(c: Codec, a: Snapshot, packet: seq<byte>) {
    match Mcs.ReadSendData(packet, Mcs.SendDataRequest)
    case Err(_) => false
    case Ok(p) =>
      && p.rest == [] && Eligible(c, p.value) && p.value.complete
      && |a.confirmBuf| + |p.value.data| <= MAX_CONFIRM_ACTIVE_LEN && TryConfirm(c, a.confirmBuf + p.value.data).Ok?
  }

  ghost predicate HoldsFontList(c: Codec, packet: seq<byte>) {
    match Mcs.ReadSendData(packet, Mcs.SendDataRequest)
    case Err(_) => false
    case Ok(p) => IsFontList(c, Request(p.value))
  }

  lemma StrayByte(packet: seq<byte>, stray: byte)
    requires Mcs.ReadSendData(packet, Mcs.SendDataRequest).Ok? && Mcs.ReadSendData(packet, Mcs.SendDataRequest).value.rest == []
    ensures var sd := Mcs.ReadSendData(packet, Mcs.SendDataRequest).value.value;
            && Mcs.ReadSendData(packet + [stray], Mcs.SendDataRequest) == Ok(Parsed(sd, [stray]))
            && Mcs.ReadSendData([stray], Mcs.SendDataRequest).Err?
  {
    SendDataStable(packet, [stray]);
    assert [] + [stray] == [stray];
  }

  lemma LosingStep(c: Codec, a: Snapshot, packet: seq<byte>, stray: byte)
    requires a.state.WaitConfirmActive? && CompletesConfirm(c, a, packet)
    ensures var o := Step(c, a, X224.WrapData(packet + [stray]));
            o.result.Failed? && o.acc.state.WaitFinalization?
  {
    hide X224.WrapData, X224.UnwrapData, ReactivationLoop, CompletesConfirm;
    X224.UnwrapWrap(packet + [stray]);
    LosingLoop(c, a, packet, stray);
  }

  lemma LosingLoop(c: Codec, a: Snapshot, packet: seq<byte>, stray: byte)
    requires a.state.WaitConfirmActive? && CompletesConfirm(c, a, packet)
    ensures var o := ReactivationLoop(c, a, packet + [stray]);
            o.result.Failed? && o.acc.state.WaitFinalization?
  {
    hide Mcs.ReadSendData, Eligible, TryConfirm;
    StrayByte(packet, stray);
    var one := OnSendData(c, a, Mcs.ReadSendData(packet, Mcs.SendDataRequest).value.value);
    assert one.result.Done? && one.acc.state.WaitFinalization?;
    assert ReactivationLoop(c, one.acc, [stray]).result.Failed?;
  }

  lemma FontListStep(c: Codec, a: Snapshot, font: seq<byte>)
    requires a.state.WaitFinalization? && HoldsFontList(c, font)
    ensures var o := Step(c, a, X224.WrapData(font));
            o.result.Done? && o.acc.state.Accepted? && o.built == [FontMap, SaveSessionInfo]
  {
    assert font != [];
    hide X224.WrapData, X224.UnwrapData, Mcs.ReadSendData, FinalizationPdu;
    X224.UnwrapWrap(font);
  }

  lemma RunTwo(c: Codec, w: World, calls: seq<Call>, x: Call, y: Call)
    ensures Run(c, w, calls + [x, y]) == Act(c, Act(c, Run(c, w, calls), x), y)
  {
    hide Act;
    var all := calls + [x, y];
    assert all[..|all| - 1] == calls + [x] && (calls + [x])[..|calls|] == calls;
    assert Run(c, w, calls + [x]) == Act(c, Run(c, w, calls), x);
  }

  /**
    However a run came to await Confirm Active: one stray byte after the request that completes it, and a Font List,
    and the connection is accepted though its Synchronize and Cooperate never went out.
   */
  lemma AcceptedWithoutSynchronize(
    c: Codec, width: u16, height: u16, requireNla: bool, calls: seq<Call>, packet: seq<byte>, stray: byte, font: seq<byte>)
    requires var a := Run(c, Start(width, height, requireNla), calls).acc;
             a.state.WaitConfirmActive? && CompletesConfirm(c, a, packet)
    requires HoldsFontList(c, font)
    ensures var more := [StepCall(X224.WrapData(packet + [stray])), StepCall(X224.WrapData(font))];
            var w := Run(c, Start(width, height, requireNla), calls + more);
            w.acc.state.Accepted? && SinceDemand(w.sent) == [FontMap, SaveSessionInfo]
  {
    hide Step, X224.WrapData, Mcs.ReadSendData, CompletesConfirm, HoldsFontList, Requests, SinceDemand, Run;
    var start := Start(width, height, requireNla);
    var w := Run(c, start, calls);
    RunKeeps(c, width, height, requireNla, calls);
    NothingSentYet(c, w, (width, height));
    LosingStep(c, w.acc, packet, stray);
    var x, y := StepCall(X224.WrapData(packet + [stray])), StepCall(X224.WrapData(font));
    var w1 := Act(c, w, x);
    FontListStep(c, w1.acc, font);
    RunTwo(c, start, calls, x, y);
    assert w1.sent == w.sent + [] == w.sent;
    SinceDemandGrows(w.sent, [FontMap, SaveSessionInfo]);
    assert [] + [FontMap, SaveSessionInfo] == [FontMap, SaveSessionInfo];
  }

  lemma NothingSentYet(c: Codec, w: World, initial: (u16, u16))
    requires Inv(c, w, initial) && w.acc.state.WaitConfirmActive?
    ensures SinceDemand(w.sent) == []
  {
    hide History, JoinsDue, Offering, Reported, SinceDemand;
  }

  // ------------------------------------------------------------------
  // A whole run
  // ------------------------------------------------------------------

  const ERECT_DOMAIN: seq<byte> := [4, 1, 0, 1, 0]
  const ATTACH_USER: seq<byte> := [40]
  const CHANNEL_JOIN: seq<byte> := [56, 0, 1, 3, 235]

  function Joining(n: nat): seq<Call> {
    if n == 0 then [] else Joining(n - 1) + [StepCall(X224.WrapData(CHANNEL_JOIN))]
  }

  /** Packets the decoders take, up to the client's credentials. */
  ghost predicate Decodes(c: Codec, request: seq<byte>, connect: seq<byte>, info: seq<byte>) {
    && c.connectionRequest(request).Ok? && c.connectionRequest(request).value / 2 % 2 == 1
    && c.connectInitial(connect).Ok?
    && match Mcs.ReadSendData(info, Mcs.SendDataRequest)
       case Err(_) => false
       case Ok(p) => c.clientInfo(p.value.data).Ok?
  }

  function JoinsFor(blocks: ClientBlocks): nat {
    2 + |blocks.channels| + if blocks.messageChannel then 1 else 0
  }

  /** The connection sequence up to the approval, one packet at a time. */
  function Handshake(c: Codec, request: seq<byte>, connect: seq<byte>, info: seq<byte>): seq<Call>
    requires c.connectInitial(connect).Ok?
  {
    [StepCall(request)] + [StepCall(X224.WrapData(connect))] + [StepCall(X224.WrapData(ERECT_DOMAIN))] +
    [StepCall(X224.WrapData(ATTACH_USER))] + Joining(JoinsFor(c.connectInitial(connect).value)) +
    [StepCall(X224.WrapData(info))] + [ApproveCall]
  }

  lemma RunNext(c: Codec, w: World, calls: seq<Call>, x: Call)
    ensures Run(c, w, calls + [x]) == Act(c, Run(c, w, calls), x)
  {
    hide Act;
    assert (calls + [x])[..|calls|] == calls;
  }

  lemma DomainPackets(a: Snapshot)
    ensures a.state.WaitErectDomain? ==> DomainLoop(a, ERECT_DOMAIN).acc == a.(state := WaitAttachUser)
    ensures a.state.WaitAttachUser? ==> DomainLoop(a, ATTACH_USER).acc == a.(state := WaitChannelJoin(JoinTotal(a)))
  {
    if a.state.WaitErectDomain? {
      ErectReads();
      assert DomainLoop(a.(state := WaitAttachUser), []).acc == a.(state := WaitAttachUser);
    }
    if a.state.WaitAttachUser? {
      AttachReads();
      var b := a.(state := WaitChannelJoin(JoinTotal(a)));
      assert DomainLoop(b, []).acc == b;
    }
  }

  lemma ErectReads()
    ensures ReadErectDomain(ERECT_DOMAIN) == Ok(Parsed(true, []))
  {
  }

  lemma AttachReads()
    ensures ReadAttachUser(ATTACH_USER) == Ok(Parsed(true, []))
  {
  }

  lemma JoinReads()
    ensures ReadChannelJoin(CHANNEL_JOIN).Ok? && ReadChannelJoin(CHANNEL_JOIN).value.rest == []
  {
  }

  lemma JoinPacket(a: Snapshot)
    requires a.state.WaitChannelJoin? && a.state.remaining > 0
    ensures DomainLoop(a, CHANNEL_JOIN).acc
         == a.(state := if a.state.remaining == 1 then WaitClientInfo else WaitChannelJoin(a.state.remaining - 1))
  {
    JoinReads();
    if a.state.remaining > 1 {
      var b := a.(state := WaitChannelJoin(a.state.remaining - 1));
      assert DomainLoop(b, []).acc == b;
    }
  }

  /** The acceptor's state, as far as a packet's effect on it goes. */
  lemma StepAcc(c: Codec, w: World, input: seq<byte>)
    ensures Act(c, w, StepCall(input)).acc == Step(c, w.acc, input).acc
  {
    hide Step, Requests;
  }

  lemma {:induction false} JoiningRuns(c: Codec, w: World, calls: seq<Call>, n: nat)
    requires Run(c, w, calls).acc.state.WaitChannelJoin? && n <= Run(c, w, calls).acc.state.remaining
    ensures var a := Run(c, w, calls).acc;
            Run(c, w, calls + Joining(n)).acc
            == a.(state := if n == a.state.remaining then if n == 0 then a.state else WaitClientInfo
                           else WaitChannelJoin(a.state.remaining - n))
    decreases n
  {
    hide Run, Act, Step, DomainLoop, X224.WrapData, X224.UnwrapData;
    var a := Run(c, w, calls).acc;
    if n == 0 {
      assert calls + [] == calls;
    } else {
      JoiningRuns(c, w, calls, n - 1);
      var x := StepCall(X224.WrapData(CHANNEL_JOIN));
      var before := Run(c, w, calls + Joining(n - 1));
      assert calls + Joining(n) == calls + Joining(n - 1) + [x];
      RunNext(c, w, calls + Joining(n - 1), x);
      StepAcc(c, before, x.input);
      JoinStep(c, before.acc);
    }
  }

  lemma JoinStep(c: Codec, a: Snapshot)
    requires a.state.WaitChannelJoin? && a.state.remaining > 0
    ensures Step(c, a, X224.WrapData(CHANNEL_JOIN)).acc
         == a.(state := if a.state.remaining == 1 then WaitClientInfo else WaitChannelJoin(a.state.remaining - 1))
  {
    hide X224.WrapData, X224.UnwrapData, DomainLoop;
    X224.UnwrapWrap(CHANNEL_JOIN);
    JoinPacket(a);
  }

  lemma OpeningPackets(c: Codec, a: Snapshot, request: seq<byte>, connect: seq<byte>, info: seq<byte>)
    requires Decodes(c, request, connect, info)
    ensures a.state.WaitConnectionRequest? ==>
              Step(c, a, request).acc.state.WaitConnectInitial? && Step(c, a, request).acc.confirmBuf == a.confirmBuf
    ensures a.state.WaitConnectInitial? ==>
              var b := Step(c, a, X224.WrapData(connect)).acc;
              b.state.WaitErectDomain? && JoinTotal(b) == JoinsFor(c.connectInitial(connect).value) && b.confirmBuf == a.confirmBuf
    ensures a.state.WaitClientInfo? ==> Step(c, a, X224.WrapData(info)).acc == a.(state := WaitAuthApproval)
  {
    hide X224.WrapData, X224.UnwrapData, Mcs.ReadSendData, StaticIds;
    X224.UnwrapWrap(connect);
    X224.UnwrapWrap(info);
  }

  lemma DomainSteps(c: Codec, a: Snapshot)
    ensures a.state.WaitErectDomain? ==> Step(c, a, X224.WrapData(ERECT_DOMAIN)).acc == a.(state := WaitAttachUser)
    ensures a.state.WaitAttachUser? ==> Step(c, a, X224.WrapData(ATTACH_USER)).acc == a.(state := WaitChannelJoin(JoinTotal(a)))
  {
    hide X224.WrapData, X224.UnwrapData, DomainLoop;
    X224.UnwrapWrap(ERECT_DOMAIN);
    X224.UnwrapWrap(ATTACH_USER);
    DomainPackets(a);
  }

  /** The first four packets. */
  lemma AttachedRun(c: Codec, w: World, request: seq<byte>, connect: seq<byte>, info: seq<byte>)
    requires Decodes(c, request, connect, info) && w.acc.state.WaitConnectionRequest? && w.acc.confirmBuf == []
    ensures var calls := [StepCall(request)] + [StepCall(X224.WrapData(connect))] + [StepCall(X224.WrapData(ERECT_DOMAIN))] +
                         [StepCall(X224.WrapData(ATTACH_USER))];
            var a := Run(c, w, calls).acc;
            a.state == WaitChannelJoin(JoinsFor(c.connectInitial(connect).value)) && a.confirmBuf == []
  {
    hide Act, Step, Run, X224.WrapData, Mcs.ReadSendData, JoinTotal, Decodes;
    RunNone(c, w);
    var inputs := [request, X224.WrapData(connect), X224.WrapData(ERECT_DOMAIN), X224.WrapData(ATTACH_USER)];
    var w1 := Act(c, w, StepCall(inputs[0]));
    RunNext(c, w, [], StepCall(inputs[0]));
    assert [] + [StepCall(inputs[0])] == [StepCall(inputs[0])];
    StepAcc(c, w, inputs[0]);
    OpeningPackets(c, w.acc, request, connect, info);
    RunNext(c, w, [StepCall(inputs[0])], StepCall(inputs[1]));
    var w2 := Act(c, w1, StepCall(inputs[1]));
    StepAcc(c, w1, inputs[1]);
    OpeningPackets(c, w1.acc, request, connect, info);
    RunNext(c, w, [StepCall(inputs[0])] + [StepCall(inputs[1])], StepCall(inputs[2]));
    var w3 := Act(c, w2, StepCall(inputs[2]));
    StepAcc(c, w2, inputs[2]);
    DomainSteps(c, w2.acc);
    RunNext(c, w, [StepCall(inputs[0])] + [StepCall(inputs[1])] + [StepCall(inputs[2])], StepCall(inputs[3]));
    StepAcc(c, w3, inputs[3]);
    DomainSteps(c, w3.acc);
    SameJoins(w2.acc);
  }

  lemma SameJoins(a: Snapshot)
    ensures JoinTotal(a.(state := WaitAttachUser)) == JoinTotal(a)
  {
  }

  lemma RunNone(c: Codec, w: World)
    ensures Run(c, w, []) == w
  {
  }

  lemma HandshakeReaches(c: Codec, width: u16, height: u16, requireNla: bool,
                         request: seq<byte>, connect: seq<byte>, info: seq<byte>)
    requires Decodes(c, request, connect, info)
    ensures var a := Run(c, Start(width, height, requireNla), Handshake(c, request, connect, info)).acc;
            a.state.WaitConfirmActive? && a.confirmBuf == []
  {
    hide Act, Step, Run, X224.WrapData, Mcs.ReadSendData, Joining;
    var start := Start(width, height, requireNla);
    var n := JoinsFor(c.connectInitial(connect).value);
    AttachedRun(c, start, request, connect, info);
    var calls := [StepCall(request)] + [StepCall(X224.WrapData(connect))] + [StepCall(X224.WrapData(ERECT_DOMAIN))] +
                 [StepCall(X224.WrapData(ATTACH_USER))];
    JoiningRuns(c, start, calls, n);
    calls := calls + Joining(n);
    var w := Run(c, start, calls);
    RunNext(c, start, calls, StepCall(X224.WrapData(info)));
    StepAcc(c, w, X224.WrapData(info));
    OpeningPackets(c, w.acc, request, connect, info);
    calls := calls + [StepCall(X224.WrapData(info))];
    RunNext(c, start, calls, ApproveCall);
    Approves(c, Run(c, start, calls));
  }

  lemma Approves(c: Codec, w: World)
    requires w.acc.state.WaitAuthApproval?
    ensures Act(c, w, ApproveCall).acc == w.acc.(state := WaitConfirmActive)
  {
  }

  /**
    The whole run, for any decoders: any packets they take up to the approval, any request that completes Confirm
    Active followed by one stray byte, and any Font List.
   */
  lemma RepliesCanBeLost(
    c: Codec, width: u16, height: u16, requireNla: bool,
    request: seq<byte>, connect: seq<byte>, info: seq<byte>, packet: seq<byte>, stray: byte, font: seq<byte>)
    requires Decodes(c, request, connect, info) && HoldsFontList(c, font)
    requires CompletesConfirm(c, New(width, height, requireNla), packet)
    ensures var calls := Handshake(c, request, connect, info) +
                         [StepCall(X224.WrapData(packet + [stray])), StepCall(X224.WrapData(font))];
            var w := Run(c, Start(width, height, requireNla), calls);
            w.acc.state.Accepted? && SinceDemand(w.sent) == [FontMap, SaveSessionInfo]
  {
    hide Run, Handshake, HoldsFontList, X224.WrapData, Mcs.ReadSendData, TryConfirm, Eligible;
    HandshakeReaches(c, width, height, requireNla, request, connect, info);
    AcceptedWithoutSynchronize(c, width, height, requireNla, Handshake(c, request, connect, info), packet, stray, font);
  }
}
