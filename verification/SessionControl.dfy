/**
 What each message of the control protocol does to the record, given the state before it.
 Everything here is for sends that go through and a moment at which no deadline is due.
 */
module SessionControl {
  import opened Prelude
  import opened SessionModel
  import opened SessionInvariants
  import opened SessionSteps
  import opened SessionTheorems
  import opened SessionAlarm

  predicate NotYet(deadline: Option<Time>, now: Time) {
    deadline.Some? ==> now < deadline.value
  }

  /** No deadline of the record has been reached. */
  predicate NothingDue(r: SessionRecord, now: Time) {
    && now < r.sessionExpiresAt
    && NotYet(r.hostDisconnectDeadline, now)
    && NotYet(r.pendingRequestExpiresAt, now)
    && NotYet(r.controlLeaseExpiresAt, now)
  }

  /** Only the record, the alarm that goes with it, the log and the count of sends may have moved. */
  predicate SameConnections(s: State, t: State) {
    && t.host == s.host && t.hostConnected == s.hostConnected && t.viewers == s.viewers
    && t.attachments == s.attachments && t.issued == s.issued
    && t.hostTerminalSize == s.hostTerminalSize && t.hostTerminalProfile == s.hostTerminalProfile
  }

  lemma QuietRecord(s: State, now: Time)
    requires Mid(s) && s.clock == now && NothingDue(s.record, now)
    ensures AdvanceRecord(s, now) == (s, false) && TouchSession(s, now) == s
  {
    hide AllAuthorized, ControlTraced, Names, OnePerToken;
  }

  /** When nothing is due, a message of a sensible size reaches the handler of its role. */
  lemma Reaches(s: State, socket: Socket, data: Data, c: Ctx)
    requires Mid(s) && s.clock == c.now && NothingDue(s.record, c.now) && ByteLength(data) <= MAX_MESSAGE_BYTES
    requires socket in s.attachments && !s.record.state.Closed?
    requires if s.attachments[socket].HostAttachment? then s.host == Some(socket) else FindViewer(s.viewers, socket).Some?
    ensures HandleMessage(s, socket, data, c) == Dispatch(s, socket, s.attachments[socket].HostAttachment?, data, c)
  {
    hide Mid, Dispatch, AdvanceRecord, FindViewer;
    QuietRecord(s, c.now);
  }

  lemma ClosedIgnores(s: State, socket: Socket, data: Data, c: Ctx)
    requires Mid(s) && s.clock == c.now && NothingDue(s.record, c.now) && s.record.state.Closed? && socket in s.attachments
    ensures HandleMessage(s, socket, data, c) == s && !s.hostConnected
  {
    hide AdvanceRecord, FindViewer, Names, History;
    QuietRecord(s, c.now);
  }

  lemma ViewerKnown(s: State, v: Viewer)
    requires Mid(s) && v in s.viewers
    ensures v.socket in s.attachments && s.attachments[v.socket].ViewerAttachment?
    ensures FindViewer(s.viewers, v.socket) == Some(v)
  {
    hide FindViewer, History;
    assert Known(s.attachments, v);
    assert Known(s.attachments, FindViewer(s.viewers, v.socket).value);
  }

  lemma HostKnown(s: State, socket: Socket)
    requires Mid(s) && s.host == Some(socket)
    ensures socket in s.attachments && s.attachments[socket].HostAttachment? && s.hostConnected && !s.record.state.Closed?
  {}

  function HostCount(s: State): nat {
    if s.host.Some? then 1 else 0
  }

  /** How many sockets a broadcast reaches. */
  function Everybody(s: State): nat {
    HostCount(s) + |s.viewers|
  }

  /** With sends going through, a broadcast sends once to everybody and moves nothing else; so do those that are owed. */
  lemma Delivered(s: State, c: Ctx)
    requires AllSucceed(c.ok)
    ensures BroadcastStatus(s, c) == s.(sends := s.sends + Everybody(s))
    ensures SendHost(s, c) == s.(sends := s.sends + HostCount(s))
    ensures Settle(s, c) == s.(sends := s.sends + Owed(s, s.owed), owed := 0)
  {
    DeliveredOnce(s, c);
    DeliveredOwed(s, c);
  }

  lemma DeliveredOnce(s: State, c: Ctx)
    requires AllSucceed(c.ok)
    ensures BroadcastStatus(s, c) == s.(sends := s.sends + Everybody(s))
    ensures SendHost(s, c) == s.(sends := s.sends + HostCount(s))
  {
    SucceedingViewers(SendHost(s, c), s.viewers, c);
    hide SendViewers;
  }

  function Owed(s: State, times: nat): nat {
    if times == 0 then 0 else Everybody(s) + Owed(s, times - 1)
  }

  lemma {:induction false} DeliveredOwed(s: State, c: Ctx)
    requires AllSucceed(c.ok)
    ensures Settle(s, c) == s.(sends := s.sends + Owed(s, s.owed), owed := 0)
    decreases s.owed
  {
    if s.owed > 0 {
      var paid := s.(owed := s.owed - 1);
      DeliveredOnce(paid, c);
      var t := BroadcastStatus(paid, c);
      DeliveredOwed(t, c);
      hide BroadcastStatus;
      OwedSame(t, s, paid.owed);
    }
  }

  lemma {:induction false} OwedSame(s: State, t: State, times: nat)
    requires Everybody(s) == Everybody(t)
    ensures Owed(s, times) == Owed(t, times)
  {
    if times > 0 { OwedSame(s, t, times - 1); }
  }

  /** What an event left, when its handler left this and nothing owed. */
  lemma StepIs(s: State, e: Event, ok: Oracle, r: SessionRecord, log: seq<Observation>, sends: nat)
    requires AllSucceed(ok)
    requires var t := Handle(s.(clock := e.now), e, Ctx(e.now, ok));
             t.record == r && t.log == log && SameConnections(s, t) && t.sends == sends && t.owed == 0
    ensures var t := Step(s, e, ok); t.record == r && t.log == log && SameConnections(s, t) && t.sends == sends
  {
    hide Handle, Settle;
    NothingOwed(Handle(s.(clock := e.now), e, Ctx(e.now, ok)), Ctx(e.now, ok));
  }

  // ---------------------------------------------------------------- the outcomes

  /** Control can be asked for: the session allows it, a host is there, and nobody has it or waits for it. */
  predicate ControlFree(s: State) {
    && s.record.allowControl && s.hostConnected
    && s.record.currentControllerId.None? && s.record.pendingRequest.None?
  }

  /** The record with the viewer's request, which lapses after 30 seconds. */
  function Asking(r: SessionRecord, id: ViewerId, seconds: nat, now: Time): SessionRecord {
    r.(pendingRequest := Some(ControlRequest(id, seconds)), pendingRequestExpiresAt := Some(now + 30 * 1000))
  }

  /** The record once the viewer is in control until then. */
  function Granted(r: SessionRecord, id: ViewerId, until: Time): SessionRecord {
    r.(currentControllerId := Some(id), controlLeaseExpiresAt := Some(until),
       pendingRequest := None, pendingRequestExpiresAt := None)
  }

  function Unasked(r: SessionRecord): SessionRecord {
    r.(pendingRequest := None, pendingRequestExpiresAt := None)
  }

  function Uncontrolled(r: SessionRecord): SessionRecord {
    r.(currentControllerId := None, controlLeaseExpiresAt := None)
  }

  /** The event left this record, noted this, sent so many messages, and moved no connection. */
  predicate Left(s: State, e: Event, ok: Oracle, r: SessionRecord, noted: seq<Observation>, messages: nat) {
    var t := Step(s, e, ok);
    t.record == r && t.log == s.log + noted && SameConnections(s, t) && t.sends == s.sends + messages
  }

  ghost predicate Orderly(s: State, e: Event, ok: Oracle) {
    && Inv(s) && Enabled(s, e) && AllSucceed(ok) && NothingDue(s.record, e.now)
    && e.Message? && e.data.Text? && e.data.size <= MAX_MESSAGE_BYTES
  }

  lemma OrderlyMid(s: State, e: Event, ok: Oracle)
    requires Orderly(s, e, ok)
    ensures Mid(s.(clock := e.now)) && s.owed == 0
  {
    hide Inv, Mid, Enabled;
    TickKeeps(s, e);
    NothingOwedYet(s);
    InvMid(s.(clock := e.now));
  }

  /**
   A connected viewer's request is recorded, with its own id, the seconds it asked for and 30
   seconds to answer, if and only if control is free, and the host is told; otherwise nothing of
   the record moves. Either way everybody hears the status of an open session.
   */
  lemma RequestOutcome(s: State, e: Event, ok: Oracle, v: Viewer)
    requires Orderly(s, e, ok) && e.data.frame.Request? && v in s.viewers && v.socket == e.socket
    ensures var seconds := NormalizeLeaseSeconds(e.data.frame.lease, 1800);
            if ControlFree(s) then
              Left(s, e, ok, Asking(s.record, v.id, seconds, e.now),
                   [ControlRequested(e.socket, v.id, s.record.generation, e.now)], HostCount(s) + Everybody(s))
            else Left(s, e, ok, s.record, [], if s.record.state.Closed? then 0 else Everybody(s))
  {
    hide Mid, FindViewer, HandleMessage, NormalizeLeaseSeconds, NextAlarm, BroadcastStatus, SendHost, TouchSession, Settle;
    var c := Ctx(e.now, ok);
    var p := s.(clock := e.now);
    OrderlyMid(s, e, ok);
    ViewerKnown(p, v);
    RequestHandled(p, v, e.data.size, e.data.frame.lease, c);
    var noted := if ControlFree(s) then [ControlRequested(e.socket, v.id, s.record.generation, e.now)] else [];
    var r := if ControlFree(s) then Asking(s.record, v.id, NormalizeLeaseSeconds(e.data.frame.lease, 1800), e.now) else s.record;
    StepIs(s, e, ok, r, s.log + noted,
           s.sends + (if s.record.state.Closed? then 0 else Everybody(s)) + if ControlFree(s) then HostCount(s) else 0);
  }

  lemma RequestHandled(s: State, v: Viewer, size: nat, lease: Option<real>, c: Ctx)
    requires Mid(s) && s.clock == c.now && NothingDue(s.record, c.now) && AllSucceed(c.ok) && size <= MAX_MESSAGE_BYTES
    requires v in s.viewers
    ensures var t := HandleMessage(s, v.socket, Text(size, Request(lease)), c);
            && SameConnections(s, t)
            && t.record == (if ControlFree(s) then Asking(s.record, v.id, NormalizeLeaseSeconds(lease, 1800), c.now) else s.record)
            && t.log == s.log + (if ControlFree(s) then [ControlRequested(v.socket, v.id, s.record.generation, c.now)] else [])
            && t.sends == s.sends + (if s.record.state.Closed? then 0 else Everybody(s)) + (if ControlFree(s) then HostCount(s) else 0)
            && t.owed == s.owed
  {
    hide Mid, FindViewer, NormalizeLeaseSeconds, NextAlarm, BroadcastStatus, SendHost, TouchSession, HandleMessage, AdvanceRecord;
    ViewerKnown(s, v);
    if s.record.state.Closed? {
      ClosedIgnores(s, v.socket, Text(size, Request(lease)), c);
      return;
    }
    Reaches(s, v.socket, Text(size, Request(lease)), c);
    QuietRecord(s, c.now);
    var t := RequestControl(s, v.socket, lease, c);
    Delivered(s, c);
    if ControlFree(s) {
      var u := RecordRequest(s, v, NormalizeLeaseSeconds(lease, 1800), c.now);
      Delivered(u, c);
      Delivered(SendHost(u, c), c);
    }
    RequestMoves(s, v.socket, lease, c);
    TouchMoves(s, t, c.now);
  }

  // ---------------------------------------------------------------- what the host answers

  /** The answer names the viewer whose request is pending. */
  predicate NamesPending(s: State, viewerId: Option<ViewerId>) {
    s.record.pendingRequest.Some? && viewerId.Some? && s.record.pendingRequest.value.viewerId == viewerId.value
  }

  /** The end of the lease that an approval gives: the seconds it names, or else those that were asked for. */
  function LeaseEnd(s: State, lease: Option<real>, now: Time): Time
    requires s.record.pendingRequest.Some?
  {
    now + NormalizeLeaseSeconds(lease, s.record.pendingRequest.value.leaseSeconds) * 1000
  }

  /** A control frame from the host is dispatched as it is, and renewing the session afterwards changes nothing. */
  lemma HostReaches(s: State, socket: Socket, size: nat, frame: Frame, c: Ctx)
    requires Mid(s) && s.clock == c.now && NothingDue(s.record, c.now) && s.host == Some(socket) && size <= MAX_MESSAGE_BYTES
    ensures HandleMessage(s, socket, Text(size, frame), c) == HandleHostFrame(s, socket, frame, c)
    ensures s.hostConnected
  {
    hide HandleMessage, HandleHostFrame, Mid;
    HostKnown(s, socket);
    Reaches(s, socket, Text(size, frame), c);
  }

  lemma Approved(s: State, socket: Socket, viewerId: Option<ViewerId>, lease: Option<real>, c: Ctx)
    requires AllSucceed(c.ok)
    ensures var t := HandleControlApprove(s, socket, viewerId, lease, c);
            && SameConnections(s, t)
            && (if NamesPending(s, viewerId) then
                  t.record == Granted(s.record, viewerId.value, LeaseEnd(s, lease, c.now))
                  && t.log == s.log + [ControlApproved(socket, viewerId.value, s.record.generation, LeaseEnd(s, lease, c.now), c.now)]
                else t.record == s.record && t.log == s.log)
            && t.sends == s.sends + (if NamesPending(s, viewerId) then Everybody(s) else 0) && t.owed == s.owed
  {
    hide NormalizeLeaseSeconds, NextAlarm, BroadcastStatus;
    if NamesPending(s, viewerId) {
      Delivered(RecordApproval(s, socket, viewerId.value, LeaseEnd(s, lease, c.now), c.now), c);
    }
  }

  lemma ApproveHandled(s: State, socket: Socket, viewerId: Option<ViewerId>, lease: Option<real>, c: Ctx)
    requires Mid(s) && s.clock == c.now && NothingDue(s.record, c.now) && AllSucceed(c.ok) && s.host == Some(socket)
    ensures var t := HandleHostFrame(s, socket, Approve(viewerId, lease), c);
            && SameConnections(s, t)
            && (if NamesPending(s, viewerId) then
                  t.record == Granted(s.record, viewerId.value, LeaseEnd(s, lease, c.now))
                  && t.log == s.log + [ControlApproved(socket, viewerId.value, s.record.generation, LeaseEnd(s, lease, c.now), c.now)]
                else t.record == s.record && t.log == s.log)
            && t.sends == s.sends + (if NamesPending(s, viewerId) then Everybody(s) else 0) && t.owed == s.owed
  {
    hide Mid, NamesPending, SameConnections, LeaseEnd, Everybody, HandleControlApprove, TouchSession, Timely;
    HostTimely(s, c.now);
    Approved(s, socket, viewerId, lease, c);
    ApproveMoves(s, socket, viewerId, lease, c);
    TouchMoves(s, HandleControlApprove(s, socket, viewerId, lease, c), c.now);
  }

  lemma HostTimely(s: State, now: Time)
    requires Mid(s) && NothingDue(s.record, now)
    ensures Timely(s, now)
  {}

  lemma RejectHandled(s: State, socket: Socket, viewerId: Option<ViewerId>, c: Ctx)
    requires Mid(s) && s.clock == c.now && AllSucceed(c.ok)
    ensures var t := HandleHostFrame(s, socket, Reject(viewerId), c);
            && SameConnections(s, t)
            && t.record == (if NamesPending(s, viewerId) then Unasked(s.record) else s.record)
            && t.log == s.log + (if NamesPending(s, viewerId) then [RequestDropped(c.now)] else [])
            && t.sends == s.sends + (if NamesPending(s, viewerId) then Everybody(s) else 0) && t.owed == s.owed
  {
    hide Mid, NextAlarm, BroadcastStatus, TouchSession;
    if NamesPending(s, viewerId) { Delivered(DropRequest(s, c.now), c); }
    RejectMoves(s, viewerId, c);
    TouchMoves(s, HandleControlReject(s, viewerId, c), c.now);
  }

  /** Taking control away, by the host or by the viewer that gives it back. */
  lemma RevokeHandled(s: State, c: Ctx)
    requires AllSucceed(c.ok) && RecordShape(s.record) && s.owed == 0
    ensures var t := Settle(RevokeControl(s, c.now), c);
            && SameConnections(s, t)
            && t.record == Uncontrolled(s.record)
            && t.log == s.log + (if s.record.currentControllerId.Some? then [ControlDropped(c.now)] else [])
            && t.sends == s.sends + (if s.record.currentControllerId.Some? then Everybody(s) else 0)
  {
    hide Settle, NextAlarm;
    Delivered(RevokeControl(s, c.now), c);
  }

  /**
   The host's approval puts the viewer it names in control, until the end of the lease, if and
   only if that viewer's request is pending; otherwise nothing of the record moves.
   */
  lemma ApproveOutcome(s: State, e: Event, ok: Oracle)
    requires Orderly(s, e, ok) && e.data.frame.Approve? && s.host == Some(e.socket)
    ensures var frame := e.data.frame;
            if NamesPending(s, frame.viewerId) then
              var until := LeaseEnd(s, frame.lease, e.now);
              Left(s, e, ok, Granted(s.record, frame.viewerId.value, until),
                   [ControlApproved(e.socket, frame.viewerId.value, s.record.generation, until, e.now)], Everybody(s))
            else Left(s, e, ok, s.record, [], 0)
  {
    hide Inv, Mid, Enabled, HandleMessage, HandleHostFrame, NormalizeLeaseSeconds, Settle;
    var c := Ctx(e.now, ok);
    var p := s.(clock := e.now);
    OrderlyMid(s, e, ok);
    HostReaches(p, e.socket, e.data.size, e.data.frame, c);
    ApproveHandled(p, e.socket, e.data.frame.viewerId, e.data.frame.lease, c);
    var t := HandleMessage(p, e.socket, e.data, c);
    StepIs(s, e, ok, t.record, t.log, t.sends);
  }

  /** The host's rejection drops the request of the viewer it names if and only if that one is pending. */
  lemma RejectOutcome(s: State, e: Event, ok: Oracle)
    requires Orderly(s, e, ok) && e.data.frame.Reject? && s.host == Some(e.socket)
    ensures if NamesPending(s, e.data.frame.viewerId) then Left(s, e, ok, Unasked(s.record), [RequestDropped(e.now)], Everybody(s))
            else Left(s, e, ok, s.record, [], 0)
  {
    hide Inv, Mid, Enabled, HandleMessage, HandleHostFrame, Settle;
    var c := Ctx(e.now, ok);
    var p := s.(clock := e.now);
    OrderlyMid(s, e, ok);
    HostReaches(p, e.socket, e.data.size, e.data.frame, c);
    RejectHandled(p, e.socket, e.data.frame.viewerId, c);
    var t := HandleMessage(p, e.socket, e.data, c);
    StepIs(s, e, ok, t.record, t.log, t.sends);
  }

  lemma RevokeFrame(s: State, socket: Socket, c: Ctx)
    requires Mid(s) && s.clock == c.now
    ensures HandleHostFrame(s, socket, Revoke, c) == Settle(RevokeControl(s, c.now), c)
  {
    hide Mid, RevokeControl, Settle, TouchSession;
    RevokeMoves(s, c);
    TouchMoves(s, Settle(RevokeControl(s, c.now), c), c.now);
  }

  /** The host's revocation takes control away whenever somebody has it. */
  lemma RevokeOutcome(s: State, e: Event, ok: Oracle)
    requires Orderly(s, e, ok) && e.data.frame.Revoke? && s.host == Some(e.socket)
    ensures if s.record.currentControllerId.Some? then Left(s, e, ok, Uncontrolled(s.record), [ControlDropped(e.now)], Everybody(s))
            else Left(s, e, ok, s.record, [], 0)
  {
    hide Inv, Mid, Enabled, HandleMessage, HandleHostFrame, RevokeControl, Settle;
    var c := Ctx(e.now, ok);
    var p := s.(clock := e.now);
    OrderlyMid(s, e, ok);
    MidBase(p);
    HostReaches(p, e.socket, e.data.size, e.data.frame, c);
    RevokeFrame(p, e.socket, c);
    RevokeHandled(p, c);
    var t := HandleMessage(p, e.socket, e.data, c);
    StepIs(s, e, ok, t.record, t.log, t.sends);
  }

  // ---------------------------------------------------------------- what a viewer gives back

  lemma ReleaseHandled(s: State, v: Viewer, size: nat, c: Ctx)
    requires Mid(s) && s.clock == c.now && NothingDue(s.record, c.now) && AllSucceed(c.ok) && size <= MAX_MESSAGE_BYTES
    requires v in s.viewers && s.owed == 0
    ensures var t := HandleMessage(s, v.socket, Text(size, Release), c);
            var mine := s.record.currentControllerId == Some(v.id);
            && SameConnections(s, t)
            && t.record == (if mine then Uncontrolled(s.record) else s.record)
            && t.log == s.log + (if mine then [ControlDropped(c.now)] else [])
            && t.sends == s.sends + (if mine then Everybody(s) else 0) && t.owed == s.owed
  {
    hide Mid, FindViewer, HandleMessage, RevokeControl, Settle;
    ViewerKnown(s, v);
    MidBase(s);
    if s.record.currentControllerId.Some? { ControlHosted(s); }
    if s.record.state.Closed? { ClosedIgnores(s, v.socket, Text(size, Release), c); }
    else {
      Reaches(s, v.socket, Text(size, Release), c);
      RevokeHandled(s, c);
    }
  }

  /** A viewer that gives control back loses it, and any other viewer's release changes nothing. */
  lemma ReleaseOutcome(s: State, e: Event, ok: Oracle, v: Viewer)
    requires Orderly(s, e, ok) && e.data.frame.Release? && v in s.viewers && v.socket == e.socket
    ensures if s.record.currentControllerId == Some(v.id) then Left(s, e, ok, Uncontrolled(s.record), [ControlDropped(e.now)], Everybody(s))
            else Left(s, e, ok, s.record, [], 0)
  {
    hide Inv, Mid, Enabled, HandleMessage, Settle;
    var c := Ctx(e.now, ok);
    var p := s.(clock := e.now);
    OrderlyMid(s, e, ok);
    ReleaseHandled(p, v, e.data.size, c);
    var t := HandleMessage(p, e.socket, e.data, c);
    StepIs(s, e, ok, t.record, t.log, t.sends);
  }

  // ---------------------------------------------------------------- the wrong role

  lemma ForeignFrame(s: State, socket: Socket, isHost: bool, size: nat, frame: Frame, c: Ctx)
    requires if isHost then frame.Request? || frame.Release? else frame.Approve? || frame.Reject? || frame.Revoke?
    ensures Dispatch(s, socket, isHost, Text(size, frame), c) == s
  {}

  /** A viewer cannot approve, reject or revoke, and the host cannot ask for control or give it back. */
  lemma WrongRole(s: State, e: Event, ok: Oracle)
    requires Orderly(s, e, ok) && e.socket in s.attachments
    requires if s.attachments[e.socket].HostAttachment? then e.data.frame.Request? || e.data.frame.Release?
             else e.data.frame.Approve? || e.data.frame.Reject? || e.data.frame.Revoke?
    ensures Left(s, e, ok, s.record, [], 0)
  {
    hide Inv, Mid, Enabled, Dispatch, Settle, FindViewer, AdvanceRecord;
    var c := Ctx(e.now, ok);
    var p := s.(clock := e.now);
    OrderlyMid(s, e, ok);
    QuietRecord(p, e.now);
    ForeignFrame(p, e.socket, s.attachments[e.socket].HostAttachment?, e.data.size, e.data.frame, c);
    StepIs(s, e, ok, s.record, s.log, s.sends);
  }

  // ---------------------------------------------------------------- output, connections and /init

  /** Terminal output from the host is sent once to every viewer, and changes nothing. */
  lemma OutputOutcome(s: State, e: Event, ok: Oracle)
    requires Inv(s) && Enabled(s, e) && AllSucceed(ok) && NothingDue(s.record, e.now)
    requires e.Message? && e.data.Binary? && e.data.size <= MAX_MESSAGE_BYTES && e.data.kind == Some(1) && s.host == Some(e.socket)
    ensures Step(s, e, ok) == s.(clock := e.now, sends := s.sends + |s.viewers|)
  {
    hide Inv, Mid, Enabled, HandleMessage, SendViewers, TouchSession, Settle;
    var c := Ctx(e.now, ok);
    var p := s.(clock := e.now);
    TickKeeps(s, e);
    InvMid(p);
    HostKnown(p, e.socket);
    QuietRecord(p, e.now);
    Reaches(p, e.socket, e.data, c);
    SucceedingViewers(p, p.viewers, c);
    NothingOwedYet(s);
    NothingOwed(HandleMessage(p, e.socket, e.data, c), c);
  }

  /** A terminal of 1 to 1000 by 1 to 1000 cells, when what is after the point is cut off. */
  predicate Measures(cols: Option<real>, rows: Option<real>, size: TerminalSize) {
    && 1 <= size.cols <= 1000 && 1 <= size.rows <= 1000
    && cols.Some? && size.cols as real <= cols.value < (size.cols + 1) as real
    && rows.Some? && size.rows as real <= rows.value < (size.rows + 1) as real
  }

  lemma SizeMeasured(cols: Option<real>, rows: Option<real>)
    ensures var size := NormalizeTerminalSize(cols, rows);
            && (size.Some? ==> Measures(cols, rows, size.value))
            && (forall other :: Measures(cols, rows, other) ==> size == Some(other))
  {}

  /** What the host says of its terminal is noted exactly if it is a size or a profile; all else stays. */
  lemma DetailsOutcome(s: State, e: Event, ok: Oracle)
    requires Orderly(s, e, ok) && s.host == Some(e.socket) && (e.data.frame.Size? || e.data.frame.Profile?)
    ensures var t, frame := Step(s, e, ok), e.data.frame;
            && t == s.(clock := e.now, sends := t.sends,
                       hostTerminalSize := t.hostTerminalSize, hostTerminalProfile := t.hostTerminalProfile)
            && t.hostTerminalProfile == (if frame.Profile? && frame.profile.Some? then frame.profile else s.hostTerminalProfile)
            && (frame.Profile? ==> t.hostTerminalSize == s.hostTerminalSize)
            && (frame.Size? ==>
                  && (forall size :: Measures(frame.cols, frame.rows, size) ==> t.hostTerminalSize == Some(size))
                  && ((forall size :: !Measures(frame.cols, frame.rows, size)) ==> t.hostTerminalSize == s.hostTerminalSize))
  {
    hide Inv, Mid, Enabled, HandleMessage, Settle, BroadcastStatus, TouchSession, NormalizeTerminalSize, Measures;
    var c := Ctx(e.now, ok);
    var p := s.(clock := e.now);
    OrderlyMid(s, e, ok);
    HostReaches(p, e.socket, e.data.size, e.data.frame, c);
    DetailsHandled(p, e.socket, e.data.frame, c);
    if e.data.frame.Size? { SizeMeasured(e.data.frame.cols, e.data.frame.rows); }
    NothingOwedYet(s);
    NothingOwed(HandleMessage(p, e.socket, e.data, c), c);
  }

  lemma DetailsHandled(s: State, socket: Socket, frame: Frame, c: Ctx)
    requires Mid(s) && s.clock == c.now && AllSucceed(c.ok) && (frame.Size? || frame.Profile?)
    ensures var t := HandleHostFrame(s, socket, frame, c);
            if frame.Size? then
              var size := NormalizeTerminalSize(frame.cols, frame.rows);
              t == s.(sends := t.sends, hostTerminalSize := if size.Some? then size else s.hostTerminalSize)
            else
              t == s.(sends := t.sends, hostTerminalProfile := if frame.profile.Some? then frame.profile else s.hostTerminalProfile)
  {
    MidBase(s);
    hide Mid, BroadcastStatus, TouchSession, NormalizeTerminalSize;
    var t :=
      if frame.Size? then
        var size := NormalizeTerminalSize(frame.cols, frame.rows);
        if size.None? || s.hostTerminalSize == size then s else s.(hostTerminalSize := size)
      else if frame.profile.None? || s.hostTerminalProfile == frame.profile then s
      else s.(hostTerminalProfile := frame.profile);
    Delivered(t, c);
    TouchSessionIdle(s, c.now);
    TouchSessionIdle(t, c.now);
    TouchSessionIdle(BroadcastStatus(t, c), c.now);
  }

  /** A frame of the viewer in control is sent to the host, once, and changes nothing else. */
  lemma StdinOutcome(s: State, e: Event, ok: Oracle, v: Viewer)
    requires Inv(s) && Enabled(s, e) && AllSucceed(ok) && NothingDue(s.record, e.now)
    requires e.Message? && e.data.Binary? && e.data.size <= MAX_MESSAGE_BYTES && e.data.kind == Some(2)
    requires v in s.viewers && v.socket == e.socket
    ensures if s.record.currentControllerId == Some(v.id) then
              Step(s, e, ok) == s.(clock := e.now, sends := s.sends + 1,
                                   log := s.log + [StdinForwarded(e.socket, v.id, s.record.generation, e.now)])
            else Step(s, e, ok) == s.(clock := e.now)
  {
    hide Inv, Mid, Enabled, HandleMessage, TouchSession, Settle, FindViewer, SendHost;
    var c := Ctx(e.now, ok);
    var p := s.(clock := e.now);
    TickKeeps(s, e);
    InvMid(p);
    ViewerKnown(p, v);
    QuietRecord(p, e.now);
    NothingOwedYet(s);
    if s.record.currentControllerId.Some? { ControlHosted(p); }
    if s.record.state.Closed? { ClosedIgnores(p, e.socket, e.data, c); }
    else {
      Reaches(p, e.socket, e.data, c);
      Delivered(Observe(p, StdinForwarded(e.socket, v.id, s.record.generation, e.now)), c);
    }
    NothingOwed(HandleMessage(p, e.socket, e.data, c), c);
  }

  lemma ControlHosted(s: State)
    requires Mid(s) && s.record.currentControllerId.Some?
    ensures s.hostConnected && s.host.Some? && s.record.state.Active? && s.record.allowControl
  {}

  lemma NothingOwedYet(s: State)
    requires Inv(s)
    ensures s.owed == 0
  {}

  predicate Open(s: State) {
    s.record.state.Ready? || s.record.state.Active?
  }

  predicate Answered(t: State, status: nat) {
    t.log != [] && t.log[|t.log| - 1] == Replied(status)
  }

  /** Nothing moved but for the answer. */
  predicate TurnedAway(s: State, t: State, status: nat) {
    t.record == s.record && SameConnections(s, t) && t.log == s.log + [Replied(status)]
  }

  predicate HostSeated(s: State, t: State, socket: Socket) {
    && t.host == Some(socket) && t.hostConnected && t.viewers == s.viewers
    && t.record == Uncontrolled(Unasked(s.record)).(
         hostDisconnectDeadline := None, endReason := None, generation := s.record.generation + 1, state := Active)
  }

  /** The viewer a connection is for: known by its token, or else new. */
  function Arriving(s: State, e: Event): Viewer
    requires e.ConnectViewer?
  {
    if e.token.Some? && e.token.value in s.record.viewerIdentities
    then Viewer(s.record.viewerIdentities[e.token.value], e.token.value, e.socket)
    else Viewer(e.freshId, e.freshToken, e.socket)
  }

  ghost predicate ViewerSeated(s: State, t: State, v: Viewer) {
    && (forall w :: w in t.viewers <==> w == v || (w in s.viewers && w.token != v.token))
    && t.record == s.record.(viewerIdentities := s.record.viewerIdentities[v.token := v.id])
    && t.host == s.host && t.hostConnected == s.hostConnected
  }

  /** A host is seated, under a new generation and with nobody in control, if and only if the session is open. */
  lemma ConnectHostOutcome(s: State, e: Event, ok: Oracle)
    requires Inv(s) && Enabled(s, e) && AllSucceed(ok) && NothingDue(s.record, e.now) && e.ConnectHost?
    ensures var t := Step(s, e, ok);
            if Open(s) then HostSeated(s, t, e.socket) && Answered(t, 101) else TurnedAway(s, t, 410)
  {
    hide Inv, Mid, Enabled, AdvanceAndPersist, TouchSession, AcceptHost, Settle;
    var c := Ctx(e.now, ok);
    var p := s.(clock := e.now);
    TickKeeps(s, e);
    InvMid(p);
    QuietRecord(p, e.now);
    QuietAccept(p, c);
    if Open(s) { SeatedHost(p, e.socket, c); }
    Delivered(Accept(p, e, c), c);
  }

  lemma QuietAccept(s: State, c: Ctx)
    requires AdvanceRecord(s, c.now) == (s, false)
    ensures AdvanceAndPersist(s, c) == (s, false)
  {}

  lemma SeatedHost(s: State, socket: Socket, c: Ctx)
    requires AllSucceed(c.ok)
    ensures HostSeated(s, AcceptHost(s, socket, c), socket)
  {
    hide SendHostTimes, BroadcastStatus, NextAlarm;
    var t := SendIgnored(AttachHost(s, socket, c.now));
    SucceedingHost(t, 2, c);
    var u := SendHostTimes(t, 2, c);
    SucceedingHost(u, |u.viewers|, c);
    SucceedingBroadcast(SendHostTimes(u, |u.viewers|, c), c);
  }

  /**
   A viewer is connected, in place of any other connection of its token, if and only if the
   session is open: under the id of its token when that is known, and else under a fresh pair.
   */
  lemma ConnectViewerOutcome(s: State, e: Event, ok: Oracle)
    requires Inv(s) && Enabled(s, e) && AllSucceed(ok) && NothingDue(s.record, e.now) && e.ConnectViewer?
    ensures var t := Step(s, e, ok);
            if Open(s) then ViewerSeated(s, t, Arriving(s, e)) && Answered(t, 101) else TurnedAway(s, t, 410)
  {
    hide Inv, Mid, Enabled, AdvanceAndPersist, TouchSession, AcceptViewer, Settle;
    var c := Ctx(e.now, ok);
    var p := s.(clock := e.now);
    TickKeeps(s, e);
    InvMid(p);
    QuietRecord(p, e.now);
    QuietAccept(p, c);
    if Open(s) { SeatedViewer(p, e, c); }
    Delivered(Accept(p, e, c), c);
  }

  lemma AttachedViewer(s: State, e: Event)
    requires e.ConnectViewer? && s.clock == e.now && Mid(s) && Enabled(s, e) && Open(s)
    ensures ViewerSeated(s, AttachViewer(s, e), Arriving(s, e))
  {
    hide AddViewer, Base, ResolveIdentity;
    ResolveIdentityMoves(s, e);
    Resolved(s, e);
    var (r, id, token) := ResolveIdentity(s, e);
    RunningInit(r);
    var a := ViewerAttachment(id, token, e.requestId);
    AttachedBase(r, e.socket, a);
    AddViewerKeeps(r.(attachments := r.attachments[e.socket := a]), Viewer(id, token, e.socket));
  }

  lemma Resolved(s: State, e: Event)
    requires e.ConnectViewer?
    ensures var (r, id, token) := ResolveIdentity(s, e);
            && Viewer(id, token, e.socket) == Arriving(s, e)
            && r.record == s.record.(viewerIdentities := s.record.viewerIdentities[token := id])
            && r.host == s.host && r.hostConnected == s.hostConnected && r.viewers == s.viewers
  {
    hide NextAlarm;
    if e.token.Some? && e.token.value in s.record.viewerIdentities {
      var m := s.record.viewerIdentities;
      assert m[e.token.value := m[e.token.value]] == m;
    }
  }

  lemma SeatedViewer(s: State, e: Event, c: Ctx)
    requires e.ConnectViewer? && s.clock == c.now == e.now && Mid(s) && Enabled(s, e) && AllSucceed(c.ok) && Open(s)
    ensures ViewerSeated(s, AcceptViewer(s, e, c), Arriving(s, e))
  {
    hide AttachViewer, Mid, Enabled, SendHost, SendHostTimes, BroadcastStatus, NextAlarm, Arriving;
    AttachedViewer(s, e);
    var t := SendIgnored(AttachViewer(s, e));
    SucceedingHost(t, 2, c);
    var u := if t.hostTerminalSize.None? || t.hostTerminalProfile.None? then RequestHostTerminalDetails(t, c) else t;
    SucceedingSendHost(u, c);
    SucceedingBroadcast(SendHost(u, c), c);
  }

  /** The record of a session that was stopped for this reason. */
  function StoppedFor(r: SessionRecord, reason: string): SessionRecord {
    Unasked(Uncontrolled(r)).(state := Ended, endReason := Some(reason), hostDisconnectDeadline := None)
  }

  /** Either side can stop the sharing: the owner through /end, the host with a message. */
  lemma StopOutcome(s: State, e: Event, ok: Oracle)
    requires Inv(s) && Enabled(s, e) && AllSucceed(ok) && !s.record.state.Closed?
    requires e.End? || (Orderly(s, e, ok) && s.host == Some(e.socket) && e.data.frame.SessionEnd?)
    ensures var t := Step(s, e, ok);
            && t.host.None? && !t.hostConnected && t.viewers == s.viewers
            && t.record == StoppedFor(s.record, if e.End? then "owner stopped sharing" else "host ended")
  {
    hide Inv, Mid, Enabled, HandleMessage, Settle, FinishSharing, EndSharing, NextAlarm;
    var c := Ctx(e.now, ok);
    var p := s.(clock := e.now);
    TickKeeps(s, e);
    InvMid(p);
    var reason := if e.End? then "owner stopped sharing" else "host ended";
    Finished(p, reason, c);
    if e.Message? { HostReaches(p, e.socket, e.data.size, e.data.frame, c); }
    Delivered(Handle(p, e, c), c);
  }

  lemma Finished(s: State, reason: string, c: Ctx)
    requires AllSucceed(c.ok) && !s.record.state.Closed?
    ensures var t := FinishSharing(Persist(EndSharing(s, reason, c.now)), c);
            t.record == StoppedFor(s.record, reason) && t.host.None? && !t.hostConnected && t.viewers == s.viewers
    ensures var t := FinishSharing(SendIgnored(Persist(EndSharing(s, reason, c.now))), c);
            t.record == StoppedFor(s.record, reason) && t.host.None? && !t.hostConnected && t.viewers == s.viewers
  {
    hide BroadcastStatus;
    var t := Persist(EndSharing(s, reason, c.now));
    Delivered(t.(hostConnected := false, hostTerminalSize := None, hostTerminalProfile := None), c);
    var u := SendIgnored(t);
    Delivered(u.(hostConnected := false, hostTerminalSize := None, hostTerminalProfile := None), c);
  }

  // ---------------------------------------------------------------- closed connections

  /** When the host's connection closes, control and request go, and it has three minutes to come back. */
  lemma HostCloseOutcome(s: State, e: Event, ok: Oracle)
    requires Inv(s) && Enabled(s, e) && AllSucceed(ok) && e.Close? && s.host == Some(e.socket)
    ensures var t := Step(s, e, ok);
            && t.host.None? && !t.hostConnected && t.viewers == s.viewers
            && t.record == Uncontrolled(Unasked(s.record)).(
                 state := Ready, hostDisconnectDeadline := Some(e.now + 3 * 60 * 1000))
  {
    hide Mid, NextAlarm, BroadcastStatus, Settle;
    var c := Ctx(e.now, ok);
    var p := s.(clock := e.now);
    Delivered(ClearHost(p, e.now), c);
    Delivered(HandleClose(p, e.socket, c), c);
  }

  /** The record without what this viewer held. */
  function Without(r: SessionRecord, id: ViewerId): SessionRecord {
    var q := if r.currentControllerId == Some(id) then Uncontrolled(r) else r;
    if r.pendingRequest.Some? && r.pendingRequest.value.viewerId == id then Unasked(q) else q
  }

  /** When a viewer's connection closes, it alone goes, with the control or the request it held. */
  lemma ViewerCloseOutcome(s: State, e: Event, ok: Oracle, v: Viewer)
    requires Inv(s) && Enabled(s, e) && AllSucceed(ok) && e.Close? && v in s.viewers && v.socket == e.socket
    ensures var t := Step(s, e, ok);
            && t.record == Without(s.record, v.id) && t.host == s.host && t.hostConnected == s.hostConnected
            && forall w :: w in t.viewers <==> w in s.viewers && w != v
  {
    hide Inv, Mid, BroadcastStatus, Settle, RemoveViewer, FindViewer;
    var c := Ctx(e.now, ok);
    var p := s.(clock := e.now);
    TickKeeps(s, e);
    InvMid(p);
    ViewerKnown(p, v);
    Removed(p, v, e.now);
    var t := RemoveViewer(p, e.socket, e.now);
    Delivered(t, c);
    Delivered(Settle(t, c), c);
    Delivered(HandleClose(p, e.socket, c), c);
  }

  lemma Removed(s: State, v: Viewer, now: Time)
    requires Mid(s) && v in s.viewers
    ensures var t := RemoveViewer(s, v.socket, now);
            && t.record == Without(s.record, v.id) && t.host == s.host && t.hostConnected == s.hostConnected
            && forall w :: w in t.viewers <==> w in s.viewers && w != v
  {
    ViewerKnown(s, v);
    hide Mid, NextAlarm, FindViewer;
    forall w | w in s.viewers && w.socket == v.socket ensures w == v { ViewerKnown(s, w); }
  }

  /** The expiry that /init settles on: a day, or what was asked for within the next seven. */
  predicate Acceptable(expiry: Expiry, now: Time, until: int) {
    match expiry
    case DefaultExpiry => until == now + 24 * 3600 * 1000
    case At(ms) => until == ms && now < ms <= now + 7 * 24 * 3600 * 1000
    case NotFinite => false
  }

  predicate Begun(t: State, allowControl: bool, until: nat) {
    && t.record.state.Ready? && t.record.allowControl == allowControl
    && t.record.sessionExpiresAt == t.record.maxExpiresAt == until && t.alarm == Some(until)
  }

  /** /init starts a session if and only if there is none and its expiry is acceptable. */
  lemma InitOutcome(s: State, e: Event, ok: Oracle)
    requires Inv(s) && Enabled(s, e) && e.Init?
    ensures var t := Step(s, e, ok);
            if !s.record.state.Idle? && !s.record.state.Closed? then TurnedAway(s, t, 409)
            else if exists until: nat :: Acceptable(e.expiresAt, e.now, until) then
              Answered(t, 200) && exists until: nat :: Acceptable(e.expiresAt, e.now, until) && Begun(t, e.allowControl, until)
            else TurnedAway(s, t, 400)
  {
    hide Base, Settle, Enabled;
    NothingOwedYet(s);
    NothingOwed(Handle(s.(clock := e.now), e, Ctx(e.now, ok)), Ctx(e.now, ok));
    assert e.expiresAt.DefaultExpiry? ==> Acceptable(e.expiresAt, e.now, e.now + 24 * 3600 * 1000);
    if e.expiresAt.At? && ExpiryAccepted(e.expiresAt, e.now) {
      var until: nat := e.expiresAt.ms;
      assert Acceptable(e.expiresAt, e.now, until);
    }
  }

  // ---------------------------------------------------------------- what time alone does

  predicate Reached(deadline: Option<Time>, now: Time) {
    deadline.Some? && deadline.value <= now
  }

  /** The record without what has lapsed. */
  function Lapsed(r: SessionRecord, now: Time): SessionRecord {
    var q := if Reached(r.pendingRequestExpiresAt, now) then Unasked(r) else r;
    if Reached(r.controlLeaseExpiresAt, now) then Uncontrolled(q) else q
  }

  /**
   With sends going through, an alarm closes the session exactly when it has expired, and else
   ends it exactly when its host has been away for too long; otherwise the request and the
   lease go exactly when their time is up, and all the rest of the record stays.
   */
  lemma AlarmOutcome(s: State, now: Time, ok: Oracle)
    requires Inv(s) && Enabled(s, Alarm(now)) && AllSucceed(ok) && !Terminal(s.record)
    ensures var r := Step(s, Alarm(now), ok).record;
            if s.record.sessionExpiresAt <= now then
              r == Unasked(Uncontrolled(s.record)).(
                     state := Closed, endReason := Some("session expired"), hostDisconnectDeadline := None)
            else if Reached(s.record.hostDisconnectDeadline, now) then
              r == Unasked(Uncontrolled(s.record)).(
                     state := Ended, endReason := Some("host disconnected"), hostDisconnectDeadline := None)
            else r == Lapsed(s.record, now)
  {
    hide Step;
    SucceedingAlarm(s, now, ok);
    AlarmTick(s, now);
    ClockOutcome(s.(clock := now, alarm := None), now);
  }

  lemma ClockOutcome(s: State, now: Time)
    requires Mid(s) && s.clock == now && !Terminal(s.record)
    ensures var r := AdvanceRecord(s, now).0.record;
            if s.record.sessionExpiresAt <= now then
              r == Unasked(Uncontrolled(s.record)).(
                     state := Closed, endReason := Some("session expired"), hostDisconnectDeadline := None)
            else if Reached(s.record.hostDisconnectDeadline, now) then
              r == Unasked(Uncontrolled(s.record)).(
                     state := Ended, endReason := Some("host disconnected"), hostDisconnectDeadline := None)
            else r == Lapsed(s.record, now)
  {
    hide AllAuthorized, ControlTraced, Names, OnePerToken;
  }
}
