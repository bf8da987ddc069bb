/**
 Who may type into the terminal. Requests, approvals and forwarded frames are the acts of the
 control protocol; here each act of a run is led back to the event, and the socket, it came from.
 */
module SessionAuthority {
  import opened Prelude
  import opened SessionModel
  import opened SessionInvariants
  import opened SessionSteps
  import opened SessionTheorems

  predicate IsAct(o: Observation) {
    o.ControlRequested? || o.ControlApproved? || o.StdinForwarded?
  }

  /** The acts noted in a log, in order. */
  function Acts(log: seq<Observation>): seq<Observation> {
    if log == [] then []
    else Acts(log[..|log| - 1]) + if IsAct(log[|log| - 1]) then [log[|log| - 1]] else []
  }

  lemma ActsAppend(log: seq<Observation>, o: Observation)
    ensures Acts(log + [o]) == Acts(log) + if IsAct(o) then [o] else []
  {
    assert (log + [o])[..|log|] == log;
  }

  lemma {:induction false} ActsHave(log: seq<Observation>, k: nat)
    requires k < |log| && IsAct(log[k])
    ensures log[k] in Acts(log)
    decreases |log|
  {
    if k < |log| - 1 { ActsHave(log[..|log| - 1], k); }
  }

  // ---------------------------------------------------------------- what does not act

  /** From s to t nobody asked, approved or typed. */
  predicate Silent(s: State, t: State) {
    Acts(t.log) == Acts(s.log)
  }

  lemma ObserveSilent(s: State, o: Observation)
    requires !IsAct(o)
    ensures Silent(s, Observe(s, o))
  {
    ActsAppend(s.log, o);
  }

  lemma ClearHostSilent(s: State, now: Time)
    ensures Silent(s, ClearHost(s, now))
  {
    hide Acts;
    ActsAppend(s.log, HostCleared(now));
  }

  lemma RevokeSilent(s: State, now: Time)
    ensures Silent(s, RevokeControl(s, now))
  {
    hide Acts;
    ActsAppend(s.log, ControlDropped(now));
  }

  lemma DropSilent(s: State, now: Time)
    ensures Silent(s, DropRequest(s, now))
  {
    hide Acts;
    ActsAppend(s.log, RequestDropped(now));
  }

  lemma RemoveSilent(s: State, socket: Socket, now: Time)
    ensures Silent(s, RemoveViewer(s, socket, now))
  {
    hide Acts, RevokeControl, DropRequest, FindViewer, DeleteViewer;
    var viewer := FindViewer(s.viewers, socket);
    var t := s.(viewers := DeleteViewer(s.viewers, socket));
    RevokeSilent(t, now);
    var u := if viewer.Some? && t.record.currentControllerId == Some(viewer.value.id) then RevokeControl(t, now) else t;
    DropSilent(u, now);
  }

  lemma SendHostSilent(s: State, c: Ctx)
    ensures Silent(s, SendHost(s, c))
  {
    hide Acts, ClearHost;
    ClearHostSilent(SendIgnored(s), c.now);
  }

  lemma {:induction false} SendHostTimesSilent(s: State, times: nat, c: Ctx)
    ensures Silent(s, SendHostTimes(s, times, c))
    decreases times
  {
    hide Acts, SendHost;
    if times > 0 {
      SendHostSilent(s, c);
      SendHostTimesSilent(SendHost(s, c), times - 1, c);
    }
  }

  lemma SendViewerSilent(s: State, v: Viewer, c: Ctx)
    ensures Silent(s, SendViewer(s, v, c))
  {
    hide Acts, RemoveViewer;
    RemoveSilent(SendIgnored(s), v.socket, c.now);
  }

  lemma {:induction false} SendViewersSilent(s: State, vs: seq<Viewer>, c: Ctx)
    ensures Silent(s, SendViewers(s, vs, c))
    decreases |vs|
  {
    hide Acts, SendViewer;
    if vs != [] {
      SendViewerSilent(s, vs[0], c);
      SendViewersSilent(SendViewer(s, vs[0], c), vs[1..], c);
    }
  }

  lemma BroadcastSilent(s: State, c: Ctx)
    ensures Silent(s, BroadcastStatus(s, c))
  {
    hide Acts, SendHost, SendViewers;
    SendHostSilent(s, c);
    SendViewersSilent(SendHost(s, c), SendHost(s, c).viewers, c);
  }

  lemma {:induction false} SettleSilent(s: State, c: Ctx)
    ensures Silent(s, Settle(s, c))
    decreases Sockets(s), s.owed
  {
    hide Acts, BroadcastStatus;
    if s.owed > 0 {
      BroadcastSilent(s.(owed := s.owed - 1), c);
      SettleSilent(PaidOnce(s, c), c);
    }
  }

  lemma EndSharingSilent(s: State, reason: string, now: Time)
    ensures Silent(s, CloseSession(s, reason, now)) && Silent(s, EndSharing(s, reason, now))
  {
    hide Acts;
    ActsAppend(s.log, SessionStopped(now));
  }

  lemma CloseHostSocketSilent(s: State)
    ensures Silent(s, CloseHostSocket(s))
  {
    hide Acts;
    if s.host.Some? { ActsAppend(s.log, SocketClosed(s.host.value, 4000)); }
  }

  lemma {:induction false} CloseViewersSilent(s: State, vs: seq<Viewer>)
    ensures Silent(s, CloseViewers(s, vs))
    decreases |vs|
  {
    hide Acts;
    if vs != [] {
      ActsAppend(s.log, SocketClosed(vs[0].socket, 4000));
      CloseViewersSilent(CloseSocket(s, vs[0].socket, 4000), vs[1..]);
    }
  }

  lemma FinishSilent(s: State, c: Ctx)
    ensures Silent(s, FinishSharing(s, c)) && Silent(s, FinishClosedSession(s, c))
  {
    hide Acts, BroadcastStatus, CloseHostSocket, CloseViewers;
    var u := s.(hostConnected := false);
    var w := u.(hostTerminalSize := None, hostTerminalProfile := None);
    BroadcastSilent(u, c);
    BroadcastSilent(w, c);
    CloseHostSocketSilent(BroadcastStatus(u, c));
    CloseHostSocketSilent(BroadcastStatus(w, c));
    var v := CloseHostSocket(BroadcastStatus(u, c));
    CloseViewersSilent(v, v.viewers);
  }

  lemma ExpireSilent(s: State, now: Time)
    ensures Silent(s, ExpireControl(ExpireRequest(s, now), now))
  {
    hide Acts;
    ActsAppend(s.log, RequestDropped(now));
    ActsAppend(ExpireRequest(s, now).log, ControlDropped(now));
  }

  lemma AdvanceSilent(s: State, now: Time)
    ensures Silent(s, AdvanceRecord(s, now).0)
  {
    hide Acts, CloseSession, EndSharing, ExpireControl, ExpireRequest;
    EndSharingSilent(s, "session expired", now);
    ExpireSilent(s, now);
    EndSharingSilent(ExpireControl(ExpireRequest(s, now), now), "host disconnected", now);
  }

  lemma AdvanceAndPersistSilent(s: State, c: Ctx)
    ensures Silent(s, AdvanceAndPersist(s, c).0)
  {
    hide Acts, AdvanceRecord, FinishSharing, FinishClosedSession;
    AdvanceSilent(s, c.now);
    FinishSilent(Persist(AdvanceRecord(s, c.now).0), c);
  }

  lemma TouchSilent(s: State, now: Time)
    ensures Silent(s, TouchSession(s, now))
  {
    hide Acts, NextAlarm;
  }

  lemma AcceptHostSilent(s: State, socket: Socket, c: Ctx)
    ensures Silent(s, AcceptHost(s, socket, c))
  {
    hide Acts, SendHostTimes, BroadcastStatus, NextAlarm;
    var t := if s.host.Some? then CloseSocket(s, s.host.value, 4001) else s;
    if s.host.Some? { ActsAppend(s.log, SocketClosed(s.host.value, 4001)); }
    ActsAppend(t.log, HostAttached(socket, s.record.generation + 1, c.now));
    var u := SendIgnored(AttachHost(s, socket, c.now));
    SendHostTimesSilent(u, 2, c);
    var v := RequestHostTerminalDetails(u, c);
    SendHostTimesSilent(v, |v.viewers|, c);
    BroadcastSilent(SendHostTimes(v, |v.viewers|, c), c);
  }

  lemma {:induction false} ReplaceSilent(s: State, vs: seq<Viewer>, next: Viewer)
    ensures Silent(s, ReplaceConnections(s, vs, next))
    decreases |vs|
  {
    hide Acts, DeleteViewer;
    if vs != [] {
      var v := vs[0];
      var t := if v.socket == next.socket || v.token != next.token then s
               else CloseSocket(s.(viewers := DeleteViewer(s.viewers, v.socket)), v.socket, 4001);
      ActsAppend(s.log, SocketClosed(v.socket, 4001));
      ReplaceSilent(t, vs[1..], next);
    }
  }

  lemma AddViewerSilent(s: State, v: Viewer)
    ensures Silent(s, AddViewer(s, v))
  {
    hide Acts, ReplaceConnections;
    ReplaceSilent(s.(viewers := s.viewers + [v]), s.viewers + [v], v);
  }

  lemma AcceptViewerSilent(s: State, e: Event, c: Ctx)
    requires e.ConnectViewer?
    ensures Silent(s, AcceptViewer(s, e, c))
  {
    hide Acts, AddViewer, SendHost, SendHostTimes, BroadcastStatus, NextAlarm;
    var (r, id, token) := ResolveIdentity(s, e);
    assert r.log == s.log;
    AddViewerSilent(r.(attachments := r.attachments[e.socket := ViewerAttachment(id, token, e.requestId)]),
                    Viewer(id, token, e.socket));
    var t := SendIgnored(AttachViewer(s, e));
    SendHostTimesSilent(t, 2, c);
    var u := if t.hostTerminalSize.None? || t.hostTerminalProfile.None? then RequestHostTerminalDetails(t, c) else t;
    SendHostSilent(u, c);
    BroadcastSilent(SendHost(u, c), c);
  }

  lemma AcceptSilent(s: State, e: Event, c: Ctx)
    requires e.ConnectHost? || e.ConnectViewer?
    ensures Silent(s, Accept(s, e, c))
  {
    hide Acts, AdvanceAndPersist, TouchSession, AcceptHost, AcceptViewer;
    AdvanceAndPersistSilent(s, c);
    var t := AdvanceAndPersist(s, c).0;
    ObserveSilent(t, Replied(410));
    TouchSilent(t, c.now);
    var u := TouchSession(t, c.now);
    if e.ConnectHost? { AcceptHostSilent(u, e.socket, c); } else { AcceptViewerSilent(u, e, c); }
    ObserveSilent(if e.ConnectHost? then AcceptHost(u, e.socket, c) else AcceptViewer(u, e, c), Replied(101));
  }

  lemma InitSilent(s: State, allowControl: bool, expiresAt: Expiry, now: Time)
    ensures Silent(s, HandleInit(s, allowControl, expiresAt, now))
  {
    hide Acts, NextAlarm;
    ActsAppend(s.log, Replied(409));
    ActsAppend(s.log, Replied(400));
    if ExpiryAccepted(expiresAt, now) {
      var o := Initialized(now, ExpiryTime(expiresAt, now), allowControl);
      ActsAppend(s.log, o);
      ActsAppend(s.log + [o], Replied(200));
    }
  }

  lemma EndSilent(s: State, c: Ctx)
    ensures Silent(s, HandleEnd(s, c))
  {
    hide Acts, EndSharing, FinishSharing, NextAlarm;
    EndSharingSilent(s, "owner stopped sharing", c.now);
    var t := Persist(EndSharing(s, "owner stopped sharing", c.now));
    FinishSilent(t, c);
    ObserveSilent(ScheduleNextAlarm(FinishSharing(t, c), c.now), Replied(200));
  }

  lemma AlarmSilent(s: State, c: Ctx)
    ensures Silent(s, HandleAlarm(s, c))
  {
    hide Acts, AdvanceAndPersist, BroadcastStatus, NextAlarm;
    AdvanceAndPersistSilent(s.(alarm := None), c);
    BroadcastSilent(AdvanceAndPersist(s.(alarm := None), c).0, c);
  }

  lemma CloseSilent(s: State, socket: Socket, c: Ctx)
    ensures Silent(s, HandleClose(s, socket, c))
  {
    hide Acts, ClearHost, RemoveViewer, Settle, BroadcastStatus, NextAlarm;
    ClearHostSilent(s, c.now);
    SettleSilent(ClearHost(s, c.now), c);
    RemoveSilent(s, socket, c.now);
    SettleSilent(RemoveViewer(s, socket, c.now), c);
    BroadcastSilent(Settle(RemoveViewer(s, socket, c.now), c), c);
  }

  lemma {:induction false} RestoreSocketsSilent(s: State, open: seq<Socket>)
    ensures Silent(s, RestoreSockets(s, open))
    decreases |open|
  {
    hide Acts, AddViewer;
    if open != [] {
      ActsAppend(s.log, SocketClosed(open[0], 1003));
      ActsAppend(s.log, SocketClosed(open[0], 4001));
      if open[0] in s.attachments && s.attachments[open[0]].ViewerAttachment? {
        var a := s.attachments[open[0]];
        AddViewerSilent(s, Viewer(a.viewerId, a.viewerToken, open[0]));
      }
      RestoreSocketsSilent(RestoreSocket(s, open[0]), open[1..]);
    }
  }

  lemma RestoreSilent(s: State, open: seq<Socket>, c: Ctx)
    ensures Silent(s, HandleRestore(s, open, c))
  {
    hide Acts, RestoreSockets, FinishSharing, FinishClosedSession, SendHostTimes, NextAlarm;
    RestoreSocketsSilent(FreshInstance(s, c.now), open);
    var t := RestoreSockets(FreshInstance(s, c.now), open);
    FinishSilent(t, c);
    SendHostTimesSilent(t, 2, c);
    var u := if t.hostConnected then RequestHostTerminalDetails(t, c) else t;
    ActsAppend(u.log, HostCleared(c.now));
  }

  // ---------------------------------------------------------------- what acts

  /** The act of a control request that reaches its handler once the record is up to date. */
  function RequestAct(s: State, socket: Socket, now: Time): seq<Observation> {
    if RequestBlocked(s, socket) then []
    else
      var v := FindViewer(s.viewers, socket).value;
      [ControlRequested(v.socket, v.id, s.record.generation, now)]
  }

  function ApproveAct(s: State, socket: Socket, viewerId: Option<ViewerId>, lease: Option<real>, now: Time): seq<Observation> {
    if !AnswersPending(s, viewerId) then []
    else
      var pending := s.record.pendingRequest.value;
      var until := now + NormalizeLeaseSeconds(lease, pending.leaseSeconds) * 1000;
      [ControlApproved(socket, pending.viewerId, s.record.generation, until, now)]
  }

  function ForwardAct(s: State, socket: Socket, kind: Option<nat>, now: Time): seq<Observation> {
    if kind != Some(STDIN) || !CanWrite(s, socket) then []
    else [StdinForwarded(socket, FindViewer(s.viewers, socket).value.id, s.record.generation, now)]
  }

  /** The act, if any, of a frame that reaches its role's handler in state s. */
  function DispatchAct(s: State, socket: Socket, isHost: bool, data: Data, c: Ctx): seq<Observation> {
    match data
    case Text(_, Approve(viewerId, lease)) => if isHost then ApproveAct(s, socket, viewerId, lease, c.now) else []
    case Text(_, Request(_)) => if isHost then [] else RequestAct(AdvanceAndPersist(s, c).0, socket, c.now)
    case Binary(_, kind) => if isHost then [] else ForwardAct(s, socket, kind, c.now)
    case _ => []
  }

  lemma RequestActs(s: State, socket: Socket, lease: Option<real>, c: Ctx)
    ensures Acts(RequestControl(s, socket, lease, c).log) == Acts(s.log) + RequestAct(s, socket, c.now)
  {
    hide Acts, SendHost, BroadcastStatus, NextAlarm, NormalizeLeaseSeconds;
    if RequestBlocked(s, socket) { BroadcastSilent(s, c); }
    else {
      var v := FindViewer(s.viewers, socket).value;
      var t := RecordRequest(s, v, NormalizeLeaseSeconds(lease, DEFAULT_CONTROL_LEASE_SECONDS), c.now);
      ActsAppend(s.log, ControlRequested(v.socket, v.id, s.record.generation, c.now));
      SendHostSilent(t, c);
      BroadcastSilent(SendHost(t, c), c);
    }
  }

  lemma ApproveActs(s: State, socket: Socket, viewerId: Option<ViewerId>, lease: Option<real>, c: Ctx)
    ensures Acts(HandleControlApprove(s, socket, viewerId, lease, c).log)
            == Acts(s.log) + ApproveAct(s, socket, viewerId, lease, c.now)
  {
    hide Acts, BroadcastStatus, NextAlarm, NormalizeLeaseSeconds;
    if AnswersPending(s, viewerId) {
      var pending := s.record.pendingRequest.value;
      var until := c.now + NormalizeLeaseSeconds(lease, pending.leaseSeconds) * 1000;
      ActsAppend(s.log, ControlApproved(socket, pending.viewerId, s.record.generation, until, c.now));
      BroadcastSilent(RecordApproval(s, socket, pending.viewerId, until, c.now), c);
    }
  }

  lemma ForwardActs(s: State, socket: Socket, kind: Option<nat>, c: Ctx)
    requires s.clock == c.now && RecordShape(s.record)
    ensures Acts(HandleViewerBinary(s, socket, kind, c).log) == Acts(s.log) + ForwardAct(s, socket, kind, c.now)
  {
    hide Acts, SendHost, CanWrite;
    ActsAppend(s.log, SocketClosed(socket, 1003));
    TouchSessionIdle(s, c.now);
    if kind == Some(STDIN) && CanWrite(s, socket) {
      var o := ForwardAct(s, socket, kind, c.now)[0];
      ActsAppend(s.log, o);
      SendHostSilent(Observe(s, o), c);
    }
  }

  lemma HostBinarySilent(s: State, socket: Socket, kind: Option<nat>, c: Ctx)
    ensures Silent(s, HandleHostBinary(s, socket, kind, c))
  {
    hide Acts, TouchSession, SendViewers;
    ActsAppend(s.log, SocketClosed(socket, 1003));
    TouchSilent(s, c.now);
    var t := TouchSession(s, c.now);
    SendViewersSilent(t, t.viewers, c);
  }

  lemma SnapshotSilent(s: State, requestId: Option<RequestId>, c: Ctx)
    ensures Silent(s, DeliverSnapshot(s, requestId, c))
  {
    hide Acts, SendViewer, FindRequest;
    if requestId.Some? {
      var v := FindRequest(s.attachments, s.viewers, requestId.value);
      if v.Some? {
        ActsAppend(s.log, SnapshotDelivered(v.value.socket, requestId.value));
        SendViewerSilent(Observe(s, SnapshotDelivered(v.value.socket, requestId.value)), v.value, c);
      }
    }
  }

  lemma SessionEndSilent(s: State, c: Ctx)
    ensures Silent(s, ScheduleNextAlarm(FinishSharing(SendIgnored(Persist(EndSharing(s, "host ended", c.now))), c), c.now))
  {
    hide Acts, EndSharing, FinishSharing, NextAlarm;
    EndSharingSilent(s, "host ended", c.now);
    FinishSilent(SendIgnored(Persist(EndSharing(s, "host ended", c.now))), c);
  }

  lemma RejectSilent(s: State, viewerId: Option<ViewerId>, c: Ctx)
    ensures Silent(s, HandleControlReject(s, viewerId, c))
  {
    hide Acts, DropRequest, BroadcastStatus;
    DropSilent(s, c.now);
    BroadcastSilent(DropRequest(s, c.now), c);
  }

  lemma HostFrameActs(s: State, socket: Socket, frame: Frame, c: Ctx)
    ensures Acts(HandleHostFrame(s, socket, frame, c).log) == Acts(s.log) + match frame
              case Approve(viewerId, lease) => ApproveAct(s, socket, viewerId, lease, c.now)
              case _ => []
  {
    hide Acts, EndSharing, FinishSharing, NextAlarm, DeliverSnapshot, HandleControlApprove, HandleControlReject;
    hide RevokeControl, Settle, BroadcastStatus, TouchSession, ApproveAct, NormalizeTerminalSize;
    match frame
    case SessionEnd => SessionEndSilent(s, c);
    case Snapshot(requestId) => SnapshotSilent(s, requestId, c);
    case Approve(viewerId, lease) =>
      ApproveActs(s, socket, viewerId, lease, c);
      TouchSilent(HandleControlApprove(s, socket, viewerId, lease, c), c.now);
    case Reject(viewerId) =>
      RejectSilent(s, viewerId, c);
      TouchSilent(HandleControlReject(s, viewerId, c), c.now);
    case Revoke =>
      RevokeSilent(s, c.now);
      SettleSilent(RevokeControl(s, c.now), c);
      TouchSilent(Settle(RevokeControl(s, c.now), c), c.now);
    case Size(cols, rows) =>
      var t := s.(hostTerminalSize := NormalizeTerminalSize(cols, rows));
      TouchSilent(s, c.now);
      BroadcastSilent(t, c);
      TouchSilent(BroadcastStatus(t, c), c.now);
    case Profile(profile) =>
      var t := s.(hostTerminalProfile := profile);
      TouchSilent(s, c.now);
      BroadcastSilent(t, c);
      TouchSilent(BroadcastStatus(t, c), c.now);
    case _ =>
  }

  lemma ViewerFrameActs(s: State, socket: Socket, frame: Frame, c: Ctx)
    ensures Acts(HandleViewerFrame(s, socket, frame, c).log) == Acts(s.log) + match frame
              case Request(_) => RequestAct(AdvanceAndPersist(s, c).0, socket, c.now)
              case _ => []
  {
    hide Acts, CanWrite, RevokeControl, Settle, AdvanceAndPersist, RequestControl, TouchSession, SendHost, RequestAct;
    match frame
    case Release =>
      RevokeSilent(s, c.now);
      SettleSilent(RevokeControl(s, c.now), c);
    case Request(lease) =>
      AdvanceAndPersistSilent(s, c);
      RequestActs(AdvanceAndPersist(s, c).0, socket, lease, c);
      TouchSilent(HandleControlRequest(s, socket, lease, c), c.now);
    case SizeRequest => SendHostSilent(s, c); TouchSilent(SendHost(s, c), c.now);
    case ProfileRequest => SendHostSilent(s, c); TouchSilent(SendHost(s, c), c.now);
    case _ =>
  }

  lemma DispatchActs(s: State, socket: Socket, isHost: bool, data: Data, c: Ctx)
    requires s.clock == c.now && RecordShape(s.record)
    ensures Acts(Dispatch(s, socket, isHost, data, c).log) == Acts(s.log) + DispatchAct(s, socket, isHost, data, c)
  {
    hide Acts, HandleHostFrame, HandleViewerFrame, HandleHostBinary, HandleViewerBinary;
    hide ApproveAct, RequestAct, ForwardAct, AdvanceAndPersist;
    match data
    case Text(_, frame) =>
      if isHost { HostFrameActs(s, socket, frame, c); } else { ViewerFrameActs(s, socket, frame, c); }
    case Binary(_, kind) =>
      if isHost { HostBinarySilent(s, socket, kind, c); } else { ForwardActs(s, socket, kind, c); }
    case UnsupportedContainer => ActsAppend(s.log, SocketClosed(socket, 1003));
  }

  // ---------------------------------------------------------------- from the state before the event

  /** From s to t only connections and control went, and the host is still the one of s. */
  ghost predicate Fades(s: State, t: State) {
    && t.host == s.host && t.record.allowControl == s.record.allowControl
    && t.record.sessionExpiresAt == s.record.sessionExpiresAt
    && NoNewControl(s, t)
    && (forall v | v in t.viewers :: v in s.viewers)
  }

  /** Bringing the record up to date loses the host, or lets the rest only fade. */
  lemma AdvanceFades(s: State, c: Ctx)
    requires Mid(s) && s.clock == c.now
    ensures var t := AdvanceAndPersist(s, c).0; t.host.None? || Fades(s, t)
  {
    AdvanceKeeps(s, c.now);
    ExpireKeeps(s, c.now);
    var p := Persist(AdvanceRecord(s, c.now).0);
    if p.record.state.Closed? { FinishClosedKeeps(p, c); }
    else if p.record.state.Ended? { FinishSharingKeeps(p, c); }
  }

  /** The state in which a message reaches its handler. */
  function Arrival(s: State, c: Ctx): State {
    var (t, advanced) := AdvanceAndPersist(s, c);
    if advanced then BroadcastStatus(t, c) else t
  }

  lemma ArrivalFades(s: State, c: Ctx)
    requires Mid(s) && s.clock == c.now
    ensures var u := Arrival(s, c);
            && Mid(u) && Timely(u, c.now) && u.clock == s.clock && (u.host.None? || Fades(s, u))
            && Silent(s, u)
  {
    hide AdvanceAndPersist, BroadcastStatus, Silent;
    AdvanceAndPersistKeeps(s, c);
    AdvanceFades(s, c);
    AdvanceAndPersistSilent(s, c);
    var t := AdvanceAndPersist(s, c).0;
    BroadcastMoves(t, c);
    BroadcastKeeps(t, c);
    BroadcastSilent(t, c);
    SilentTwice(s, t, BroadcastStatus(t, c));
  }

  lemma SilentTwice(s: State, t: State, u: State)
    requires Silent(s, t) && Silent(t, u)
    ensures Silent(s, u)
  {}

  /** The viewer behind a socket is the same one as long as it is connected. */
  lemma SameViewer(s: State, t: State, socket: Socket)
    requires Names(s) && OnePerToken(s.viewers) && (forall v | v in t.viewers :: v in s.viewers)
    requires FindViewer(t.viewers, socket).Some?
    ensures FindViewer(s.viewers, socket) == FindViewer(t.viewers, socket)
  {
    var v := FindViewer(t.viewers, socket).value;
    assert v in s.viewers;
    var w := FindViewer(s.viewers, socket).value;
    assert Known(s.attachments, v) && Known(s.attachments, w);
  }

  /**
   The event that an act came from, and what held before it. A request came from a connected
   viewer, in a session with a host that allows control; an approval from the host, for the
   request that was pending and had not timed out; a frame from the connected viewer that was
   in control, before the lease and the session ran out.
   */
  ghost predicate Caused(s: State, e: Event, o: Observation) {
    && IsAct(o) && e.Message? && o.socket == e.socket && o.at == e.now && o.generation == s.record.generation
    && s.host.Some? && s.record.allowControl
    && match o
       case ControlRequested(socket, id, _, _) =>
         && e.data.Text? && e.data.frame.Request?
         && FindViewer(s.viewers, socket).Some? && FindViewer(s.viewers, socket).value.id == id
       case ControlApproved(socket, id, _, until, at) =>
         && e.data.Text? && e.data.frame.Approve? && e.data.frame.viewerId == Some(id)
         && s.host == Some(socket)
         && s.record.pendingRequest.Some? && s.record.pendingRequest.value.viewerId == id
         && s.record.pendingRequestExpiresAt.Some? && at < s.record.pendingRequestExpiresAt.value
         && until == at + NormalizeLeaseSeconds(e.data.frame.lease, s.record.pendingRequest.value.leaseSeconds) * 1000
       case StdinForwarded(socket, id, _, at) => MayForward(s, e) && FindViewer(s.viewers, socket).value.id == id
       case _ => false
  }

  /** A stdin frame of at most a mebibyte, from the viewer in control, before its lease and the session run out. */
  ghost predicate MayForward(s: State, e: Event) {
    && e.Message? && e.data.Binary? && e.data.kind == Some(STDIN) && e.data.size <= MAX_MESSAGE_BYTES
    && CanWrite(s, e.socket)
    && s.record.controlLeaseExpiresAt.Some? && e.now < s.record.controlLeaseExpiresAt.value
    && e.now < s.record.sessionExpiresAt
  }

  ghost predicate AtMostOne(s: State, e: Event, acts: seq<Observation>) {
    acts == [] || (|acts| == 1 && Caused(s, e, acts[0]))
  }

  lemma ForwardCaused(s: State, u: State, e: Event, c: Ctx)
    requires Mid(s) && Mid(u) && Timely(u, c.now) && c.now == e.now && (u.host.None? || Fades(s, u))
    requires e.Message? && e.data.Binary? && e.data.size <= MAX_MESSAGE_BYTES
    ensures AtMostOne(s, e, ForwardAct(u, e.socket, e.data.kind, c.now))
  {
    hide History, Names, OnePerToken;
    if CanWrite(u, e.socket) { SameViewer(s, u, e.socket); }
  }

  lemma ApproveCaused(s: State, u: State, e: Event, c: Ctx)
    requires Mid(s) && Mid(u) && Timely(u, c.now) && c.now == e.now && Fades(s, u)
    requires e.Message? && e.data.Text? && e.data.frame.Approve? && u.host == Some(e.socket)
    ensures AtMostOne(s, e, ApproveAct(u, e.socket, e.data.frame.viewerId, e.data.frame.lease, c.now))
  {
    hide NormalizeLeaseSeconds, Names, History;
  }

  lemma RequestCaused(s: State, u: State, e: Event, c: Ctx)
    requires Mid(s) && Mid(u) && u.clock == c.now == e.now && (u.host.None? || Fades(s, u))
    requires e.Message? && e.data.Text? && e.data.frame.Request?
    ensures AtMostOne(s, e, RequestAct(AdvanceAndPersist(u, c).0, e.socket, c.now))
  {
    hide AdvanceAndPersist;
    AdvanceFades(u, c);
    AdvanceAndPersistKeeps(u, c);
    var w := AdvanceAndPersist(u, c).0;
    if !RequestBlocked(w, e.socket) { SameViewer(s, w, e.socket); }
  }

  lemma DispatchCaused(s: State, u: State, e: Event, c: Ctx)
    requires Mid(s) && Mid(u) && Timely(u, c.now) && u.clock == c.now == e.now && (u.host.None? || Fades(s, u))
    requires e.Message? && ByteLength(e.data) <= MAX_MESSAGE_BYTES
    ensures u.host == Some(e.socket) ==> AtMostOne(s, e, DispatchAct(u, e.socket, true, e.data, c))
    ensures AtMostOne(s, e, DispatchAct(u, e.socket, false, e.data, c))
  {
    hide Mid, Timely, Fades, Caused, ApproveAct, RequestAct, ForwardAct, AdvanceAndPersist;
    match e.data
    case Text(_, Approve(viewerId, lease)) => if u.host == Some(e.socket) { ApproveCaused(s, u, e, c); }
    case Text(_, Request(_)) => RequestCaused(s, u, e, c);
    case Binary(_, _) => ForwardCaused(s, u, e, c);
    case _ =>
  }

  lemma MessageCaused(s: State, e: Event, c: Ctx) returns (acts: seq<Observation>)
    requires Mid(s) && e.Message? && s.clock == c.now == e.now
    ensures Acts(HandleMessage(s, e.socket, e.data, c).log) == Acts(s.log) + acts && AtMostOne(s, e, acts)
  {
    hide Mid, Timely, Fades, Caused, Dispatch, DispatchAct, Acts, AdvanceAndPersist, BroadcastStatus, FindViewer;
    acts := [];
    if e.socket !in s.attachments {
      ActsAppend(s.log, SocketClosed(e.socket, 1003));
      return;
    }
    var isHost := s.attachments[e.socket].HostAttachment?;
    var u := Arrival(s, c);
    ArrivalFades(s, c);
    ActsAppend(u.log, SocketClosed(e.socket, 1009));
    if u.record.state.Closed? || (isHost && u.host != Some(e.socket)) || (!isHost && FindViewer(u.viewers, e.socket).None?) {
      return;
    }
    if ByteLength(e.data) <= MAX_MESSAGE_BYTES {
      MidBase(u);
      DispatchActs(u, e.socket, isHost, e.data, c);
      DispatchCaused(s, u, e, c);
      acts := DispatchAct(u, e.socket, isHost, e.data, c);
    }
  }

  lemma HandleCaused(s: State, e: Event, c: Ctx) returns (acts: seq<Observation>)
    requires Mid(s) && s.clock == c.now == e.now
    ensures Acts(Handle(s, e, c).log) == Acts(s.log) + acts && AtMostOne(s, e, acts)
  {
    hide Mid, Caused, Acts, HandleInit, HandleEnd, Accept, HandleAlarm, HandleMessage, HandleClose, HandleRestore;
    hide AdvanceAndPersist;
    acts := [];
    match e
    case Init(now, allowControl, expiresAt) => InitSilent(s, allowControl, expiresAt, now);
    case End(_) => EndSilent(s, c);
    case Status(_) =>
      AdvanceAndPersistSilent(s, c);
      ActsAppend(AdvanceAndPersist(s, c).0.log, Replied(200));
    case ConnectHost(_, _) => AcceptSilent(s, e, c);
    case ConnectViewer(_, _, _, _, _, _) => AcceptSilent(s, e, c);
    case Alarm(_) => AlarmSilent(s, c);
    case Message(_, socket, data) => acts := MessageCaused(s, e, c);
    case Close(_, socket) => CloseSilent(s, socket, c);
    case Restore(_, open) => RestoreSilent(s, open, c);
  }

  /** Every event adds at most one act, and one that it caused. */
  lemma StepActs(s: State, e: Event, ok: Oracle) returns (acts: seq<Observation>)
    requires Inv(s) && Enabled(s, e)
    ensures Acts(Step(s, e, ok).log) == Acts(s.log) + acts && AtMostOne(s, e, acts)
  {
    hide Acts, Inv, Enabled, Caused, Handle, Settle;
    var c := Ctx(e.now, ok);
    var p := s.(clock := e.now);
    TickKeeps(s, e);
    InvMid(p);
    acts := HandleCaused(p, e, c);
    SettleSilent(Handle(p, e, c), c);
    if acts != [] { CausedEarlier(s, e, acts[0]); }
  }

  lemma CausedEarlier(s: State, e: Event, o: Observation)
    requires Caused(s.(clock := e.now), e, o)
    ensures Caused(s, e, o)
  {}

  // ---------------------------------------------------------------- exactly what is forwarded

  /** While the controller's lease and session run, time changes nothing about the session. */
  lemma ControlledArrival(s: State, e: Event, c: Ctx)
    requires Mid(s) && s.clock == c.now == e.now && MayForward(s, e)
    ensures Arrival(s, c) == s
  {
    hide Names, History, FindViewer;
  }

  lemma ForwardHandled(s: State, e: Event, c: Ctx)
    requires Mid(s) && s.clock == c.now == e.now && MayForward(s, e)
    ensures Acts(Handle(s, e, c).log)
            == Acts(s.log) + [StdinForwarded(e.socket, FindViewer(s.viewers, e.socket).value.id, s.record.generation, e.now)]
  {
    hide Acts, AdvanceAndPersist, BroadcastStatus, HandleViewerBinary, CanWrite;
    ControlledArrival(s, e, c);
    ControllerKnown(s, e.socket);
    MidBase(s);
    ForwardActs(s, e.socket, e.data.kind, c);
  }

  lemma ControllerKnown(s: State, socket: Socket)
    requires Mid(s) && CanWrite(s, socket)
    ensures FindViewer(s.viewers, socket).Some? && socket in s.attachments && s.attachments[socket].ViewerAttachment?
    ensures !s.record.state.Closed?
  {
    assert Known(s.attachments, FindViewer(s.viewers, socket).value);
  }

  /** Between s and t one act was noted, the forwarding of a frame. */
  predicate Forwarded(s: State, t: State) {
    |Acts(t.log)| == |Acts(s.log)| + 1 && Acts(t.log)[|Acts(s.log)|].StdinForwarded?
  }

  /** A frame is forwarded if and only if it is stdin from the viewer in control, in time and in size. */
  lemma ForwardedExactly(s: State, e: Event, ok: Oracle)
    requires Inv(s) && Enabled(s, e)
    ensures Forwarded(s, Step(s, e, ok)) <==> MayForward(s, e)
  {
    hide Acts, Inv, Mid, Enabled, CanWrite, FindViewer, Handle, Settle;
    var acts := StepActs(s, e, ok);
    assert acts != [] ==> (Acts(s.log) + acts)[|Acts(s.log)|] == acts[0];
    if MayForward(s, e) {
      var c := Ctx(e.now, ok);
      var p := s.(clock := e.now);
      TickKeeps(s, e);
      InvMid(p);
      LaterForward(s, e);
      ForwardHandled(p, e, c);
      SettleSilent(Handle(p, e, c), c);
    }
  }

  lemma LaterForward(s: State, e: Event)
    requires MayForward(s, e)
    ensures MayForward(s.(clock := e.now), e)
  {}

  // ---------------------------------------------------------------- whole runs

  /** Some event of the run caused the act. */
  ghost predicate Traced(start: Time, events: seq<Event>, ok: Oracle, o: Observation) {
    exists n :: 0 <= n < |events| && Caused(Run(Start(start), events[..n], ok), events[n], o)
  }

  lemma {:induction false} RunActs(start: Time, events: seq<Event>, ok: Oracle, o: Observation)
    requires 0 < start && EnabledRun(Start(start), events, ok) && o in Acts(Run(Start(start), events, ok).log)
    ensures Traced(start, events, ok, o)
    decreases |events|
  {
    hide Acts, Step, Inv, Covered, Live, NoRestart, Enabled, Caused;
    if events == [] { NoActs(start); }
    else {
      var k := |events| - 1;
      var before := events[..k];
      RunKeeps(start, before, ok);
      var acts := StepActs(Run(Start(start), before, ok), events[k], ok);
      if o !in acts {
        RunActs(start, before, ok, o);
        var n :| 0 <= n < |before| && Caused(Run(Start(start), before[..n], ok), before[n], o);
        assert before[..n] == events[..n];
      }
    }
  }

  lemma NoActs(start: Time)
    ensures Acts(Start(start).log) == []
  {}

  /**
   The chain of authority behind every stdin frame that a run ever forwarded. The viewer that
   sent it asked for control at i; the host approved at j, under the same generation, within
   the request's timeout, and for 60 to 1800 seconds; nothing in between ended the request or
   the grant; lease and session had not run out; and the session allows control. Each of the
   three came in a message from the socket it is noted with: the request and the frame from a
   connected viewer of that id, the approval from the host (`Caused`).
   */
  lemma EveryForwardAuthorized(start: Time, events: seq<Event>, ok: Oracle, k: nat) returns (i: nat, j: nat, until: Time)
    requires 0 < start && EnabledRun(Start(start), events, ok)
    requires k < |Run(Start(start), events, ok).log| && Run(Start(start), events, ok).log[k].StdinForwarded?
    ensures var log := Run(Start(start), events, ok).log;
            var frame := log[k];
            var init := LastInit(log[..k]);
            && init.Some? && init.value.allowControl && frame.at < init.value.expiresAt
            && GrantAt(log, i, j, k, frame.viewerId, frame.generation, until) && frame.at < until
            && Traced(start, events, ok, log[i]) && Traced(start, events, ok, log[j]) && Traced(start, events, ok, frame)
  {
    hide Traced, Inv, Covered, Live, NoRestart, Run;
    i, j, until := ForwardGranted(start, events, ok, k);
    var log := Run(Start(start), events, ok).log;
    ActsHave(log, i);
    ActsHave(log, j);
    ActsHave(log, k);
    RunActs(start, events, ok, log[i]);
    RunActs(start, events, ok, log[j]);
    RunActs(start, events, ok, log[k]);
  }
}
