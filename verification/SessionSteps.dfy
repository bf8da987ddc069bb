/** Every handler keeps the session invariant. */
module SessionSteps {
  import opened Prelude
  import opened SessionModel
  import opened SessionInvariants

  /** The invariant in the middle of a handler, where broadcasts may still be owed. */
  ghost predicate Mid(s: State) {
    Base(s) && Linked(s) && Saved(s) && (s.host.Some? ==> s.hostConnected)
  }

  /** From s to t a handler kept the invariant, the clock, and the connections control rests on. */
  ghost predicate Moves(s: State, t: State) {
    && Mid(t)
    && t.clock == s.clock
    && LastInit(t.log) == LastInit(s.log)
    && (Live(s) ==> Live(t))
    && (Covered(s) ==> Covered(t))
  }

  lemma MovesTransitive(s: State, t: State, u: State)
    requires Moves(s, t) && Moves(t, u)
    ensures Moves(s, u)
  {}

  lemma MovesMid(s: State, t: State)
    requires Moves(s, t)
    ensures Mid(t) && t.clock == s.clock
  {}

  lemma InvMid(s: State)
    requires Inv(s)
    ensures Mid(s)
  {}

  lemma MidBase(s: State)
    requires Mid(s)
    ensures Base(s) && RecordShape(s.record) && Moves(s, s)
  {}

  /** While a host is connected, nothing that guards it is overdue. */
  ghost predicate Timely(s: State, now: Time) {
    s.hostConnected ==>
      && now < s.record.sessionExpiresAt
      && (s.record.pendingRequestExpiresAt.Some? ==> now < s.record.pendingRequestExpiresAt.value)
      && (s.record.controlLeaseExpiresAt.Some? ==> now < s.record.controlLeaseExpiresAt.value)
  }

  lemma LossyMoves(s: State, t: State, now: Time)
    requires s.clock == now && Mid(s) && Lossy(s, t)
    ensures Moves(s, t) && (Timely(s, now) ==> Timely(t, now))
  {}

  /** The renewal never extends a session: its expiry is already the maximum. */
  lemma TouchSessionIdle(s: State, now: Time)
    requires s.clock == now && RecordShape(s.record)
    ensures TouchSession(s, now) == s
  {}

  /** A renewal at the end of a handler changes nothing. */
  lemma TouchMoves(s: State, t: State, now: Time)
    requires s.clock == now && Moves(s, t)
    ensures TouchSession(t, now) == t
  {
    hide Base, Moves;
    MovesMid(s, t);
    MidBase(t);
    TouchSessionIdle(t, now);
  }

  // ---------------------------------------------------------------- ending

  lemma CloseSessionKeeps(s: State, reason: string, now: Time)
    requires s.clock == now && Base(s) && Linked(s)
    ensures Base(CloseSession(s, reason, now)) && Linked(CloseSession(s, reason, now))
    ensures Live(CloseSession(s, reason, now))
    ensures LastInit(CloseSession(s, reason, now).log) == LastInit(s.log)
  {
    if !s.record.state.Closed? {
      HistoryAppend(s, CloseSession(s, reason, now), SessionStopped(now));
    }
  }

  lemma EndSharingKeeps(s: State, reason: string, now: Time)
    requires s.clock == now && Base(s) && Linked(s)
    ensures var t := EndSharing(s, reason, now);
            && Base(t) && Linked(t) && Live(t) && LastInit(t.log) == LastInit(s.log)
            && (Covered(s) && !s.record.state.Closed? ==> Covered(t))
  {
    CloseSessionKeeps(s, reason, now);
  }

  lemma CloseSocketKeeps(s: State, socket: Socket, code: nat)
    requires Base(s)
    ensures Base(CloseSocket(s, socket, code))
    ensures LastInit(CloseSocket(s, socket, code).log) == LastInit(s.log)
  {
    ObserveKeeps(s, SocketClosed(socket, code));
  }

  /** Once the state is terminal, finishing leaves no host; only a failing host send revives it. */
  lemma FinishSharingKeeps(s: State, c: Ctx)
    requires s.clock == c.now && Base(s) && (s.record.state.Ended? || s.record.state.Closed?)
    ensures var t := FinishSharing(s, c);
            && Base(t) && Linked(t) && t.host.None? && t.clock == s.clock
            && (Saved(s) ==> Saved(t)) && Live(t) && (Covered(s) ==> Covered(t))
            && t.attachments == s.attachments && t.issued == s.issued && LastInit(t.log) == LastInit(s.log)
  {
    hide AllAuthorized, GrantTraced, RequestTraced, Injective, AllIssued, RequestsDistinct, BroadcastStatus;
    var u := s.(hostConnected := false, hostTerminalSize := None, hostTerminalProfile := None);
    BroadcastKeeps(u, c);
    var v := BroadcastStatus(u, c);
    if v.host.Some? { CloseSocketKeeps(v, v.host.value, 4000); }
  }

  lemma {:induction false} CloseViewersKeeps(s: State, vs: seq<Viewer>)
    requires Base(s)
    ensures Base(CloseViewers(s, vs)) && LastInit(CloseViewers(s, vs).log) == LastInit(s.log)
    ensures CloseViewers(s, vs) == s.(log := CloseViewers(s, vs).log)
    decreases |vs|
  {
    if vs != [] {
      CloseSocketKeeps(s, vs[0].socket, 4000);
      CloseViewersKeeps(CloseSocket(s, vs[0].socket, 4000), vs[1..]);
    }
  }

  lemma FinishClosedKeeps(s: State, c: Ctx)
    requires s.clock == c.now && Base(s) && s.record.state.Closed?
    ensures var t := FinishClosedSession(s, c);
            && Base(t) && Linked(t) && t.host.None? && t.viewers == [] && t.clock == s.clock
            && (Saved(s) ==> Saved(t)) && Live(t) && (Covered(s) ==> Covered(t))
            && t.attachments == s.attachments && t.issued == s.issued && LastInit(t.log) == LastInit(s.log)
  {
    hide AllAuthorized, GrantTraced, RequestTraced, Injective, AllIssued, RequestsDistinct, BroadcastStatus, CloseViewers;
    var u := s.(hostConnected := false);
    BroadcastKeeps(u, c);
    var v := BroadcastStatus(u, c);
    if v.host.Some? { CloseSocketKeeps(v, v.host.value, 4000); }
    CloseViewersKeeps(CloseHostSocket(v), v.viewers);
  }

  // ---------------------------------------------------------------- advancing

  lemma ExpireKeeps(s: State, now: Time)
    requires s.clock == now && Base(s)
    ensures var t := ExpireControl(ExpireRequest(s, now), now);
            && Base(t) && (Live(s) ==> Live(t)) && (Covered(s) ==> Covered(t)) && NoNewControl(s, t)
            && LastInit(t.log) == LastInit(s.log)
            && t == s.(record := t.record, log := t.log)
            && t.record.state == s.record.state && t.record.sessionExpiresAt == s.record.sessionExpiresAt
            && !Due(t.record.pendingRequestExpiresAt, now) && !Due(t.record.controlLeaseExpiresAt, now)
  {
    var t := ExpireRequest(s, now);
    if t != s { HistoryAppend(s, t, RequestDropped(now)); }
    var u := ExpireControl(t, now);
    if u != t { HistoryAppend(t, u, ControlDropped(now)); }
  }

  lemma AdvanceKeeps(s: State, now: Time)
    requires s.clock == now && Base(s) && Linked(s)
    ensures var (t, changed) := AdvanceRecord(s, now);
            && Base(t) && Linked(t) && (Live(s) ==> Live(t)) && (Covered(s) ==> Covered(t))
            && LastInit(t.log) == LastInit(s.log)
            && (!changed ==> t == s)
            && t.clock == s.clock && t.host == s.host && t.viewers == s.viewers
            && t.attachments == s.attachments && t.issued == s.issued
            && (t.record.state != s.record.state && t.host.Some? ==> t.record.state.Closed? || t.record.state.Ended?)
            && (t.hostConnected ==> s.hostConnected)
            && (!t.record.state.Closed? && !t.record.state.Ended? ==> t.hostConnected == s.hostConnected)
            && Timely(t, now)
  {
    hide AllAuthorized, HasGrant, HasRequest, Injective, AllIssued, RequestsDistinct, AllKnown, OnePerToken, LastInit;
    if Due(Some(s.record.sessionExpiresAt), now) {
      CloseSessionKeeps(s, "session expired", now);
    } else {
      ExpireKeeps(s, now);
      var t := ExpireControl(ExpireRequest(s, now), now);
      if !t.hostConnected && Due(t.record.hostDisconnectDeadline, now) {
        EndSharingKeeps(t, "host disconnected", now);
      }
    }
  }

  lemma AdvanceAndPersistKeeps(s: State, c: Ctx)
    requires s.clock == c.now && Mid(s)
    ensures var t := AdvanceAndPersist(s, c).0;
            Moves(s, t) && Timely(t, c.now) && t.attachments == s.attachments && t.issued == s.issued
  {
    hide AllAuthorized, GrantTraced, RequestTraced, Injective, AllIssued, RequestsDistinct, FinishSharing, FinishClosedSession, AdvanceRecord;
    AdvanceKeeps(s, c.now);
    var (t, changed) := AdvanceRecord(s, c.now);
    if changed {
      var p := Persist(t);
      assert Base(p);
      if p.record.state.Closed? { FinishClosedKeeps(p, c); }
      else if p.record.state.Ended? { FinishSharingKeeps(p, c); }
    }
  }

  lemma BroadcastMoves(s: State, c: Ctx)
    requires s.clock == c.now && Mid(s)
    ensures Moves(s, BroadcastStatus(s, c)) && (Timely(s, c.now) ==> Timely(BroadcastStatus(s, c), c.now))
  {
    BroadcastKeeps(s, c);
    LossyMoves(s, BroadcastStatus(s, c), c.now);
  }

  lemma IgnoredMoves(s: State)
    requires Mid(s)
    ensures Moves(s, SendIgnored(s))
  {
    IgnoredLossy(s);
    LossyMoves(s, SendIgnored(s), s.clock);
  }

  lemma SettleMoves(s: State, c: Ctx)
    requires s.clock == c.now && Mid(s)
    ensures Moves(s, Settle(s, c)) && (Timely(s, c.now) ==> Timely(Settle(s, c), c.now))
  {
    SettleKeeps(s, c);
    LossyMoves(s, Settle(s, c), c.now);
  }

  lemma SendHostMoves(s: State, c: Ctx)
    requires s.clock == c.now && Mid(s)
    ensures Moves(s, SendHost(s, c))
  {
    SendHostKeeps(s, c);
    LossyMoves(s, SendHost(s, c), c.now);
  }

  lemma ObserveMoves(s: State, o: Observation)
    requires Mid(s) && (o.Replied? || o.SocketClosed? || o.SnapshotDelivered?)
    ensures Moves(s, Observe(s, o))
  {
    ObserveKeeps(s, o);
  }

  // ---------------------------------------------------------------- the control protocol

  lemma RecordRequestMoves(s: State, v: Viewer, seconds: nat, now: Time)
    requires Mid(s) && s.clock == now && s.hostConnected && s.record.allowControl
    requires s.record.currentControllerId.None? && s.record.pendingRequest.None?
    requires v in s.viewers && 60 <= seconds <= DEFAULT_CONTROL_LEASE_SECONDS
    ensures Moves(s, RecordRequest(s, v, seconds, now))
  {
    hide AllAuthorized, Injective, AllIssued, RequestsDistinct, AllKnown, OnePerToken;
    var id := v.id;
    var o := ControlRequested(v.socket, id, s.record.generation, now);
    var u := RecordRequest(s, v, seconds, now);
    AllAuthorizedAppend(s.log, o);
    LastInitAppend(s.log, o);
    assert RequestAt(u.log, |s.log|, |u.log|, id, s.record.generation, now + PENDING_REQUEST_TIMEOUT_MS);
    assert HasRequest(u.log, id, s.record.generation, now + PENDING_REQUEST_TIMEOUT_MS);
  }

  /** A request is only recorded for a connected viewer, in a session that allows control, with no rival. */
  lemma RequestControlMoves(s: State, socket: Socket, lease: Option<real>, c: Ctx)
    requires Mid(s) && s.clock == c.now
    ensures Moves(s, RequestControl(s, socket, lease, c))
  {
    if RequestBlocked(s, socket) { BroadcastMoves(s, c); }
    else {
      var viewer := FindViewer(s.viewers, socket).value;
      var seconds := NormalizeLeaseSeconds(lease, DEFAULT_CONTROL_LEASE_SECONDS);
      RecordRequestMoves(s, viewer, seconds, c.now);
      var u := RecordRequest(s, viewer, seconds, c.now);
      SendHostMoves(u, c);
      BroadcastMoves(SendHost(u, c), c);
    }
  }

  lemma RequestMoves(s: State, socket: Socket, lease: Option<real>, c: Ctx)
    requires Mid(s) && s.clock == c.now
    ensures Moves(s, HandleControlRequest(s, socket, lease, c))
  {
    AdvanceAndPersistKeeps(s, c);
    RequestControlMoves(AdvanceAndPersist(s, c).0, socket, lease, c);
  }

  ghost predicate LeaseLength(now: Time, until: Time) {
    now + 60 * 1000 <= until <= now + DEFAULT_CONTROL_LEASE_SECONDS * 1000
  }

  /** Whatever the host asks for, an approved lease runs 60 to 1800 seconds. */
  lemma LeaseUntil(lease: Option<real>, fallback: nat, now: Time)
    requires 60 <= fallback <= DEFAULT_CONTROL_LEASE_SECONDS
    ensures LeaseLength(now, now + NormalizeLeaseSeconds(lease, fallback) * 1000)
  {}

  /** The approval closes the chain: the grant it writes is traced to the request it answers. */
  lemma ApprovalTraced(s: State, socket: Socket, until: Time, now: Time)
    requires Base(s) && s.clock == now && Timely(s, now) && s.hostConnected && s.record.pendingRequest.Some?
    requires LeaseLength(now, until)
    ensures var id := s.record.pendingRequest.value.viewerId;
            var o := ControlApproved(socket, id, s.record.generation, until, now);
            HasGrant(s.log + [o], |s.log| + 1, id, s.record.generation, until)
  {
    var id := s.record.pendingRequest.value.viewerId;
    var generation := s.record.generation;
    var expires := s.record.pendingRequestExpiresAt.value;
    var i :| RequestAt(s.log, i, |s.log|, id, generation, expires);
    var log := s.log + [ControlApproved(socket, id, generation, until, now)];
    assert GrantAt(log, i, |s.log|, |log|, id, generation, until);
  }

  lemma RecordApprovalMoves(s: State, socket: Socket, id: ViewerId, until: Time, now: Time)
    requires Mid(s) && s.clock == now && Timely(s, now)
    requires s.record.pendingRequest.Some? && s.record.pendingRequest.value.viewerId == id
    requires LeaseLength(now, until)
    ensures Moves(s, RecordApproval(s, socket, id, until, now))
  {
    hide AllAuthorized, Injective, AllIssued, RequestsDistinct, AllKnown, OnePerToken, NextAlarm;
    var o := ControlApproved(socket, id, s.record.generation, until, now);
    AllAuthorizedAppend(s.log, o);
    LastInitAppend(s.log, o);
    ApprovalTraced(s, socket, until, now);
    NextAlarmNotLater(RecordApproval(s, socket, id, until, now).record, now);
  }

  lemma ApprovedMoves(s: State, socket: Socket, id: ViewerId, until: Time, c: Ctx)
    requires Mid(s) && s.clock == c.now && Timely(s, c.now)
    requires s.record.pendingRequest.Some? && s.record.pendingRequest.value.viewerId == id
    requires LeaseLength(c.now, until)
    ensures Moves(s, BroadcastStatus(RecordApproval(s, socket, id, until, c.now), c))
  {
    RecordApprovalMoves(s, socket, id, until, c.now);
    var t := RecordApproval(s, socket, id, until, c.now);
    BroadcastMoves(t, c);
    MovesTransitive(s, t, BroadcastStatus(t, c));
  }

  lemma GrantMoves(s: State, socket: Socket, pending: ControlRequest, lease: Option<real>, c: Ctx)
    requires Mid(s) && s.clock == c.now && Timely(s, c.now) && s.record.pendingRequest == Some(pending)
    ensures Moves(s, GrantControl(s, socket, pending, lease, c))
  {
    hide Moves, Live, BroadcastStatus, RecordApproval, NormalizeLeaseSeconds, Covered;
    LeaseUntil(lease, pending.leaseSeconds, c.now);
    ApprovedMoves(s, socket, pending.viewerId, c.now + NormalizeLeaseSeconds(lease, pending.leaseSeconds) * 1000, c);
  }

  lemma ApproveMoves(s: State, socket: Socket, viewerId: Option<ViewerId>, lease: Option<real>, c: Ctx)
    requires Mid(s) && s.clock == c.now && Timely(s, c.now)
    ensures Moves(s, HandleControlApprove(s, socket, viewerId, lease, c))
  {
    if AnswersPending(s, viewerId) { GrantMoves(s, socket, s.record.pendingRequest.value, lease, c); }
  }

  lemma RejectMoves(s: State, viewerId: Option<ViewerId>, c: Ctx)
    requires s.clock == c.now && Mid(s)
    ensures Moves(s, HandleControlReject(s, viewerId, c))
  {
    if AnswersPending(s, viewerId) {
      DropRequestKeeps(s, c.now);
      LossyMoves(s, DropRequest(s, c.now), c.now);
      BroadcastMoves(DropRequest(s, c.now), c);
    }
  }

  lemma RevokeMoves(s: State, c: Ctx)
    requires s.clock == c.now && Mid(s)
    ensures Moves(s, Settle(RevokeControl(s, c.now), c))
  {
    RevokeControlKeeps(s, c.now);
    LossyMoves(s, RevokeControl(s, c.now), c.now);
    SettleMoves(RevokeControl(s, c.now), c);
  }

  // ---------------------------------------------------------------- messages

  /** The frame is forwarded only with a live grant, before the lease and the session run out. */
  lemma ForwardAuthorized(s: State, socket: Socket, now: Time)
    requires s.clock == now && Mid(s) && Timely(s, now) && CanWrite(s, socket)
    ensures var o := StdinForwarded(socket, FindViewer(s.viewers, socket).value.id, s.record.generation, now);
            Authorized(s.log + [o], |s.log|)
  {
    var o := StdinForwarded(socket, FindViewer(s.viewers, socket).value.id, s.record.generation, now);
    var log := s.log + [o];
    assert log[..|s.log|] == s.log;
    var until := s.record.controlLeaseExpiresAt.value;
    var i, j :| GrantAt(s.log, i, j, |s.log|, o.viewerId, o.generation, until);
    assert GrantAt(log, i, j, |s.log|, o.viewerId, o.generation, until);
    assert HasGrant(log, |s.log|, o.viewerId, o.generation, until);
  }

  lemma StdinMoves(s: State, socket: Socket, kind: Option<nat>, c: Ctx)
    requires s.clock == c.now && Mid(s) && Timely(s, c.now)
    ensures Moves(s, HandleViewerBinary(s, socket, kind, c))
  {
    hide Moves, Mid, Timely, SendHost;
    MidBase(s);
    TouchSessionIdle(s, c.now);
    if kind != Some(STDIN) { ObserveMoves(s, SocketClosed(socket, 1003)); }
    else if CanWrite(s, socket) {
      var o := StdinForwarded(socket, FindViewer(s.viewers, socket).value.id, s.record.generation, c.now);
      ForwardMoves(s, socket, c.now);
      MovesMid(s, Observe(s, o));
      SendHostMoves(Observe(s, o), c);
      MovesTransitive(s, Observe(s, o), SendHost(Observe(s, o), c));
    }
  }

  /** Noting the frame keeps everything: it is authorized, and ends nothing. */
  lemma ForwardMoves(s: State, socket: Socket, now: Time)
    requires s.clock == now && Mid(s) && Timely(s, now) && CanWrite(s, socket)
    ensures Moves(s, Observe(s, StdinForwarded(socket, FindViewer(s.viewers, socket).value.id, s.record.generation, now)))
  {
    hide AllAuthorized, Injective, AllIssued, RequestsDistinct, AllKnown, OnePerToken, HasGrant, HasRequest, Authorized;
    var o := StdinForwarded(socket, FindViewer(s.viewers, socket).value.id, s.record.generation, now);
    ForwardAuthorized(s, socket, now);
    AllAuthorizedAppend(s.log, o);
    LastInitAppend(s.log, o);
    GrantAppend(s.log, o, o.viewerId, o.generation, s.record.controlLeaseExpiresAt.value);
  }

  lemma HostBinaryMoves(s: State, socket: Socket, kind: Option<nat>, c: Ctx)
    requires s.clock == c.now && Mid(s)
    ensures Moves(s, HandleHostBinary(s, socket, kind, c))
  {
    TouchSessionIdle(s, c.now);
    if kind != Some(TTY_OUTPUT) { ObserveMoves(s, SocketClosed(socket, 1003)); }
    else if s.host == Some(socket) && s.hostConnected {
      SendViewersKeeps(s, s.viewers, c);
      LossyMoves(s, SendViewers(s, s.viewers, c), c.now);
    }
  }

  lemma SnapshotMoves(s: State, requestId: Option<RequestId>, c: Ctx)
    requires s.clock == c.now && Mid(s)
    ensures Moves(s, DeliverSnapshot(s, requestId, c))
  {
    if requestId.Some? {
      var viewer := FindRequest(s.attachments, s.viewers, requestId.value);
      if viewer.Some? {
        var t := Observe(s, SnapshotDelivered(viewer.value.socket, requestId.value));
        ObserveMoves(s, SnapshotDelivered(viewer.value.socket, requestId.value));
        SendViewerKeeps(t, viewer.value, c);
        LossyMoves(t, SendViewer(t, viewer.value, c), c.now);
      }
    }
  }

  /** Ending the session mid-handler: only the alarm may still be missing when it was closed before. */
  lemma SessionEndMoves(s: State, t: State, reason: string, c: Ctx)
    requires s.clock == c.now && Mid(s)
    requires t == Persist(EndSharing(s, reason, c.now)) || t == SendIgnored(Persist(EndSharing(s, reason, c.now)))
    ensures Mid(FinishSharing(t, c)) && FinishSharing(t, c).clock == s.clock
    ensures LastInit(FinishSharing(t, c).log) == LastInit(s.log) && Live(FinishSharing(t, c))
  {
    hide AllAuthorized, GrantTraced, RequestTraced, Injective, AllIssued, RequestsDistinct, AllKnown, OnePerToken, FinishSharing;
    EndSharingKeeps(s, reason, c.now);
    FinishSharingKeeps(t, c);
  }

  lemma ScheduleMoves(s: State, now: Time)
    requires s.clock == now && Mid(s)
    ensures Moves(s, ScheduleNextAlarm(s, now)) && Covered(ScheduleNextAlarm(s, now))
  {
    NextAlarmNotLater(s.record, now);
  }

  lemma SessionEndFrameMoves(s: State, c: Ctx)
    requires s.clock == c.now && Mid(s)
    ensures Moves(s, ScheduleNextAlarm(FinishSharing(SendIgnored(Persist(EndSharing(s, "host ended", c.now))), c), c.now))
  {
    var t := SendIgnored(Persist(EndSharing(s, "host ended", c.now)));
    SessionEndMoves(s, t, "host ended", c);
    ScheduleMoves(FinishSharing(t, c), c.now);
  }

  lemma EndMoves(s: State, c: Ctx)
    requires s.clock == c.now && Mid(s)
    ensures Moves(s, HandleEnd(s, c))
  {
    var t := Persist(EndSharing(s, "owner stopped sharing", c.now));
    SessionEndMoves(s, t, "owner stopped sharing", c);
    var u := ScheduleNextAlarm(FinishSharing(t, c), c.now);
    ScheduleMoves(FinishSharing(t, c), c.now);
    ObserveMoves(u, Replied(200));
  }

  lemma StatusChangeMoves(s: State, t: State, c: Ctx)
    requires s.clock == c.now && Mid(s)
    requires t == s.(hostTerminalSize := t.hostTerminalSize, hostTerminalProfile := t.hostTerminalProfile)
    ensures Moves(s, TouchSession(BroadcastStatus(t, c), c.now))
  {
    assert Moves(s, t);
    BroadcastMoves(t, c);
    MovesTransitive(s, t, BroadcastStatus(t, c));
    TouchSessionIdle(BroadcastStatus(t, c), c.now);
  }

  lemma HostFrameMoves(s: State, socket: Socket, frame: Frame, c: Ctx)
    requires Mid(s) && s.clock == c.now && Timely(s, c.now)
    ensures Moves(s, HandleHostFrame(s, socket, frame, c))
  {
    hide Mid, Live, Covered, Moves, EndSharing, FinishSharing, NextAlarm, DeliverSnapshot, HandleControlApprove, HandleControlReject,
         RevokeControl, Settle, BroadcastStatus, TouchSession, NormalizeTerminalSize;
    MidBase(s);
    TouchSessionIdle(s, c.now);
    match frame
    case SessionEnd => SessionEndFrameMoves(s, c);
    case Snapshot(requestId) => SnapshotMoves(s, requestId, c);
    case Approve(viewerId, lease) =>
      ApproveMoves(s, socket, viewerId, lease, c);
      TouchMoves(s, HandleControlApprove(s, socket, viewerId, lease, c), c.now);
    case Reject(viewerId) =>
      RejectMoves(s, viewerId, c);
      TouchMoves(s, HandleControlReject(s, viewerId, c), c.now);
    case Revoke =>
      RevokeMoves(s, c);
      TouchMoves(s, Settle(RevokeControl(s, c.now), c), c.now);
    case Size(cols, rows) =>
      StatusChangeMoves(s, s.(hostTerminalSize := NormalizeTerminalSize(cols, rows)), c);
    case Profile(profile) =>
      StatusChangeMoves(s, s.(hostTerminalProfile := profile), c);
    case _ => MidBase(s);
  }

  lemma ViewerFrameMoves(s: State, socket: Socket, frame: Frame, c: Ctx)
    requires Mid(s) && s.clock == c.now
    ensures Moves(s, HandleViewerFrame(s, socket, frame, c))
  {
    hide Mid, Live, Covered, Moves, CanWrite, RevokeControl, Settle, RequestControl, AdvanceAndPersist, TouchSession, SendHost;
    MidBase(s);
    match frame
    case Release => RevokeMoves(s, c);
    case Request(lease) =>
      RequestMoves(s, socket, lease, c);
      TouchMoves(s, HandleControlRequest(s, socket, lease, c), c.now);
    case SizeRequest => SendHostMoves(s, c); TouchMoves(s, SendHost(s, c), c.now);
    case ProfileRequest => SendHostMoves(s, c); TouchMoves(s, SendHost(s, c), c.now);
    case _ => MidBase(s);
  }

  lemma DispatchMoves(s: State, socket: Socket, isHost: bool, data: Data, c: Ctx)
    requires Mid(s) && s.clock == c.now && Timely(s, c.now)
    ensures Moves(s, Dispatch(s, socket, isHost, data, c))
  {
    match data
    case Text(_, frame) =>
      if isHost { HostFrameMoves(s, socket, frame, c); } else { ViewerFrameMoves(s, socket, frame, c); }
    case Binary(_, kind) =>
      if isHost { HostBinaryMoves(s, socket, kind, c); } else { StdinMoves(s, socket, kind, c); }
    case UnsupportedContainer => ObserveMoves(s, SocketClosed(socket, 1003));
  }

  lemma CheckAndDispatchMoves(s: State, socket: Socket, isHost: bool, data: Data, c: Ctx)
    requires Mid(s) && s.clock == c.now && Timely(s, c.now)
    ensures Moves(s, CheckAndDispatch(s, socket, isHost, data, c))
  {
    ObserveMoves(s, SocketClosed(socket, 1009));
    DispatchMoves(s, socket, isHost, data, c);
  }

  lemma MessageMoves(s: State, socket: Socket, data: Data, c: Ctx)
    requires Mid(s) && s.clock == c.now
    ensures Moves(s, HandleMessage(s, socket, data, c))
  {
    hide Moves, Mid, Timely, AdvanceAndPersist, BroadcastStatus, CheckAndDispatch;
    if socket !in s.attachments { ObserveMoves(s, SocketClosed(socket, 1003)); }
    else {
      var (t, advanced) := AdvanceAndPersist(s, c);
      AdvanceAndPersistKeeps(s, c);
      MovesMid(s, t);
      BroadcastMoves(t, c);
      MovesTransitive(s, t, BroadcastStatus(t, c));
      var u := if advanced then BroadcastStatus(t, c) else t;
      MovesMid(s, u);
      CheckAndDispatchMoves(u, socket, s.attachments[socket].HostAttachment?, data, c);
      MovesTransitive(s, u, CheckAndDispatch(u, socket, s.attachments[socket].HostAttachment?, data, c));
    }
  }

  lemma HostCloseMoves(s: State, c: Ctx)
    requires s.clock == c.now && Mid(s) && s.host.Some?
    ensures Moves(s, ScheduleNextAlarm(Settle(ClearHost(s, c.now), c), c.now))
  {
    var t := ClearHost(s, c.now);
    ClearHostKeeps(s, c.now);
    LossyMoves(s, t, c.now);
    SettleMoves(t, c);
    MovesTransitive(s, t, Settle(t, c));
    ScheduleMoves(Settle(t, c), c.now);
    MovesTransitive(s, Settle(t, c), ScheduleNextAlarm(Settle(t, c), c.now));
  }

  lemma ViewerCloseMoves(s: State, socket: Socket, c: Ctx)
    requires s.clock == c.now && Mid(s)
    ensures Moves(s, ScheduleNextAlarm(BroadcastStatus(Settle(RemoveViewer(s, socket, c.now), c), c), c.now))
  {
    var t := RemoveViewer(s, socket, c.now);
    RemoveViewerKeeps(s, socket, c.now);
    LossyMoves(s, t, c.now);
    SettleMoves(t, c);
    MovesTransitive(s, t, Settle(t, c));
    SettledBroadcastMoves(s, Settle(t, c), c);
  }

  lemma SettledBroadcastMoves(s: State, t: State, c: Ctx)
    requires s.clock == c.now && Moves(s, t)
    ensures Moves(s, ScheduleNextAlarm(BroadcastStatus(t, c), c.now))
  {
    BroadcastMoves(t, c);
    var u := BroadcastStatus(t, c);
    MovesTransitive(s, t, u);
    ScheduleMoves(u, c.now);
    MovesTransitive(s, u, ScheduleNextAlarm(u, c.now));
  }

  lemma CloseMoves(s: State, socket: Socket, c: Ctx)
    requires s.clock == c.now && Mid(s)
    ensures Moves(s, HandleClose(s, socket, c))
  {
    if socket in s.attachments {
      if s.attachments[socket].HostAttachment? {
        if s.host == Some(socket) { HostCloseMoves(s, c); }
      } else {
        ViewerCloseMoves(s, socket, c);
      }
    }
  }

  lemma Disarmed(s: State)
    requires Mid(s)
    ensures Mid(s.(alarm := None)) && (Live(s) ==> Live(s.(alarm := None)))
  {
    hide AllAuthorized, GrantTraced, RequestTraced, OnePerToken, Injective, AllIssued, RequestsDistinct, AllKnown;
  }

  lemma AlarmMoves(s: State, c: Ctx)
    requires s.clock == c.now && Mid(s)
    ensures Moves(s, HandleAlarm(s, c))
  {
    hide Base, AdvanceAndPersist, BroadcastStatus, NextAlarm;
    var p := s.(alarm := None);
    Disarmed(s);
    AdvanceAndPersistKeeps(p, c);
    var (t, changed) := AdvanceAndPersist(p, c);
    SettledBroadcastMoves(t, t, c);
    ScheduleMoves(t, c.now);
    BroadcastMoves(t, c);
    ScheduleMoves(BroadcastStatus(t, c), c.now);
  }

  // ---------------------------------------------------------------- accepting sockets

  /** A new host starts a new generation and clears whatever control there was. */
  lemma AttachHostMoves(s: State, socket: Socket, now: Time)
    requires s.clock == now && Mid(s) && socket !in s.attachments
    requires s.record.state.Ready? || s.record.state.Active?
    ensures Moves(s, AttachHost(s, socket, now))
  {
    hide AllAuthorized, HasGrant, HasRequest, Injective, OnePerToken, NextAlarm;
    var t := if s.host.Some? then CloseSocket(s, s.host.value, 4001) else s;
    if s.host.Some? { CloseSocketKeeps(s, s.host.value, 4001); }
    var u := AttachHost(s, socket, now);
    HistoryAppend(t, u, HostAttached(socket, u.record.generation, now));
    NextAlarmNotLater(u.record, now);
  }

  lemma SendHostTimesMoves(s: State, times: nat, c: Ctx)
    requires s.clock == c.now && Mid(s)
    ensures Moves(s, SendHostTimes(s, times, c))
  {
    SendHostTimesKeeps(s, times, c);
    LossyMoves(s, SendHostTimes(s, times, c), c.now);
  }

  /** Everything AcceptHost sends once the host is attached. */
  lemma GreetHostMoves(s: State, c: Ctx)
    requires s.clock == c.now && Mid(s)
    ensures var t := RequestHostTerminalDetails(s, c);
            Moves(s, ScheduleNextAlarm(BroadcastStatus(SendHostTimes(t, |t.viewers|, c), c), c.now))
  {
    var t := RequestHostTerminalDetails(s, c);
    SendHostTimesMoves(s, 2, c);
    SendHostTimesMoves(t, |t.viewers|, c);
    MovesTransitive(s, t, SendHostTimes(t, |t.viewers|, c));
    SettledBroadcastMoves(s, SendHostTimes(t, |t.viewers|, c), c);
  }

  lemma AcceptHostMoves(s: State, socket: Socket, c: Ctx)
    requires s.clock == c.now && Mid(s) && socket !in s.attachments
    requires s.record.state.Ready? || s.record.state.Active?
    ensures Moves(s, AcceptHost(s, socket, c))
  {
    hide Base, Covered, Live, AttachHost, SendHostTimes, BroadcastStatus, NextAlarm;
    var t := SendIgnored(AttachHost(s, socket, c.now));
    AttachHostMoves(s, socket, c.now);
    IgnoredMoves(AttachHost(s, socket, c.now));
    MovesTransitive(s, AttachHost(s, socket, c.now), t);
    GreetHostMoves(t, c);
    MovesTransitive(s, t, AcceptHost(s, socket, c));
  }

  /** Exactly the other connections of the same token are dropped, each closed with code 4001. */
  lemma {:induction false} ReplaceResult(s: State, vs: seq<Viewer>, next: Viewer)
    ensures var t := ReplaceConnections(s, vs, next);
            && t == s.(viewers := t.viewers, log := t.log)
            && (forall w :: w in t.viewers <==>
                  w in s.viewers && forall u | u in vs && u.token == next.token && u.socket != next.socket :: u.socket != w.socket)
    decreases |vs|
  {
    if vs != [] {
      var v := vs[0];
      var t := if v.socket == next.socket || v.token != next.token then s
               else CloseSocket(s.(viewers := DeleteViewer(s.viewers, v.socket)), v.socket, 4001);
      ReplaceResult(t, vs[1..], next);
      assert forall u :: u in vs <==> u == v || u in vs[1..];
    }
  }

  lemma {:induction false} ReplaceHistory(s: State, vs: seq<Viewer>, next: Viewer)
    requires AllAuthorized(s.log) && ControlTraced(s)
    ensures var t := ReplaceConnections(s, vs, next);
            AllAuthorized(t.log) && ControlTraced(t) && LastInit(t.log) == LastInit(s.log)
    decreases |vs|
  {
    if vs != [] {
      var v := vs[0];
      var t := if v.socket == next.socket || v.token != next.token then s
               else CloseSocket(s.(viewers := DeleteViewer(s.viewers, v.socket)), v.socket, 4001);
      if t != s { HistoryAppend(s, t, SocketClosed(v.socket, 4001)); }
      ReplaceHistory(t, vs[1..], next);
    }
  }

  /** A viewer connection replaces every older one of its token and nothing else. */
  lemma AddViewerKeeps(s: State, v: Viewer)
    requires Base(s) && Known(s.attachments, v) && (forall w | w in s.viewers :: w.socket != v.socket)
    ensures var t := AddViewer(s, v);
            && Base(t) && t == s.(viewers := t.viewers, log := t.log)
            && LastInit(t.log) == LastInit(s.log)
            && (Live(s) ==> Live(t))
            && (forall w :: w in t.viewers <==> w == v || (w in s.viewers && w.token != v.token))
  {
    hide AllAuthorized, HasGrant, HasRequest, LastInit, Injective, RequestsDistinct, ReplaceConnections;
    var p := s.(viewers := s.viewers + [v]);
    var t := AddViewer(s, v);
    ReplaceResult(p, p.viewers, v);
    ReplaceHistory(p, p.viewers, v);
    assert forall w | w in s.viewers :: Known(s.attachments, w);
    forall w | w == v || (w in s.viewers && w.token != v.token) ensures w in t.viewers {
      assert w in p.viewers;
      forall u | u in p.viewers && u.token == v.token && u.socket != v.socket ensures u.socket != w.socket {
        assert u in s.viewers && Known(s.attachments, u);
        if w in s.viewers { assert Known(s.attachments, w); }
      }
    }
    forall w | w in t.viewers ensures w == v || (w in s.viewers && w.token != v.token) {
      assert w in p.viewers;
    }
    forall id | Connected(s.viewers, id) ensures Connected(t.viewers, id) {
      var w :| w in s.viewers && w.id == id;
      if w.token == v.token {
        assert Known(s.attachments, w);
        assert v in t.viewers && v.id == id;
      } else { assert w in t.viewers; }
    }
    assert forall w | w in t.viewers :: Known(t.attachments, w);
  }

  lemma ResolveIdentityMoves(s: State, e: Event)
    requires e.ConnectViewer? && s.clock == e.now && Mid(s) && e.freshToken !in s.issued && e.freshId !in s.issued.Values
    requires s.record.state.Ready? || s.record.state.Active?
    ensures var (t, id, token) := ResolveIdentity(s, e);
            && Moves(s, t) && token in t.issued && t.issued[token] == id
            && t.attachments == s.attachments && t.viewers == s.viewers
            && t.record.state == s.record.state && t.host == s.host
  {
    hide AllAuthorized, GrantTraced, RequestTraced, NextAlarm, RequestsDistinct, AllKnown, OnePerToken, Injective,
         AllIssued;
    NextAlarmNotLater(ResolveIdentity(s, e).0.record, e.now);
    FreshIssued(s.attachments, s.record.viewerIdentities, s.issued, e.freshToken, e.freshId);
    if !(e.token.Some? && e.token.value in s.record.viewerIdentities) {
      assert ResolveIdentity(s, e).0.issued == s.issued[e.freshToken := e.freshId];
    }
  }

  /** A fresh pair of token and id can be issued without disturbing the others. */
  lemma FreshIssued(attachments: map<Socket, Attachment>, identities: map<Token, ViewerId>, issued: map<Token, ViewerId>,
                    token: Token, id: ViewerId)
    requires token !in issued && id !in issued.Values
    requires Injective(issued) && AllIssued(attachments, issued) && IdentitiesIssued(identities, issued)
    ensures var more := issued[token := id];
            Injective(more) && AllIssued(attachments, more) && IdentitiesIssued(identities[token := id], more)
  {
    forall t | t in issued ensures issued[t] != id { assert issued[t] in issued.Values; }
  }

  lemma AttachViewerMoves(s: State, e: Event)
    requires e.ConnectViewer? && s.clock == e.now && Mid(s) && Enabled(s, e)
    requires s.record.state.Ready? || s.record.state.Active?
    ensures Moves(s, AttachViewer(s, e))
  {
    hide AddViewer, ResolveIdentity, Base;
    ResolveIdentityMoves(s, e);
    var (t, id, token) := ResolveIdentity(s, e);
    var u := t.(attachments := t.attachments[e.socket := ViewerAttachment(id, token, e.requestId)]);
    RunningInit(t);
    AttachedBase(t, e.socket, ViewerAttachment(id, token, e.requestId));
    AddViewerKeeps(u, Viewer(id, token, e.socket));
  }

  lemma RunningInit(s: State)
    requires Base(s) && (s.record.state.Ready? || s.record.state.Active?)
    ensures LastInit(s.log).Some?
  {}

  /** A new socket can be given a name that was issued, and a request id of its own. */
  lemma AttachedBase(s: State, socket: Socket, a: Attachment)
    requires Base(s) && socket !in s.attachments && LastInit(s.log).Some?
    requires a.ViewerAttachment? && a.viewerToken in s.issued && s.issued[a.viewerToken] == a.viewerId
    requires forall k | k in s.attachments && s.attachments[k].ViewerAttachment? ::
               s.attachments[k].snapshotRequestId != a.snapshotRequestId
    ensures Base(s.(attachments := s.attachments[socket := a]))
    ensures forall w | w in s.viewers :: w.socket != socket
  {
    hide AllAuthorized, GrantTraced, RequestTraced, Injective, OnePerToken, LastInit;
    assert forall w | w in s.viewers :: Known(s.attachments, w);
  }

  lemma GreetViewerMoves(s: State, u: State, c: Ctx)
    requires s.clock == c.now && Mid(s)
    requires u == if s.hostTerminalSize.None? || s.hostTerminalProfile.None?
                  then RequestHostTerminalDetails(s, c) else s
    ensures Moves(s, ScheduleNextAlarm(BroadcastStatus(SendHost(u, c), c), c.now))
  {
    SendHostTimesMoves(s, 2, c);
    SendHostMoves(u, c);
    MovesTransitive(s, u, SendHost(u, c));
    SettledBroadcastMoves(s, SendHost(u, c), c);
  }

  lemma AcceptViewerMoves(s: State, e: Event, c: Ctx)
    requires e.ConnectViewer? && s.clock == c.now == e.now && Mid(s) && Enabled(s, e)
    requires s.record.state.Ready? || s.record.state.Active?
    ensures Moves(s, AcceptViewer(s, e, c))
  {
    hide AttachViewer, Base, Covered, Live, SendHost, SendHostTimes, BroadcastStatus, NextAlarm;
    var t := SendIgnored(AttachViewer(s, e));
    AttachViewerMoves(s, e);
    IgnoredMoves(AttachViewer(s, e));
    MovesTransitive(s, AttachViewer(s, e), t);
    var u := if t.hostTerminalSize.None? || t.hostTerminalProfile.None?
             then RequestHostTerminalDetails(t, c) else t;
    GreetViewerMoves(t, u, c);
    MovesTransitive(s, t, AcceptViewer(s, e, c));
  }

  lemma AcceptMoves(s: State, e: Event, c: Ctx)
    requires Mid(s) && s.clock == c.now == e.now && Enabled(s, e) && (e.ConnectHost? || e.ConnectViewer?)
    ensures Moves(s, Accept(s, e, c))
  {
    hide Moves, Mid, AdvanceAndPersist, TouchSession, AcceptHost, AcceptViewer;
    AdvanceAndPersistKeeps(s, c);
    var t := AdvanceAndPersist(s, c).0;
    MovesMid(s, t);
    if t.record.state.Closed? || t.record.state.Ended? || t.record.state.Idle? {
      ObserveMoves(t, Replied(410));
      MovesTransitive(s, t, Observe(t, Replied(410)));
    } else {
      TouchMoves(s, t, c.now);
      if e.ConnectHost? { AcceptHostMoves(t, e.socket, c); } else { AcceptViewerMoves(t, e, c); }
      var v := if e.ConnectHost? then AcceptHost(t, e.socket, c) else AcceptViewer(t, e, c);
      MovesMid(t, v);
      ObserveMoves(v, Replied(101));
      MovesTransitive(t, v, Observe(v, Replied(101)));
      MovesTransitive(s, t, Observe(v, Replied(101)));
    }
  }

  // ---------------------------------------------------------------- init, end, restart

  /** A successful /init starts from an empty session: no host, no control, the asked expiry. */
  lemma AcceptedInitMoves(s: State, allowControl: bool, until: Time, now: Time)
    requires s.clock == now && Mid(s) && 0 < now < until && (s.record.state.Idle? || s.record.state.Closed?)
    ensures var r := InitialRecord(Ready, now).(
                       allowControl := allowControl, maxExpiresAt := until, sessionExpiresAt := until);
            var t := UpdateRecord(Observe(s, Initialized(now, until, allowControl)), r, now);
            Mid(t) && Live(t) && Covered(t)
  {
    hide AllAuthorized, NextAlarm, Injective, AllIssued, RequestsDistinct, AllKnown, OnePerToken;
    var r := InitialRecord(Ready, now).(
      allowControl := allowControl, maxExpiresAt := until, sessionExpiresAt := until);
    AllAuthorizedAppend(s.log, Initialized(now, until, allowControl));
    LastInitAppend(s.log, Initialized(now, until, allowControl));
    NextAlarmNotLater(r, now);
  }

  lemma InitKeeps(s: State, allowControl: bool, expiresAt: Expiry, now: Time)
    requires s.clock == now && Mid(s) && 0 < now
    ensures var t := HandleInit(s, allowControl, expiresAt, now);
            && Mid(t) && t.clock == s.clock && (Live(s) ==> Live(t)) && (Covered(s) ==> Covered(t))
  {
    hide Mid, Live, Covered, LastInit, UpdateRecord;
    if !s.record.state.Idle? && !s.record.state.Closed? { ObserveMoves(s, Replied(409)); }
    else if !ExpiryAccepted(expiresAt, now) { ObserveMoves(s, Replied(400)); }
    else {
      var until := ExpiryTime(expiresAt, now);
      var r := InitialRecord(Ready, now).(
        allowControl := allowControl, maxExpiresAt := until, sessionExpiresAt := until);
      var t := UpdateRecord(Observe(s, Initialized(now, until, allowControl)), r, now);
      AcceptedInitMoves(s, allowControl, until, now);
      UpdateClock(Observe(s, Initialized(now, until, allowControl)), r, now);
      ObserveMoves(t, Replied(200));
    }
  }

  lemma UpdateClock(s: State, r: SessionRecord, now: Time)
    ensures UpdateRecord(s, r, now).clock == s.clock
  {}

  /** Reattached sockets keep the names, the record and its history. */
  ghost predicate Restoring(s: State, t: State) {
    && Base(t)
    && t.record == s.record && t.stored == s.stored && t.attachments == s.attachments
    && t.clock == s.clock && t.alarm == s.alarm && t.sends == s.sends
    && LastInit(t.log) == LastInit(s.log)
    && (t.hostConnected <==> t.host.Some?)
  }

  lemma RestoreSocketKeeps(s: State, socket: Socket)
    requires Base(s) && (s.hostConnected <==> s.host.Some?)
    requires forall v | v in s.viewers :: v.socket != socket
    ensures var t := RestoreSocket(s, socket);
            && Restoring(s, t)
            && (forall v | v in t.viewers :: v in s.viewers || v.socket == socket)
  {
    if socket !in s.attachments { CloseSocketKeeps(s, socket, 1003); }
    else {
      match s.attachments[socket]
      case HostAttachment => CloseSocketKeeps(s, socket, 4001);
      case ViewerAttachment(id, token, _) => AddViewerKeeps(s, Viewer(id, token, socket));
    }
  }

  lemma RestoringTransitive(s: State, t: State, u: State)
    requires Restoring(s, t) && Restoring(t, u)
    ensures Restoring(s, u)
  {}

  lemma {:induction false} RestoreSocketsKeeps(s: State, open: seq<Socket>)
    requires Base(s) && (s.hostConnected <==> s.host.Some?)
    requires forall i, j | 0 <= i < j < |open| :: open[i] != open[j]
    requires forall v | v in s.viewers :: v.socket !in open
    ensures Restoring(s, RestoreSockets(s, open))
    decreases |open|
  {
    if open != [] {
      var t := RestoreSocket(s, open[0]);
      RestoreSocketKeeps(s, open[0]);
      forall v | v in t.viewers ensures v.socket !in open[1..] {
        if v in s.viewers { assert v.socket !in open; }
      }
      RestoreSocketsKeeps(t, open[1..]);
      RestoringTransitive(s, t, RestoreSockets(t, open[1..]));
    }
  }

  lemma ReconcileKeeps(s: State, now: Time)
    requires s.clock == now && Base(s) && 0 < now
    requires s.record.state.Active? || s.record.state.Ready? || s.record.state.Idle?
    requires s.host.Some? ==> s.hostConnected
    requires Saved(s)
    ensures var (t, changed) := Reconcile(s, now);
            && Base(t) && Linked(t) && (t.host.Some? ==> t.hostConnected) && t.clock == s.clock
            && LastInit(t.log) == LastInit(s.log)
            && (changed || (Saved(t) && t.record == s.record && t.alarm == s.alarm))
  {
    if s.viewers != [] { assert Known(s.attachments, s.viewers[0]); }
    if !s.hostConnected && s.record.state.Active? {
      HistoryAppend(s, Reconcile(s, now).0, HostCleared(now));
    }
  }

  lemma ReconcileAndSaveKeeps(s: State, now: Time)
    requires s.clock == now && Base(s) && 0 < now
    requires s.record.state.Active? || s.record.state.Ready? || s.record.state.Idle?
    requires s.host.Some? ==> s.hostConnected
    requires Saved(s)
    ensures var (t, changed) := Reconcile(s, now);
            var u := if changed then ScheduleNextAlarm(Persist(t), now) else t;
            && Mid(u) && u.clock == s.clock && LastInit(u.log) == LastInit(s.log) && (Covered(s) ==> Covered(u))
  {
    ReconcileKeeps(s, now);
    var (t, changed) := Reconcile(s, now);
    if changed { ScheduleMoves(Persist(t), now); }
  }

  lemma FreshKeeps(s: State, now: Time)
    requires s.clock == now && Inv(s)
    ensures var f := FreshInstance(s, now);
            Base(f) && Saved(f) && LastInit(f.log) == LastInit(s.log) && (Covered(s) ==> Covered(f))
  {
    hide AllAuthorized, Injective, AllIssued, RequestsDistinct, HasGrant, HasRequest;
  }

  /** A restart from the stored record re-establishes the invariant, whatever sockets survived. */
  lemma RestoreKeeps(s: State, open: seq<Socket>, c: Ctx)
    requires s.clock == c.now && Inv(s) && 0 < c.now
    requires forall i, j | 0 <= i < j < |open| :: open[i] != open[j]
    ensures var t := HandleRestore(s, open, c);
            && Mid(t) && t.clock == s.clock && LastInit(t.log) == LastInit(s.log) && (Covered(s) ==> Covered(t))
  {
    hide Moves, Live, FinishClosedSession, FinishSharing, SendHostTimes, RestoreSockets, Reconcile, AllAuthorized;
    var f := FreshInstance(s, c.now);
    FreshKeeps(s, c.now);
    RestoreSocketsKeeps(f, open);
    var t := RestoreSockets(f, open);
    if t.record.state.Closed? { FinishClosedKeeps(t, c); }
    else if t.record.state.Ended? { FinishSharingKeeps(t, c); }
    else {
      SendHostTimesKeeps(t, 2, c);
      var u := if t.hostConnected then RequestHostTerminalDetails(t, c) else t;
      ReconcileAndSaveKeeps(u, c.now);
    }
  }

  // ---------------------------------------------------------------- every event

  lemma HandleKeeps(s: State, e: Event, c: Ctx)
    requires Inv(s) && Enabled(s, e) && s.clock == c.now == e.now
    ensures var t := Handle(s, e, c);
            && Mid(t) && t.clock == s.clock
            && (!e.Restore? && Live(s) ==> Live(t))
            && (Covered(s) ==> Covered(t))
            && (!e.Init? ==> LastInit(t.log) == LastInit(s.log))
  {
    hide Base, Live, Covered, LastInit, HandleInit, HandleEnd, Accept, HandleAlarm, HandleMessage, HandleClose, HandleRestore, AdvanceAndPersist;
    match e
    case Init(now, allowControl, expiresAt) => InitKeeps(s, allowControl, expiresAt, now);
    case End(_) => EndMoves(s, c);
    case Status(_) =>
      AdvanceAndPersistKeeps(s, c);
      ObserveMoves(AdvanceAndPersist(s, c).0, Replied(200));
    case ConnectHost(_, _) => AcceptMoves(s, e, c);
    case ConnectViewer(_, _, _, _, _, _) => AcceptMoves(s, e, c);
    case Alarm(_) => AlarmMoves(s, c);
    case Message(_, socket, data) => MessageMoves(s, socket, data, c);
    case Close(_, socket) => CloseMoves(s, socket, c);
    case Restore(_, open) => RestoreKeeps(s, open, c);
  }

  lemma TickKeeps(s: State, e: Event)
    requires Inv(s) && Enabled(s, e)
    ensures var t := s.(clock := e.now);
            Inv(t) && Enabled(t, e) && (Live(s) ==> Live(t)) && (Covered(s) ==> Covered(t))
  {}

  /** Every event of every kind keeps the invariant, whatever sends fail. */
  lemma StepKeeps(s: State, e: Event, ok: Oracle)
    requires Inv(s) && Enabled(s, e)
    ensures var t := Step(s, e, ok);
            && Inv(t) && t.clock == e.now
            && (!e.Restore? && Live(s) ==> Live(t))
            && (Covered(s) ==> Covered(t))
            && (!e.Init? ==> LastInit(t.log) == LastInit(s.log))
  {
    hide Base, Handle, Settle, Live, Covered, LastInit;
    var c := Ctx(e.now, ok);
    TickKeeps(s, e);
    HandleKeeps(s.(clock := e.now), e, c);
    SettleMoves(Handle(s.(clock := e.now), e, c), c);
  }
}
