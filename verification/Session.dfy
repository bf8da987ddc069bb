/**
 The session object itself. Its methods update fields step by step; each is proved equal
 to the transition of the same name in `SessionModel`, so what is proved about every run
 of the transitions holds of the object.
 */
module Session {
  import opened Prelude
  import M = SessionModel
  import I = SessionInvariants
  import Steps = SessionSteps

  class TTYSession {
    const ok: M.Oracle
    var host: Option<M.Socket>
    var hostConnected: bool
    var hostTerminalSize: Option<M.TerminalSize>
    var hostTerminalProfile: Option<M.TerminalProfile>
    var viewers: seq<M.Viewer>
    var record: M.SessionRecord
    var stored: Option<M.SessionRecord>
    var alarm: Option<M.Time>
    var attachments: map<M.Socket, M.Attachment>
    var sends: nat
    var owed: nat
    ghost var issued: map<M.Token, M.ViewerId>
    ghost var clock: M.Time
    ghost var log: seq<M.Observation>

    ghost function Abs(): M.State
      reads this
    {
      M.State(host, hostConnected, hostTerminalSize, hostTerminalProfile, viewers, record, stored, alarm,
              attachments, issued, clock, sends, owed, log)
    }

    ghost predicate Valid()
      reads this
    {
      I.Inv(Abs())
    }

    constructor (now: M.Time, ok: M.Oracle)
      requires 0 < now
      ensures Abs() == M.Start(now) && this.ok == ok
      ensures Valid()
    {
      this.ok := ok;
      host, hostConnected, hostTerminalSize, hostTerminalProfile := None, false, None, None;
      viewers, record, stored, alarm := [], M.InitialRecord(M.Idle, now), None, None;
      attachments, sends, owed := map[], 0, 0;
      issued, clock, log := map[], now, [];
    }

    // ---------------------------------------------------------------- storage and alarm

    method CloseSocket(socket: M.Socket, code: nat)
      modifies this
      ensures Abs() == M.CloseSocket(old(Abs()), socket, code)
    {
      log := log + [M.SocketClosed(socket, code)];
    }

    method PersistRecord()
      modifies this
      ensures Abs() == M.Persist(old(Abs()))
    {
      stored := Some(record);
    }

    method ScheduleNextAlarm(now: M.Time)
      modifies this
      ensures Abs() == M.ScheduleNextAlarm(old(Abs()), now)
    {
      if record.state.Closed? {
        alarm := None;
        return;
      }
      alarm := M.Future(record.controlLeaseExpiresAt, now);
      alarm := M.Earlier(M.Future(record.pendingRequestExpiresAt, now), alarm);
      alarm := M.Earlier(M.Future(record.hostDisconnectDeadline, now), alarm);
      alarm := M.Earlier(M.Future(Some(record.sessionExpiresAt), now), alarm);
    }

    method UpdateRecord(r: M.SessionRecord, now: M.Time)
      modifies this
      ensures Abs() == M.UpdateRecord(old(Abs()), r, now)
    {
      record := r;
      PersistRecord();
      ScheduleNextAlarm(now);
    }

    method TouchSession(now: M.Time)
      modifies this
      ensures Abs() == M.TouchSession(old(Abs()), now)
    {
      if record.state.Closed? { return; }
      var remaining := record.sessionExpiresAt - now;
      if remaining > M.SESSION_RENEW_THRESHOLD_MS { return; }
      var next := Min(now + M.SESSION_IDLE_TTL_MS, record.maxExpiresAt);
      if next <= record.sessionExpiresAt { return; }
      UpdateRecord(record.(sessionExpiresAt := next), now);
    }

    // ---------------------------------------------------------------- losing connections

    method ResetTerminal()
      modifies this
      ensures Abs() == old(Abs()).(hostTerminalSize := None, hostTerminalProfile := None)
    {
      hostTerminalSize, hostTerminalProfile := None, None;
    }

    method UnseatHost(now: M.Time)
      modifies this
      ensures Abs() == M.UnseatHost(old(Abs()), now)
    {
      host, hostConnected := None, false;
      ResetTerminal();
      log := log + [M.HostCleared(now)];
    }

    method ClearHost(now: M.Time)
      modifies this
      ensures Abs() == M.ClearHost(old(Abs()), now)
    {
      UnseatHost(now);
      UpdateRecord(M.WithoutControl(record).(
        hostDisconnectDeadline := Some(now + M.HOST_DISCONNECT_GRACE_MS), state := M.Ready), now);
      owed := owed + 1;
    }

    method RevokeControl(now: M.Time)
      modifies this
      ensures Abs() == M.RevokeControl(old(Abs()), now)
    {
      if record.currentControllerId.None? { return; }
      log := log + [M.ControlDropped(now)];
      UpdateRecord(record.(currentControllerId := None, controlLeaseExpiresAt := None), now);
      owed := owed + 1;
    }

    method DropRequest(now: M.Time)
      modifies this
      ensures Abs() == M.DropRequest(old(Abs()), now)
    {
      log := log + [M.RequestDropped(now)];
      UpdateRecord(record.(pendingRequest := None, pendingRequestExpiresAt := None), now);
    }

    method RemoveViewer(socket: M.Socket, now: M.Time)
      modifies this
      ensures Abs() == M.RemoveViewer(old(Abs()), socket, now)
    {
      hide M.RevokeControl, M.DropRequest, M.UpdateRecord, M.FindViewer, M.DeleteViewer;
      var viewer := M.FindViewer(viewers, socket);
      viewers := M.DeleteViewer(viewers, socket);
      if viewer.Some? && record.currentControllerId == Some(viewer.value.id) {
        RevokeControl(now);
      }
      if viewer.None? {
        if record.pendingRequest.None? { UpdateRecord(record, now); }
        return;
      }
      if record.pendingRequest.Some? && record.pendingRequest.value.viewerId == viewer.value.id {
        DropRequest(now);
      }
    }

    // ---------------------------------------------------------------- sending

    /** sendSocket: the next send of the session, whose fate is fixed by its number. */
    method SendSocket() returns (sent: bool)
      modifies this
      ensures Abs() == M.SendIgnored(old(Abs())) && sent == ok(old(sends))
    {
      sent := ok(sends);
      sends := sends + 1;
    }

    method SendHost(now: M.Time)
      modifies this
      ensures Abs() == M.SendHost(old(Abs()), M.Ctx(now, ok))
    {
      if host.None? { return; }
      var sent := SendSocket();
      if !sent { ClearHost(now); }
    }

    method SendHostTimes(times: nat, now: M.Time)
      modifies this
      ensures Abs() == M.SendHostTimes(old(Abs()), times, M.Ctx(now, ok))
    {
      ghost var c := M.Ctx(now, ok);
      for i := 0 to times
        invariant M.SendHostTimes(Abs(), times - i, c) == M.SendHostTimes(old(Abs()), times, c)
      {
        SendHost(now);
      }
    }

    method RequestHostTerminalDetails(now: M.Time)
      modifies this
      ensures Abs() == M.RequestHostTerminalDetails(old(Abs()), M.Ctx(now, ok))
    {
      SendHostTimes(2, now);
    }

    method SendViewer(v: M.Viewer, now: M.Time)
      modifies this
      ensures Abs() == M.SendViewer(old(Abs()), v, M.Ctx(now, ok))
    {
      var sent := SendSocket();
      if !sent { RemoveViewer(v.socket, now); }
    }

    /** One message to each of the connections that were there when it began. */
    method SendViewers(vs: seq<M.Viewer>, now: M.Time)
      modifies this
      ensures Abs() == M.SendViewers(old(Abs()), vs, M.Ctx(now, ok))
    {
      ghost var c := M.Ctx(now, ok);
      for i := 0 to |vs|
        invariant M.SendViewers(Abs(), vs[i..], c) == M.SendViewers(old(Abs()), vs, c)
      {
        assert vs[i..][1..] == vs[i + 1..];
        SendViewer(vs[i], now);
      }
    }

    method BroadcastStatus(now: M.Time)
      modifies this
      ensures Abs() == M.BroadcastStatus(old(Abs()), M.Ctx(now, ok))
    {
      SendHost(now);
      SendViewers(viewers, now);
    }

    /** Runs the continuations that un-awaited clean-ups left behind, until none is left. */
    method Settle(now: M.Time)
      modifies this
      ensures Abs() == M.Settle(old(Abs()), M.Ctx(now, ok))
    {
      ghost var c := M.Ctx(now, ok);
      while owed > 0
        invariant M.Settle(Abs(), c) == M.Settle(old(Abs()), c)
        decreases M.Sockets(Abs()), owed
      {
        ghost var before := Abs();
        owed := owed - 1;
        M.BroadcastSpends(Abs(), c);
        BroadcastStatus(now);
        assert M.Settle(before, c) == M.Settle(Abs(), c);
      }
    }

    // ---------------------------------------------------------------- ending and expiry

    method CloseSession(reason: string, now: M.Time)
      modifies this
      ensures Abs() == M.CloseSession(old(Abs()), reason, now)
    {
      if record.state.Closed? { return; }
      hostConnected := false;
      record := M.WithoutControl(record).(
        state := M.Closed, endReason := Some(reason), hostDisconnectDeadline := None);
      log := log + [M.SessionStopped(now)];
    }

    method EndSharing(reason: string, now: M.Time)
      modifies this
      ensures Abs() == M.EndSharing(old(Abs()), reason, now)
    {
      CloseSession(reason, now);
      record := record.(state := M.Ended);
    }

    method CloseHostSocket()
      modifies this
      ensures Abs() == M.CloseHostSocket(old(Abs()))
    {
      if host.Some? { CloseSocket(host.value, 4000); }
      host := None;
    }

    method FinishSharing(now: M.Time)
      modifies this
      ensures Abs() == M.FinishSharing(old(Abs()), M.Ctx(now, ok))
    {
      hostConnected := false;
      ResetTerminal();
      BroadcastStatus(now);
      CloseHostSocket();
    }

    method CloseViewers(vs: seq<M.Viewer>)
      modifies this
      ensures Abs() == M.CloseViewers(old(Abs()), vs)
    {
      for i := 0 to |vs|
        invariant M.CloseViewers(Abs(), vs[i..]) == M.CloseViewers(old(Abs()), vs)
      {
        assert vs[i..][1..] == vs[i + 1..];
        CloseSocket(vs[i].socket, 4000);
      }
    }

    method FinishClosedSession(now: M.Time)
      modifies this
      ensures Abs() == M.FinishClosedSession(old(Abs()), M.Ctx(now, ok))
    {
      hide M.BroadcastStatus, M.CloseHostSocket, M.CloseViewers;
      hostConnected := false;
      BroadcastStatus(now);
      CloseHostSocket();
      CloseViewers(viewers);
      viewers := [];
      ResetTerminal();
    }

    method ExpireRequest(now: M.Time)
      requires M.Due(record.pendingRequestExpiresAt, now)
      modifies this
      ensures Abs() == M.ExpireRequest(old(Abs()), now)
    {
      record := record.(pendingRequest := None, pendingRequestExpiresAt := None);
      log := log + [M.RequestDropped(now)];
    }

    method ExpireControl(now: M.Time)
      requires M.Due(record.controlLeaseExpiresAt, now)
      modifies this
      ensures Abs() == M.ExpireControl(old(Abs()), now)
    {
      record := record.(currentControllerId := None, controlLeaseExpiresAt := None);
      log := log + [M.ControlDropped(now)];
    }

    /** The state follows the connections, as long as the session is on. */
    method FollowHost() returns (changed: bool)
      modifies this
      ensures var s := old(Abs());
              Abs() == s.(record := s.record.(state := M.RunningState(s)))
              && changed == (M.RunningState(s) != s.record.state)
    {
      changed := false;
      if record.state.Closed? || record.state.Ended? { return; }
      if hostConnected {
        if !record.state.Active? {
          record := record.(state := M.Active);
          changed := true;
        }
      } else if !record.state.Idle? {
        if !record.state.Ready? {
          record := record.(state := M.Ready);
          changed := true;
        }
      }
    }

    method AdvanceRecord(now: M.Time) returns (changed: bool)
      modifies this
      ensures (Abs(), changed) == M.AdvanceRecord(old(Abs()), now)
    {
      hide M.CloseSession, M.EndSharing, M.RunningState;
      changed := false;
      if M.Due(Some(record.sessionExpiresAt), now) {
        CloseSession("session expired", now);
        return true;
      }
      if M.Due(record.pendingRequestExpiresAt, now) {
        ExpireRequest(now);
        changed := true;
      }
      if M.Due(record.controlLeaseExpiresAt, now) {
        ExpireControl(now);
        changed := true;
      }
      if !hostConnected && M.Due(record.hostDisconnectDeadline, now) {
        EndSharing("host disconnected", now);
        return true;
      }
      var followed := FollowHost();
      changed := changed || followed;
    }

    method AdvanceRecordAndPersist(now: M.Time) returns (changed: bool)
      modifies this
      ensures (Abs(), changed) == M.AdvanceAndPersist(old(Abs()), M.Ctx(now, ok))
    {
      changed := AdvanceRecord(now);
      if changed {
        PersistRecord();
        if record.state.Closed? {
          FinishClosedSession(now);
        } else if record.state.Ended? {
          FinishSharing(now);
        }
      }
    }

    // ---------------------------------------------------------------- control protocol

    method CanWrite(socket: M.Socket) returns (can: bool)
      ensures can <==> M.CanWrite(Abs(), socket)
    {
      var viewer := M.FindViewer(viewers, socket);
      can := record.state.Active? && hostConnected && viewer.Some?
             && record.currentControllerId == Some(viewer.value.id);
    }

    method HandleControlRequest(socket: M.Socket, lease: Option<real>, now: M.Time)
      modifies this
      ensures Abs() == M.HandleControlRequest(old(Abs()), socket, lease, M.Ctx(now, ok))
    {
      hide M.AdvanceAndPersist, M.NormalizeLeaseSeconds, M.SendHost, M.BroadcastStatus, M.NextAlarm, M.FindViewer;
      var _ := AdvanceRecordAndPersist(now);
      var viewer := M.FindViewer(viewers, socket);
      if !record.allowControl || viewer.None? || !hostConnected
         || record.currentControllerId.Some? || record.pendingRequest.Some?
      {
        BroadcastStatus(now);
        return;
      }
      var seconds := M.NormalizeLeaseSeconds(lease, M.DEFAULT_CONTROL_LEASE_SECONDS);
      log := log + [M.ControlRequested(viewer.value.socket, viewer.value.id, record.generation, now)];
      UpdateRecord(record.(
        pendingRequest := Some(M.ControlRequest(viewer.value.id, seconds)),
        pendingRequestExpiresAt := Some(now + M.PENDING_REQUEST_TIMEOUT_MS)), now);
      SendHost(now);
      BroadcastStatus(now);
    }

    method RecordApproval(socket: M.Socket, id: M.ViewerId, until: M.Time, now: M.Time)
      modifies this
      ensures Abs() == M.RecordApproval(old(Abs()), socket, id, until, now)
    {
      log := log + [M.ControlApproved(socket, id, record.generation, until, now)];
      UpdateRecord(record.(
        currentControllerId := Some(id), controlLeaseExpiresAt := Some(until),
        pendingRequest := None, pendingRequestExpiresAt := None), now);
    }

    method GrantControl(socket: M.Socket, pending: M.ControlRequest, lease: Option<real>, now: M.Time)
      modifies this
      ensures Abs() == M.GrantControl(old(Abs()), socket, pending, lease, M.Ctx(now, ok))
    {
      hide M.NormalizeLeaseSeconds, M.RecordApproval, M.BroadcastStatus;
      RecordApproval(socket, pending.viewerId, now + M.NormalizeLeaseSeconds(lease, pending.leaseSeconds) * 1000, now);
      BroadcastStatus(now);
    }

    method HandleControlApprove(socket: M.Socket, viewerId: Option<M.ViewerId>, lease: Option<real>, now: M.Time)
      modifies this
      ensures Abs() == M.HandleControlApprove(old(Abs()), socket, viewerId, lease, M.Ctx(now, ok))
    {
      if record.pendingRequest.None? || viewerId != Some(record.pendingRequest.value.viewerId) { return; }
      GrantControl(socket, record.pendingRequest.value, lease, now);
    }

    method HandleControlReject(viewerId: Option<M.ViewerId>, now: M.Time)
      modifies this
      ensures Abs() == M.HandleControlReject(old(Abs()), viewerId, M.Ctx(now, ok))
    {
      if record.pendingRequest.None? { return; }
      if viewerId != Some(record.pendingRequest.value.viewerId) { return; }
      DropRequest(now);
      BroadcastStatus(now);
    }

    method HandleControlRevoke(now: M.Time)
      modifies this
      ensures var c := M.Ctx(now, ok); Abs() == M.Settle(M.RevokeControl(old(Abs()), now), c)
    {
      RevokeControl(now);
      Settle(now);
    }

    // ---------------------------------------------------------------- accepting sockets

    method ReplaceViewerConnection(next: M.Viewer)
      modifies this
      ensures Abs() == M.ReplaceConnections(old(Abs()), old(viewers), next)
    {
      var entries := viewers;
      for i := 0 to |entries|
        invariant M.ReplaceConnections(Abs(), entries[i..], next) == M.ReplaceConnections(old(Abs()), entries, next)
      {
        assert entries[i..][1..] == entries[i + 1..];
        var v := entries[i];
        if v.socket != next.socket && v.token == next.token {
          viewers := M.DeleteViewer(viewers, v.socket);
          CloseSocket(v.socket, 4001);
        }
      }
    }

    method AddViewer(v: M.Viewer)
      modifies this
      ensures Abs() == M.AddViewer(old(Abs()), v)
    {
      viewers := viewers + [v];
      ReplaceViewerConnection(v);
    }

    method SeatHost(socket: M.Socket, now: M.Time)
      modifies this
      ensures Abs() == M.SeatHost(old(Abs()), socket, now)
    {
      if host.Some? { CloseSocket(host.value, 4001); }
      ResetTerminal();
      attachments, host, hostConnected := attachments[socket := M.HostAttachment], Some(socket), true;
      log := log + [M.HostAttached(socket, record.generation + 1, now)];
    }

    method AttachHost(socket: M.Socket, now: M.Time)
      modifies this
      ensures Abs() == M.AttachHost(old(Abs()), socket, now)
    {
      SeatHost(socket, now);
      UpdateRecord(M.WithoutControl(record).(
        hostDisconnectDeadline := None, endReason := None,
        generation := record.generation + 1, state := M.Active), now);
    }

    method AcceptHost(socket: M.Socket, now: M.Time)
      modifies this
      ensures Abs() == M.AcceptHost(old(Abs()), socket, M.Ctx(now, ok))
    {
      AttachHost(socket, now);
      var _ := SendSocket();
      RequestHostTerminalDetails(now);
      SendHostTimes(|viewers|, now);
      BroadcastStatus(now);
      ScheduleNextAlarm(now);
    }

    method ResolveViewerIdentity(e: M.Event) returns (id: M.ViewerId, token: M.Token)
      requires e.ConnectViewer?
      modifies this
      ensures (Abs(), id, token) == M.ResolveIdentity(old(Abs()), e)
    {
      if e.token.Some? && e.token.value in record.viewerIdentities {
        return record.viewerIdentities[e.token.value], e.token.value;
      }
      id, token := e.freshId, e.freshToken;
      issued := issued[token := id];
      UpdateRecord(record.(viewerIdentities := record.viewerIdentities[token := id]), e.now);
    }

    method AcceptViewer(e: M.Event)
      requires e.ConnectViewer?
      modifies this
      ensures Abs() == M.AcceptViewer(old(Abs()), e, M.Ctx(e.now, ok))
    {
      var id, token := ResolveViewerIdentity(e);
      attachments := attachments[e.socket := M.ViewerAttachment(id, token, e.requestId)];
      AddViewer(M.Viewer(id, token, e.socket));
      assert Abs() == M.AttachViewer(old(Abs()), e);
      var _ := SendSocket();
      if hostTerminalSize.None? || hostTerminalProfile.None? {
        RequestHostTerminalDetails(e.now);
      }
      SendHost(e.now);
      BroadcastStatus(e.now);
      ScheduleNextAlarm(e.now);
    }

    /** acceptSocket: 410 once the session is over or was never set up, 101 otherwise. */
    method Accept(e: M.Event) returns (status: nat)
      requires e.ConnectHost? || e.ConnectViewer?
      modifies this
      ensures Abs() == M.Accept(old(Abs()), e, M.Ctx(e.now, ok))
    {
      hide M.AdvanceAndPersist, M.TouchSession, M.AcceptHost, M.AcceptViewer;
      var _ := AdvanceRecordAndPersist(e.now);
      if record.state.Closed? || record.state.Ended? || record.state.Idle? {
        status := 410;
      } else {
        TouchSession(e.now);
        if e.ConnectHost? {
          AcceptHost(e.socket, e.now);
        } else {
          AcceptViewer(e);
        }
        status := 101;
      }
      log := log + [M.Replied(status)];
    }

    // ---------------------------------------------------------------- messages

    method DeliverSnapshot(requestId: Option<M.RequestId>, now: M.Time)
      modifies this
      ensures Abs() == M.DeliverSnapshot(old(Abs()), requestId, M.Ctx(now, ok))
    {
      hide M.SendViewer;
      if requestId.None? { return; }
      var i := 0;
      while i < |viewers|
        invariant 0 <= i <= |viewers| && Abs() == old(Abs())
        invariant M.FindRequest(attachments, viewers[i..], requestId.value)
                  == M.FindRequest(attachments, viewers, requestId.value)
      {
        var socket := viewers[i].socket;
        if M.Asked(attachments, viewers[i], requestId.value) {
          log := log + [M.SnapshotDelivered(socket, requestId.value)];
          SendViewer(viewers[i], now);
          return;
        }
        assert viewers[i..][1..] == viewers[i + 1..];
        i := i + 1;
      }
    }

    method HandleHostFrame(socket: M.Socket, frame: M.Frame, now: M.Time)
      modifies this
      ensures Abs() == M.HandleHostFrame(old(Abs()), socket, frame, M.Ctx(now, ok))
    {
      hide M.EndSharing, M.FinishSharing, M.DeliverSnapshot, M.HandleControlApprove, M.HandleControlReject, M.RevokeControl,
           M.Settle, M.BroadcastStatus, M.TouchSession, M.NormalizeTerminalSize, M.NextAlarm;
      match frame {
        case SessionEnd =>
          EndSharing("host ended", now);
          PersistRecord();
          var _ := SendSocket();
          FinishSharing(now);
          ScheduleNextAlarm(now);
        case Snapshot(requestId) =>
          DeliverSnapshot(requestId, now);
        case Approve(viewerId, lease) =>
          HandleControlApprove(socket, viewerId, lease, now);
          TouchSession(now);
        case Reject(viewerId) =>
          HandleControlReject(viewerId, now);
          TouchSession(now);
        case Revoke =>
          HandleControlRevoke(now);
          TouchSession(now);
        case Size(cols, rows) =>
          var size := M.NormalizeTerminalSize(cols, rows);
          if size.Some? && hostTerminalSize != size {
            hostTerminalSize := size;
            BroadcastStatus(now);
          }
          TouchSession(now);
        case Profile(profile) =>
          if profile.Some? && hostTerminalProfile != profile {
            hostTerminalProfile := profile;
            BroadcastStatus(now);
          }
          TouchSession(now);
        case _ =>
      }
    }

    method HandleViewerFrame(socket: M.Socket, frame: M.Frame, now: M.Time)
      modifies this
      ensures Abs() == M.HandleViewerFrame(old(Abs()), socket, frame, M.Ctx(now, ok))
    {
      hide M.CanWrite, M.RevokeControl, M.Settle, M.HandleControlRequest, M.TouchSession, M.SendHost;
      match frame {
        case Release =>
          var can := CanWrite(socket);
          if can { HandleControlRevoke(now); }
        case Request(lease) =>
          HandleControlRequest(socket, lease, now);
          TouchSession(now);
        case SizeRequest =>
          SendHost(now);
          TouchSession(now);
        case ProfileRequest =>
          SendHost(now);
          TouchSession(now);
        case _ =>
      }
    }

    method HandleBinary(socket: M.Socket, isHost: bool, kind: Option<nat>, now: M.Time)
      modifies this
      ensures var c := M.Ctx(now, ok);
              Abs() == if isHost then M.HandleHostBinary(old(Abs()), socket, kind, c)
                       else M.HandleViewerBinary(old(Abs()), socket, kind, c)
    {
      hide M.TouchSession, M.SendViewers, M.SendHost;
      if isHost {
        if kind != Some(M.TTY_OUTPUT) {
          CloseSocket(socket, 1003);
          return;
        }
        if host != Some(socket) || !hostConnected { return; }
        TouchSession(now);
        SendViewers(viewers, now);
        return;
      }
      if kind != Some(M.STDIN) {
        CloseSocket(socket, 1003);
        return;
      }
      var can := CanWrite(socket);
      if can {
        ghost var sender := M.FindViewer(viewers, socket).value;
        TouchSession(now);
        log := log + [M.StdinForwarded(socket, sender.id, record.generation, now)];
        SendHost(now);
      }
    }

    method CheckAndDispatch(socket: M.Socket, isHost: bool, data: M.Data, now: M.Time)
      modifies this
      ensures Abs() == M.CheckAndDispatch(old(Abs()), socket, isHost, data, M.Ctx(now, ok))
    {
      hide M.HandleHostFrame, M.HandleViewerFrame, M.HandleHostBinary, M.HandleViewerBinary, M.FindViewer;
      if record.state.Closed? { return; }
      if isHost && host != Some(socket) { return; }
      if !isHost && M.FindViewer(viewers, socket).None? { return; }
      if M.ByteLength(data) > M.MAX_MESSAGE_BYTES {
        CloseSocket(socket, 1009);
        return;
      }
      match data {
        case Text(_, frame) =>
          if isHost { HandleHostFrame(socket, frame, now); } else { HandleViewerFrame(socket, frame, now); }
        case Binary(_, kind) =>
          HandleBinary(socket, isHost, kind, now);
        case UnsupportedContainer =>
          CloseSocket(socket, 1003);
      }
    }

    method HandleMessage(socket: M.Socket, data: M.Data, now: M.Time)
      modifies this
      ensures Abs() == M.HandleMessage(old(Abs()), socket, data, M.Ctx(now, ok))
    {
      if socket !in attachments {
        CloseSocket(socket, 1003);
        return;
      }
      var isHost := attachments[socket].HostAttachment?;
      var advanced := AdvanceRecordAndPersist(now);
      if advanced { BroadcastStatus(now); }
      CheckAndDispatch(socket, isHost, data, now);
    }

    method HandleClose(socket: M.Socket, now: M.Time)
      modifies this
      ensures Abs() == M.HandleClose(old(Abs()), socket, M.Ctx(now, ok))
    {
      if socket !in attachments { return; }
      if attachments[socket].HostAttachment? {
        if host != Some(socket) { return; }
        ClearHost(now);
        Settle(now);
        ScheduleNextAlarm(now);
        return;
      }
      RemoveViewer(socket, now);
      Settle(now);
      BroadcastStatus(now);
      ScheduleNextAlarm(now);
    }

    // ---------------------------------------------------------------- restart

    method RestoreSockets(open: seq<M.Socket>)
      modifies this
      ensures Abs() == M.RestoreSockets(old(Abs()), open)
    {
      for i := 0 to |open|
        invariant M.RestoreSockets(Abs(), open[i..]) == M.RestoreSockets(old(Abs()), open)
      {
        assert open[i..][1..] == open[i + 1..];
        var socket := open[i];
        if socket !in attachments {
          CloseSocket(socket, 1003);
        } else if attachments[socket].HostAttachment? {
          if host.Some? && host != Some(socket) {
            CloseSocket(socket, 4001);
          } else {
            host, hostConnected := Some(socket), true;
          }
        } else {
          AddViewer(M.Viewer(attachments[socket].viewerId, attachments[socket].viewerToken, socket));
        }
      }
    }

    method ReconcileRecordWithSockets(now: M.Time) returns (changed: bool)
      modifies this
      ensures (Abs(), changed) == M.Reconcile(old(Abs()), now)
    {
      if hostConnected {
        changed := record.hostDisconnectDeadline.Some? || !record.state.Active?;
        record := record.(hostDisconnectDeadline := None, state := M.Active);
        return;
      }
      if |viewers| > 0 && record.state.Idle? {
        record := record.(state := M.Ready);
        return true;
      }
      if record.state.Active? {
        var deadline := if record.hostDisconnectDeadline.Some? then record.hostDisconnectDeadline
                        else Some(now + M.HOST_DISCONNECT_GRACE_MS);
        record := M.WithoutControl(record).(hostDisconnectDeadline := deadline, state := M.Ready);
        log := log + [M.HostCleared(now)];
        return true;
      }
      changed := false;
    }

    method LoadRecord(now: M.Time)
      modifies this
      ensures Abs() == M.FreshInstance(old(Abs()), now)
    {
      hide M.InitialRecord;
      host, hostConnected, viewers := None, false, [];
      ResetTerminal();
      record := if stored.Some? then stored.value else M.InitialRecord(M.Idle, now);
    }

    method ReconcileAndSave(now: M.Time)
      modifies this
      ensures var (t, changed) := M.Reconcile(old(Abs()), now);
              Abs() == if changed then M.ScheduleNextAlarm(M.Persist(t), now) else t
    {
      var changed := ReconcileRecordWithSockets(now);
      if changed {
        PersistRecord();
        ScheduleNextAlarm(now);
      }
    }

    method HandleRestore(open: seq<M.Socket>, now: M.Time)
      modifies this
      ensures Abs() == M.HandleRestore(old(Abs()), open, M.Ctx(now, ok))
    {
      LoadRecord(now);
      RestoreSockets(open);
      if record.state.Closed? {
        FinishClosedSession(now);
        return;
      }
      if record.state.Ended? {
        FinishSharing(now);
        return;
      }
      if hostConnected { RequestHostTerminalDetails(now); }
      ReconcileAndSave(now);
    }

    // ---------------------------------------------------------------- entry points

    method HandleInit(allowControl: bool, expiresAt: M.Expiry, now: M.Time)
      modifies this
      ensures Abs() == M.HandleInit(old(Abs()), allowControl, expiresAt, now)
    {
      var status := 200;
      if !record.state.Idle? && !record.state.Closed? {
        status := 409;
      } else if !M.ExpiryAccepted(expiresAt, now) {
        status := 400;
      } else {
        var until := M.ExpiryTime(expiresAt, now);
        log := log + [M.Initialized(now, until, allowControl)];
        UpdateRecord(M.InitialRecord(M.Ready, now).(
          allowControl := allowControl, maxExpiresAt := until, sessionExpiresAt := until), now);
      }
      log := log + [M.Replied(status)];
    }

    method HandleEnd(now: M.Time)
      modifies this
      ensures Abs() == M.HandleEnd(old(Abs()), M.Ctx(now, ok))
    {
      EndSharing("owner stopped sharing", now);
      PersistRecord();
      FinishSharing(now);
      ScheduleNextAlarm(now);
      log := log + [M.Replied(200)];
    }

    method HandleStatus(now: M.Time)
      modifies this
      ensures Abs() == M.HandleStatus(old(Abs()), M.Ctx(now, ok))
    {
      var _ := AdvanceRecordAndPersist(now);
      log := log + [M.Replied(200)];
    }

    method HandleAlarm(now: M.Time)
      modifies this
      ensures Abs() == M.HandleAlarm(old(Abs()), M.Ctx(now, ok))
    {
      alarm := None;
      var changed := AdvanceRecordAndPersist(now);
      if changed { BroadcastStatus(now); }
      ScheduleNextAlarm(now);
    }

    method Handle(e: M.Event)
      modifies this
      ensures Abs() == M.Handle(old(Abs()), e, M.Ctx(e.now, ok))
    {
      hide M.HandleInit, M.HandleEnd, M.HandleStatus, M.Accept, M.HandleAlarm, M.HandleMessage, M.HandleClose, M.HandleRestore;
      match e {
        case Init(now, allowControl, expiresAt) => HandleInit(allowControl, expiresAt, now);
        case End(now) => HandleEnd(now);
        case Status(now) => HandleStatus(now);
        case ConnectHost(_, _) => var _ := Accept(e);
        case ConnectViewer(_, _, _, _, _, _) => var _ := Accept(e);
        case Alarm(now) => HandleAlarm(now);
        case Message(now, socket, data) => HandleMessage(socket, data, now);
        case Close(now, socket) => HandleClose(socket, now);
        case Restore(now, open) => HandleRestore(open, now);
      }
    }

    /** One event of any kind: the object moves exactly as the machine does, and stays valid. */
    method Dispatch(e: M.Event)
      requires Valid() && M.Enabled(Abs(), e)
      modifies this
      ensures Abs() == M.Step(old(Abs()), e, ok)
      ensures Valid()
    {
      hide I.Base, M.Handle, M.Settle, M.Enabled;
      Steps.StepKeeps(Abs(), e, ok);
      clock := e.now;
      Handle(e);
      Settle(e.now);
    }
  }
}
