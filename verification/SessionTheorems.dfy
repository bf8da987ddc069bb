/** What holds of every run of the shared-terminal session. */
module SessionTheorems {
  import opened Prelude
  import opened SessionModel
  import opened SessionInvariants
  import opened SessionSteps

  ghost predicate AllSucceed(ok: Oracle) {
    forall n: nat :: ok(n)
  }

  ghost predicate NoRestart(events: seq<Event>) {
    forall e | e in events :: !e.Restore?
  }

  /** A state that some run of the machine, with some pattern of failing sends, ends in. */
  ghost predicate Reachable(s: State, start: Time, events: seq<Event>, ok: Oracle) {
    EnabledRun(Start(start), events, ok) && s == Run(Start(start), events, ok)
  }

  // ---------------------------------------------------------------- whole runs

  lemma {:induction false} RunKeeps(start: Time, events: seq<Event>, ok: Oracle)
    requires 0 < start && EnabledRun(Start(start), events, ok)
    ensures var s := Run(Start(start), events, ok);
            Inv(s) && Covered(s) && (NoRestart(events) ==> Live(s))
    decreases |events|
  {
    if events != [] {
      var before := events[..|events| - 1];
      RunKeeps(start, before, ok);
      StepKeeps(Run(Start(start), before, ok), events[|events| - 1], ok);
    }
  }

  /** At most one connected socket may write, in every reachable state. */
  lemma SingleWriter(s: State, start: Time, events: seq<Event>, ok: Oracle, a: Socket, b: Socket)
    requires 0 < start && Reachable(s, start, events, ok)
    requires CanWrite(s, a) && CanWrite(s, b)
    ensures a == b
  {
    RunKeeps(start, events, ok);
    var v, w := FindViewer(s.viewers, a).value, FindViewer(s.viewers, b).value;
    assert Known(s.attachments, v) && Known(s.attachments, w);
    assert v.token == w.token;
  }

  /** Behind every stdin frame that a run ever forwarded is a grant to the viewer that sent it. */
  lemma ForwardGranted(start: Time, events: seq<Event>, ok: Oracle, k: nat) returns (i: nat, j: nat, until: Time)
    requires 0 < start && EnabledRun(Start(start), events, ok)
    requires k < |Run(Start(start), events, ok).log| && Run(Start(start), events, ok).log[k].StdinForwarded?
    ensures var log := Run(Start(start), events, ok).log;
            var init := LastInit(log[..k]);
            && init.Some? && init.value.allowControl && log[k].at < init.value.expiresAt
            && GrantAt(log, i, j, k, log[k].viewerId, log[k].generation, until) && log[k].at < until
  {
    RunKeeps(start, events, ok);
    var log := Run(Start(start), events, ok).log;
    assert Authorized(log, k);
    until :| HasGrant(log, k, log[k].viewerId, log[k].generation, until) && log[k].at < until;
    i, j :| GrantAt(log, i, j, k, log[k].viewerId, log[k].generation, until);
  }

  /** The record invariant, restarts included. */
  lemma RecordAlways(s: State, start: Time, events: seq<Event>, ok: Oracle)
    requires 0 < start && Reachable(s, start, events, ok)
    ensures var r := s.record;
            && (r.currentControllerId.Some? <==> r.controlLeaseExpiresAt.Some?)
            && (r.pendingRequest.Some? <==> r.pendingRequestExpiresAt.Some?)
            && !(r.currentControllerId.Some? && r.pendingRequest.Some?)
            && (r.currentControllerId.Some? || r.pendingRequest.Some? ==>
                  s.hostConnected && s.host.Some? && r.state.Active? && r.allowControl)
            && (r.hostDisconnectDeadline.Some? ==> s.host.None? && !s.hostConnected)
            && (s.hostConnected <==> r.state.Active?)
            && r.sessionExpiresAt == r.maxExpiresAt
  {
    RunKeeps(start, events, ok);
  }

  /** Within one incarnation the controller and the pending viewer always have a live connection, one per token. */
  lemma HoldersConnected(s: State, start: Time, events: seq<Event>, ok: Oracle)
    requires 0 < start && Reachable(s, start, events, ok) && NoRestart(events)
    ensures s.record.currentControllerId.Some? ==> Connected(s.viewers, s.record.currentControllerId.value)
    ensures s.record.pendingRequest.Some? ==> Connected(s.viewers, s.record.pendingRequest.value.viewerId)
    ensures forall v, w | v in s.viewers && w in s.viewers && v.token == w.token :: v == w
  {
    RunKeeps(start, events, ok);
  }

  /** Nothing but a successful /init moves the expiry, the maximum or the permission of a session. */
  lemma ExpiryFixed(s: State, e: Event, ok: Oracle)
    requires Inv(s) && Enabled(s, e) && LastInit(s.log).Some?
    requires !e.Init?
    ensures var t := Step(s, e, ok).record;
            && t.sessionExpiresAt == t.maxExpiresAt == s.record.maxExpiresAt == LastInit(s.log).value.expiresAt
            && t.allowControl == s.record.allowControl
  {
    StepKeeps(s, e, ok);
  }

  // ---------------------------------------------------------------- ending and staying ended

  ghost predicate Terminal(r: SessionRecord) {
    r.state.Ended? || r.state.Closed?
  }

  ghost predicate Stopped(s: State) {
    Terminal(s.record) && s.host.None? && !s.hostConnected
  }

  /** Of all the sends of a broadcast only the one to the host can change the session's state. */
  lemma BroadcastOutcome(s: State, c: Ctx)
    requires Base(s) && s.clock == c.now
    ensures BroadcastStatus(s, c).record.state == if s.host.Some? && !c.ok(s.sends) then Ready else s.record.state
  {
    SendHostKeeps(s, c);
    var t := SendHost(s, c);
    LossyBase(s, t);
    SendViewersKeeps(t, t.viewers, c);
    SentState(t, SendViewers(t, t.viewers, c));
  }

  lemma SentState(s: State, t: State)
    requires Lossy(s, t) && t.host == s.host
    ensures t.record.state == s.record.state
  {}

  /** Finishing a terminal session leaves it terminal exactly if its host, when there is one, could be told. */
  lemma FinishOutcome(s: State, c: Ctx)
    requires Base(s) && s.clock == c.now && Terminal(s.record)
    ensures s.record.state.Ended? ==>
              FinishSharing(s, c).record.state == if s.host.Some? && !c.ok(s.sends) then Ready else Ended
    ensures s.record.state.Closed? ==>
              FinishClosedSession(s, c).record.state == if s.host.Some? && !c.ok(s.sends) then Ready else Closed
  {
    hide Base, BroadcastStatus, CloseViewers;
    var u := s.(hostConnected := false, hostTerminalSize := None, hostTerminalProfile := None);
    UnlinkedBase(s);
    BroadcastOutcome(u, c);
    var w := s.(hostConnected := false);
    BroadcastOutcome(w, c);
    if s.record.state.Closed? {
      var v := BroadcastStatus(w, c);
      CloseViewersRecord(CloseHostSocket(v), v.viewers);
    }
  }

  /** What finishing starts from. */
  lemma UnlinkedBase(s: State)
    requires Base(s)
    ensures Base(s.(hostConnected := false))
    ensures Base(s.(hostConnected := false, hostTerminalSize := None, hostTerminalProfile := None))
  {
    hide AllAuthorized, GrantTraced, RequestTraced, Injective, AllIssued, RequestsDistinct, AllKnown, OnePerToken;
  }

  lemma {:induction false} CloseViewersRecord(s: State, vs: seq<Viewer>)
    ensures CloseViewers(s, vs).record == s.record
    decreases |vs|
  {
    if vs != [] { CloseViewersRecord(CloseSocket(s, vs[0].socket, 4000), vs[1..]); }
  }

  lemma SettleStopped(s: State, c: Ctx)
    requires Mid(s) && s.clock == c.now && s.host.None?
    ensures Settle(s, c).record.state == s.record.state && Settle(s, c).host.None?
  {
    SettleKeeps(s, c);
  }

  /**
   POST /end ends the session if and only if there is no host or the host can be told:
   clearHost writes `ready` unconditionally, so a failing status send revives the session.
   */
  lemma EndOutcome(s: State, now: Time, ok: Oracle)
    requires Inv(s) && Enabled(s, End(now))
    ensures var t := Step(s, End(now), ok);
            && (t.record.state.Ended? <==> (s.host.None? || ok(s.sends)))
            && (!t.record.state.Ended? ==> t.record.state.Ready? && t.record.hostDisconnectDeadline.Some?)
  {
    hide Inv, Mid, Live, Covered, Settle, HandleEnd;
    var c := Ctx(now, ok);
    var p := s.(clock := now);
    TickKeeps(s, End(now));
    EndHandled(p, c);
    EndMoves(p, c);
    SettleStopped(HandleEnd(p, c), c);
    SettleKeepsGrace(HandleEnd(p, c), c);
  }

  lemma EndHandled(s: State, c: Ctx)
    requires Inv(s) && s.clock == c.now
    ensures Mid(s)
    ensures var t := HandleEnd(s, c);
            && t.host.None?
            && (t.record.state.Ended? <==> (s.host.None? || c.ok(s.sends)))
            && (!t.record.state.Ended? ==> t.record.state.Ready? && t.record.hostDisconnectDeadline.Some?)
  {
    hide FinishSharing, NextAlarm, AllAuthorized, GrantTraced, RequestTraced, Injective, AllIssued, RequestsDistinct;
    EndSharingKeeps(s, "owner stopped sharing", c.now);
    var t := Persist(EndSharing(s, "owner stopped sharing", c.now));
    FinishOutcome(t, c);
    FinishSharingKeeps(t, c);
    FailedEndKeepsGrace(t, c);
  }

  lemma FailedEndKeepsGrace(s: State, c: Ctx)
    requires Base(s) && s.clock == c.now && s.record.state.Ended?
    ensures FinishSharing(s, c).record.state.Ready? ==> FinishSharing(s, c).record.hostDisconnectDeadline.Some?
  {
    var u := s.(hostConnected := false, hostTerminalSize := None, hostTerminalProfile := None);
    SendHostKeeps(u, c);
    GraceKept(SendHost(u, c), SendHost(u, c).viewers, c);
    BroadcastOutcome(u, c);
  }

  predicate SameGrace(s: State, t: State) {
    t.record.hostDisconnectDeadline == s.record.hostDisconnectDeadline && t.host == s.host
  }

  lemma RevokeGrace(s: State, now: Time)
    ensures SameGrace(s, RevokeControl(s, now))
  {
  }

  lemma DropGrace(s: State, now: Time)
    ensures SameGrace(s, DropRequest(s, now))
  {
  }

  lemma UpdateGrace(s: State, now: Time)
    ensures SameGrace(s, UpdateRecord(s, s.record, now))
  {
  }

  lemma RemoveGrace(s: State, socket: Socket, now: Time)
    ensures SameGrace(s, RemoveViewer(s, socket, now))
  {
    var viewer := FindViewer(s.viewers, socket);
    var t := s.(viewers := DeleteViewer(s.viewers, socket));
    if viewer.None? {
      UpdateGrace(t, now);
    } else {
      var u := if t.record.currentControllerId == Some(viewer.value.id) then RevokeControl(t, now) else t;
      RevokeGrace(t, now);
      DropGrace(u, now);
    }
  }

  lemma GraceStep(s: State, v: Viewer, c: Ctx)
    ensures SameGrace(s, SendViewer(s, v, c))
  {
    RemoveGrace(SendIgnored(s), v.socket, c.now);
  }

  /** Removing viewers never touches the reconnect grace. */
  lemma {:induction false} GraceKept(s: State, vs: seq<Viewer>, c: Ctx)
    ensures SendViewers(s, vs, c).record.hostDisconnectDeadline == s.record.hostDisconnectDeadline
    ensures SendViewers(s, vs, c).host == s.host
    decreases |vs|
  {
    if vs != [] {
      GraceStep(s, vs[0], c);
      GraceKept(SendViewer(s, vs[0], c), vs[1..], c);
    }
  }

  lemma {:induction false} SettleKeepsGrace(s: State, c: Ctx)
    requires s.host.None?
    ensures Settle(s, c).record.hostDisconnectDeadline == s.record.hostDisconnectDeadline
    decreases Sockets(s), s.owed
  {
    if s.owed > 0 {
      var paid := s.(owed := s.owed - 1);
      BroadcastSpends(paid, c);
      GraceKept(paid, paid.viewers, c);
      SettleKeepsGrace(BroadcastStatus(paid, c), c);
    }
  }

  predicate FifthSendFails(n: nat) { n != 4 }

  const RevivingRun: seq<Event> := [Init(1, false, DefaultExpiry), ConnectHost(2, 7), End(3)]

  lemma RunOneMore(s: State, events: seq<Event>, e: Event, ok: Oracle)
    ensures Run(s, events + [e], ok) == Step(Run(s, events, ok), e, ok)
    ensures EnabledRun(s, events + [e], ok) <==> EnabledRun(s, events, ok) && Enabled(Run(s, events, ok), e)
  {
    assert (events + [e])[..|events|] == events;
  }

  lemma RunOfThree(s: State, a: Event, b: Event, c: Event, ok: Oracle)
    ensures Run(s, [a, b, c], ok) == Step(Step(Step(s, a, ok), b, ok), c, ok)
    ensures Enabled(s, a) && Enabled(Step(s, a, ok), b) && Enabled(Step(Step(s, a, ok), b, ok), c) ==>
              EnabledRun(s, [a, b, c], ok)
  {
    RunOneMore(s, [], a, ok);
    RunOneMore(s, [a], b, ok);
    RunOneMore(s, [a, b], c, ok);
    assert [] + [a] == [a] && [a] + [b] == [a, b] && [a, b] + [c] == [a, b, c];
  }

  /** A concrete run in which the owner stops sharing, one send fails, and the session is ready again. */
  lemma EndMayRevive()
    ensures EnabledRun(Start(1), RevivingRun, FifthSendFails)
    ensures Run(Start(1), RevivingRun, FifthSendFails).record.state.Ready?
  {
    hide Step, Base, Live, Covered;
    var s1 := Step(Start(1), RevivingRun[0], FifthSendFails);
    InitStep(DefaultExpiry, FifthSendFails);
    StartInv();
    StepKeeps(Start(1), RevivingRun[0], FifthSendFails);
    ConnectHostSends(s1, RevivingRun[1], FifthSendFails);
    StepKeeps(s1, RevivingRun[1], FifthSendFails);
    EndOutcome(Step(s1, RevivingRun[1], FifthSendFails), 3, FifthSendFails);
    RunOfThree(Start(1), RevivingRun[0], RevivingRun[1], RevivingRun[2], FifthSendFails);
  }

  lemma StartInv()
    ensures Inv(Start(1))
  {}

  lemma InitStep(expiresAt: Expiry, ok: Oracle)
    requires ExpiryAccepted(expiresAt, 1)
    ensures var s := Step(Start(1), Init(1, false, expiresAt), ok);
            var until := ExpiryTime(expiresAt, 1);
            && s.record == InitialRecord(Ready, 1).(maxExpiresAt := until, sessionExpiresAt := until)
            && s.viewers == [] && s.attachments == map[] && s.issued == map[] && s.clock == 1
            && s.owed == 0 && s.sends == 0 && s.host.None? && !s.hostConnected
  {}

  lemma ConnectHostSends(s: State, e: Event, ok: Oracle)
    requires e.ConnectHost? && s.viewers == [] && s.host.None? && s.owed == 0 && s.sends == 0 && s.record.state.Ready?
    requires !s.hostConnected && s.record.hostDisconnectDeadline.None?
    requires s.record.pendingRequestExpiresAt.None? && s.record.controlLeaseExpiresAt.None?
    requires s.record.sessionExpiresAt == s.record.maxExpiresAt > e.now
    requires ok(0) && ok(1) && ok(2) && ok(3)
    ensures var t := Step(s, e, ok); t.host == Some(e.socket) && t.sends == 4 && t.clock == e.now
  {
    var c := Ctx(e.now, ok);
    var p := s.(clock := e.now);
    hide AdvanceAndPersist, TouchSession, AcceptHost, Settle;
    QuietAdvance(p, c);
    AcceptHostSends(p, e.socket, c);
    NothingOwed(Accept(p, e, c), c);
  }

  /** When nothing is due and the state fits the connections, time changes nothing, and neither does a renewal. */
  lemma QuietAdvance(s: State, c: Ctx)
    requires s.record.hostDisconnectDeadline.None? && s.record.pendingRequestExpiresAt.None?
    requires s.record.controlLeaseExpiresAt.None? && s.record.sessionExpiresAt == s.record.maxExpiresAt > c.now
    requires RunningState(s) == s.record.state
    ensures AdvanceAndPersist(s, c) == (s, false) && TouchSession(s, c.now) == s
  {}

  lemma AcceptHostSends(s: State, socket: Socket, c: Ctx)
    requires s.viewers == [] && s.host.None? && s.sends == 0 && s.owed == 0
    requires c.ok(0) && c.ok(1) && c.ok(2) && c.ok(3)
    ensures var t := AcceptHost(s, socket, c); t.host == Some(socket) && t.sends == 4 && t.clock == s.clock && t.owed == 0
  {
    hide NextAlarm, AttachHost, Observe;
    var t := SendIgnored(AttachHost(s, socket, c.now));
    AttachedHost(s, socket, c.now);
    TwoSent(t, c);
    var u := SendIgnored(SendIgnored(t));
    assert SendHostTimes(u, |u.viewers|, c) == u;
    assert BroadcastStatus(u, c) == SendIgnored(u);
  }

  lemma AttachedHost(s: State, socket: Socket, now: Time)
    ensures var t := AttachHost(s, socket, now);
            t.host == Some(socket) && t.viewers == s.viewers && t.sends == s.sends && t.owed == s.owed && t.clock == s.clock
  {
    hide NextAlarm;
  }

  lemma TwoSent(s: State, c: Ctx)
    requires s.host.Some? && c.ok(s.sends) && c.ok(s.sends + 1)
    ensures RequestHostTerminalDetails(s, c) == SendIgnored(SendIgnored(s))
  {
    hide ClearHost;
    var t := SendHost(s, c);
    assert SendHostTimes(t, 1, c) == SendHostTimes(SendHost(t, c), 0, c);
  }

  // ---- terminal states are absorbing

  lemma StoppedAdvance(s: State, c: Ctx)
    requires Mid(s) && s.clock == c.now && Stopped(s)
    ensures Stopped(AdvanceAndPersist(s, c).0)
  {
    AdvanceKeeps(s, c.now);
    var (t, changed) := AdvanceRecord(s, c.now);
    assert Stopped(t);
    if changed {
      var p := Persist(t);
      FinishOutcome(p, c);
      if p.record.state.Closed? { FinishClosedKeeps(p, c); } else { FinishSharingKeeps(p, c); }
    }
  }

  lemma StoppedBroadcast(s: State, c: Ctx)
    requires Mid(s) && s.clock == c.now && Stopped(s)
    ensures Stopped(BroadcastStatus(s, c))
  {
    BroadcastKeeps(s, c);
  }

  lemma StoppedFrame(s: State, socket: Socket, frame: Frame, c: Ctx)
    requires Mid(s) && s.clock == c.now && Stopped(s)
    ensures Stopped(HandleViewerFrame(s, socket, frame, c))
  {
    match frame
    case Request(lease) =>
      StoppedAdvance(s, c);
      AdvanceAndPersistKeeps(s, c);
      var t := AdvanceAndPersist(s, c).0;
      StoppedBroadcast(t, c);
      BroadcastMoves(t, c);
      TouchSessionIdle(BroadcastStatus(t, c), c.now);
    case _ => TouchSessionIdle(s, c.now);
  }

  lemma StoppedMessage(s: State, socket: Socket, data: Data, c: Ctx)
    requires Mid(s) && s.clock == c.now && Stopped(s)
    ensures Stopped(HandleMessage(s, socket, data, c))
  {
    hide Mid, Moves, Timely, AdvanceAndPersist, BroadcastStatus, HandleViewerFrame, HandleHostFrame, FindViewer;
    if socket in s.attachments {
      StoppedAdvance(s, c);
      AdvanceAndPersistKeeps(s, c);
      var (t, advanced) := AdvanceAndPersist(s, c);
      MovesMid(s, t);
      StoppedBroadcast(t, c);
      BroadcastMoves(t, c);
      MovesMid(t, BroadcastStatus(t, c));
      var u := if advanced then BroadcastStatus(t, c) else t;
      if data.Text? { StoppedFrame(u, socket, data.frame, c); }
    }
  }

  lemma StoppedClose(s: State, socket: Socket, c: Ctx)
    requires Mid(s) && s.clock == c.now && Stopped(s)
    ensures Stopped(HandleClose(s, socket, c))
  {
    if socket in s.attachments && !s.attachments[socket].HostAttachment? {
      var t := RemoveViewer(s, socket, c.now);
      RemoveViewerKeeps(s, socket, c.now);
      LossyMoves(s, t, c.now);
      SettleMoves(t, c);
      SettleKeeps(t, c);
      StoppedBroadcast(Settle(t, c), c);
    }
  }

  lemma StoppedEnd(s: State, c: Ctx)
    requires Mid(s) && s.clock == c.now && Stopped(s)
    ensures Stopped(HandleEnd(s, c))
  {
    EndSharingKeeps(s, "owner stopped sharing", c.now);
    var t := Persist(EndSharing(s, "owner stopped sharing", c.now));
    FinishOutcome(t, c);
    FinishSharingKeeps(t, c);
  }

  lemma StoppedAlarm(s: State, c: Ctx)
    requires Mid(s) && s.clock == c.now && Stopped(s)
    ensures Stopped(HandleAlarm(s, c))
  {
    var p := s.(alarm := None);
    assert Mid(p);
    StoppedAdvance(p, c);
    AdvanceAndPersistKeeps(p, c);
    StoppedBroadcast(AdvanceAndPersist(p, c).0, c);
  }

  /** The host socket that a restart would find among the sockets that survived. */
  function SurvivingHost(s: State, open: seq<Socket>, now: Time): Option<Socket> {
    RestoreSockets(FreshInstance(s, now), open).host
  }

  lemma StoppedRestore(s: State, open: seq<Socket>, c: Ctx)
    requires Inv(s) && s.clock == c.now && Stopped(s)
    requires forall i, j | 0 <= i < j < |open| :: open[i] != open[j]
    ensures var t := HandleRestore(s, open, c);
            t.host.None? && (Terminal(t.record) <==> (SurvivingHost(s, open, c.now).None? || c.ok(s.sends)))
  {
    hide AllAuthorized, RestoreSockets, FinishSharing, FinishClosedSession;
    var f := FreshInstance(s, c.now);
    FreshKeeps(s, c.now);
    RestoreSocketsKeeps(f, open);
    var t := RestoreSockets(f, open);
    FinishOutcome(t, c);
    if t.record.state.Closed? { FinishClosedKeeps(t, c); } else { FinishSharingKeeps(t, c); }
  }

  /**
   An ended or closed session stays so through every event but /init and a restart; a restart
   revives it if and only if a host socket survived and the farewell to it fails.
   */
  lemma TerminalAbsorbing(s: State, e: Event, ok: Oracle)
    requires Inv(s) && Enabled(s, e) && Terminal(s.record) && !e.Init?
    ensures var t := Step(s, e, ok);
            if e.Restore? then
              Terminal(t.record) <==> (SurvivingHost(s.(clock := e.now), e.open, e.now).None? || ok(s.sends))
            else Terminal(t.record)
  {
    hide Inv, Mid, Live, Covered, Enabled, LastInit, AdvanceAndPersist, Settle, TouchSession, AcceptHost, AcceptViewer;
    hide HandleEnd, HandleAlarm, HandleMessage, HandleClose, HandleRestore, SurvivingHost;
    var c := Ctx(e.now, ok);
    var p := s.(clock := e.now);
    TickKeeps(s, e);
    TerminalStopped(p);
    HandleKeeps(p, e, c);
    match e {
      case End(_) => StoppedEnd(p, c);
      case Status(_) => StoppedAdvance(p, c);
      case ConnectHost(_, _) => StoppedAdvance(p, c);
      case ConnectViewer(_, _, _, _, _, _) => StoppedAdvance(p, c);
      case Alarm(_) => StoppedAlarm(p, c);
      case Message(_, socket, data) => StoppedMessage(p, socket, data, c);
      case Close(_, socket) => StoppedClose(p, socket, c);
      case Restore(_, open) => StoppedRestore(p, open, c);
    }
    SettleStopped(Handle(p, e, c), c);
  }

  lemma TerminalStopped(s: State)
    requires Inv(s) && Terminal(s.record)
    ensures Mid(s) && Stopped(s)
  {}

  // ---------------------------------------------------------------- replaced connections

  lemma NothingOwed(s: State, c: Ctx)
    requires s.owed == 0
    ensures Settle(s, c) == s
  {}

  /** The close of a host socket that was replaced, or already cleared, changes nothing but the clock. */
  lemma LateHostClose(s: State, socket: Socket, now: Time, ok: Oracle)
    requires Inv(s) && Enabled(s, Close(now, socket))
    requires socket in s.attachments && s.attachments[socket].HostAttachment? && s.host != Some(socket)
    ensures Step(s, Close(now, socket), ok) == s.(clock := now)
  {
    NothingOwed(s.(clock := now), Ctx(now, ok));
  }

  lemma {:induction false} DeleteAbsent(viewers: seq<Viewer>, socket: Socket)
    requires FindViewer(viewers, socket).None?
    ensures DeleteViewer(viewers, socket) == viewers
    decreases |viewers|
  {
    if viewers != [] { DeleteAbsent(viewers[1..], socket); }
  }

  lemma {:induction false} SucceedingViewers(s: State, vs: seq<Viewer>, c: Ctx)
    requires AllSucceed(c.ok)
    ensures SendViewers(s, vs, c) == s.(sends := s.sends + |vs|)
    decreases |vs|
  {
    if vs != [] { SucceedingViewers(SendViewer(s, vs[0], c), vs[1..], c); }
  }

  lemma SucceedingBroadcast(s: State, c: Ctx)
    requires AllSucceed(c.ok)
    ensures BroadcastStatus(s, c) == s.(sends := BroadcastStatus(s, c).sends)
  {
    SucceedingViewers(SendHost(s, c), s.viewers, c);
  }

  /** With its sends going through, the late close of a replaced viewer leaves record and connections alone. */
  lemma LateViewerClose(s: State, socket: Socket, now: Time, ok: Oracle)
    requires Inv(s) && Enabled(s, Close(now, socket)) && AllSucceed(ok)
    requires socket in s.attachments && s.attachments[socket].ViewerAttachment?
    requires forall v | v in s.viewers :: v.socket != socket
    ensures var t := Step(s, Close(now, socket), ok);
            t.record == s.record && t.viewers == s.viewers && t.host == s.host && t.hostConnected == s.hostConnected
  {
    hide Base, BroadcastStatus, NextAlarm;
    var c := Ctx(now, ok);
    var p := s.(clock := now);
    DeleteAbsent(s.viewers, socket);
    var t := RemoveViewer(p, socket, now);
    NothingOwed(t, c);
    SucceedingBroadcast(t, c);
    NothingOwed(HandleClose(p, socket, c), c);
  }

  /** When nothing is due, a frame from a socket that is no longer the host or a viewer changes nothing but the clock. */
  lemma ReplacedFramesIgnored(s: State, socket: Socket, data: Data, now: Time, ok: Oracle)
    requires Inv(s) && Enabled(s, Message(now, socket, data)) && socket in s.attachments
    requires AdvanceRecord(s, now) == (s, false)
    requires if s.attachments[socket].HostAttachment? then s.host != Some(socket)
             else forall v | v in s.viewers :: v.socket != socket
    ensures Step(s, Message(now, socket, data), ok) == s.(clock := now)
  {
    var p := s.(clock := now);
    AdvanceIgnoresClock(s, now);
    NothingOwed(p, Ctx(now, ok));
  }

  lemma AdvanceIgnoresClock(s: State, now: Time)
    requires AdvanceRecord(s, now) == (s, false)
    ensures AdvanceRecord(s.(clock := now), now) == (s.(clock := now), false)
  {
    assert !Due(Some(s.record.sessionExpiresAt), now);
    assert !Due(s.record.pendingRequestExpiresAt, now) && !Due(s.record.controlLeaseExpiresAt, now);
    assert ExpireControl(ExpireRequest(s, now), now) == s;
    assert RunningState(s) == s.record.state;
  }

  lemma AcceptHostClearsControl(s: State, socket: Socket, c: Ctx)
    requires Mid(s) && s.clock == c.now && socket !in s.attachments
    requires s.record.state.Ready? || s.record.state.Active?
    ensures NoControl(AcceptHost(s, socket, c).record)
  {
    AttachHostMoves(s, socket, c.now);
    GreetingAddsNothing(SendIgnored(AttachHost(s, socket, c.now)), c);
  }

  ghost predicate NoControl(r: SessionRecord) {
    r.currentControllerId.None? && r.pendingRequest.None?
  }

  /** After a host connects, whoever was in control or waiting for it is not any more. */
  lemma NewHostClearsControl(s: State, e: Event, ok: Oracle)
    requires Inv(s) && Enabled(s, e) && e.ConnectHost?
    ensures NoControl(Step(s, e, ok).record)
  {
    var c := Ctx(e.now, ok);
    var p := s.(clock := e.now);
    TickKeeps(s, e);
    AcceptClearsControl(p, e, c);
    AcceptMoves(p, e, c);
    SettleKeeps(Handle(p, e, c), c);
  }

  lemma AcceptClearsControl(s: State, e: Event, c: Ctx)
    requires Inv(s) && Enabled(s, e) && e.ConnectHost? && s.clock == c.now == e.now
    ensures NoControl(Accept(s, e, c).record)
  {
    AdvanceAndPersistKeeps(s, c);
    var t := AdvanceAndPersist(s, c).0;
    if !t.record.state.Closed? && !t.record.state.Ended? && !t.record.state.Idle? {
      TouchSessionIdle(t, c.now);
      AcceptHostClearsControl(t, e.socket, c);
    }
  }

  lemma GreetingAddsNothing(s: State, c: Ctx)
    requires Mid(s) && s.clock == c.now
    ensures var t := RequestHostTerminalDetails(s, c);
            NoNewControl(s, BroadcastStatus(SendHostTimes(t, |t.viewers|, c), c))
  {
    var t := RequestHostTerminalDetails(s, c);
    SendHostTimesKeeps(s, 2, c);
    SendHostTimesKeeps(t, |t.viewers|, c);
    LossyTransitive(s, t, SendHostTimes(t, |t.viewers|, c));
    var u := SendHostTimes(t, |t.viewers|, c);
    BroadcastKeeps(u, c);
    LossyTransitive(s, u, BroadcastStatus(u, c));
  }

  lemma SucceedingSendHost(s: State, c: Ctx)
    requires AllSucceed(c.ok)
    ensures SendHost(s, c) == s.(sends := SendHost(s, c).sends)
  {}

  lemma {:induction false} SucceedingHost(s: State, times: nat, c: Ctx)
    requires AllSucceed(c.ok)
    ensures SendHostTimes(s, times, c) == s.(sends := SendHostTimes(s, times, c).sends)
    decreases times
  {
    if times > 0 { SucceedingHost(SendHost(s, c), times - 1, c); }
  }

  /** A viewer that comes back is attached in place of its earlier connection, and nothing else moves. */
  lemma ReattachedViewer(s: State, p: State, e: Event, v: Viewer)
    requires Inv(s) && Enabled(s, e) && e.ConnectViewer? && p == s.(clock := e.now)
    requires e.token.Some? && e.token.value in s.record.viewerIdentities && s.record.currentControllerId.Some?
    requires v == Viewer(s.record.viewerIdentities[e.token.value], e.token.value, e.socket)
    ensures var t := SendIgnored(AttachViewer(p, e));
            && Base(t) && (Live(s) ==> Live(t))
            && t == p.(viewers := t.viewers, log := t.log, attachments := t.attachments, sends := t.sends)
            && (forall w :: w in t.viewers <==> w == v || (w in s.viewers && w.token != v.token))
            && (forall w | w in t.viewers :: w.socket == v.socket ==> w == v)
  {
    TickKeeps(s, e);
    var u := p.(attachments := p.attachments[e.socket := ViewerAttachment(v.id, v.token, e.requestId)]);
    assert forall w | w in p.viewers :: Known(p.attachments, w) && w.socket != e.socket;
    assert Base(u);
    AddViewerKeeps(u, v);
  }

  /** A controller that reconnects with its token keeps control on the new socket, and only there. */
  lemma ReconnectKeepsControl(s: State, e: Event, ok: Oracle)
    requires Inv(s) && Enabled(s, e) && e.ConnectViewer? && AllSucceed(ok)
    requires AdvanceRecord(s, e.now) == (s, false)
    requires e.token.Some? && e.token.value in s.record.viewerIdentities
    requires s.record.currentControllerId == Some(s.record.viewerIdentities[e.token.value])
    ensures var t := Step(s, e, ok);
            && t.record == s.record && CanWrite(t, e.socket)
            && (forall v | v in t.viewers && v.token == e.token.value :: v.socket == e.socket)
            && (forall v | v in s.viewers && v.token != e.token.value :: v in t.viewers)
  {
    hide Base, AttachViewer, SendHost, SendHostTimes, BroadcastStatus, NextAlarm, AdvanceRecord, TouchSession, FindViewer;
    hide Live, Covered, Enabled;
    var c := Ctx(e.now, ok);
    var p := s.(clock := e.now);
    AdvanceIgnoresClock(s, e.now);
    TickKeeps(s, e);
    InvMid(p);
    MidBase(p);
    TouchSessionIdle(p, e.now);
    var v := Viewer(s.record.viewerIdentities[e.token.value], e.token.value, e.socket);
    var t := SendIgnored(AttachViewer(p, e));
    ReattachedViewer(s, p, e, v);
    SucceedingHost(t, 2, c);
    var w := if t.hostTerminalSize.None? || t.hostTerminalProfile.None? then RequestHostTerminalDetails(t, c) else t;
    SucceedingSendHost(w, c);
    SucceedingBroadcast(SendHost(w, c), c);
    var r := Accept(p, e, c);
    NothingOwed(r, c);
    assert r.viewers == t.viewers && r.record == s.record && r.hostConnected == s.hostConnected;
    OnlyConnection(r.viewers, v);
  }

  lemma OnlyConnection(viewers: seq<Viewer>, v: Viewer)
    requires v in viewers && forall w | w in viewers && w.token == v.token :: w == v
    requires forall w | w in viewers && w.socket == v.socket :: w == v
    ensures FindViewer(viewers, v.socket) == Some(v)
  {}

  lemma AskedOnce(s: State, id: RequestId, v: Viewer, w: Viewer)
    requires Names(s) && OnePerToken(s.viewers) && v in s.viewers && w in s.viewers
    requires Asked(s.attachments, v, id) && Asked(s.attachments, w, id)
    ensures v == w
  {
    assert Known(s.attachments, v) && Known(s.attachments, w);
    assert v.socket == w.socket;
  }

  /**
   When nothing is due, a snapshot from the host is delivered to the one live connection its
   request id was issued to, which is dropped if that fails; with no such connection nothing happens.
   */
  lemma SnapshotReachesOwner(s: State, socket: Socket, size: nat, id: RequestId, now: Time, ok: Oracle)
    requires Inv(s) && Enabled(s, Message(now, socket, Text(size, Snapshot(Some(id)))))
    requires s.host == Some(socket) && size <= MAX_MESSAGE_BYTES && AdvanceRecord(s, now) == (s, false)
    ensures var t := Step(s, Message(now, socket, Text(size, Snapshot(Some(id)))), ok);
            && (forall w | w in s.viewers && Asked(s.attachments, w, id) ::
                  if ok(s.sends) then
                    t == s.(clock := now, sends := s.sends + 1, log := s.log + [SnapshotDelivered(w.socket, id)])
                  else forall v | v in t.viewers :: v.socket != w.socket)
            && (NoneAsked(s.attachments, s.viewers, id) ==> t == s.(clock := now))
  {
    hide RemoveViewer, FindRequest, HandleMessage, AdvanceRecord, Asked;
    var c := Ctx(now, ok);
    var p := s.(clock := now);
    SnapshotHandled(s, p, socket, size, id, c);
    var found := FindRequest(s.attachments, s.viewers, id);
    if found.Some? {
      forall w | w in s.viewers && Asked(s.attachments, w, id) ensures w == found.value {
        AskedOnce(s, id, found.value, w);
      }
      if !ok(s.sends) { UndeliveredDropped(p, found.value, id, c); }
    }
  }

  lemma SnapshotHandled(s: State, p: State, socket: Socket, size: nat, id: RequestId, c: Ctx)
    requires Inv(s) && p == s.(clock := c.now) && s.host == Some(socket) && size <= MAX_MESSAGE_BYTES
    requires AdvanceRecord(s, c.now) == (s, false)
    ensures HandleMessage(p, socket, Text(size, Snapshot(Some(id))), c) == DeliverSnapshot(p, Some(id), c)
  {
    hide DeliverSnapshot, AdvanceRecord;
    AdvanceIgnoresClock(s, c.now);
    assert Linked(s);
  }

  lemma UndeliveredDropped(s: State, v: Viewer, id: RequestId, c: Ctx)
    requires Mid(s) && s.clock == c.now && !c.ok(s.sends)
    ensures var t := SendViewer(Observe(s, SnapshotDelivered(v.socket, id)), v, c);
            forall w | w in Settle(t, c).viewers :: w.socket != v.socket
  {
    var u := Observe(s, SnapshotDelivered(v.socket, id));
    ObserveKeeps(s, SnapshotDelivered(v.socket, id));
    RemoveViewerKeeps(SendIgnored(u), v.socket, c.now);
    SettleKeeps(SendViewer(u, v, c), c);
  }
}
