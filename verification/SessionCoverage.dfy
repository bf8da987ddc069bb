/** When the alarm of a session covers its expiry, and exactly which events lose it. */
module SessionCoverage {
  import opened Prelude
  import opened SessionModel
  import opened SessionInvariants
  import opened SessionSteps
  import opened SessionTheorems
  import opened SessionAlarm

  /** In every reachable initialized session that is neither closed nor overdue, an alarm is set and no deadline ahead is earlier. */
  lemma AlarmCovers(s: State, start: Time, events: seq<Event>, ok: Oracle)
    requires 0 < start && Reachable(s, start, events, ok)
    requires LastInit(s.log).Some? && !s.record.state.Closed? && s.clock < s.record.sessionExpiresAt
    ensures s.alarm.Some? && s.alarm.value <= s.record.sessionExpiresAt
    ensures s.record.hostDisconnectDeadline.Some? && s.clock < s.record.hostDisconnectDeadline.value ==>
              s.alarm.value <= s.record.hostDisconnectDeadline.value
    ensures s.record.pendingRequestExpiresAt.Some? && s.clock < s.record.pendingRequestExpiresAt.value ==>
              s.alarm.value <= s.record.pendingRequestExpiresAt.value
    ensures s.record.controlLeaseExpiresAt.Some? && s.clock < s.record.controlLeaseExpiresAt.value ==>
              s.alarm.value <= s.record.controlLeaseExpiresAt.value
  {
    RunKeeps(start, events, ok);
  }

  // ---------------------------------------------------------------- losing the alarm

  predicate AheadOf(deadline: Option<Time>, now: Time) {
    deadline.Some? && now < deadline.value
  }

  /** Without the connection of this socket and what its viewer holds, only the session's expiry is left to wait for. */
  predicate NothingElseAhead(s: State, socket: Socket, now: Time) {
    var id := if FindViewer(s.viewers, socket).Some? then Some(FindViewer(s.viewers, socket).value.id) else None;
    && !AheadOf(s.record.hostDisconnectDeadline, now)
    && (AheadOf(s.record.pendingRequestExpiresAt, now) ==>
          s.record.pendingRequest.Some? && Some(s.record.pendingRequest.value.viewerId) == id)
    && (AheadOf(s.record.controlLeaseExpiresAt, now) ==>
          s.record.currentControllerId.Some? && s.record.currentControllerId == id)
  }

  /**
   The events after which an overdue session is neither closed nor has an alarm: they reschedule
   without looking back. They are an /end, the close of a viewer connection that leaves nothing
   else to wait for, and a restart in which a ready session gets a host back.
   */
  predicate LosesAlarm(s: State, e: Event) {
    s.record.sessionExpiresAt <= e.now &&
    match e
    case End(_) => true
    case Close(_, socket) =>
      socket in s.attachments && s.attachments[socket].ViewerAttachment? && NothingElseAhead(s, socket, e.now)
    case Restore(_, open) => s.record.state.Ready? && SurvivingHost(s.(clock := e.now), open, e.now).Some?
    case _ => false
  }

  predicate Alarmless(s: State) {
    !s.record.state.Closed? && s.alarm.None?
  }

  /** Events that first do to the record what the clock asks for. */
  predicate Advances(s: State, e: Event) {
    e.Status? || e.ConnectHost? || e.ConnectViewer? || e.Alarm? || (e.Message? && e.socket in s.attachments)
  }

  lemma ExpiredAdvance(s: State, c: Ctx)
    requires Mid(s) && s.clock == c.now && AllSucceed(c.ok) && s.record.sessionExpiresAt <= c.now
    ensures AdvanceAndPersist(s, c).0.record.state.Closed?
  {
    ClosingAhead(s, c);
  }

  /** The first status request, connect, alarm or message after the expiry closes the session. */
  lemma OverdueCloses(s: State, e: Event, ok: Oracle)
    requires Inv(s) && Enabled(s, e) && AllSucceed(ok) && s.record.sessionExpiresAt <= e.now && Advances(s, e)
    ensures Step(s, e, ok).record.state.Closed?
  {
    hide Inv, Mid, AdvanceAndPersist, BroadcastStatus, Settle, NextAlarm;
    var c := Ctx(e.now, ok);
    var p := s.(clock := e.now);
    var q := p.(alarm := None);
    TickKeeps(s, e);
    InvMid(p);
    Disarmed(p);
    ExpiredAdvance(p, c);
    ExpiredAdvance(q, c);
    SucceedingBroadcast(AdvanceAndPersist(p, c).0, c);
    SucceedingBroadcast(AdvanceAndPersist(q, c).0, c);
    SucceedingSettle(Handle(p, e, c), c);
  }

  lemma EndLoses(s: State, now: Time, ok: Oracle)
    requires Inv(s) && Enabled(s, End(now)) && AllSucceed(ok)
    ensures Alarmless(Step(s, End(now), ok)) <==> s.record.sessionExpiresAt <= now
    ensures Step(s, End(now), ok).record.sessionExpiresAt == s.record.sessionExpiresAt
  {
    hide History, Names, FinishSharing, Settle;
    var c := Ctx(now, ok);
    var p := s.(clock := now);
    SucceedingFinish(Persist(EndSharing(p, "owner stopped sharing", now)), c);
    SucceedingSettle(HandleEnd(p, c), c);
  }

  lemma HostCloseKeepsAlarm(s: State, socket: Socket, now: Time, ok: Oracle)
    requires Inv(s) && Enabled(s, Close(now, socket)) && AllSucceed(ok) && s.alarm.Some?
    requires socket in s.attachments && s.attachments[socket].HostAttachment?
    ensures !Alarmless(Step(s, Close(now, socket), ok))
  {
    hide Names, History, Settle;
    var c := Ctx(now, ok);
    var p := s.(clock := now);
    SucceedingSettle(ClearHost(p, now), c);
    SucceedingSettle(HandleClose(p, socket, c), c);
  }

  lemma ViewerCloseAlarm(s: State, socket: Socket, now: Time, ok: Oracle)
    requires Inv(s) && Enabled(s, Close(now, socket)) && AllSucceed(ok)
    requires socket in s.attachments && s.attachments[socket].ViewerAttachment?
    ensures var r := RemoveViewer(s.(clock := now), socket, now).record;
            var t := Step(s, Close(now, socket), ok);
            t.record == r && t.alarm == NextAlarm(r, now)
  {
    var c := Ctx(now, ok);
    var p := s.(clock := now);
    var t := RemoveViewer(p, socket, now);
    SucceedingSettle(t, c);
    SucceedingBroadcast(Settle(t, c), c);
    SucceedingSettle(HandleClose(p, socket, c), c);
  }

  lemma RemovedRecord(s: State, socket: Socket, now: Time)
    requires RecordShape(s.record)
    ensures var r := RemoveViewer(s, socket, now).record;
            && r.state == s.record.state && r.sessionExpiresAt == s.record.sessionExpiresAt
            && (r.sessionExpiresAt <= now ==> (NextAlarm(r, now).None? <==> r.state.Closed? || NothingElseAhead(s, socket, now)))
  {
    hide RemoveViewer, FindViewer;
    RemovedFields(s, socket, now);
  }

  /** What the removal of a connection does to the record. */
  lemma RemovedFields(s: State, socket: Socket, now: Time)
    ensures var viewer := FindViewer(s.viewers, socket);
            var r := RemoveViewer(s, socket, now).record;
            && r.hostDisconnectDeadline == s.record.hostDisconnectDeadline
            && r.state == s.record.state && r.sessionExpiresAt == s.record.sessionExpiresAt
            && r.controlLeaseExpiresAt ==
                 (if viewer.Some? && s.record.currentControllerId == Some(viewer.value.id) then None
                  else s.record.controlLeaseExpiresAt)
            && r.pendingRequestExpiresAt ==
                 (if viewer.Some? && s.record.pendingRequest.Some? && s.record.pendingRequest.value.viewerId == viewer.value.id
                  then None else s.record.pendingRequestExpiresAt)
  {
    hide RevokeControl, DropRequest, NextAlarm, FindViewer, DeleteViewer;
    var viewer := FindViewer(s.viewers, socket);
    var t := s.(viewers := DeleteViewer(s.viewers, socket));
    RevokedRecord(t, now);
    var u := if viewer.Some? && t.record.currentControllerId == Some(viewer.value.id) then RevokeControl(t, now) else t;
    DroppedRecord(u, now);
  }

  lemma RevokedRecord(s: State, now: Time)
    ensures RevokeControl(s, now).record == s.record.(
              currentControllerId := None,
              controlLeaseExpiresAt := if s.record.currentControllerId.Some? then None else s.record.controlLeaseExpiresAt)
  {
    hide NextAlarm;
  }

  lemma DroppedRecord(s: State, now: Time)
    ensures DropRequest(s, now).record == s.record.(pendingRequest := None, pendingRequestExpiresAt := None)
  {
    hide NextAlarm;
  }

  lemma ViewerCloseLoses(s: State, socket: Socket, now: Time, ok: Oracle)
    requires Inv(s) && Enabled(s, Close(now, socket)) && AllSucceed(ok) && !s.record.state.Closed?
    requires socket in s.attachments && s.attachments[socket].ViewerAttachment?
    requires s.record.sessionExpiresAt <= now
    ensures Alarmless(Step(s, Close(now, socket), ok)) <==> NothingElseAhead(s, socket, now)
  {
    ViewerCloseAlarm(s, socket, now, ok);
    RemovedRecord(s.(clock := now), socket, now);
  }

  lemma RestoreLoses(s: State, open: seq<Socket>, now: Time, ok: Oracle)
    requires Inv(s) && Enabled(s, Restore(now, open)) && AllSucceed(ok) && LastInit(s.log).Some?
    requires !s.record.state.Closed? && s.alarm.Some? && s.record.sessionExpiresAt <= now
    ensures Alarmless(Step(s, Restore(now, open), ok)) <==>
              s.record.state.Ready? && SurvivingHost(s.(clock := now), open, now).Some?
  {
    var c := Ctx(now, ok);
    var p := s.(clock := now);
    hide RestoreSockets, FinishSharing, FinishClosedSession, SendHostTimes, Settle, AllAuthorized, ControlTraced, Names;
    var f := FreshInstance(p, now);
    TickKeeps(s, Restore(now, open));
    FreshKeeps(p, now);
    RestoreSocketsKeeps(f, open);
    var t := RestoreSockets(f, open);
    SucceedingHost(t, 2, c);
    FinishKeepsAlarm(t, c);
    SucceedingFinish(t, c);
    SucceedingSettle(HandleRestore(p, open, c), c);
  }

  lemma FinishKeepsAlarm(s: State, c: Ctx)
    requires AllSucceed(c.ok)
    ensures FinishSharing(s, c).alarm == s.alarm
  {
    SucceedingBroadcast(s.(hostConnected := false, hostTerminalSize := None, hostTerminalProfile := None), c);
  }

  /** While the expiry is ahead, coverage keeps the alarm. */
  lemma TimelyKeepsAlarm(s: State, e: Event, ok: Oracle)
    requires Inv(s) && Covered(s) && Enabled(s, e) && LastInit(s.log).Some? && !s.record.state.Closed?
    requires e.now < s.record.sessionExpiresAt
    ensures !Alarmless(Step(s, e, ok))
  {
    StepKeeps(s, e, ok);
    if e.Init? { RefusedInit(s, e, ok); } else { ExpiryFixed(s, e, ok); }
  }

  lemma RefusedInit(s: State, e: Event, ok: Oracle)
    requires Inv(s) && Enabled(s, e) && LastInit(s.log).Some? && !s.record.state.Closed? && e.Init?
    ensures Step(s, e, ok).record == s.record && Step(s, e, ok).alarm == s.alarm
    ensures LastInit(Step(s, e, ok).log) == LastInit(s.log)
  {
    LastInitAppend(s.log, Replied(409));
    NothingOwed(Observe(s.(clock := e.now), Replied(409)), Ctx(e.now, ok));
  }

  lemma IgnoredEvent(s: State, e: Event, ok: Oracle)
    requires Inv(s) && (e.Message? || e.Close?) && e.socket !in s.attachments
    ensures Step(s, e, ok).record == s.record && Step(s, e, ok).alarm == s.alarm
  {
    NothingOwed(Handle(s.(clock := e.now), e, Ctx(e.now, ok)), Ctx(e.now, ok));
  }

  /** With sends going through, a session with an alarm is left open without one by exactly these events. */
  lemma AlarmLostExactly(s: State, e: Event, ok: Oracle)
    requires Inv(s) && Covered(s) && Enabled(s, e) && AllSucceed(ok)
    requires LastInit(s.log).Some? && !s.record.state.Closed? && s.alarm.Some?
    ensures Alarmless(Step(s, e, ok)) <==> LosesAlarm(s, e)
  {
    hide Inv, Covered, Enabled, Step;
    if e.now < s.record.sessionExpiresAt { TimelyKeepsAlarm(s, e, ok); }
    else if Advances(s, e) { OverdueCloses(s, e, ok); }
    else {
      match e
      case Init(_, _, _) => RefusedInit(s, e, ok);
      case End(now) => EndLoses(s, now, ok);
      case Message(_, _, _) => IgnoredEvent(s, e, ok);
      case Close(now, socket) =>
        if socket !in s.attachments { IgnoredEvent(s, e, ok); }
        else if s.attachments[socket].HostAttachment? { HostCloseKeepsAlarm(s, socket, now, ok); }
        else { ViewerCloseLoses(s, socket, now, ok); }
      case Restore(now, open) => RestoreLoses(s, open, now, ok);
    }
  }

  // ---------------------------------------------------------------- whole runs

  lemma ClosedAdvance(s: State, c: Ctx)
    requires Mid(s) && s.clock == c.now && AllSucceed(c.ok) && s.record.state.Closed?
    ensures AdvanceAndPersist(s, c).0.record.state.Closed?
  {
    SucceedingAdvance(s, c);
  }

  lemma ClosedRestore(s: State, open: seq<Socket>, c: Ctx)
    requires Inv(s) && s.clock == c.now && AllSucceed(c.ok) && s.record.state.Closed? && LastInit(s.log).Some?
    requires forall i, j | 0 <= i < j < |open| :: open[i] != open[j]
    ensures HandleRestore(s, open, c).record.state.Closed?
  {
    hide RestoreSockets, FinishSharing, FinishClosedSession;
    var f := FreshInstance(s, c.now);
    FreshKeeps(s, c.now);
    RestoreSocketsKeeps(f, open);
    SucceedingFinish(RestoreSockets(f, open), c);
  }

  lemma ClosedClose(s: State, socket: Socket, c: Ctx)
    requires Inv(s) && s.clock == c.now && AllSucceed(c.ok) && s.record.state.Closed?
    ensures HandleClose(s, socket, c).record.state.Closed?
  {
    if socket in s.attachments && s.attachments[socket].ViewerAttachment? {
      var t := RemoveViewer(s, socket, c.now);
      RemovedRecord(s, socket, c.now);
      SucceedingSettle(t, c);
      SucceedingBroadcast(Settle(t, c), c);
    }
  }

  /** With sends going through, only /init and /end open a closed session. */
  lemma ClosedStays(s: State, e: Event, ok: Oracle)
    requires Inv(s) && Enabled(s, e) && AllSucceed(ok) && s.record.state.Closed? && !e.End? && !e.Init?
    requires LastInit(s.log).Some?
    ensures Step(s, e, ok).record.state.Closed?
  {
    hide Inv, Mid, AdvanceAndPersist, BroadcastStatus, Settle, NextAlarm, HandleRestore, HandleClose;
    var c := Ctx(e.now, ok);
    var p := s.(clock := e.now);
    TickKeeps(s, e);
    SucceedingSettle(Handle(p, e, c), c);
    if e.Restore? { ClosedRestore(p, e.open, c); }
    else if e.Close? { ClosedClose(p, e.socket, c); }
    else {
      var q := if e.Alarm? then p.(alarm := None) else p;
      InvMid(p);
      Disarmed(p);
      ClosedAdvance(q, c);
      SucceedingBroadcast(AdvanceAndPersist(q, c).0, c);
    }
  }

  /** An event that opens a session, or opens it again, sets the alarm unless it is an /end after the expiry. */
  lemma OpenedAlarm(s: State, e: Event, ok: Oracle)
    requires Inv(s) && Enabled(s, e) && AllSucceed(ok)
    requires LastInit(s.log).None? || s.record.state.Closed?
    requires LastInit(Step(s, e, ok).log).Some? && Alarmless(Step(s, e, ok))
    ensures LosesAlarm(s, e)
  {
    if e.Init? { AcceptedInit(s, e, ok); }
    else {
      StepKeeps(s, e, ok);
      if e.End? { EndLoses(s, e.now, ok); } else { ClosedStays(s, e, ok); }
    }
  }

  lemma AcceptedInit(s: State, e: Event, ok: Oracle)
    requires Inv(s) && Enabled(s, e) && e.Init? && (LastInit(s.log).None? || s.record.state.Closed?)
    ensures LastInit(Step(s, e, ok).log).Some? ==> !Alarmless(Step(s, e, ok))
  {
    hide History, Names, Settle;
    var p := s.(clock := e.now);
    NothingOwed(Handle(p, e, Ctx(e.now, ok)), Ctx(e.now, ok));
    LastInitAppend(s.log, Replied(400));
    LastInitAppend(s.log, Replied(409));
  }

  /** In every run whose sends go through, a session that is open and without an alarm lost it to such an event. */
  lemma {:induction false} OnlyTheseLose(start: Time, events: seq<Event>, ok: Oracle) returns (n: nat)
    requires 0 < start && EnabledRun(Start(start), events, ok) && AllSucceed(ok)
    requires var s := Run(Start(start), events, ok); LastInit(s.log).Some? && Alarmless(s)
    ensures n < |events| && LosesAlarm(Run(Start(start), events[..n], ok), events[n])
    decreases |events|
  {
    hide Inv, Covered, Step, LosesAlarm, Enabled, NoRestart, Live;
    n := |events| - 1;
    var before, e := events[..n], events[n];
    var s := Run(Start(start), before, ok);
    RunKeeps(start, before, ok);
    if LastInit(s.log).None? || s.record.state.Closed? { OpenedAlarm(s, e, ok); }
    else if s.alarm.Some? { AlarmLostExactly(s, e, ok); }
    else {
      n := OnlyTheseLose(start, before, ok);
      assert before[..n] == events[..n];
    }
  }

  predicate EverySend(n: nat) { true }

  const LostAlarmRun: seq<Event> := [Init(1, false, At(10)), ConnectViewer(2, 5, None, 6, 7, 8), Close(10, 5)]

  /**
   Once the expiry has passed, coverage can be lost: a close that is handled before the overdue
   alarm deletes it, and the session stays ready until a request, connect or message comes in.
   */
  lemma LateCloseLosesAlarm()
    ensures EnabledRun(Start(1), LostAlarmRun, EverySend)
    ensures var s := Run(Start(1), LostAlarmRun, EverySend);
            s.record.state.Ready? && s.record.sessionExpiresAt <= s.clock && s.alarm.None?
  {
    hide Step, Base;
    var s1 := Step(Start(1), LostAlarmRun[0], EverySend);
    InitStep(At(10), EverySend);
    StartInv();
    StepKeeps(Start(1), LostAlarmRun[0], EverySend);
    StepKeeps(s1, LostAlarmRun[1], EverySend);
    ViewerJoins(s1, LostAlarmRun[1]);
    LastViewerLeaves(Step(s1, LostAlarmRun[1], EverySend), 5, 10);
    RunOfThree(Start(1), LostAlarmRun[0], LostAlarmRun[1], LostAlarmRun[2], EverySend);
  }

  const LateEndRun: seq<Event> := [Init(1, false, At(10)), Status(2), End(10)]

  /** So does an /end at the expiry: the session is ended, and never closed by an alarm. */
  lemma LateEndLosesAlarm()
    ensures EnabledRun(Start(1), LateEndRun, EverySend)
    ensures var s := Run(Start(1), LateEndRun, EverySend);
            s.record.state.Ended? && s.record.sessionExpiresAt <= s.clock && s.alarm.None?
  {
    hide Step, Base;
    var s1 := Step(Start(1), LateEndRun[0], EverySend);
    InitStep(At(10), EverySend);
    StartInv();
    StepKeeps(Start(1), LateEndRun[0], EverySend);
    StepKeeps(s1, LateEndRun[1], EverySend);
    var s2 := Step(s1, LateEndRun[1], EverySend);
    StatusLeaves(s1, 2);
    EndLoses(s2, 10, EverySend);
    EndOutcome(s2, 10, EverySend);
    StepKeeps(s2, LateEndRun[2], EverySend);
    RunOfThree(Start(1), LateEndRun[0], LateEndRun[1], LateEndRun[2], EverySend);
    assert Alarmless(Step(s2, End(10), EverySend));
  }

  lemma StatusLeaves(s: State, now: Time)
    requires Inv(s) && AdvanceRecord(s.(clock := now), now) == (s.(clock := now), false)
    ensures Step(s, Status(now), EverySend).record == s.record
  {
    NothingOwed(Handle(s.(clock := now), Status(now), Ctx(now, EverySend)), Ctx(now, EverySend));
  }

  lemma ViewerJoins(s: State, e: Event)
    requires Inv(s) && e.ConnectViewer? && Enabled(s, e) && s.viewers == [] && s.record.state.Ready?
    requires e.now < s.record.sessionExpiresAt && e.token.None?
    requires s.record.hostDisconnectDeadline.None?
    ensures var t := Step(s, e, EverySend);
            && t.viewers == [Viewer(e.freshId, e.freshToken, e.socket)]
            && t.record == s.record.(viewerIdentities := s.record.viewerIdentities[e.freshToken := e.freshId])
            && t.attachments == s.attachments[e.socket := ViewerAttachment(e.freshId, e.freshToken, e.requestId)]
            && t.clock == e.now && t.host.None?
  {
    var c := Ctx(e.now, EverySend);
    var p := s.(clock := e.now);
    hide AdvanceAndPersist, TouchSession, AttachViewer, BroadcastStatus, NextAlarm, Settle, History, Names;
    QuietAdvance(p, c);
    FirstViewer(p, e);
    var t := SendIgnored(AttachViewer(p, e));
    assert SendHostTimes(t, 2, c) == t by { assert SendHostTimes(t, 1, c) == t; }
    SucceedingBroadcast(t, c);
    NothingOwed(Accept(p, e, c), c);
  }

  lemma FirstViewer(s: State, e: Event)
    requires e.ConnectViewer? && e.token.None? && s.viewers == []
    ensures var t := AttachViewer(s, e);
            && t.viewers == [Viewer(e.freshId, e.freshToken, e.socket)]
            && t.record == s.record.(viewerIdentities := s.record.viewerIdentities[e.freshToken := e.freshId])
            && t.attachments == s.attachments[e.socket := ViewerAttachment(e.freshId, e.freshToken, e.requestId)]
            && t.clock == s.clock && t.host == s.host && t.owed == s.owed
  {
    hide NextAlarm;
    var v := Viewer(e.freshId, e.freshToken, e.socket);
    var (q, id, token) := ResolveIdentity(s, e);
    var r := q.(attachments := q.attachments[e.socket := ViewerAttachment(id, token, e.requestId)], viewers := [v]);
    assert q.viewers + [v] == [v];
    assert ReplaceConnections(r, [v], v) == r;
  }

  lemma LastViewerLeaves(s: State, socket: Socket, now: Time)
    requires Inv(s) && s.clock <= now && s.record.state.Ready? && s.record.sessionExpiresAt <= now
    requires s.record.hostDisconnectDeadline.None? && socket in s.attachments && s.attachments[socket].ViewerAttachment?
    ensures var t := Step(s, Close(now, socket), EverySend);
            t.record == s.record && t.alarm.None? && t.clock == now
  {
    var c := Ctx(now, EverySend);
    var p := s.(clock := now);
    var t := RemoveViewer(p, socket, now);
    NothingOwed(t, c);
    SucceedingBroadcast(t, c);
    NothingOwed(HandleClose(p, socket, c), c);
  }
}
