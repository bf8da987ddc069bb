/** The one alarm of a session covers its deadlines, and firing it closes the session. */
module SessionAlarm {
  import opened Prelude
  import opened SessionModel
  import opened SessionInvariants
  import opened SessionSteps
  import opened SessionTheorems

  ghost predicate Ahead(deadline: Option<Time>, now: Time) {
    deadline.Some? ==> now < deadline.value
  }

  ghost predicate AllAhead(r: SessionRecord, now: Time) {
    && now < r.sessionExpiresAt
    && Ahead(r.hostDisconnectDeadline, now)
    && Ahead(r.pendingRequestExpiresAt, now)
    && Ahead(r.controlLeaseExpiresAt, now)
  }

  /** The alarm is one of the deadlines of the record, and none is earlier. */
  ghost predicate LeastDeadline(alarm: Option<Time>, r: SessionRecord) {
    && alarm.Some?
    && (|| alarm == Some(r.sessionExpiresAt) || alarm == r.hostDisconnectDeadline
        || alarm == r.pendingRequestExpiresAt || alarm == r.controlLeaseExpiresAt)
    && alarm.value <= r.sessionExpiresAt
    && (r.hostDisconnectDeadline.Some? ==> alarm.value <= r.hostDisconnectDeadline.value)
    && (r.pendingRequestExpiresAt.Some? ==> alarm.value <= r.pendingRequestExpiresAt.value)
    && (r.controlLeaseExpiresAt.Some? ==> alarm.value <= r.controlLeaseExpiresAt.value)
  }

  /** Closed with no alarm, or every deadline ahead and the alarm their minimum. */
  ghost predicate Tight(s: State, now: Time) {
    if s.record.state.Closed? then s.alarm.None?
    else AllAhead(s.record, now) && LeastDeadline(s.alarm, s.record)
  }

  lemma ScheduledIsLeast(r: SessionRecord, now: Time)
    requires !r.state.Closed? && AllAhead(r, now)
    ensures LeastDeadline(NextAlarm(r, now), r)
  {}

  /** What losing connections keeps of an alarm: it may only add a reconnect grace, and reschedules for it. */
  ghost predicate KeepsAlarm(s: State, t: State, now: Time) {
    && (AllAhead(s.record, now) ==> AllAhead(t.record, now))
    && (Tight(s, now) ==> Tight(t, now))
  }

  lemma ClearHostAlarm(s: State, now: Time)
    requires Base(s) && s.clock == now && s.host.Some? && !s.record.state.Closed?
    ensures KeepsAlarm(s, ClearHost(s, now), now)
  {
    if AllAhead(s.record, now) { ScheduledIsLeast(ClearHost(s, now).record, now); }
  }

  lemma UpdateAlarm(s: State, t: State, r: SessionRecord, now: Time)
    requires t == UpdateRecord(s, r, now) && r.state == s.record.state && r.sessionExpiresAt == s.record.sessionExpiresAt
    requires r.hostDisconnectDeadline == s.record.hostDisconnectDeadline
    requires r.pendingRequestExpiresAt.Some? ==> r.pendingRequestExpiresAt == s.record.pendingRequestExpiresAt
    requires r.controlLeaseExpiresAt.Some? ==> r.controlLeaseExpiresAt == s.record.controlLeaseExpiresAt
    ensures KeepsAlarm(s, t, now)
  {
    if !r.state.Closed? && AllAhead(s.record, now) { ScheduledIsLeast(r, now); }
  }

  lemma RevokeAlarm(s: State, now: Time)
    ensures KeepsAlarm(s, RevokeControl(s, now), now)
  {
    if s.record.currentControllerId.Some? {
      var r := s.record.(currentControllerId := None, controlLeaseExpiresAt := None);
      UpdateAlarm(s, UpdateRecord(s, r, now), r, now);
    }
  }

  lemma DropAlarm(s: State, now: Time)
    ensures KeepsAlarm(s, DropRequest(s, now), now)
  {
    var r := s.record.(pendingRequest := None, pendingRequestExpiresAt := None);
    UpdateAlarm(s, UpdateRecord(s, r, now), r, now);
  }

  lemma RemoveViewerAlarm(s: State, socket: Socket, now: Time)
    ensures KeepsAlarm(s, RemoveViewer(s, socket, now), now)
  {
    hide LeastDeadline, RevokeControl, DropRequest, UpdateRecord, FindViewer, DeleteViewer;
    var viewer := FindViewer(s.viewers, socket);
    var t := s.(viewers := DeleteViewer(s.viewers, socket));
    if viewer.None? { UpdateAlarm(t, UpdateRecord(t, t.record, now), t.record, now); }
    else {
      RevokeAlarm(t, now);
      var u := if t.record.currentControllerId == Some(viewer.value.id) then RevokeControl(t, now) else t;
      DropAlarm(u, now);
    }
  }

  lemma {:induction false} SendViewersAlarm(s: State, vs: seq<Viewer>, c: Ctx)
    ensures KeepsAlarm(s, SendViewers(s, vs, c), c.now)
    decreases |vs|
  {
    if vs != [] {
      RemoveViewerAlarm(SendIgnored(s), vs[0].socket, c.now);
      SendViewersAlarm(SendViewer(s, vs[0], c), vs[1..], c);
    }
  }

  /** A closed session holds no host, so a failing host send never adds a grace to it. */
  lemma BroadcastAlarm(s: State, c: Ctx)
    requires Base(s) && s.clock == c.now && (s.host.Some? ==> !s.record.state.Closed?)
    ensures KeepsAlarm(s, BroadcastStatus(s, c), c.now)
  {
    if s.host.Some? { ClearHostAlarm(SendIgnored(s), c.now); }
    SendViewersAlarm(SendHost(s, c), SendHost(s, c).viewers, c);
  }

  lemma PaidAlarm(s: State, t: State, now: Time)
    requires s.owed > 0 && KeepsAlarm(s.(owed := s.owed - 1), t, now)
    ensures KeepsAlarm(s, t, now)
  {}

  lemma HostStaysOpen(s: State, t: State)
    requires Lossy(s, t) && (s.host.Some? ==> !s.record.state.Closed?)
    ensures t.host.Some? ==> !t.record.state.Closed?
  {}

  lemma {:induction false} SettleAlarm(s: State, c: Ctx)
    requires Base(s) && s.clock == c.now && (s.host.Some? ==> !s.record.state.Closed?)
    ensures KeepsAlarm(s, Settle(s, c), c.now)
    decreases Sockets(s), s.owed
  {
    hide Base, Lossy, BroadcastStatus, AllAhead, Tight;
    if s.owed > 0 {
      var paid := s.(owed := s.owed - 1);
      var t := PaidOnce(s, c);
      PaidBase(s);
      BroadcastAlarm(paid, c);
      PaidAlarm(s, t, c.now);
      PayOneKeeps(s, c);
      LossyBase(s, t);
      HostStaysOpen(s, t);
      SettleAlarm(t, c);
    }
  }

  /** The session is over at this clock reading, and its host, which it still has, cannot be told. */
  ghost predicate ClosingFails(s: State, now: Time, ok: Oracle) {
    s.record.sessionExpiresAt <= now && s.host.Some? && !ok(s.sends)
  }

  /** Time up: the session closes, or is revived by a host send that fails. */
  lemma ClosingAhead(s: State, c: Ctx)
    requires Mid(s) && s.clock == c.now && Due(Some(s.record.sessionExpiresAt), c.now)
    ensures var t := AdvanceAndPersist(s, c).0;
            && (!ClosingFails(s, c.now, c.ok) ==> t.record.state.Closed?)
            && (ClosingFails(s, c.now, c.ok) ==>
                  t.record.state.Ready? && t.host.None? && t.record.sessionExpiresAt <= c.now)
  {
    hide FinishClosedSession, AllAuthorized, GrantTraced, RequestTraced, Injective, AllIssued, RequestsDistinct, AllKnown, OnePerToken;
    CloseSessionKeeps(s, "session expired", c.now);
    var p := Persist(CloseSession(s, "session expired", c.now));
    FinishOutcome(p, c);
    FinishClosedKeeps(p, c);
    ClosingKeepsExpiry(p, c);
  }

  lemma AdvanceRecordAhead(s: State, now: Time)
    requires Mid(s) && s.clock == now && !Due(Some(s.record.sessionExpiresAt), now)
    ensures var t := AdvanceRecord(s, now).0;
            && (t.record.state.Closed? || AllAhead(t.record, now))
            && (t.record.state.Closed? || t.record.state.Ended? ==> t.host.None?)
  {
    ExpireKeeps(s, now);
  }

  /** Advancing leaves every deadline ahead, or the session closed, unless the closing fails. */
  lemma AdvanceAhead(s: State, c: Ctx)
    requires Mid(s) && s.clock == c.now
    ensures var t := AdvanceAndPersist(s, c).0;
            && (!ClosingFails(s, c.now, c.ok) ==> t.record.state.Closed? || AllAhead(t.record, c.now))
            && (ClosingFails(s, c.now, c.ok) ==>
                  t.record.state.Ready? && t.host.None? && t.record.sessionExpiresAt <= c.now)
  {
    if Due(Some(s.record.sessionExpiresAt), c.now) { ClosingAhead(s, c); }
    else {
      AdvanceRecordAhead(s, c.now);
      AdvanceKeeps(s, c.now);
      FinishAhead(Persist(AdvanceRecord(s, c.now).0), c);
    }
  }

  lemma FinishAhead(p: State, c: Ctx)
    requires Base(p) && p.clock == c.now && (p.record.state.Closed? || AllAhead(p.record, c.now))
    requires p.record.state.Closed? || p.record.state.Ended? ==> p.host.None?
    ensures var t := AfterAdvance(p, c); t.record.state.Closed? || AllAhead(t.record, c.now)
  {
    if p.record.state.Closed? { FinishOutcome(p, c); }
    else if p.record.state.Ended? {
      BroadcastAlarm(p.(hostConnected := false, hostTerminalSize := None, hostTerminalProfile := None), c);
    }
  }

  lemma ClosingKeepsExpiry(s: State, c: Ctx)
    requires Base(s) && s.clock == c.now && s.record.state.Closed?
    ensures FinishClosedSession(s, c).record.sessionExpiresAt == s.record.sessionExpiresAt
  {
    var w := s.(hostConnected := false);
    BroadcastKeeps(w, c);
    var v := BroadcastStatus(w, c);
    if v.host.Some? { CloseSocketKeeps(v, v.host.value, 4000); }
    CloseViewersKeeps(CloseHostSocket(v), v.viewers);
  }

  lemma BroadcastAndSchedule(s: State, c: Ctx)
    requires Mid(s) && s.clock == c.now
    requires s.record.state.Closed? || AllAhead(s.record, c.now)
    ensures Tight(ScheduleNextAlarm(BroadcastStatus(s, c), c.now), c.now)
    ensures Tight(ScheduleNextAlarm(s, c.now), c.now)
  {
    BroadcastAlarm(s, c);
    BroadcastKeeps(s, c);
    BroadcastOutcome(s, c);
    var t := BroadcastStatus(s, c);
    if !t.record.state.Closed? { ScheduledIsLeast(t.record, c.now); }
    if !s.record.state.Closed? { ScheduledIsLeast(s.record, c.now); }
  }

  lemma HandleAlarmTight(s: State, c: Ctx)
    requires Mid(s) && s.clock == c.now
    ensures !ClosingFails(s, c.now, c.ok) ==> Tight(HandleAlarm(s, c), c.now)
    ensures ClosingFails(s, c.now, c.ok) ==>
              var t := HandleAlarm(s, c);
              t.record.state.Ready? && t.host.None? && t.record.sessionExpiresAt <= c.now
  {
    var p := s.(alarm := None);
    assert Mid(p);
    AdvanceAhead(p, c);
    AdvanceAndPersistKeeps(p, c);
    var t := AdvanceAndPersist(p, c).0;
    if !ClosingFails(s, c.now, c.ok) { BroadcastAndSchedule(t, c); }
    else { BroadcastKeeps(t, c); }
  }

  /**
   After an alarm the session is closed with no alarm, or every deadline is ahead and the alarm
   is the least of them; the one exception is a session that expired with a host it cannot tell.
   */
  lemma AlarmStep(s: State, now: Time, ok: Oracle)
    requires Inv(s) && Enabled(s, Alarm(now))
    ensures Tight(Step(s, Alarm(now), ok), now) <==> !ClosingFails(s, now, ok)
  {
    var c := Ctx(now, ok);
    var p := s.(clock := now);
    TickKeeps(s, Alarm(now));
    HandleAlarmTight(p, c);
    AlarmMoves(p, c);
    var t := HandleAlarm(p, c);
    SettleAlarm(t, c);
    SettleKeeps(t, c);
  }

  // ---------------------------------------------------------------- reaching the end

  /** How many alarms a session with an exact alarm is away from being closed. */
  function AlarmsLeft(r: SessionRecord): nat {
    if r.state.Closed? then 0
    else if r.hostDisconnectDeadline.Some? || r.pendingRequestExpiresAt.Some? || r.controlLeaseExpiresAt.Some? then 2
    else 1
  }

  lemma {:induction false} SucceedingSettle(s: State, c: Ctx)
    requires AllSucceed(c.ok)
    ensures Settle(s, c) == s.(sends := Settle(s, c).sends, owed := 0)
    decreases Sockets(s), s.owed
  {
    if s.owed > 0 {
      var paid := s.(owed := s.owed - 1);
      BroadcastSpends(paid, c);
      SucceedingBroadcast(paid, c);
      SucceedingSettle(BroadcastStatus(paid, c), c);
    }
  }

  lemma SucceedingFinish(s: State, c: Ctx)
    requires AllSucceed(c.ok)
    ensures FinishSharing(s, c).record == s.record && FinishClosedSession(s, c).record == s.record
  {
    var u := s.(hostConnected := false);
    SucceedingBroadcast(u, c);
    SucceedingBroadcast(u.(hostTerminalSize := None, hostTerminalProfile := None), c);
    var v := CloseHostSocket(BroadcastStatus(u, c));
    CloseViewersRecord(v, v.viewers);
  }

  lemma SucceedingAdvance(s: State, c: Ctx)
    requires AllSucceed(c.ok)
    ensures AdvanceAndPersist(s, c).0.record == AdvanceRecord(s, c.now).0.record
  {
    SucceedingFinish(Persist(AdvanceRecord(s, c.now).0), c);
  }

  /** With its sends going through, an alarm does to the record exactly what the clock does. */
  lemma SucceedingAlarm(s: State, now: Time, ok: Oracle)
    requires AllSucceed(ok)
    ensures Step(s, Alarm(now), ok).record == AdvanceRecord(s.(clock := now, alarm := None), now).0.record
  {
    var c := Ctx(now, ok);
    var p := s.(clock := now, alarm := None);
    SucceedingAdvance(p, c);
    SucceedingBroadcast(AdvanceAndPersist(p, c).0, c);
    SucceedingSettle(HandleAlarm(s.(clock := now), c), c);
  }

  /** Each alarm that goes off at its time takes one deadline with it. */
  lemma AlarmProgress(s: State, now: Time, ok: Oracle)
    requires Inv(s) && Enabled(s, Alarm(now)) && AllSucceed(ok)
    requires !s.record.state.Closed? && LeastDeadline(s.alarm, s.record) && s.alarm.value <= now
    ensures AlarmsLeft(Step(s, Alarm(now), ok).record) < AlarmsLeft(s.record)
  {
    hide AllAuthorized, GrantTraced, RequestTraced, Names, OnePerToken;
    hide Step;
    SucceedingAlarm(s, now, ok);
    var p := s.(clock := now, alarm := None);
    AlarmTick(s, now);
    ExpiredFields(p, now);
  }

  lemma AlarmTick(s: State, now: Time)
    requires Inv(s) && Enabled(s, Alarm(now))
    ensures Mid(s.(clock := now, alarm := None))
  {
    hide Base;
    TickKeeps(s, Alarm(now));
    Disarmed(s.(clock := now));
  }

  /** What is left of request and lease when both are looked at. */
  lemma ExpiredFields(s: State, now: Time)
    requires s.clock == now && Mid(s)
    ensures var t := ExpireControl(ExpireRequest(s, now), now);
            && t.hostConnected == s.hostConnected
            && t.record.state == s.record.state && t.record.sessionExpiresAt == s.record.sessionExpiresAt
            && t.record.hostDisconnectDeadline == s.record.hostDisconnectDeadline
            && t.record.pendingRequestExpiresAt ==
                 (if Due(s.record.pendingRequestExpiresAt, now) then None else s.record.pendingRequestExpiresAt)
            && t.record.controlLeaseExpiresAt ==
                 (if Due(s.record.controlLeaseExpiresAt, now) then None else s.record.controlLeaseExpiresAt)
  {}

  /** An alarm that goes off when it is due: not before its time, nor before the clock. */
  ghost predicate Fires(s: State, now: Time) {
    s.alarm.Some? && s.alarm.value <= now && s.clock <= now && 0 < now
  }

  /** The first alarm leaves nothing but the session's own expiry, if it does not close the session. */
  lemma FirstAlarm(s: State, now: Time, ok: Oracle)
    requires Inv(s) && Covered(s) && LastInit(s.log).Some? && AllSucceed(ok) && Fires(s, now)
    ensures AlarmsLeft(Step(s, Alarm(now), ok).record) <= 1
  {
    hide AllAuthorized, GrantTraced, RequestTraced, Names, OnePerToken;
    hide Step;
    SucceedingAlarm(s, now, ok);
    AlarmTick(s, now);
    ExpiredFields(s.(clock := now, alarm := None), now);
  }

  /**
   With sends going through and only alarms firing, two alarms close a session that has one,
   from every state between events, even when an earlier deadline left the first one behind.
   */
  lemma TwoAlarmsClose(s: State, first: Time, second: Time, ok: Oracle)
    requires Inv(s) && Covered(s) && LastInit(s.log).Some? && AllSucceed(ok) && Fires(s, first)
    ensures var t := Step(s, Alarm(first), ok);
            && (!t.record.state.Closed? ==> t.alarm.Some?)
            && (!t.record.state.Closed? && Fires(t, second) ==> Step(t, Alarm(second), ok).record.state.Closed?)
  {
    hide Step, Base;
    var t := Step(s, Alarm(first), ok);
    StepKeeps(s, Alarm(first), ok);
    FirstAlarm(s, first, ok);
    AlarmStep(s, first, ok);
    if !t.record.state.Closed? && Fires(t, second) { AlarmProgress(t, second, ok); }
  }
}
