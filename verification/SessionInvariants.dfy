/**
 What every reachable session state satisfies, and the proof that each building block
 of the handlers keeps it. Blocks that only lose connections are summed up by `Lossy`.
 */
module SessionInvariants {
  import opened Prelude
  import opened SessionModel

  // ---------------------------------------------------------------- the record

  /** The control fields of a record agree with each other and with its state. */
  ghost predicate RecordShape(r: SessionRecord) {
    && (r.currentControllerId.Some? <==> r.controlLeaseExpiresAt.Some?)
    && (r.pendingRequest.Some? <==> r.pendingRequestExpiresAt.Some?)
    && !(r.currentControllerId.Some? && r.pendingRequest.Some?)
    && (r.currentControllerId.Some? || r.pendingRequest.Some? ==> r.state.Active? && r.allowControl)
    && (r.hostDisconnectDeadline.Some? ==> r.state.Ready?)
    && 0 < r.sessionExpiresAt == r.maxExpiresAt
    && (r.pendingRequest.Some? ==> 60 <= r.pendingRequest.value.leaseSeconds <= DEFAULT_CONTROL_LEASE_SECONDS)
    && (r.controlLeaseExpiresAt.Some? ==> 0 < r.controlLeaseExpiresAt.value)
    && (r.pendingRequestExpiresAt.Some? ==> 0 < r.pendingRequestExpiresAt.value)
    && (r.hostDisconnectDeadline.Some? ==> 0 < r.hostDisconnectDeadline.value)
  }

  /** The record is active exactly while a host is connected. */
  ghost predicate Linked(s: State) {
    s.hostConnected <==> s.record.state.Active?
  }

  /** Between events the stored record is the record, or nothing was ever stored. */
  ghost predicate Saved(s: State) {
    || s.stored == Some(s.record)
    || (s.stored.None? && s.record.state.Idle? && LastInit(s.log).None?)
  }

  // ---------------------------------------------------------------- identities

  ghost predicate Injective(m: map<Token, ViewerId>) {
    forall a, b | a in m && b in m && m[a] == m[b] :: a == b
  }

  ghost predicate Known(attachments: map<Socket, Attachment>, v: Viewer) {
    && v.socket in attachments
    && attachments[v.socket].ViewerAttachment?
    && attachments[v.socket].viewerId == v.id
    && attachments[v.socket].viewerToken == v.token
  }

  ghost predicate AllKnown(attachments: map<Socket, Attachment>, viewers: seq<Viewer>) {
    forall v | v in viewers :: Known(attachments, v)
  }

  ghost predicate AllIssued(attachments: map<Socket, Attachment>, issued: map<Token, ViewerId>) {
    forall k | k in attachments && attachments[k].ViewerAttachment? ::
      attachments[k].viewerToken in issued && issued[attachments[k].viewerToken] == attachments[k].viewerId
  }

  ghost predicate RequestsDistinct(attachments: map<Socket, Attachment>) {
    forall j, k | j in attachments && k in attachments && attachments[j].ViewerAttachment?
                  && attachments[k].ViewerAttachment?
                  && attachments[j].snapshotRequestId == attachments[k].snapshotRequestId :: j == k
  }

  ghost predicate IdentitiesIssued(identities: map<Token, ViewerId>, issued: map<Token, ViewerId>) {
    forall t | t in identities :: t in issued && issued[t] == identities[t]
  }

  /** Every name in use was issued, one id per token, and every socket was accepted. */
  ghost predicate Names(s: State) {
    && Injective(s.issued)
    && AllIssued(s.attachments, s.issued)
    && RequestsDistinct(s.attachments)
    && IdentitiesIssued(s.record.viewerIdentities, s.issued)
    && (s.host.Some? ==> s.host.value in s.attachments && s.attachments[s.host.value].HostAttachment?)
    && AllKnown(s.attachments, s.viewers)
  }

  /** At most one live connection per viewer token. */
  ghost predicate OnePerToken(viewers: seq<Viewer>) {
    forall a, b | a in viewers && b in viewers && a.token == b.token :: a == b
  }

  ghost predicate Connected(viewers: seq<Viewer>, id: ViewerId) {
    exists v :: v in viewers && v.id == id
  }

  /** The controller and the viewer whose request is pending are connected. */
  ghost predicate Live(s: State) {
    && (s.record.currentControllerId.Some? ==> Connected(s.viewers, s.record.currentControllerId.value))
    && (s.record.pendingRequest.Some? ==> Connected(s.viewers, s.record.pendingRequest.value.viewerId))
  }

  // ---------------------------------------------------------------- history

  /** The latest successful /init, if there was one. */
  ghost function LastInit(log: seq<Observation>): (o: Option<Observation>)
    ensures o.Some? ==> o.value.Initialized?
  {
    if log == [] then None
    else if log[|log| - 1].Initialized? then Some(log[|log| - 1])
    else LastInit(log[..|log| - 1])
  }

  lemma LastInitAppend(log: seq<Observation>, o: Observation)
    ensures LastInit(log + [o]) == if o.Initialized? then Some(o) else LastInit(log)
  {
    assert (log + [o])[..|log|] == log;
  }

  ghost predicate EndsHostOrSession(o: Observation) {
    o.HostAttached? || o.HostCleared? || o.SessionStopped? || o.Initialized?
  }

  ghost predicate EndsRequest(o: Observation) { EndsHostOrSession(o) || o.RequestDropped? }

  ghost predicate EndsControl(o: Observation) { EndsHostOrSession(o) || o.ControlDropped? }

  /** At i the viewer asked under this generation, and nothing before n took the request back. */
  ghost predicate RequestAt(log: seq<Observation>, i: int, n: int, id: ViewerId, generation: nat, expires: Time) {
    && 0 <= i < n <= |log|
    && PENDING_REQUEST_TIMEOUT_MS <= expires
    && log[i].ControlRequested? && log[i].viewerId == id && log[i].generation == generation
    && log[i].at == expires - PENDING_REQUEST_TIMEOUT_MS
    && (forall m | i < m < n :: !EndsRequest(log[m]))
  }

  /**
   The viewer asked at i, the host of the same generation approved it at j within the
   request timeout and for 60 to 1800 seconds, and nothing before n took control away.
   */
  ghost predicate GrantAt(log: seq<Observation>, i: int, j: int, n: int, id: ViewerId, generation: nat, until: Time) {
    && 0 <= i < j < n <= |log|
    && log[i].ControlRequested? && log[i].viewerId == id && log[i].generation == generation
    && log[j].ControlApproved? && log[j].viewerId == id && log[j].generation == generation
    && log[j].until == until
    && log[i].at <= log[j].at < log[i].at + PENDING_REQUEST_TIMEOUT_MS
    && log[j].at + 60 * 1000 <= until <= log[j].at + DEFAULT_CONTROL_LEASE_SECONDS * 1000
    && (forall m | i < m < j :: !EndsRequest(log[m]))
    && (forall m | j < m < n :: !EndsControl(log[m]))
  }

  ghost predicate HasRequest(log: seq<Observation>, id: ViewerId, generation: nat, expires: Time) {
    exists i :: RequestAt(log, i, |log|, id, generation, expires)
  }

  ghost predicate HasGrant(log: seq<Observation>, n: int, id: ViewerId, generation: nat, until: Time) {
    exists i, j :: GrantAt(log, i, j, n, id, generation, until)
  }

  /** The frame forwarded at k was authorized: asked for, approved, in time, in a session that allows control. */
  ghost predicate Authorized(log: seq<Observation>, k: int)
    requires 0 <= k < |log| && log[k].StdinForwarded?
  {
    var init := LastInit(log[..k]);
    && init.Some? && init.value.allowControl && log[k].at < init.value.expiresAt
    && exists until ::
         HasGrant(log, k, log[k].viewerId, log[k].generation, until) && log[k].at < until
  }

  ghost predicate AllAuthorized(log: seq<Observation>) {
    forall k {:trigger Authorized(log, k)} | 0 <= k < |log| && log[k].StdinForwarded? :: Authorized(log, k)
  }

  /** Expiry and permission are those of the latest /init; before one, nothing is connected. */
  ghost predicate InitLink(s: State) {
    match LastInit(s.log)
    case None => !s.record.state.Ready? && !s.record.state.Active? && s.attachments == map[]
    case Some(init) =>
      && s.record.maxExpiresAt == init.expiresAt
      && s.record.allowControl == init.allowControl
      && !s.record.state.Idle?
      && s.stored.Some?
  }

  ghost predicate GrantTraced(log: seq<Observation>, id: Option<ViewerId>, generation: nat, until: Option<Time>) {
    id.Some? && until.Some? ==> HasGrant(log, |log|, id.value, generation, until.value)
  }

  ghost predicate RequestTraced(log: seq<Observation>, request: Option<ControlRequest>, generation: nat, expires: Option<Time>) {
    request.Some? && expires.Some? ==> HasRequest(log, request.value.viewerId, generation, expires.value)
  }

  ghost predicate ControlTraced(s: State) {
    && GrantTraced(s.log, s.record.currentControllerId, s.record.generation, s.record.controlLeaseExpiresAt)
    && RequestTraced(s.log, s.record.pendingRequest, s.record.generation, s.record.pendingRequestExpiresAt)
    && (s.record.pendingRequest.Some? && s.record.pendingRequestExpiresAt.Some? ==>
          s.record.pendingRequestExpiresAt.value <= s.clock + PENDING_REQUEST_TIMEOUT_MS)
  }

  ghost predicate History(s: State) {
    AllAuthorized(s.log) && ControlTraced(s) && InitLink(s)
  }

  /** The deadline is unset, already past, or not before the alarm. */
  ghost predicate Guards(alarm: Option<Time>, deadline: Option<Time>, clock: Time) {
    deadline.Some? && clock < deadline.value ==> alarm.Some? && alarm.value <= deadline.value
  }

  ghost predicate NotLater(alarm: Option<Time>, r: SessionRecord, clock: Time) {
    && Guards(alarm, Some(r.sessionExpiresAt), clock)
    && Guards(alarm, r.hostDisconnectDeadline, clock)
    && Guards(alarm, r.pendingRequestExpiresAt, clock)
    && Guards(alarm, r.controlLeaseExpiresAt, clock)
  }

  /** The deadline is unset, or the alarm goes off no earlier. */
  ghost predicate Reaches(alarm: Time, deadline: Option<Time>) {
    deadline.Some? ==> deadline.value <= alarm
  }

  /** When the alarm goes off, the session expires, or whatever else is pending does. */
  ghost predicate Catches(alarm: Option<Time>, r: SessionRecord) {
    alarm.Some? ==>
      || r.sessionExpiresAt <= alarm.value
      || (&& Reaches(alarm.value, r.hostDisconnectDeadline)
          && Reaches(alarm.value, r.pendingRequestExpiresAt)
          && Reaches(alarm.value, r.controlLeaseExpiresAt))
  }

  /**
   An initialized session that is not closed has an alarm no later than any deadline still ahead,
   and late enough for every deadline but the session's own.
   */
  ghost predicate Covered(s: State) {
    LastInit(s.log).Some? && !s.record.state.Closed? ==>
      NotLater(s.alarm, s.record, s.clock) && Catches(s.alarm, s.record)
  }

  lemma NextAlarmNotLater(r: SessionRecord, now: Time)
    ensures !r.state.Closed? ==> NotLater(NextAlarm(r, now), r, now)
    ensures !r.state.Closed? && RecordShape(r) ==> Catches(NextAlarm(r, now), r)
  {}

  /** What holds at every point where a handler may send; only the middle of a restart lacks `Linked`. */
  ghost predicate Base(s: State) {
    && RecordShape(s.record)
    && Names(s)
    && OnePerToken(s.viewers)
    && History(s)
    && (s.hostConnected ==> s.host.Some?)
  }

  /** What holds between two events. */
  ghost predicate Inv(s: State) {
    && Base(s)
    && Linked(s)
    && Saved(s)
    && (s.host.Some? ==> s.hostConnected)
    && s.owed == 0
  }

  // ---------------------------------------------------------------- extending the log

  lemma AuthorizedPrefix(log: seq<Observation>, o: Observation, k: int)
    requires 0 <= k < |log| && log[k].StdinForwarded? && Authorized(log, k)
    ensures Authorized(log + [o], k)
  {
    var more := log + [o];
    assert more[..k] == log[..k];
    var until :| HasGrant(log, k, log[k].viewerId, log[k].generation, until) && log[k].at < until;
    var i, j :| GrantAt(log, i, j, k, log[k].viewerId, log[k].generation, until);
    assert GrantAt(more, i, j, k, more[k].viewerId, more[k].generation, until);
    assert HasGrant(more, k, more[k].viewerId, more[k].generation, until);
  }

  lemma AllAuthorizedAppend(log: seq<Observation>, o: Observation)
    requires AllAuthorized(log)
    requires o.StdinForwarded? ==> Authorized(log + [o], |log|)
    ensures AllAuthorized(log + [o])
  {
    forall k | 0 <= k < |log + [o]| && (log + [o])[k].StdinForwarded? ensures Authorized(log + [o], k) {
      if k < |log| { AuthorizedPrefix(log, o, k); }
    }
  }

  lemma GrantAppend(log: seq<Observation>, o: Observation, id: ViewerId, generation: nat, until: Time)
    requires HasGrant(log, |log|, id, generation, until) && !EndsControl(o)
    ensures HasGrant(log + [o], |log| + 1, id, generation, until)
  {
    var i, j :| GrantAt(log, i, j, |log|, id, generation, until);
    assert GrantAt(log + [o], i, j, |log| + 1, id, generation, until);
  }

  lemma RequestAppend(log: seq<Observation>, o: Observation, id: ViewerId, generation: nat, expires: Time)
    requires HasRequest(log, id, generation, expires) && !EndsRequest(o)
    ensures HasRequest(log + [o], id, generation, expires)
  {
    var i :| RequestAt(log, i, |log|, id, generation, expires);
    assert RequestAt(log + [o], i, |log| + 1, id, generation, expires);
  }

  /** t keeps, or gives up, the control that s traced. */
  ghost predicate NoNewControl(s: State, t: State) {
    && t.record.generation == s.record.generation
    && (t.record.currentControllerId.Some? ==>
          t.record.currentControllerId == s.record.currentControllerId
          && t.record.controlLeaseExpiresAt == s.record.controlLeaseExpiresAt)
    && (t.record.pendingRequest.Some? ==>
          t.record.pendingRequest == s.record.pendingRequest
          && t.record.pendingRequestExpiresAt == s.record.pendingRequestExpiresAt)
  }

  /** One more log entry that starts nothing, with the control it ends given up. */
  lemma HistoryAppend(s: State, t: State, o: Observation)
    requires AllAuthorized(s.log) && ControlTraced(s)
    requires t.log == s.log + [o] && !o.StdinForwarded? && !o.Initialized?
    requires s.clock <= t.clock
    requires t.record.currentControllerId.Some? || t.record.pendingRequest.Some? ==> NoNewControl(s, t)
    requires EndsControl(o) ==> t.record.currentControllerId.None?
    requires EndsRequest(o) ==> t.record.pendingRequest.None?
    ensures AllAuthorized(t.log) && ControlTraced(t) && LastInit(t.log) == LastInit(s.log)
  {
    AllAuthorizedAppend(s.log, o);
    LastInitAppend(s.log, o);
    if t.record.currentControllerId.Some? && t.record.controlLeaseExpiresAt.Some? {
      GrantAppend(s.log, o, t.record.currentControllerId.value, t.record.generation, t.record.controlLeaseExpiresAt.value);
    }
    if t.record.pendingRequest.Some? && t.record.pendingRequestExpiresAt.Some? {
      RequestAppend(s.log, o, t.record.pendingRequest.value.viewerId, t.record.generation,
                    t.record.pendingRequestExpiresAt.value);
    }
  }

  lemma ObserveKeeps(s: State, o: Observation)
    requires Base(s) && !o.StdinForwarded? && !o.Initialized?
    requires EndsControl(o) ==> s.record.currentControllerId.None?
    requires EndsRequest(o) ==> s.record.pendingRequest.None?
    ensures Base(Observe(s, o)) && LastInit(Observe(s, o).log) == LastInit(s.log)
  {
    HistoryAppend(s, Observe(s, o), o);
  }

  // ---------------------------------------------------------------- losing connections

  /** From s to t nothing was gained: names, time and expiry stay, connections and control only go. */
  ghost predicate Lossy(s: State, t: State) {
    Shrinks(s, t) && (Live(s) ==> Live(t))
  }

  /** `Lossy` but for the connections that control rests on. */
  ghost predicate Shrinks(s: State, t: State) {
    && Base(t)
    && t.clock == s.clock && t.attachments == s.attachments && t.issued == s.issued
    && LastInit(t.log) == LastInit(s.log)
    && NoNewControl(s, t)
    && (s.stored.Some? ==> t.stored.Some?)
    && t.record.viewerIdentities == s.record.viewerIdentities
    && t.record.sessionExpiresAt == s.record.sessionExpiresAt
    && t.record.allowControl == s.record.allowControl
    && (t.hostConnected ==> s.hostConnected)
    && (t.host.Some? ==> t.host == s.host && t.record.state == s.record.state && t.hostConnected == s.hostConnected)
    && (s.host.None? ==> t.record.state == s.record.state && t.hostConnected == s.hostConnected)
    && (t.record.state != s.record.state ==> t.record.state.Ready? && t.host.None? && !t.hostConnected)
    && (forall v | v in t.viewers :: v in s.viewers)
    && (Linked(s) ==> Linked(t))
    && (Saved(s) ==> Saved(t))
    && (Covered(s) ==> Covered(t))
  }

  lemma LossyTransitive(s: State, t: State, u: State)
    requires Lossy(s, t) && Lossy(t, u)
    ensures Lossy(s, u)
  {
    ShrinksTransitive(s, t, u);
  }

  lemma ShrinksTransitive(s: State, t: State, u: State)
    requires Shrinks(s, t) && Shrinks(t, u)
    ensures Shrinks(s, u)
  {}

  lemma LossySelf(s: State)
    requires Base(s)
    ensures Lossy(s, s)
  {}

  lemma LossyBase(s: State, t: State)
    requires Lossy(s, t)
    ensures Base(t) && t.clock == s.clock
  {}

  lemma IgnoredLossy(s: State)
    requires Base(s)
    ensures Base(SendIgnored(s)) && Lossy(s, SendIgnored(s))
  {
    hide AllAuthorized, GrantTraced, RequestTraced, Injective, AllIssued, RequestsDistinct, AllKnown;
  }

  lemma IgnoredKeeps(s: State, t: State)
    requires Lossy(SendIgnored(s), t)
    ensures Lossy(s, t)
  {}

  lemma ClearHostKeeps(s: State, now: Time)
    requires Base(s) && s.clock == now && s.host.Some?
    ensures Lossy(s, ClearHost(s, now)) && Linked(ClearHost(s, now))
  {
    HistoryAppend(s, ClearHost(s, now), HostCleared(now));
    NextAlarmNotLater(ClearHost(s, now).record, now);
  }

  lemma RevokeControlKeeps(s: State, now: Time)
    requires Base(s) && s.clock == now
    ensures Lossy(s, RevokeControl(s, now))
    ensures RevokeControl(s, now).record.currentControllerId.None?
    ensures RevokeControl(s, now).viewers == s.viewers
  {
    if s.record.currentControllerId.Some? {
      HistoryAppend(s, RevokeControl(s, now), ControlDropped(now));
      NextAlarmNotLater(RevokeControl(s, now).record, now);
    }
  }

  lemma DropRequestKeeps(s: State, now: Time)
    requires Base(s) && s.clock == now && s.record.pendingRequest.Some?
    ensures Lossy(s, DropRequest(s, now)) && DropRequest(s, now).viewers == s.viewers
  {
    HistoryAppend(s, DropRequest(s, now), RequestDropped(now));
    NextAlarmNotLater(DropRequest(s, now).record, now);
  }

  lemma UpdateInPlaceKeeps(s: State, now: Time)
    requires Base(s) && s.clock == now
    ensures Lossy(s, UpdateRecord(s, s.record, now)) && UpdateRecord(s, s.record, now).viewers == s.viewers
  {
    NextAlarmNotLater(s.record, now);
  }

  lemma DeleteShrinks(s: State, socket: Socket)
    requires Base(s)
    ensures Shrinks(s, s.(viewers := DeleteViewer(s.viewers, socket)))
  {}

  lemma ShrinksBase(s: State, t: State)
    requires Shrinks(s, t)
    ensures Base(t) && t.clock == s.clock
  {}

  /** Removing a connection gives up what its viewer holds. */
  lemma RemoveViewerShrinks(s: State, socket: Socket, now: Time)
    requires Base(s) && s.clock == now
    ensures Shrinks(s, RemoveViewer(s, socket, now))
    ensures RemoveViewer(s, socket, now).viewers == DeleteViewer(s.viewers, socket)
  {
    hide Shrinks, Base, Live, RevokeControl, DropRequest, UpdateRecord, FindViewer, DeleteViewer;
    var viewer := FindViewer(s.viewers, socket);
    var t := s.(viewers := DeleteViewer(s.viewers, socket));
    DeleteShrinks(s, socket);
    ShrinksBase(s, t);
    if viewer.None? {
      UpdateInPlaceKeeps(t, now);
      if t.record.pendingRequest.None? { ShrinksTransitive(s, t, UpdateRecord(t, t.record, now)); }
    } else {
      var u := if t.record.currentControllerId == Some(viewer.value.id) then RevokeControl(t, now) else t;
      RevokeControlKeeps(t, now);
      if u != t { ShrinksTransitive(s, t, u); }
      ShrinksBase(s, u);
      if u.record.pendingRequest.Some? && u.record.pendingRequest.value.viewerId == viewer.value.id {
        DropRequestKeeps(u, now);
        ShrinksTransitive(s, u, DropRequest(u, now));
      }
    }
  }

  /** After the removal neither the controller nor the pending viewer is the removed one. */
  lemma RemovedHoldsNothing(s: State, socket: Socket, now: Time)
    requires RecordShape(s.record) && FindViewer(s.viewers, socket).Some?
    ensures var id := FindViewer(s.viewers, socket).value.id;
            var r := RemoveViewer(s, socket, now).record;
            && r.currentControllerId != Some(id)
            && (r.pendingRequest.Some? ==> r.pendingRequest.value.viewerId != id)
  {}

  lemma RemoveViewerKeeps(s: State, socket: Socket, now: Time)
    requires Base(s) && s.clock == now
    ensures Lossy(s, RemoveViewer(s, socket, now))
    ensures forall v | v in RemoveViewer(s, socket, now).viewers :: v.socket != socket
    ensures RemoveViewer(s, socket, now).host == s.host
  {
    hide NextAlarm, DeleteViewer;
    RemoveViewerShrinks(s, socket, now);
    var t := RemoveViewer(s, socket, now);
    if Live(s) { RemovalLive(s, t, socket, now); }
  }

  lemma RemovalLive(s: State, t: State, socket: Socket, now: Time)
    requires Base(s) && Live(s) && t == RemoveViewer(s, socket, now)
    requires NoNewControl(s, t) && t.viewers == DeleteViewer(s.viewers, socket)
    ensures Live(t)
  {
    var viewer := FindViewer(s.viewers, socket);
    OthersStay(s, socket);
    if viewer.Some? { RemovedHoldsNothing(s, socket, now); }
    else {
      assert forall v | v in s.viewers :: v in t.viewers;
    }
  }

  /** The removed connection is the only one of its id. */
  lemma OthersStay(s: State, socket: Socket)
    requires Names(s) && OnePerToken(s.viewers)
    ensures forall id | Connected(s.viewers, id) && FindViewer(s.viewers, socket).Some?
                        && FindViewer(s.viewers, socket).value.id != id ::
              Connected(DeleteViewer(s.viewers, socket), id)
  {
    forall id | Connected(s.viewers, id) && FindViewer(s.viewers, socket).Some?
                && FindViewer(s.viewers, socket).value.id != id
      ensures Connected(DeleteViewer(s.viewers, socket), id)
    {
      var v :| v in s.viewers && v.id == id;
      assert Known(s.attachments, v) && Known(s.attachments, FindViewer(s.viewers, socket).value);
      assert v in DeleteViewer(s.viewers, socket);
    }
  }

  lemma SendHostKeeps(s: State, c: Ctx)
    requires Base(s) && s.clock == c.now
    ensures Lossy(s, SendHost(s, c)) && SendHost(s, c).viewers == s.viewers
  {
    hide Base, Lossy, Linked;
    IgnoredLossy(s);
    if s.host.Some? && !c.ok(s.sends) {
      ClearHostKeeps(SendIgnored(s), c.now);
      IgnoredKeeps(s, ClearHost(SendIgnored(s), c.now));
    } else if s.host.None? { LossySelf(s); }
  }

  lemma {:induction false} SendHostTimesKeeps(s: State, times: nat, c: Ctx)
    requires Base(s) && s.clock == c.now
    ensures Lossy(s, SendHostTimes(s, times, c))
    ensures SendHostTimes(s, times, c).viewers == s.viewers
    decreases times
  {
    hide SendHost, Lossy, Base;
    if times == 0 { LossySelf(s); }
    else {
      var t := SendHost(s, c);
      SendHostKeeps(s, c);
      LossyBase(s, t);
      SendHostTimesKeeps(t, times - 1, c);
      LossyTransitive(s, t, SendHostTimes(t, times - 1, c));
    }
  }

  lemma SendViewerKeeps(s: State, v: Viewer, c: Ctx)
    requires Base(s) && s.clock == c.now
    ensures Lossy(s, SendViewer(s, v, c)) && SendViewer(s, v, c).host == s.host
  {
    hide Base, Lossy, RemoveViewer;
    IgnoredLossy(s);
    if !c.ok(s.sends) {
      RemoveViewerKeeps(SendIgnored(s), v.socket, c.now);
      IgnoredKeeps(s, RemoveViewer(SendIgnored(s), v.socket, c.now));
    }
  }

  lemma {:induction false} SendViewersKeeps(s: State, vs: seq<Viewer>, c: Ctx)
    requires Base(s) && s.clock == c.now
    ensures Lossy(s, SendViewers(s, vs, c))
    ensures SendViewers(s, vs, c).host == s.host
    decreases |vs|
  {
    hide SendViewer, Lossy, Base;
    if vs == [] { LossySelf(s); }
    else {
      var t := SendViewer(s, vs[0], c);
      SendViewerKeeps(s, vs[0], c);
      LossyBase(s, t);
      SendViewersKeeps(t, vs[1..], c);
      LossyTransitive(s, t, SendViewers(t, vs[1..], c));
    }
  }

  lemma BroadcastKeeps(s: State, c: Ctx)
    requires Base(s) && s.clock == c.now
    ensures Lossy(s, BroadcastStatus(s, c))
  {
    hide Base, Lossy, SendHost, SendViewers;
    var t := SendHost(s, c);
    SendHostKeeps(s, c);
    LossyBase(s, t);
    SendViewersKeeps(t, t.viewers, c);
    LossyTransitive(s, t, SendViewers(t, t.viewers, c));
  }

  function PaidOnce(s: State, c: Ctx): (t: State)
    requires s.owed > 0
    ensures Sockets(t) < Sockets(s) || (Sockets(t) == Sockets(s) && t.owed < s.owed)
    ensures Settle(s, c) == Settle(t, c)
  {
    var paid := s.(owed := s.owed - 1);
    BroadcastSpends(paid, c);
    BroadcastStatus(paid, c)
  }

  lemma PayOneKeeps(s: State, c: Ctx)
    requires Base(s) && s.clock == c.now && s.owed > 0
    ensures Lossy(s, PaidOnce(s, c))
  {
    hide BroadcastStatus, AllAuthorized, GrantTraced, RequestTraced, Injective, AllIssued, RequestsDistinct, AllKnown;
    PaidBase(s);
    BroadcastKeeps(s.(owed := s.owed - 1), c);
  }

  lemma PaidBase(s: State)
    requires Base(s) && s.owed > 0
    ensures Base(s.(owed := s.owed - 1))
  {
    hide AllAuthorized, GrantTraced, RequestTraced, Injective, AllIssued, RequestsDistinct, AllKnown, OnePerToken;
  }

  lemma {:induction false} SettleKeeps(s: State, c: Ctx)
    requires Base(s) && s.clock == c.now
    ensures Lossy(s, Settle(s, c))
    decreases Sockets(s), s.owed
  {
    hide Base, Lossy, BroadcastStatus;
    if s.owed > 0 {
      var t := PaidOnce(s, c);
      PayOneKeeps(s, c);
      LossyBase(s, t);
      SettleKeeps(t, c);
      LossyTransitive(s, t, Settle(t, c));
    } else { LossySelf(s); }
  }
}
