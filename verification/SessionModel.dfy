/**
 The shared-terminal session: its state, and the transition of every handler as a
 function of the state, the event, one clock reading and the fate of each send.

 Every send that the session attempts has a number, and send number n succeeds
 exactly when `ok(n)` holds, so a claim proved for every `ok` covers every pattern of
 failing sends. A handler that starts an asynchronous clean-up without awaiting it
 changes the record at once and broadcasts later; `owed` counts those broadcasts, and
 `Settle` runs them when the handler has finished or awaits.
 */
module SessionModel {
  import opened Prelude

  type Time = nat       // milliseconds
  type Socket = nat
  type ViewerId = nat
  type Token = nat
  type RequestId = nat
  type Oracle = nat -> bool

  const DEFAULT_CONTROL_LEASE_SECONDS: nat := 30 * 60
  const SESSION_IDLE_TTL_MS: nat := 24 * 60 * 60 * 1000
  const SESSION_MAX_TTL_MS: nat := 7 * 24 * 60 * 60 * 1000
  const SESSION_RENEW_THRESHOLD_MS: nat := 30 * 60 * 1000
  const HOST_DISCONNECT_GRACE_MS: nat := 3 * 60 * 1000
  const PENDING_REQUEST_TIMEOUT_MS: nat := 30 * 1000
  const MAX_MESSAGE_BYTES: nat := 1024 * 1024
  const TTY_OUTPUT: nat := 1
  const STDIN: nat := 2

  datatype Phase = Idle | Ready | Active | Ended | Closed
  datatype ControlRequest = ControlRequest(viewerId: ViewerId, leaseSeconds: nat)
  datatype TerminalSize = TerminalSize(cols: int, rows: int)
  datatype TerminalProfile = Unix | WindowsConpty

  datatype SessionRecord = SessionRecord(
    allowControl: bool,
    state: Phase,
    currentControllerId: Option<ViewerId>,
    controlLeaseExpiresAt: Option<Time>,
    pendingRequest: Option<ControlRequest>,
    pendingRequestExpiresAt: Option<Time>,
    viewerIdentities: map<Token, ViewerId>,
    createdAt: Time,
    maxExpiresAt: Time,
    sessionExpiresAt: Time,
    hostDisconnectDeadline: Option<Time>,
    endReason: Option<string>,
    generation: nat)

  datatype Viewer = Viewer(id: ViewerId, token: Token, socket: Socket)

  datatype Attachment =
    | HostAttachment
    | ViewerAttachment(viewerId: ViewerId, viewerToken: Token, snapshotRequestId: RequestId)

  /** What an outside observer could note down; the history every whole-run claim reads. */
  datatype Observation =
    | Initialized(at: Time, expiresAt: Time, allowControl: bool)
    | HostAttached(socket: Socket, generation: nat, at: Time)
    | HostCleared(at: Time)
    | SessionStopped(at: Time)
    | ControlRequested(socket: Socket, viewerId: ViewerId, generation: nat, at: Time)
    | RequestDropped(at: Time)
    | ControlApproved(socket: Socket, viewerId: ViewerId, generation: nat, until: Time, at: Time)
    | ControlDropped(at: Time)
    | StdinForwarded(socket: Socket, viewerId: ViewerId, generation: nat, at: Time)
    | SnapshotDelivered(socket: Socket, requestId: RequestId)
    | SocketClosed(socket: Socket, code: nat)
    | Replied(status: nat)

  datatype State = State(
    host: Option<Socket>,
    hostConnected: bool,
    hostTerminalSize: Option<TerminalSize>,
    hostTerminalProfile: Option<TerminalProfile>,
    viewers: seq<Viewer>,                    // insertion order of the Map
    record: SessionRecord,
    stored: Option<SessionRecord>,           // the persisted record
    alarm: Option<Time>,
    attachments: map<Socket, Attachment>,    // every socket ever accepted
    issued: map<Token, ViewerId>,            // every identity ever handed out
    clock: Time,
    sends: nat,
    owed: nat,
    log: seq<Observation>)

  /** One handler run: the clock reading it sees and the fate of every send. */
  datatype Ctx = Ctx(now: Time, ok: Oracle)

  datatype Frame =
    | SessionEnd
    | Snapshot(requestId: Option<RequestId>)
    | Approve(viewerId: Option<ViewerId>, lease: Option<real>)
    | Reject(viewerId: Option<ViewerId>)
    | Revoke
    | Size(cols: Option<real>, rows: Option<real>)
    | Profile(profile: Option<TerminalProfile>)
    | Release
    | Request(lease: Option<real>)
    | SizeRequest
    | ProfileRequest
    | OtherFrame

  datatype Data =
    | Text(size: nat, frame: Frame)
    | Binary(size: nat, kind: Option<nat>)
    | UnsupportedContainer

  datatype Expiry = DefaultExpiry | NotFinite | At(ms: int)

  datatype Event =
    | Init(now: Time, allowControl: bool, expiresAt: Expiry)
    | End(now: Time)
    | Status(now: Time)
    | ConnectHost(now: Time, socket: Socket)
    | ConnectViewer(now: Time, socket: Socket, token: Option<Token>,
                    freshToken: Token, freshId: ViewerId, requestId: RequestId)
    | Alarm(now: Time)
    | Message(now: Time, socket: Socket, data: Data)
    | Close(now: Time, socket: Socket)
    | Restore(now: Time, open: seq<Socket>)

  // ---------------------------------------------------------------- small helpers

  function Trunc(x: real): int {
    if x >= 0.0 then x.Floor else -((-x).Floor)
  }

  /** A finite lease request clamped to 60..1800 seconds, otherwise the fallback. */
  function NormalizeLeaseSeconds(lease: Option<real>, fallback: nat): (seconds: nat)
    ensures 60 <= fallback <= DEFAULT_CONTROL_LEASE_SECONDS ==> 60 <= seconds <= DEFAULT_CONTROL_LEASE_SECONDS
    ensures lease.None? ==> seconds == fallback
    ensures lease.Some? && lease.value < 61.0 ==> seconds == 60
    ensures lease.Some? && 61.0 <= lease.value < 1800.0 ==> seconds as real <= lease.value < seconds as real + 1.0
    ensures lease.Some? && 1800.0 <= lease.value ==> seconds == DEFAULT_CONTROL_LEASE_SECONDS
  {
    match lease
    case None => fallback
    case Some(x) => Max(60, Min(Trunc(x), DEFAULT_CONTROL_LEASE_SECONDS))
  }

  function NormalizeTerminalSize(cols: Option<real>, rows: Option<real>): Option<TerminalSize> {
    if cols.None? || rows.None? then None
    else
      var c, r := Trunc(cols.value), Trunc(rows.value);
      if c < 1 || r < 1 || c > 1000 || r > 1000 then None else Some(TerminalSize(c, r))
  }

  /** A deadline that is set (and not the falsy zero) and has been reached. */
  predicate Due(deadline: Option<Time>, now: Time) {
    deadline.Some? && deadline.value != 0 && now >= deadline.value
  }

  function InitialRecord(state: Phase, now: Time): SessionRecord {
    SessionRecord(false, state, None, None, None, None, map[], now,
                  now + SESSION_IDLE_TTL_MS,
                  Min(now + SESSION_IDLE_TTL_MS, now + SESSION_MAX_TTL_MS),
                  None, None, 0)
  }

  function FindViewer(viewers: seq<Viewer>, socket: Socket): (v: Option<Viewer>)
    ensures v.Some? ==> v.value in viewers && v.value.socket == socket
    ensures v.None? <==> forall w | w in viewers :: w.socket != socket
  {
    if viewers == [] then None
    else if viewers[0].socket == socket then Some(viewers[0])
    else FindViewer(viewers[1..], socket)
  }

  /** Map.delete: the entry of one socket goes, the order of the others stays. */
  function DeleteViewer(viewers: seq<Viewer>, socket: Socket): (rest: seq<Viewer>)
    ensures forall w :: w in rest <==> w in viewers && w.socket != socket
    ensures |rest| <= |viewers|
    ensures (exists w :: w in viewers && w.socket == socket) ==> |rest| < |viewers|
  {
    if viewers == [] then []
    else if viewers[0].socket == socket then DeleteViewer(viewers[1..], socket)
    else [viewers[0]] + DeleteViewer(viewers[1..], socket)
  }

  function Observe(s: State, o: Observation): State {
    s.(log := s.log + [o])
  }

  function CloseSocket(s: State, socket: Socket, code: nat): State {
    Observe(s, SocketClosed(socket, code))
  }

  // ---------------------------------------------------------------- storage and alarm

  function Persist(s: State): State {
    s.(stored := Some(s.record))
  }

  /** The earlier of two optional times. */
  function Earlier(a: Option<Time>, b: Option<Time>): Option<Time> {
    if a.None? then b
    else if b.None? then a
    else Some(Min(a.value, b.value))
  }

  function Future(deadline: Option<Time>, now: Time): Option<Time> {
    if deadline.Some? && deadline.value > now then deadline else None
  }

  /** The alarm scheduleNextAlarm asks for: the least deadline still ahead, if any. */
  function NextAlarm(r: SessionRecord, now: Time): Option<Time> {
    if r.state.Closed? then None
    else
      Earlier(Future(Some(r.sessionExpiresAt), now),
              Earlier(Future(r.hostDisconnectDeadline, now),
                      Earlier(Future(r.pendingRequestExpiresAt, now),
                              Future(r.controlLeaseExpiresAt, now))))
  }

  function ScheduleNextAlarm(s: State, now: Time): State {
    s.(alarm := NextAlarm(s.record, now))
  }

  function UpdateRecord(s: State, r: SessionRecord, now: Time): State {
    ScheduleNextAlarm(Persist(s.(record := r)), now)
  }

  function TouchSession(s: State, now: Time): State {
    if s.record.state.Closed? then s
    else if s.record.sessionExpiresAt - now > SESSION_RENEW_THRESHOLD_MS then s
    else
      var next := Min(now + SESSION_IDLE_TTL_MS, s.record.maxExpiresAt);
      if next <= s.record.sessionExpiresAt then s
      else UpdateRecord(s, s.record.(sessionExpiresAt := next), now)
  }

  // ---------------------------------------------------------------- losing connections

  function WithoutControl(r: SessionRecord): SessionRecord {
    r.(currentControllerId := None, controlLeaseExpiresAt := None,
       pendingRequest := None, pendingRequestExpiresAt := None)
  }

  function UnseatHost(s: State, now: Time): State {
    Observe(s, HostCleared(now)).(
      host := None, hostConnected := false, hostTerminalSize := None, hostTerminalProfile := None)
  }

  /** clearHost up to its first await; the status broadcast after it is owed. */
  function ClearHost(s: State, now: Time): State {
    var r := WithoutControl(s.record).(
      hostDisconnectDeadline := Some(now + HOST_DISCONNECT_GRACE_MS), state := Ready);
    UpdateRecord(UnseatHost(s, now), r, now).(owed := s.owed + 1)
  }

  /** handleControlRevoke up to its first await; the status broadcast after it is owed. */
  function RevokeControl(s: State, now: Time): State {
    if s.record.currentControllerId.None? then s
    else
      var r := s.record.(currentControllerId := None, controlLeaseExpiresAt := None);
      UpdateRecord(Observe(s, ControlDropped(now)), r, now).(owed := s.owed + 1)
  }

  function DropRequest(s: State, now: Time): State {
    var r := s.record.(pendingRequest := None, pendingRequestExpiresAt := None);
    UpdateRecord(Observe(s, RequestDropped(now)), r, now)
  }

  function RemoveViewer(s: State, socket: Socket, now: Time): State {
    var viewer := FindViewer(s.viewers, socket);
    var t := s.(viewers := DeleteViewer(s.viewers, socket));
    if viewer.None? then
      // Two undefined ids compare equal, so only a pending request returns early.
      if t.record.pendingRequest.Some? then t else UpdateRecord(t, t.record, now)
    else
      var u := if t.record.currentControllerId == Some(viewer.value.id) then RevokeControl(t, now) else t;
      if u.record.pendingRequest.Some? && u.record.pendingRequest.value.viewerId == viewer.value.id
      then DropRequest(u, now) else u
  }

  // ---------------------------------------------------------------- sending

  /** sendSocket with its result ignored. */
  function SendIgnored(s: State): State {
    s.(sends := s.sends + 1)
  }

  function SendHost(s: State, c: Ctx): State {
    if s.host.None? then s
    else if c.ok(s.sends) then SendIgnored(s)
    else ClearHost(SendIgnored(s), c.now)
  }

  function SendHostTimes(s: State, times: nat, c: Ctx): State
    decreases times
  {
    if times == 0 then s else SendHostTimes(SendHost(s, c), times - 1, c)
  }

  function SendViewer(s: State, v: Viewer, c: Ctx): State {
    if c.ok(s.sends) then SendIgnored(s)
    else RemoveViewer(SendIgnored(s), v.socket, c.now)
  }

  function SendViewers(s: State, vs: seq<Viewer>, c: Ctx): State
    decreases |vs|
  {
    if vs == [] then s else SendViewers(SendViewer(s, vs[0], c), vs[1..], c)
  }

  function BroadcastStatus(s: State, c: Ctx): State {
    var t := SendHost(s, c);
    SendViewers(t, t.viewers, c)
  }

  function RequestHostTerminalDetails(s: State, c: Ctx): State {
    SendHostTimes(s, 2, c)
  }

  /** How many sockets the session still holds: what every failing send reduces. */
  function Sockets(s: State): nat {
    |s.viewers| + if s.host.Some? then 1 else 0
  }

  /** Losing nothing leaves the debt alone; every new debt costs a socket. */
  predicate Spends(s: State, t: State) {
    && Sockets(t) <= Sockets(s)
    && (Sockets(t) == Sockets(s) ==> t.owed <= s.owed)
  }

  lemma SendHostSpends(s: State, c: Ctx)
    ensures Spends(s, SendHost(s, c))
  {}

  lemma SendViewersSpends(s: State, vs: seq<Viewer>, c: Ctx)
    ensures Spends(s, SendViewers(s, vs, c))
    decreases |vs|
  {
    hide SendViewer;
    if vs != [] {
      SendViewerSpends(s, vs[0], c);
      SendViewersSpends(SendViewer(s, vs[0], c), vs[1..], c);
    }
  }

  lemma SendViewerSpends(s: State, v: Viewer, c: Ctx)
    ensures Spends(s, SendViewer(s, v, c))
  {
    hide NextAlarm;
  }

  lemma BroadcastSpends(s: State, c: Ctx)
    ensures Spends(s, BroadcastStatus(s, c))
  {
    hide SendHost, SendViewers;
    SendHostSpends(s, c);
    var t := SendHost(s, c);
    SendViewersSpends(t, t.viewers, c);
  }

  /** Runs every owed broadcast, including those that the broadcasts themselves cause. */
  function Settle(s: State, c: Ctx): (t: State)
    ensures t.owed == 0
    decreases Sockets(s), s.owed
  {
    if s.owed == 0 then s
    else
      var paid := s.(owed := s.owed - 1);
      BroadcastSpends(paid, c);
      Settle(BroadcastStatus(paid, c), c)
  }

  // ---------------------------------------------------------------- ending and expiry

  function CloseSession(s: State, reason: string, now: Time): State {
    if s.record.state.Closed? then s
    else
      var r := WithoutControl(s.record).(
        state := Closed, endReason := Some(reason), hostDisconnectDeadline := None);
      Observe(s, SessionStopped(now)).(hostConnected := false, record := r)
  }

  function EndSharing(s: State, reason: string, now: Time): State {
    var t := CloseSession(s, reason, now);
    t.(record := t.record.(state := Ended))
  }

  function CloseHostSocket(s: State): State {
    if s.host.None? then s else CloseSocket(s, s.host.value, 4000).(host := None)
  }

  function FinishSharing(s: State, c: Ctx): State {
    CloseHostSocket(BroadcastStatus(
      s.(hostConnected := false, hostTerminalSize := None, hostTerminalProfile := None), c))
  }

  function CloseViewers(s: State, vs: seq<Viewer>): State
    decreases |vs|
  {
    if vs == [] then s else CloseViewers(CloseSocket(s, vs[0].socket, 4000), vs[1..])
  }

  function FinishClosedSession(s: State, c: Ctx): State {
    var t := CloseHostSocket(BroadcastStatus(s.(hostConnected := false), c));
    CloseViewers(t, t.viewers).(viewers := [], hostTerminalSize := None, hostTerminalProfile := None)
  }

  function ExpireRequest(s: State, now: Time): State {
    if !Due(s.record.pendingRequestExpiresAt, now) then s
    else Observe(s, RequestDropped(now)).(
      record := s.record.(pendingRequest := None, pendingRequestExpiresAt := None))
  }

  function ExpireControl(s: State, now: Time): State {
    if !Due(s.record.controlLeaseExpiresAt, now) then s
    else Observe(s, ControlDropped(now)).(
      record := s.record.(currentControllerId := None, controlLeaseExpiresAt := None))
  }

  /** The state a live record should be in, given whether a host is connected. */
  function RunningState(s: State): Phase {
    var state := s.record.state;
    if state.Closed? || state.Ended? then state
    else if s.hostConnected then Active
    else if !state.Idle? then Ready
    else state
  }

  /** advanceRecord: everything that the passing of time alone does to the record. */
  function AdvanceRecord(s: State, now: Time): (State, bool) {
    if Due(Some(s.record.sessionExpiresAt), now) then (CloseSession(s, "session expired", now), true)
    else
      var t := ExpireControl(ExpireRequest(s, now), now);
      if !t.hostConnected && Due(t.record.hostDisconnectDeadline, now)
      then (EndSharing(t, "host disconnected", now), true)
      else
        var changed := Due(s.record.pendingRequestExpiresAt, now) || Due(s.record.controlLeaseExpiresAt, now)
                       || RunningState(t) != t.record.state;
        (t.(record := t.record.(state := RunningState(t))), changed)
  }

  /** The finishing step the new state asks for, once an advance has been persisted. */
  function AfterAdvance(s: State, c: Ctx): State {
    if s.record.state.Closed? then FinishClosedSession(s, c)
    else if s.record.state.Ended? then FinishSharing(s, c)
    else s
  }

  function AdvanceAndPersist(s: State, c: Ctx): (State, bool) {
    var (t, changed) := AdvanceRecord(s, c.now);
    if changed then (AfterAdvance(Persist(t), c), true) else (t, false)
  }

  // ---------------------------------------------------------------- control protocol

  predicate CanWrite(s: State, socket: Socket) {
    var viewer := FindViewer(s.viewers, socket);
    s.record.state.Active? && s.hostConnected && viewer.Some?
    && s.record.currentControllerId == Some(viewer.value.id)
  }

  function RecordRequest(s: State, v: Viewer, seconds: nat, now: Time): State {
    var r := s.record.(
      pendingRequest := Some(ControlRequest(v.id, seconds)),
      pendingRequestExpiresAt := Some(now + PENDING_REQUEST_TIMEOUT_MS));
    UpdateRecord(Observe(s, ControlRequested(v.socket, v.id, r.generation, now)), r, now)
  }

  predicate RequestBlocked(s: State, socket: Socket) {
    !s.record.allowControl || FindViewer(s.viewers, socket).None? || !s.hostConnected
    || s.record.currentControllerId.Some? || s.record.pendingRequest.Some?
  }

  function RequestControl(s: State, socket: Socket, lease: Option<real>, c: Ctx): State {
    if RequestBlocked(s, socket) then BroadcastStatus(s, c)
    else
      var viewer := FindViewer(s.viewers, socket).value;
      var seconds := NormalizeLeaseSeconds(lease, DEFAULT_CONTROL_LEASE_SECONDS);
      BroadcastStatus(SendHost(RecordRequest(s, viewer, seconds, c.now), c), c)
  }

  function HandleControlRequest(s: State, socket: Socket, lease: Option<real>, c: Ctx): State {
    RequestControl(AdvanceAndPersist(s, c).0, socket, lease, c)
  }

  function RecordApproval(s: State, socket: Socket, id: ViewerId, until: Time, now: Time): State {
    var r := s.record.(
      currentControllerId := Some(id), controlLeaseExpiresAt := Some(until),
      pendingRequest := None, pendingRequestExpiresAt := None);
    UpdateRecord(Observe(s, ControlApproved(socket, id, r.generation, until, now)), r, now)
  }

  /** The approval names the viewer whose request is pending. */
  predicate AnswersPending(s: State, viewerId: Option<ViewerId>) {
    s.record.pendingRequest.Some? && viewerId == Some(s.record.pendingRequest.value.viewerId)
  }

  function GrantControl(s: State, socket: Socket, pending: ControlRequest, lease: Option<real>, c: Ctx): State {
    var until := c.now + NormalizeLeaseSeconds(lease, pending.leaseSeconds) * 1000;
    BroadcastStatus(RecordApproval(s, socket, pending.viewerId, until, c.now), c)
  }

  function HandleControlApprove(s: State, socket: Socket, viewerId: Option<ViewerId>, lease: Option<real>, c: Ctx): State {
    if AnswersPending(s, viewerId) then GrantControl(s, socket, s.record.pendingRequest.value, lease, c) else s
  }

  function HandleControlReject(s: State, viewerId: Option<ViewerId>, c: Ctx): State {
    if AnswersPending(s, viewerId) then BroadcastStatus(DropRequest(s, c.now), c) else s
  }

  // ---------------------------------------------------------------- accepting sockets

  /** replaceViewerConnection: every other connection of the same token goes. */
  function ReplaceConnections(s: State, vs: seq<Viewer>, next: Viewer): State
    decreases |vs|
  {
    if vs == [] then s
    else
      var v := vs[0];
      var t := if v.socket == next.socket || v.token != next.token then s
               else CloseSocket(s.(viewers := DeleteViewer(s.viewers, v.socket)), v.socket, 4001);
      ReplaceConnections(t, vs[1..], next)
  }

  /** viewers.set for a socket that is not yet a key, then the replacement. */
  function AddViewer(s: State, v: Viewer): State {
    var t := s.(viewers := s.viewers + [v]);
    ReplaceConnections(t, t.viewers, v)
  }

  /** The new host takes the place of the old one, whose socket is closed with code 4001. */
  function SeatHost(s: State, socket: Socket, now: Time): State {
    var t := if s.host.Some? then CloseSocket(s, s.host.value, 4001) else s;
    Observe(t, HostAttached(socket, s.record.generation + 1, now)).(
      attachments := s.attachments[socket := HostAttachment],
      host := Some(socket), hostConnected := true, hostTerminalSize := None, hostTerminalProfile := None)
  }

  function AttachHost(s: State, socket: Socket, now: Time): State {
    var r := WithoutControl(s.record).(
      hostDisconnectDeadline := None, endReason := None,
      generation := s.record.generation + 1, state := Active);
    UpdateRecord(SeatHost(s, socket, now), r, now)
  }

  function AcceptHost(s: State, socket: Socket, c: Ctx): State {
    var t := RequestHostTerminalDetails(SendIgnored(AttachHost(s, socket, c.now)), c);
    ScheduleNextAlarm(BroadcastStatus(SendHostTimes(t, |t.viewers|, c), c), c.now)
  }

  /** resolveViewerIdentity: a known token keeps its id, anyone else gets a fresh pair. */
  function ResolveIdentity(s: State, e: Event): (State, ViewerId, Token)
    requires e.ConnectViewer?
  {
    if e.token.Some? && e.token.value in s.record.viewerIdentities
    then (s, s.record.viewerIdentities[e.token.value], e.token.value)
    else
      var r := s.record.(viewerIdentities := s.record.viewerIdentities[e.freshToken := e.freshId]);
      (UpdateRecord(s.(issued := s.issued[e.freshToken := e.freshId]), r, e.now), e.freshId, e.freshToken)
  }

  function AttachViewer(s: State, e: Event): State
    requires e.ConnectViewer?
  {
    var (t, id, token) := ResolveIdentity(s, e);
    AddViewer(
      t.(attachments := t.attachments[e.socket := ViewerAttachment(id, token, e.requestId)]),
      Viewer(id, token, e.socket))
  }

  function AcceptViewer(s: State, e: Event, c: Ctx): State
    requires e.ConnectViewer?
  {
    var t := SendIgnored(AttachViewer(s, e));
    var u := if t.hostTerminalSize.None? || t.hostTerminalProfile.None?
             then RequestHostTerminalDetails(t, c) else t;
    ScheduleNextAlarm(BroadcastStatus(SendHost(u, c), c), c.now)
  }

  function Accept(s: State, e: Event, c: Ctx): State
    requires e.ConnectHost? || e.ConnectViewer?
  {
    var t := AdvanceAndPersist(s, c).0;
    if t.record.state.Closed? || t.record.state.Ended? || t.record.state.Idle? then Observe(t, Replied(410))
    else
      var u := TouchSession(t, c.now);
      var v := if e.ConnectHost? then AcceptHost(u, e.socket, c) else AcceptViewer(u, e, c);
      Observe(v, Replied(101))
  }

  // ---------------------------------------------------------------- fetch

  predicate ExpiryAccepted(expiresAt: Expiry, now: Time) {
    expiresAt.DefaultExpiry? || (expiresAt.At? && now < expiresAt.ms <= now + SESSION_MAX_TTL_MS)
  }

  function ExpiryTime(expiresAt: Expiry, now: Time): Time
    requires ExpiryAccepted(expiresAt, now)
  {
    if expiresAt.At? then expiresAt.ms else now + SESSION_IDLE_TTL_MS
  }

  function HandleInit(s: State, allowControl: bool, expiresAt: Expiry, now: Time): State {
    if !s.record.state.Idle? && !s.record.state.Closed? then Observe(s, Replied(409))
    else if !ExpiryAccepted(expiresAt, now) then Observe(s, Replied(400))
    else
      var until := ExpiryTime(expiresAt, now);
      var r := InitialRecord(Ready, now).(
        allowControl := allowControl, maxExpiresAt := until, sessionExpiresAt := until);
      Observe(UpdateRecord(Observe(s, Initialized(now, until, allowControl)), r, now), Replied(200))
  }

  function HandleEnd(s: State, c: Ctx): State {
    var t := FinishSharing(Persist(EndSharing(s, "owner stopped sharing", c.now)), c);
    Observe(ScheduleNextAlarm(t, c.now), Replied(200))
  }

  function HandleStatus(s: State, c: Ctx): State {
    Observe(AdvanceAndPersist(s, c).0, Replied(200))
  }

  // ---------------------------------------------------------------- alarm and messages

  function HandleAlarm(s: State, c: Ctx): State {
    var (t, changed) := AdvanceAndPersist(s.(alarm := None), c);
    ScheduleNextAlarm(if changed then BroadcastStatus(t, c) else t, c.now)
  }

  /** The snapshot request with this id was issued to the connection. */
  predicate Asked(attachments: map<Socket, Attachment>, v: Viewer, id: RequestId) {
    v.socket in attachments && attachments[v.socket].ViewerAttachment? && attachments[v.socket].snapshotRequestId == id
  }

  /** The first connection whose snapshot request has this id, in Map order. */
  function FindRequest(attachments: map<Socket, Attachment>, vs: seq<Viewer>, id: RequestId): (v: Option<Viewer>)
    ensures v.None? <==> forall w | w in vs :: !Asked(attachments, w, id)
    ensures v.Some? ==> Asked(attachments, v.value, id)
                        && exists i :: 0 <= i < |vs| && vs[i] == v.value && NoneAsked(attachments, vs[..i], id)
  {
    if vs == [] then None
    else if Asked(attachments, vs[0], id) then
      assert vs[..0] == [];
      Some(vs[0])
    else
      var v := FindRequest(attachments, vs[1..], id);
      assert v.Some? ==>
        exists i :: 0 <= i < |vs| && vs[i] == v.value && NoneAsked(attachments, vs[..i], id)
      by {
        if v.Some? {
          var i :| 0 <= i < |vs[1..]| && vs[1..][i] == v.value && NoneAsked(attachments, vs[1..][..i], id);
          assert vs[..i + 1] == [vs[0]] + vs[1..][..i];
        }
      }
      v
  }

  predicate NoneAsked(attachments: map<Socket, Attachment>, vs: seq<Viewer>, id: RequestId) {
    forall w | w in vs :: !Asked(attachments, w, id)
  }

  function DeliverSnapshot(s: State, requestId: Option<RequestId>, c: Ctx): State {
    if requestId.None? then s
    else
      var viewer := FindRequest(s.attachments, s.viewers, requestId.value);
      if viewer.None? then s
      else SendViewer(Observe(s, SnapshotDelivered(viewer.value.socket, requestId.value)), viewer.value, c)
  }

  function HandleHostFrame(s: State, socket: Socket, frame: Frame, c: Ctx): State {
    match frame
    case SessionEnd =>
      var t := SendIgnored(Persist(EndSharing(s, "host ended", c.now)));
      ScheduleNextAlarm(FinishSharing(t, c), c.now)
    case Snapshot(requestId) => DeliverSnapshot(s, requestId, c)
    case Approve(viewerId, lease) => TouchSession(HandleControlApprove(s, socket, viewerId, lease, c), c.now)
    case Reject(viewerId) => TouchSession(HandleControlReject(s, viewerId, c), c.now)
    case Revoke => TouchSession(Settle(RevokeControl(s, c.now), c), c.now)
    case Size(cols, rows) =>
      var size := NormalizeTerminalSize(cols, rows);
      var t := if size.None? || s.hostTerminalSize == size then s
               else BroadcastStatus(s.(hostTerminalSize := size), c);
      TouchSession(t, c.now)
    case Profile(profile) =>
      var t := if profile.None? || s.hostTerminalProfile == profile then s
               else BroadcastStatus(s.(hostTerminalProfile := profile), c);
      TouchSession(t, c.now)
    case _ => s
  }

  function HandleViewerFrame(s: State, socket: Socket, frame: Frame, c: Ctx): State {
    match frame
    case Release => if CanWrite(s, socket) then Settle(RevokeControl(s, c.now), c) else s
    case Request(lease) => TouchSession(HandleControlRequest(s, socket, lease, c), c.now)
    case SizeRequest => TouchSession(SendHost(s, c), c.now)
    case ProfileRequest => TouchSession(SendHost(s, c), c.now)
    case _ => s
  }

  function HandleHostBinary(s: State, socket: Socket, kind: Option<nat>, c: Ctx): State {
    if kind != Some(TTY_OUTPUT) then CloseSocket(s, socket, 1003)
    else if s.host != Some(socket) || !s.hostConnected then s
    else
      var t := TouchSession(s, c.now);
      SendViewers(t, t.viewers, c)
  }

  function HandleViewerBinary(s: State, socket: Socket, kind: Option<nat>, c: Ctx): State {
    if kind != Some(STDIN) then CloseSocket(s, socket, 1003)
    else if !CanWrite(s, socket) then s
    else
      var t := TouchSession(s, c.now);
      var sender := FindViewer(s.viewers, socket).value;
      SendHost(Observe(t, StdinForwarded(socket, sender.id, t.record.generation, c.now)), c)
  }

  function ByteLength(data: Data): nat {
    match data
    case Text(size, _) => size
    case Binary(size, _) => size
    case UnsupportedContainer => 0
  }

  /** What the role's handler does with a frame that passed the common checks. */
  function Dispatch(s: State, socket: Socket, isHost: bool, data: Data, c: Ctx): State {
    match data
    case Text(_, frame) => if isHost then HandleHostFrame(s, socket, frame, c) else HandleViewerFrame(s, socket, frame, c)
    case Binary(_, kind) => if isHost then HandleHostBinary(s, socket, kind, c) else HandleViewerBinary(s, socket, kind, c)
    case UnsupportedContainer => CloseSocket(s, socket, 1003)
  }

  /** The common checks every frame passes before its role's handler sees it. */
  function CheckAndDispatch(s: State, socket: Socket, isHost: bool, data: Data, c: Ctx): State {
    if s.record.state.Closed? then s
    else if isHost && s.host != Some(socket) then s
    else if !isHost && FindViewer(s.viewers, socket).None? then s
    else if ByteLength(data) > MAX_MESSAGE_BYTES then CloseSocket(s, socket, 1009)
    else Dispatch(s, socket, isHost, data, c)
  }

  function HandleMessage(s: State, socket: Socket, data: Data, c: Ctx): State {
    if socket !in s.attachments then CloseSocket(s, socket, 1003)
    else
      var (t, advanced) := AdvanceAndPersist(s, c);
      CheckAndDispatch(if advanced then BroadcastStatus(t, c) else t, socket,
                       s.attachments[socket].HostAttachment?, data, c)
  }

  function HandleClose(s: State, socket: Socket, c: Ctx): State {
    if socket !in s.attachments then s
    else if s.attachments[socket].HostAttachment? then
      if s.host != Some(socket) then s
      else ScheduleNextAlarm(Settle(ClearHost(s, c.now), c), c.now)
    else
      ScheduleNextAlarm(BroadcastStatus(Settle(RemoveViewer(s, socket, c.now), c), c), c.now)
  }

  // ---------------------------------------------------------------- restart

  function RestoreSocket(s: State, socket: Socket): State {
    if socket !in s.attachments then CloseSocket(s, socket, 1003)
    else
      match s.attachments[socket]
      case HostAttachment =>
        if s.host.Some? && s.host != Some(socket) then CloseSocket(s, socket, 4001)
        else s.(host := Some(socket), hostConnected := true)
      case ViewerAttachment(id, token, _) => AddViewer(s, Viewer(id, token, socket))
  }

  function RestoreSockets(s: State, open: seq<Socket>): State
    decreases |open|
  {
    if open == [] then s else RestoreSockets(RestoreSocket(s, open[0]), open[1..])
  }

  /** reconcileRecordWithSockets. */
  function Reconcile(s: State, now: Time): (State, bool) {
    if s.hostConnected then
      (s.(record := s.record.(hostDisconnectDeadline := None, state := Active)),
       s.record.hostDisconnectDeadline.Some? || !s.record.state.Active?)
    else if |s.viewers| > 0 && s.record.state.Idle? then (s.(record := s.record.(state := Ready)), true)
    else if s.record.state.Active? then
      var deadline := if s.record.hostDisconnectDeadline.Some? then s.record.hostDisconnectDeadline
                      else Some(now + HOST_DISCONNECT_GRACE_MS);
      (Observe(s, HostCleared(now)).(
         record := WithoutControl(s.record).(hostDisconnectDeadline := deadline, state := Ready)), true)
    else (s, false)
  }

  function FreshInstance(s: State, now: Time): State {
    s.(host := None, hostConnected := false, hostTerminalSize := None, hostTerminalProfile := None,
       viewers := [], record := if s.stored.Some? then s.stored.value else InitialRecord(Idle, now))
  }

  function HandleRestore(s: State, open: seq<Socket>, c: Ctx): State {
    var t := RestoreSockets(FreshInstance(s, c.now), open);
    if t.record.state.Closed? then FinishClosedSession(t, c)
    else if t.record.state.Ended? then FinishSharing(t, c)
    else
      var u := if t.hostConnected then RequestHostTerminalDetails(t, c) else t;
      var (v, changed) := Reconcile(u, c.now);
      if changed then ScheduleNextAlarm(Persist(v), c.now) else v
  }

  // ---------------------------------------------------------------- the whole machine

  function Handle(s: State, e: Event, c: Ctx): State {
    match e
    case Init(now, allowControl, expiresAt) => HandleInit(s, allowControl, expiresAt, now)
    case End(_) => HandleEnd(s, c)
    case Status(_) => HandleStatus(s, c)
    case ConnectHost(_, _) => Accept(s, e, c)
    case ConnectViewer(_, _, _, _, _, _) => Accept(s, e, c)
    case Alarm(_) => HandleAlarm(s, c)
    case Message(_, socket, data) => HandleMessage(s, socket, data, c)
    case Close(_, socket) => HandleClose(s, socket, c)
    case Restore(_, open) => HandleRestore(s, open, c)
  }

  function Step(s: State, e: Event, ok: Oracle): State {
    var c := Ctx(e.now, ok);
    Settle(Handle(s.(clock := e.now), e, c), c)
  }

  /** What the platform guarantees of the next event: a clock that does not go back and fresh names. */
  predicate Enabled(s: State, e: Event) {
    && s.clock <= e.now && 0 < e.now
    && (e.ConnectHost? ==> e.socket !in s.attachments)
    && (e.ConnectViewer? ==>
          && e.socket !in s.attachments
          && e.freshToken !in s.issued && e.freshId !in s.issued.Values
          && (forall k | k in s.attachments && s.attachments[k].ViewerAttachment? ::
                s.attachments[k].snapshotRequestId != e.requestId))
    && (e.Restore? ==> forall i, j | 0 <= i < j < |e.open| :: e.open[i] != e.open[j])
  }

  function Start(now: Time): State {
    State(None, false, None, None, [], InitialRecord(Idle, now), None, None, map[], map[], now, 0, 0, [])
  }

  function Run(s: State, events: seq<Event>, ok: Oracle): State {
    if events == [] then s else Step(Run(s, events[..|events| - 1], ok), events[|events| - 1], ok)
  }

  predicate EnabledRun(s: State, events: seq<Event>, ok: Oracle) {
    events != [] ==>
      && EnabledRun(s, events[..|events| - 1], ok)
      && Enabled(Run(s, events[..|events| - 1], ok), events[|events| - 1])
  }
}
