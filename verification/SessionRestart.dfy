/** What a restart makes of the sockets that survived it, with sends going through. */
module SessionRestart {
  import opened Prelude
  import opened SessionModel
  import opened SessionInvariants
  import opened SessionSteps
  import opened SessionTheorems
  import opened SessionControl

  predicate IsHost(attachments: map<Socket, Attachment>, socket: Socket) {
    socket in attachments && attachments[socket].HostAttachment?
  }

  predicate IsViewer(attachments: map<Socket, Attachment>, v: Viewer) {
    v.socket in attachments && attachments[v.socket].ViewerAttachment?
    && attachments[v.socket].viewerId == v.id && attachments[v.socket].viewerToken == v.token
  }

  predicate HasToken(attachments: map<Socket, Attachment>, socket: Socket, token: Token) {
    socket in attachments && attachments[socket].ViewerAttachment? && attachments[socket].viewerToken == token
  }

  /** The first surviving host socket, if any. */
  ghost predicate FirstHost(attachments: map<Socket, Attachment>, open: seq<Socket>, host: Option<Socket>) {
    match host
    case None => forall k | 0 <= k < |open| :: !IsHost(attachments, open[k])
    case Some(h) => exists k :: 0 <= k < |open| && open[k] == h && IsHost(attachments, h)
                                && forall j | 0 <= j < k :: !IsHost(attachments, open[j])
  }

  /** The viewer of a surviving socket, after which no other of its token follows. */
  ghost predicate LastOfToken(attachments: map<Socket, Attachment>, open: seq<Socket>, v: Viewer) {
    IsViewer(attachments, v) && exists k :: 0 <= k < |open| && open[k] == v.socket && NoneAfter(attachments, open, k, v.token)
  }

  ghost predicate NoneAfter(attachments: map<Socket, Attachment>, open: seq<Socket>, k: int, token: Token) {
    forall j | k < j < |open| && 0 <= j :: !HasToken(attachments, open[j], token)
  }

  lemma FirstHostCons(attachments: map<Socket, Attachment>, open: seq<Socket>, host: Option<Socket>)
    requires open != []
    requires if IsHost(attachments, open[0]) then host == Some(open[0]) else FirstHost(attachments, open[1..], host)
    ensures FirstHost(attachments, open, host)
  {
    var rest := open[1..];
    assert forall j | 0 < j < |open| :: open[j] == rest[j - 1];
    if !IsHost(attachments, open[0]) && host.Some? {
      var k :| 0 <= k < |rest| && rest[k] == host.value && IsHost(attachments, host.value)
               && forall j | 0 <= j < k :: !IsHost(attachments, rest[j]);
      assert open[k + 1] == host.value;
    }
  }

  /** The sockets, one after the other: the first host is kept, and the last viewer of each token. */
  lemma {:induction false} RestoredHost(s: State, open: seq<Socket>)
    ensures var t := RestoreSockets(s, open);
            && t.record == s.record && t.attachments == s.attachments && t.stored == s.stored
            && (s.host.Some? ==> t.host == s.host)
            && (s.host.None? ==> FirstHost(s.attachments, open, t.host))
            && ((s.hostConnected <==> s.host.Some?) ==> (t.hostConnected <==> t.host.Some?))
    decreases |open|
  {
    if open != [] {
      var t := RestoreSocket(s, open[0]);
      SocketRestored(s, open[0]);
      RestoredHost(t, open[1..]);
      hide RestoreSocket, FirstHost;
      if s.host.None? { FirstHostCons(s.attachments, open, RestoreSockets(t, open[1..]).host); }
    }
  }

  lemma SocketRestored(s: State, socket: Socket)
    ensures var t := RestoreSocket(s, socket);
            && t.record == s.record && t.attachments == s.attachments && t.stored == s.stored
            && t.host == (if s.host.None? && IsHost(s.attachments, socket) then Some(socket) else s.host)
            && ((s.hostConnected <==> s.host.Some?) ==> (t.hostConnected <==> t.host.Some?))
  {
    if socket in s.attachments && s.attachments[socket].ViewerAttachment? {
      var a := s.attachments[socket];
      var v := Viewer(a.viewerId, a.viewerToken, socket);
      var p := s.(viewers := s.viewers + [v]);
      ReplaceResult(p, p.viewers, v);
    }
  }

  /** A viewer before the restart of these sockets, or from one of them, stays if no later one has its token. */
  lemma {:induction false} RestoredViewers(s: State, open: seq<Socket>, v: Viewer)
    requires Base(s) && (s.hostConnected <==> s.host.Some?)
    requires forall i, j | 0 <= i < j < |open| :: open[i] != open[j]
    requires forall w | w in s.viewers :: w.socket !in open
    ensures v in RestoreSockets(s, open).viewers <==>
              (v in s.viewers && NoneAfter(s.attachments, open, -1, v.token)) || LastOfToken(s.attachments, open, v)
    decreases |open|
  {
    if open != [] {
      var t, rest := RestoreSocket(s, open[0]), open[1..];
      RestoreSocketKeeps(s, open[0]);
      SocketRestored(s, open[0]);
      ViewerRestored(s, open[0], v);
      forall w | w in t.viewers ensures w.socket !in rest {
        if w in s.viewers { assert w.socket !in open; }
      }
      RestoredViewers(t, rest, v);
      hide Base, RestoreSocket, RestoreSockets, Restoring, HasToken, IsViewer;
      LastCons(s.attachments, open, v);
    }
  }

  lemma ViewerRestored(s: State, socket: Socket, v: Viewer)
    requires Base(s) && forall w | w in s.viewers :: w.socket != socket
    ensures v in RestoreSocket(s, socket).viewers <==>
              (v in s.viewers && !HasToken(s.attachments, socket, v.token))
              || (v.socket == socket && IsViewer(s.attachments, v))
  {
    if socket in s.attachments && s.attachments[socket].ViewerAttachment? {
      var a := s.attachments[socket];
      AddViewerKeeps(s, Viewer(a.viewerId, a.viewerToken, socket));
    }
    hide Base, AddViewer;
  }

  lemma LastCons(attachments: map<Socket, Attachment>, open: seq<Socket>, v: Viewer)
    requires open != []
    ensures var rest := open[1..];
            && (NoneAfter(attachments, open, -1, v.token) <==>
                  !HasToken(attachments, open[0], v.token) && NoneAfter(attachments, rest, -1, v.token))
            && (LastOfToken(attachments, open, v) <==>
                  (IsViewer(attachments, v) && open[0] == v.socket && NoneAfter(attachments, rest, -1, v.token))
                  || LastOfToken(attachments, rest, v))
  {
    var rest := open[1..];
    hide IsViewer, HasToken;
    assert forall j | 0 < j < |open| :: open[j] == rest[j - 1];
    assert forall j | 0 <= j < |rest| :: rest[j] == open[j + 1];
    forall k | 0 <= k < |open|
      ensures NoneAfter(attachments, open, k, v.token) <==> NoneAfter(attachments, rest, k - 1, v.token)
    {
      if NoneAfter(attachments, rest, k - 1, v.token) {
        forall j | k < j < |open| && 0 <= j ensures !HasToken(attachments, open[j], v.token) {
          assert open[j] == rest[j - 1];
        }
      }
    }
    if LastOfToken(attachments, rest, v) {
      var k :| 0 <= k < |rest| && rest[k] == v.socket && NoneAfter(attachments, rest, k, v.token);
      assert open[k + 1] == v.socket;
    }
    if LastOfToken(attachments, open, v) {
      var k :| 0 <= k < |open| && open[k] == v.socket && NoneAfter(attachments, open, k, v.token);
      if k > 0 { assert rest[k - 1] == v.socket; }
    }
  }

  /** The record after a restart: whether the host is there, and else how long it may stay away. */
  function Rejoined(r: SessionRecord, hosted: bool, now: Time): SessionRecord {
    if hosted then r.(hostDisconnectDeadline := None, state := Active)
    else if r.state.Active? then
      Uncontrolled(Unasked(r)).(
        state := Ready,
        hostDisconnectDeadline :=
          if r.hostDisconnectDeadline.Some? then r.hostDisconnectDeadline else Some(now + 3 * 60 * 1000))
    else r
  }

  lemma Reconciled(s: State, now: Time)
    requires Open(s)
    ensures var t := Reconcile(s, now).0;
            && t.record == Rejoined(s.record, s.hostConnected, now)
            && t.host == s.host && t.hostConnected == s.hostConnected && t.viewers == s.viewers
            && (!Reconcile(s, now).1 ==> t == s)
  {}

  /** The connections and the record that a restart arrives at. */
  ghost predicate Restarted(s: State, t: State, open: seq<Socket>, now: Time) {
    && FirstHost(s.attachments, open, t.host) && (t.hostConnected <==> t.host.Some?)
    && (forall v :: v in t.viewers <==> LastOfToken(s.attachments, open, v))
    && t.record == Rejoined(s.record, t.host.Some?, now)
  }

  /**
   After a restart of a session that is open, the first surviving host socket is the host, each
   token is connected by its last surviving socket, and the record says whether the host is there.
   */
  lemma RestartOutcome(s: State, e: Event, ok: Oracle)
    requires Inv(s) && Enabled(s, e) && AllSucceed(ok) && e.Restore? && Open(s)
    ensures Restarted(s, Step(s, e, ok), e.open, e.now)
  {
    hide Inv, HandleRestore, FirstHost, LastOfToken, Settle;
    var c := Ctx(e.now, ok);
    var p := s.(clock := e.now);
    TickKeeps(s, e);
    RestartHandled(p, e.open, c);
    Delivered(HandleRestore(p, e.open, c), c);
  }

  lemma RestartHandled(s: State, open: seq<Socket>, c: Ctx)
    requires Inv(s) && s.clock == c.now && AllSucceed(c.ok) && Open(s)
    requires forall i, j | 0 <= i < j < |open| :: open[i] != open[j]
    ensures Restarted(s, HandleRestore(s, open, c), open, c.now)
  {
    var f := FreshInstance(s, c.now);
    FreshKeeps(s, c.now);
    assert f.record == s.record && f.attachments == s.attachments;
    hide Inv, Base, Saved, RestoreSockets, FirstHost, LastOfToken, NextAlarm, SendHostTimes, Reconcile, Rejoined;
    var t := RestoreSockets(f, open);
    RestoredHost(f, open);
    forall v ensures v in t.viewers <==> LastOfToken(s.attachments, open, v) {
      RestoredViewers(f, open, v);
    }
    SucceedingHost(t, 2, c);
    Reconciled(if t.hostConnected then RequestHostTerminalDetails(t, c) else t, c.now);
  }
}
