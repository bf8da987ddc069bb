/**
 The reconnecting viewer page. Fetches, sockets and timers answer late, in any order; each of
 them carries the generation it was started in, and stop() makes a new one.
 */
module Viewer {
  import opened Prelude

  /** A connection attempt that waits for the status reply, or for its body. */
  datatype Task = Task(generation: nat, reading: bool)

  /** A socket as the browser knows it; `granted` is what its last status said. */
  datatype Socket = Socket(generation: nat, open: bool, granted: bool)

  datatype Page = Page(
    generation: nat,
    socket: Option<nat>,
    canWrite: bool,
    ended: bool,
    attempts: nat,
    viewerToken: string,
    pendingBytes: nat,
    retry: Option<nat>,          // the handle of the last timer set
    hidden: bool,
    configured: bool,            // the address holds a session and a capability
    timers: set<nat>,            // timers that will still fire
    tasks: map<nat, Task>,       // awaits that will still resume
    sockets: map<nat, Socket>,   // sockets ever opened
    unused: nat,                // the next handle
    retried: nat,                // timers set since attempts was last reset
    parked: bool)                // stopped by pagehide, and not started again since

  datatype Reply = FetchFailed | Gone | Refused | Okay
  datatype Body = BodyFailed | Over | NoSocket | Live

  datatype Message =
    | Binary(length: nat, output: bool)
    | Status(canWrite: bool, token: string, over: bool)
    | OtherFrame

  datatype Event =
    | Replied(task: nat, reply: Reply)
    | BodyRead(task: nat, body: Body)
    | Received(sid: nat, message: Message)
    | Closed(sid: nat)
    | TimerFired(timer: nat)
    | Written(length: nat)       // the terminal has drawn a frame
    | ReconnectClicked
    | Hidden
    | Visible
    | PageHide

  const MAX_PENDING := 4 * 1024 * 1024
  const MAX_ATTEMPTS := 8

  // ---------------------------------------------------------------- transitions

  function Stopped(p: Page): Page {
    p.(generation := p.generation + 1, timers := if p.retry.Some? then p.timers - {p.retry.value} else p.timers,
       socket := None, canWrite := false)
  }

  /** connect() up to its first await. */
  function Connecting(p: Page): Page {
    var q := Stopped(p).(parked := false);
    if q.hidden || q.ended || !q.configured then q
    else q.(tasks := q.tasks[q.unused := Task(q.generation, false)], unused := q.unused + 1)
  }

  function Scheduled(p: Page): Page {
    var q := p.(canWrite := false);
    if q.hidden || q.ended then q
    else if q.attempts + 1 <= MAX_ATTEMPTS then
      q.(attempts := q.attempts + 1, retry := Some(q.unused), timers := q.timers + {q.unused}, unused := q.unused + 1,
         retried := q.retried + 1)
    else q.(attempts := q.attempts + 1)
  }

  function Reset(p: Page): Page {
    p.(attempts := 0, retried := 0)
  }

  function WithoutTask(p: Page, id: nat): Page {
    p.(tasks := p.tasks - {id})
  }

  function OnReply(p: Page, id: nat, reply: Reply): Page
    requires id in p.tasks
  {
    var task := p.tasks[id];
    var q := WithoutTask(p, id);
    if task.generation != p.generation then q
    else match reply
      case FetchFailed => Scheduled(q)
      case Gone => q.(ended := true)
      case Refused => Scheduled(q)
      case Okay => q.(tasks := q.tasks[id := task.(reading := true)])
  }

  function OnBody(p: Page, id: nat, body: Body): Page
    requires id in p.tasks
  {
    var q := WithoutTask(p, id);
    if p.tasks[id].generation != p.generation then q
    else match body
      case BodyFailed => Scheduled(q)
      case Over => q.(ended := true)
      case NoSocket => Scheduled(q)
      case Live => q.(sockets := q.sockets[q.unused := Socket(q.generation, true, false)],
                      socket := Some(q.unused), unused := q.unused + 1)
  }

  predicate Current(p: Page, sid: nat)
    requires sid in p.sockets
  {
    p.socket == Some(sid) && p.sockets[sid].generation == p.generation
  }

  function OnStatus(p: Page, sid: nat, canWrite: bool, token: string, over: bool): Page
    requires sid in p.sockets
  {
    var q := Reset(p).(canWrite := canWrite, ended := over,
                       viewerToken := if token != "" then token else p.viewerToken);
    if over then Stopped(q) else q
  }

  /** A frame is noted on its socket even when the page ignores it. */
  function Noted(p: Page, sid: nat, m: Message): Page
    requires sid in p.sockets
  {
    if m.Status? then p.(sockets := p.sockets[sid := p.sockets[sid].(granted := m.canWrite)]) else p
  }

  function OnMessage(p: Page, sid: nat, m: Message): Page
    requires sid in p.sockets
  {
    var q := Noted(p, sid, m);
    if !Current(p, sid) then q
    else match m
      case Binary(length, output) =>
        if !output then q
        else if q.pendingBytes + length > MAX_PENDING then Connecting(Stopped(q).(pendingBytes := 0))
        else q.(pendingBytes := q.pendingBytes + length)
      case Status(canWrite, token, over) => OnStatus(q, sid, canWrite, token, over)
      case OtherFrame => q
  }

  function OnClose(p: Page, sid: nat): Page
    requires sid in p.sockets
  {
    var q := p.(sockets := p.sockets[sid := p.sockets[sid].(open := false)]);
    if Current(p, sid) then Scheduled(q) else q
  }

  /** What the browser may deliver: an await resumes once, a socket is silent after its close. */
  predicate Enabled(p: Page, e: Event) {
    match e
    case Replied(id, _) => id in p.tasks && !p.tasks[id].reading
    case BodyRead(id, _) => id in p.tasks && p.tasks[id].reading
    case Received(sid, _) => sid in p.sockets && p.sockets[sid].open
    case Closed(sid) => sid in p.sockets && p.sockets[sid].open
    case TimerFired(t) => t in p.timers
    case _ => true
  }

  function Step(p: Page, e: Event): Page
    requires Enabled(p, e)
  {
    match e
    case Replied(id, reply) => OnReply(p, id, reply)
    case BodyRead(id, body) => OnBody(p, id, body)
    case Received(sid, m) => OnMessage(p, sid, m)
    case Closed(sid) => OnClose(p, sid)
    case TimerFired(t) => Connecting(p.(timers := p.timers - {t}))
    case Written(n) => p.(pendingBytes := if n <= p.pendingBytes then p.pendingBytes - n else 0)
    case ReconnectClicked => Connecting(Reset(p))
    case Hidden => Stopped(p.(hidden := true))
    case Visible => Connecting(Reset(p.(hidden := false)))
    case PageHide => Stopped(p).(parked := true)
  }

  /** The page when its script has run. */
  function Loaded(configured: bool, hidden: bool, token: string): Page {
    Connecting(Page(0, None, false, false, 0, token, 0, None, hidden, configured, {}, map[], map[], 0, 0, false))
  }

  // ---------------------------------------------------------------- the invariant

  /** An attempt of the current generation is still waiting. */
  ghost predicate Waiting(p: Page) {
    exists id :: IsCurrent(p, id)
  }

  predicate IsCurrent(p: Page, id: nat) {
    id in p.tasks && p.tasks[id].generation == p.generation
  }

  predicate Attached(p: Page) {
    p.socket.Some? && p.socket.value in p.sockets && p.sockets[p.socket.value].open
  }

  ghost predicate Handles(p: Page) {
    && (forall t :: t in p.timers ==> p.retry == Some(t) && t < p.unused)
    && (p.retry.Some? ==> p.retry.value < p.unused)
    && (forall id :: id in p.tasks ==> id < p.unused && p.tasks[id].generation <= p.generation)
    && (forall s :: s in p.sockets ==> s < p.unused && p.sockets[s].generation <= p.generation)
  }

  /** Of an attempt, an open socket and a timer there is at most one, and one attempt only. */
  ghost predicate OneThing(p: Page) {
    && (forall a, b :: IsCurrent(p, a) && IsCurrent(p, b) ==> a == b)
    && (Waiting(p) ==> p.socket.None? && p.timers == {})
    && (Attached(p) ==> p.timers == {})
    && (p.ended || p.hidden ==> !Waiting(p) && p.socket.None? && p.timers == {})
  }

  /** Unless it has reason to rest, the page is trying, connected, or about to try again. */
  ghost predicate Busy(p: Page) {
    !p.hidden && p.configured && !p.ended && !p.parked && p.attempts <= MAX_ATTEMPTS ==>
      Waiting(p) || Attached(p) || p.timers != {}
  }

  predicate Counted(p: Page) {
    p.retried == (if p.attempts <= MAX_ATTEMPTS then p.attempts else MAX_ATTEMPTS)
  }

  ghost predicate Inv(p: Page) {
    && Handles(p) && OneThing(p) && Busy(p) && Counted(p)
    && (p.socket.Some? ==> p.socket.value in p.sockets && p.sockets[p.socket.value].generation == p.generation)
    && (p.canWrite <==> Attached(p) && p.sockets[p.socket.value].granted)
  }

  lemma StoppedKeeps(p: Page)
    requires Handles(p) && Counted(p)
    ensures var q := Stopped(p);
            Handles(q) && OneThing(q) && Counted(q) && !Waiting(q) && q.socket.None? && q.timers == {} && !q.canWrite
  {
  }

  lemma ConnectingKeeps(p: Page)
    requires Handles(p) && Counted(p)
    ensures Inv(Connecting(p))
  {
    StoppedKeeps(p);
    var q, r := Stopped(p), Connecting(p);
    if !(p.hidden || p.ended || !p.configured) {
      assert IsCurrent(r, q.unused);
      assert forall id :: IsCurrent(r, id) ==> id == q.unused;
    }
  }

  lemma ScheduledKeeps(p: Page)
    requires Handles(p) && Counted(p) && !Waiting(p) && !Attached(p) && p.timers == {}
    requires p.socket.Some? ==> p.socket.value in p.sockets && p.sockets[p.socket.value].generation == p.generation
    requires p.ended || p.hidden ==> p.socket.None?
    ensures Inv(Scheduled(p))
  {
    var q := Scheduled(p);
    assert forall id :: IsCurrent(q, id) ==> IsCurrent(p, id);
    assert Attached(q) ==> Attached(p);
  }

  // ---------------------------------------------------------------- every event keeps it

  lemma TaskTaken(p: Page, id: nat)
    requires Inv(p) && id in p.tasks
    ensures Handles(WithoutTask(p, id)) && Counted(WithoutTask(p, id))
    ensures IsCurrent(p, id) ==> !Waiting(WithoutTask(p, id)) && p.socket.None? && p.timers == {} && !p.ended && !p.hidden
    ensures !IsCurrent(p, id) ==> Inv(WithoutTask(p, id))
  {
    var q := WithoutTask(p, id);
    assert forall a :: IsCurrent(q, a) ==> IsCurrent(p, a) && a != id;
    assert forall a :: IsCurrent(p, a) && a != id ==> IsCurrent(q, a);
    if IsCurrent(p, id) {
      assert Waiting(p);
    } else {
      assert Waiting(p) == Waiting(q);
      assert Attached(p) == Attached(q);
    }
  }

  lemma ReplyKeeps(p: Page, id: nat, reply: Reply)
    requires Inv(p) && id in p.tasks
    ensures Inv(OnReply(p, id, reply))
  {
    TaskTaken(p, id);
    var q := WithoutTask(p, id);
    if IsCurrent(p, id) {
      match reply
      case FetchFailed => ScheduledKeeps(q);
      case Refused => ScheduledKeeps(q);
      case Gone =>
        assert forall a :: IsCurrent(q.(ended := true), a) ==> IsCurrent(q, a);
      case Okay =>
        var r := OnReply(p, id, reply);
        assert forall a :: IsCurrent(r, a) <==> IsCurrent(p, a);
        assert Waiting(r) by { assert IsCurrent(r, id); }
    }
  }

  lemma BodyKeeps(p: Page, id: nat, body: Body)
    requires Inv(p) && id in p.tasks
    ensures Inv(OnBody(p, id, body))
  {
    TaskTaken(p, id);
    var q := WithoutTask(p, id);
    if IsCurrent(p, id) {
      match body
      case BodyFailed => ScheduledKeeps(q);
      case NoSocket => ScheduledKeeps(q);
      case Over =>
        assert forall a :: IsCurrent(q.(ended := true), a) ==> IsCurrent(q, a);
      case Live =>
        var r := OnBody(p, id, body);
        assert forall a :: IsCurrent(r, a) ==> IsCurrent(q, a);
    }
  }

  lemma NotedKeeps(p: Page, sid: nat, m: Message)
    requires Inv(p) && sid in p.sockets && !(Current(p, sid) && m.Status?)
    ensures Inv(Noted(p, sid, m))
  {
    var q := Noted(p, sid, m);
    assert forall a :: IsCurrent(q, a) <==> IsCurrent(p, a);
    assert Waiting(q) == Waiting(p);
    assert Attached(q) == Attached(p);
  }

  lemma StatusKeeps(p: Page, sid: nat, canWrite: bool, token: string, over: bool)
    requires Inv(p) && sid in p.sockets && p.sockets[sid].open && Current(p, sid)
    ensures Inv(OnMessage(p, sid, Status(canWrite, token, over)))
  {
    var m := Status(canWrite, token, over);
    var q := Noted(p, sid, m);
    var r := Reset(q).(canWrite := canWrite, ended := over, viewerToken := if token != "" then token else q.viewerToken);
    assert forall a :: IsCurrent(r, a) <==> IsCurrent(p, a);
    assert Waiting(r) == Waiting(p);
    assert Attached(p) && Attached(r);
    if over { StoppedKeeps(r); }
  }

  lemma MessageKeeps(p: Page, sid: nat, m: Message)
    requires Inv(p) && sid in p.sockets && p.sockets[sid].open
    ensures Inv(OnMessage(p, sid, m))
  {
    if Current(p, sid) && m.Status? {
      StatusKeeps(p, sid, m.canWrite, m.token, m.over);
    } else {
      NotedKeeps(p, sid, m);
      if Current(p, sid) && m.Binary? && m.output {
        if p.pendingBytes + m.length > MAX_PENDING {
          StoppedKeeps(p);
          ConnectingKeeps(Stopped(p).(pendingBytes := 0));
        } else {
          PendingKeeps(p, p.pendingBytes + m.length);
        }
      }
    }
  }

  lemma PendingKeeps(p: Page, n: nat)
    requires Inv(p)
    ensures Inv(p.(pendingBytes := n))
  {
    var q := p.(pendingBytes := n);
    assert forall a :: IsCurrent(q, a) <==> IsCurrent(p, a);
    assert Waiting(q) == Waiting(p);
  }

  lemma CloseKeeps(p: Page, sid: nat)
    requires Inv(p) && sid in p.sockets && p.sockets[sid].open
    ensures Inv(OnClose(p, sid))
  {
    var q := p.(sockets := p.sockets[sid := p.sockets[sid].(open := false)]);
    assert forall a :: IsCurrent(q, a) <==> IsCurrent(p, a);
    assert Waiting(q) == Waiting(p);
    if Current(p, sid) {
      assert Attached(p);
      ScheduledKeeps(q);
    } else {
      assert Attached(q) == Attached(p);
    }
  }

  lemma StepKeeps(p: Page, e: Event)
    requires Inv(p) && Enabled(p, e)
    ensures Inv(Step(p, e))
  {
    hide OnReply, OnBody, OnMessage, OnClose, Connecting, Stopped, Handles, OneThing, Busy, Counted, Attached;
    match e
    case Replied(id, reply) => ReplyKeeps(p, id, reply);
    case BodyRead(id, body) => BodyKeeps(p, id, body);
    case Received(sid, m) => MessageKeeps(p, sid, m);
    case Closed(sid) => CloseKeeps(p, sid);
    case TimerFired(t) =>
      HandlesStay(p, p.(timers := p.timers - {t}));
      ConnectingKeeps(p.(timers := p.timers - {t}));
    case Written(n) => PendingKeeps(p, if n <= p.pendingBytes then p.pendingBytes - n else 0);
    case ReconnectClicked =>
      HandlesStay(p, Reset(p));
      ConnectingKeeps(Reset(p));
    case Hidden =>
      HandlesStay(p, p.(hidden := true));
      RestKeeps(p.(hidden := true));
    case Visible =>
      HandlesStay(p, Reset(p.(hidden := false)));
      ConnectingKeeps(Reset(p.(hidden := false)));
    case PageHide =>
      HandlesStay(p, p);
      RestKeeps(p);
  }

  /** A page that is hidden or put away has reason to rest. */
  lemma RestKeeps(p: Page)
    requires Handles(p) && Counted(p)
    ensures Inv(Stopped(p).(parked := true)) && (p.hidden ==> Inv(Stopped(p)))
  {
    StoppedKeeps(p);
    var q, r := Stopped(p), Stopped(p).(parked := true);
    assert forall a :: IsCurrent(r, a) <==> IsCurrent(q, a);
  }

  lemma HandlesStay(p: Page, q: Page)
    requires Inv(p)
    requires q == p.(timers := q.timers, attempts := q.attempts, retried := q.retried, hidden := q.hidden) && q.timers <= p.timers
    requires (q.attempts, q.retried) in [(p.attempts, p.retried), (0, 0)]
    ensures Handles(q) && Counted(q)
  {}

  lemma LoadedKeeps(configured: bool, hidden: bool, token: string)
    ensures Inv(Loaded(configured, hidden, token))
  {
    ConnectingKeeps(Page(0, None, false, false, 0, token, 0, None, hidden, configured, {}, map[], map[], 0, 0, false));
  }

  // ---------------------------------------------------------------- whole runs

  ghost predicate EnabledRun(p: Page, events: seq<Event>)
    decreases |events|
  {
    events == [] || (Enabled(p, events[0]) && EnabledRun(Step(p, events[0]), events[1..]))
  }

  ghost function Run(p: Page, events: seq<Event>): Page
    requires EnabledRun(p, events)
    decreases |events|
  {
    if events == [] then p else Run(Step(p, events[0]), events[1..])
  }

  lemma {:induction false} RunKeeps(p: Page, events: seq<Event>)
    requires Inv(p) && EnabledRun(p, events)
    ensures Inv(Run(p, events))
    decreases |events|
  {
    if events != [] {
      StepKeeps(p, events[0]);
      RunKeeps(Step(p, events[0]), events[1..]);
    }
  }

  /** What every reachable page shows: who may write, how many timers, how many retries. */
  lemma ReachablePages(configured: bool, hidden: bool, token: string, events: seq<Event>)
    requires EnabledRun(Loaded(configured, hidden, token), events)
    ensures var p := Run(Loaded(configured, hidden, token), events);
            && (p.canWrite <==> p.socket.Some? && p.socket.value in p.sockets && p.sockets[p.socket.value].open
                                && p.sockets[p.socket.value].granted)
            && (forall t, u :: t in p.timers && u in p.timers ==> t == u)
            && p.retried <= MAX_ATTEMPTS
            && (p.timers != {} ==> !Waiting(p) && !Attached(p) && !p.ended && !p.hidden)
            && Busy(p)
  {
    LoadedKeeps(configured, hidden, token);
    RunKeeps(Loaded(configured, hidden, token), events);
  }

  // ---------------------------------------------------------------- what the events bring about

  /** A socket that the page listens to. */
  predicate Listening(p: Page, sid: nat) {
    p.socket == Some(sid) && sid in p.sockets && p.sockets[sid].open
  }

  /** A status decides write access, keeps or replaces the token, and restarts the count of attempts. */
  lemma StatusOutcome(p: Page, sid: nat, canWrite: bool, token: string, over: bool)
    requires Inv(p) && Listening(p, sid)
    ensures var q := Step(p, Received(sid, Status(canWrite, token, over)));
            && q.canWrite == (canWrite && !over) && q.ended == over && q.attempts == 0
            && q.viewerToken == (if token == "" then p.viewerToken else token)
            && (if over then q.socket.None? && q.timers == {} && !Waiting(q) else Listening(q, sid))
  {
    StepKeeps(p, Received(sid, Status(canWrite, token, over)));
    hide Handles, Busy, Counted, OneThing;
  }

  /** Output is counted until it is drawn; past the limit the page starts over with a new status request. */
  lemma OutputOutcome(p: Page, sid: nat, length: nat)
    requires Inv(p) && Listening(p, sid)
    ensures var q := Step(p, Received(sid, Binary(length, true)));
            if p.pendingBytes + length <= MAX_PENDING then
              q.pendingBytes == p.pendingBytes + length && Step(q, Written(length)) == p
            else q.pendingBytes == 0 && !q.canWrite && q.socket.None? && (p.configured ==> Waiting(q))
  {
    var q := Step(p, Received(sid, Binary(length, true)));
    if p.pendingBytes + length > MAX_PENDING && p.configured {
      assert !p.ended && !p.hidden;
      assert IsCurrent(q, p.unused);
    }
  }

  /** When the current socket closes, the page waits for a retry, eight times at most. */
  lemma CloseOutcome(p: Page, sid: nat)
    requires Inv(p) && Listening(p, sid)
    ensures var q := Step(p, Closed(sid));
            !q.canWrite && q.attempts == p.attempts + 1 && q.generation == p.generation
            && (q.timers != {} <==> p.attempts < MAX_ATTEMPTS)
  {
    assert !p.ended && !p.hidden && p.timers == {};
    var q := Step(p, Closed(sid));
    if p.attempts < MAX_ATTEMPTS { assert p.unused in q.timers; }
  }

  /** The answer to the current status request decides how the page goes on. */
  lemma AnswerOutcome(p: Page, id: nat, reply: Reply)
    requires Inv(p) && IsCurrent(p, id) && !p.tasks[id].reading
    ensures var q := Step(p, Replied(id, reply));
            && (q.ended <==> reply.Gone?)
            && (Waiting(q) <==> reply.Okay?)
            && q.socket.None?
            && (q.timers != {} <==> (reply.FetchFailed? || reply.Refused?) && p.attempts < MAX_ATTEMPTS)
  {
    TaskTaken(p, id);
    var q, without := Step(p, Replied(id, reply)), WithoutTask(p, id);
    assert Waiting(p);
    if reply.Okay? { assert IsCurrent(q, id); }
    else { assert forall a :: IsCurrent(q, a) ==> IsCurrent(without, a); }
    if (reply.FetchFailed? || reply.Refused?) && p.attempts < MAX_ATTEMPTS { assert p.unused in q.timers; }
  }

  /** A live session gets a new socket, which may not write yet. */
  lemma BodyOutcome(p: Page, id: nat, body: Body)
    requires Inv(p) && IsCurrent(p, id) && p.tasks[id].reading
    ensures var q := Step(p, BodyRead(id, body));
            && (q.ended <==> body.Over?)
            && (q.socket.Some? <==> body.Live?)
            && (body.Live? ==> Attached(q) && q.socket.value !in p.sockets && !q.canWrite && q.sockets[q.socket.value].generation == q.generation)
            && (q.timers != {} <==> (body.BodyFailed? || body.NoSocket?) && p.attempts < MAX_ATTEMPTS)
  {
    TaskTaken(p, id);
    var q := Step(p, BodyRead(id, body));
    assert Waiting(p);
    assert p.unused !in p.sockets;
    if (body.BodyFailed? || body.NoSocket?) && p.attempts < MAX_ATTEMPTS { assert p.unused in q.timers; }
  }

  /** A retry, a click and becoming visible ask for the status again, and nothing older goes on. */
  lemma ConnectOutcome(p: Page, e: Event)
    requires Inv(p) && Enabled(p, e) && (e.TimerFired? || e.ReconnectClicked? || e.Visible?)
    ensures var q := Step(p, e);
            && (Waiting(q) <==> p.configured && !p.ended && (e.Visible? || !p.hidden))
            && q.socket.None? && q.timers == {} && !q.canWrite && q.generation > p.generation
  {
    StepKeeps(p, e);
    var q := Step(p, e);
    if p.configured && !p.ended && (e.Visible? || !p.hidden) { assert IsCurrent(q, p.unused); }
    else { assert forall a :: IsCurrent(q, a) ==> a in p.tasks; }
  }

  /** A page that is hidden or put away stops everything it had under way. */
  lemma RestOutcome(p: Page, e: Event)
    requires Inv(p) && (e.Hidden? || e.PageHide?)
    ensures var q := Step(p, e);
            && !Waiting(q) && q.socket.None? && q.timers == {} && !q.canWrite && (e.Hidden? ==> q.hidden)
            && q.ended == p.ended && q.viewerToken == p.viewerToken
  {
    StepKeeps(p, e);
    StoppedKeeps(p.(hidden := true));
    StoppedKeeps(p);
    var q := Step(p, e);
    assert forall id :: IsCurrent(q, id) ==> id in p.tasks && p.tasks[id].generation == p.generation + 1;
  }

  /** Everything an outside observer or the user sees. */
  predicate SamePage(p: Page, q: Page) {
    q == p.(tasks := q.tasks, sockets := q.sockets)
  }

  /** Whatever it answers to, if that still exists, was started in an older generation. */
  predicate StaleFor(p: Page, e: Event) {
    match e
    case Replied(id, _) => id in p.tasks ==> p.tasks[id].generation != p.generation
    case BodyRead(id, _) => id in p.tasks ==> p.tasks[id].generation != p.generation
    case Received(sid, _) => sid in p.sockets ==> p.sockets[sid].generation != p.generation
    case Closed(sid) => sid in p.sockets ==> p.sockets[sid].generation != p.generation
    case _ => false
  }

  predicate AllStale(p: Page, events: seq<Event>) {
    forall k :: 0 <= k < |events| ==> StaleFor(p, events[k])
  }

  lemma StaleStep(p: Page, e: Event)
    requires Inv(p) && Enabled(p, e) && StaleFor(p, e)
    ensures SamePage(p, Step(p, e))
  {
  }

  lemma StaleStays(p: Page, e: Event, events: seq<Event>)
    requires Inv(p) && Enabled(p, e) && StaleFor(p, e) && AllStale(p, events)
    ensures AllStale(Step(p, e), events)
  {
    forall k | 0 <= k < |events| ensures StaleFor(Step(p, e), events[k]) {
      assert StaleFor(p, events[k]);
    }
  }

  /** Late answers of an older generation change nothing, in any number and any order. */
  lemma {:induction false} StaleEventsInert(p: Page, events: seq<Event>)
    requires Inv(p) && EnabledRun(p, events) && AllStale(p, events)
    ensures SamePage(p, Run(p, events))
    decreases |events|
  {
    if events != [] {
      assert StaleFor(p, events[0]);
      StepKeeps(p, events[0]);
      StaleStep(p, events[0]);
      assert AllStale(p, events[1..]);
      StaleStays(p, events[0], events[1..]);
      StaleEventsInert(Step(p, events[0]), events[1..]);
    }
  }

  lemma EndedStep(p: Page, e: Event)
    requires Inv(p) && p.ended && Enabled(p, e)
    ensures Step(p, e).ended && Step(p, e).sockets.Keys == p.sockets.Keys
  {
    match e
    case Replied(id, _) => assert !IsCurrent(p, id);
    case BodyRead(id, _) => assert !IsCurrent(p, id);
    case Received(sid, m) => assert Noted(p, sid, m).sockets.Keys == p.sockets.Keys;
    case Closed(sid) => assert OnClose(p, sid).sockets.Keys == p.sockets.Keys;
    case _ =>
  }

  /** Once the share is over nothing the page does, and nothing that happens, opens it again. */
  lemma {:induction false} EndedForever(p: Page, events: seq<Event>)
    requires Inv(p) && p.ended && EnabledRun(p, events)
    ensures var q := Run(p, events);
            q.ended && !q.canWrite && q.socket.None? && q.timers == {} && q.sockets.Keys == p.sockets.Keys
    decreases |events|
  {
    if events != [] {
      StepKeeps(p, events[0]);
      EndedStep(p, events[0]);
      EndedForever(Step(p, events[0]), events[1..]);
    }
  }

  // ---------------------------------------------------------------- the page's script

  const CHUNK := 32768

  /** The payload of the input frames, one after the other. */
  function Payload(frames: seq<seq<int>>): seq<int> {
    if frames == [] then []
    else
      var last := frames[|frames| - 1];
      Payload(frames[..|frames| - 1]) + (if last == [] then [] else last[1..])
  }

  class ViewerPage {
    var generation: nat
    var socket: Option<nat>
    var canWrite: bool
    var ended: bool
    var attempts: nat
    var viewerToken: string
    var pendingBytes: nat
    var retry: Option<nat>
    var hidden: bool
    const configured: bool
    var unused: nat
    // What the browser keeps for the page.
    var timers: set<nat>
    var tasks: map<nat, Task>
    var sockets: map<nat, Socket>
    ghost var retried: nat
    ghost var parked: bool

    ghost function Abs(): Page
      reads this
    {
      Page(generation, socket, canWrite, ended, attempts, viewerToken, pendingBytes, retry, hidden, configured,
           timers, tasks, sockets, unused, retried, parked)
    }

    ghost predicate Valid()
      reads this
    {
      Inv(Abs())
    }

    constructor (configured: bool, hidden: bool, token: string)
      ensures Abs() == Loaded(configured, hidden, token) && Valid()
    {
      generation, socket, canWrite, ended, attempts := 0, None, false, false, 0;
      viewerToken, pendingBytes, retry, unused := token, 0, None, 0;
      this.hidden, this.configured := hidden, configured;
      timers, tasks, sockets, retried, parked := {}, map[], map[], 0, false;
      new;
      LoadedKeeps(configured, hidden, token);
      Connect();
    }

    method Stop()
      modifies this
      ensures Abs() == Stopped(old(Abs()))
    {
      generation := generation + 1;
      if retry.Some? { timers := timers - {retry.value}; }
      socket := None;
      canWrite := false;
    }

    /** Stops, and unless there is reason to rest starts the status request. */
    method Connect()
      modifies this
      ensures Abs() == Connecting(old(Abs()))
    {
      Stop();
      parked := false;
      if hidden || ended { return; }
      if !configured { return; }
      tasks := tasks[unused := Task(generation, false)];
      unused := unused + 1;
    }

    method Schedule()
      modifies this
      ensures Abs() == Scheduled(old(Abs()))
    {
      canWrite := false;
      if hidden || ended { return; }
      attempts := attempts + 1;
      if attempts <= MAX_ATTEMPTS { SetTimer(); }
    }

    method SetTimer()
      modifies this
      ensures var p := old(Abs());
              Abs() == p.(retry := Some(p.unused), timers := p.timers + {p.unused}, unused := p.unused + 1, retried := p.retried + 1)
    {
      retry, timers := Some(unused), timers + {unused};
      unused, retried := unused + 1, retried + 1;
    }

    method ResetAttempts()
      modifies this
      ensures Abs() == Reset(old(Abs()))
    {
      attempts := 0;
      retried := 0;
    }

    /** The status request has been answered, or has failed. */
    method FetchResumed(id: nat, reply: Reply)
      requires id in tasks
      modifies this
      ensures Abs() == OnReply(old(Abs()), id, reply)
    {
      var task := tasks[id];
      tasks := tasks - {id};
      if task.generation != generation { return; }
      match reply
      case FetchFailed => Schedule();
      case Gone => ended := true;
      case Refused => Schedule();
      case Okay => tasks := tasks[id := task.(reading := true)];
    }

    /** The body of the status reply has been read; if the session is alive, a socket is opened. */
    method BodyResumed(id: nat, body: Body)
      requires id in tasks
      modifies this
      ensures Abs() == OnBody(old(Abs()), id, body)
    {
      hide Scheduled;
      var task := tasks[id];
      tasks := tasks - {id};
      if task.generation != generation { return; }
      match body
      case BodyFailed => Schedule();
      case NoSocket => Schedule();
      case Over => ended := true;
      case Live => OpenSocket();
    }

    method OpenSocket()
      modifies this
      ensures var p := old(Abs());
              Abs() == p.(sockets := p.sockets[p.unused := Socket(p.generation, true, false)],
                          socket := Some(p.unused), unused := p.unused + 1)
    {
      sockets, socket := sockets[unused := Socket(generation, true, false)], Some(unused);
      unused := unused + 1;
    }

    method SocketMessage(sid: nat, m: Message)
      requires sid in sockets
      modifies this
      ensures Abs() == OnMessage(old(Abs()), sid, m)
    {
      if m.Status? { sockets := sockets[sid := sockets[sid].(granted := m.canWrite)]; }
      if socket != Some(sid) || sockets[sid].generation != generation { return; }
      match m
      case Binary(length, output) => if output { OutputArrived(length); }
      case Status(granted, token, over) => StatusArrived(sid, granted, token, over);
      case OtherFrame =>
    }

    /** Too much undrawn output, and the page starts over. */
    method OutputArrived(length: nat)
      modifies this
      ensures var p := old(Abs());
              Abs() == if p.pendingBytes + length > MAX_PENDING then Connecting(Stopped(p).(pendingBytes := 0))
                       else p.(pendingBytes := p.pendingBytes + length)
    {
      pendingBytes := pendingBytes + length;
      if pendingBytes > MAX_PENDING {
        Stop();
        pendingBytes := 0;
        Connect();
      }
    }

    method StatusArrived(sid: nat, granted: bool, token: string, over: bool)
      requires sid in sockets
      modifies this
      ensures Abs() == OnStatus(old(Abs()), sid, granted, token, over)
    {
      ResetAttempts();
      canWrite := granted;
      if token != "" { viewerToken := token; }
      ended := over;
      if ended { Stop(); }
    }

    method SocketClosed(sid: nat)
      requires sid in sockets
      modifies this
      ensures Abs() == OnClose(old(Abs()), sid)
    {
      sockets := sockets[sid := sockets[sid].(open := false)];
      if socket == Some(sid) && sockets[sid].generation == generation { Schedule(); }
    }

    method FrameWritten(length: nat)
      modifies this
      ensures Abs() == Step(old(Abs()), Written(length))
    {
      pendingBytes := if length <= pendingBytes then pendingBytes - length else 0;
    }

    method ReconnectButton()
      modifies this
      ensures Abs() == Step(old(Abs()), ReconnectClicked)
    {
      ResetAttempts();
      Connect();
    }

    method VisibilityChanged(nowHidden: bool)
      modifies this
      ensures Abs() == Step(old(Abs()), if nowHidden then Hidden else Visible)
    {
      hidden := nowHidden;
      if hidden {
        Stop();
      } else {
        ResetAttempts();
        Connect();
      }
    }

    method PageHidden()
      modifies this
      ensures Abs() == Step(old(Abs()), PageHide)
    {
      Stop();
      parked := true;
    }

    /** The event loop: one callback, run to its end or to its next await. */
    method Dispatch(e: Event)
      requires Valid() && Enabled(Abs(), e)
      modifies this
      ensures Abs() == Step(old(Abs()), e) && Valid()
    {
      StepKeeps(Abs(), e);
      Handle(e);
    }

    method Handle(e: Event)
      requires Enabled(Abs(), e)
      modifies this
      ensures Abs() == Step(old(Abs()), e)
    {
      match e
      case Replied(id, reply) => FetchResumed(id, reply);
      case BodyRead(id, body) => BodyResumed(id, body);
      case Received(sid, m) => SocketMessage(sid, m);
      case Closed(sid) => SocketClosed(sid);
      case TimerFired(t) =>
        timers := timers - {t};
        Connect();
      case Written(n) => FrameWritten(n);
      case ReconnectClicked => ReconnectButton();
      case Hidden => VisibilityChanged(true);
      case Visible => VisibilityChanged(false);
      case PageHide => PageHidden();
    }

    /** Input leaves in frames of bounded size, all of it and in order, and only with control. */
    method SendInput(data: seq<int>, ready: bool) returns (frames: seq<seq<int>>)
      ensures if canWrite && socket.Some? && ready then Payload(frames) == data else frames == []
      ensures forall k :: 0 <= k < |frames| ==> 1 < |frames[k]| <= CHUNK + 1 && frames[k][0] == 2
    {
      frames := [];
      if !canWrite || socket.None? || !ready { return; }
      var i := 0;
      while i < |data|
        invariant 0 <= i && Payload(frames) == data[..if i <= |data| then i else |data|]
        invariant forall k :: 0 <= k < |frames| ==> 1 < |frames[k]| <= CHUNK + 1 && frames[k][0] == 2
      {
        var part := data[i..if i + CHUNK <= |data| then i + CHUNK else |data|];
        var frame := [2] + part;
        assert (frames + [frame])[..|frames|] == frames && frame[1..] == part;
        frames := frames + [frame];
        i := i + CHUNK;
      }
      assert data[..|data|] == data;
    }
  }
}
