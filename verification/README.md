# Verified models of tmux Chat Web

Dafny models of the parts of this repository whose behaviour is hardest to see from the code, with proofs of what
they guarantee. `dafny verify dfyconfig.toml` checks everything.

| files | what they model |
|---|---|
| `SessionModel`, `SessionInvariants`, `SessionSteps`, `SessionTheorems`, `SessionAuthority`, `SessionAlarm`, `SessionCoverage`, `SessionControl`, `SessionRestart`, `Session` | the shared-terminal session: a host socket, viewer sockets, the request/approve/lease protocol, four deadlines, one alarm and a persisted record |
| `Viewer` | the page at the other end: a reconnecting client whose callbacks carry a generation |
| `NotifyText`, `NotifyBudget`, `NotifyBody`, `NotifyEdges`, `NotifyQueue` | agent notifications: UTF-8 truncation, the byte allocator, batch bodies, the edge detector, the queue of a topic |
| `ReleaseTrace`, `ReleaseCauses`, `Release` | the release script with its rollback |
| `Markdown`, `MarkdownParser`, `MarkdownUnique`, `MarkdownLines`, `MarkdownItems`, `MarkdownSource`, `MarkdownDocument`, `MarkdownTable` | the Markdown block parser |
| `AnsiStyle`, `AnsiCodes`, `AnsiCss`, `HtmlEscape`, `Ansi` | the renderer of terminal text |
| `ShellCommand`, `Recents`, `Groups` | the launch command, the recent-windows list, the grouping of agent cards |
| `Prelude`, `Text` | options, results, white space, decimal numbers |

## How the models are built

**Session.** `SessionModel` gives every handler as a function of the state, the event, one clock reading and an
oracle that says which sends succeed; `TTYSession` is the object whose methods update fields step by step, and each
method is proved equal to the function of the same name, so `Dispatch` moves the object exactly as `Step` moves the
machine. A history variable `log` records what whole-run claims speak about. Clean-ups that the code starts without
awaiting (`void this.clearHost()`) change the record at once and broadcast when the handler has finished.
`SessionControl` and `SessionRestart` say what each message, connection, close, alarm and restart does to the state
before it, in terms of that state alone.

**Viewer and notification queue.** The same pattern: pure transitions, an invariant, theorems over every enabled run,
and a class proved to follow the transitions.

**Release.** Every cloud call has an arbitrary reply, so another actor may have moved anything between two calls.
The script is a class that appends each call to a history; `Honest` says, for each kind of call, what the history
before it must show, and every method is proved to keep the history honest. `ReleaseCauses` says after which calls the
script must not go on; a run that is not released is cut short by such a call, or by 900 seconds of waiting, and a
run without one is released. Three lemmas then read honest histories
in a cloud where nobody else moves tags.

**Markdown.** The parser is generic in the type of a line; the patterns it matches lines against are functions of
which nothing is assumed beyond `Coherent`. Its specification is a grammar on intervals of lines (`IsDocument`);
the parser's output meets it (`RenderBlocks`), nothing else does (`DocumentUnique`), and `MarkdownDocument` puts in
the concrete notions of blank line, indentation, list item and dedenting, each characterized on its own
(`MarkdownItems`), and `MarkdownSource` the lines of a text.

**ANSI.** `Reference` renders one character at a time; `Shown` is what a browser makes of the HTML. The chunked loop
is proved to produce HTML that is shown as the reference says. The reference names styles and their CSS;
`AnsiCodes` says what a style is after a sequence, one attribute at a time, and `AnsiCss` reads its declarations back
from the text of the attribute.

## Where the code does less than it seems to

* A session is never renewed: `sessionExpiresAt` always equals `maxExpiresAt`, so `touchSession` does nothing
  (`TouchSessionIdle`, `ExpiryFixed`).
* `clearHost` writes `ready` whatever the state was, so ending a session whose host cannot be told leaves it ready, with
  a reconnect grace. `EndOutcome` gives the exact condition and `EndMayRevive` a run in which it happens;
  `TerminalAbsorbing` does the same for a restart.
* `scheduleNextAlarm` drops deadlines that have passed. An overdue session can therefore be left open without an alarm;
  `AlarmLostExactly` says by which events, and `LateCloseLosesAlarm` and `LateEndLosesAlarm` are two runs in which it
  happens. It stays open until a request, a connection or a message comes in (`OverdueCloses`).
* A reading with the status `unverified`, or without text, between the end of a run and the next reading makes the
  notifier lose the completion (`UnverifiedLosesCompletion`, `EmptiedLosesCompletion`). `OwedExactly` says, for all
  histories and in terms of their readings alone, when that happens; `NoCompletionOwed` that settled histories are free of it.
* The branch of the list parser that starts an item with an empty head is never taken: the first line of a list is always
  an item of that list (`TakeLine` is proved without it).
* A table row whose cell ends in a backslash swallows the next separator (`CellsRoundTrip` is an equivalence).
* A release that has been verified is still rolled back when its success receipt cannot be written or printed; the
  script returns normally only after both (`Run`).

## Model

| member | source | states |
|---|---|---|
| SessionTheorems.RunKeeps | services/terminal-share/src/session-do.ts:82-251 | the session invariant and the alarm's coverage hold in every state of every run, whatever sends fail; without a restart controller and pending viewer stay connected |
| SessionTheorems.SingleWriter | services/terminal-share/src/session-do.ts:641-644 | in every reachable state at most one socket may write |
| SessionAuthority.EveryForwardAuthorized | services/terminal-share/src/session-do.ts:452-468 | every stdin frame that a run forwarded was sent by the viewer that asked for control and that the host approved, under one generation, within the request's timeout and for 60 to 1800 seconds, with nothing in between that ends either, in a session that allows control, before lease and session expire; and each of request, approval and frame is led back to a message of the run, from a connected viewer or the host, on the socket it is noted with |
| SessionAuthority.ForwardedExactly | services/terminal-share/src/session-do.ts:452-468 | whatever sends fail, an event forwards a frame if and only if it is a stdin message of at most a mebibyte from the connected viewer in control, before its lease and the session expire |
| SessionAuthority.StepActs | services/terminal-share/src/session-do.ts:361-468 | every event adds at most one request, approval or frame, and only one that this event, its socket and the state before it account for |
| SessionTheorems.RecordAlways | services/terminal-share/src/session-do.ts:295-320 | controller and lease, request and its expiry come in pairs and exclude each other; either implies a connected host, an active state and permission; a reconnect grace implies no host |
| SessionTheorems.HoldersConnected | services/terminal-share/src/session-do.ts:754-796 | within one incarnation the controller and the pending viewer have a live connection, and no token has two |
| SessionTheorems.ExpiryFixed | services/terminal-share/src/session-do.ts:105-120 | no event but /init moves the expiry, the maximum or the permission |
| SessionTheorems.BroadcastOutcome | services/terminal-share/src/session-do.ts:706-738 | of all the sends of a broadcast only a failing one to the host changes the session's state, and it makes it ready |
| SessionTheorems.FinishOutcome | services/terminal-share/src/session-do.ts:860-896 | finishing keeps a terminal session terminal exactly if its host, when there is one, could be told |
| SessionTheorems.EndOutcome | services/terminal-share/src/session-do.ts:122-128 | /end ends the session if and only if there is no host or the host could be told; otherwise it is ready with a grace |
| SessionTheorems.EndMayRevive | services/terminal-share/src/session-do.ts:511-525 | a run of three events and one failing send after which an ended session is ready |
| SessionTheorems.TerminalAbsorbing | services/terminal-share/src/session-do.ts:855-896 | an ended or closed session stays so through every event but /init; a restart revives it exactly when a host socket survived and the farewell fails |
| SessionTheorems.LateHostClose | services/terminal-share/src/session-do.ts:495-504 | the close of a replaced host socket changes nothing but the clock |
| SessionTheorems.LateViewerClose | services/terminal-share/src/session-do.ts:506-509 | with sends going through, the close of a replaced viewer socket leaves record, viewers and host alone |
| SessionTheorems.ReplacedFramesIgnored | services/terminal-share/src/session-do.ts:366-373 | when nothing is due, a frame from a socket that is no longer the host or a viewer changes nothing |
| SessionTheorems.NewHostClearsControl | services/terminal-share/src/session-do.ts:164-181 | after a host connects nobody has control and nobody is waiting for it |
| SessionTheorems.ReconnectKeepsControl | services/terminal-share/src/session-do.ts:331-346 | a controller that comes back with its token may write from the new socket, only from there, and nobody else loses a connection |
| SessionTheorems.SnapshotReachesOwner | services/terminal-share/src/session-do.ts:390-403 | when nothing is due, a snapshot from the host is delivered to the one live connection its request id was issued to and nothing else changes; that connection is dropped if the send fails; without such a connection nothing happens |
| SessionControl.RequestOutcome | services/terminal-share/src/session-do.ts:561-590 | with nothing due and sends going through, a connected viewer's request is recorded, with its id, its seconds and 30 seconds to answer, and the host is told, if and only if the session allows control, a host is there, and nobody has control or waits for it; else nothing of the record moves; host and viewers of an open session hear the status either way |
| SessionControl.ApproveOutcome | services/terminal-share/src/session-do.ts:592-610 | under the same conditions the host's approval puts a viewer in control, until the seconds it names or else those asked for are over, and everybody is told, if and only if it names the pending viewer |
| SessionControl.RejectOutcome | services/terminal-share/src/session-do.ts:612-627 | a rejection takes the request back if and only if it names the pending viewer, and does nothing else |
| SessionControl.RevokeOutcome | services/terminal-share/src/session-do.ts:629-639 | a revocation takes control from whoever has it, and nothing else |
| SessionControl.ReleaseOutcome | services/terminal-share/src/session-do.ts:470-477 | a viewer's release takes control away if and only if that viewer has it |
| SessionControl.WrongRole | services/terminal-share/src/session-do.ts:379-493 | a viewer cannot approve, reject or revoke, and the host cannot request or release |
| SessionControl.OutputOutcome | services/terminal-share/src/session-do.ts:431-450 | terminal output from the host is sent once to every viewer and changes nothing |
| SessionControl.StdinOutcome | services/terminal-share/src/session-do.ts:452-468 | a frame of the viewer in control is sent to the host once, under that viewer's id and the generation, and changes nothing; anybody else's changes nothing at all |
| SessionControl.DetailsOutcome | services/terminal-share/src/session-do.ts:527-559 | what the host says of its terminal is noted exactly if it is a size of 1 to 1000 cells each way, with what is after the point cut off, or a known profile; all else stays |
| SessionControl.ConnectHostOutcome | services/terminal-share/src/session-do.ts:164-181 | a host is seated, under a new generation and with nobody in control, if and only if the session is open; else 410 and nothing moves |
| SessionControl.ConnectViewerOutcome | services/terminal-share/src/session-do.ts:331-346 | a viewer is connected, under the id of its token or a fresh one and in place of other connections of the token, if and only if the session is open |
| SessionControl.InitOutcome | services/terminal-share/src/session-do.ts:105-120 | /init starts a session, with its permission, expiry and alarm, if and only if there is none and the expiry lies within the next seven days; else 409 or 400 and nothing moves |
| SessionControl.StopOutcome | services/terminal-share/src/session-do.ts:122-128 | /end and the host's own end stop the sharing with their reason, drop control, request, grace and host, and keep the viewers |
| SessionControl.HostCloseOutcome | services/terminal-share/src/session-do.ts:511-525 | when the host's connection closes, control and request go, the session is ready, and the host has three minutes to come back |
| SessionControl.ViewerCloseOutcome | services/terminal-share/src/session-do.ts:778-796 | when a viewer's connection closes, it alone goes, with exactly the control or the request it held |
| SessionControl.AlarmOutcome | services/terminal-share/src/session-do.ts:798-843 | with sends going through, an alarm closes the session exactly when it has expired and else ends it exactly when the host stayed away too long; otherwise request and lease go exactly when their time is up, and the rest of the record stays |
| SessionRestart.RestartOutcome | services/terminal-share/src/session-do.ts:253-320 | after a restart of an open session the first surviving host socket is the host, each token is connected by its last surviving socket and nobody else is, and the record says whether the host is there or until when it may stay away |
| SessionSteps.StepKeeps | services/terminal-share/src/session-do.ts:102-251 | every event, of any kind, keeps the invariant and never puts the alarm behind a deadline ahead |
| SessionSteps.TouchSessionIdle | services/terminal-share/src/session-do.ts:898-912 | renewing a session changes nothing |
| SessionSteps.ApprovalTraced | services/terminal-share/src/session-do.ts:592-610 | an approval answers a request of the same viewer and generation that is still within its timeout |
| SessionSteps.LeaseUntil | services/terminal-share/src/session-do.ts:602-606 | a granted lease ends 60 to 1800 seconds after its approval, whatever the payload says |
| SessionSteps.ForwardAuthorized | services/terminal-share/src/session-do.ts:464-467 | a socket that may write does so under a grant to its own viewer that is still good |
| SessionSteps.RestoreKeeps | services/terminal-share/src/session-do.ts:253-320 | a restart over any surviving sockets re-establishes the invariant |
| SessionSteps.AddViewerKeeps | services/terminal-share/src/session-do.ts:191-197 | a new connection replaces exactly the connections with its token |
| SessionModel.NormalizeLeaseSeconds | services/terminal-share/src/session-do.ts:943-950 | no request gives the fallback; a request is rounded towards zero between 60 and 1800 seconds and replaced by the nearer of the two outside |
| SessionModel.FindRequest | services/terminal-share/src/session-do.ts:395-401 | the first viewer whose connection was issued the request id, and none exactly if there is no such viewer |
| SessionModel.Settle | services/terminal-share/src/session-do.ts:727-752 | the broadcasts that failing sends leave owed come to an end |
| SessionAlarm.AlarmStep | services/terminal-share/src/session-do.ts:146-152 | after an alarm the session is closed without one, or every deadline is ahead and the alarm is their minimum, exactly unless the session expired with a host that cannot be told |
| SessionAlarm.AlarmProgress | services/terminal-share/src/session-do.ts:798-843 | with sends going through, each due alarm takes one deadline with it |
| SessionAlarm.TwoAlarmsClose | services/terminal-share/src/session-do.ts:146-152 | with sends going through and only alarms firing, two alarms close a session that has one, from every state that a run can reach, even when an earlier deadline left the first alarm behind |
| SessionCoverage.AlarmCovers | services/terminal-share/src/session-do.ts:914-932 | every reachable session that is neither closed nor overdue has an alarm no later than any deadline ahead, whatever sends fail |
| SessionAlarm.SucceedingAlarm | services/terminal-share/src/session-do.ts:845-853 | with sends going through, an alarm does to the record exactly what the clock does |
| SessionCoverage.AlarmLostExactly | services/terminal-share/src/session-do.ts:914-932 | with sends going through, an event leaves a session that had an alarm open without one if and only if the session is overdue and the event is an /end, the close of a viewer connection that leaves nothing else to wait for, or a restart that gives a ready session a host back |
| SessionCoverage.OnlyTheseLose | services/terminal-share/src/session-do.ts:914-932 | in every run whose sends go through, an initialized session that is open without an alarm lost it to one of these events |
| SessionCoverage.OverdueCloses | services/terminal-share/src/session-do.ts:798-806 | the first status request, connect, alarm or message after the expiry closes the session |
| SessionCoverage.LateCloseLosesAlarm | services/terminal-share/src/session-do.ts:919-929 | a run after which a ready session is overdue and has no alarm |
| SessionCoverage.LateEndLosesAlarm | services/terminal-share/src/session-do.ts:122-128 | a run after which an ended session is overdue and has no alarm |
| Session.TTYSession.Dispatch | services/terminal-share/src/session-do.ts:102-251 | the object handles every event exactly as the machine does and stays valid |
| Session.TTYSession.AdvanceRecord | services/terminal-share/src/session-do.ts:798-843 | the method is the transition that expires session, request, lease and grace |
| Session.TTYSession.HandleMessage | services/terminal-share/src/session-do.ts:361-493 | the method is the transition of a message from either role |
| Session.TTYSession.HandleHostFrame | services/terminal-share/src/session-do.ts:379-430 | the method is the transition of a host's text frame |
| Session.TTYSession.HandleControlRequest | services/terminal-share/src/session-do.ts:561-590 | the method is the transition of a control request |
| Session.TTYSession.GrantControl | services/terminal-share/src/session-do.ts:602-609 | the method is the transition that grants the lease |
| Session.TTYSession.ClearHost | services/terminal-share/src/session-do.ts:511-525 | the method is the transition that loses the host |
| Session.TTYSession.RemoveViewer | services/terminal-share/src/session-do.ts:778-796 | the method is the transition that loses a viewer, with its control and request |
| Session.TTYSession.ReplaceViewerConnection | services/terminal-share/src/session-do.ts:754-763 | the loop over the viewers is the transition that closes older connections of a token |
| Session.TTYSession.BroadcastStatus | services/terminal-share/src/session-do.ts:706-725 | the loop over host and viewers is the transition in which each failing send loses its target |
| Session.TTYSession.ScheduleNextAlarm | services/terminal-share/src/session-do.ts:914-932 | the method sets the least deadline ahead as alarm, or deletes it |
| Session.TTYSession.HandleRestore | services/terminal-share/src/session-do.ts:91-100 | the constructor's work on surviving sockets is the restart transition |
| Viewer.ReachablePages | services/terminal-share/src/viewer.ts:40-106 | in every reachable page: write access if and only if the open current socket's last status granted it, at most one timer, at most eight retries between resets, a timer only with nothing else under way; and a page with no reason to rest is trying, connected, or about to try |
| Viewer.StaleEventsInert | services/terminal-share/src/viewer.ts:51-61 | any number of late answers of older generations, in any order, leave everything visible as it was |
| Viewer.EndedForever | services/terminal-share/src/viewer.ts:40-56 | once the share is over no event of any kind opens a socket again |
| Viewer.StatusOutcome | services/terminal-share/src/viewer.ts:77-94 | a status on the current socket decides write access unless the share is over, keeps the token or takes the new one, and resets the count of attempts; when the share is over nothing stays open |
| Viewer.OutputOutcome | services/terminal-share/src/viewer.ts:62-68 | output is counted until it is drawn, when the page is as before, and past four mebibytes the page starts over |
| Viewer.CloseOutcome | services/terminal-share/src/viewer.ts:97-106 | when the current socket closes, write access goes and a timer is set exactly for the first eight attempts |
| Viewer.AnswerOutcome | services/terminal-share/src/viewer.ts:51-56 | the answer to the current status request ends the page, is read on, or sets a retry |
| Viewer.BodyOutcome | services/terminal-share/src/viewer.ts:55-59 | its body ends the page, sets a retry, or opens a new socket that may not write yet |
| Viewer.ConnectOutcome | services/terminal-share/src/viewer.ts:40-50 | a retry, a click or becoming visible asks for the status again exactly if the page is configured, visible and not ended, and nothing older goes on |
| Viewer.RestOutcome | services/terminal-share/src/viewer.ts:27-36 | a page that is hidden or put away stops everything it had under way |
| Viewer.StepKeeps | services/terminal-share/src/viewer.ts:27-36 | every callback keeps the invariant |
| Viewer.ViewerPage.Dispatch | services/terminal-share/src/viewer.ts:40-106 | the script's callbacks move the page exactly as the transitions do |
| Viewer.ViewerPage.Connect | services/terminal-share/src/viewer.ts:40-50 | connecting stops everything older and starts one status request, unless hidden, ended or unconfigured |
| Viewer.ViewerPage.Schedule | services/terminal-share/src/viewer.ts:99-106 | a failure takes write access away and sets a timer for the first eight attempts |
| Viewer.ViewerPage.SendInput | services/terminal-share/src/viewer.ts:107-115 | input leaves in order, complete, in tagged frames of bounded size, and only with write access |
| NotifyBudget.AllocateByteBudgets | lib/agent-ntfy.mjs:500-524 | budgets sum to the smaller of total and demand, none exceeds its length, and no cut entry is more than one byte behind another |
| NotifyBudget.AllocationUnique | lib/agent-ntfy.mjs:500-524 | there is only one such allocation |
| NotifyBudget.FairShare | lib/agent-ntfy.mjs:505-513 | every entry gets its length or at least an equal share of the total |
| NotifyBudget.SharesGrow | lib/agent-ntfy.mjs:506-520 | over the rounds of the allocator, from any stage of it, no share is below an earlier one |
| NotifyText.DecodeEncode | lib/agent-ntfy.mjs:550-552 | UTF-8 encoding round trip |
| NotifyText.EncodedLength | lib/agent-ntfy.mjs:550-552 | the byte count the notifier uses is the length of the encoding |
| NotifyText.CutDecodesToNothing | lib/agent-ntfy.mjs:538-548 | bytes cut inside a character decode to nothing, which is what truncating by characters avoids |
| NotifyText.TakeUtf8Prefix | lib/agent-ntfy.mjs:538-548 | the loop yields the longest fitting prefix |
| NotifyText.TakePrefixLongest | lib/agent-ntfy.mjs:541-546 | the prefix fits and one character more does not |
| NotifyText.TruncateFits | lib/agent-ntfy.mjs:526-536 | a truncation never exceeds its budget |
| NotifyText.TruncateIdentity | lib/agent-ntfy.mjs:529-530 | it is the identity exactly on texts that fit |
| NotifyText.TruncateShortens | lib/agent-ntfy.mjs:526-536 | of a text that is too long the most that leaves room for the marker is kept, in whole characters and up to white space at the cut; with no such room, what fits of the marker |
| NotifyBody.FormatFits | lib/agent-ntfy.mjs:440-450 | a notification body fits its limit |
| NotifyBody.FormatWhole | lib/agent-ntfy.mjs:443-443 | nothing is cut exactly when everything fits |
| NotifyBody.FormatKeepsLink | lib/agent-ntfy.mjs:445-448 | the link survives whole whenever it leaves the text a byte |
| NotifyBody.FormatShortens | lib/agent-ntfy.mjs:440-450 | what does not fit is shortened no more than it must be: the response when the link leaves it a byte, else response and link as one text |
| NotifyBody.JoinOrder | lib/agent-ntfy.mjs:477-497 | the entries of a batch stand in the message in their order |
| NotifyBody.FormatBatchBody | lib/agent-ntfy.mjs:465-498 | the method returns the batch body: whole if it fits, else every entry fitted to its budget |
| NotifyBody.BatchBodyFits | lib/agent-ntfy.mjs:465-498 | no batch body is over 4096 bytes |
| NotifyBody.FinalTruncation | lib/agent-ntfy.mjs:497-497 | the last truncation cuts exactly when the framing alone is too long |
| NotifyBody.EntryKeepsLink | lib/agent-ntfy.mjs:487-496 | an entry whose equal share exceeds its link keeps the link |
| NotifyBody.LinkAppearsWhole | lib/agent-ntfy.mjs:480-497 | the message shows that link whole |
| NotifyBody.FittedDetermined | lib/agent-ntfy.mjs:483-497 | the message depends only on the fairness of the allocation |
| NotifyEdges.AgentTracker.NextNotification | lib/agent-ntfy.mjs:95-134 | a reading steps its own agent and leaves all others as they are; an agent without a key is ignored |
| NotifyEdges.FirstNotified | lib/agent-ntfy.mjs:105-141 | an agent's first reading is notified exactly if it is ended, shows a response, and is recent |
| NotifyEdges.LaterNotified | lib/agent-ntfy.mjs:117-134 | a later one is notified exactly if it announces a response, by a run before it, a new turn or a new text, that is not acknowledged yet |
| NotifyEdges.SuccessiveDiffer | lib/agent-ntfy.mjs:117-130 | two successive notifications of an agent carry different responses |
| NotifyEdges.NoCompletionOwed | lib/agent-ntfy.mjs:117-130 | in settled histories every ended reading's response has been notified or was the baseline |
| NotifyEdges.OwedExactly | lib/agent-ntfy.mjs:95-134 | in every history, the response shown last is neither notified nor the baseline if and only if the last announcing reading, one that is ended after a run, with a new turn or with a new text, showed another one |
| NotifyEdges.AcknowledgedIsLastAnnounced | lib/agent-ntfy.mjs:95-134 | what the tracker has acknowledged is always the response of the last announcing reading |
| NotifyEdges.UnverifiedLosesCompletion | lib/agent-ntfy.mjs:411-414 | a history with an unverified reading that loses a completion |
| NotifyEdges.EmptiedLosesCompletion | lib/agent-ntfy.mjs:100-127 | a history with an empty reading that loses a completion |
| NotifyEdges.AgentsIndependent | lib/agent-ntfy.mjs:103-130 | each agent is tracked as if its readings were the only ones |
| NotifyQueue.ItemsConserved | lib/agent-ntfy.mjs:194-259 | every queued item is in one batch or pending, in order, and pending items have a timer or a flight |
| NotifyQueue.AttemptsSpaced | lib/agent-ntfy.mjs:237-258 | an attempt starts no sooner than the least interval after every earlier one finished |
| NotifyQueue.TimerDrains | lib/agent-ntfy.mjs:228-235 | a timer that fires empties the queue |
| NotifyQueue.SentExactly | lib/agent-ntfy.mjs:208-258 | in every run an event starts an attempt if and only if something waits, nothing is in flight any more, no answer was quiet and the interval since the last attempt's end is over; it takes all that waits |
| NotifyQueue.DroppedExactly | lib/agent-ntfy.mjs:208-269 | an event drops items if and only if it decides about them and the quiet hours hold at the decision, or at the sending that the interval allows |
| NotifyQueue.SentOrDue | lib/agent-ntfy.mjs:221-240 | without a quiet answer, what an event decides about is in an attempt, or still waits with the timer set to the end of the interval |
| NotifyQueue.TimerSends | lib/agent-ntfy.mjs:228-235 | a timer that fires without a quiet answer sends all that waits |
| NotifyQueue.EndRecorded | lib/agent-ntfy.mjs:249-256 | the interval counts from the end of the last attempt, which no event but that end moves |
| NotifyQueue.NeverQuietSendsAll | lib/agent-ntfy.mjs:208-258 | a run without quiet answers drops nothing: what was ever queued is in an attempt or still waits |
| NotifyQueue.RunKeeps | lib/agent-ntfy.mjs:208-308 | the queue invariant over every interleaving of observations, timers and completions |
| NotifyQueue.TopicQueue.Observe | lib/agent-ntfy.mjs:85-93 | the method is the transition of a tick |
| NotifyQueue.TopicQueue.FlushOrScheduleTopic | lib/agent-ntfy.mjs:208-226 | the method is the flush decision |
| NotifyQueue.TopicQueue.FlushTopic | lib/agent-ntfy.mjs:242-259 | the method takes the whole queue into one flight |
| NotifyQueue.TopicQueue.SendCallback | lib/agent-ntfy.mjs:249-256 | the method is the transition of a finished send |
| Release.Deployer.Run | scripts/deploy-existing-task.py:24-197 | all calls are honest for the preflight's plan; plan mode and a failed preflight change nothing; an error before the tag was touched leaves it untouched; a failed preflight ends with a call that must stop it; after it, a history without a call that must stop the release, and within 900 s, ends in a release with its success receipt; any other outcome was cut short by such a call of this run, or by 900 s in which the rollout was only ever seen rolling, with the failure receipt next; a completed rollback ends in its receipt, and a failed one gave up for a cause of its own |
| Release.Deployer.Perform | scripts/deploy-existing-task.py:171-197 | everything after the preflight keeps the history honest; whatever is not released was cut short at a call that must stop it or after 900 s still rolling, a refusal at such a call before the tag moved, and a failed rollback gave up for a cause in its own last call, or after 900 s |
| Release.Deployer.Preflight | scripts/deploy-existing-task.py:91-126 | a plan exists only for a stable service, a single controller container, this repository's mutable tag, two resolved images and agreeing healthy endpoints; without a plan the last call is one that does not show this |
| Release.Deployer.SecureRollback | scripts/deploy-existing-task.py:171-176 | it succeeds exactly if the rollback tag was read back holding the old digest, and touches no other tag |
| Release.Deployer.Put | scripts/deploy-existing-task.py:83-89 | the tag is moved unless it reads as the image already; it succeeds exactly if it was placed or found there |
| Release.Deployer.Wait | scripts/deploy-existing-task.py:141-169 | success means our rollout settled, then every endpoint gave the revision, then every container ran a digest of the release; it fails only when its last call is one that must stop it, or after 900 s in which every look found the rollout still rolling; at most 60 polls |
| Release.Deployer.CheckHealth | scripts/deploy-existing-task.py:61-74 | it succeeds exactly if every endpoint is well at the first one's versions and the answers are on file; else an endpoint is out of reach, or the answers cannot be filed or disagree |
| Release.Deployer.CheckStillOurs | scripts/deploy-existing-task.py:188-193 | it succeeds only if our rollout is primary and the tag still reads as the new image, with no change in between |
| Release.Deployer.RollBack | scripts/deploy-existing-task.py:187-197 | success means the rollback receipt was earned and written; it fails only after 900 s or when its last call is one that must stop it: a refused call, a foreign primary, a tag that no longer reads as the new image, a wrong answer |
| Release.HealthUrls | scripts/deploy-existing-task.py:34-39 | either production endpoint brings in the other, each once, the chosen one first |
| Release.TagOf | scripts/deploy-existing-task.py:104-109 | a deployment tag is found exactly if the image names one of this repository's mutable tags |
| Release.OursAtLook | scripts/deploy-existing-task.py:189-194 | the two checks before the rollback give permission to put the old image back |
| ReleaseTrace.OldImageKept | scripts/deploy-existing-task.py:172-194 | alone in the cloud, at every point the deployment tag or the rollback tag holds the old image, whichever puts fail or half succeed |
| ReleaseTrace.SuccessHoldsNew | scripts/deploy-existing-task.py:179-185 | alone in the cloud, a success receipt means that the deployment tag holds the new image |
| ReleaseTrace.RollbackHoldsOld | scripts/deploy-existing-task.py:192-196 | alone in the cloud, a rollback receipt means that it holds the old image |
| MarkdownParser.RenderBlocks | public/markdown.js:502-628 | the parser terminates and its blocks partition the lines as the grammar says |
| MarkdownParser.ParseListBlock | public/markdown.js:393-485 | a list block covers its lines as the grammar says, its children dedented and parsed in turn |
| MarkdownParser.CollectItems | public/markdown.js:398-460 | a list runs as far as heads and deeper lines follow over blank lines; every line in it that is not blank is one head or one child, in order |
| MarkdownParser.TakeLine | public/markdown.js:429-459 | a line joins the list exactly if it is a head or deeper; the empty-head branch is not needed |
| MarkdownParser.ReadDisplayMathBlock | public/markdown.js:221-244 | a display runs to its first closing line or to the end |
| MarkdownParser.ReadFence | public/markdown.js:517-536 | a code block runs to its first closing fence or to the end |
| MarkdownParser.ReadTable | public/markdown.js:566-591 | a table takes the rows that follow, each fitted to the header |
| MarkdownParser.ReadParagraph | public/markdown.js:608-624 | a paragraph runs to the first line that ends one |
| MarkdownParser.NextPiece | public/markdown.js:506-625 | each turn of the loop takes the first pattern that matches and makes progress |
| MarkdownUnique.DocumentUnique | public/markdown.js:502-628 | a document has one parse |
| MarkdownUnique.RawsUnique | public/markdown.js:432-458 | the lines of a list fall into heads and children in one way |
| MarkdownUnique.ExtendsNoFurther | public/markdown.js:401-459 | a list has one end |
| MarkdownLines.IndentTwoWays | public/markdown.js:374-430 | the two ways the parser measures indentation agree |
| MarkdownLines.Dedent | public/markdown.js:489-498 | the loop shifts the lines by the least indentation |
| MarkdownItems.ItemsExactly | public/markdown.js:369-373 | a line is a list item if and only if it is white space, a bullet or a number with its dot or bracket, white space, and the rest of one line |
| MarkdownItems.ItemFields | public/markdown.js:374-386 | its column is that of the marker with tabs expanded, it is ordered exactly with a number, which is read from the digits, and its content is the rest |
| MarkdownItems.ItemTask | public/markdown.js:377-384 | it is a task if and only if the rest starts with a box and white space, done exactly with a cross in it, and its content is then what follows |
| MarkdownItems.ParseDecimal | public/markdown.js:385-385 | the digits of a number are read as that number |
| MarkdownDocument.DedentToMargin | public/markdown.js:490-497 | dedenting brings some line to column 0 |
| MarkdownDocument.DedentMovesLine | public/markdown.js:497-497 | and shifts every other by the same amount |
| MarkdownDocument.DedentKeepsItem | public/markdown.js:489-498 | dedenting keeps what a line is: the same marker, number and task box, further left, with the content's tabs expanded |
| MarkdownDocument.RenderMarkdown | public/markdown.js:630-633 | any text is parsed, in finitely many steps, to the one document that the grammar gives the lines of the text |
| MarkdownSource.LinesOfSource | public/markdown.js:631-631 | the lines handed to the parser are the pieces of the text between line ends, each a line feed, a carriage return or the pair of both, and there are no other such pieces |
| MarkdownSource.LinesUnique | public/markdown.js:631-631 | a text is divided into lines and line ends in one way, when no carriage return is parted from its line feed |
| MarkdownTable.SplitTableRow | public/markdown.js:321-339 | the loop yields the trimmed cells between unescaped pipes |
| MarkdownTable.CellsRoundTrip | public/markdown.js:325-336 | escaped cells come back exactly when none but the last ends in a backslash |
| MarkdownTable.RowRoundTrip | public/markdown.js:321-339 | a whole row with its outer pipes gives the trimmed cells back under exactly the same condition |
| Ansi.AnsiToHtml | public/app.js:3062-3087 | what a browser shows of the HTML is what the character-by-character renderer gives; without tags and with entities decoded it is the input without its sequences |
| Ansi.ChunksShown | public/app.js:3074-3079 | chunks are shown as their characters, each in its chunk's style |
| Ansi.SkipChunk | public/app.js:3080-3085 | all characters up to the next sequence have the style in force |
| Ansi.ReferenceText | public/app.js:3076-3085 | the reference shows exactly the text outside the sequences |
| Ansi.SgrExactly | public/app.js:3065-3065 | a sequence is the escape, a bracket, digits and separators, and an m, and nothing else is one |
| AnsiStyle.AnsiState.ApplyAnsiSgr | public/app.js:3005-3033 | the loop over the codes is the fold of the codes, extended colours taking their arguments with them |
| AnsiCodes.EachDecided | public/app.js:3005-3033 | after any codes each colour and each of the six flags is what the last command about it says, or as before without one |
| AnsiCodes.ResetForgets | public/app.js:3009-3009 | nothing from before a reset is left, and a reset at the end leaves the fresh style |
| AnsiCodes.CommandsRoundTrip | public/app.js:3007-3032 | commands, extended colours among them, are read as they are written |
| AnsiCodes.CodesRoundTrip | public/app.js:3006-3006 | the codes are the numbers written in the sequence, whichever separators stand between them |
| AnsiCodes.ColorTable | public/app.js:2990-2999 | colours up to 15 are the palette's, then comes a cube of six levels a side, then a grey ramp in steps of ten |
| AnsiCss.CssColors | public/app.js:3035-3044 | read back from the attribute, color is the style's colour and background what is behind it, each absent exactly when unset; inverse video exchanges them, with the page's own for what is unset |
| AnsiCss.CssFlags | public/app.js:3045-3047 | weight, opacity and slant are declared exactly when their flag is set, with their one value |
| AnsiCss.CssDecoration | public/app.js:3048-3051 | a decoration is declared exactly with underline or strike, and names exactly those set |
| AnsiCss.CssNothingElse | public/app.js:3041-3052 | no property is declared twice, and there are no others |
| AnsiStyle.CssClean | public/app.js:3035-3053 | no style can end or start a tag, if the theme's colours cannot |
| HtmlEscape.EscapeIsEntities | public/linkify.js:6-13 | the chain of replacements maps each character to its entity |
| HtmlEscape.UnescapeEscape | public/linkify.js:15-22 | unescaping undoes escaping |
| ShellCommand.LaunchRoundTrip | lib/agent-launch-command.mjs:27-38 | the command is refused exactly for an unsafe executable or variable name; otherwise a shell reads back environment, executable and arguments |
| ShellCommand.LexQuote | lib/agent-launch-command.mjs:4-6 | a quoted value is read back as itself, whatever it contains |
| ShellCommand.PartsLex | lib/agent-launch-command.mjs:16-37 | the parts of the command are read back as one word each |
| ShellCommand.WordsMean | lib/agent-launch-command.mjs:33-37 | leading assignments, then the command, then arguments that are never taken for assignments |
| Recents.VisitedIsLastVisits | public/window-id.js:25-28 | after any visits the list is the first max keys of the history read backwards |
| Recents.AppliedWithinHistory | public/window-id.js:25-42 | with prunes in between, it is that list with entries left out, and bounded |
| Recents.StillListed | public/window-id.js:25-42 | an entry stays listed, whatever prunes come, while its key is not visited again, no prune drops it, and fewer than `max` other keys are visited |
| Recents.AppliedDistinct | public/window-id.js:25-42 | no key is listed twice |
| Recents.PruneExact | public/window-id.js:35-42 | pruning drops exactly the closed windows of the one machine and keeps the order |
| Groups.GroupAgentSessions | public/session-groups.js:31-86 | the loop yields the starred group and the sessions or the recent feed, and counts the distinct keys |
| Groups.GroupedPermutes | public/session-groups.js:60-85 | in both modes the feed shows every card once |
| Groups.StarredFirst | public/session-groups.js:60-69 | a starred card is in the first group |
| Groups.GroupHolds | public/session-groups.js:39-69 | a group that shows a card is the starred one exactly when the card is starred |
| Groups.SameGroup | public/session-groups.js:39-58 | two unstarred cards share a group exactly when their session keys are equal |
| Groups.SortRecentPermutes | public/session-groups.js:70-72 | sorting orders newest first and loses nothing |
| Groups.SortRecentStable | public/session-groups.js:70-72 | cards with the same time keep their order |
| Groups.CurrentKeepsOrder | public/session-groups.js:39-81 | in current mode every group holds exactly its cards, in the order of the source |
| Groups.SessionsInOrder | public/session-groups.js:39-58 | sessions come in the order of their first cards |
| Groups.RecentNewestFirst | public/session-groups.js:70-78 | in recent mode the starred cards and the others are each newest first |
| Groups.RecentTies | public/session-groups.js:70-78 | in recent mode cards of equal time keep the order of the source among the starred, and of the sessions among the others |
| Groups.LatestActivity | public/session-groups.js:5-12 | the latest date that parses, or zero |

## Left out

- The session handlers are one step each, with one clock reading; continuations that the code starts without awaiting run when the handler has finished, and writing the record is part of the step.
- Ids from `crypto.randomUUID` are fresh. Viewer ids are its first eight characters, so a collision is possible in principle.
- A restart keeps sockets that are still open and skips the others, so claims about connected controllers are per incarnation; an older host socket may be picked up again.
- The content of status frames other than what the handlers read from the record, the HTTP layer, tokens and their checks.
- The viewer page's terminal, keyboard, theme and layout code.
- Viewer.ViewerPage.Schedule: does not model the length of the retry delay, because nothing depends on it.
- NotifyText.DecodeEncode: texts are sequences of Unicode scalar values, so lone surrogates are not modelled.
- NotifyQueue.RunKeeps: follows one topic at a time; `reset`, and clocks or quiet-hours callbacks that throw, are not modelled.
- NotifyEdges.SuccessiveDiffer: identifies a response with its hash.
- Quiet-hours arithmetic, topic names and titles of notifications.
- ReleaseTrace.OldImageKept: assumes that the generated rollback tag is not the deployment tag itself.
- Release.Deployer.Run: promises a completed rollback only when no call fails, nobody interferes and the wait ends in time, since the script stops at the first such cause.
- JSON documents of the cloud are read as typed replies; a missing member that the script would trip over is a failed call.
- HTML of blocks, inline formatting, math and links in Markdown; the patterns for fences, rules, headings, quotes, math and table delimiters are arbitrary functions on lines.
- Ansi.AnsiToHtml: ends before the pass that adds links, and takes the theme's colours as texts without angle brackets.
- AnsiCss.CssColors: takes them as texts that are not empty and hold no semicolon, like the hexadecimal and rgb() colours of both palettes.
- AnsiStyle.AnsiState.ApplyAnsiSgr: reads parameters as unbounded numbers, while a double loses digits above 2^53.
- ShellCommand.LaunchRoundTrip: covers commands without required flags; an executable that is a reserved word or an alias of the shell is not told apart.
- Titles and subtitles of card groups, and how a session key is put together from its parts.
- Voice, WebRTC, snippets, starred-card synchronisation and the terminal user interface in Rust.
