/**
 When an agent's finished response is worth a notification. A response is identified with
 its hash, and the empty text stands for no response.
 */
module NotifyEdges {
  import opened Prelude

  datatype Status = Running | Idle | Waiting | OtherStatus(name: string)

  /** One inventory reading of an agent; `recent` says that its last activity is recent enough for a first notification. */
  datatype Reading = Reading(status: Status, text: string, turnCount: nat, recent: bool)

  datatype AgentState = AgentState(status: Status, lastHash: string, notifiedHash: string, turnCount: nat)

  predicate IsEnded(status: Status) {
    status.Idle? || status.Waiting?
  }

  /** nextNotification: the new state of the agent, and whether to notify. */
  function NextState(prev: Option<AgentState>, r: Reading): (AgentState, bool) {
    match prev
    case None =>
      (AgentState(r.status, r.text, r.text, r.turnCount), IsEnded(r.status) && r.text != "" && r.recent)
    case Some(p) =>
      var responseChanged := r.text != "" && r.text != p.notifiedHash;
      var changedThisTick := r.text != "" && r.text != p.lastHash;
      var countedNewTurn := r.turnCount > p.turnCount;
      var notify := IsEnded(r.status) && responseChanged && (p.status.Running? || countedNewTurn || changedThisTick);
      (AgentState(r.status,
                  if r.text != "" then r.text else p.lastHash,
                  if notify then r.text else p.notifiedHash,
                  if r.turnCount > p.turnCount then r.turnCount else p.turnCount),
       notify)
  }

  function Lookup(states: map<string, AgentState>, key: string): Option<AgentState> {
    if key in states then Some(states[key]) else None
  }

  class AgentTracker {
    var states: map<string, AgentState>

    constructor ()
      ensures states == map[]
    {
      states := map[];
    }

    /** An agent without a key is never tracked; any other is stepped, and the rest stay as they are. */
    method NextNotification(key: string, r: Reading) returns (notify: bool)
      modifies this
      ensures key == "" ==> states == old(states) && !notify
      ensures key != "" ==>
                var (next, n) := NextState(Lookup(old(states), key), r);
                states == old(states)[key := next] && notify == n
    {
      if key == "" { return false; }
      if key !in states {
        notify := IsEnded(r.status) && r.text != "" && r.recent;
        states := states[key := AgentState(r.status, r.text, r.text, r.turnCount)];
        return;
      }
      var prev := states[key];
      var responseChanged := r.text != "" && r.text != prev.notifiedHash;
      var changedThisTick := r.text != "" && r.text != prev.lastHash;
      var countedNewTurn := r.turnCount > prev.turnCount;
      notify := IsEnded(r.status) && responseChanged && (prev.status.Running? || countedNewTurn || changedThisTick);
      var lastHash := if r.text != "" then r.text else prev.lastHash;
      var notifiedHash := if notify then r.text else prev.notifiedHash;
      var turnCount := if r.turnCount > prev.turnCount then r.turnCount else prev.turnCount;
      states := states[key := AgentState(r.status, lastHash, notifiedHash, turnCount)];
    }
  }

  // ---------------------------------------------------------------- the history of one agent

  /** The state after a history of readings. */
  function Track(readings: seq<Reading>): Option<AgentState> {
    if readings == [] then None
    else Some(NextState(Track(readings[..|readings| - 1]), readings[|readings| - 1]).0)
  }

  /** The responses notified along a history, in order. */
  function Notified(readings: seq<Reading>): seq<string> {
    if readings == [] then []
    else
      var before := readings[..|readings| - 1];
      var r := readings[|readings| - 1];
      Notified(before) + if NextState(Track(before), r).1 then [r.text] else []
  }

  /** What the tracker holds an agent to have shown: its last notification, or else its baseline. */
  function Acknowledged(readings: seq<Reading>): string
    requires readings != []
  {
    var notified := Notified(readings);
    if notified == [] then readings[0].text else notified[|notified| - 1]
  }

  lemma {:induction false} AcknowledgedIsNotifiedHash(readings: seq<Reading>)
    requires readings != []
    ensures Track(readings).value.notifiedHash == Acknowledged(readings)
    decreases |readings|
  {
    var before := readings[..|readings| - 1];
    if before != [] { AcknowledgedIsNotifiedHash(before); }
  }

  /** Two successive notifications of an agent carry different responses, in every history. */
  lemma {:induction false} SuccessiveDiffer(readings: seq<Reading>, k: nat)
    requires k + 1 < |Notified(readings)|
    ensures Notified(readings)[k] != Notified(readings)[k + 1]
    decreases |readings|
  {
    var before := readings[..|readings| - 1];
    if k + 1 < |Notified(before)| { SuccessiveDiffer(before, k); }
    else { AcknowledgedIsNotifiedHash(before); }
  }

  // ---------------------------------------------------------------- completions

  /** The statuses the detector settles on, and no response is ever taken back. */
  ghost predicate Settled(readings: seq<Reading>) {
    && (forall k | 0 <= k < |readings| :: readings[k].status.Running? || IsEnded(readings[k].status))
    && (forall j, k | 0 <= j < k < |readings| && readings[j].text != "" :: readings[k].text != "")
  }

  lemma {:induction false} LastHashIsLastText(readings: seq<Reading>)
    requires readings != [] && Settled(readings)
    ensures Track(readings).value.lastHash == readings[|readings| - 1].text
    ensures Track(readings).value.status == readings[|readings| - 1].status
    decreases |readings|
  {
    var before := readings[..|readings| - 1];
    if before != [] { LastHashIsLastText(before); }
  }

  /** After every ended reading of a settled history the response shown has been notified, or was the baseline. */
  lemma {:induction false} NoCompletionOwed(readings: seq<Reading>)
    requires readings != [] && Settled(readings)
    requires IsEnded(readings[|readings| - 1].status) && readings[|readings| - 1].text != ""
    ensures readings[|readings| - 1].text == Acknowledged(readings)
    decreases |readings|
  {
    var before := readings[..|readings| - 1];
    AcknowledgedIsNotifiedHash(readings);
    if before != [] {
      LastHashIsLastText(before);
      AcknowledgedIsNotifiedHash(before);
      var last := before[|before| - 1];
      if IsEnded(last.status) && last.text != "" { NoCompletionOwed(before); }
    }
  }

  /** The last text that was not empty, or the first one. */
  function LastText(readings: seq<Reading>): string {
    if readings == [] then ""
    else if readings[|readings| - 1].text != "" then readings[|readings| - 1].text
    else LastText(readings[..|readings| - 1])
  }

  /**
   Reading k brings its response up for notification: it is the baseline, or an ended reading
   with a response that the run before it, its turn count or the response itself marks as new.
   */
  predicate Announces(readings: seq<Reading>, k: nat)
    requires k < |readings|
  {
    k == 0
    || (&& IsEnded(readings[k].status) && readings[k].text != ""
        && (|| readings[k - 1].status.Running?
            || (forall j | 0 <= j < k :: readings[j].turnCount < readings[k].turnCount)
            || readings[k].text != LastText(readings[..k])))
  }

  /** What the tracker remembers of a history. */
  lemma {:induction false} TrackFields(readings: seq<Reading>)
    requires readings != []
    ensures var p := Track(readings).value;
            && p.status == readings[|readings| - 1].status
            && p.lastHash == LastText(readings)
            && (forall j | 0 <= j < |readings| :: readings[j].turnCount <= p.turnCount)
            && (exists j :: 0 <= j < |readings| && readings[j].turnCount == p.turnCount)
    decreases |readings|
  {
    var n := |readings| - 1;
    var before := readings[..n];
    if before == [] { assert LastText(before) == ""; }
    else {
      TrackFields(before);
      var j :| 0 <= j < n && before[j].turnCount == Track(before).value.turnCount;
      assert readings[j] == before[j];
    }
  }

  lemma NewestTurn(readings: seq<Reading>, turnCount: nat)
    requires readings != []
    ensures turnCount > Track(readings).value.turnCount <==> forall j | 0 <= j < |readings| :: readings[j].turnCount < turnCount
  {
    TrackFields(readings);
  }

  /** An announcing reading is what the tracker acknowledges; any other leaves that as it was. */
  lemma AcknowledgedNext(readings: seq<Reading>)
    requires |readings| > 1
    ensures var n := |readings| - 1;
            Acknowledged(readings) == if Announces(readings, n) then readings[n].text else Acknowledged(readings[..n])
  {
    var n := |readings| - 1;
    var before := readings[..n];
    TrackFields(before);
    NewestTurn(before, readings[n].turnCount);
    AcknowledgedIsNotifiedHash(before);
    AcknowledgedIsNotifiedHash(readings);
    assert forall j | 0 <= j < n :: before[j] == readings[j];
  }

  /** A first reading is notified exactly if it is ended, shows a response, and is recent. */
  lemma FirstNotified(r: Reading)
    ensures Notified([r]) == if IsEnded(r.status) && r.text != "" && r.recent then [r.text] else []
  {
    assert [r][..0] == [];
    NothingRead([r]);
  }

  /** A later one is notified exactly if it announces a response that is not acknowledged yet. */
  lemma LaterNotified(before: seq<Reading>, r: Reading)
    requires before != []
    ensures Notified(before + [r]) == Notified(before) +
              if Announces(before + [r], |before|) && r.text != Acknowledged(before) then [r.text] else []
  {
    NotifyFlag(before, r, before + [r]);
    assert (before + [r])[..|before|] == before;
    hide NextState, Track, Announces, Acknowledged;
  }

  lemma NotifyFlag(before: seq<Reading>, r: Reading, readings: seq<Reading>)
    requires before != [] && readings == before + [r]
    ensures NextState(Track(before), r).1 <==> Announces(readings, |before|) && r.text != Acknowledged(before)
  {
    var n, p := |before|, Track(before).value;
    TrackFields(before);
    NewestTurn(before, r.turnCount);
    AcknowledgedIsNotifiedHash(before);
    assert NextState(Track(before), r).1 <==>
        IsEnded(r.status) && r.text != "" && r.text != p.notifiedHash
        && (p.status.Running? || r.turnCount > p.turnCount || r.text != p.lastHash);
    assert readings[..n] == before && readings[n] == r && readings[n - 1] == before[n - 1];
    hide Track, NextState, Acknowledged, LastText, IsEnded;
    assert forall j | 0 <= j < n :: before[j] == readings[j];
  }

  /** In every history the tracker has acknowledged exactly the response of the last announcing reading. */
  lemma {:induction false} AcknowledgedIsLastAnnounced(readings: seq<Reading>, m: nat)
    requires m < |readings| && Announces(readings, m) && forall k | m < k < |readings| :: !Announces(readings, k)
    ensures Acknowledged(readings) == readings[m].text
    decreases |readings|
  {
    var n := |readings| - 1;
    if n == 0 { AcknowledgedIsNotifiedHash(readings); }
    else {
      AcknowledgedNext(readings);
      if m < n {
        var before := readings[..n];
        forall k | 0 <= k < n ensures Announces(before, k) == Announces(readings, k) { SameAnnouncement(readings, n, k); }
        AcknowledgedIsLastAnnounced(before, m);
      }
    }
  }

  lemma SameAnnouncement(readings: seq<Reading>, n: nat, k: nat)
    requires k < n <= |readings|
    ensures Announces(readings[..n], k) == Announces(readings, k)
  {
    assert readings[..n][..k] == readings[..k];
    assert forall j | 0 <= j <= k :: readings[..n][j] == readings[j];
  }

  lemma {:induction false} LastAnnounced(readings: seq<Reading>, n: nat) returns (m: nat)
    requires n < |readings|
    ensures m <= n && Announces(readings, m) && forall k | m < k <= n :: !Announces(readings, k)
  {
    m := n;
    if !Announces(readings, n) { m := LastAnnounced(readings, n - 1); }
  }

  /**
   In every history, the response of the last reading is owed, shown at the end but neither
   notified nor the baseline, if and only if the last announcing reading showed another one.
   */
  lemma OwedExactly(readings: seq<Reading>)
    requires readings != []
    ensures readings[|readings| - 1].text != Acknowledged(readings) <==>
              exists m :: 0 <= m < |readings| && Announces(readings, m)
                          && readings[m].text != readings[|readings| - 1].text
                          && forall k | m < k < |readings| :: !Announces(readings, k)
  {
    var m := LastAnnounced(readings, |readings| - 1);
    AcknowledgedIsLastAnnounced(readings, m);
  }

  const UNVERIFIED_BETWEEN: seq<Reading> := [
    Reading(Running, "old", 0, true),
    Reading(OtherStatus("unverified"), "new", 0, true),
    Reading(Idle, "new", 0, true)]

  const EMPTIED_BETWEEN: seq<Reading> := [
    Reading(Running, "old", 0, true),
    Reading(Running, "new", 0, true),
    Reading(Idle, "", 0, true),
    Reading(Idle, "new", 0, true)]

  /** One more reading of a history. */
  lemma ReadNext(h: seq<Reading>, n: nat)
    requires n < |h|
    ensures Track(h[..n + 1]) == Some(NextState(Track(h[..n]), h[n]).0)
    ensures Notified(h[..n + 1]) == Notified(h[..n]) + if NextState(Track(h[..n]), h[n]).1 then [h[n].text] else []
  {
    assert h[..n + 1][..n] == h[..n];
  }

  /** What the detector makes of the two histories, reading by reading. */
  lemma LosingSteps()
    ensures NextState(None, UNVERIFIED_BETWEEN[0]) == (AgentState(Running, "old", "old", 0), false)
    ensures NextState(Some(AgentState(Running, "old", "old", 0)), UNVERIFIED_BETWEEN[1])
            == (AgentState(OtherStatus("unverified"), "new", "old", 0), false)
    ensures !NextState(Some(AgentState(OtherStatus("unverified"), "new", "old", 0)), UNVERIFIED_BETWEEN[2]).1
    ensures NextState(None, EMPTIED_BETWEEN[0]) == (AgentState(Running, "old", "old", 0), false)
    ensures NextState(Some(AgentState(Running, "old", "old", 0)), EMPTIED_BETWEEN[1])
            == (AgentState(Running, "new", "old", 0), false)
    ensures NextState(Some(AgentState(Running, "new", "old", 0)), EMPTIED_BETWEEN[2])
            == (AgentState(Idle, "new", "old", 0), false)
    ensures !NextState(Some(AgentState(Idle, "new", "old", 0)), EMPTIED_BETWEEN[3]).1
  {}

  lemma NothingRead(h: seq<Reading>)
    ensures Track(h[..0]) == None && Notified(h[..0]) == []
  {}

  /** A status the detector does not settle on, seen with the new response, swallows its notification. */
  lemma UnverifiedLosesCompletion()
    ensures Notified(UNVERIFIED_BETWEEN) == [] && Acknowledged(UNVERIFIED_BETWEEN) == "old"
  {
    hide Track, Notified, NextState;
    var h := UNVERIFIED_BETWEEN;
    LosingSteps();
    NothingRead(h);
    ReadNext(h, 0);
    ReadNext(h, 1);
    ReadNext(h, 2);
    assert h[..3] == h;
  }

  /** So does a reading without text between the end of the run and the response. */
  lemma EmptiedLosesCompletion()
    ensures Notified(EMPTIED_BETWEEN) == [] && Acknowledged(EMPTIED_BETWEEN) == "old"
  {
    hide Track, Notified, NextState;
    var h := EMPTIED_BETWEEN;
    LosingSteps();
    NothingRead(h);
    ReadNext(h, 0);
    ReadNext(h, 1);
    ReadNext(h, 2);
    ReadNext(h, 3);
    assert h[..4] == h;
  }

  // ---------------------------------------------------------------- many agents

  /** The tracker's map after a log of readings of many agents. */
  function TrackAll(log: seq<(string, Reading)>): map<string, AgentState> {
    if log == [] then map[]
    else
      var states := TrackAll(log[..|log| - 1]);
      var (key, r) := log[|log| - 1];
      if key == "" then states else states[key := NextState(Lookup(states, key), r).0]
  }

  function Of(log: seq<(string, Reading)>, key: string): seq<Reading> {
    if log == [] then []
    else Of(log[..|log| - 1], key) + if log[|log| - 1].0 == key then [log[|log| - 1].1] else []
  }

  /** Agents do not disturb each other: each is tracked as if its readings were the only ones. */
  lemma {:induction false} AgentsIndependent(log: seq<(string, Reading)>, key: string)
    requires key != ""
    ensures Lookup(TrackAll(log), key) == Track(Of(log, key))
    decreases |log|
  {
    if log != [] {
      var before := log[..|log| - 1];
      AgentsIndependent(before, key);
      var mine := Of(before, key);
      assert (mine + [log[|log| - 1].1])[..|mine|] == mine;
      assert mine + [] == mine;
    }
  }
}
