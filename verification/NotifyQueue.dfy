/**
 The queue of one topic: what is waiting, the timer, the send in flight, and the least
 interval between attempts. Queues of different topics share nothing.
 */
module NotifyQueue {
  import opened Prelude

  type Time = nat

  /** What became of a batch: sent out (or tried) at `start`, or dropped for quiet hours. */
  datatype Batch<T> =
    | Attempt(items: seq<T>, start: Time, finish: Option<Time>)
    | Suppressed(items: seq<T>)

  datatype Flight = SendingSince(start: Time) | SuppressedFlight

  /** The clock readings and quiet-hours answers that one callback sees, in the order it takes them. */
  datatype Ctx = Ctx(doneAt: Time, now: Time, quietAtFlush: bool, sendAt: Time, quietAtSend: bool)

  datatype Queue<T> = Queue(
    pending: seq<T>,
    timer: Option<Time>,
    flushing: Option<Flight>,
    lastSentAt: Option<Time>,
    queued: seq<T>,           // everything ever queued
    batches: seq<Batch<T>>,   // everything ever taken off the queue
    clock: Time)

  datatype Event<T> =
    | Observed(items: seq<T>, c: Ctx)
    | TimerFired(c: Ctx)
    | SendFinished(c: Ctx)

  // ---------------------------------------------------------------- transitions

  function MsUntilAllowed<T>(q: Queue<T>, interval: nat, now: Time): nat {
    if q.lastSentAt.None? then 0
    else
      var left := interval - (now - q.lastSentAt.value);
      if left > 0 then left else 0
  }

  function Scheduled<T>(q: Queue<T>, now: Time, delay: nat): Queue<T> {
    if q.timer.Some? || q.flushing.Some? || q.pending == [] then q
    else q.(timer := Some(now + delay))
  }

  /** flushTopic up to the first await of sendNotificationBatch. */
  function Flushed<T>(q: Queue<T>, c: Ctx): Queue<T> {
    if q.flushing.Some? || q.pending == [] then q
    else
      var batch := if c.quietAtSend then Suppressed(q.pending) else Attempt(q.pending, c.sendAt, None);
      q.(timer := None, pending := [], batches := q.batches + [batch],
         flushing := Some(if c.quietAtSend then SuppressedFlight else SendingSince(c.sendAt)))
  }

  function FlushOrSchedule<T>(q: Queue<T>, interval: nat, c: Ctx): Queue<T> {
    if q.pending == [] || q.flushing.Some? then q
    else if c.quietAtFlush then q.(timer := None, pending := [], batches := q.batches + [Suppressed(q.pending)])
    else
      var delay := MsUntilAllowed(q, interval, c.now);
      if delay > 0 then Scheduled(q, c.now, delay) else Flushed(q, c)
  }

  /** The attempt that was started last ends now. */
  function MarkFinished<T>(batches: seq<Batch<T>>, at: Time): seq<Batch<T>> {
    if batches == [] || batches[|batches| - 1].Suppressed? then batches
    else batches[|batches| - 1 := batches[|batches| - 1].(finish := Some(at))]
  }

  /** Only an attempt, not a batch dropped in flight, counts for the interval. */
  function Finish<T>(q: Queue<T>, at: Time): Queue<T> {
    if q.flushing == Some(SuppressedFlight) then q.(flushing := None)
    else q.(flushing := None, lastSentAt := Some(at), batches := MarkFinished(q.batches, at))
  }

  /** The queue when the event decides about it: items queued, the timer that fired gone, the flight ended. */
  function Arrived<T>(q: Queue<T>, e: Event<T>): Queue<T> {
    match e
    case Observed(items, c) => q.(pending := q.pending + items, queued := q.queued + items, clock := c.sendAt)
    case TimerFired(c) => q.(timer := None, clock := c.sendAt)
    case SendFinished(c) => Finish(q, c.doneAt).(clock := c.sendAt)
  }

  function Step<T>(q: Queue<T>, e: Event<T>, interval: nat): Queue<T>
    requires Enabled(q, e)
  {
    var t := Arrived(q, e);
    if e.Observed? && e.items == [] then t else FlushOrSchedule(t, interval, e.c)
  }

  /** The clock does not go back; a timer fires no sooner than it is due, and only if it is set. */
  predicate Enabled<T>(q: Queue<T>, e: Event<T>) {
    && q.clock <= e.c.doneAt <= e.c.now <= e.c.sendAt
    && (e.TimerFired? ==> q.timer.Some? && q.timer.value <= e.c.now)
    && (e.SendFinished? ==> q.flushing.Some?)
  }

  function Empty<T>(now: Time): Queue<T> {
    Queue([], None, None, None, [], [], now)
  }

  // ---------------------------------------------------------------- what every run keeps

  function Taken<T>(batches: seq<Batch<T>>): seq<T> {
    if batches == [] then [] else Taken(batches[..|batches| - 1]) + batches[|batches| - 1].items
  }

  /** Every attempt but the one in flight has finished, and each began an interval after the one before finished. */
  ghost predicate Spaced<T>(batches: seq<Batch<T>>, interval: nat) {
    forall i, j | 0 <= i < j < |batches| && batches[i].Attempt? && batches[j].Attempt? ::
      batches[i].finish.Some? && batches[i].finish.value + interval <= batches[j].start
  }

  ghost predicate FinishedBy<T>(batches: seq<Batch<T>>, last: Option<Time>) {
    forall i | 0 <= i < |batches| && batches[i].Attempt? && batches[i].finish.Some? ::
      last.Some? && batches[i].finish.value <= last.value
  }

  ghost predicate AllFinished<T>(batches: seq<Batch<T>>) {
    forall i | 0 <= i < |batches| && batches[i].Attempt? :: batches[i].finish.Some?
  }

  ghost predicate InFlight<T>(q: Queue<T>) {
    match q.flushing
    case Some(SendingSince(start)) =>
      && q.batches != []
      && q.batches[|q.batches| - 1] == Attempt(q.batches[|q.batches| - 1].items, start, None)
      && AllFinished(q.batches[..|q.batches| - 1])
      && start <= q.clock
    case _ => AllFinished(q.batches)
  }

  ghost predicate Inv<T>(q: Queue<T>, interval: nat) {
    && Taken(q.batches) + q.pending == q.queued
    && Spaced(q.batches, interval)
    && FinishedBy(q.batches, q.lastSentAt)
    && InFlight(q)
    && (q.lastSentAt.Some? ==> q.lastSentAt.value <= q.clock)
    && (q.pending != [] ==> q.timer.Some? || q.flushing.Some?)
    && (q.timer.Some? ==>
          && q.pending != [] && q.flushing.None?
          && q.lastSentAt.Some? && q.timer.value == q.lastSentAt.value + interval)
  }

  /** The invariant but for what a flush is about to put right. */
  ghost predicate Ready<T>(q: Queue<T>, interval: nat) {
    && Taken(q.batches) + q.pending == q.queued
    && Spaced(q.batches, interval)
    && FinishedBy(q.batches, q.lastSentAt)
    && InFlight(q)
    && (q.lastSentAt.Some? ==> q.lastSentAt.value <= q.clock)
    && (q.timer.Some? ==>
          && q.pending != [] && q.flushing.None?
          && q.lastSentAt.Some? && q.timer.value == q.lastSentAt.value + interval)
  }

  lemma TakenAppend<T>(batches: seq<Batch<T>>, b: Batch<T>)
    ensures Taken(batches + [b]) == Taken(batches) + b.items
  {
    assert (batches + [b])[..|batches|] == batches;
  }

  /** A batch that is dropped, or an attempt that keeps its distance, takes the whole queue with it. */
  lemma TakeBatchKeeps<T>(q: Queue<T>, b: Batch<T>, interval: nat)
    requires Ready(q, interval) && q.flushing.None? && b.items == q.pending
    requires b.Attempt? ==>
               b.finish.None? && (q.lastSentAt.Some? ==> q.lastSentAt.value + interval <= b.start)
    ensures var batches := q.batches + [b];
            && Taken(batches) + [] == q.queued
            && Spaced(batches, interval) && FinishedBy(batches, q.lastSentAt)
            && AllFinished(batches[..|q.batches|])
            && (b.Suppressed? ==> AllFinished(batches))
  {
    TakenAppend(q.batches, b);
    assert (q.batches + [b])[..|q.batches|] == q.batches;
    SpacedAppend(q.batches, b, q.lastSentAt, interval);
    hide Taken, Spaced, FinishedBy;
  }

  lemma SpacedAppend<T>(batches: seq<Batch<T>>, b: Batch<T>, last: Option<Time>, interval: nat)
    requires Spaced(batches, interval) && FinishedBy(batches, last) && AllFinished(batches)
    requires b.Attempt? ==> b.finish.None? && (last.Some? ==> last.value + interval <= b.start)
    requires b.Suppressed? || b.Attempt?
    ensures Spaced(batches + [b], interval) && FinishedBy(batches + [b], last)
  {}

  /** One flush decision restores everything: nothing waits without a timer or a flight. */
  lemma FlushOrScheduleKeeps<T>(q: Queue<T>, interval: nat, c: Ctx)
    requires Ready(q, interval) && q.clock == c.sendAt && c.now <= c.sendAt
    requires q.lastSentAt.Some? ==> q.lastSentAt.value <= c.now
    ensures Inv(FlushOrSchedule(q, interval, c), interval)
    ensures q.pending != [] && q.flushing.None? ==>
              var t := FlushOrSchedule(q, interval, c);
              t.pending == [] || (t.timer.Some? && c.now < t.timer.value)
  {
    if q.pending != [] && q.flushing.None? {
      if c.quietAtFlush { TakeBatchKeeps(q, Suppressed(q.pending), interval); }
      else if MsUntilAllowed(q, interval, c.now) == 0 {
        TakeBatchKeeps(q, if c.quietAtSend then Suppressed(q.pending) else Attempt(q.pending, c.sendAt, None), interval);
      }
    }
  }

  lemma FinishKeeps<T>(q: Queue<T>, at: Time, interval: nat)
    requires Inv(q, interval) && q.flushing.Some? && q.clock <= at
    ensures Ready(Finish(q, at).(clock := at), interval)
    ensures Finish(q, at).lastSentAt.Some? ==> Finish(q, at).lastSentAt.value <= at
  {
    var t := Finish(q, at);
    if q.flushing.value.SendingSince? {
      var last := |q.batches| - 1;
      assert t.batches[..last] == q.batches[..last];
      forall i | 0 <= i < last && t.batches[i].Attempt? ensures t.batches[i].finish.Some? {
        assert q.batches[..last][i] == q.batches[i];
      }
    }
  }

  lemma StepKeeps<T>(q: Queue<T>, e: Event<T>, interval: nat)
    requires Inv(q, interval) && Enabled(q, e)
    ensures Inv(Step(q, e, interval), interval)
  {
    match e
    case Observed(items, c) =>
      assert Taken(q.batches) + (q.pending + items) == (Taken(q.batches) + q.pending) + items;
      if items != [] { FlushOrScheduleKeeps(Arrived(q, e), interval, c); }
      else { assert q.pending + items == q.pending; }
    case TimerFired(c) =>
      FlushOrScheduleKeeps(Arrived(q, e), interval, c);
    case SendFinished(c) =>
      FinishKeeps(q, c.doneAt, interval);
      FlushOrScheduleKeeps(Arrived(q, e), interval, c);
  }

  // ---------------------------------------------------------------- whole runs

  ghost predicate IsRun<T(!new)>(run: seq<Queue<T>>, events: seq<Event<T>>, interval: nat) {
    && |run| == |events| + 1
    && (exists now :: run[0] == Empty(now))
    && (forall k | 0 <= k < |events| :: Enabled(run[k], events[k]) && run[k + 1] == Step(run[k], events[k], interval))
  }

  lemma {:induction false} RunKeeps<T(!new)>(run: seq<Queue<T>>, events: seq<Event<T>>, interval: nat, k: nat)
    requires IsRun(run, events, interval) && k < |run|
    ensures Inv(run[k], interval)
    decreases k
  {
    if k > 0 {
      RunKeeps(run, events, interval, k - 1);
      StepKeeps(run[k - 1], events[k - 1], interval);
    }
  }

  /** Every queued item is in exactly one place, in the order it was queued: some batch, or still pending. */
  lemma ItemsConserved<T(!new)>(run: seq<Queue<T>>, events: seq<Event<T>>, interval: nat, k: nat)
    requires IsRun(run, events, interval) && k < |run|
    ensures Taken(run[k].batches) + run[k].pending == run[k].queued
    ensures run[k].pending != [] ==> run[k].timer.Some? || run[k].flushing.Some?
  {
    RunKeeps(run, events, interval, k);
  }

  /** An attempt starts no sooner than the least interval after every earlier attempt finished. */
  lemma AttemptsSpaced<T(!new)>(run: seq<Queue<T>>, events: seq<Event<T>>, interval: nat, k: nat, i: nat, j: nat)
    requires IsRun(run, events, interval) && k < |run| && i < j < |run[k].batches|
    requires run[k].batches[i].Attempt? && run[k].batches[j].Attempt?
    ensures run[k].batches[i].finish.Some?
    ensures run[k].batches[i].finish.value + interval <= run[k].batches[j].start
  {
    RunKeeps(run, events, interval, k);
  }

  /** A timer that fires always empties the queue: it was set for the moment sending is allowed again. */
  lemma TimerDrains<T(!new)>(run: seq<Queue<T>>, events: seq<Event<T>>, interval: nat, k: nat)
    requires IsRun(run, events, interval) && k < |events| && events[k].TimerFired?
    ensures run[k + 1].pending == []
  {
    RunKeeps(run, events, interval, k);
    FlushOrScheduleKeeps(Arrived(run[k], events[k]), interval, events[k].c);
  }

  // ---------------------------------------------------------------- what is sent, dropped or kept waiting

  /** What waits for the decision of an event: the queue, and what was observed just now. */
  function Waiting<T>(q: Queue<T>, e: Event<T>): seq<T> {
    q.pending + if e.Observed? then e.items else []
  }

  /** The event decides about the queue: something waits, nothing is in flight any more, and a tick found something. */
  predicate Decides<T(==)>(q: Queue<T>, e: Event<T>) {
    Waiting(q, e) != [] && (q.flushing.None? || e.SendFinished?) && !(e.Observed? && e.items == [])
  }

  /** The end of the last attempt, when the event decides. */
  function LastEnd<T(==)>(q: Queue<T>, e: Event<T>): Option<Time> {
    if e.SendFinished? && q.flushing.Some? && q.flushing.value.SendingSince? then Some(e.c.doneAt) else q.lastSentAt
  }

  predicate Rested(last: Option<Time>, interval: nat, now: Time) {
    last.Some? ==> last.value + interval <= now
  }

  /** The batches of before, one of which may have ended. */
  ghost predicate SameItems<T>(before: seq<Batch<T>>, after: seq<Batch<T>>) {
    && |before| == |after|
    && forall i | 0 <= i < |before| ::
         && before[i].items == after[i].items && before[i].Suppressed? == after[i].Suppressed?
         && (before[i].Attempt? ==> before[i].start == after[i].start)
  }

  /** The queue went off as one batch b. */
  ghost predicate AddsTo<T>(before: seq<Batch<T>>, u: Queue<T>, b: Batch<T>) {
    && |u.batches| == |before| + 1 && SameItems(before, u.batches[..|before|])
    && u.batches[|before|] == b && u.pending == []
  }

  /** The event left the queue waiting. */
  ghost predicate TakesNothing<T>(q: Queue<T>, e: Event<T>, u: Queue<T>) {
    SameItems(q.batches, u.batches) && u.pending == Waiting(q, e)
  }

  lemma StepTakes<T>(q: Queue<T>, e: Event<T>, interval: nat)
    requires Inv(q, interval) && Enabled(q, e)
    ensures var u, c, w := Step(q, e, interval), e.c, Waiting(q, e);
            var rested := Rested(LastEnd(q, e), interval, c.now);
            if !Decides(q, e) then TakesNothing(q, e, u)
            else if c.quietAtFlush || (rested && c.quietAtSend) then AddsTo(q.batches, u, Suppressed(w))
            else if rested then AddsTo(q.batches, u, Attempt(w, c.sendAt, None))
            else TakesNothing(q, e, u) && u.timer == Some(LastEnd(q, e).value + interval)
  {
    ArrivalKeeps(q, e, interval);
    hide Inv, SameItems, AddsTo, LastEnd, Rested;
    if Decides(q, e) { FlushTakes(Arrived(q, e), q.batches, interval, e.c); }
  }

  lemma ArrivalKeeps<T>(q: Queue<T>, e: Event<T>, interval: nat)
    requires Inv(q, interval) && Enabled(q, e)
    ensures var t := Arrived(q, e);
            && SameItems(q.batches, t.batches) && t.pending == Waiting(q, e) && t.lastSentAt == LastEnd(q, e)
            && (t.timer.Some? ==> t.lastSentAt.Some? && t.timer.value == t.lastSentAt.value + interval)
            && (e.Observed? || e.TimerFired? ==> t.flushing == q.flushing)
            && (e.SendFinished? ==> t.flushing.None?)
  {
    hide Taken, Spaced, FinishedBy;
    assert q.pending + [] == q.pending;
  }

  lemma FlushTakes<T>(t: Queue<T>, before: seq<Batch<T>>, interval: nat, c: Ctx)
    requires t.pending != [] && t.flushing.None? && SameItems(before, t.batches)
    requires t.timer.Some? ==> t.lastSentAt.Some? && t.timer.value == t.lastSentAt.value + interval
    ensures var u, rested := FlushOrSchedule(t, interval, c), Rested(t.lastSentAt, interval, c.now);
            if c.quietAtFlush || (rested && c.quietAtSend) then AddsTo(before, u, Suppressed(t.pending))
            else if rested then AddsTo(before, u, Attempt(t.pending, c.sendAt, None))
            else u.batches == t.batches && u.pending == t.pending && u.timer == Some(t.lastSentAt.value + interval)
  {
    var u := FlushOrSchedule(t, interval, c);
    if |u.batches| > |t.batches| { assert u.batches[..|before|] == t.batches; }
  }

  /** An attempt starts exactly if something waits, no answer was quiet and the interval is over; it takes everything. */
  lemma SentExactly<T(!new)>(run: seq<Queue<T>>, events: seq<Event<T>>, interval: nat, k: nat)
    requires IsRun(run, events, interval) && k < |events|
    ensures var q, u, e := run[k], run[k + 1], events[k];
            (exists i :: |q.batches| <= i < |u.batches| && u.batches[i].Attempt?)
            <==> Decides(q, e) && !e.c.quietAtFlush && !e.c.quietAtSend && Rested(LastEnd(q, e), interval, e.c.now)
    ensures var q, u, e := run[k], run[k + 1], events[k];
            forall i | |q.batches| <= i < |u.batches| && u.batches[i].Attempt? ::
              AddsTo(q.batches, u, Attempt(Waiting(q, e), e.c.sendAt, None))
  {
    RunKeeps(run, events, interval, k);
    StepTakes(run[k], events[k], interval);
    hide Inv, Step, Enabled;
    var q, u := run[k], run[k + 1];
    if |u.batches| > |q.batches| { assert u.batches[|q.batches|].Attempt? || u.batches[|q.batches|].Suppressed?; }
  }

  /** Items are dropped exactly for a quiet answer: at the decision, or at the sending that the interval allows. */
  lemma DroppedExactly<T(!new)>(run: seq<Queue<T>>, events: seq<Event<T>>, interval: nat, k: nat)
    requires IsRun(run, events, interval) && k < |events|
    ensures var q, u, e := run[k], run[k + 1], events[k];
            (exists i :: |q.batches| <= i < |u.batches| && u.batches[i].Suppressed?)
            <==> Decides(q, e)
                 && (e.c.quietAtFlush || (e.c.quietAtSend && Rested(LastEnd(q, e), interval, e.c.now)))
    ensures var q, u, e := run[k], run[k + 1], events[k];
            forall i | |q.batches| <= i < |u.batches| && u.batches[i].Suppressed? ::
              AddsTo(q.batches, u, Suppressed(Waiting(q, e)))
  {
    RunKeeps(run, events, interval, k);
    StepTakes(run[k], events[k], interval);
    hide Inv, Step, Enabled;
    var q, u := run[k], run[k + 1];
    if |u.batches| > |q.batches| { assert u.batches[|q.batches|].Attempt? || u.batches[|q.batches|].Suppressed?; }
  }

  /** Without a quiet answer, what an event decides about is on its way, or is due when the interval is over. */
  lemma SentOrDue<T(!new)>(run: seq<Queue<T>>, events: seq<Event<T>>, interval: nat, k: nat)
    requires IsRun(run, events, interval) && k < |events|
    requires Decides(run[k], events[k]) && !events[k].c.quietAtFlush && !events[k].c.quietAtSend
    ensures var q, u, e := run[k], run[k + 1], events[k];
            if Rested(LastEnd(q, e), interval, e.c.now) then AddsTo(q.batches, u, Attempt(Waiting(q, e), e.c.sendAt, None))
            else TakesNothing(q, e, u) && u.timer == Some(LastEnd(q, e).value + interval)
  {
    RunKeeps(run, events, interval, k);
    StepTakes(run[k], events[k], interval);
    hide Inv, Step, Enabled;
  }

  /** A timer that fires without a quiet answer sends all that waits. */
  lemma TimerSends<T(!new)>(run: seq<Queue<T>>, events: seq<Event<T>>, interval: nat, k: nat)
    requires IsRun(run, events, interval) && k < |events| && events[k].TimerFired?
    requires !events[k].c.quietAtFlush && !events[k].c.quietAtSend
    ensures run[k].pending != [] && AddsTo(run[k].batches, run[k + 1], Attempt(run[k].pending, events[k].c.sendAt, None))
  {
    RunKeeps(run, events, interval, k);
    StepTakes(run[k], events[k], interval);
    hide Step;
    assert run[k].pending + [] == run[k].pending;
  }

  /** The end of an attempt is on record with it, and no other event moves the time from which the interval counts. */
  lemma EndRecorded<T(!new)>(run: seq<Queue<T>>, events: seq<Event<T>>, interval: nat, k: nat)
    requires IsRun(run, events, interval) && k < |events|
    ensures run[k + 1].lastSentAt == LastEnd(run[k], events[k])
    ensures var q, u, e := run[k], run[k + 1], events[k];
            e.SendFinished? && q.flushing.value.SendingSince? ==>
              q.batches != [] && |u.batches| >= |q.batches|
              && u.batches[|q.batches| - 1].Attempt? && u.batches[|q.batches| - 1].finish == Some(e.c.doneAt)
  {
    RunKeeps(run, events, interval, k);
    hide Taken, Spaced, FinishedBy, AllFinished;
  }

  /** A run without quiet answers drops nothing: what was ever queued is in an attempt or still waits. */
  lemma {:induction false} NeverQuietSendsAll<T(!new)>(run: seq<Queue<T>>, events: seq<Event<T>>, interval: nat, k: nat)
    requires IsRun(run, events, interval) && k < |run|
    requires forall i | 0 <= i < k :: !events[i].c.quietAtFlush && !events[i].c.quietAtSend
    ensures forall i | 0 <= i < |run[k].batches| :: run[k].batches[i].Attempt?
    ensures Taken(run[k].batches) + run[k].pending == run[k].queued
    decreases k
  {
    ItemsConserved(run, events, interval, k);
    if k > 0 {
      NeverQuietSendsAll(run, events, interval, k - 1);
      RunKeeps(run, events, interval, k - 1);
      AttemptsOnly(run[k - 1], events[k - 1], interval);
      hide *;
    }
  }

  lemma AttemptsOnly<T>(q: Queue<T>, e: Event<T>, interval: nat)
    requires Inv(q, interval) && Enabled(q, e) && !e.c.quietAtFlush && !e.c.quietAtSend
    requires forall i | 0 <= i < |q.batches| :: q.batches[i].Attempt?
    ensures forall i | 0 <= i < |Step(q, e, interval).batches| :: Step(q, e, interval).batches[i].Attempt?
  {
    StepTakes(q, e, interval);
    hide Inv, Step, Enabled;
    var u := Step(q, e, interval);
    forall i | 0 <= i < |u.batches| ensures u.batches[i].Attempt? {
      if i < |q.batches| {
        assert q.batches[i].Attempt? && u.batches[..|q.batches|][i] == u.batches[i];
      }
    }
  }

  // ---------------------------------------------------------------- the queue object

  class TopicQueue<T(==)> {
    const interval: nat
    var pending: seq<T>
    var timer: Option<Time>
    var flushing: Option<Flight>
    var lastSentAt: Option<Time>
    ghost var queued: seq<T>
    ghost var batches: seq<Batch<T>>
    ghost var clock: Time

    ghost function Abs(): Queue<T>
      reads this
    {
      Queue(pending, timer, flushing, lastSentAt, queued, batches, clock)
    }

    ghost predicate Valid()
      reads this
    {
      Inv(Abs(), interval)
    }

    constructor (interval: nat, now: Time)
      ensures Abs() == Empty(now) && this.interval == interval && Valid()
    {
      this.interval := interval;
      pending, timer, flushing, lastSentAt := [], None, None, None;
      queued, batches, clock := [], [], now;
    }

    method ScheduleTopicFlush(now: Time, delay: nat)
      modifies this
      ensures Abs() == Scheduled(old(Abs()), now, delay)
    {
      if timer.Some? || flushing.Some? || |pending| == 0 { return; }
      timer := Some(now + delay);
    }

    method FlushTopic(c: Ctx)
      modifies this
      ensures Abs() == Flushed(old(Abs()), c)
    {
      if flushing.Some? || |pending| == 0 { return; }
      timer := None;
      var batch := pending;
      pending := [];
      if c.quietAtSend {
        batches := batches + [Suppressed(batch)];
        flushing := Some(SuppressedFlight);
      } else {
        batches := batches + [Attempt(batch, c.sendAt, None)];
        flushing := Some(SendingSince(c.sendAt));
      }
    }

    method FlushOrScheduleTopic(c: Ctx)
      modifies this
      ensures Abs() == FlushOrSchedule(old(Abs()), interval, c)
    {
      if |pending| == 0 || flushing.Some? { return; }
      if c.quietAtFlush {
        timer := None;
        batches := batches + [Suppressed(pending)];
        pending := [];
        return;
      }
      var delay := 0;
      if lastSentAt.Some? {
        delay := interval - (c.now - lastSentAt.value);
        if delay < 0 { delay := 0; }
      }
      assert delay == MsUntilAllowed(Abs(), interval, c.now);
      if delay > 0 {
        ScheduleTopicFlush(c.now, delay);
      } else {
        FlushTopic(c);
      }
    }

    /** A tick queues what it found for this topic, then decides once. */
    method Observe(items: seq<T>, c: Ctx)
      requires Valid() && Enabled(Abs(), Observed(items, c))
      modifies this
      ensures Abs() == Step(old(Abs()), Observed(items, c), interval) && Valid()
    {
      StepKeeps(Abs(), Observed(items, c), interval);
      clock := c.sendAt;
      queued := queued + items;
      pending := pending + items;
      if |items| > 0 { FlushOrScheduleTopic(c); }
    }

    method TimerCallback(c: Ctx)
      requires Valid() && Enabled(Abs(), TimerFired(c))
      modifies this
      ensures Abs() == Step(old(Abs()), TimerFired(c), interval) && Valid()
    {
      StepKeeps(Abs(), TimerFired(c), interval);
      clock := c.sendAt;
      timer := None;
      FlushOrScheduleTopic(c);
    }

    method SendCallback(c: Ctx)
      requires Valid() && Enabled(Abs(), SendFinished(c))
      modifies this
      ensures Abs() == Step(old(Abs()), SendFinished(c), interval) && Valid()
    {
      StepKeeps(Abs(), SendFinished(c), interval);
      clock := c.sendAt;
      if flushing.value.SendingSince? {
        lastSentAt := Some(c.doneAt);
        batches := MarkFinished(batches, c.doneAt);
      }
      flushing := None;
      FlushOrScheduleTopic(c);
    }
  }
}
