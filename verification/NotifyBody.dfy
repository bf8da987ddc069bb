/** The text of one notification and of a batch of them, within the message limit. */
module NotifyBody {
  import opened NotifyBudget
  import opened NotifyText
  import opened Prelude
  import opened Text

  const NTFY_MESSAGE_MAX_BYTES: nat := 4 * 1024
  const SEPARATOR := "\n\n---\n\n"

  datatype Item = Item(key: string, machineName: string, kind: string, text: string, appUrl: string, body: string)

  // ---------------------------------------------------------------- one notification

  function Shown(text: string): string {
    if Trim(text) == "" then "Agent finished." else Trim(text)
  }

  function Link(appUrl: string): string {
    if appUrl == "" then "" else "\n\nOpen: " + appUrl
  }

  function FullBody(text: string, appUrl: string): string {
    Shown(text) + Link(appUrl)
  }

  /** The link survives whenever it leaves the response at least one byte. */
  function FormatNotificationBody(text: string, appUrl: string, maxBytes: nat): string {
    var body, link := Shown(text), Link(appUrl);
    if Utf8Bytes(body) + Utf8Bytes(link) <= maxBytes then body + link
    else
      var bodyBudget: nat := Max(0, maxBytes - Utf8Bytes(link));
      if bodyBudget > 0 then TruncateUtf8(body, bodyBudget) + link
      else TruncateUtf8(body + link, maxBytes)
  }

  ghost predicate EndsWith(text: string, suffix: string) {
    |suffix| <= |text| && text[|text| - |suffix|..] == suffix
  }

  lemma AppendEnds(a: string, b: string)
    ensures EndsWith(a + b, b)
  {}

  lemma FormatFits(text: string, appUrl: string, maxBytes: nat)
    ensures Utf8Bytes(FormatNotificationBody(text, appUrl, maxBytes)) <= maxBytes
  {
    var body, link := Shown(text), Link(appUrl);
    BytesAppend(body, link);
    var bodyBudget: nat := Max(0, maxBytes - Utf8Bytes(link));
    TruncateFits(body, bodyBudget);
    TruncateFits(body + link, maxBytes);
    BytesAppend(TruncateUtf8(body, bodyBudget), link);
  }

  /** Nothing is cut exactly when everything fits. */
  lemma FormatWhole(text: string, appUrl: string, maxBytes: nat)
    ensures FormatNotificationBody(text, appUrl, maxBytes) == FullBody(text, appUrl)
            <==> Utf8Bytes(FullBody(text, appUrl)) <= maxBytes
  {
    BytesAppend(Shown(text), Link(appUrl));
    FormatFits(text, appUrl, maxBytes);
  }

  /** A budget above the link's length, or one that fits everything, keeps the link whole at the end. */
  lemma FormatKeepsLink(text: string, appUrl: string, maxBytes: nat)
    requires Utf8Bytes(Link(appUrl)) < maxBytes || Utf8Bytes(FullBody(text, appUrl)) <= maxBytes
    ensures EndsWith(FormatNotificationBody(text, appUrl, maxBytes), Link(appUrl))
  {
    var body, link := Shown(text), Link(appUrl);
    BytesAppend(body, link);
    AppendEnds(body, link);
    AppendEnds(TruncateUtf8(body, Max(0, maxBytes - Utf8Bytes(link))), link);
  }

  /**
   What does not fit is shortened no more than it must be: the response when the link leaves it
   a byte, and else response and link as one text.
   */
  lemma FormatShortens(text: string, appUrl: string, maxBytes: nat)
    requires Utf8Bytes(FullBody(text, appUrl)) > maxBytes
    ensures var r, link := FormatNotificationBody(text, appUrl, maxBytes), Link(appUrl);
            var room := maxBytes - Utf8Bytes(link);
            if room > 0 then EndsWith(r, link) && Shortened(Shown(text), room, r[..|r| - |link|])
            else Shortened(FullBody(text, appUrl), maxBytes, r)
  {
    var body, link := Shown(text), Link(appUrl);
    BytesAppend(body, link);
    hide TruncateUtf8, Utf8Bytes, Shortened, Shown, Link;
    var room := maxBytes - Utf8Bytes(link);
    if room > 0 {
      TruncateShortens(body, room);
      AppendEnds(TruncateUtf8(body, room), link);
      assert (TruncateUtf8(body, room) + link)[..|TruncateUtf8(body, room)|] == TruncateUtf8(body, room);
    } else {
      TruncateShortens(body + link, maxBytes);
    }
  }

  // ---------------------------------------------------------------- joining entries

  function Join(parts: seq<string>): string {
    if parts == [] then ""
    else if |parts| == 1 then parts[0]
    else parts[0] + (SEPARATOR + Join(parts[1..]))
  }

  function Lengths(parts: seq<string>): (lengths: seq<nat>)
    ensures |lengths| == |parts|
    ensures forall i | 0 <= i < |parts| :: lengths[i] == Utf8Bytes(parts[i])
  {
    seq(|parts|, i requires 0 <= i < |parts| => Utf8Bytes(parts[i]))
  }

  function Separators(n: nat): nat {
    Utf8Bytes(SEPARATOR) * Max(0, n - 1)
  }

  lemma {:induction false} JoinBytes(parts: seq<string>)
    ensures Utf8Bytes(Join(parts)) == Sum(Lengths(parts)) + Separators(|parts|)
    decreases |parts|
  {
    if |parts| >= 1 { assert Lengths(parts)[1..] == Lengths(parts[1..]); }
    if |parts| == 1 { assert parts[1..] == []; }
    if |parts| > 1 {
      JoinBytes(parts[1..]);
      BytesAppend(parts[0], SEPARATOR + Join(parts[1..]));
      BytesAppend(SEPARATOR, Join(parts[1..]));
      OneMoreSeparator(|parts|);
    }
  }

  lemma OneMoreSeparator(n: nat)
    requires n > 1
    ensures Separators(n) == Utf8Bytes(SEPARATOR) + Separators(n - 1)
  {
    var b := Utf8Bytes(SEPARATOR);
    assert b * (n - 1) == b + b * (n - 2);
  }

  /** Every part is somewhere in the joined text, whole. */
  lemma {:induction false} JoinContains(parts: seq<string>, i: nat) returns (before: string, after: string)
    requires i < |parts|
    ensures Join(parts) == before + parts[i] + after
    decreases |parts|
  {
    if |parts| == 1 {
      before, after := "", "";
    } else if i == 0 {
      before, after := "", SEPARATOR + Join(parts[1..]);
    } else {
      before, after := JoinContains(parts[1..], i - 1);
      assert parts[0] + (SEPARATOR + (before + parts[i] + after))
          == (parts[0] + SEPARATOR + before) + parts[i] + after;
      before := parts[0] + SEPARATOR + before;
    }
  }

  /** Parts stand in the joined text in their order. */
  lemma {:induction false} JoinOrder(parts: seq<string>, i: nat, j: nat) returns (before: string, between: string, after: string)
    requires i < j < |parts|
    ensures Join(parts) == before + parts[i] + between + parts[j] + after
    decreases |parts|
  {
    if i == 0 {
      before := "";
      var rest;
      rest, after := JoinContains(parts[1..], j - 1);
      between := SEPARATOR + rest;
      assert parts[0] + (SEPARATOR + (rest + parts[j] + after)) == before + parts[0] + between + parts[j] + after;
    } else {
      before, between, after := JoinOrder(parts[1..], i - 1, j - 1);
      var tail := parts[i] + between + parts[j] + after;
      assert Join(parts[1..]) == before + tail;
      assert parts[0] + (SEPARATOR + (before + tail)) == (parts[0] + SEPARATOR + before) + tail;
      before := parts[0] + SEPARATOR + before;
      assert before + tail == before + parts[i] + between + parts[j] + after;
    }
  }

  // ---------------------------------------------------------------- a batch

  function EntryPrefix(batch: seq<Item>, i: nat): string
    requires i < |batch|
  {
    "[" + Decimal(i + 1) + "/" + Decimal(|batch|) + "] "
    + Trim(batch[i].machineName + " " + batch[i].kind) + "\n"
  }

  function Prefixes(batch: seq<Item>): seq<string> {
    seq(|batch|, i requires 0 <= i < |batch| => EntryPrefix(batch, i))
  }

  function FullBodies(batch: seq<Item>): seq<string> {
    seq(|batch|, i requires 0 <= i < |batch| => FullBody(batch[i].text, batch[i].appUrl))
  }

  function Entries(prefixes: seq<string>, bodies: seq<string>): seq<string>
    requires |prefixes| == |bodies|
  {
    seq(|prefixes|, i requires 0 <= i < |prefixes| => prefixes[i] + bodies[i])
  }

  function FittedBodies(batch: seq<Item>, budgets: seq<nat>): seq<string>
    requires |budgets| == |batch|
  {
    seq(|batch|, i requires 0 <= i < |batch| => FormatNotificationBody(batch[i].text, batch[i].appUrl, budgets[i]))
  }

  /** The bytes that are not entry text: prefixes and separators. */
  function Framing(batch: seq<Item>): nat {
    Sum(Lengths(Prefixes(batch))) + Separators(|batch|)
  }

  function WholeBatch(batch: seq<Item>): string {
    Join(Entries(Prefixes(batch), FullBodies(batch)))
  }

  function Fitted(batch: seq<Item>, budgets: seq<nat>): string
    requires |budgets| == |batch|
  {
    Join(Entries(Prefixes(batch), FittedBodies(batch, budgets)))
  }

  ghost predicate BatchBudgets(batch: seq<Item>, budgets: seq<nat>) {
    MaxMinFair(Lengths(FullBodies(batch)), Max(0, NTFY_MESSAGE_MAX_BYTES - Framing(batch)), budgets)
  }

  /** An item as it is enqueued: its own body is already formatted to the limit. */
  ghost predicate WellMade(item: Item) {
    item.body == FormatNotificationBody(item.text, item.appUrl, NTFY_MESSAGE_MAX_BYTES)
  }

  /** One item as it is; several whole if they fit; otherwise each fitted to its fair budget. */
  ghost predicate IsBatchBody(batch: seq<Item>, body: string) {
    if |batch| == 1 then body == batch[0].body
    else if Utf8Bytes(WholeBatch(batch)) <= NTFY_MESSAGE_MAX_BYTES then body == WholeBatch(batch)
    else exists budgets :: BatchBudgets(batch, budgets)
                           && body == TruncateUtf8(Fitted(batch, budgets), NTFY_MESSAGE_MAX_BYTES)
  }

  /** No batch body is over the limit. */
  lemma BatchBodyFits(batch: seq<Item>, body: string)
    requires IsBatchBody(batch, body) && forall item | item in batch :: WellMade(item)
    ensures Utf8Bytes(body) <= NTFY_MESSAGE_MAX_BYTES
  {
    if |batch| == 1 {
      assert WellMade(batch[0]);
      FormatFits(batch[0].text, batch[0].appUrl, NTFY_MESSAGE_MAX_BYTES);
    } else if Utf8Bytes(WholeBatch(batch)) > NTFY_MESSAGE_MAX_BYTES {
      var budgets :| BatchBudgets(batch, budgets)
                     && body == TruncateUtf8(Fitted(batch, budgets), NTFY_MESSAGE_MAX_BYTES);
      TruncateFits(Fitted(batch, budgets), NTFY_MESSAGE_MAX_BYTES);
    }
  }

  method FormatBatchBody(batch: seq<Item>) returns (body: string)
    ensures IsBatchBody(batch, body)
  {
    if |batch| == 1 { return batch[0].body; }
    body := WholeBatch(batch);
    if Utf8Bytes(body) <= NTFY_MESSAGE_MAX_BYTES { return; }
    var budgets := AllocateByteBudgets(Lengths(FullBodies(batch)), NTFY_MESSAGE_MAX_BYTES - Framing(batch));
    assert BatchBudgets(batch, budgets);
    body := TruncateUtf8(Fitted(batch, budgets), NTFY_MESSAGE_MAX_BYTES);
  }

  // ---------------------------------------------------------------- what a batch keeps

  lemma {:induction false} EntriesBytes(prefixes: seq<string>, bodies: seq<string>)
    requires |prefixes| == |bodies|
    ensures Sum(Lengths(Entries(prefixes, bodies))) == Sum(Lengths(prefixes)) + Sum(Lengths(bodies))
    decreases |prefixes|
  {
    if prefixes != [] {
      var all := Entries(prefixes, bodies);
      EntriesBytes(prefixes[1..], bodies[1..]);
      assert all[1..] == Entries(prefixes[1..], bodies[1..]);
      assert Lengths(all)[1..] == Lengths(all[1..]);
      assert Lengths(prefixes)[1..] == Lengths(prefixes[1..]);
      assert Lengths(bodies)[1..] == Lengths(bodies[1..]);
      BytesAppend(prefixes[0], bodies[0]);
    }
  }

  lemma FittedWithinBudgets(batch: seq<Item>, budgets: seq<nat>)
    requires |budgets| == |batch|
    ensures Sum(Lengths(FittedBodies(batch, budgets))) <= Sum(budgets)
  {
    var lengths := Lengths(FittedBodies(batch, budgets));
    forall i | 0 <= i < |batch| ensures lengths[i] <= budgets[i] {
      FormatFits(batch[i].text, batch[i].appUrl, budgets[i]);
    }
    SumMonotone(lengths, budgets);
  }

  lemma FittedBytes(batch: seq<Item>, budgets: seq<nat>)
    requires |budgets| == |batch|
    ensures Utf8Bytes(Fitted(batch, budgets)) == Framing(batch) + Sum(Lengths(FittedBodies(batch, budgets)))
  {
    EntriesBytes(Prefixes(batch), FittedBodies(batch, budgets));
    JoinBytes(Entries(Prefixes(batch), FittedBodies(batch, budgets)));
  }

  /** Once the entries are fitted, the final truncation cuts something exactly when the framing alone is too long. */
  lemma FinalTruncation(batch: seq<Item>, budgets: seq<nat>)
    requires BatchBudgets(batch, budgets)
    ensures TruncateUtf8(Fitted(batch, budgets), NTFY_MESSAGE_MAX_BYTES) == Fitted(batch, budgets)
            <==> Framing(batch) <= NTFY_MESSAGE_MAX_BYTES
  {
    FittedBytes(batch, budgets);
    FittedWithinBudgets(batch, budgets);
    TruncateIdentity(Fitted(batch, budgets), NTFY_MESSAGE_MAX_BYTES);
  }

  /** An entry whose equal share of the space exceeds its link keeps that link whole. */
  lemma EntryKeepsLink(batch: seq<Item>, budgets: seq<nat>, i: nat)
    requires BatchBudgets(batch, budgets) && i < |batch| && Framing(batch) <= NTFY_MESSAGE_MAX_BYTES
    requires Utf8Bytes(Link(batch[i].appUrl)) < (NTFY_MESSAGE_MAX_BYTES - Framing(batch)) / |batch|
    ensures EndsWith(FittedBodies(batch, budgets)[i], Link(batch[i].appUrl))
  {
    FairShare(Lengths(FullBodies(batch)), NTFY_MESSAGE_MAX_BYTES - Framing(batch), budgets, i);
    FormatKeepsLink(batch[i].text, batch[i].appUrl, budgets[i]);
  }

  lemma PrefixKeepsEnd(a: string, b: string, suffix: string)
    requires EndsWith(b, suffix)
    ensures EndsWith(a + b, suffix)
  {}

  lemma JoinShowsEnd(parts: seq<string>, i: nat, suffix: string) returns (before: string, after: string)
    requires i < |parts| && EndsWith(parts[i], suffix)
    ensures Join(parts) == before + suffix + after
  {
    before, after := JoinContains(parts, i);
    var kept := parts[i][..|parts[i]| - |suffix|];
    assert parts[i] == kept + suffix;
    assert before + (kept + suffix) + after == (before + kept) + suffix + after;
    before := before + kept;
  }

  /** The message shows the link of every entry whose equal share of the space exceeds it. */
  lemma LinkAppearsWhole(batch: seq<Item>, budgets: seq<nat>, i: nat) returns (before: string, after: string)
    requires BatchBudgets(batch, budgets) && i < |batch| && Framing(batch) <= NTFY_MESSAGE_MAX_BYTES
    requires Utf8Bytes(Link(batch[i].appUrl)) < (NTFY_MESSAGE_MAX_BYTES - Framing(batch)) / |batch|
    ensures TruncateUtf8(Fitted(batch, budgets), NTFY_MESSAGE_MAX_BYTES) == before + Link(batch[i].appUrl) + after
  {
    EntryKeepsLink(batch, budgets, i);
    PrefixKeepsEnd(Prefixes(batch)[i], FittedBodies(batch, budgets)[i], Link(batch[i].appUrl));
    FinalTruncation(batch, budgets);
    before, after := JoinShowsEnd(Entries(Prefixes(batch), FittedBodies(batch, budgets)), i, Link(batch[i].appUrl));
  }

  /** The message of a batch does not depend on how the allocator went about it. */
  lemma FittedDetermined(batch: seq<Item>, a: seq<nat>, b: seq<nat>)
    requires BatchBudgets(batch, a) && BatchBudgets(batch, b)
    ensures Fitted(batch, a) == Fitted(batch, b)
  {
    AllocationUnique(Lengths(FullBodies(batch)), Max(0, NTFY_MESSAGE_MAX_BYTES - Framing(batch)), a, b);
  }
}
