/** The list of recently visited windows: most recent first, one entry for each key, bounded. */
module Recents {
  /** An entry; `rest` stands for what else is remembered of a visit. */
  datatype Entry<K, T> = Entry(key: K, machineId: K, rest: T)

  datatype Op<K, T> =
    | Visit(entry: Entry<K, T>)
    | Prune(machine: K, live: set<K>)

  // ---------------------------------------------------------------- the code

  function Without<K(==), T>(entries: seq<Entry<K, T>>, key: K): (r: seq<Entry<K, T>>)
    ensures |r| <= |entries|
  {
    if entries == [] then []
    else (if entries[0].key != key then [entries[0]] else []) + Without(entries[1..], key)
  }

  function Take<T>(s: seq<T>, n: nat): seq<T> {
    if n <= |s| then s[..n] else s
  }

  function MergeRecent<K(==), T>(entries: seq<Entry<K, T>>, entry: Entry<K, T>, max: nat): seq<Entry<K, T>> {
    Take([entry] + Without(entries, entry.key), max)
  }

  /** An entry goes only if it belongs to the machine we know about and its window is closed there. */
  predicate Keeps<K(==), T>(e: Entry<K, T>, machine: K, live: set<K>) {
    e.machineId != machine || e.key in live
  }

  function PruneRecent<K(==), T>(entries: seq<Entry<K, T>>, machine: K, live: set<K>): (r: seq<Entry<K, T>>)
    ensures |r| <= |entries|
  {
    if entries == [] then []
    else (if Keeps(entries[0], machine, live) then [entries[0]] else []) + PruneRecent(entries[1..], machine, live)
  }

  // ---------------------------------------------------------------- the simple history

  function Visited<K(==), T>(history: seq<Entry<K, T>>, max: nat): seq<Entry<K, T>> {
    if history == [] then []
    else MergeRecent(Visited(history[..|history| - 1], max), history[|history| - 1], max)
  }

  /** The last visit of each key, latest first. */
  function LastVisits<K(==), T>(history: seq<Entry<K, T>>): seq<Entry<K, T>> {
    if history == [] then []
    else
      var last := history[|history| - 1];
      [last] + Without(LastVisits(history[..|history| - 1]), last.key)
  }

  predicate Distinct<K(==), T>(entries: seq<Entry<K, T>>) {
    forall i, j :: 0 <= i < j < |entries| ==> entries[i].key != entries[j].key
  }

  lemma {:induction false} WithoutHas<K, T>(entries: seq<Entry<K, T>>, key: K, e: Entry<K, T>)
    ensures e in Without(entries, key) <==> e in entries && e.key != key
  {
    if entries != [] {
      WithoutHas(entries[1..], key, e);
      assert e in entries <==> e == entries[0] || e in entries[1..];
    }
  }

  predicate Absent<K(==), T>(entries: seq<Entry<K, T>>, key: K) {
    forall k :: 0 <= k < |entries| ==> entries[k].key != key
  }

  lemma {:induction false} WithoutDistinct<K, T>(entries: seq<Entry<K, T>>, key: K)
    requires Distinct(entries)
    ensures Distinct(Without(entries, key)) && Absent(Without(entries, key), key)
    ensures forall k :: 0 <= k < |Without(entries, key)| ==> Without(entries, key)[k] in entries
  {
    if entries != [] {
      var head, tail := entries[0], entries[1..];
      var rest := Without(tail, key);
      WithoutDistinct(tail, key);
      DropNothing(entries, key);
      forall k | 0 <= k < |rest| ensures rest[k].key != head.key && rest[k] in entries { assert rest[k] in tail; }
      if head.key != key { ConsDistinct(head, rest); }
    }
  }

  lemma {:induction false} WithoutAbsent<K, T>(entries: seq<Entry<K, T>>, key: K)
    requires Absent(entries, key)
    ensures Without(entries, key) == entries
  {
    if entries != [] {
      WithoutAbsent(entries[1..], key);
      assert entries == [entries[0]] + entries[1..];
    }
  }

  lemma TakeCons<T>(x: T, s: seq<T>, n: nat)
    requires n > 0
    ensures Take([x] + s, n) == [x] + Take(s, n - 1)
  {
  }

  lemma WithoutCons<K, T>(e: Entry<K, T>, tail: seq<Entry<K, T>>, key: K)
    ensures Without([e] + tail, key) == (if e.key != key then [e] else []) + Without(tail, key)
  {
    assert ([e] + tail)[1..] == tail;
  }

  lemma SameKeyTake<K, T>(head: Entry<K, T>, tail: seq<Entry<K, T>>, max: nat)
    requires max > 0 && Absent(tail, head.key)
    ensures Take(Without(Take([head] + tail, max + 1), head.key), max) == Take(Without([head] + tail, head.key), max)
  {
    TakeCons(head, tail, max + 1);
    WithoutCons(head, Take(tail, max), head.key);
    WithoutCons(head, tail, head.key);
    WithoutAbsent(tail, head.key);
    WithoutAbsent(Take(tail, max), head.key);
  }

  lemma OtherKeyTake<K, T>(head: Entry<K, T>, tail: seq<Entry<K, T>>, key: K, max: nat)
    requires max > 0 && head.key != key
    requires Take(Without(Take(tail, max), key), max - 1) == Take(Without(tail, key), max - 1)
    ensures Take(Without(Take([head] + tail, max + 1), key), max) == Take(Without([head] + tail, key), max)
  {
    TakeCons(head, tail, max + 1);
    WithoutCons(head, Take(tail, max), key);
    WithoutCons(head, tail, key);
    TakeCons(head, Without(Take(tail, max), key), max);
    TakeCons(head, Without(tail, key), max);
  }

  /** Dropping a key from a bounded prefix loses at most the one place that the new entry takes. */
  lemma {:induction false} WithoutTake<K, T>(entries: seq<Entry<K, T>>, key: K, max: nat)
    requires Distinct(entries)
    ensures Take(Without(Take(entries, max + 1), key), max) == Take(Without(entries, key), max)
  {
    if entries != [] && max > 0 {
      var head, tail := entries[0], entries[1..];
      assert entries == [head] + tail;
      if head.key == key {
        SameKeyTake(head, tail, max);
      } else {
        WithoutTake(tail, key, max - 1);
        OtherKeyTake(head, tail, key, max);
      }
    }
  }

  lemma {:induction false} LastVisitsDistinct<K, T>(history: seq<Entry<K, T>>)
    ensures Distinct(LastVisits(history))
  {
    if history != [] {
      var last, before := history[|history| - 1], LastVisits(history[..|history| - 1]);
      LastVisitsDistinct(history[..|history| - 1]);
      WithoutDistinct(before, last.key);
    }
  }

  /** After any visits the list is the first `max` keys of the history read backwards. */
  lemma {:induction false} VisitedIsLastVisits<K, T>(history: seq<Entry<K, T>>, max: nat)
    ensures Visited(history, max) == Take(LastVisits(history), max)
  {
    if history != [] {
      var before, last := history[..|history| - 1], history[|history| - 1];
      VisitedIsLastVisits(before, max);
      LastVisitsDistinct(before);
      if max > 0 {
        var all := LastVisits(before);
        WithoutTake(all, last.key, max - 1);
        TakeCons(last, Without(Take(all, max), last.key), max);
        TakeCons(last, Without(all, last.key), max);
      }
    }
  }

  // ---------------------------------------------------------------- with pruning

  function Applied<K(==), T>(ops: seq<Op<K, T>>, max: nat): seq<Entry<K, T>> {
    if ops == [] then []
    else
      var list := Applied(ops[..|ops| - 1], max);
      match ops[|ops| - 1]
      case Visit(e) => MergeRecent(list, e, max)
      case Prune(machine, live) => PruneRecent(list, machine, live)
  }

  function Visits<K(==), T>(ops: seq<Op<K, T>>): seq<Entry<K, T>> {
    if ops == [] then []
    else Visits(ops[..|ops| - 1]) + (if ops[|ops| - 1].Visit? then [ops[|ops| - 1].entry] else [])
  }

  /** `a` is `b` with some entries left out. */
  ghost predicate Within<T>(a: seq<T>, b: seq<T>) {
    a == [] || (b != [] && ((a[0] == b[0] && Within(a[1..], b[1..])) || Within(a, b[1..])))
  }

  lemma WithinCons<T>(x: T, a: seq<T>, b: seq<T>)
    requires Within(a, b)
    ensures Within([x] + a, [x] + b)
  {
    assert ([x] + a)[1..] == a && ([x] + b)[1..] == b;
  }

  lemma {:induction false} WithinTake<T>(a: seq<T>, b: seq<T>, n: nat)
    requires Within(a, b)
    ensures Within(Take(a, n), b)
    decreases |b|
  {
    if a != [] && n > 0 {
      if a[0] == b[0] && Within(a[1..], b[1..]) {
        WithinTake(a[1..], b[1..], n - 1);
        assert Take(a, n)[1..] == Take(a[1..], n - 1);
      } else {
        WithinTake(a, b[1..], n);
      }
    }
  }

  lemma {:induction false} WithinWithout<K, T>(a: seq<Entry<K, T>>, b: seq<Entry<K, T>>, key: K)
    requires Within(a, b)
    ensures Within(Without(a, key), Without(b, key))
    decreases |b|
  {
    if a != [] {
      if a[0] == b[0] && Within(a[1..], b[1..]) {
        WithinWithout(a[1..], b[1..], key);
        DropNothing(a, key);
        DropNothing(b, key);
        if a[0].key != key { WithinCons(a[0], Without(a[1..], key), Without(b[1..], key)); }
      } else {
        WithinWithout(a, b[1..], key);
        DropNothing(b, key);
        if b[0].key != key { WithinMore(Without(a, key), b[0], Without(b[1..], key)); }
      }
    }
  }

  lemma DropNothing<K, T>(entries: seq<Entry<K, T>>, key: K)
    requires entries != []
    ensures entries[0].key == key ==> Without(entries, key) == Without(entries[1..], key)
  {
    assert [] + Without(entries[1..], key) == Without(entries[1..], key);
  }

  lemma WithinMore<T>(a: seq<T>, x: T, b: seq<T>)
    requires Within(a, b)
    ensures Within(a, [x] + b)
  {
    assert ([x] + b)[1..] == b;
  }

  lemma {:induction false} WithinPruned<K, T>(a: seq<Entry<K, T>>, b: seq<Entry<K, T>>, machine: K, live: set<K>)
    requires Within(a, b)
    ensures Within(PruneRecent(a, machine, live), b)
    decreases |b|
  {
    if a != [] {
      assert b == [b[0]] + b[1..];
      if a[0] == b[0] && Within(a[1..], b[1..]) {
        WithinPruned(a[1..], b[1..], machine, live);
        var rest := PruneRecent(a[1..], machine, live);
        assert [] + rest == rest;
        WithinCons(b[0], rest, b[1..]);
        WithinMore(rest, b[0], b[1..]);
      } else {
        WithinPruned(a, b[1..], machine, live);
        WithinMore(PruneRecent(a, machine, live), b[0], b[1..]);
      }
    }
  }

  /** After any visits and prunes: entries in order of their last visits, none twice, at most `max`. */
  lemma {:induction false} AppliedWithinHistory<K, T>(ops: seq<Op<K, T>>, max: nat)
    ensures Within(Applied(ops, max), LastVisits(Visits(ops))) && |Applied(ops, max)| <= max
  {
    if ops != [] {
      var before, last := ops[..|ops| - 1], ops[|ops| - 1];
      AppliedWithinHistory(before, max);
      var list, all := Applied(before, max), LastVisits(Visits(before));
      match last
      case Visit(e) =>
        assert Visits(ops)[..|Visits(ops)| - 1] == Visits(before);
        WithinWithout(list, all, e.key);
        WithinCons(e, Without(list, e.key), Without(all, e.key));
        WithinTake([e] + Without(list, e.key), [e] + Without(all, e.key), max);
      case Prune(machine, live) =>
        assert Visits(ops) == Visits(before);
        WithinPruned(list, all, machine, live);
    }
  }

  lemma {:induction false} WithinHas<T>(a: seq<T>, b: seq<T>, x: T)
    requires Within(a, b) && x in a
    ensures x in b
    decreases |b|
  {
    if a[0] == b[0] && Within(a[1..], b[1..]) {
      if x != a[0] { WithinHas(a[1..], b[1..], x); }
    } else {
      WithinHas(a, b[1..], x);
    }
  }

  lemma {:induction false} WithinDistinct<K, T>(a: seq<Entry<K, T>>, b: seq<Entry<K, T>>)
    requires Within(a, b) && Distinct(b)
    ensures Distinct(a)
    decreases |b|
  {
    if a != [] {
      if a[0] == b[0] && Within(a[1..], b[1..]) {
        WithinDistinct(a[1..], b[1..]);
        forall j | 0 < j < |a| ensures a[0].key != a[j].key {
          WithinHas(a[1..], b[1..], a[1..][j - 1]);
        }
      } else {
        WithinDistinct(a, b[1..]);
      }
    }
  }

  lemma AppliedDistinct<K, T>(ops: seq<Op<K, T>>, max: nat)
    ensures Distinct(Applied(ops, max))
  {
    AppliedWithinHistory(ops, max);
    LastVisitsDistinct(Visits(ops));
    WithinDistinct(Applied(ops, max), LastVisits(Visits(ops)));
  }

  lemma {:induction false} WithinSelf<T>(a: seq<T>)
    ensures Within(a, a)
  {
    if a != [] { WithinSelf(a[1..]); }
  }

  /** Pruning drops exactly the closed windows of the one machine, and keeps the order. */
  lemma {:induction false} PruneExact<K, T>(entries: seq<Entry<K, T>>, machine: K, live: set<K>, e: Entry<K, T>)
    ensures e in PruneRecent(entries, machine, live) <==> e in entries && (e.machineId == machine ==> e.key in live)
    ensures Within(PruneRecent(entries, machine, live), entries)
  {
    WithinSelf(entries);
    WithinPruned(entries, entries, machine, live);
    if entries != [] {
      PruneExact(entries[1..], machine, live, e);
      assert entries == [entries[0]] + entries[1..];
    }
  }

  // ---------------------------------------------------------------- what stays

  /** The entry is listed, and everything listed before it has one of these keys. */
  predicate Ahead<K(==), T(==)>(entries: seq<Entry<K, T>>, e: Entry<K, T>, keys: set<K>) {
    entries != [] && (entries[0] == e || (entries[0].key in keys && Ahead(entries[1..], e, keys)))
  }

  lemma {:induction false} AheadListed<K, T>(entries: seq<Entry<K, T>>, e: Entry<K, T>, keys: set<K>)
    requires Ahead(entries, e, keys)
    ensures e in entries
  {
    if entries[0] != e { AheadListed(entries[1..], e, keys); }
  }

  lemma {:induction false} AheadMore<K, T>(entries: seq<Entry<K, T>>, e: Entry<K, T>, keys: set<K>, more: set<K>)
    requires Ahead(entries, e, keys) && keys <= more
    ensures Ahead(entries, e, more)
  {
    if entries[0] != e { AheadMore(entries[1..], e, keys, more); }
  }

  lemma AheadCons<K, T>(x: Entry<K, T>, entries: seq<Entry<K, T>>, e: Entry<K, T>, keys: set<K>)
    requires x == e || (x.key in keys && Ahead(entries, e, keys))
    ensures Ahead([x] + entries, e, keys)
  {
    assert ([x] + entries)[1..] == entries;
  }

  lemma {:induction false} AheadWithout<K, T>(entries: seq<Entry<K, T>>, e: Entry<K, T>, keys: set<K>, key: K)
    requires Ahead(entries, e, keys) && e.key != key
    ensures Ahead(Without(entries, key), e, keys)
  {
    DropNothing(entries, key);
    if entries[0] != e { AheadWithout(entries[1..], e, keys, key); }
    if entries[0].key != key { AheadCons(entries[0], Without(entries[1..], key), e, keys); }
  }

  lemma {:induction false} AheadPruned<K, T>(entries: seq<Entry<K, T>>, e: Entry<K, T>, keys: set<K>,
                                                 machine: K, live: set<K>)
    requires Ahead(entries, e, keys) && Keeps(e, machine, live)
    ensures Ahead(PruneRecent(entries, machine, live), e, keys)
  {
    var rest := PruneRecent(entries[1..], machine, live);
    assert [] + rest == rest;
    if entries[0] != e { AheadPruned(entries[1..], e, keys, machine, live); }
    if Keeps(entries[0], machine, live) { AheadCons(entries[0], rest, e, keys); }
  }

  lemma {:induction false} AheadOthers<K, T>(entries: seq<Entry<K, T>>, e: Entry<K, T>, keys: set<K>, key: K)
    requires Ahead(entries, e, keys) && Absent(entries, key)
    ensures Ahead(entries, e, keys - {key})
  {
    if entries[0] != e { AheadOthers(entries[1..], e, keys, key); }
  }

  /** Fewer than n keys may come before the entry, so it is among the first n. */
  lemma {:induction false} AheadTake<K, T>(entries: seq<Entry<K, T>>, e: Entry<K, T>, keys: set<K>, n: nat)
    requires Distinct(entries) && Ahead(entries, e, keys) && |keys| < n
    ensures Ahead(Take(entries, n), e, keys)
    decreases |entries|
  {
    var head, tail := entries[0], entries[1..];
    assert entries == [head] + tail;
    TakeCons(head, tail, n);
    if head != e {
      assert Absent(tail, head.key);
      AheadOthers(tail, e, keys, head.key);
      AheadTake(tail, e, keys - {head.key}, n - 1);
      AheadMore(Take(tail, n - 1), e, keys - {head.key}, keys);
    }
    AheadCons(head, Take(tail, n - 1), e, keys);
  }

  /** The keys visited after the k-th operation. */
  function KeysAfter<K(==), T>(ops: seq<Op<K, T>>, k: nat): set<K> {
    set l | k < l < |ops| && ops[l].Visit? :: ops[l].entry.key
  }

  /** The operation is neither another visit of the entry's key nor a prune that drops the entry. */
  predicate Spares<K(==), T>(op: Op<K, T>, e: Entry<K, T>) {
    match op
    case Visit(x) => x.key != e.key
    case Prune(machine, live) => Keeps(e, machine, live)
  }

  lemma {:induction false} SmallerSet<K>(a: set<K>, b: set<K>)
    requires a <= b
    ensures |a| <= |b|
    decreases |a|
  {
    if x :| x in a { SmallerSet(a - {x}, b - {x}); }
  }

  lemma {:induction false} AheadOfLater<K, T>(ops: seq<Op<K, T>>, k: nat, max: nat)
    requires k < |ops| && ops[k].Visit? && |KeysAfter(ops, k)| < max
    requires forall l :: k < l < |ops| ==> Spares(ops[l], ops[k].entry)
    ensures Ahead(Applied(ops, max), ops[k].entry, KeysAfter(ops, k))
    decreases |ops|
  {
    var n := |ops| - 1;
    var before, e, keys := ops[..n], ops[k].entry, KeysAfter(ops, k);
    var list := Applied(before, max);
    if k == n {
      AheadCons(e, Take(Without(list, e.key), max - 1), e, keys);
      TakeCons(e, Without(list, e.key), max);
    } else {
      var fewer := KeysAfter(before, k);
      assert fewer <= keys;
      SmallerSet(fewer, keys);
      AheadOfLater(before, k, max);
      AheadMore(list, e, fewer, keys);
      AppliedDistinct(before, max);
      match ops[n]
      case Prune(machine, live) => AheadPruned(list, e, keys, machine, live);
      case Visit(x) =>
        assert x.key in keys;
        AheadWithout(list, e, keys, x.key);
        AheadCons(x, Without(list, x.key), e, keys);
        WithoutDistinct(list, x.key);
        ConsDistinct(x, Without(list, x.key));
        AheadTake([x] + Without(list, x.key), e, keys, max);
    }
  }

  lemma ConsDistinct<K, T>(x: Entry<K, T>, entries: seq<Entry<K, T>>)
    requires Distinct(entries) && Absent(entries, x.key)
    ensures Distinct([x] + entries)
  {}

  /** An entry stays listed while its key is not visited again, it is not pruned, and fewer than `max` other keys are visited. */
  lemma StillListed<K, T>(ops: seq<Op<K, T>>, k: nat, max: nat)
    requires k < |ops| && ops[k].Visit? && |KeysAfter(ops, k)| < max
    requires forall l :: k < l < |ops| ==> Spares(ops[l], ops[k].entry)
    ensures ops[k].entry in Applied(ops, max)
  {
    AheadOfLater(ops, k, max);
    AheadListed(Applied(ops, max), ops[k].entry, KeysAfter(ops, k));
  }
}
