/** Grouping agent cards: starred ones first, the others by session or by recent activity. */
module Groups {
  import opened Prelude

  datatype Group<K, A> =
    | Starred(agents: seq<A>)
    | Recent(agents: seq<A>)
    | Session(key: K, agents: seq<A>)

  /** The latest of the dates that can be parsed; zero without any. */
  function LatestActivity(dates: seq<Option<int>>): (t: int)
    ensures t >= 0 && forall i :: 0 <= i < |dates| && dates[i].Some? ==> dates[i].value <= t
    ensures t == 0 || Some(t) in dates
  {
    if dates == [] then 0
    else
      var last := dates[|dates| - 1];
      var before := LatestActivity(dates[..|dates| - 1]);
      if last.Some? then Max(before, last.value) else before
  }

  // ---------------------------------------------------------------- sequences

  function Where<A>(s: seq<A>, p: A -> bool): seq<A> {
    if s == [] then []
    else Where(s[..|s| - 1], p) + (if p(s[|s| - 1]) then [s[|s| - 1]] else [])
  }

  lemma WhereAppend<A>(s: seq<A>, x: A, p: A -> bool)
    ensures Where(s + [x], p) == Where(s, p) + (if p(x) then [x] else [])
  {
    assert (s + [x])[..|s|] == s;
  }

  function Not<A>(p: A -> bool): A -> bool {
    a => !p(a)
  }

  function KeyIs<K(==), A>(key: A -> K, k: K): A -> bool {
    a => key(a) == k
  }

  function TimeIs<A>(time: A -> int, t: int): A -> bool {
    a => time(a) == t
  }

  /** Every key once, in the order of first appearance. */
  function FirstKeys<K(==), A>(s: seq<A>, key: A -> K): (ks: seq<K>)
    ensures forall i, j :: 0 <= i < j < |ks| ==> ks[i] != ks[j]
    ensures forall a :: a in s ==> key(a) in ks
    ensures forall k :: k in ks ==> exists a :: a in s && key(a) == k
  {
    if s == [] then []
    else
      var x := s[|s| - 1];
      var ks := FirstKeys(s[..|s| - 1], key);
      assert s == s[..|s| - 1] + [x];
      if key(x) in ks then ks else ks + [key(x)]
  }

  lemma FirstKeysAppend<K, A>(s: seq<A>, x: A, key: A -> K)
    ensures FirstKeys(s + [x], key) == (if key(x) in FirstKeys(s, key) then FirstKeys(s, key) else FirstKeys(s, key) + [key(x)])
  {
    assert (s + [x])[..|s|] == s;
  }

  // ---------------------------------------------------------------- sorting

  /** x goes behind everything at least as recent. */
  function Insert<A>(sorted: seq<A>, x: A, time: A -> int): seq<A> {
    if sorted == [] || time(sorted[|sorted| - 1]) >= time(x) then sorted + [x]
    else Insert(sorted[..|sorted| - 1], x, time) + [sorted[|sorted| - 1]]
  }

  /** Newest first, and stable. */
  function SortRecent<A>(s: seq<A>, time: A -> int): seq<A> {
    if s == [] then [] else Insert(SortRecent(s[..|s| - 1], time), s[|s| - 1], time)
  }

  predicate NewestFirst<A>(s: seq<A>, time: A -> int) {
    forall i, j :: 0 <= i < j < |s| ==> time(s[i]) >= time(s[j])
  }

  lemma {:induction false} InsertBounds<A>(sorted: seq<A>, x: A, time: A -> int, low: int)
    requires time(x) >= low && forall i :: 0 <= i < |sorted| ==> time(sorted[i]) >= low
    ensures forall i :: 0 <= i < |Insert(sorted, x, time)| ==> time(Insert(sorted, x, time)[i]) >= low
  {
    if sorted != [] && time(sorted[|sorted| - 1]) < time(x) {
      InsertBounds(sorted[..|sorted| - 1], x, time, low);
    }
  }

  lemma {:induction false} InsertSorts<A>(sorted: seq<A>, x: A, time: A -> int)
    requires NewestFirst(sorted, time)
    ensures NewestFirst(Insert(sorted, x, time), time)
  {
    if sorted != [] && time(sorted[|sorted| - 1]) < time(x) {
      var init, last := sorted[..|sorted| - 1], sorted[|sorted| - 1];
      InsertSorts(init, x, time);
      InsertBounds(init, x, time, time(last));
    }
  }

  lemma {:induction false} InsertPermutes<A>(sorted: seq<A>, x: A, time: A -> int)
    ensures multiset(Insert(sorted, x, time)) == multiset(sorted) + multiset{x}
  {
    if sorted != [] && time(sorted[|sorted| - 1]) < time(x) {
      var init, last := sorted[..|sorted| - 1], sorted[|sorted| - 1];
      InsertPermutes(init, x, time);
      assert sorted == init + [last];
    }
  }

  lemma {:induction false} InsertStable<A>(sorted: seq<A>, x: A, time: A -> int, t: int)
    ensures Where(Insert(sorted, x, time), TimeIs(time, t)) == Where(sorted, TimeIs(time, t)) + Where([x], TimeIs(time, t))
  {
    WhereAppend([], x, TimeIs(time, t));
    assert [] + [x] == [x];
    assert Where([x], TimeIs(time, t)) == if TimeIs(time, t)(x) then [x] else [];
    hide Where;
    if sorted != [] && time(sorted[|sorted| - 1]) < time(x) {
      var init, last := sorted[..|sorted| - 1], sorted[|sorted| - 1];
      InsertStable(init, x, time, t);
      assert sorted == init + [last];
      WhereAppend(Insert(init, x, time), last, TimeIs(time, t));
      WhereAppend(init, last, TimeIs(time, t));
    } else {
      WhereAppend(sorted, x, TimeIs(time, t));
    }
  }

  lemma {:induction false} SortRecentPermutes<A>(s: seq<A>, time: A -> int)
    ensures NewestFirst(SortRecent(s, time), time)
    ensures multiset(SortRecent(s, time)) == multiset(s)
  {
    if s != [] {
      var init, x := s[..|s| - 1], s[|s| - 1];
      SortRecentPermutes(init, time);
      InsertSorts(SortRecent(init, time), x, time);
      InsertPermutes(SortRecent(init, time), x, time);
      hide Insert, NewestFirst;
      assert s == init + [x];
    }
  }

  /** Cards with the same time keep their order. */
  lemma {:induction false} SortRecentStable<A>(s: seq<A>, time: A -> int, t: int)
    ensures Where(SortRecent(s, time), TimeIs(time, t)) == Where(s, TimeIs(time, t))
  {
    if s != [] {
      var init, x := s[..|s| - 1], s[|s| - 1];
      SortRecentStable(init, time, t);
      InsertStable(SortRecent(init, time), x, time, t);
      WhereAppend([], x, TimeIs(time, t));
      assert [] + [x] == [x] && s == init + [x];
      WhereAppend(init, x, TimeIs(time, t));
    }
  }

  // ---------------------------------------------------------------- the partition

  function SessionsFor<K(==), A>(ks: seq<K>, cards: seq<A>, key: A -> K): (r: seq<Group<K, A>>)
    ensures |r| == |ks|
    ensures forall i :: 0 <= i < |r| ==> r[i] == Session(ks[i], Where(cards, KeyIs(key, ks[i])))
  {
    if ks == [] then []
    else [Session(ks[0], Where(cards, KeyIs(key, ks[0])))] + SessionsFor(ks[1..], cards, key)
  }

  /** The cards of each session, sessions in the order of their first card. */
  function Sessions<K(==), A>(cards: seq<A>, key: A -> K): seq<Group<K, A>> {
    SessionsFor(FirstKeys(cards, key), cards, key)
  }

  function AgentsOf<K, A>(groups: seq<Group<K, A>>): seq<A> {
    if groups == [] then [] else groups[0].agents + AgentsOf(groups[1..])
  }

  lemma AgentsOfCons<K, A>(g: Group<K, A>, more: seq<Group<K, A>>)
    ensures AgentsOf([g] + more) == g.agents + AgentsOf(more)
  {
    assert ([g] + more)[1..] == more;
  }

  lemma {:induction false} SessionsAdd<K, A>(ks: seq<K>, cards: seq<A>, x: A, key: A -> K)
    requires forall i, j :: 0 <= i < j < |ks| ==> ks[i] != ks[j]
    ensures multiset(AgentsOf(SessionsFor(ks, cards + [x], key)))
         == multiset(AgentsOf(SessionsFor(ks, cards, key))) + (if key(x) in ks then multiset{x} else multiset{})
  {
    hide Where, AgentsOf;
    if ks != [] {
      var k, rest := ks[0], ks[1..];
      SessionsAdd(rest, cards, x, key);
      assert ks == [k] + rest;
      AgentsOfCons(Session(k, Where(cards, KeyIs(key, k))), SessionsFor(rest, cards, key));
      AgentsOfCons(Session(k, Where(cards + [x], KeyIs(key, k))), SessionsFor(rest, cards + [x], key));
      WhereAppend(cards, x, KeyIs(key, k));
    }
  }

  lemma {:induction false} SessionsOfNothing<K, A>(ks: seq<K>, key: A -> K)
    ensures AgentsOf(SessionsFor(ks, [], key)) == []
  {
    if ks != [] {
      SessionsOfNothing(ks[1..], key);
      AgentsOfCons(Session(ks[0], []), SessionsFor(ks[1..], [], key));
    }
  }

  /** Splitting cards over all their keys loses none and repeats none. */
  lemma {:induction false} SessionsForPermute<K, A>(ks: seq<K>, cards: seq<A>, key: A -> K)
    requires forall i, j :: 0 <= i < j < |ks| ==> ks[i] != ks[j]
    requires forall a :: a in cards ==> key(a) in ks
    ensures multiset(AgentsOf(SessionsFor(ks, cards, key))) == multiset(cards)
    decreases |cards|
  {
    if cards == [] {
      SessionsOfNothing(ks, key);
    } else {
      var init, x := cards[..|cards| - 1], cards[|cards| - 1];
      assert cards == init + [x];
      SessionsForPermute(ks, init, key);
      SessionsAdd(ks, init, x, key);
    }
  }

  lemma SessionsPermute<K, A>(cards: seq<A>, key: A -> K)
    ensures multiset(AgentsOf(Sessions(cards, key))) == multiset(cards)
  {
    SessionsForPermute(FirstKeys(cards, key), cards, key);
  }

  lemma {:induction false} WherePermutes<A>(s: seq<A>, p: A -> bool)
    ensures multiset(Where(s, p)) + multiset(Where(s, Not(p))) == multiset(s)
  {
    if s != [] {
      var init, x := s[..|s| - 1], s[|s| - 1];
      WherePermutes(init, p);
      assert s == init + [x];
      WhereAppend(init, x, p);
      WhereAppend(init, x, Not(p));
      hide Where;
    }
  }

  lemma {:induction false} WhereHas<A>(s: seq<A>, p: A -> bool, a: A)
    ensures a in Where(s, p) <==> a in s && p(a)
  {
    if s != [] {
      WhereHas(s[..|s| - 1], p, a);
      assert s == s[..|s| - 1] + [s[|s| - 1]];
    }
  }

  /** In current mode two cards share a group exactly when their session keys are equal. */
  lemma SameGroup<K, A>(cards: seq<A>, key: A -> K, a: A, b: A)
    requires a in cards && b in cards
    ensures (exists i :: 0 <= i < |Sessions(cards, key)| && a in Sessions(cards, key)[i].agents
                         && b in Sessions(cards, key)[i].agents) <==> key(a) == key(b)
  {
    var ks, groups := FirstKeys(cards, key), Sessions(cards, key);
    forall i | 0 <= i < |groups|
      ensures (a in groups[i].agents <==> key(a) == ks[i]) && (b in groups[i].agents <==> key(b) == ks[i])
    {
      WhereHas(cards, KeyIs(key, ks[i]), a);
      WhereHas(cards, KeyIs(key, ks[i]), b);
    }
    assert key(a) in ks;
    var i :| 0 <= i < |ks| && ks[i] == key(a);
    assert a in groups[i].agents;
  }

  // ---------------------------------------------------------------- the whole function

  function Priority<K, A>(starred: seq<A>): seq<Group<K, A>> {
    if |starred| == 0 then [] else [Starred(starred)]
  }

  function Activity<K, A>(cards: seq<A>): seq<Group<K, A>> {
    if |cards| == 0 then [] else [Recent(cards)]
  }

  /** The groups behind the starred one. */
  function Others<K(==), A>(cards: seq<A>, key: A -> K, time: A -> int, recent: bool): seq<Group<K, A>> {
    if recent then Activity(SortRecent(AgentsOf(Sessions(cards, key)), time)) else Sessions(cards, key)
  }

  function Grouped<K(==), A>(source: seq<A>, key: A -> K, isStarred: A -> bool, time: A -> int, recent: bool): seq<Group<K, A>> {
    var starred := Where(source, isStarred);
    Priority(if recent then SortRecent(starred, time) else starred) + Others(Where(source, Not(isStarred)), key, time, recent)
  }

  ghost function KeySet<K, A>(source: seq<A>, key: A -> K): set<K> {
    set i | 0 <= i < |source| :: key(source[i])
  }

  /** The map of sessions while the loop runs: its keys in insertion order, and each session's cards. */
  ghost predicate Collected<K, A>(cards: seq<A>, key: A -> K, order: seq<K>, members: map<K, seq<A>>) {
    && order == FirstKeys(cards, key)
    && (forall k :: k in order ==> k in members) && (forall k :: k in members ==> k in order)
    && (forall k :: k in members ==> members[k] == Where(cards, KeyIs(key, k)))
  }

  lemma CollectedAppend<K, A>(cards: seq<A>, key: A -> K, order: seq<K>, members: map<K, seq<A>>, x: A)
    requires Collected(cards, key, order, members)
    ensures var k := key(x);
            Collected(cards + [x], key, if k in members then order else order + [k],
                      members[k := (if k in members then members[k] else []) + [x]])
  {
    var k := key(x);
    FirstKeysAppend(cards, x, key);
    var after := members[k := (if k in members then members[k] else []) + [x]];
    forall m | m in after ensures after[m] == Where(cards + [x], KeyIs(key, m)) {
      WhereAppend(cards, x, KeyIs(key, m));
      if m == k && k !in members { NoneOf(cards, key, k); }
    }
  }

  lemma {:induction false} NoneOf<K, A>(cards: seq<A>, key: A -> K, k: K)
    requires k !in FirstKeys(cards, key)
    ensures Where(cards, KeyIs(key, k)) == []
  {
    if cards != [] { NoneOf(cards[..|cards| - 1], key, k); }
  }

  /** The loop over the source, up to card n. */
  ghost predicate Scanned<K, A>(s: seq<A>, key: A -> K, isStarred: A -> bool, starred: seq<A>, keys: set<K>,
                                order: seq<K>, members: map<K, seq<A>>) {
    starred == Where(s, isStarred) && keys == KeySet(s, key) && Collected(Where(s, Not(isStarred)), key, order, members)
  }

  lemma ScanStarred<K, A>(s: seq<A>, key: A -> K, isStarred: A -> bool, starred: seq<A>, keys: set<K>,
                          order: seq<K>, members: map<K, seq<A>>, x: A)
    requires Scanned(s, key, isStarred, starred, keys, order, members) && isStarred(x)
    ensures Scanned(s + [x], key, isStarred, starred + [x], keys + {key(x)}, order, members)
  {
    WhereAppend(s, x, isStarred);
    WhereAppend(s, x, Not(isStarred));
    assert Where(s, Not(isStarred)) + [] == Where(s, Not(isStarred));
    KeySetAppend(s, x, key);
  }

  lemma ScanOther<K, A>(s: seq<A>, key: A -> K, isStarred: A -> bool, starred: seq<A>, keys: set<K>,
                        order: seq<K>, members: map<K, seq<A>>, x: A)
    requires Scanned(s, key, isStarred, starred, keys, order, members) && !isStarred(x)
    ensures var k := key(x);
            Scanned(s + [x], key, isStarred, starred, keys + {k}, if k in members then order else order + [k],
                    members[k := (if k in members then members[k] else []) + [x]])
  {
    WhereAppend(s, x, isStarred);
    WhereAppend(s, x, Not(isStarred));
    KeySetAppend(s, x, key);
    CollectedAppend(Where(s, Not(isStarred)), key, order, members, x);
  }

  /** The loop that fills the starred cards, the set of keys and the map of sessions. */
  method Collect<K(==), A>(source: seq<A>, key: A -> K, isStarred: A -> bool)
    returns (starred: seq<A>, sessionKeys: set<K>, order: seq<K>, members: map<K, seq<A>>)
    ensures Scanned(source, key, isStarred, starred, sessionKeys, order, members)
  {
    starred, sessionKeys, order, members := [], {}, [], map[];
    for i := 0 to |source|
      invariant Scanned(source[..i], key, isStarred, starred, sessionKeys, order, members)
    {
      var agent := source[i];
      var k := key(agent);
      assert source[..i + 1] == source[..i] + [agent];
      if isStarred(agent) {
        ScanStarred(source[..i], key, isStarred, starred, sessionKeys, order, members, agent);
        sessionKeys, starred := sessionKeys + {k}, starred + [agent];
      } else {
        ScanOther(source[..i], key, isStarred, starred, sessionKeys, order, members, agent);
        var group := if k in members then members[k] else [];
        if k !in members { order := order + [k]; }
        sessionKeys, members := sessionKeys + {k}, members[k := group + [agent]];
      }
    }
    assert source[..|source|] == source;
  }

  method GroupAgentSessions<K(==), A>(source: seq<A>, key: A -> K, isStarred: A -> bool, time: A -> int, recent: bool)
    returns (groups: seq<Group<K, A>>, agents: seq<A>, sessionCount: nat)
    ensures groups == Grouped(source, key, isStarred, time, recent)
    ensures agents == AgentsOf(groups)
    ensures sessionCount == |KeySet(source, key)|
  {
    var starred, sessionKeys, order, members := Collect(source, key, isStarred);
    var sessions := AsGroups(order, members);
    SessionsCollected(Where(source, Not(isStarred)), key, order, members);
    if recent {
      starred := SortRecent(starred, time);
      groups := Priority(starred) + Activity(SortRecent(AgentsOf(sessions), time));
    } else {
      groups := Priority(starred) + sessions;
    }
    agents := AgentsOf(groups);
    sessionCount := |sessionKeys|;
  }

  function AsGroups<K(==), A>(order: seq<K>, members: map<K, seq<A>>): seq<Group<K, A>> {
    seq(|order|, i requires 0 <= i < |order| => Session(order[i], if order[i] in members then members[order[i]] else []))
  }

  lemma SessionsCollected<K, A>(cards: seq<A>, key: A -> K, order: seq<K>, members: map<K, seq<A>>)
    requires Collected(cards, key, order, members)
    ensures AsGroups(order, members) == Sessions(cards, key)
  {
  }

  lemma KeySetAppend<K, A>(s: seq<A>, x: A, key: A -> K)
    ensures KeySet(s + [x], key) == KeySet(s, key) + {key(x)}
  {
    var all := s + [x];
    assert forall i :: 0 <= i < |s| ==> all[i] == s[i];
    assert all[|s|] == x;
    forall k | k in KeySet(s, key) + {key(x)} ensures k in KeySet(all, key) {
      if k in KeySet(s, key) {
        var i :| 0 <= i < |s| && key(s[i]) == k;
        assert key(all[i]) == k;
      } else {
        assert key(all[|s|]) == k;
      }
    }
  }

  // ---------------------------------------------------------------- what the feed shows

  lemma {:induction false} AgentsOfAppend<K, A>(groups: seq<Group<K, A>>, more: seq<Group<K, A>>)
    ensures AgentsOf(groups + more) == AgentsOf(groups) + AgentsOf(more)
  {
    if groups == [] {
      assert groups + more == more;
    } else {
      var g, rest := groups[0], groups[1..];
      AgentsOfAppend(rest, more);
      assert groups == [g] + rest;
      Reassociate([g], rest, more);
      AgentsOfCons(g, rest + more);
      Reassociate(g.agents, AgentsOf(rest), AgentsOf(more));
    }
  }

  lemma OneGroup<K, A>(g: Group<K, A>)
    ensures AgentsOf([g]) == g.agents
  {
    assert [g][1..] == [];
  }

  lemma PriorityPermutes<K, A>(starred: seq<A>, groups: seq<Group<K, A>>)
    requires groups == Priority(starred)
    ensures AgentsOf(groups) == starred
  {
    if starred != [] { OneGroup(groups[0]); }
  }

  lemma OthersPermute<K, A>(cards: seq<A>, key: A -> K, time: A -> int, recent: bool)
    ensures multiset(AgentsOf(Others(cards, key, time, recent))) == multiset(cards)
  {
    SessionsPermute(cards, key);
    if recent {
      var sorted := SortRecent(AgentsOf(Sessions(cards, key)), time);
      SortRecentPermutes(AgentsOf(Sessions(cards, key)), time);
      var groups: seq<Group<K, A>> := Activity(sorted);
      if sorted != [] { OneGroup(groups[0]); }
    }
  }

  /** In both modes the feed shows every card of the source once. */
  lemma GroupedPermutes<K, A>(source: seq<A>, key: A -> K, isStarred: A -> bool, time: A -> int, recent: bool)
    ensures multiset(AgentsOf(Grouped(source, key, isStarred, time, recent))) == multiset(source)
  {
    var starred, cards := Where(source, isStarred), Where(source, Not(isStarred));
    var shown := if recent then SortRecent(starred, time) else starred;
    WherePermutes(source, isStarred);
    SortRecentPermutes(starred, time);
    PriorityPermutes<K, A>(shown, Priority(shown));
    OthersPermute(cards, key, time, recent);
    AgentsOfAppend(Priority(shown), Others(cards, key, time, recent));
  }

  lemma OthersHold<K, A>(cards: seq<A>, key: A -> K, time: A -> int, recent: bool, i: nat, a: A)
    requires i < |Others(cards, key, time, recent)| && a in Others(cards, key, time, recent)[i].agents
    ensures !Others(cards, key, time, recent)[i].Starred? && a in cards
  {
    if recent {
      SessionsPermute(cards, key);
      SortRecentPermutes(AgentsOf(Sessions(cards, key)), time);
      assert a in multiset(cards);
    } else {
      WhereHas(cards, KeyIs(key, FirstKeys(cards, key)[i]), a);
    }
  }

  lemma PriorityHolds<K, A>(source: seq<A>, isStarred: A -> bool, time: A -> int, recent: bool, a: A)
    ensures var starred := Where(source, isStarred);
            a in (if recent then SortRecent(starred, time) else starred) <==> a in source && isStarred(a)
  {
    var starred := Where(source, isStarred);
    WhereHas(source, isStarred, a);
    SortRecentPermutes(starred, time);
    assert a in SortRecent(starred, time) <==> a in multiset(SortRecent(starred, time));
  }

  /** A group that shows a card is the starred one exactly when the card is starred. */
  lemma GroupHolds<K, A>(source: seq<A>, key: A -> K, isStarred: A -> bool, time: A -> int, recent: bool, i: nat, a: A)
    requires i < |Grouped(source, key, isStarred, time, recent)|
    requires a in Grouped(source, key, isStarred, time, recent)[i].agents
    ensures a in source && (Grouped(source, key, isStarred, time, recent)[i].Starred? <==> isStarred(a))
    ensures isStarred(a) ==> i == 0
  {
    var starred, cards := Where(source, isStarred), Where(source, Not(isStarred));
    var shown := if recent then SortRecent(starred, time) else starred;
    var first: seq<Group<K, A>> := Priority(shown);
    if i < |first| {
      PriorityHolds<K, A>(source, isStarred, time, recent, a);
    } else {
      OthersHold(cards, key, time, recent, i - |first|, a);
      WhereHas(source, Not(isStarred), a);
    }
  }

  /** A starred card is in the first group. */
  lemma StarredFirst<K, A>(source: seq<A>, key: A -> K, isStarred: A -> bool, time: A -> int, recent: bool, a: A)
    requires a in source && isStarred(a)
    ensures var groups := Grouped(source, key, isStarred, time, recent);
            |groups| > 0 && groups[0].Starred? && a in groups[0].agents
  {
    PriorityHolds<K, A>(source, isStarred, time, recent, a);
  }

  // ---------------------------------------------------------------- the order of the feed

  /** r holds exactly the cards of s that p picks, in the order of s: those at the positions `at`. */
  ghost predicate Picks<A(!new)>(s: seq<A>, p: A -> bool, r: seq<A>, at: seq<nat>) {
    && |at| == |r|
    && (forall i | 0 <= i < |at| :: at[i] < |s| && r[i] == s[at[i]])
    && (forall i, j | 0 <= i < j < |at| :: at[i] < at[j])
    && (forall k | 0 <= k < |s| :: p(s[k]) <==> k in at)
  }

  ghost predicate InSourceOrder<A(!new)>(s: seq<A>, p: A -> bool, r: seq<A>) {
    exists at :: Picks(s, p, r, at)
  }

  lemma {:induction false} WherePicks<A(!new)>(s: seq<A>, p: A -> bool)
    ensures InSourceOrder(s, p, Where(s, p))
  {
    if s == [] {
      assert Picks(s, p, Where(s, p), []);
    } else {
      var init, x := s[..|s| - 1], s[|s| - 1];
      assert init + [x] == s;
      hide *;
      WherePicks(init, p);
      PicksNext(init, p, x);
    }
  }

  lemma PicksNext<A(!new)>(s: seq<A>, p: A -> bool, x: A)
    requires InSourceOrder(s, p, Where(s, p))
    ensures InSourceOrder(s + [x], p, Where(s + [x], p))
  {
    WhereAppend(s, x, p);
    hide Picks, Where;
    var at :| Picks(s, p, Where(s, p), at);
    if p(x) {
      PicksOne(s, p, Where(s, p), at, x);
    } else {
      assert Where(s, p) + [] == Where(s, p);
      PicksNone(s, p, Where(s, p), at, x);
    }
  }

  lemma PicksOne<A(!new)>(s: seq<A>, p: A -> bool, r: seq<A>, at: seq<nat>, x: A)
    requires Picks(s, p, r, at) && p(x)
    ensures Picks(s + [x], p, r + [x], at + [|s|])
  {
    var all := s + [x];
    assert forall k | 0 <= k < |s| :: all[k] == s[k];
    assert forall i | 0 <= i < |at| :: at[i] < |s|;
    forall k | 0 <= k < |all| ensures p(all[k]) <==> k in at + [|s|] {
      if k < |s| { assert p(s[k]) <==> k in at; } else { assert (at + [|s|])[|at|] == k; }
    }
  }

  lemma PicksNone<A(!new)>(s: seq<A>, p: A -> bool, r: seq<A>, at: seq<nat>, x: A)
    requires Picks(s, p, r, at) && !p(x)
    ensures Picks(s + [x], p, r, at)
  {
    var all := s + [x];
    assert forall k | 0 <= k < |s| :: all[k] == s[k];
    assert forall i | 0 <= i < |at| :: at[i] < |s|;
  }

  function Both<A>(p: A -> bool, q: A -> bool): A -> bool {
    a => p(a) && q(a)
  }

  lemma {:induction false} WhereWhere<A>(s: seq<A>, p: A -> bool, q: A -> bool)
    ensures Where(Where(s, p), q) == Where(s, Both(p, q))
  {
    if s != [] {
      var init, x := s[..|s| - 1], s[|s| - 1];
      WhereWhere(init, p, q);
      assert s == init + [x];
      WhereAppend(init, x, p);
      WhereAppend(init, x, Both(p, q));
      WhereAppend(Where(init, p), x, q);
      hide Where;
      if !p(x) { assert Where(init, p) + [] == Where(init, p); }
      assert Where(init, Both(p, q)) + [] == Where(init, Both(p, q));
    }
  }

  /** In current mode every group shows its cards, and only those, in the order of the source. */
  lemma CurrentKeepsOrder<K(!new), A(!new)>(source: seq<A>, key: A -> K, isStarred: A -> bool, time: A -> int, i: nat)
    requires i < |Grouped(source, key, isStarred, time, false)|
    ensures var g := Grouped(source, key, isStarred, time, false)[i];
            match g
            case Starred(agents) => InSourceOrder(source, isStarred, agents)
            case Session(k, agents) => InSourceOrder(source, Both(Not(isStarred), KeyIs(key, k)), agents)
            case Recent(_) => false
  {
    var starred, cards := Where(source, isStarred), Where(source, Not(isStarred));
    var first: seq<Group<K, A>> := Priority(starred);
    var groups: seq<Group<K, A>> := Grouped(source, key, isStarred, time, false);
    if i < |first| {
      assert groups[i] == first[i];
      WherePicks(source, isStarred);
    } else {
      var k := FirstKeys(cards, key)[i - |first|];
      assert groups[i] == Sessions(cards, key)[i - |first|];
      WhereWhere(source, Not(isStarred), KeyIs(key, k));
      WherePicks(source, Both(Not(isStarred), KeyIs(key, k)));
    }
  }

  /** The position of the first card with this key; behind the last without one. */
  function FirstAt<K(==), A>(s: seq<A>, key: A -> K, k: K): (n: nat)
    ensures n <= |s| && (n < |s| ==> key(s[n]) == k)
    ensures forall i | 0 <= i < n :: key(s[i]) != k
  {
    if s == [] || key(s[0]) == k then 0 else 1 + FirstAt(s[1..], key, k)
  }

  /** Sessions come in the order of their first cards. */
  lemma SessionsInOrder<K, A>(cards: seq<A>, key: A -> K, i: nat, j: nat)
    requires i < j < |Sessions(cards, key)|
    ensures var groups := Sessions(cards, key);
            groups[i].Session? && groups[j].Session?
            && FirstAt(cards, key, groups[i].key) < FirstAt(cards, key, groups[j].key) < |cards|
  {
    var ks := FirstKeys(cards, key);
    assert Sessions(cards, key)[i].Session? && Sessions(cards, key)[j].Session?;
    assert Sessions(cards, key)[i].key == ks[i] && Sessions(cards, key)[j].key == ks[j];
    hide Sessions;
    KeysInOrder(cards, key, i, j);
  }

  lemma {:induction false} KeysInOrder<K, A>(cards: seq<A>, key: A -> K, i: nat, j: nat)
    requires i < j < |FirstKeys(cards, key)|
    ensures var ks := FirstKeys(cards, key); FirstAt(cards, key, ks[i]) < FirstAt(cards, key, ks[j]) < |cards|
    decreases |cards|
  {
    assert cards != [];
    hide FirstKeys, FirstAt;
    var init, x := cards[..|cards| - 1], cards[|cards| - 1];
    assert init + [x] == cards;
    var before := FirstKeys(init, key);
    FirstKeysAppend(init, x, key);
    if j < |before| { KeysInOrder(init, key, i, j); }
    NextInOrder(init, x, key, i, j);
  }

  lemma NextInOrder<K, A>(s: seq<A>, x: A, key: A -> K, i: nat, j: nat)
    requires i < j < |FirstKeys(s + [x], key)|
    requires var ks := FirstKeys(s, key); j < |ks| ==> FirstAt(s, key, ks[i]) < FirstAt(s, key, ks[j]) < |s|
    ensures var ks := FirstKeys(s + [x], key);
            FirstAt(s + [x], key, ks[i]) < FirstAt(s + [x], key, ks[j]) < |s| + 1
  {
    var ks := FirstKeys(s, key);
    FirstKeysAppend(s, x, key);
    assert forall i | 0 <= i < |s| :: s[i] in s && key(s[i]) in ks;
    hide FirstKeys, FirstAt;
    FirstStays(s, x, key, ks[i]);
    if j < |ks| { FirstStays(s, x, key, ks[j]); } else { FirstNew(s, x, key); }
  }

  /** A new key has its first position at the end. */
  lemma FirstNew<K, A>(s: seq<A>, x: A, key: A -> K)
    requires forall i | 0 <= i < |s| :: key(s[i]) != key(x)
    ensures FirstAt(s + [x], key, key(x)) == |s|
  {
    var all := s + [x];
    assert all[|s|] == x;
    assert forall i | 0 <= i < |s| :: all[i] == s[i];
    hide FirstAt;
  }

  /** A key that was seen keeps its first position. */
  lemma FirstStays<K, A>(s: seq<A>, x: A, key: A -> K, k: K)
    requires k in FirstKeys(s, key)
    ensures FirstAt(s + [x], key, k) == FirstAt(s, key, k) < |s|
  {
    var a :| a in s && key(a) == k;
    var i :| 0 <= i < |s| && s[i] == a;
    assert key(s[i]) == k;
    assert forall i | 0 <= i < |s| :: (s + [x])[i] == s[i];
    hide FirstAt;
  }

  /** In recent mode every group is newest first, and cards of the same time keep the order of the sessions. */
  lemma RecentNewestFirst<K, A>(source: seq<A>, key: A -> K, isStarred: A -> bool, time: A -> int, i: nat)
    requires i < |Grouped(source, key, isStarred, time, true)|
    ensures NewestFirst(Grouped(source, key, isStarred, time, true)[i].agents, time)
    ensures !Grouped(source, key, isStarred, time, true)[i].Session?
    ensures |Grouped(source, key, isStarred, time, true)| <= 2
  {
    var starred, cards := Where(source, isStarred), Where(source, Not(isStarred));
    SortRecentPermutes(starred, time);
    SortRecentPermutes(AgentsOf(Sessions(cards, key)), time);
    hide SortRecent, NewestFirst;
  }

  lemma RecentTies<K, A>(source: seq<A>, key: A -> K, isStarred: A -> bool, time: A -> int, i: nat, t: int)
    requires i < |Grouped(source, key, isStarred, time, true)|
    ensures var g, starred, cards := Grouped(source, key, isStarred, time, true)[i], Where(source, isStarred), Where(source, Not(isStarred));
            Where(g.agents, TimeIs(time, t)) ==
              if g.Starred? then Where(starred, TimeIs(time, t)) else Where(AgentsOf(Sessions(cards, key)), TimeIs(time, t))
  {
    var starred, cards := Where(source, isStarred), Where(source, Not(isStarred));
    SortRecentStable(starred, time, t);
    SortRecentStable(AgentsOf(Sessions(cards, key)), time, t);
    hide SortRecent, Where, Sessions, AgentsOf;
    var first: seq<Group<K, A>> := Priority(SortRecent(starred, time));
    if i < |first| { assert Grouped(source, key, isStarred, time, true)[i] == first[i]; }
  }
}
