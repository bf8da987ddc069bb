/** How a batch shares its bytes: allocateByteBudgets and what makes its result fair. */
module NotifyBudget {
  import opened Prelude


  function Sum(s: seq<nat>): nat {
    if s == [] then 0 else s[0] + Sum(s[1..])
  }

  /**
   The whole contract of the allocator: all of the budget is spent, nobody gets more than
   it asked for, and whoever is cut short gets at least what any later entry gets and at
   most one byte less than any earlier one.
   */
  ghost predicate MaxMinFair(lengths: seq<nat>, total: nat, budgets: seq<nat>) {
    && |budgets| == |lengths|
    && Sum(budgets) == Min(total, Sum(lengths))
    && (forall i | 0 <= i < |lengths| :: budgets[i] <= lengths[i])
    && (forall i, j | 0 <= i < j < |lengths| && budgets[i] < lengths[i] :: budgets[j] <= budgets[i])
    && (forall i, j | 0 <= j < i < |lengths| && budgets[i] < lengths[i] :: budgets[j] <= budgets[i] + 1)
  }

  // ---------------------------------------------------------------- sums

  lemma {:induction false} SumAppend(a: seq<nat>, b: seq<nat>)
    ensures Sum(a + b) == Sum(a) + Sum(b)
  {
    if a == [] { assert a + b == b; }
    else {
      assert (a + b)[1..] == a[1..] + b;
      SumAppend(a[1..], b);
    }
  }

  lemma {:induction false} SumUpdate(s: seq<nat>, i: nat, v: nat)
    requires i < |s|
    ensures Sum(s[i := v]) == Sum(s) - s[i] + v
  {
    if i == 0 { assert s[i := v][1..] == s[1..]; }
    else {
      assert s[i := v][1..] == s[1..][i - 1 := v];
      SumUpdate(s[1..], i - 1, v);
    }
  }

  lemma {:induction false} SumZeros(n: nat)
    ensures Sum(seq(n, _ => 0)) == 0
  {
    if n > 0 {
      assert seq(n, _ => 0)[1..] == seq(n - 1, _ => 0);
      SumZeros(n - 1);
    }
  }

  lemma {:induction false} SumMonotone(a: seq<nat>, b: seq<nat>)
    requires |a| == |b| && forall i | 0 <= i < |a| :: a[i] <= b[i]
    ensures Sum(a) <= Sum(b)
    ensures Sum(a) == Sum(b) ==> a == b
  {
    if a != [] {
      SumMonotone(a[1..], b[1..]);
      assert a == [a[0]] + a[1..] && b == [b[0]] + b[1..];
    }
  }

  // ---------------------------------------------------------------- uniqueness

  /** Equal sums of different sequences differ in both directions. */
  lemma DifferBothWays(a: seq<nat>, b: seq<nat>) returns (i: nat, j: nat)
    requires |a| == |b| && a != b && Sum(a) == Sum(b)
    ensures i < |a| && j < |a| && a[i] < b[i] && b[j] < a[j]
  {
    if forall k | 0 <= k < |a| :: a[k] <= b[k] { SumMonotone(a, b); }
    if forall k | 0 <= k < |a| :: b[k] <= a[k] { SumMonotone(b, a); }
    j :| 0 <= j < |a| && b[j] < a[j];
    i :| 0 <= i < |a| && a[i] < b[i];
  }

  /** The contract leaves no choice: two allocations of the same budget are the same. */
  lemma AllocationUnique(lengths: seq<nat>, total: nat, a: seq<nat>, b: seq<nat>)
    requires MaxMinFair(lengths, total, a) && MaxMinFair(lengths, total, b)
    ensures a == b
  {
    if a != b {
      var i, j := DifferBothWays(a, b);
    }
  }

  /** Nobody who asks for more than an equal share of the budget gets less than that share. */
  lemma FairShare(lengths: seq<nat>, total: nat, budgets: seq<nat>, i: nat)
    requires MaxMinFair(lengths, total, budgets) && i < |lengths|
    ensures budgets[i] == lengths[i] || total / |lengths| <= budgets[i]
  {
    if budgets[i] < lengths[i] {
      SumBelow(budgets, budgets[i] + 1, i);
      if total > Sum(lengths) { SumMonotone(budgets, lengths); }
      DivideBelow(total, |lengths|, budgets[i]);
    }
  }

  lemma DivideBelow(total: nat, n: nat, b: nat)
    requires 0 < n && total < n * (b + 1)
    ensures total / n <= b
  {
    if total / n >= b + 1 { MultiplyMonotone(b + 1, total / n, n); }
  }

  lemma SplitShare(share: nat, a: nat, b: nat)
    ensures share * a + share * b == share * (a + b)
  {}

  lemma MultiplyMonotone(a: nat, b: nat, n: nat)
    requires a <= b
    ensures a * n <= b * n
  {}

  /** A sum of values up to a bound, at least one of them below it, is below the bound times their number. */
  lemma {:induction false} SumBelow(s: seq<nat>, bound: nat, at: nat)
    requires at < |s| && (forall k | 0 <= k < |s| :: s[k] <= bound) && s[at] < bound
    ensures Sum(s) < |s| * bound
    decreases |s|
  {
    SumAtMost(s[1..], bound);
    assert |s| * bound == bound + |s[1..]| * bound;
    if at > 0 { SumBelow(s[1..], bound, at - 1); }
  }

  lemma {:induction false} SumAtMost(s: seq<nat>, bound: nat)
    requires forall k | 0 <= k < |s| :: s[k] <= bound
    ensures Sum(s) <= |s| * bound
  {
    if s != [] {
      SumAtMost(s[1..], bound);
      assert |s| * bound == bound + |s[1..]| * bound;
    }
  }

  // ---------------------------------------------------------------- the allocator

  ghost predicate Indices(pending: seq<nat>, n: nat) {
    forall k | 0 <= k < |pending| :: pending[k] < n
  }

  /** The entries still waiting whose whole length fits the share. */
  function Satisfied(pending: seq<nat>, lengths: seq<nat>, share: nat): (r: seq<nat>)
    requires Indices(pending, |lengths|)
    ensures Indices(r, |lengths|)
    ensures forall i :: i in r <==> i in pending && lengths[i] <= share
    ensures |r| <= |pending|
  {
    if pending == [] then []
    else
      var rest := Satisfied(pending[1..], lengths, share);
      if lengths[pending[0]] <= share then [pending[0]] + rest else rest
  }

  function Unsatisfied(pending: seq<nat>, lengths: seq<nat>, share: nat): (r: seq<nat>)
    requires Indices(pending, |lengths|)
    ensures Indices(r, |lengths|)
    ensures forall i :: i in r <==> i in pending && lengths[i] > share
    ensures |r| + |Satisfied(pending, lengths, share)| == |pending|
  {
    if pending == [] then []
    else
      var rest := Unsatisfied(pending[1..], lengths, share);
      if lengths[pending[0]] <= share then rest else [pending[0]] + rest
  }

  ghost predicate Increasing(s: seq<nat>) {
    forall i, j | 0 <= i < j < |s| :: s[i] < s[j]
  }

  lemma HeadLeast(s: seq<nat>)
    requires Increasing(s) && s != []
    ensures forall x | x in s[1..] :: s[0] < x
    ensures Increasing(s[1..])
  {}

  lemma ConsIncreasing(x: nat, rest: seq<nat>)
    requires Increasing(rest) && forall y | y in rest :: x < y
    ensures Increasing([x] + rest)
  {
    forall j | 0 <= j < |rest| ensures x < rest[j] { assert rest[j] in rest; }
  }

  lemma {:induction false} FiltersIncrease(pending: seq<nat>, lengths: seq<nat>, share: nat)
    requires Indices(pending, |lengths|) && Increasing(pending)
    ensures Increasing(Satisfied(pending, lengths, share))
    ensures Increasing(Unsatisfied(pending, lengths, share))
    decreases |pending|
  {
    if pending != [] {
      HeadLeast(pending);
      FiltersIncrease(pending[1..], lengths, share);
      ConsIncreasing(pending[0], Satisfied(pending[1..], lengths, share));
      ConsIncreasing(pending[0], Unsatisfied(pending[1..], lengths, share));
    }
  }

  /** The bytes that the entries at some indices ask for. */
  function Asked(lengths: seq<nat>, indices: seq<nat>): nat
    requires Indices(indices, |lengths|)
  {
    if indices == [] then 0
    else Asked(lengths, indices[..|indices| - 1]) + lengths[indices[|indices| - 1]]
  }

  lemma {:induction false} AskedAtMost(lengths: seq<nat>, indices: seq<nat>, share: nat)
    requires Indices(indices, |lengths|) && forall k | 0 <= k < |indices| :: lengths[indices[k]] <= share
    ensures Asked(lengths, indices) <= share * |indices|
    decreases |indices|
  {
    if indices != [] {
      AskedAtMost(lengths, indices[..|indices| - 1], share);
      SplitShare(share, |indices| - 1, 1);
    }
  }

  lemma {:induction false} AskedPrefix(lengths: seq<nat>, indices: seq<nat>, k: nat)
    requires Indices(indices, |lengths|) && k <= |indices|
    ensures Asked(lengths, indices[..k]) <= Asked(lengths, indices)
    decreases |indices|
  {
    if k < |indices| {
      assert indices[..|indices| - 1][..k] == indices[..k];
      AskedPrefix(lengths, indices[..|indices| - 1], k);
    } else { assert indices[..k] == indices; }
  }

  // ---------------------------------------------------------------- the shares of the rounds

  /** An equal share of what remains. */
  function EqualShare(remaining: nat, n: nat): nat
    requires 0 < n
  {
    remaining / n
  }

  /** The share can be given to each of n, and no larger one could. */
  predicate Splits(remaining: nat, n: nat, share: nat) {
    share * n <= remaining < share * n + n
  }

  /** What is left for the others is no smaller a share than the one just given. */
  lemma ShareGrows(share: nat, n: nat, remaining: nat)
    requires 0 < n && share * n <= remaining
    ensures share <= EqualShare(remaining, n)
    ensures Splits(remaining, n, EqualShare(remaining, n))
  {
    if remaining / n < share { MultiplyMonotone(remaining / n + 1, share, n); }
  }

  /** What the satisfied entries ask for is there, and leaves a share for everyone else. */
  lemma EnoughLeft(share: nat, asked: nat, some: nat, others: nat, remaining: nat)
    requires asked <= share * some && share * (some + others) <= remaining
    ensures asked <= remaining && share * others <= remaining - asked
  {
    SplitShare(share, some, others);
  }

  /** A round of this share can be paid, and leaves the share for everyone else. */
  lemma RoundPaid(lengths: seq<nat>, pending: seq<nat>, remaining: nat, share: nat)
    requires Indices(pending, |lengths|) && share * |pending| <= remaining
    ensures var asked := Asked(lengths, Satisfied(pending, lengths, share));
            asked <= remaining && share * |Unsatisfied(pending, lengths, share)| <= remaining - asked
  {
    var satisfied := Satisfied(pending, lengths, share);
    forall k | 0 <= k < |satisfied| ensures lengths[satisfied[k]] <= share { assert satisfied[k] in satisfied; }
    AskedAtMost(lengths, satisfied, share);
    EnoughLeft(share, Asked(lengths, satisfied), |satisfied|, |Unsatisfied(pending, lengths, share)|, remaining);
  }

  /** The share of each round, from a round that starts with these entries and bytes. */
  ghost function Shares(lengths: seq<nat>, pending: seq<nat>, remaining: nat): seq<nat>
    requires Indices(pending, |lengths|)
    decreases |pending|
  {
    if pending == [] then []
    else
      var share := EqualShare(remaining, |pending|);
      var satisfied := Satisfied(pending, lengths, share);
      if satisfied == [] then [share]
      else
        ShareGrows(0, |pending|, remaining);
        RoundPaid(lengths, pending, remaining, share);
        [share] + Shares(lengths, Unsatisfied(pending, lengths, share), remaining - Asked(lengths, satisfied))
  }

  lemma SharesNext(lengths: seq<nat>, pending: seq<nat>, remaining: nat)
    requires Indices(pending, |lengths|) && pending != []
    ensures var share := EqualShare(remaining, |pending|);
            var satisfied := Satisfied(pending, lengths, share);
            var asked := Asked(lengths, satisfied);
            if satisfied == [] then Shares(lengths, pending, remaining) == [share]
            else asked <= remaining
                 && Shares(lengths, pending, remaining)
                    == [share] + Shares(lengths, Unsatisfied(pending, lengths, share), remaining - asked)
  {
    hide EqualShare, Satisfied, Unsatisfied, Asked;
    ShareGrows(0, |pending|, remaining);
    RoundPaid(lengths, pending, remaining, EqualShare(remaining, |pending|));
  }

  /** Shares never shrink from round to round. */
  lemma {:induction false} SharesGrow(lengths: seq<nat>, pending: seq<nat>, remaining: nat, last: nat)
    requires Indices(pending, |lengths|) && last * |pending| <= remaining
    ensures var shares := Shares(lengths, pending, remaining);
            && (forall i | 0 <= i < |shares| :: last <= shares[i])
            && (forall i, j | 0 <= i < j < |shares| :: shares[i] <= shares[j])
    decreases |pending|
  {
    hide EqualShare, Satisfied, Unsatisfied, Asked, Indices;
    if pending != [] {
      var share := EqualShare(remaining, |pending|);
      var satisfied := Satisfied(pending, lengths, share);
      ShareGrows(last, |pending|, remaining);
      SharesNext(lengths, pending, remaining);
      if satisfied != [] {
        RoundPaid(lengths, pending, remaining, share);
        SharesGrow(lengths, Unsatisfied(pending, lengths, share), remaining - Asked(lengths, satisfied), share);
      }
    }
  }

  /** The allocation stands at this round of the shares. */
  ghost predicate AtRound(lengths: seq<nat>, shares: seq<nat>, round: nat, pending: seq<nat>, remaining: nat) {
    Indices(pending, |lengths|) && round <= |shares| && shares[round..] == Shares(lengths, pending, remaining)
  }

  lemma RoundOver(lengths: seq<nat>, shares: seq<nat>, round: nat, pending: seq<nat>, remaining: nat)
    requires AtRound(lengths, shares, round, pending, remaining) && pending != []
    ensures var share := EqualShare(remaining, |pending|);
            var satisfied := Satisfied(pending, lengths, share);
            && round < |shares| && shares[round] == share
            && (satisfied != [] ==>
                  && Asked(lengths, satisfied) <= remaining
                  && AtRound(lengths, shares, round + 1, Unsatisfied(pending, lengths, share), remaining - Asked(lengths, satisfied)))
  {
    hide EqualShare, Satisfied, Unsatisfied, Asked, Shares;
    SharesNext(lengths, pending, remaining);
    assert shares[round + 1..] == shares[round..][1..];
  }

  /** Gives every satisfied entry its whole length. */
  method GiveWhole(lengths: seq<nat>, satisfied: seq<nat>, budgets: seq<nat>, remaining: nat)
    returns (given: seq<nat>, left: nat)
    requires |budgets| == |lengths| && Increasing(satisfied) && Indices(satisfied, |lengths|)
    requires forall k | 0 <= k < |satisfied| :: budgets[satisfied[k]] == 0
    requires Asked(lengths, satisfied) <= remaining
    ensures |given| == |lengths|
    ensures forall i | 0 <= i < |lengths| :: given[i] == if i in satisfied then lengths[i] else budgets[i]
    ensures Sum(given) + left == Sum(budgets) + remaining
    ensures left == remaining - Asked(lengths, satisfied)
  {
    given, left := budgets, remaining;
    for k := 0 to |satisfied|
      invariant |given| == |lengths|
      invariant forall i | 0 <= i < |lengths| ::
                  given[i] == if i in satisfied[..k] then lengths[i] else budgets[i]
      invariant left == remaining - Asked(lengths, satisfied[..k])
      invariant Sum(given) + left == Sum(budgets) + remaining
    {
      var index := satisfied[k];
      assert index !in satisfied[..k];
      assert satisfied[..k + 1][..k] == satisfied[..k];
      AskedPrefix(lengths, satisfied, k + 1);
      SumUpdate(given, index, lengths[index]);
      given := given[index := lengths[index]];
      left := left - lengths[index];
    }
    assert satisfied[..|satisfied|] == satisfied;
  }

  /** Splits what is left over the entries that are still cut short, the odd bytes going to the first of them. */
  method GiveShares(lengths: seq<nat>, pending: seq<nat>, budgets: seq<nat>, share: nat, remainder: nat)
    returns (given: seq<nat>)
    requires |budgets| == |lengths| && Increasing(pending) && Indices(pending, |lengths|) && remainder <= |pending|
    requires forall k | 0 <= k < |pending| :: budgets[pending[k]] == 0
    ensures |given| == |lengths|
    ensures forall k | 0 <= k < |pending| :: given[pending[k]] == share + if k < remainder then 1 else 0
    ensures forall i | 0 <= i < |lengths| && i !in pending :: given[i] == budgets[i]
    ensures Sum(given) == Sum(budgets) + share * |pending| + remainder
  {
    given := budgets;
    for k := 0 to |pending|
      invariant |given| == |lengths|
      invariant forall j | 0 <= j < k :: given[pending[j]] == share + if j < remainder then 1 else 0
      invariant forall j | k <= j < |pending| :: given[pending[j]] == 0
      invariant forall i | 0 <= i < |lengths| && i !in pending :: given[i] == budgets[i]
      invariant Sum(given) == Sum(budgets) + share * k + Min(k, remainder)
    {
      var value := share + if k < remainder then 1 else 0;
      SumUpdate(given, pending[k], value);
      SplitShare(share, k, 1);
      given := given[pending[k] := value];
    }
  }

  /** The last round, in which everyone still waiting is cut short, gives the fair allocation. */
  lemma LastRoundFair(lengths: seq<nat>, total: nat, budgets: seq<nat>, pending: seq<nat>, share: nat, remainder: nat)
    requires |budgets| == |lengths| && Increasing(pending) && Indices(pending, |lengths|) && remainder < |pending|
    requires forall k | 0 <= k < |pending| :: share < lengths[pending[k]]
    requires forall k | 0 <= k < |pending| :: budgets[pending[k]] == share + if k < remainder then 1 else 0
    requires forall i | 0 <= i < |lengths| && i !in pending :: budgets[i] == lengths[i] <= share
    requires Sum(budgets) == total
    ensures MaxMinFair(lengths, total, budgets)
  {
    forall i | 0 <= i < |lengths|
      ensures budgets[i] <= lengths[i] && budgets[i] <= share + 1 && (budgets[i] < lengths[i] ==> i in pending)
    {
      if i in pending { var k :| 0 <= k < |pending| && pending[k] == i; }
    }
    SumMonotone(budgets, lengths);
    forall i, j | 0 <= i < j < |lengths| && budgets[i] < lengths[i] ensures budgets[j] <= budgets[i] {
      var k :| 0 <= k < |pending| && pending[k] == i;
      if j in pending {
        var m :| 0 <= m < |pending| && pending[m] == j;
      }
    }
    forall i, j | 0 <= j < i < |lengths| && budgets[i] < lengths[i] ensures budgets[j] <= budgets[i] + 1 {
      var k :| 0 <= k < |pending| && pending[k] == i;
    }
  }

  /**
   Where a round stands: everyone no longer waiting has its whole length, which no share so
   far was below; everyone waiting has nothing yet and, after the first round, asks for more
   than the last share; and the last share is still there for each of them.
   */
  ghost predicate Round(lengths: seq<nat>, total: nat, budgets: seq<nat>, pending: seq<nat>,
                        remaining: nat, share: nat)
  {
    && |budgets| == |lengths| && Increasing(pending) && Indices(pending, |lengths|)
    && (forall i | 0 <= i < |lengths| && i !in pending :: budgets[i] == lengths[i] <= share)
    && (forall k | 0 <= k < |pending| :: budgets[pending[k]] == 0)
    && Sum(budgets) + remaining == total
    && share * |pending| <= remaining
  }

  function Zeros(n: nat): seq<nat> {
    seq(n, _ => 0)
  }

  function AllIndices(n: nat): (r: seq<nat>)
    ensures Indices(r, n)
  {
    seq(n, i requires 0 <= i => i)
  }

  lemma FirstRound(lengths: seq<nat>, total: nat)
    ensures Round(lengths, total, Zeros(|lengths|), AllIndices(|lengths|), total, 0)
    ensures AtRound(lengths, Shares(lengths, AllIndices(|lengths|), total), 0, AllIndices(|lengths|), total)
  {
    hide Shares;
    SumZeros(|lengths|);
    var pending := AllIndices(|lengths|);
    forall i | 0 <= i < |lengths| ensures i in pending { assert pending[i] == i; }
  }

  /** Handing out the satisfied lengths leads from one round to the next. */
  lemma NextRound(lengths: seq<nat>, total: nat, budgets: seq<nat>, pending: seq<nat>, remaining: nat, last: nat,
                  share: nat, given: seq<nat>, left: nat)
    requires Round(lengths, total, budgets, pending, remaining, last) && last <= share
    requires |given| == |lengths|
    requires var satisfied := Satisfied(pending, lengths, share);
             && (forall i | 0 <= i < |lengths| :: given[i] == if i in satisfied then lengths[i] else budgets[i])
             && Sum(given) + left == total
             && share * |Unsatisfied(pending, lengths, share)| <= left
    ensures Round(lengths, total, given, Unsatisfied(pending, lengths, share), left, share)
  {
    var satisfied := Satisfied(pending, lengths, share);
    var unsatisfied := Unsatisfied(pending, lengths, share);
    FiltersIncrease(pending, lengths, share);
    forall i | 0 <= i < |lengths| && i !in unsatisfied ensures given[i] == lengths[i] <= share {
      if i in pending { assert i in satisfied; }
    }
    forall k | 0 <= k < |unsatisfied| ensures given[unsatisfied[k]] == 0 {
      assert unsatisfied[k] in unsatisfied;
    }
  }

  method SatisfyRound(lengths: seq<nat>, ghost total: nat, budgets: seq<nat>, pending: seq<nat>, remaining: nat,
                      ghost last: nat, share: nat)
    returns (given: seq<nat>, left: nat)
    requires Round(lengths, total, budgets, pending, remaining, last)
    requires last <= share && Splits(remaining, |pending|, share)
    ensures Round(lengths, total, given, Unsatisfied(pending, lengths, share), left, share)
    ensures left == remaining - Asked(lengths, Satisfied(pending, lengths, share))
  {
    var satisfied := Satisfied(pending, lengths, share);
    FiltersIncrease(pending, lengths, share);
    forall k | 0 <= k < |satisfied| ensures budgets[satisfied[k]] == 0 { assert satisfied[k] in satisfied; }
    RoundPaid(lengths, pending, remaining, share);
    given, left := GiveWhole(lengths, satisfied, budgets, remaining);
    NextRound(lengths, total, budgets, pending, remaining, last, share, given, left);
  }

  /** The round in which everyone still waiting is cut short. */
  method ShareOut(lengths: seq<nat>, ghost total: nat, budgets: seq<nat>, pending: seq<nat>, remaining: nat,
                  ghost last: nat, share: nat)
    returns (given: seq<nat>)
    requires Round(lengths, total, budgets, pending, remaining, last) && last <= share
    requires Splits(remaining, |pending|, share)
    requires Satisfied(pending, lengths, share) == []
    ensures MaxMinFair(lengths, total, given)
  {
    forall k | 0 <= k < |pending| ensures share < lengths[pending[k]] {
      assert pending[k] in pending && pending[k] !in Satisfied(pending, lengths, share);
    }
    hide Satisfied, MaxMinFair;
    given := GiveShares(lengths, pending, budgets, share, remaining - share * |pending|);
    LastRoundFair(lengths, total, given, pending, share, remaining - share * |pending|);
  }

  /** A round that satisfies someone: those get their whole length and leave. */
  method PlayRound(lengths: seq<nat>, ghost total: nat, budgets: seq<nat>, pending: seq<nat>, remaining: nat,
                   ghost last: nat, ghost shares: seq<nat>, ghost round: nat, share: nat)
    returns (given: seq<nat>, left: nat, rest: seq<nat>)
    requires Round(lengths, total, budgets, pending, remaining, last) && AtRound(lengths, shares, round, pending, remaining)
    requires pending != [] && share == EqualShare(remaining, |pending|) && Satisfied(pending, lengths, share) != []
    ensures Round(lengths, total, given, rest, left, share) && AtRound(lengths, shares, round + 1, rest, left)
    ensures |rest| < |pending|
  {
    hide EqualShare, Satisfied, Unsatisfied, Asked, Round, Splits, AtRound, Shares;
    NextShare(lengths, total, budgets, pending, remaining, last);
    RoundOver(lengths, shares, round, pending, remaining);
    given, left := SatisfyRound(lengths, total, budgets, pending, remaining, last, share);
    rest := Unsatisfied(pending, lengths, share);
  }

  /** allocateByteBudgets: rounds of equal shares; whoever fits its share leaves, the rest is shared again. */
  method AllocateByteBudgets(byteLengths: seq<nat>, totalBudget: int) returns (budgets: seq<nat>)
    ensures MaxMinFair(byteLengths, Max(0, totalBudget), budgets)
  {
    budgets := Zeros(|byteLengths|);
    var remaining: nat := Max(0, totalBudget);
    var pending := AllIndices(|byteLengths|);
    ghost var total, last: nat := remaining, 0;
    FirstRound(byteLengths, total);
    hide EqualShare, Satisfied, MaxMinFair, Indices, Round, Splits, AtRound, Shares, AllIndices, Zeros;
    ghost var shares, round := Shares(byteLengths, pending, remaining), 0;

    while |pending| > 0
      invariant Round(byteLengths, total, budgets, pending, remaining, last)
      invariant AtRound(byteLengths, shares, round, pending, remaining)
      decreases |pending|
    {
      var share := EqualShare(remaining, |pending|);
      NextShare(byteLengths, total, budgets, pending, remaining, last);
      var satisfied := Satisfied(pending, byteLengths, share);
      if |satisfied| == 0 {
        budgets := ShareOut(byteLengths, total, budgets, pending, remaining, last, share);
        return;
      }
      budgets, remaining, pending :=
        PlayRound(byteLengths, total, budgets, pending, remaining, last, shares, round, share);
      last, round := share, round + 1;
    }
    AllWhole(byteLengths, total, budgets, remaining, last);
  }

  lemma NextShare(lengths: seq<nat>, total: nat, budgets: seq<nat>, pending: seq<nat>, remaining: nat, last: nat)
    requires Round(lengths, total, budgets, pending, remaining, last) && pending != []
    ensures var share := EqualShare(remaining, |pending|);
            last <= share && Splits(remaining, |pending|, share) && Indices(pending, |lengths|)
  {
    ShareGrows(last, |pending|, remaining);
  }

  /** With nobody waiting everyone has the whole length. */
  lemma AllWhole(lengths: seq<nat>, total: nat, budgets: seq<nat>, remaining: nat, last: nat)
    requires Round(lengths, total, budgets, [], remaining, last)
    ensures MaxMinFair(lengths, total, budgets)
  {
    assert budgets == lengths;
  }
}
