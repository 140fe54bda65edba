/** At most two utility-ranked promotions over the first-fit baseline, each paid for by evictions. */
module BoundedSelection {
  import opened Prelude
  import opened Sorting
  import opened Packing

  const PROTECTED_RANK: nat := 20
  const MAX_PROMOTIONS: nat := 2
  const MAX_PROMOTED_TOKENS: nat := 800

  /** `utility(rank, chosen)` scores a record against whatever is chosen beside it. */
  datatype Policy = Policy(records: seq<Record>, count: Counter, budget: int, baseline: set<nat>,
                           utility: (nat, set<nat>) -> real)

  function Tokens(p: Policy, chosen: set<nat>): nat {
    p.count(Pick(p.records, chosen))
  }

  function BaseUtility(p: Policy, i: nat): real {
    p.utility(i, p.baseline - {i})
  }

  function Ids(indices: seq<nat>): set<nat> {
    set i | i in indices
  }

  function Exposure(p: Policy, chosen: set<nat>, promotions: seq<nat>): nat {
    var with, without := Tokens(p, chosen), Tokens(p, chosen - Ids(promotions));
    if with > without then with - without else 0
  }

  /** What the promoted records add to the tokens of the whole choice; nothing if they make it shorter. */
  lemma ExposureMeans(p: Policy, chosen: set<nat>, promotions: seq<nat>, others: set<nat>)
    requires forall i :: i in others <==> i in chosen && i !in promotions
    ensures p.count(Pick(p.records, chosen)) <= p.count(Pick(p.records, others)) ==> Exposure(p, chosen, promotions) == 0
    ensures p.count(Pick(p.records, chosen)) >= p.count(Pick(p.records, others)) ==>
              p.count(Pick(p.records, others)) + Exposure(p, chosen, promotions) == p.count(Pick(p.records, chosen))
  {
    assert others == chosen - Ids(promotions);
  }

  // -------------------------------------------------------------------------------- evictions

  predicate Removable(p: Policy, chosen: set<nat>, utility: real, i: nat) {
    i in p.baseline && i in chosen && i + 1 > PROTECTED_RANK && BaseUtility(p, i) < utility
  }

  /** Least useful first; among equals the worst rank first. */
  function RemovalOrder(p: Policy): (nat, nat) -> bool {
    (i: nat, j: nat) => BaseUtility(p, i) < BaseUtility(p, j) || (BaseUtility(p, i) == BaseUtility(p, j) && i > j)
  }

  ghost predicate IsRemovable(p: Policy, chosen: set<nat>, utility: real, r: seq<nat>) {
    Sorted(RemovalOrder(p), r) && forall i: nat :: i in r <==> Removable(p, chosen, utility, i)
  }

  /** From rank 21 on, a baseline record still chosen can go when it is worth less beside the others than the candidate. */
  lemma RemovableIff(p: Policy, chosen: set<nat>, utility: real, i: nat, others: set<nat>)
    requires i !in others && others + {i} == p.baseline
    ensures Removable(p, chosen, utility, i) <==> i in chosen && i >= 20 && p.utility(i, others) < utility
  {
    assert p.baseline - {i} == others;
  }

  function Evicting(chosen: set<nat>, candidate: nat, removable: seq<nat>, n: nat): set<nat>
    requires n <= |removable|
  {
    (chosen - Ids(removable[..n])) + {candidate}
  }

  predicate Fits(p: Policy, chosen: set<nat>, candidate: nat, removable: seq<nat>, n: nat)
    requires n <= |removable|
  {
    Tokens(p, Evicting(chosen, candidate, removable, n)) <= p.budget
  }

  /** The binary search between a low end and a high end. */
  function Search(p: Policy, chosen: set<nat>, candidate: nat, removable: seq<nat>, low: nat, high: nat): nat
    requires low <= high <= |removable|
    decreases high - low
  {
    if low == high then low
    else
      var middle := (low + high) / 2;
      if Fits(p, chosen, candidate, removable, middle)
      then Search(p, chosen, candidate, removable, low, middle)
      else Search(p, chosen, candidate, removable, middle + 1, high)
  }

  function Eviction(p: Policy, chosen: set<nat>, candidate: nat, removable: seq<nat>): (n: Option<nat>)
    ensures n.Some? ==> n.value <= |removable|
  {
    if Fits(p, chosen, candidate, removable, 0) then Some(0)
    else if removable == [] || !Fits(p, chosen, candidate, removable, |removable|) then None
    else
      SearchStays(p, chosen, candidate, removable, 1, |removable|);
      Some(Search(p, chosen, candidate, removable, 1, |removable|))
  }

  lemma {:induction false} SearchStays(p: Policy, chosen: set<nat>, candidate: nat, removable: seq<nat>, low: nat, high: nat)
    requires low <= high <= |removable|
    ensures low <= Search(p, chosen, candidate, removable, low, high) <= high
    decreases high - low
  {
    if low < high {
      var middle := (low + high) / 2;
      if Fits(p, chosen, candidate, removable, middle) {
        SearchStays(p, chosen, candidate, removable, low, middle);
      } else {
        SearchStays(p, chosen, candidate, removable, middle + 1, high);
      }
    }
  }

  lemma {:induction false} SearchFits(p: Policy, chosen: set<nat>, candidate: nat, removable: seq<nat>, low: nat, high: nat)
    requires low <= high <= |removable| && Fits(p, chosen, candidate, removable, high)
    ensures low <= Search(p, chosen, candidate, removable, low, high) <= high
    ensures Fits(p, chosen, candidate, removable, Search(p, chosen, candidate, removable, low, high))
    decreases high - low
  {
    if low < high {
      var middle := (low + high) / 2;
      if Fits(p, chosen, candidate, removable, middle) {
        SearchFits(p, chosen, candidate, removable, low, middle);
      } else {
        SearchFits(p, chosen, candidate, removable, middle + 1, high);
      }
    }
  }

  /** With a monotone counter, removing more never makes a fitting choice stop fitting. */
  lemma FitsIsMonotone(p: Policy, chosen: set<nat>, candidate: nat, removable: seq<nat>, m: nat, n: nat)
    requires Monotone(p.count, p.records) && m <= n <= |removable|
    ensures Fits(p, chosen, candidate, removable, m) ==> Fits(p, chosen, candidate, removable, n)
  {
    assert Evicting(chosen, candidate, removable, n) <= Evicting(chosen, candidate, removable, m) by {
      assert forall i :: i in removable[..m] ==> i in removable[..n];
    }
  }

  lemma {:induction false} SearchIsLeast(p: Policy, chosen: set<nat>, candidate: nat, removable: seq<nat>, low: nat, high: nat, n: nat)
    requires Monotone(p.count, p.records) && low <= high <= |removable|
    requires low <= n < Search(p, chosen, candidate, removable, low, high)
    ensures n < |removable| && !Fits(p, chosen, candidate, removable, n)
    decreases high - low
  {
    SearchStays(p, chosen, candidate, removable, low, high);
    if low < high {
      var middle := (low + high) / 2;
      if Fits(p, chosen, candidate, removable, middle) {
        SearchIsLeast(p, chosen, candidate, removable, low, middle, n);
      } else if n > middle {
        SearchIsLeast(p, chosen, candidate, removable, middle + 1, high, n);
      } else {
        FitsIsMonotone(p, chosen, candidate, removable, n, middle);
      }
    }
  }

  /** For any counter, evicting the returned prefix makes the candidate fit. */
  lemma EvictionFits(p: Policy, chosen: set<nat>, candidate: nat, removable: seq<nat>)
    ensures var n := Eviction(p, chosen, candidate, removable);
            n.Some? ==> n.value <= |removable| && Fits(p, chosen, candidate, removable, n.value)
  {
    if !Fits(p, chosen, candidate, removable, 0) && removable != [] && Fits(p, chosen, candidate, removable, |removable|) {
      SearchFits(p, chosen, candidate, removable, 1, |removable|);
    }
  }

  /** For a counter that never grows when records go, the prefix is the shortest that fits, and none means none does. */
  lemma EvictionIsShortest(p: Policy, chosen: set<nat>, candidate: nat, removable: seq<nat>, m: nat)
    requires Monotone(p.count, p.records) && m <= |removable|
    ensures match Eviction(p, chosen, candidate, removable)
            case None => !Fits(p, chosen, candidate, removable, m)
            case Some(n) => Fits(p, chosen, candidate, removable, m) <==> n <= m
  {
    EvictionFits(p, chosen, candidate, removable);
    match Eviction(p, chosen, candidate, removable)
    case None => FitsIsMonotone(p, chosen, candidate, removable, m, |removable|);
    case Some(n) =>
      if n <= m {
        FitsIsMonotone(p, chosen, candidate, removable, n, m);
      } else if m == 0 {
      } else {
        SearchIsLeast(p, chosen, candidate, removable, 1, |removable|, m);
      }
  }

  // ------------------------------------------------------------------------------- promotions

  /** What trying a candidate would evict, or `None` if it is turned down. */
  function Attempt(p: Policy, chosen: set<nat>, promotions: seq<nat>, candidate: nat, removable: seq<nat>): Option<seq<nat>> {
    match Eviction(p, chosen, candidate, removable)
    case None => None
    case Some(n) =>
      if Exposure(p, Evicting(chosen, candidate, removable, n), promotions + [candidate]) > MAX_PROMOTED_TOKENS
      then None else Some(removable[..n])
  }

  ghost predicate Accepts(p: Policy, chosen: set<nat>, promotions: seq<nat>, candidate: nat, removed: seq<nat>) {
    exists r :: IsRemovable(p, chosen, p.utility(candidate, chosen), r) && Attempt(p, chosen, promotions, candidate, r) == Some(removed)
  }

  ghost predicate TurnsDown(p: Policy, chosen: set<nat>, promotions: seq<nat>, candidate: nat) {
    exists r :: IsRemovable(p, chosen, p.utility(candidate, chosen), r) && Attempt(p, chosen, promotions, candidate, r) == None
  }

  /** The removable list is determined, so a candidate is never both accepted and turned down. */
  lemma AttemptIsDetermined(p: Policy, chosen: set<nat>, promotions: seq<nat>, candidate: nat, removed: seq<nat>)
    requires Accepts(p, chosen, promotions, candidate, removed)
    ensures !TurnsDown(p, chosen, promotions, candidate)
    ensures forall other :: Accepts(p, chosen, promotions, candidate, other) ==> other == removed
  {
    var u := p.utility(candidate, chosen);
    var r :| IsRemovable(p, chosen, u, r) && Attempt(p, chosen, promotions, candidate, r) == Some(removed);
    forall r' | IsRemovable(p, chosen, u, r') ensures r' == r {
      SortedIsUnique(RemovalOrder(p), r, r');
    }
  }

  /** Higher utility first; among equals the better rank first. */
  function RankOrder(p: Policy, chosen: set<nat>): (nat, nat) -> bool {
    (i: nat, j: nat) => p.utility(i, chosen) > p.utility(j, chosen) || (p.utility(i, chosen) == p.utility(j, chosen) && i < j)
  }

  datatype Round = Round(candidate: nat, removed: seq<nat>)

  function Promotions(rounds: seq<Round>): seq<nat> {
    if rounds == [] then [] else Promotions(rounds[..|rounds| - 1]) + [rounds[|rounds| - 1].candidate]
  }

  function Evicted(rounds: seq<Round>): seq<nat> {
    if rounds == [] then [] else Evicted(rounds[..|rounds| - 1]) + rounds[|rounds| - 1].removed
  }

  function Chosen(p: Policy, rounds: seq<Round>): set<nat> {
    if rounds == [] then p.baseline
    else (Chosen(p, rounds[..|rounds| - 1]) - Ids(rounds[|rounds| - 1].removed)) + {rounds[|rounds| - 1].candidate}
  }

  predicate Outsider(p: Policy, promotions: seq<nat>, i: nat) {
    i < |p.records| && i !in p.baseline && i !in promotions
  }

  /** Each round promotes the best-ranked outsider that is not turned down. */
  ghost predicate RoundOk(p: Policy, before: seq<Round>, round: Round) {
    var chosen, promotions := Chosen(p, before), Promotions(before);
    && Outsider(p, promotions, round.candidate)
    && Accepts(p, chosen, promotions, round.candidate, round.removed)
    && forall o: nat :: Outsider(p, promotions, o) && RankOrder(p, chosen)(o, round.candidate) ==> TurnsDown(p, chosen, promotions, o)
  }

  ghost predicate RoundsOk(p: Policy, rounds: seq<Round>) {
    rounds == [] || (RoundsOk(p, rounds[..|rounds| - 1]) && RoundOk(p, rounds[..|rounds| - 1], rounds[|rounds| - 1]))
  }

  /** Rounds can only end early when every remaining outsider is turned down. */
  ghost predicate Finished(p: Policy, rounds: seq<Round>) {
    |rounds| >= MAX_PROMOTIONS ||
    forall o: nat :: Outsider(p, Promotions(rounds), o) ==> TurnsDown(p, Chosen(p, rounds), Promotions(rounds), o)
  }

  /** Whatever is not in the baseline can be promoted, once; rounds end after two, or when nothing more is accepted. */
  lemma FinishedIff(p: Policy, rounds: seq<Round>)
    ensures forall i: nat :: Outsider(p, Promotions(rounds), i) <==>
              i < |p.records| && i !in p.baseline && forall k :: 0 <= k < |rounds| ==> rounds[k].candidate != i
    ensures Finished(p, rounds) <==>
              |rounds| > 1 || forall o: nat :: o < |p.records| && o !in p.baseline && o !in Promotions(rounds) ==>
                                TurnsDown(p, Chosen(p, rounds), Promotions(rounds), o)
  {
    PromotionsAre(rounds);
  }

  lemma {:induction false} PromotionsAre(rounds: seq<Round>)
    ensures forall i :: i in Promotions(rounds) <==> exists k :: 0 <= k < |rounds| && rounds[k].candidate == i
  {
    if rounds != [] {
      var n := |rounds| - 1;
      PromotionsAre(rounds[..n]);
      assert forall k :: 0 <= k < n ==> rounds[..n][k] == rounds[k];
    }
  }

  ghost predicate BaselineOk(p: Policy) {
    (forall i :: i in p.baseline ==> i < |p.records|) && Tokens(p, p.baseline) <= p.budget
  }

  /** What every promotion run keeps. */
  ghost predicate RunOk(p: Policy, chosen: set<nat>, promotions: seq<nat>, evicted: seq<nat>) {
    && chosen == (p.baseline - Ids(evicted)) + Ids(promotions)
    && (forall i :: i in chosen ==> i < |p.records|)
    && Tokens(p, chosen) <= p.budget
    && NoDup(promotions) && (forall i :: i in promotions ==> i !in p.baseline)
    && NoDup(evicted) && (forall i :: i in evicted ==> i in p.baseline && i + 1 > PROTECTED_RANK)
    && Exposure(p, chosen, promotions) <= MAX_PROMOTED_TOKENS
  }

  /**
   * Over every promotion run: the selection is the baseline without the evicted and with the promoted,
   * it fits the budget, promotions come from outside the baseline, protected ranks and promoted records
   * are never evicted, and the exposure stays within its limit.
   */
  lemma {:induction false} PromotionRun(p: Policy, rounds: seq<Round>)
    requires BaselineOk(p) && RoundsOk(p, rounds)
    ensures RunOk(p, Chosen(p, rounds), Promotions(rounds), Evicted(rounds))
    ensures |Promotions(rounds)| == |rounds|
    decreases |rounds|
  {
    if rounds == [] {
      assert p.baseline - Ids([]) == p.baseline;
    } else {
      var before, round := rounds[..|rounds| - 1], rounds[|rounds| - 1];
      PromotionRun(p, before);
      RoundKeepsRunOk(p, Chosen(p, before), Promotions(before), Evicted(before), round);
    }
  }

  lemma RoundKeepsRunOk(p: Policy, chosen: set<nat>, promotions: seq<nat>, evicted: seq<nat>, round: Round)
    requires RunOk(p, chosen, promotions, evicted)
    requires Outsider(p, promotions, round.candidate)
    requires Accepts(p, chosen, promotions, round.candidate, round.removed)
    ensures RunOk(p, (chosen - Ids(round.removed)) + {round.candidate}, promotions + [round.candidate], evicted + round.removed)
  {
    RoundFacts(p, chosen, promotions, round);
    SetsAddUp(p.baseline, chosen, promotions, evicted, round);
    DistinctConcat(evicted, round.removed);
    assert forall i :: i in evicted + round.removed <==> i in evicted || i in round.removed;
    assert forall i :: i in promotions + [round.candidate] <==> i in promotions || i == round.candidate;
    DistinctConcat(promotions, [round.candidate]);
  }

  lemma SetsAddUp(baseline: set<nat>, chosen: set<nat>, promotions: seq<nat>, evicted: seq<nat>, round: Round)
    requires chosen == (baseline - Ids(evicted)) + Ids(promotions)
    requires forall i :: i in promotions ==> i !in baseline
    requires forall i :: i in round.removed ==> i in baseline && i in chosen
    requires round.candidate !in baseline
    ensures (chosen - Ids(round.removed)) + {round.candidate} ==
            (baseline - Ids(evicted + round.removed)) + Ids(promotions + [round.candidate])
    ensures forall i :: i in round.removed ==> i !in evicted
  {
    assert Ids(promotions + [round.candidate]) == Ids(promotions) + {round.candidate};
    assert Ids(evicted + round.removed) == Ids(evicted) + Ids(round.removed);
  }

  lemma DistinctConcat(a: seq<nat>, b: seq<nat>)
    requires NoDup(a) && NoDup(b) && forall i :: i in b ==> i !in a
    ensures NoDup(a + b)
  {
    forall i, j | 0 <= i < j < |a + b| ensures (a + b)[i] != (a + b)[j] {
      if i < |a| <= j { assert (a + b)[j] in b; }
    }
  }

  lemma RoundFacts(p: Policy, chosen: set<nat>, promotions: seq<nat>, round: Round)
    requires Accepts(p, chosen, promotions, round.candidate, round.removed)
    ensures var chosen' := (chosen - Ids(round.removed)) + {round.candidate};
            && Tokens(p, chosen') <= p.budget
            && Exposure(p, chosen', promotions + [round.candidate]) <= MAX_PROMOTED_TOKENS
    ensures NoDup(round.removed)
    ensures forall i :: i in round.removed ==> Removable(p, chosen, p.utility(round.candidate, chosen), i)
  {
    var r :| IsRemovable(p, chosen, p.utility(round.candidate, chosen), r) &&
             Attempt(p, chosen, promotions, round.candidate, r) == Some(round.removed);
    EvictionFits(p, chosen, round.candidate, r);
    var n := Eviction(p, chosen, round.candidate, r).value;
    assert round.removed == r[..n];
    forall i, j | 0 <= i < j < n ensures r[i] != r[j] {
      assert RemovalOrder(p)(r[i], r[j]);
    }
    forall i | i in round.removed ensures Removable(p, chosen, p.utility(round.candidate, chosen), i) {
      assert i in r;
    }
  }

  /** Over every promotion run, what is promoted makes the rendered context at most 800 tokens longer. */
  lemma PromotedTokensAreBounded(p: Policy, rounds: seq<Round>)
    requires BaselineOk(p) && RoundsOk(p, rounds)
    ensures var chosen, promoted := Chosen(p, rounds), set i | i in Promotions(rounds);
            p.count(Pick(p.records, chosen)) <= p.count(Pick(p.records, chosen - promoted)) + 800
  {
    PromotionRun(p, rounds);
    assert Ids(Promotions(rounds)) == set i | i in Promotions(rounds);
  }

  /** The selection as a candidate and an eviction prefix would make it. */
  function Trial(chosen: set<nat>, candidate: nat, evicted: seq<nat>): set<nat> {
    (chosen - set i | i in evicted) + {candidate}
  }

  /**
   * A candidate is turned down exactly if no prefix searched fits, or if with the eviction found the promoted
   * records would make the context more than 800 tokens longer.
   */
  lemma TurnedDownIff(p: Policy, chosen: set<nat>, promotions: seq<nat>, candidate: nat, removable: seq<nat>)
    ensures var n := Eviction(p, chosen, candidate, removable);
            Attempt(p, chosen, promotions, candidate, removable) == None <==>
            n == None ||
            var trial := Trial(chosen, candidate, removable[..n.value]);
            p.count(Pick(p.records, trial)) >
              p.count(Pick(p.records, trial - set i | i in promotions + [candidate])) + 800
    ensures var n := Eviction(p, chosen, candidate, removable);
            && (n == None ==> p.count(Pick(p.records, Trial(chosen, candidate, []))) > p.budget)
            && (n.Some? ==> n.value <= |removable| &&
                            p.count(Pick(p.records, Trial(chosen, candidate, removable[..n.value]))) <= p.budget)
  {
    EvictionFits(p, chosen, candidate, removable);
    var n := Eviction(p, chosen, candidate, removable);
    assert removable[..0] == [];
    assert Evicting(chosen, candidate, removable, 0) == Trial(chosen, candidate, []);
    if n.Some? {
      assert Evicting(chosen, candidate, removable, n.value) == Trial(chosen, candidate, removable[..n.value]);
      assert Ids(promotions + [candidate]) == set i | i in promotions + [candidate];
    }
  }

  /** Evicted records are the least useful removable ones: none that is kept is less useful, or as useful and worse ranked. */
  lemma EvictsTheLeastUseful(p: Policy, chosen: set<nat>, utility: real, removable: seq<nat>, n: nat, e: nat, k: nat)
    requires IsRemovable(p, chosen, utility, removable) && n <= |removable|
    requires e in removable[..n] && k in removable[n..]
    ensures BaseUtility(p, e) < BaseUtility(p, k) || (BaseUtility(p, e) == BaseUtility(p, k) && e > k)
  {
    var i :| 0 <= i < n && removable[..n][i] == e;
    var j :| 0 <= j < |removable| - n && removable[n..][j] == k;
    assert RemovalOrder(p)(removable[i], removable[n + j]);
  }

  /** A promoted record is the most useful outsider that is not turned down; among equals it has the best rank. */
  lemma PromotesTheMostUseful(p: Policy, rounds: seq<Round>, o: nat)
    requires rounds != [] && RoundsOk(p, rounds)
    requires var before := rounds[..|rounds| - 1]; Outsider(p, Promotions(before), o)
    ensures var before, candidate := rounds[..|rounds| - 1], rounds[|rounds| - 1].candidate;
            var chosen := Chosen(p, before);
            (p.utility(o, chosen) > p.utility(candidate, chosen) ||
             (p.utility(o, chosen) == p.utility(candidate, chosen) && o < candidate)) ==>
              TurnsDown(p, chosen, Promotions(before), o)
  {
    var before, candidate := rounds[..|rounds| - 1], rounds[|rounds| - 1].candidate;
    assert RoundOk(p, before, rounds[|rounds| - 1]);
  }

  /** Every record is evicted by a candidate of higher utility, as judged when it was evicted. */
  lemma {:induction false} EvictedByBetter(p: Policy, rounds: seq<Round>, k: nat, e: nat)
    requires RoundsOk(p, rounds) && k < |rounds| && e in rounds[k].removed
    ensures BaseUtility(p, e) < p.utility(rounds[k].candidate, Chosen(p, rounds[..k]))
    decreases |rounds|
  {
    var before := rounds[..|rounds| - 1];
    if k == |rounds| - 1 {
      RoundFacts(p, Chosen(p, before), Promotions(before), rounds[k]);
    } else {
      assert before[..k] == rounds[..k];
      EvictedByBetter(p, before, k, e);
    }
  }

  /** With a monotone counter, finishing a promotion run cannot raise. */
  lemma PromotionRunFinishes(p: Policy, rounds: seq<Round>)
    requires BaselineOk(p) && RoundsOk(p, rounds) && Monotone(p.count, p.records)
    requires p.budget > 0 && RecordsOk(p.records) && p.count([]) <= p.budget
    ensures FinishSpec(p.count, p.records, Chosen(p, rounds), p.budget).Ok?
  {
    PromotionRun(p, rounds);
    FinishSucceedsIfMonotone(p.count, p.records, Chosen(p, rounds), p.budget);
  }

  // ------------------------------------------------------------------------------ the program

  class Selection {
    const p: Policy
    var chosen: set<nat>
    var promotions: seq<nat>
    var evicted: seq<nat>
    ghost var rounds: seq<Round>

    ghost predicate Valid()
      reads this
    {
      && RoundsOk(p, rounds)
      && chosen == Chosen(p, rounds) && promotions == Promotions(rounds) && evicted == Evicted(rounds)
    }

    constructor (p: Policy)
      ensures this.p == p && Valid() && rounds == []
    {
      this.p := p;
      this.chosen, this.promotions, this.evicted, this.rounds := p.baseline, [], [], [];
    }

    method SmallestFittingEviction(candidate: nat, removable: seq<nat>) returns (removed: Option<seq<nat>>)
      ensures removed == match Eviction(p, chosen, candidate, removable) case None => None case Some(n) => Some(removable[..n])
    {
      if Fits(p, chosen, candidate, removable, 0) {
        return Some([]);
      }
      if removable == [] || !Fits(p, chosen, candidate, removable, |removable|) {
        return None;
      }
      var low, high := 1, |removable|;
      while low < high
        invariant 1 <= low <= high <= |removable|
        invariant Search(p, chosen, candidate, removable, low, high) == Search(p, chosen, candidate, removable, 1, |removable|)
      {
        var middle := (low + high) / 2;
        if Fits(p, chosen, candidate, removable, middle) {
          high := middle;
        } else {
          low := middle + 1;
        }
      }
      return Some(removable[..low]);
    }

    method RemovableList(utility: real) returns (r: seq<nat>)
      requires forall i :: i in chosen ==> i < |p.records|
      ensures IsRemovable(p, chosen, utility, r)
    {
      var eligible: seq<nat> := [];
      for i := 0 to |p.records|
        invariant forall j: nat :: j in eligible <==> j < i && Removable(p, chosen, utility, j)
        invariant NoDup(eligible)
      {
        if Removable(p, chosen, utility, i) {
          eligible := eligible + [i];
        }
      }
      r := Sort(RemovalOrder(p), eligible);
    }

    /** Accept a candidate or leave everything as it was. */
    method TryCandidate(candidate: nat) returns (ok: bool)
      requires Valid() && BaselineOk(p) && Outsider(p, promotions, candidate)
      requires forall o: nat :: Outsider(p, promotions, o) && RankOrder(p, chosen)(o, candidate) ==>
                 TurnsDown(p, chosen, promotions, o)
      modifies this
      ensures Valid()
      ensures !ok ==>
                && rounds == old(rounds) && chosen == old(chosen) && promotions == old(promotions) && evicted == old(evicted)
                && TurnsDown(p, chosen, promotions, candidate)
      ensures ok ==> |rounds| == |old(rounds)| + 1 && old(rounds) <= rounds && promotions == old(promotions) + [candidate]
    {
      PromotionRun(p, rounds);
      var removable := RemovableList(p.utility(candidate, chosen));
      var removed := SmallestFittingEviction(candidate, removable);
      if removed.None? {
        return false;
      }
      var tentative := (chosen - Ids(removed.value)) + {candidate};
      if Exposure(p, tentative, promotions + [candidate]) > MAX_PROMOTED_TOKENS {
        return false;
      }
      ghost var round := Round(candidate, removed.value);
      assert Accepts(p, chosen, promotions, candidate, removed.value);
      assert (rounds + [round])[..|rounds|] == rounds;
      chosen, promotions, evicted := tentative, promotions + [candidate], evicted + removed.value;
      rounds := rounds + [round];
      return true;
    }

    method RankedOutsiders(outsiders: seq<nat>) returns (r: seq<nat>)
      requires NoDup(outsiders)
      ensures Sorted(RankOrder(p, chosen), r) && SameElements(r, outsiders)
    {
      r := Sort(RankOrder(p, chosen), outsiders);
    }

    method RunPromotions()
      requires Valid() && BaselineOk(p) && rounds == []
      modifies this
      ensures Valid() && |rounds| <= MAX_PROMOTIONS && Finished(p, rounds)
    {
      var outsiders: seq<nat> := [];
      for i := 0 to |p.records|
        invariant Valid() && rounds == []
        invariant forall j: nat :: j in outsiders <==> j < i && j !in p.baseline
        invariant NoDup(outsiders)
      {
        if i !in p.baseline {
          outsiders := outsiders + [i];
        }
      }
      while outsiders != [] && |promotions| < MAX_PROMOTIONS
        invariant Valid() && |rounds| == |promotions| <= MAX_PROMOTIONS
        invariant forall j: nat :: j in outsiders <==> Outsider(p, promotions, j)
        invariant NoDup(outsiders)
        decreases |outsiders|
      {
        var accepted := TryInOrder(outsiders);
        if accepted.None? {
          return;
        }
        outsiders := RemoveOne(outsiders, accepted.value);
      }
      assert outsiders == [] ==> forall j: nat :: j !in outsiders;
    }

    method TryInOrder(outsiders: seq<nat>) returns (accepted: Option<nat>)
      requires Valid() && BaselineOk(p) && |rounds| == |promotions|
      requires NoDup(outsiders) && forall j: nat :: j in outsiders <==> Outsider(p, promotions, j)
      modifies this
      ensures Valid() && |rounds| == |promotions|
      ensures accepted.None? ==> rounds == old(rounds) && promotions == old(promotions) && chosen == old(chosen)
      ensures accepted.None? ==> forall j: nat :: j in outsiders ==> TurnsDown(p, chosen, promotions, j)
      ensures accepted.Some? ==> accepted.value in outsiders && promotions == old(promotions) + [accepted.value]
    {
      var ranked := RankedOutsiders(outsiders);
      ghost var order := RankOrder(p, chosen);
      for k := 0 to |ranked|
        invariant Valid() && rounds == old(rounds) && promotions == old(promotions) && chosen == old(chosen)
        invariant forall i :: 0 <= i < k ==> TurnsDown(p, chosen, promotions, ranked[i])
      {
        forall o: nat | Outsider(p, promotions, o) && order(o, ranked[k]) ensures TurnsDown(p, chosen, promotions, o) {
          EarlierInOrder(order, ranked, k, o);
        }
        assert ranked[k] in outsiders;
        var ok := TryCandidate(ranked[k]);
        if ok {
          return Some(ranked[k]);
        }
      }
      return None;
    }
  }

  lemma {:induction false} ChosenArePicked(records: seq<Record>, chosen: set<nat>, n: nat, i: nat)
    requires i < n <= |records| && i in chosen
    ensures records[i] in PickUpTo(records, chosen, n)
  {
    if i < n - 1 { ChosenArePicked(records, chosen, n - 1, i); }
  }

  /** The baseline found by record id is the set of ranks first fit selected, and it fits. */
  lemma BaselineById(records: seq<Record>, count: Counter, budget: int)
    requires RecordsOk(records) && count([]) <= budget
    ensures var selected, fit := FirstFit(count, records, budget), FitSet(count, records, budget, |records|);
            && (forall i: nat :: i < |records| ==> (i in fit <==> HasId(selected, records[i].id)))
            && Pick(records, fit) == selected && count(Pick(records, fit)) <= budget
  {
    var selected, fit := FirstFit(count, records, budget), FitSet(count, records, budget, |records|);
    FitSetIsFirstFit(count, records, budget, |records|);
    assert records[..|records|] == records;
    PickedRecordsOk(records, fit, |records|);
    SelectionPrefixesFit(count, records, budget);
    assert selected[..|selected|] == selected;
    forall i: nat | i < |records| ensures i in fit <==> HasId(selected, records[i].id) {
      if i in fit {
        ChosenArePicked(records, fit, |records|, i);
      }
      if HasId(selected, records[i].id) {
        var j :| 0 <= j < |selected| && selected[j].id == records[i].id;
        assert selected[j] in selected;
        var k :| 0 <= k < |records| && k in fit && records[k] == selected[j];
        assert k == i;
      }
    }
  }

  predicate HasId(selected: seq<Record>, id: string) {
    exists j :: 0 <= j < |selected| && selected[j].id == id
  }

  method BaselineRanks(records: seq<Record>, count: Counter, budget: int, selected: seq<Record>) returns (base: set<nat>)
    requires RecordsOk(records) && count([]) <= budget && selected == FirstFit(count, records, budget)
    ensures base == FitSet(count, records, budget, |records|)
    ensures (forall i :: i in base ==> i < |records|) && count(Pick(records, base)) <= budget
  {
    BaselineById(records, count, budget);
    base := {};
    for i := 0 to |records|
      invariant forall j: nat :: j in base <==> j < i && HasId(selected, records[j].id)
    {
      if HasId(selected, records[i].id) {
        base := base + {i};
      }
    }
    assert forall i: nat :: i in FitSet(count, records, budget, |records|) ==> i < |records|;
    assert base == FitSet(count, records, budget, |records|);
  }

  /** The rounds of one selection: none when everything or nothing fits, otherwise a finished promotion run. */
  ghost predicate Selects(p: Policy, baseline: Packed, rounds: seq<Round>) {
    && BaselineOk(p) && RoundsOk(p, rounds) && |rounds| <= MAX_PROMOTIONS
    && (if baseline.dropped == [] || baseline.selected == [] then rounds == [] else Finished(p, rounds))
  }

  /** The whole selector: baseline, promotions, and the final repacking of what the rounds chose. */
  method SelectBounded(records: seq<Record>, count: Counter, budget: int, utility: (nat, set<nat>) -> real)
    returns (r: Result<Packed, Error>)
    ensures match PackSpec(count, records, budget)
            case Err(e) => r == Err(e)
            case Ok(baseline) =>
              var p := Policy(records, count, budget, FitSet(count, records, budget, |records|), utility);
              exists rounds :: Selects(p, baseline, rounds) && r == FinishSpec(count, records, Chosen(p, rounds), budget)
  {
    var packed := PackContext(count, records, budget);
    if packed.Err? {
      return packed;
    }
    var base := BaselineRanks(records, count, budget, packed.value.selected);
    var p := Policy(records, count, budget, base, utility);
    if packed.value.dropped == [] || packed.value.selected == [] {
      r := Finish(count, records, base, budget);
      assert Chosen(p, []) == base && Selects(p, packed.value, []);
      return;
    }
    var state := new Selection(p);
    state.RunPromotions();
    assert Selects(p, packed.value, state.rounds);
    r := Finish(count, records, state.chosen, budget);
  }

  /**
   * With the same dipping counter the second selector refuses too, whatever the utility: the record first
   * fit dropped is promoted beside the other two at no cost, and the repack meets the first two on their own.
   */
  lemma SelectBoundedCanRefuse(records: seq<Record>, utility: (nat, set<nat>) -> real, baseline: Packed, rounds: seq<Round>)
    requires RecordsOk(records) && |records| == 3 && PackSpec(Dipping(records), records, 3) == Ok(baseline)
    requires Selects(Policy(records, Dipping(records), 3, FitSet(Dipping(records), records, 3, 3), utility), baseline, rounds)
    ensures rounds == [Round(1, [])]
    ensures FinishSpec(Dipping(records), records,
                       Chosen(Policy(records, Dipping(records), 3, FitSet(Dipping(records), records, 3, 3), utility), rounds), 3) ==
            Err(MembershipChanged)
  {
    var p := Policy(records, Dipping(records), 3, FitSet(Dipping(records), records, 3, 3), utility);
    FinishCanRefuse(records);
    DippingBaseline(records);
    OnlyRound(p, rounds);
    assert Chosen(p, rounds[..0]) == {0, 2} && Chosen(p, rounds) == {0, 1, 2};
  }

  lemma DippingBaseline(records: seq<Record>)
    requires RecordsOk(records) && |records| == 3
    ensures FitSet(Dipping(records), records, 3, 3) == {0, 2}
  {
    DippingFirstFit(records);
    BaselineById(records, Dipping(records), 3);
    var fit := FitSet(Dipping(records), records, 3, 3);
    var selected := [records[0], records[2]];
    assert HasId(selected, records[0].id) by { assert selected[0].id == records[0].id; }
    assert HasId(selected, records[2].id) by { assert selected[1].id == records[2].id; }
    assert !HasId(selected, records[1].id);
  }

  ghost predicate Dips(p: Policy) {
    RecordsOk(p.records) && |p.records| == 3 && p.count == Dipping(p.records) && p.budget == 3 && p.baseline == {0, 2}
  }

  /** The dropped record is the only outsider, nothing may be evicted for it, and it fits beside the others. */
  lemma OnlyRound(p: Policy, rounds: seq<Round>)
    requires Dips(p) && RoundsOk(p, rounds) && |rounds| <= MAX_PROMOTIONS && Finished(p, rounds)
    ensures rounds == [Round(1, [])]
  {
    DroppedIsTaken(p, []);
    if rounds == [] {
      assert Outsider(p, Promotions([]), 1);
      assert false;
    } else if |rounds| == 1 {
      FirstRound(p, rounds);
    } else {
      FirstRound(p, rounds[..1]);
      NoSecondRound(p, rounds);
    }
  }

  lemma FirstRound(p: Policy, rounds: seq<Round>)
    requires Dips(p) && |rounds| == 1 && RoundsOk(p, rounds)
    ensures rounds == [Round(1, [])]
  {
    var round := rounds[0];
    assert rounds[..0] == [];
    assert RoundOk(p, [], round);
    DroppedIsTaken(p, round.removed);
    assert round == Round(1, []);
    assert rounds == [round];
  }

  lemma NoSecondRound(p: Policy, rounds: seq<Round>)
    requires Dips(p) && |rounds| == 2 && rounds[..1] == [Round(1, [])]
    ensures !RoundsOk(p, rounds)
  {
    var first := rounds[..1];
    assert first[..0] == [];
    assert Promotions(first) == [1];
    assert !Outsider(p, [1], rounds[1].candidate);
  }

  lemma DroppedIsTaken(p: Policy, removed: seq<nat>)
    requires Dips(p)
    ensures Accepts(p, {0, 2}, [], 1, removed) ==> removed == []
    ensures !TurnsDown(p, {0, 2}, [], 1)
  {
    var u := p.utility(1, {0, 2});
    forall r | IsRemovable(p, {0, 2}, u, r) ensures r == [] && Attempt(p, {0, 2}, [], 1, r) == Some([]) {
      NothingRemovable(p, u, r);
      FreePromotion(p);
    }
  }

  lemma NothingRemovable(p: Policy, u: real, r: seq<nat>)
    requires Dips(p) && IsRemovable(p, {0, 2}, u, r)
    ensures r == []
  {
    assert forall i: nat :: !Removable(p, {0, 2}, u, i);
    if r != [] {
      HasMember(r);
      assert false;
    }
  }

  lemma HasMember(s: seq<nat>)
    requires s != []
    ensures exists x :: x in s
  {
    assert s[0] in s;
  }

  lemma FreePromotion(p: Policy)
    requires Dips(p)
    ensures Attempt(p, {0, 2}, [], 1, []) == Some([])
  {
    var empty: seq<nat> := [];
    assert empty[..0] == [];
    assert Evicting({0, 2}, 1, empty, 0) == {0, 1, 2};
    DippingCount(p.records, {0, 1, 2});
    DippingCount(p.records, {0, 1, 2} - Ids([1]));
    assert empty + [1] == [1];
  }

  lemma EarlierInOrder(order: (nat, nat) -> bool, ranked: seq<nat>, k: nat, o: nat)
    requires Asymmetric(order) && Sorted(order, ranked) && k < |ranked| && o in ranked && order(o, ranked[k])
    ensures o in ranked[..k]
  {
    forall i | k <= i < |ranked| ensures !order(ranked[i], ranked[k]) {
      assert i == k || order(ranked[k], ranked[i]);
    }
  }

  method RemoveOne(s: seq<nat>, x: nat) returns (r: seq<nat>)
    requires NoDup(s) && x in s
    ensures NoDup(r) && |r| < |s| && forall y: nat :: y in r <==> y in s && y != x
  {
    var k := 0;
    while s[k] != x
      invariant k < |s| && x !in s[..k]
      decreases |s| - k
    {
      k := k + 1;
    }
    r := s[..k] + s[k + 1..];
    assert s == s[..k] + [x] + s[k + 1..];
  }
}
