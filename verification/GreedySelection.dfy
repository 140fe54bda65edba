/** Greedy fill: anchor the first record that fits, then keep adding the record of highest utility. */
module GreedySelection {
  import opened Prelude
  import opened Packing

  /** `utility(rank, chosen, cost)` may depend on everything already chosen. */
  datatype Pool = Pool(records: seq<Record>, count: Counter, budget: int, utility: (nat, set<nat>, nat) -> real)

  function Total(p: Pool, chosen: set<nat>): nat {
    p.count(Pick(p.records, chosen))
  }

  predicate Feasible(p: Pool, chosen: set<nat>, i: nat) {
    i < |p.records| && i !in chosen && Total(p, chosen + {i}) <= p.budget
  }

  function Score(p: Pool, chosen: set<nat>, i: nat): real {
    var cost := Total(p, chosen + {i}) - Total(p, chosen);
    p.utility(i, chosen, if cost > 1 then cost else 1)
  }

  /** A record is scored by what it adds to the tokens of the whole choice, and by one token if it adds none. */
  lemma ScoreMeans(p: Pool, chosen: set<nat>, i: nat, cost: nat)
    requires cost >= 1
    requires p.count(Pick(p.records, chosen + {i})) == p.count(Pick(p.records, chosen)) + cost
             || (cost == 1 && p.count(Pick(p.records, chosen + {i})) <= p.count(Pick(p.records, chosen)))
    ensures Score(p, chosen, i) == p.utility(i, chosen, cost)
  {
  }

  /** The best addition: feasible, of maximal utility, and of the best rank among equals. */
  ghost predicate IsBest(p: Pool, chosen: set<nat>, i: nat) {
    && Feasible(p, chosen, i)
    && forall j: nat :: Feasible(p, chosen, j) ==>
         Score(p, chosen, j) < Score(p, chosen, i) || (Score(p, chosen, j) == Score(p, chosen, i) && i <= j)
  }

  /** What is best fits the budget and beats everything else that would: by score, or by rank between equals. */
  lemma BestBeats(p: Pool, chosen: set<nat>, i: nat, j: nat)
    requires IsBest(p, chosen, i)
    requires j != i && j < |p.records| && j !in chosen && p.count(Pick(p.records, chosen + {j})) <= p.budget
    ensures i < |p.records| && i !in chosen && p.count(Pick(p.records, chosen + {i})) <= p.budget
    ensures Score(p, chosen, i) > Score(p, chosen, j) || (Score(p, chosen, i) == Score(p, chosen, j) && i < j)
  {
    assert Feasible(p, chosen, j);
  }

  ghost predicate BestBelow(p: Pool, chosen: set<nat>, n: nat, i: nat) {
    && i < n && Feasible(p, chosen, i)
    && forall j: nat :: j < n && Feasible(p, chosen, j) ==>
         Score(p, chosen, j) < Score(p, chosen, i) || (Score(p, chosen, j) == Score(p, chosen, i) && i <= j)
  }

  lemma {:induction false} BestOfFirst(p: Pool, chosen: set<nat>, n: nat)
    ensures (forall j: nat :: j < n ==> !Feasible(p, chosen, j)) || exists i: nat :: BestBelow(p, chosen, n, i)
  {
    if n > 0 {
      var last := n - 1;
      BestOfFirst(p, chosen, last);
      if i: nat :| BestBelow(p, chosen, last, i) {
        if Feasible(p, chosen, last) && Score(p, chosen, last) > Score(p, chosen, i) {
          assert BestBelow(p, chosen, n, last);
        } else {
          assert BestBelow(p, chosen, n, i);
        }
      } else if Feasible(p, chosen, last) {
        assert BestBelow(p, chosen, n, last);
      }
    }
  }

  /** Whenever some record would still fit, one of them is the best. */
  lemma BestExists(p: Pool, chosen: set<nat>, j: nat)
    requires j < |p.records| && j !in chosen && p.count(Pick(p.records, chosen + {j})) <= p.budget
    ensures exists i: nat :: IsBest(p, chosen, i)
  {
    assert Feasible(p, chosen, j);
    BestOfFirst(p, chosen, |p.records|);
    var i: nat :| BestBelow(p, chosen, |p.records|, i);
    assert IsBest(p, chosen, i);
  }

  method PickNext(p: Pool, chosen: set<nat>, current: nat) returns (best: Option<nat>, total: nat)
    requires current == Total(p, chosen)
    ensures best.None? ==> forall i: nat :: !Feasible(p, chosen, i)
    ensures best.Some? ==> IsBest(p, chosen, best.value) && total == Total(p, chosen + {best.value})
  {
    best, total := None, current;
    var top: real := 0.0;
    for i := 0 to |p.records|
      invariant best.None? ==> forall j: nat :: j < i ==> !Feasible(p, chosen, j)
      invariant best.Some? ==>
                  && best.value < i && Feasible(p, chosen, best.value)
                  && top == Score(p, chosen, best.value)
                  && total == Total(p, chosen + {best.value})
                  && forall j: nat :: j < i && Feasible(p, chosen, j) ==>
                       Score(p, chosen, j) < top || (Score(p, chosen, j) == top && best.value <= j)
    {
      if i in chosen {
        continue;
      }
      var trial := p.count(Pick(p.records, chosen + {i}));
      if trial > p.budget {
        continue;
      }
      var cost := if trial - current > 1 then trial - current else 1;
      var utility := p.utility(i, chosen, cost);
      if best.None? || utility > top {
        best, top, total := Some(i), utility, trial;
      }
    }
  }

  function Ranks(order: seq<nat>): set<nat> {
    set i | i in order
  }

  function RanksBelow(n: nat): (s: set<nat>)
    ensures forall i: nat :: i in s <==> i < n
    ensures |s| == n
  {
    if n == 0 then {} else RanksBelow(n - 1) + {n - 1}
  }

  function Everything(p: Pool): set<nat> {
    RanksBelow(|p.records|)
  }

  /** After the anchor, each rank was the best addition to the ones before it. */
  ghost predicate GreedyOrder(p: Pool, order: seq<nat>) {
    forall k {:trigger order[..k]} :: 0 < k < |order| ==> IsBest(p, Ranks(order[..k]), order[k])
  }

  lemma AnchorFits(p: Pool, anchor: nat, id: string)
    requires RecordsOk(p.records) && anchor < |p.records| && p.records[anchor].id == id
    requires var selected := FirstFit(p.count, p.records, p.budget); selected != [] && selected[0].id == id
    ensures Total(p, {anchor}) <= p.budget && Pick(p.records, {anchor}) == [p.records[anchor]]
    ensures FirstFit(p.count, p.records, p.budget)[0] == p.records[anchor]
  {
    var selected := FirstFit(p.count, p.records, p.budget);
    SelectedAreRecords(p.count, p.records, p.budget);
    assert selected[0] in selected;
    var i :| 0 <= i < |p.records| && p.records[i] == selected[0];
    assert i == anchor;
    SelectionPrefixesFit(p.count, p.records, p.budget);
    assert selected[..1] == [p.records[anchor]];
    PickOne(p.records, anchor, |p.records|);
  }

  lemma {:induction false} SelectedAreRecords(count: Counter, records: seq<Record>, budget: int)
    ensures forall r :: r in FirstFit(count, records, budget) ==> r in records
    decreases |records|
  {
    if records != [] {
      SelectedAreRecords(count, records[..|records| - 1], budget);
    }
  }

  lemma {:induction false} PickOne(records: seq<Record>, i: nat, n: nat)
    requires i < |records| && n <= |records|
    ensures PickUpTo(records, {i}, n) == if i < n then [records[i]] else []
  {
    if n > 0 {
      PickOne(records, i, n - 1);
    }
  }

  lemma {:induction false} PickEverything(p: Pool, n: nat)
    requires n <= |p.records|
    ensures PickUpTo(p.records, Everything(p), n) == p.records[..n]
  {
    if n > 0 {
      PickEverything(p, n - 1);
      assert p.records[..n] == p.records[..n - 1] + [p.records[n - 1]];
    }
  }

  /**
   * All records if they all fit, none if none fits, otherwise a greedy order from the first record that
   * fits: it ends within budget and only when no other record can be added.
   */
  ghost predicate Selects(p: Pool, r: Result<Packed, Error>, chosen: set<nat>, order: seq<nat>) {
    match PackSpec(p.count, p.records, p.budget)
    case Err(e) => r == Err(e)
    case Ok(baseline) =>
      && r == FinishSpec(p.count, p.records, chosen, p.budget)
      && Total(p, chosen) <= p.budget
      && (baseline.dropped == [] ==> chosen == Everything(p))
      && (baseline.dropped != [] && baseline.selected == [] ==> chosen == {})
      && (baseline.dropped != [] && baseline.selected != [] ==>
            && order != [] && chosen == Ranks(order) && GreedyOrder(p, order)
            && order[0] < |p.records| && p.records[order[0]] == baseline.selected[0]
            && forall i: nat :: !Feasible(p, chosen, i))
  }

  method SelectContext(p: Pool) returns (r: Result<Packed, Error>, chosen: set<nat>, order: seq<nat>)
    ensures Selects(p, r, chosen, order)
  {
    var packed := PackContext(p.count, p.records, p.budget);
    chosen, order := {}, [];
    if packed.Err? {
      return packed, chosen, order;
    }
    var baseline := packed.value;
    KeptWholeIff(p.count, p.records, p.budget);
    SelectionPrefixesFit(p.count, p.records, p.budget);
    if baseline.dropped == [] {
      chosen := Everything(p);
      PickEverything(p, |p.records|);
      assert p.records[..|p.records|] == p.records;
      assert p.records != [] ==> p.count(p.records[..|p.records|]) <= p.budget;
      r := Finish(p.count, p.records, chosen, p.budget);
      return;
    }
    if baseline.selected == [] {
      PickNone(p.records, |p.records|);
      r := Finish(p.count, p.records, chosen, p.budget);
      return;
    }
    var anchor := FindAnchor(p, baseline.selected[0].id);
    AnchorFits(p, anchor, baseline.selected[0].id);
    chosen, order := Fill(p, anchor);
    r := Finish(p.count, p.records, chosen, p.budget);
  }

  /**
   * With a counter that dips, the selector refuses its own greedy choice, whatever the utility: from the
   * anchor it takes the third record, then the second, and the repack meets the first two on their own.
   */
  lemma SelectContextCanRefuse(records: seq<Record>, utility: (nat, set<nat>, nat) -> real,
                               r: Result<Packed, Error>, chosen: set<nat>, order: seq<nat>)
    requires RecordsOk(records) && |records| == 3
    requires Selects(Pool(records, Dipping(records), 3, utility), r, chosen, order)
    ensures r == Err(MembershipChanged) && chosen == {0, 1, 2}
  {
    var p := Pool(records, Dipping(records), 3, utility);
    FinishCanRefuse(records);
    assert records[0].id != records[1].id && records[0].id != records[2].id;
    ChosenAreRanks(p, order);
    DippingMaximal(p, chosen);
  }

  lemma ChosenAreRanks(p: Pool, order: seq<nat>)
    requires order != [] && order[0] < |p.records| && GreedyOrder(p, order)
    ensures forall i :: i in Ranks(order) ==> i < |p.records|
    ensures order[0] in Ranks(order)
  {
    forall k | 0 <= k < |order| ensures order[k] < |p.records| {
      if k > 0 { assert IsBest(p, Ranks(order[..k]), order[k]); }
    }
  }

  lemma DippingMaximal(p: Pool, chosen: set<nat>)
    requires RecordsOk(p.records) && |p.records| == 3 && p.count == Dipping(p.records) && p.budget == 3
    requires 0 in chosen && (forall i :: i in chosen ==> i < 3) && Total(p, chosen) <= p.budget
    requires forall i: nat :: !Feasible(p, chosen, i)
    ensures chosen == {0, 1, 2}
  {
    DippingCount(p.records, chosen);
    DippingCount(p.records, chosen + {1});
    DippingCount(p.records, chosen + {2});
    assert !Feasible(p, chosen, 1) && !Feasible(p, chosen, 2);
  }

  method FindAnchor(p: Pool, id: string) returns (anchor: nat)
    requires var selected := FirstFit(p.count, p.records, p.budget); selected != [] && selected[0].id == id
    ensures anchor < |p.records| && p.records[anchor].id == id
  {
    SelectedAreRecords(p.count, p.records, p.budget);
    assert FirstFit(p.count, p.records, p.budget)[0] in p.records;
    anchor := 0;
    while p.records[anchor].id != id
      invariant anchor < |p.records|
      invariant forall i :: 0 <= i < anchor ==> p.records[i].id != id
      decreases |p.records| - anchor
    {
      anchor := anchor + 1;
    }
  }

  /** The greedy loop: stop when nothing feasible is left. */
  method Fill(p: Pool, anchor: nat) returns (chosen: set<nat>, order: seq<nat>)
    requires anchor < |p.records| && Total(p, {anchor}) <= p.budget
    requires Pick(p.records, {anchor}) == [p.records[anchor]]
    ensures order != [] && order[0] == anchor && chosen == Ranks(order) && GreedyOrder(p, order)
    ensures Total(p, chosen) <= p.budget
    ensures forall i: nat :: !Feasible(p, chosen, i)
  {
    chosen, order := {anchor}, [anchor];
    var current := p.count([p.records[anchor]]);
    while |chosen| < |p.records|
      invariant order != [] && order[0] == anchor && chosen == Ranks(order) && chosen <= Everything(p)
      invariant GreedyOrder(p, order)
      invariant current == Total(p, chosen) <= p.budget
      decreases Everything(p) - chosen
    {
      var best, total := PickNext(p, chosen, current);
      if best.None? {
        return;
      }
      GreedyExtends(p, order, best.value);
      chosen, order, current := chosen + {best.value}, order + [best.value], total;
    }
    AllChosen(p, chosen);
  }

  lemma GreedyExtends(p: Pool, order: seq<nat>, i: nat)
    requires order != [] && GreedyOrder(p, order) && IsBest(p, Ranks(order), i)
    ensures GreedyOrder(p, order + [i]) && Ranks(order + [i]) == Ranks(order) + {i}
  {
    var order' := order + [i];
    forall k {:trigger order'[..k]} | 0 < k < |order'| ensures IsBest(p, Ranks(order'[..k]), order'[k]) {
      if k < |order| {
        assert order'[..k] == order[..k];
      } else {
        assert order'[..k] == order;
      }
    }
  }

  lemma AllChosen(p: Pool, chosen: set<nat>)
    requires chosen <= Everything(p) && |chosen| >= |p.records|
    ensures forall i: nat :: !Feasible(p, chosen, i)
  {
    if chosen != Everything(p) {
      var i :| i in Everything(p) && i !in chosen;
      assert |Everything(p) - {i}| == |p.records| - 1;
      SubsetCount(chosen, Everything(p) - {i});
    }
  }

  lemma SubsetCount(a: set<nat>, b: set<nat>)
    requires a <= b
    ensures |a| <= |b|
  {
    assert b == a + (b - a);
  }

  lemma {:induction false} PickNone(records: seq<Record>, n: nat)
    requires n <= |records|
    ensures PickUpTo(records, {}, n) == []
  {
    if n > 0 {
      PickNone(records, n - 1);
    }
  }
}
