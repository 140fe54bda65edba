/**
 * Rank-stable first-fit packing of whole records under a token budget. The counter measures a whole
 * list of records and need not be additive, so it stays an arbitrary function.
 */
module Packing {
  import opened Prelude

  datatype Record = Record(id: string, content: string)

  type Counter = seq<Record> -> nat

  datatype Packed = Packed(selected: seq<Record>, dropped: seq<Record>, tokens: nat)

  datatype Error = InvalidBudget | InvalidRecords | EmptyDoesNotFit | MembershipChanged

  predicate RecordsOk(records: seq<Record>) {
    && (forall i :: 0 <= i < |records| ==> records[i].id != "")
    && (forall i, j :: 0 <= i < j < |records| ==> records[i].id != records[j].id)
  }

  // -------------------------------------------------------------------------------- first fit

  function FirstFit(count: Counter, records: seq<Record>, budget: int): seq<Record> {
    if records == [] then []
    else
      var n := |records| - 1;
      var selected := FirstFit(count, records[..n], budget);
      if count(selected + [records[n]]) <= budget then selected + [records[n]] else selected
  }

  function Dropped(count: Counter, records: seq<Record>, budget: int): seq<Record> {
    if records == [] then []
    else
      var n := |records| - 1;
      var dropped := Dropped(count, records[..n], budget);
      if count(FirstFit(count, records[..n], budget) + [records[n]]) <= budget then dropped else dropped + [records[n]]
  }

  function PackSpec(count: Counter, records: seq<Record>, budget: int): Result<Packed, Error> {
    if budget <= 0 then Err(InvalidBudget)
    else if !RecordsOk(records) then Err(InvalidRecords)
    else if count([]) > budget then Err(EmptyDoesNotFit)
    else
      var selected := FirstFit(count, records, budget);
      Ok(Packed(selected, Dropped(count, records, budget), count(selected)))
  }

  /** Every nonempty prefix of the list fits on its own. */
  ghost predicate PrefixesFit(count: Counter, s: seq<Record>, budget: int) {
    forall k {:trigger s[..k]} :: 0 < k <= |s| ==> count(s[..k]) <= budget
  }

  /** Packing keeps a list whole exactly if each of its prefixes fits, whatever the counter is. */
  lemma {:induction false} KeptWholeIff(count: Counter, s: seq<Record>, budget: int)
    ensures FirstFit(count, s, budget) == s <==> PrefixesFit(count, s, budget)
    ensures |FirstFit(count, s, budget)| <= |s|
    ensures Dropped(count, s, budget) == [] <==> PrefixesFit(count, s, budget)
    ensures |Dropped(count, s, budget)| == |s| - |FirstFit(count, s, budget)|
    decreases |s|
  {
    if s != [] {
      var n := |s| - 1;
      var init := s[..n];
      KeptWholeIff(count, init, budget);
      assert s == init + [s[n]] && s[..|s|] == s;
      PrefixesSnoc(count, s, budget);
    }
  }

  lemma PrefixesSnoc(count: Counter, s: seq<Record>, budget: int)
    requires s != []
    ensures PrefixesFit(count, s, budget) <==> PrefixesFit(count, s[..|s| - 1], budget) && count(s) <= budget
  {
    var init := s[..|s| - 1];
    assert s[..|s|] == s;
    forall k | 0 <= k < |s| ensures init[..k] == s[..k] {}
    if PrefixesFit(count, init, budget) && count(s) <= budget {
      forall k {:trigger s[..k]} | 0 < k <= |s| ensures count(s[..k]) <= budget {
        if k < |s| { assert init[..k] == s[..k]; }
      }
    }
  }

  lemma {:induction false} SelectionPrefixesFit(count: Counter, records: seq<Record>, budget: int)
    ensures PrefixesFit(count, FirstFit(count, records, budget), budget)
    decreases |records|
  {
    if records != [] {
      var n := |records| - 1;
      var before := FirstFit(count, records[..n], budget);
      SelectionPrefixesFit(count, records[..n], budget);
      var selected := FirstFit(count, records, budget);
      forall k | 0 < k <= |selected| ensures count(selected[..k]) <= budget {
        if k <= |before| {
          assert selected[..k] == before[..k];
        } else {
          assert selected[..k] == selected;
        }
      }
    }
  }

  /** Repacking a selection returns it whole, for any counter. */
  lemma RepackIsWhole(count: Counter, records: seq<Record>, budget: int)
    ensures FirstFit(count, FirstFit(count, records, budget), budget) == FirstFit(count, records, budget)
    ensures Dropped(count, FirstFit(count, records, budget), budget) == []
  {
    SelectionPrefixesFit(count, records, budget);
    KeptWholeIff(count, FirstFit(count, records, budget), budget);
  }

  // ------------------------------------------------------------------------ choosing by index

  /** The chosen records with index below `n`, in rank order. */
  function PickUpTo(records: seq<Record>, chosen: set<nat>, n: nat): seq<Record>
    requires n <= |records|
  {
    if n == 0 then []
    else PickUpTo(records, chosen, n - 1) + if n - 1 in chosen then [records[n - 1]] else []
  }

  function Pick(records: seq<Record>, chosen: set<nat>): seq<Record> {
    PickUpTo(records, chosen, |records|)
  }

  /** A counter that never shrinks when records are added to a choice from this list. */
  ghost predicate Monotone(count: Counter, records: seq<Record>) {
    forall a: set<nat>, b: set<nat> :: a <= b ==> count(Pick(records, a)) <= count(Pick(records, b))
  }

  function Below(chosen: set<nat>, n: nat): set<nat> {
    set i | i in chosen && i < n
  }

  lemma {:induction false} PickDependsBelow(records: seq<Record>, a: set<nat>, b: set<nat>, n: nat)
    requires n <= |records| && forall i :: 0 <= i < n ==> (i in a <==> i in b)
    ensures PickUpTo(records, a, n) == PickUpTo(records, b, n)
  {
    if n > 0 {
      PickDependsBelow(records, a, b, n - 1);
    }
  }

  lemma {:induction false} PickBelow(records: seq<Record>, chosen: set<nat>, n: nat, m: nat)
    requires n <= m <= |records|
    ensures PickUpTo(records, Below(chosen, n), m) == PickUpTo(records, chosen, n)
    decreases m
  {
    if n < m {
      PickBelow(records, chosen, n, m - 1);
    } else {
      PickDependsBelow(records, Below(chosen, n), chosen, n);
    }
  }

  /** With a monotone counter, a choice that fits as a whole is packed whole. */
  lemma FittingChoiceIsKept(count: Counter, records: seq<Record>, chosen: set<nat>, budget: int)
    requires Monotone(count, records) && count(Pick(records, chosen)) <= budget
    ensures FirstFit(count, Pick(records, chosen), budget) == Pick(records, chosen)
    ensures Dropped(count, Pick(records, chosen), budget) == []
  {
    KeptUpTo(count, records, chosen, budget, |records|);
    KeptWholeIff(count, Pick(records, chosen), budget);
  }

  lemma {:induction false} KeptUpTo(count: Counter, records: seq<Record>, chosen: set<nat>, budget: int, n: nat)
    requires Monotone(count, records) && count(Pick(records, chosen)) <= budget && n <= |records|
    ensures FirstFit(count, PickUpTo(records, chosen, n), budget) == PickUpTo(records, chosen, n)
  {
    if n > 0 {
      KeptUpTo(count, records, chosen, budget, n - 1);
      if n - 1 in chosen {
        var whole := PickUpTo(records, chosen, n);
        assert whole[..|whole| - 1] == PickUpTo(records, chosen, n - 1);
        PickBelow(records, chosen, n, |records|);
        assert Pick(records, Below(chosen, n)) == whole;
        assert count(whole) <= count(Pick(records, chosen));
        assert PickUpTo(records, chosen, n - 1) + [whole[|whole| - 1]] == whole;
      } else {
        assert PickUpTo(records, chosen, n) == PickUpTo(records, chosen, n - 1);
      }
    }
  }

  /** The ranks first fit selects. */
  function FitSet(count: Counter, records: seq<Record>, budget: int, n: nat): (s: set<nat>)
    requires n <= |records|
    ensures forall i :: i in s ==> i < n
  {
    if n == 0 then {}
    else
      var s := FitSet(count, records, budget, n - 1);
      if count(PickUpTo(records, s, n - 1) + [records[n - 1]]) <= budget then s + {n - 1} else s
  }

  lemma {:induction false} FitSetIsFirstFit(count: Counter, records: seq<Record>, budget: int, n: nat)
    requires n <= |records|
    ensures PickUpTo(records, FitSet(count, records, budget, n), n) == FirstFit(count, records[..n], budget)
  {
    if n > 0 {
      FitSetIsFirstFit(count, records, budget, n - 1);
      assert records[..n][..n - 1] == records[..n - 1];
      var s, s' := FitSet(count, records, budget, n - 1), FitSet(count, records, budget, n);
      PickDependsBelow(records, s, s', n - 1);
    }
  }

  lemma {:induction false} FitSetGrows(count: Counter, records: seq<Record>, budget: int, n: nat, m: nat)
    requires n <= m <= |records|
    ensures Below(FitSet(count, records, budget, m), n) == FitSet(count, records, budget, n)
    decreases m
  {
    if n < m {
      FitSetGrows(count, records, budget, n, m - 1);
      assert Below(FitSet(count, records, budget, m), n) == Below(FitSet(count, records, budget, m - 1), n);
    }
  }

  /** With a monotone counter, no record first fit dropped can be added to its final selection within budget. */
  lemma NothingCanBeAdded(count: Counter, records: seq<Record>, budget: int, d: nat)
    requires Monotone(count, records) && d < |records|
    requires d !in FitSet(count, records, budget, |records|)
    ensures count(Pick(records, FitSet(count, records, budget, |records|) + {d})) > budget
  {
    var final, before := FitSet(count, records, budget, |records|), FitSet(count, records, budget, d);
    FitSetGrows(count, records, budget, d, |records|);
    FitSetGrows(count, records, budget, d + 1, |records|);
    assert d !in Below(final, d + 1);
    assert count(PickUpTo(records, before, d) + [records[d]]) > budget;
    PickDependsBelow(records, before, before + {d}, d);
    assert PickUpTo(records, before + {d}, d + 1) == PickUpTo(records, before, d) + [records[d]];
    PickBelow(records, before + {d}, d + 1, |records|);
    assert Below(before + {d}, d + 1) == before + {d};
    assert before + {d} <= final + {d};
  }

  // -------------------------------------------------------------------- finishing a selection

  function Outside(records: seq<Record>, chosen: set<nat>): set<nat> {
    set i | 0 <= i < |records| && i !in chosen
  }

  lemma {:induction false} PickedAre(records: seq<Record>, chosen: set<nat>, n: nat, i: nat)
    requires RecordsOk(records) && n <= |records| && i < |records|
    ensures records[i] in PickUpTo(records, chosen, n) <==> i < n && i in chosen
  {
    if n > 0 { PickedAre(records, chosen, n - 1, i); }
  }

  lemma {:induction false} PickedSplit(records: seq<Record>, chosen: set<nat>, n: nat)
    requires n <= |records|
    ensures |PickUpTo(records, chosen, n)| + |PickUpTo(records, Outside(records, chosen), n)| == n
  {
    if n > 0 { PickedSplit(records, chosen, n - 1); }
  }

  lemma {:induction false} DroppedAreTheOthers(count: Counter, records: seq<Record>, budget: int, n: nat)
    requires n <= |records|
    ensures PickUpTo(records, Outside(records, FitSet(count, records, budget, n)), n) == Dropped(count, records[..n], budget)
  {
    if n > 0 {
      DroppedAreTheOthers(count, records, budget, n - 1);
      FitSetIsFirstFit(count, records, budget, n - 1);
      assert records[..n][..n - 1] == records[..n - 1];
      var s, s' := FitSet(count, records, budget, n - 1), FitSet(count, records, budget, n);
      PickDependsBelow(records, Outside(records, s), Outside(records, s'), n - 1);
    }
  }

  /** Every record is on one side or the other: selected or dropped. */
  ghost predicate Divides(records: seq<Record>, packed: Packed) {
    && |packed.selected| + |packed.dropped| == |records|
    && forall i :: 0 <= i < |records| ==> (records[i] in packed.selected <==> records[i] !in packed.dropped)
  }

  /** A record without an id, or with the id of an earlier one. */
  ghost predicate Unusable(records: seq<Record>, i: nat)
    requires i < |records|
  {
    records[i].id == [] || exists j :: 0 <= j < i && records[j].id == records[i].id
  }

  /** What packing refuses, in which order, and that it otherwise divides the records and reports what it measured. */
  lemma PackMeans(count: Counter, records: seq<Record>, budget: int)
    ensures var r := PackSpec(count, records, budget);
            var refused := exists i :: 0 <= i < |records| && Unusable(records, i);
            && (r == Err(InvalidBudget) <==> budget < 1)
            && (r == Err(InvalidRecords) <==> budget >= 1 && refused)
            && (r == Err(EmptyDoesNotFit) <==> budget >= 1 && !refused && count([]) > budget)
            && r != Err(MembershipChanged)
            && (r.Ok? ==> Divides(records, r.value) && r.value.tokens == count(r.value.selected) && r.value.tokens <= budget)
  {
    UsableIff(records);
    if PackSpec(count, records, budget).Ok? { PackDivides(count, records, budget); }
  }

  lemma UsableIff(records: seq<Record>)
    ensures RecordsOk(records) <==> !exists i :: 0 <= i < |records| && Unusable(records, i)
  {
    if !exists i :: 0 <= i < |records| && Unusable(records, i) {
      forall i | 0 <= i < |records| ensures records[i].id != "" { assert !Unusable(records, i); }
      forall i, j | 0 <= i < j < |records| ensures records[i].id != records[j].id { assert !Unusable(records, j); }
    }
  }

  lemma PackDivides(count: Counter, records: seq<Record>, budget: int)
    requires RecordsOk(records) && count([]) <= budget
    ensures var selected := FirstFit(count, records, budget);
            Divides(records, Packed(selected, Dropped(count, records, budget), count(selected))) && count(selected) <= budget
  {
    var n := |records|;
    var s := FitSet(count, records, budget, n);
    assert records[..n] == records;
    FitSetIsFirstFit(count, records, budget, n);
    DroppedAreTheOthers(count, records, budget, n);
    PickedSplit(records, s, n);
    SelectionPrefixesFit(count, records, budget);
    var selected := FirstFit(count, records, budget);
    assert selected[..|selected|] == selected;
    forall i | 0 <= i < n ensures records[i] in selected <==> records[i] !in Dropped(count, records, budget) {
      PickedAre(records, s, n, i);
      PickedAre(records, Outside(records, s), n, i);
    }
  }

  /** Repack a chosen membership; packing must not change it. */
  function FinishSpec(count: Counter, records: seq<Record>, chosen: set<nat>, budget: int): Result<Packed, Error> {
    var selected := Pick(records, chosen);
    match PackSpec(count, selected, budget)
    case Err(e) => Err(e)
    case Ok(packed) =>
      if packed.dropped != [] || packed.selected != selected then Err(MembershipChanged)
      else Ok(packed.(dropped := Pick(records, Outside(records, chosen))))
  }

  lemma {:induction false} PickedRecordsOk(records: seq<Record>, chosen: set<nat>, n: nat)
    requires RecordsOk(records) && n <= |records|
    ensures RecordsOk(PickUpTo(records, chosen, n))
    ensures forall r :: r in PickUpTo(records, chosen, n) ==> exists i :: 0 <= i < n && i in chosen && records[i] == r
  {
    if n > 0 {
      PickedRecordsOk(records, chosen, n - 1);
      var before := PickUpTo(records, chosen, n - 1);
      forall i | 0 <= i < |before| ensures before[i].id != records[n - 1].id {
        assert before[i] in before;
      }
    }
  }

  /** Finishing succeeds exactly if every prefix of the chosen records fits, not just the whole. */
  lemma FinishSucceedsIff(count: Counter, records: seq<Record>, chosen: set<nat>, budget: int)
    requires budget > 0 && RecordsOk(records) && count([]) <= budget
    ensures FinishSpec(count, records, chosen, budget).Ok? <==> PrefixesFit(count, Pick(records, chosen), budget)
    ensures FinishSpec(count, records, chosen, budget).Ok? ==>
              var packed := FinishSpec(count, records, chosen, budget).value;
              && packed.selected == Pick(records, chosen) && packed.tokens == count(packed.selected)
              && Divides(records, packed)
    ensures !FinishSpec(count, records, chosen, budget).Ok? ==>
              FinishSpec(count, records, chosen, budget) == Err(MembershipChanged)
  {
    PickedRecordsOk(records, chosen, |records|);
    KeptWholeIff(count, Pick(records, chosen), budget);
    PickedSplit(records, chosen, |records|);
    forall i | 0 <= i < |records| ensures records[i] in Pick(records, chosen) <==> records[i] !in Pick(records, Outside(records, chosen)) {
      PickedAre(records, chosen, |records|, i);
      PickedAre(records, Outside(records, chosen), |records|, i);
    }
  }

  lemma FinishSucceedsIfMonotone(count: Counter, records: seq<Record>, chosen: set<nat>, budget: int)
    requires budget > 0 && RecordsOk(records) && count([]) <= budget
    requires Monotone(count, records) && count(Pick(records, chosen)) <= budget
    ensures FinishSpec(count, records, chosen, budget).Ok?
  {
    FittingChoiceIsKept(count, records, chosen, budget);
    PickedRecordsOk(records, chosen, |records|);
  }

  /**
   * An abstract counter that finds the first two of three records together too long, and everything else short
   * enough. The packer is written for any counter; one that counts the tokens of a growing text need not dip.
   */
  function Dipping(records: seq<Record>): Counter
    requires |records| == 3
  {
    s => if s == records[..2] then 5 else 2
  }

  /** Without monotonicity a choice that fits as a whole can still be refused at the end. */
  lemma FinishCanRefuse(records: seq<Record>)
    requires RecordsOk(records) && |records| == 3
    ensures var count := Dipping(records);
            && FirstFit(count, records, 3) == [records[0], records[2]] && Dropped(count, records, 3) == [records[1]]
            && count(Pick(records, {0, 1, 2})) <= 3 && FinishSpec(count, records, {0, 1, 2}, 3) == Err(MembershipChanged)
  {
    var count := Dipping(records);
    DippingFirstFit(records);
    PickThree(records, {0, 1, 2});
    assert [records[0]] + [records[1]] + [records[2]] == records && records[..3] == records;
    FinishSucceedsIff(count, records, {0, 1, 2}, 3);
    assert !PrefixesFit(count, records, 3) by { assert count(records[..2]) == 5; }
  }

  lemma DippingFirstFit(records: seq<Record>)
    requires RecordsOk(records) && |records| == 3
    ensures FirstFit(Dipping(records), records, 3) == [records[0], records[2]]
    ensures Dropped(Dipping(records), records, 3) == [records[1]]
  {
    var count := Dipping(records);
    var a, b, c := records[0], records[1], records[2];
    assert records[..2][..1] == [a] && [a][..0] == [] && records[..2][1] == b;
    assert [a] != records[..2] && [a, b] == records[..2];
    assert [a, c] != records[..2] by { assert [a, c][1].id != records[..2][1].id; }
    assert [] + [a] == [a] && [a] + [b] == [a, b] && [a] + [c] == [a, c];
    assert FirstFit(count, [a], 3) == [a] && Dropped(count, [a], 3) == [];
    assert FirstFit(count, records[..2], 3) == [a] && Dropped(count, records[..2], 3) == [b];
  }

  lemma PickThree(records: seq<Record>, chosen: set<nat>)
    requires |records| == 3
    ensures Pick(records, chosen) == (if 0 in chosen then [records[0]] else []) + (if 1 in chosen then [records[1]] else [])
                                     + (if 2 in chosen then [records[2]] else [])
  {
    assert PickUpTo(records, chosen, 1) == if 0 in chosen then [records[0]] else [];
    assert PickUpTo(records, chosen, 2) ==
           (if 0 in chosen then [records[0]] else []) + (if 1 in chosen then [records[1]] else []);
  }

  lemma DippingCount(records: seq<Record>, chosen: set<nat>)
    requires RecordsOk(records) && |records| == 3
    ensures Dipping(records)(Pick(records, chosen)) == if 0 in chosen && 1 in chosen && 2 !in chosen then 5 else 2
  {
    PickThree(records, chosen);
    var s := Pick(records, chosen);
    assert records[0].id != records[1].id && records[0].id != records[2].id && records[1].id != records[2].id;
    assert s == records[..2] ==> |s| == 2 && s[0].id == records[0].id && s[1].id == records[1].id;
    if 0 in chosen && 1 in chosen && 2 !in chosen { assert s == records[..2]; }
  }

  // ------------------------------------------------------------------------------ the program

  method PackContext(count: Counter, records: seq<Record>, budget: int) returns (r: Result<Packed, Error>)
    ensures r == PackSpec(count, records, budget)
  {
    if budget <= 0 {
      return Err(InvalidBudget);
    }
    if !RecordsOk(records) {
      return Err(InvalidRecords);
    }
    var selected: seq<Record>, dropped: seq<Record>, tokens := [], [], count([]);
    if tokens > budget {
      return Err(EmptyDoesNotFit);
    }
    for i := 0 to |records|
      invariant selected == FirstFit(count, records[..i], budget)
      invariant dropped == Dropped(count, records[..i], budget)
      invariant tokens == count(selected)
    {
      assert records[..i + 1][..i] == records[..i];
      var candidate := selected + [records[i]];
      var t := count(candidate);
      if t <= budget {
        selected, tokens := candidate, t;
      } else {
        dropped := dropped + [records[i]];
      }
    }
    assert records[..|records|] == records;
    return Ok(Packed(selected, dropped, tokens));
  }

  method Finish(count: Counter, records: seq<Record>, chosen: set<nat>, budget: int) returns (r: Result<Packed, Error>)
    ensures r == FinishSpec(count, records, chosen, budget)
  {
    var selected := Pick(records, chosen);
    var packed := PackContext(count, selected, budget);
    if packed.Err? {
      return packed;
    }
    if packed.value.dropped != [] || packed.value.selected != selected {
      return Err(MembershipChanged);
    }
    return Ok(packed.value.(dropped := Pick(records, Outside(records, chosen))));
  }
}
