/** Frozen dev, pilot and evaluation splits that never cut a group of questions sharing one history. */
module HistorySplits {
  import opened Division
  import opened Prelude
  import opened Sorting

  /** A question as read; `history` is the digest of its sessions, absent when they are malformed. */
  datatype Question = Question(id: string, category: string, abstention: bool, history: Option<string>)

  datatype Row = Row(category: string, abstention: bool, history: string)

  type Index = map<string, Row>

  type Groups = map<string, seq<string>>

  datatype Error = BadId | BadCategory | BadHistory | NothingHeldOut | BadSize | CannotFill

  predicate CharBefore(a: char, b: char) { a < b }

  predicate Before(a: string, b: string) { LexLess(CharBefore, a, b) }

  lemma BeforeIsAnOrder()
    ensures Total(Before) && Asymmetric(Before) && Transitive(Before)
  {
    forall a, b ensures Before(a, b) || Before(b, a) || a == b { LexIsTotal(CharBefore, a, b); }
    forall a, b ensures Before(a, b) ==> !Before(b, a) { LexIsAsymmetric(CharBefore, a, b); }
    forall a, b, c ensures Before(a, b) && Before(b, c) ==> Before(a, c) {
      if Before(a, b) && Before(b, c) { LexIsTransitive(CharBefore, a, b, c); }
    }
  }

  /** Alphabetical by character code: the first difference decides, and a proper prefix comes first. */
  lemma BeforeMeans(a: string, b: string)
    ensures Before(a, b) <==>
              (|a| < |b| && a == b[..|a|]) ||
              exists k: nat :: k < |a| && k < |b| && a[..k] == b[..k] && (a[k] as int) < b[k] as int
  {
    LexMeans(CharBefore, a, b);
    if k: nat :| DiffersAt(CharBefore, a, b, k) { assert a[..k] == b[..k] && (a[k] as int) < b[k] as int; }
    if k: nat :| k < |a| && k < |b| && a[..k] == b[..k] && (a[k] as int) < b[k] as int { assert DiffersAt(CharBefore, a, b, k); }
  }

  // ----------------------------------------------------------------------- sequences without repeats

  function Elements(s: seq<string>): set<string> {
    if s == [] then {} else {s[0]} + Elements(s[1..])
  }

  lemma {:induction false} NoDupCounts(s: seq<string>)
    ensures forall x :: x in Elements(s) <==> x in s
    ensures NoDup(s) ==> |Elements(s)| == |s|
  {
    if s != [] {
      NoDupCounts(s[1..]);
      assert forall x :: x in s <==> x == s[0] || x in s[1..];
      if NoDup(s) { assert s[0] !in s[1..]; }
    }
  }

  lemma SameElementsSameLength(a: seq<string>, b: seq<string>)
    requires NoDup(a) && NoDup(b) && SameElements(a, b)
    ensures |a| == |b|
  {
    NoDupCounts(a);
    NoDupCounts(b);
    assert Elements(a) == Elements(b);
  }

  lemma NoDupConcat(a: seq<string>, b: seq<string>)
    requires NoDup(a) && NoDup(b) && forall x :: x in a ==> x !in b
    ensures NoDup(a + b)
  {
    forall i, j | 0 <= i < j < |a + b| ensures (a + b)[i] != (a + b)[j] {
      if i < |a| <= j { assert a[i] in a && b[j - |a|] in b; }
    }
  }

  method SortStrings(items: seq<string>) returns (r: seq<string>)
    requires NoDup(items)
    ensures Sorted(Before, r) && NoDup(r) && SameElements(r, items) && |r| == |items|
  {
    BeforeIsAnOrder();
    r := Sort(Before, items);
    assert NoDup(r);
    SameElementsSameLength(r, items);
  }

  method ElementsOf(s: set<string>) returns (r: seq<string>)
    ensures NoDup(r) && forall x :: x in r <==> x in s
  {
    r := [];
    var rest := s;
    while rest != {}
      invariant rest <= s && NoDup(r) && forall x :: x in r <==> x in s && x !in rest
      decreases |rest|
    {
      var x :| x in rest;
      NoDupConcat(r, [x]);
      r, rest := r + [x], rest - {x};
    }
  }

  // ------------------------------------------------------------------------------- history groups

  /** Each group lists, once, exactly the seen questions with its history, and every history seen has a group. */
  ghost predicate Grouped(index: Index, seen: seq<string>, groups: Groups) {
    && (forall q :: q in seen ==> q in index && index[q].history in groups)
    && (forall d :: d in groups ==> groups[d] != [] && NoDup(groups[d]))
    && (forall d, q :: d in groups ==> (q in groups[d] <==> q in seen && q in index && index[q].history == d))
  }

  ghost predicate GroupsOf(index: Index, groups: Groups) {
    && (forall q :: q in index ==> index[q].history in groups)
    && (forall d :: d in groups ==> groups[d] != [] && NoDup(groups[d]))
    && (forall d, q :: d in groups ==> (q in groups[d] <==> q in index && index[q].history == d))
  }

  lemma AddToGroup(index: Index, seen: seq<string>, groups: Groups, q: string, members: seq<string>)
    requires Grouped(index, seen, groups) && q in index && q !in seen
    requires members == if index[q].history in groups then groups[index[q].history] else []
    ensures Grouped(index, seen + [q], groups[index[q].history := members + [q]])
  {
    NoDupConcat(members, [q]);
    assert index[q].history !in groups ==> forall p :: p in seen ==> index[p].history != index[q].history;
  }

  lemma NextIsNew(ids: seq<string>, i: nat)
    requires NoDup(ids) && i < |ids|
    ensures ids[i] in ids && ids[i] !in ids[..i] && ids[..i + 1] == ids[..i] + [ids[i]]
  {
  }

  method GroupByHistory(index: Index) returns (groups: Groups)
    ensures GroupsOf(index, groups)
  {
    var ids := ElementsOf(index.Keys);
    ids := SortStrings(ids);
    groups := map[];
    for i := 0 to |ids|
      invariant Grouped(index, ids[..i], groups)
    {
      var q := ids[i];
      NextIsNew(ids, i);
      var d := index[q].history;
      var members := if d in groups then groups[d] else [];
      AddToGroup(index, ids[..i], groups, q, members);
      groups := groups[d := members + [q]];
    }
    assert ids[..|ids|] == ids;
  }

  /** The questions of the groups taken so far. */
  function Members(groups: Groups, picks: seq<string>): seq<string>
    requires forall d :: d in picks ==> d in groups
  {
    if picks == [] then [] else Members(groups, picks[..|picks| - 1]) + groups[picks[|picks| - 1]]
  }

  ghost predicate Chosen(groups: Groups, picks: seq<string>) {
    NoDup(picks) && forall d :: d in picks ==> d in groups
  }

  /** The selection is closed: a question is in it exactly when its whole history group is. */
  lemma {:induction false} MembersClosed(index: Index, groups: Groups, picks: seq<string>)
    requires GroupsOf(index, groups) && Chosen(groups, picks)
    ensures NoDup(Members(groups, picks))
    ensures forall q :: q in Members(groups, picks) <==> q in index && index[q].history in picks
    decreases |picks|
  {
    if picks != [] {
      var n := |picks| - 1;
      var rest, d := picks[..n], picks[n];
      assert d !in rest && picks == rest + [d] && d in picks;
      assert forall e :: e in rest ==> e in picks;
      MembersClosed(index, groups, rest);
      NoDupConcat(Members(groups, rest), groups[d]);
    }
  }

  // ------------------------------------------------------------------------------------- choosing

  /** What a pick is looking for: a question of a category, or an abstention question of it. */
  datatype Want = Want(category: string, abstaining: bool)

  predicate Offers(index: Index, groups: Groups, d: string, want: Want)
    requires d in groups
  {
    exists q :: q in groups[d] && q in index && index[q].category == want.category && (want.abstaining ==> index[q].abstention)
  }

  ghost predicate Candidate(groups: Groups, picks: seq<string>, size: int, d: string)
    requires forall e :: e in picks ==> e in groups
  {
    d in groups && d !in picks && |Members(groups, picks)| + |groups[d]| <= size
  }

  /** The lowest-ranked group that still fits and offers what is wanted. */
  ghost predicate FirstOffering(index: Index, groups: Groups, rank: string -> nat, size: int, picks: seq<string>, want: Want, d: string)
    requires forall e :: e in picks ==> e in groups
  {
    && Candidate(groups, picks, size, d) && Offers(index, groups, d, want)
    && forall e :: Candidate(groups, picks, size, e) && Offers(index, groups, e, want) ==> rank(d) <= rank(e)
  }

  ghost predicate NoneOffers(index: Index, groups: Groups, size: int, picks: seq<string>, want: Want)
    requires forall e :: e in picks ==> e in groups
  {
    forall e :: Candidate(groups, picks, size, e) ==> !Offers(index, groups, e, want)
  }

  function CategoryCount(index: Index, ids: seq<string>, category: string): nat {
    if ids == [] then 0
    else
      var q := ids[|ids| - 1];
      CategoryCount(index, ids[..|ids| - 1], category) + if q in index && index[q].category == category then 1 else 0
  }

  /** Served less so far, or as little and earlier in the alphabet. */
  ghost predicate LessServed(index: Index, selected: seq<string>, a: string, b: string) {
    var m, n := CategoryCount(index, selected, a), CategoryCount(index, selected, b);
    m < n || (m == n && Before(a, b))
  }

  /** A fill pick serves the least-served category that any fitting group can serve. */
  ghost predicate FillPick(index: Index, groups: Groups, rank: string -> nat, size: int, picks: seq<string>, d: string)
    requires forall e :: e in picks ==> e in groups
  {
    exists c :: FillPickFor(index, groups, rank, size, picks, d, c)
  }

  ghost predicate FillPickFor(index: Index, groups: Groups, rank: string -> nat, size: int, picks: seq<string>, d: string, c: string)
    requires forall e :: e in picks ==> e in groups
  {
    && FirstOffering(index, groups, rank, size, picks, Want(c, false), d)
    && forall b :: LessServed(index, Members(groups, picks), b, c) ==> NoneOffers(index, groups, size, picks, Want(b, false))
  }

  ghost predicate AbstentionPick(index: Index, groups: Groups, rank: string -> nat, size: int, picks: seq<string>, d: string)
    requires forall e :: e in picks ==> e in groups
  {
    exists c :: FirstOffering(index, groups, rank, size, picks, Want(c, true), d)
  }

  /** Each question counts once, for its own category. */
  lemma {:induction false} CountsAddUp(index: Index, a: seq<string>, b: seq<string>, c: string)
    ensures CategoryCount(index, a + b, c) == CategoryCount(index, a, c) + CategoryCount(index, b, c)
    ensures forall q :: CategoryCount(index, [q], c) == if q in index && index[q].category == c then 1 else 0
    decreases |b|
  {
    forall q ensures CategoryCount(index, [q], c) == if q in index && index[q].category == c then 1 else 0 {
      assert [q][..0] == [];
    }
    if b == [] {
      assert a + b == a;
    } else {
      var n := |b| - 1;
      assert (a + b)[..|a| + n] == a + b[..n] && (a + b)[|a| + n] == b[n];
      CountsAddUp(index, a, b[..n], c);
    }
  }

  ghost predicate HasOne(index: Index, members: seq<string>, c: string) {
    exists q :: q in members && q in index && index[q].category == c
  }

  ghost predicate HasAbstention(index: Index, members: seq<string>, c: string) {
    exists q :: q in members && q in index && index[q].category == c && index[q].abstention
  }

  /** Another group that could serve b: it ranks later for the same category, or b is served more, or as much and later in the alphabet. */
  ghost predicate ComesAfter(index: Index, rank: string -> nat, selected: seq<string>, d: string, c: string, e: string, b: string) {
    if b == c then rank(d) <= rank(e)
    else
      || CategoryCount(index, selected, c) < CategoryCount(index, selected, b)
      || (CategoryCount(index, selected, c) == CategoryCount(index, selected, b) && Before(c, b))
  }

  /** Taken for category c: a fitting group with a question of it, before every other group and category that could be served. */
  ghost predicate ServesNeediest(index: Index, groups: Groups, rank: string -> nat, size: int, picks: seq<string>, d: string, c: string)
    requires forall e :: e in picks ==> e in groups
  {
    && Candidate(groups, picks, size, d) && HasOne(index, groups[d], c)
    && forall e, b :: Candidate(groups, picks, size, e) && HasOne(index, groups[e], b) ==>
         ComesAfter(index, rank, Members(groups, picks), d, c, e, b)
  }

  lemma FillPickMeans(index: Index, groups: Groups, rank: string -> nat, size: int, picks: seq<string>, d: string, c: string)
    requires forall e :: e in picks ==> e in groups
    ensures FillPickFor(index, groups, rank, size, picks, d, c) <==> ServesNeediest(index, groups, rank, size, picks, d, c)
  {
    var selected := Members(groups, picks);
    forall e, b | e in groups ensures HasOne(index, groups[e], b) <==> Offers(index, groups, e, Want(b, false)) {}
    if FillPickFor(index, groups, rank, size, picks, d, c) {
      forall e, b | Candidate(groups, picks, size, e) && HasOne(index, groups[e], b)
        ensures ComesAfter(index, rank, selected, d, c, e, b)
      {
        LessServedIsTotal(index, selected, b, c);
        assert Offers(index, groups, e, Want(b, false));
      }
    }
    if ServesNeediest(index, groups, rank, size, picks, d, c) {
      forall e, b | Candidate(groups, picks, size, e) && Offers(index, groups, e, Want(b, false))
        ensures b == c ==> rank(d) <= rank(e)
        ensures !LessServed(index, selected, b, c)
      {
        assert HasOne(index, groups[e], b);
        LessServedIsAsymmetric(index, selected, b, c);
      }
    }
  }

  lemma LessServedIsTotal(index: Index, selected: seq<string>, a: string, b: string)
    ensures a == b || LessServed(index, selected, a, b) || LessServed(index, selected, b, a)
  {
    BeforeIsAnOrder();
  }

  /** Taken first: the lowest-ranked fitting group with an abstention question of some category. */
  lemma AbstentionPickMeans(index: Index, groups: Groups, rank: string -> nat, size: int, picks: seq<string>, d: string, c: string)
    requires forall e :: e in picks ==> e in groups
    ensures FirstOffering(index, groups, rank, size, picks, Want(c, true), d) <==>
              && Candidate(groups, picks, size, d) && HasAbstention(index, groups[d], c)
              && forall e :: Candidate(groups, picks, size, e) && HasAbstention(index, groups[e], c) ==> rank(d) <= rank(e)
  {
    forall e | e in groups ensures HasAbstention(index, groups[e], c) <==> Offers(index, groups, e, Want(c, true)) {}
  }

  lemma PrefixChosen(groups: Groups, picks: seq<string>, k: nat)
    requires Chosen(groups, picks) && k <= |picks|
    ensures Chosen(groups, picks[..k])
  {
    assert forall d :: d in picks[..k] ==> d in picks;
  }

  ghost predicate PickAt(index: Index, groups: Groups, rank: string -> nat, size: int, picks: seq<string>, boundary: nat, k: nat)
    requires Chosen(groups, picks) && k < |picks|
  {
    PrefixChosen(groups, picks, k);
    if k < boundary then AbstentionPick(index, groups, rank, size, picks[..k], picks[k])
    else FillPick(index, groups, rank, size, picks[..k], picks[k])
  }

  /** Abstention picks come first, balanced picks after them. */
  ghost predicate Traced(index: Index, groups: Groups, rank: string -> nat, size: int, picks: seq<string>, boundary: nat)
    requires Chosen(groups, picks)
  {
    forall k :: 0 <= k < |picks| ==> PickAt(index, groups, rank, size, picks, boundary, k)
  }

  /** A category with abstention questions has one taken, unless none of its remaining groups fits. */
  ghost predicate Covered(index: Index, groups: Groups, size: int, picks: seq<string>, c: string)
    requires forall e :: e in picks ==> e in groups
  {
    (exists d :: d in picks && Offers(index, groups, d, Want(c, true))) || NoneOffers(index, groups, size, picks, Want(c, true))
  }

  ghost predicate AllCovered(index: Index, groups: Groups, size: int, picks: seq<string>, categories: seq<string>)
    requires forall e :: e in picks ==> e in groups
  {
    forall c :: c in categories ==> Covered(index, groups, size, picks, c)
  }

  ghost predicate Stuck(groups: Groups, size: int, picks: seq<string>)
    requires forall e :: e in picks ==> e in groups
  {
    |Members(groups, picks)| < size && forall d :: !Candidate(groups, picks, size, d)
  }

  lemma SnocMembers(groups: Groups, picks: seq<string>, d: string)
    requires (forall e :: e in picks ==> e in groups) && d in groups
    ensures forall e :: e in picks + [d] ==> e in groups
    ensures Members(groups, picks + [d]) == Members(groups, picks) + groups[d]
  {
    assert (picks + [d])[..|picks|] == picks;
  }

  lemma CandidatesShrink(groups: Groups, size: int, picks: seq<string>, d: string, e: string)
    requires (forall x :: x in picks ==> x in groups) && d in groups
    ensures (forall x :: x in picks + [d] ==> x in groups)
    ensures Candidate(groups, picks + [d], size, e) ==> Candidate(groups, picks, size, e)
  {
    SnocMembers(groups, picks, d);
  }

  lemma TracedSnoc(index: Index, groups: Groups, rank: string -> nat, size: int, picks: seq<string>, boundary: nat, d: string)
    requires Chosen(groups, picks) && Chosen(groups, picks + [d]) && Traced(index, groups, rank, size, picks, boundary)
    requires if |picks| < boundary then AbstentionPick(index, groups, rank, size, picks, d)
             else FillPick(index, groups, rank, size, picks, d)
    ensures Traced(index, groups, rank, size, picks + [d], boundary)
  {
    var after := picks + [d];
    forall k | 0 <= k < |after| ensures PickAt(index, groups, rank, size, after, boundary, k) {
      PrefixChosen(groups, after, k);
      if k < |picks| {
        assert after[..k] == picks[..k] && PickAt(index, groups, rank, size, picks, boundary, k);
      } else {
        assert after[..k] == picks;
      }
    }
  }

  // ------------------------------------------------------------------------------------- the fill

  ghost predicate Ranked(rank: string -> nat, order: seq<string>) {
    forall i, j :: 0 <= i < j < |order| ==> rank(order[i]) < rank(order[j])
  }

  lemma LowestComesFirst(rank: string -> nat, order: seq<string>, i: nat)
    requires Ranked(rank, order) && i < |order|
    ensures forall e :: e in order[i..] ==> rank(order[i]) <= rank(e)
  {
    forall e | e in order[i..] ensures rank(order[i]) <= rank(e) {
      var k :| i <= k < |order| && order[k] == e;
    }
  }

  lemma RemoveOne(rank: string -> nat, order: seq<string>, k: nat)
    requires Ranked(rank, order) && k < |order|
    ensures var rest := order[..k] + order[k + 1..];
            Ranked(rank, rest) && forall x :: x in rest <==> x in order && x != order[k]
  {
    var rest := order[..k] + order[k + 1..];
    forall i | 0 <= i < |rest| ensures rest[i] != order[k] {
      assert rest[i] == order[if i < k then i else i + 1];
    }
    assert order == order[..k] + [order[k]] + order[k + 1..];
  }

  lemma TakenOnce(groups: Groups, picks: seq<string>, available: seq<string>, d: string)
    requires Chosen(groups, picks) && d in groups && d !in picks
    requires forall e :: e in available <==> e in groups && e !in picks
    ensures Chosen(groups, picks + [d]) && d in available
    ensures forall e :: e in groups && e !in picks + [d] <==> e in available && e != d
  {
    NoDupConcat(picks, [d]);
  }

  /** The selection being built: what `take` updates. */
  class Picker {
    const index: Index
    const groups: Groups
    const rank: string -> nat
    const size: int
    var selected: seq<string>
    var counts: map<string, nat>
    var available: seq<string>
    ghost var picks: seq<string>

    ghost predicate Valid()
      reads this
    {
      && GroupsOf(index, groups) && Chosen(groups, picks)
      && selected == Members(groups, picks) && |selected| <= size
      && (forall c :: CountOf(c) == CategoryCount(index, selected, c))
      && Ranked(rank, available) && (forall d :: d in available <==> d in groups && d !in picks)
    }

    function CountOf(c: string): nat
      reads this
    {
      if c in counts then counts[c] else 0
    }

    constructor (index: Index, groups: Groups, rank: string -> nat, size: int, order: seq<string>)
      requires GroupsOf(index, groups) && 0 < size
      requires Ranked(rank, order) && forall d :: d in order <==> d in groups
      ensures Valid() && picks == []
      ensures this.index == index && this.groups == groups && this.rank == rank && this.size == size
    {
      this.index, this.groups, this.rank, this.size := index, groups, rank, size;
      selected, counts, available := [], map[], order;
      picks := [];
    }

    method CountMembers(d: string)
      requires d in groups && forall c :: CountOf(c) == CategoryCount(index, selected, c)
      requires forall q :: q in groups[d] ==> q in index
      modifies this`selected, this`counts
      ensures selected == old(selected) + groups[d]
      ensures forall c :: CountOf(c) == CategoryCount(index, selected, c)
    {
      var members := groups[d];
      for i := 0 to |members|
        invariant selected == old(selected) + members[..i]
        invariant forall c :: CountOf(c) == CategoryCount(index, selected, c)
      {
        var q := members[i];
        assert q in members;
        var c := index[q].category;
        assert (selected + [q])[..|selected|] == selected;
        counts := counts[c := CountOf(c) + 1];
        selected := selected + [q];
        assert members[..i + 1] == members[..i] + [q];
      }
      assert members[..|members|] == members;
    }

    method Take(d: string)
      requires Valid() && Candidate(groups, picks, size, d)
      modifies this
      ensures Valid() && picks == old(picks) + [d] && |available| < |old(available)|
    {
      SnocMembers(groups, picks, d);
      TakenOnce(groups, picks, available, d);
      assert forall q :: q in groups[d] ==> q in index;
      CountMembers(d);
      picks := picks + [d];
      var k :| 0 <= k < |available| && available[k] == d;
      RemoveOne(rank, available, k);
      available := available[..k] + available[k + 1..];
    }

    method First(want: Want) returns (choice: Option<string>)
      requires Valid()
      ensures choice.None? ==> NoneOffers(index, groups, size, picks, want)
      ensures choice.Some? ==> FirstOffering(index, groups, rank, size, picks, want, choice.value)
    {
      for i := 0 to |available|
        invariant forall e :: e in available[..i] ==>
                    !(Candidate(groups, picks, size, e) && Offers(index, groups, e, want))
      {
        var d := available[i];
        assert d in available;
        assert available == available[..i] + available[i..] && available[..i + 1] == available[..i] + [d];
        if |selected| + |groups[d]| <= size && Offers(index, groups, d, want) {
          LowestComesFirst(rank, available, i);
          return Some(d);
        }
      }
      assert available[..|available|] == available;
      return None;
    }

    method TakeAbstention(c: string)
      requires Valid() && Traced(index, groups, rank, size, picks, |picks|)
      modifies this
      ensures Valid() && Traced(index, groups, rank, size, picks, |picks|)
      ensures Covered(index, groups, size, picks, c)
      ensures old(picks) <= picks
      ensures forall b :: old(Covered(index, groups, size, picks, b)) ==> Covered(index, groups, size, picks, b)
    {
      var choice := First(Want(c, true));
      if choice.Some? {
        ghost var before := picks;
        assert AbstentionPick(index, groups, rank, size, picks, choice.value);
        Take(choice.value);
        AbstentionStep(index, groups, rank, size, before, choice.value, c);
      }
    }

    /** Include abstention in every category that supplies it, before the balanced fill. */
    method AbstentionPass(categories: seq<string>)
      requires Valid() && picks == []
      modifies this
      ensures Valid() && Traced(index, groups, rank, size, picks, |picks|)
      ensures AllCovered(index, groups, size, picks, categories)
    {
      for i := 0 to |categories|
        invariant Valid() && Traced(index, groups, rank, size, picks, |picks|)
        invariant AllCovered(index, groups, size, picks, categories[..i])
      {
        TakeAbstention(categories[i]);
        assert categories[..i + 1] == categories[..i] + [categories[i]];
      }
      assert categories[..|categories|] == categories;
    }

    /** Try the categories from the least served up, and take the first group that fits. */
    method Choose(categories: seq<string>) returns (choice: Option<string>)
      requires Valid() && NoDup(categories) && forall q :: q in index ==> index[q].category in categories
      ensures choice.None? ==> forall d :: !Candidate(groups, picks, size, d)
      ensures choice.Some? ==> FillPick(index, groups, rank, size, picks, choice.value)
    {
      var byNeed := ByNeed(categories);
      for i := 0 to |byNeed|
        invariant forall k :: 0 <= k < i ==> NoneOffers(index, groups, size, picks, Want(byNeed[k], false))
      {
        choice := First(Want(byNeed[i], false));
        if choice.Some? {
          NeediestServed(index, groups, rank, size, picks, categories, byNeed, i, choice.value);
          return;
        }
      }
      NobodyFits(index, groups, size, picks, byNeed);
      return None;
    }

    method ByNeed(categories: seq<string>) returns (r: seq<string>)
      requires Valid() && NoDup(categories)
      ensures SameElements(r, categories)
      ensures forall i, j :: 0 <= i < j < |r| ==> LessServed(index, selected, r[i], r[j])
    {
      var counted := counts;
      var less := (a: string, b: string) =>
        var m := if a in counted then counted[a] else 0;
        var n := if b in counted then counted[b] else 0;
        m < n || (m == n && Before(a, b));
      BeforeIsAnOrder();
      assert Transitive(less);
      r := Sort(less, categories);
      forall i, j | 0 <= i < j < |r| ensures LessServed(index, selected, r[i], r[j]) {
        assert less(r[i], r[j]);
        assert CountOf(r[i]) == CategoryCount(index, selected, r[i]) && CountOf(r[j]) == CategoryCount(index, selected, r[j]);
      }
    }

    /** The balanced fill ends on every input: each round takes a group away. */
    method Fill(categories: seq<string>) returns (ok: bool)
      requires Valid() && Traced(index, groups, rank, size, picks, |picks|)
      requires NoDup(categories) && forall q :: q in index ==> index[q].category in categories
      modifies this
      ensures Valid() && old(picks) <= picks && Traced(index, groups, rank, size, picks, |old(picks)|)
      ensures if ok then |selected| == size else Stuck(groups, size, picks)
    {
      while |selected| < size
        invariant Valid() && old(picks) <= picks && Traced(index, groups, rank, size, picks, |old(picks)|)
        decreases |available|
      {
        var choice := Choose(categories);
        if choice.None? { return false; }
        ghost var before := picks;
        Take(choice.value);
        TracedSnoc(index, groups, rank, size, before, |old(picks)|, choice.value);
      }
      return true;
    }
  }

  lemma NeediestServed(index: Index, groups: Groups, rank: string -> nat, size: int, picks: seq<string>,
                       categories: seq<string>, byNeed: seq<string>, i: nat, d: string)
    requires Chosen(groups, picks) && i < |byNeed| && SameElements(byNeed, categories)
    requires forall q :: q in index ==> index[q].category in categories
    requires forall j, k :: 0 <= j < k < |byNeed| ==> LessServed(index, Members(groups, picks), byNeed[j], byNeed[k])
    requires forall k :: 0 <= k < i ==> NoneOffers(index, groups, size, picks, Want(byNeed[k], false))
    requires FirstOffering(index, groups, rank, size, picks, Want(byNeed[i], false), d)
    ensures FillPick(index, groups, rank, size, picks, d)
  {
    var selected := Members(groups, picks);
    forall b | LessServed(index, selected, b, byNeed[i]) ensures NoneOffers(index, groups, size, picks, Want(b, false)) {
      if b in byNeed {
        var k :| 0 <= k < |byNeed| && byNeed[k] == b;
        LessServedIsAsymmetric(index, selected, b, byNeed[i]);
        assert k < i;
      } else {
        assert b !in categories;
      }
    }
    assert FillPickFor(index, groups, rank, size, picks, d, byNeed[i]);
  }

  lemma NobodyFits(index: Index, groups: Groups, size: int, picks: seq<string>, byNeed: seq<string>)
    requires GroupsOf(index, groups) && Chosen(groups, picks)
    requires forall q :: q in index ==> index[q].category in byNeed
    requires forall k :: 0 <= k < |byNeed| ==> NoneOffers(index, groups, size, picks, Want(byNeed[k], false))
    ensures forall d :: !Candidate(groups, picks, size, d)
  {
    forall d | d in groups ensures !Candidate(groups, picks, size, d) {
      var q := groups[d][0];
      assert q in groups[d];
      assert Offers(index, groups, d, Want(index[q].category, false));
      var k :| 0 <= k < |byNeed| && byNeed[k] == index[q].category;
      assert NoneOffers(index, groups, size, picks, Want(byNeed[k], false));
    }
  }

  lemma AbstentionStep(index: Index, groups: Groups, rank: string -> nat, size: int, before: seq<string>, d: string, c: string)
    requires Chosen(groups, before) && Chosen(groups, before + [d])
    requires Traced(index, groups, rank, size, before, |before|)
    requires FirstOffering(index, groups, rank, size, before, Want(c, true), d)
    ensures Traced(index, groups, rank, size, before + [d], |before + [d]|)
    ensures forall b :: b == c || Covered(index, groups, size, before, b) ==> Covered(index, groups, size, before + [d], b)
  {
    TracedMore(index, groups, rank, size, before, |before|, |before| + 1);
    assert AbstentionPick(index, groups, rank, size, before, d);
    TracedSnoc(index, groups, rank, size, before, |before| + 1, d);
    forall b | b == c || Covered(index, groups, size, before, b) ensures Covered(index, groups, size, before + [d], b) {
      CoveredStays(index, groups, size, before, d, b, c);
    }
  }

  lemma TracedMore(index: Index, groups: Groups, rank: string -> nat, size: int, picks: seq<string>, boundary: nat, larger: nat)
    requires Chosen(groups, picks) && |picks| <= boundary <= larger && Traced(index, groups, rank, size, picks, boundary)
    ensures Traced(index, groups, rank, size, picks, larger)
  {
    forall k | 0 <= k < |picks| ensures PickAt(index, groups, rank, size, picks, larger, k) {
      assert PickAt(index, groups, rank, size, picks, boundary, k);
    }
  }

  lemma CoveredStays(index: Index, groups: Groups, size: int, picks: seq<string>, d: string, c: string, served: string)
    requires (forall x :: x in picks ==> x in groups) && d in groups && Offers(index, groups, d, Want(served, true))
    requires c == served || Covered(index, groups, size, picks, c)
    ensures (forall x :: x in picks + [d] ==> x in groups) && Covered(index, groups, size, picks + [d], c)
  {
    var after := picks + [d];
    if c == served {
      assert d in after;
    } else if e :| e in picks && Offers(index, groups, e, Want(c, true)) {
      assert e in after;
    } else {
      forall e | Candidate(groups, after, size, e) ensures !Offers(index, groups, e, Want(c, true)) {
        CandidatesShrink(groups, size, picks, d, e);
      }
    }
  }

  lemma LessServedIsAsymmetric(index: Index, selected: seq<string>, a: string, b: string)
    ensures !(LessServed(index, selected, a, b) && LessServed(index, selected, b, a)) && !LessServed(index, selected, a, a)
  {
    BeforeIsAnOrder();
  }

  // -------------------------------------------------------------------------------- balanced ids

  /** How a balanced choice of exactly `size` questions comes out. */
  ghost predicate Balanced(index: Index, groups: Groups, rank: string -> nat, size: int, picks: seq<string>, boundary: nat, ok: bool) {
    && GroupsOf(index, groups) && Chosen(groups, picks) && boundary <= |picks|
    && Traced(index, groups, rank, size, picks, boundary)
    && (forall c :: PrefixCovered(index, groups, size, picks, boundary, c))
    && if ok then |Members(groups, picks)| == size else Stuck(groups, size, picks)
  }

  ghost predicate PrefixCovered(index: Index, groups: Groups, size: int, picks: seq<string>, boundary: nat, c: string)
    requires Chosen(groups, picks) && boundary <= |picks|
  {
    PrefixChosen(groups, picks, boundary);
    Covered(index, groups, size, picks[..boundary], c)
  }

  /** Closed under shared history. */
  ghost predicate KeepsGroups(index: Index, ids: seq<string>) {
    forall q, r :: q in index && r in index && index[q].history == index[r].history ==> (q in ids <==> r in ids)
  }

  function Histories(index: Index): set<string> {
    set q | q in index :: index[q].history
  }

  /** No two of these histories have the same rank. */
  ghost predicate RanksApart(histories: set<string>, rank: string -> nat) {
    forall d, e :: d in histories && e in histories && rank(d) == rank(e) ==> d == e
  }

  lemma GroupedHistories(index: Index, groups: Groups)
    requires GroupsOf(index, groups)
    ensures groups.Keys == Histories(index)
  {
    forall d | d in groups ensures d in Histories(index) {
      var q := groups[d][0];
      assert q in groups[d];
      assert q in index && index[q].history == d;
    }
  }

  lemma GroupRanksApart(index: Index, groups: Groups, rank: string -> nat)
    requires GroupsOf(index, groups) && RanksApart(Histories(index), rank)
    ensures RanksApart(groups.Keys, rank)
  {
    GroupedHistories(index, groups);
  }

  /** How `BalancedIds` may come out. */
  ghost predicate Outcome(index: Index, size: int, rank: string -> nat, r: Result<seq<string>, Error>) {
    if !(0 < size <= |index|) then r == Err(BadSize)
    else exists groups, picks, boundary :: OutcomeOf(index, groups, rank, size, picks, boundary, r)
  }

  ghost predicate OutcomeOf(index: Index, groups: Groups, rank: string -> nat, size: int, picks: seq<string>, boundary: nat,
                            r: Result<seq<string>, Error>) {
    && Balanced(index, groups, rank, size, picks, boundary, r.Ok?)
    && if r.Ok? then SameElements(r.value, Members(groups, picks)) else r == Err(CannotFill)
  }

  method PickGroups(index: Index, groups: Groups, rank: string -> nat, size: int, order: seq<string>, categories: seq<string>)
    returns (r: Result<seq<string>, Error>)
    requires GroupsOf(index, groups) && 0 < size <= |index|
    requires Ranked(rank, order) && forall d :: d in order <==> d in groups
    requires NoDup(categories) && forall q :: q in index ==> index[q].category in categories
    ensures Outcome(index, size, rank, r) && (r.Ok? ==> ChosenIds(index, size, r.value))
  {
    var picker := new Picker(index, groups, rank, size, order);
    picker.AbstentionPass(categories);
    ghost var boundary, first := |picker.picks|, picker.picks;
    var ok := picker.Fill(categories);
    assert picker.picks[..boundary] == first;
    forall c ensures PrefixCovered(index, groups, size, picker.picks, boundary, c) {
      CoveredEverywhere(index, groups, size, first, categories, c);
    }
    if !ok {
      StuckOutcome(index, groups, rank, size, picker.picks, boundary);
      return Err(CannotFill);
    }
    FilledOutcome(index, groups, rank, size, picker.picks, boundary);
    return Ok(picker.selected);
  }

  /** What a successful choice promises of the ids it returns. */
  ghost predicate ChosenIds(index: Index, size: int, ids: seq<string>) {
    NoDup(ids) && |ids| == size && (forall q :: q in ids ==> q in index) && KeepsGroups(index, ids)
  }

  lemma FilledOutcome(index: Index, groups: Groups, rank: string -> nat, size: int, picks: seq<string>, boundary: nat)
    requires 0 < size <= |index| && Balanced(index, groups, rank, size, picks, boundary, true)
    ensures Outcome(index, size, rank, Ok(Members(groups, picks))) && ChosenIds(index, size, Members(groups, picks))
  {
    assert OutcomeOf(index, groups, rank, size, picks, boundary, Ok(Members(groups, picks)));
    MembersClosed(index, groups, picks);
  }

  lemma StuckOutcome(index: Index, groups: Groups, rank: string -> nat, size: int, picks: seq<string>, boundary: nat)
    requires 0 < size <= |index| && Balanced(index, groups, rank, size, picks, boundary, false)
    ensures Outcome(index, size, rank, Err(CannotFill))
  {
    assert OutcomeOf(index, groups, rank, size, picks, boundary, Err(CannotFill));
  }

  lemma ReorderedOutcome(index: Index, size: int, rank: string -> nat, a: seq<string>, b: seq<string>)
    requires Outcome(index, size, rank, Ok(a)) && SameElements(a, b) && NoDup(b) && ChosenIds(index, size, a)
    ensures Outcome(index, size, rank, Ok(b)) && ChosenIds(index, size, b)
  {
    var groups, picks, boundary :| OutcomeOf(index, groups, rank, size, picks, boundary, Ok(a));
    assert OutcomeOf(index, groups, rank, size, picks, boundary, Ok(b));
    SameElementsSameLength(a, b);
  }

  method BalancedIds(index: Index, size: int, rank: string -> nat) returns (r: Result<seq<string>, Error>)
    requires RanksApart(Histories(index), rank)
    ensures Outcome(index, size, rank, r)
    ensures r.Ok? ==> Sorted(Before, r.value) && ChosenIds(index, size, r.value)
  {
    if !(0 < size <= |index|) { return Err(BadSize); }
    var groups := GroupByHistory(index);
    GroupRanksApart(index, groups, rank);
    var order := ByRank(groups, rank);
    var categories := CategoriesOf(index);
    var selected := PickGroups(index, groups, rank, size, order, categories);
    if selected.Err? { return selected; }
    var ids := SortStrings(selected.value);
    ReorderedOutcome(index, size, rank, selected.value, ids);
    return Ok(ids);
  }

  method CategoriesOf(index: Index) returns (categories: seq<string>)
    ensures Sorted(Before, categories) && NoDup(categories)
    ensures forall q :: q in index ==> index[q].category in categories
  {
    categories := ElementsOf(set q | q in index :: index[q].category);
    categories := SortStrings(categories);
    forall q | q in index ensures index[q].category in categories {}
  }

  lemma CoveredEverywhere(index: Index, groups: Groups, size: int, picks: seq<string>, categories: seq<string>, c: string)
    requires GroupsOf(index, groups) && Chosen(groups, picks)
    requires forall q :: q in index ==> index[q].category in categories
    requires AllCovered(index, groups, size, picks, categories)
    ensures Covered(index, groups, size, picks, c)
  {
    if c !in categories {
      forall e | Candidate(groups, picks, size, e) ensures !Offers(index, groups, e, Want(c, true)) {}
    }
  }

  method ByRank(groups: Groups, rank: string -> nat) returns (order: seq<string>)
    requires RanksApart(groups.Keys, rank)
    ensures Ranked(rank, order) && forall d :: d in order <==> d in groups
  {
    var digests := ElementsOf(groups.Keys);
    var less := (a: string, b: string) => rank(a) < rank(b);
    forall i, j | 0 <= i < j < |digests| ensures less(digests[i], digests[j]) || less(digests[j], digests[i]) {
      assert digests[i] != digests[j];
    }
    order := Sort(less, digests);
    forall i, j | 0 <= i < j < |order| ensures rank(order[i]) < rank(order[j]) { assert less(order[i], order[j]); }
  }

  // --------------------------------------------------------------------------- when the fill fails

  lemma {:induction false} UniformMembers(groups: Groups, picks: seq<string>, k: nat)
    requires (forall d :: d in picks ==> d in groups) && forall d :: d in groups ==> |groups[d]| == k
    ensures |Members(groups, picks)| == k * |picks|
  {
    if picks != [] {
      var n := |picks| - 1;
      assert picks[n] in picks;
      UniformMembers(groups, picks[..n], k);
      assert k * n + k == k * (n + 1);
    }
  }

  lemma AllTakenIsAll(index: Index, groups: Groups, picks: seq<string>)
    requires GroupsOf(index, groups) && Chosen(groups, picks) && forall d :: d in groups ==> d in picks
    ensures |Members(groups, picks)| == |index|
  {
    MembersClosed(index, groups, picks);
    NoDupCounts(Members(groups, picks));
    assert Elements(Members(groups, picks)) == index.Keys;
    assert |index.Keys| == |index|;
  }

  lemma SomethingLeft(index: Index, groups: Groups, picks: seq<string>) returns (d: string)
    requires GroupsOf(index, groups) && Chosen(groups, picks) && |Members(groups, picks)| < |index|
    ensures d in groups && d !in picks
  {
    if forall d :: d in groups ==> d in picks { AllTakenIsAll(index, groups, picks); }
    d :| d in groups && d !in picks;
  }

  /** With histories shared by k questions each, a split of a possible size is found exactly when k divides it. */
  lemma UniformSucceedsIff(index: Index, groups: Groups, rank: string -> nat, size: int, picks: seq<string>,
                           boundary: nat, ok: bool, k: nat)
    requires Balanced(index, groups, rank, size, picks, boundary, ok) && 0 < size <= |index|
    requires 0 < k && forall d :: d in groups ==> |groups[d]| == k
    ensures ok <==> size % k == 0
  {
    UniformMembers(groups, picks, k);
    if !ok {
      var d := SomethingLeft(index, groups, picks);
      assert !Candidate(groups, picks, size, d);
      QuotientIs(size, k, |picks|, size - k * |picks|);
    } else {
      QuotientIs(size, k, |picks|, 0);
    }
  }

  /** Every choice of whole groups that is still short of the size leaves some group that fits. */
  ghost predicate Extensible(groups: Groups, size: int) {
    forall picks :: Chosen(groups, picks) ==> !Stuck(groups, size, picks)
  }

  /** Whatever the fill is free to decide, it succeeds. */
  ghost predicate Succeeds(index: Index, size: int, rank: string -> nat) {
    forall r :: Outcome(index, size, rank, r) ==> r.Ok?
  }

  ghost predicate Refused(index: Index, size: int, rank: string -> nat) {
    forall r :: Outcome(index, size, rank, r) ==> r == Err(CannotFill)
  }

  lemma GroupsAgree(index: Index, a: Groups, b: Groups, d: string)
    requires GroupsOf(index, a) && GroupsOf(index, b)
    ensures d in a <==> d in b
    ensures d in a ==> |a[d]| == |b[d]|
  {
    GroupedHistories(index, a);
    GroupedHistories(index, b);
    if d in a {
      forall x ensures x in a[d] <==> x in b[d] {
        assert x in a[d] <==> x in index && index[x].history == d;
        assert x in b[d] <==> x in index && index[x].history == d;
      }
      SameElementsSameLength(a[d], b[d]);
    }
  }

  lemma {:induction false} MembersAgree(index: Index, a: Groups, b: Groups, picks: seq<string>)
    requires GroupsOf(index, a) && GroupsOf(index, b) && forall d :: d in picks ==> d in a
    ensures (forall d :: d in picks ==> d in b) && |Members(a, picks)| == |Members(b, picks)|
  {
    if picks != [] {
      var n := |picks| - 1;
      assert picks == picks[..n] + [picks[n]];
      MembersAgree(index, a, b, picks[..n]);
      GroupsAgree(index, a, b, picks[n]);
    }
  }

  lemma StuckAgrees(index: Index, a: Groups, b: Groups, size: int, picks: seq<string>)
    requires GroupsOf(index, a) && GroupsOf(index, b) && Chosen(a, picks) && Stuck(a, size, picks)
    ensures Chosen(b, picks) && Stuck(b, size, picks)
  {
    MembersAgree(index, a, b, picks);
    forall d ensures !Candidate(b, picks, size, d) {
      GroupsAgree(index, a, b, d);
      assert !Candidate(a, picks, size, d);
    }
  }

  /** Whatever the categories and the abstentions, every rank succeeds if no choice of groups can get stuck. */
  lemma ExtensibleSucceeds(index: Index, groups: Groups, rank: string -> nat, size: int)
    requires GroupsOf(index, groups) && Extensible(groups, size) && 0 < size <= |index|
    ensures Succeeds(index, size, rank)
  {
    forall r | Outcome(index, size, rank, r) ensures r.Ok? {
      var g, picks, boundary :| OutcomeOf(index, g, rank, size, picks, boundary, r);
      if !r.Ok? {
        StuckAgrees(index, g, groups, size, picks);
        assert false;
      }
    }
  }

  ghost predicate OneCategory(index: Index, category: string) {
    forall q :: q in index ==> index[q].category == category && !index[q].abstention
  }

  /** The ranks take the groups of this list first, in its order. */
  ghost predicate Leads(groups: Groups, rank: string -> nat, first: seq<string>) {
    forall k, e :: 0 <= k < |first| && e in groups && e !in first[..k] && e != first[k] ==> rank(first[k]) < rank(e)
  }

  function Position(order: seq<string>, d: string): nat {
    if order == [] || order[0] == d then 0 else 1 + Position(order[1..], d)
  }

  lemma {:induction false} PositionIs(order: seq<string>, d: string)
    requires d in order
    ensures Position(order, d) < |order| && order[Position(order, d)] == d
  {
    if order[0] != d { PositionIs(order[1..], d); }
  }

  lemma {:induction false} PositionOf(order: seq<string>, k: nat)
    requires NoDup(order) && k < |order|
    ensures Position(order, order[k]) == k
  {
    if k > 0 { PositionOf(order[1..], k - 1); }
  }

  /** Some ranks put any given choice of groups first. */
  lemma RankToLead(groups: Groups, first: seq<string>) returns (rank: string -> nat)
    requires Chosen(groups, first)
    ensures RanksApart(groups.Keys, rank) && Leads(groups, rank, first)
  {
    var order := Listed(groups.Keys, first);
    rank := d => Position(order, d);
    forall d, e | d in groups && e in groups && rank(d) == rank(e) ensures d == e {
      PositionIs(order, d);
      PositionIs(order, e);
    }
    forall k, e | 0 <= k < |first| && e in groups && e !in first[..k] && e != first[k] ensures rank(first[k]) < rank(e) {
      assert order[k] == first[k] && order[..k + 1] == first[..k] + [first[k]];
      PositionOf(order, k);
      if Position(order, e) <= k {
        InPrefix(order, e, k + 1);
        assert false;
      }
    }
  }

  lemma InPrefix(order: seq<string>, d: string, k: nat)
    requires d in order && Position(order, d) < k <= |order|
    ensures d in order[..k]
  {
    PositionIs(order, d);
    assert order[..k][Position(order, d)] == d;
  }

  lemma {:induction false} AsList(s: set<string>) returns (r: seq<string>)
    ensures NoDup(r) && forall x :: x in r <==> x in s
  {
    r := [];
    if x :| x in s {
      var rest := AsList(s - {x});
      NoDupConcat([x], rest);
      r := [x] + rest;
    }
  }

  /** Every element once, the given ones first. */
  lemma Listed(all: set<string>, first: seq<string>) returns (order: seq<string>)
    requires NoDup(first) && forall x :: x in first ==> x in all
    ensures first <= order && NoDup(order) && forall x :: x in order <==> x in all
  {
    NoDupCounts(first);
    var rest := AsList(all - Elements(first));
    NoDupConcat(first, rest);
    order := first + rest;
  }

  /** Taking only the list's first groups leaves room for the next one. */
  lemma {:induction false} MembersPrefix(groups: Groups, picks: seq<string>, k: nat)
    requires (forall d :: d in picks ==> d in groups) && k <= |picks|
    ensures forall d :: d in picks[..k] ==> d in groups
    ensures |Members(groups, picks[..k])| <= |Members(groups, picks)|
    ensures k < |picks| ==> |Members(groups, picks[..k])| + |groups[picks[k]]| <= |Members(groups, picks)|
    decreases |picks|
  {
    assert forall d :: d in picks[..k] ==> d in picks;
    if k == |picks| {
      assert picks[..k] == picks;
    } else {
      var n := |picks| - 1;
      assert picks[n] in picks && forall d :: d in picks[..n] ==> d in picks;
      if k < n { assert picks[..n][..k] == picks[..k] && picks[..n][k] == picks[k]; }
      MembersPrefix(groups, picks[..n], k);
      if k == n { assert picks[..n][..k] == picks[..k]; }
    }
  }

  lemma NextCandidate(groups: Groups, size: int, picks: seq<string>, k: nat)
    requires Chosen(groups, picks) && |Members(groups, picks)| <= size && k < |picks|
    ensures Chosen(groups, picks[..k]) && Candidate(groups, picks[..k], size, picks[k])
  {
    PrefixChosen(groups, picks, k);
    MembersPrefix(groups, picks, k);
    assert picks[k] in picks;
  }

  /** With one category and no abstention question, a pick is just the lowest-ranked group that fits. */
  lemma PlainPick(index: Index, groups: Groups, rank: string -> nat, size: int, picks: seq<string>, c: string, d: string)
    requires GroupsOf(index, groups) && OneCategory(index, c) && Chosen(groups, picks)
    ensures FillPick(index, groups, rank, size, picks, d) <==>
              Candidate(groups, picks, size, d) && forall e :: Candidate(groups, picks, size, e) ==> rank(d) <= rank(e)
    ensures !AbstentionPick(index, groups, rank, size, picks, d)
    ensures forall b :: NoneOffers(index, groups, size, picks, Want(b, true))
  {
    forall e, b | e in groups ensures Offers(index, groups, e, Want(b, false)) <==> b == c {
      assert groups[e][0] in groups[e];
    }
    LessServedIsAsymmetric(index, Members(groups, picks), c, c);
    if Candidate(groups, picks, size, d) && forall e :: Candidate(groups, picks, size, e) ==> rank(d) <= rank(e) {
      assert FillPickFor(index, groups, rank, size, picks, d, c);
    }
  }

  /** If the ranks lead with groups that get stuck, the fill takes just those groups and fails. */
  lemma FollowsTheRanks(index: Index, groups: Groups, rank: string -> nat, size: int, c: string, first: seq<string>,
                        picks: seq<string>, boundary: nat, ok: bool)
    requires OneCategory(index, c) && Chosen(groups, first) && Stuck(groups, size, first) && Leads(groups, rank, first)
    requires Balanced(index, groups, rank, size, picks, boundary, ok)
    ensures picks == first && !ok
  {
    if boundary > 0 {
      AbstentionTaken(index, groups, rank, size, picks, boundary);
      assert false;
    }
    SameStart(index, groups, rank, size, c, first, picks, if |first| < |picks| then |first| else |picks|);
    if |picks| < |first| {
      assert first[..|picks|] == picks;
      NextCandidate(groups, size, first, |picks|);
      MembersPrefix(groups, first, |picks|);
      assert false;
    }
    assert picks[..|first|] == first[..|first|] == first;
    if |picks| > |first| {
      NextCandidate(groups, size, picks, |first|);
      assert false;
    }
  }

  lemma AbstentionTaken(index: Index, groups: Groups, rank: string -> nat, size: int, picks: seq<string>, boundary: nat)
    requires Chosen(groups, picks) && Traced(index, groups, rank, size, picks, boundary) && 0 < boundary <= |picks|
    ensures exists q :: q in index && index[q].abstention
  {
    assert PickAt(index, groups, rank, size, picks, boundary, 0);
    PrefixChosen(groups, picks, 0);
    var c :| FirstOffering(index, groups, rank, size, picks[..0], Want(c, true), picks[0]);
  }

  lemma {:induction false} SameStart(index: Index, groups: Groups, rank: string -> nat, size: int, c: string,
                                     first: seq<string>, picks: seq<string>, k: nat)
    requires GroupsOf(index, groups) && OneCategory(index, c) && Chosen(groups, first) && Chosen(groups, picks)
    requires |Members(groups, first)| < size && Leads(groups, rank, first)
    requires Traced(index, groups, rank, size, picks, 0) && k <= |first| && k <= |picks|
    ensures picks[..k] == first[..k]
  {
    if k > 0 {
      var n := k - 1;
      SameStart(index, groups, rank, size, c, first, picks, n);
      PrefixChosen(groups, picks, n);
      assert PickAt(index, groups, rank, size, picks, 0, n);
      PlainPick(index, groups, rank, size, picks[..n], c, picks[n]);
      NextCandidate(groups, size, first, n);
      assert picks[n] == first[n];
      assert picks[..k] == picks[..n] + [picks[n]] && first[..k] == first[..n] + [first[n]];
    }
  }

  /** And that run is one the fill can make. */
  lemma RanksCanStick(index: Index, groups: Groups, rank: string -> nat, size: int, c: string, first: seq<string>)
    requires GroupsOf(index, groups) && OneCategory(index, c)
    requires Chosen(groups, first) && Stuck(groups, size, first) && Leads(groups, rank, first)
    ensures Balanced(index, groups, rank, size, first, 0, false)
  {
    forall k | 0 <= k < |first| ensures PickAt(index, groups, rank, size, first, 0, k) {
      NextCandidate(groups, size, first, k);
      PlainPick(index, groups, rank, size, first[..k], c, first[k]);
    }
    assert first[..0] == [];
    forall b ensures PrefixCovered(index, groups, size, first, 0, b) {
      PrefixChosen(groups, first, 0);
      PlainPick(index, groups, rank, size, first[..0], c, "");
    }
  }

  /** Ranks that lead with a stuck choice leave only one way to go, and it fails. */
  lemma LeadingRanksFail(index: Index, groups: Groups, rank: string -> nat, size: int, c: string, first: seq<string>)
    requires GroupsOf(index, groups) && OneCategory(index, c) && 0 < size <= |index|
    requires Chosen(groups, first) && Stuck(groups, size, first) && Leads(groups, rank, first)
    ensures Outcome(index, size, rank, Err(CannotFill)) && Refused(index, size, rank)
  {
    RanksCanStick(index, groups, rank, size, c, first);
    StuckOutcome(index, groups, rank, size, first, 0);
    forall r | Outcome(index, size, rank, r) ensures r == Err(CannotFill) {
      var g, picks, boundary :| OutcomeOf(index, g, rank, size, picks, boundary, r);
      StuckAgrees(index, groups, g, size, first);
      LeadsAgrees(index, groups, g, rank, first);
      FollowsTheRanks(index, g, rank, size, c, first, picks, boundary, r.Ok?);
    }
  }

  lemma LeadsAgrees(index: Index, a: Groups, b: Groups, rank: string -> nat, first: seq<string>)
    requires GroupsOf(index, a) && GroupsOf(index, b) && Leads(a, rank, first)
    ensures Leads(b, rank, first)
  {
    forall e ensures e in a <==> e in b { GroupsAgree(index, a, b, e); }
  }

  /**
   * Questions of one category, none of them abstaining: every rank succeeds exactly when no choice of whole
   * groups short of the size is stuck. Otherwise there is a rank for which the fill cannot but fail.
   */
  lemma OneCategorySucceedsIff(index: Index, groups: Groups, size: int, c: string)
    requires GroupsOf(index, groups) && OneCategory(index, c) && 0 < size <= |index|
    ensures Extensible(groups, size) <==>
              forall rank: string -> nat :: RanksApart(Histories(index), rank) ==> Succeeds(index, size, rank)
    ensures !Extensible(groups, size) ==>
              exists rank: string -> nat :: RanksApart(Histories(index), rank) && Refused(index, size, rank)
  {
    if Extensible(groups, size) {
      forall rank: string -> nat ensures Succeeds(index, size, rank) { ExtensibleSucceeds(index, groups, rank, size); }
    } else {
      var first :| Chosen(groups, first) && Stuck(groups, size, first);
      var rank := RankToLead(groups, first);
      GroupedHistories(index, groups);
      LeadingRanksFail(index, groups, rank, size, c, first);
    }
  }

  // ---------------------------------------------------------------------------------- the splits

  datatype Split = Split(dev: seq<string>, pilot: seq<string>, eval: seq<string>)

  /** The first question that cannot be indexed decides the error. */
  predicate Indexable(questions: seq<Question>, i: nat)
    requires i < |questions|
  {
    var q := questions[i];
    q.id != "" && (forall j :: 0 <= j < i ==> questions[j].id != q.id) && q.category != "" && q.history.Some?
  }

  /** All questions before this one are indexable, and what is wrong with this one decides: its id, category or history. */
  ghost predicate FirstRefused(questions: seq<Question>, i: nat, error: Error)
    requires i < |questions|
  {
    var q := questions[i];
    var badId := q.id == "" || exists j :: 0 <= j < i && questions[j].id == q.id;
    && (forall j :: 0 <= j < i ==> Indexable(questions, j))
    && (badId || q.category == "" || q.history == None)
    && error == if badId then BadId else if q.category == "" then BadCategory else BadHistory
  }

  ghost predicate DistinctIds(questions: seq<Question>) {
    forall i, j :: 0 <= i < j < |questions| ==> questions[i].id != questions[j].id
  }

  /** All questions can be indexed exactly if every one has an id, a category and a history, and no id comes twice. */
  lemma IndexableIff(questions: seq<Question>)
    ensures (forall i :: 0 <= i < |questions| ==> Indexable(questions, i)) <==>
              && DistinctIds(questions)
              && forall q :: q in questions ==> |q.id| > 0 && |q.category| > 0 && q.history != None
  {
    if forall i :: 0 <= i < |questions| ==> Indexable(questions, i) {
      forall q | q in questions ensures |q.id| > 0 && |q.category| > 0 && q.history != None {
        var i :| 0 <= i < |questions| && questions[i] == q;
        assert Indexable(questions, i);
      }
      forall i, j | 0 <= i < j < |questions| ensures questions[i].id != questions[j].id { assert Indexable(questions, j); }
    } else {
      var i :| 0 <= i < |questions| && !Indexable(questions, i);
      assert questions[i] in questions;
    }
  }

  predicate IndexedAs(index: Index, q: Question) {
    q.id in index && q.history.Some? && index[q.id] == Row(q.category, q.abstention, q.history.value)
  }

  /** The index holds exactly these questions. */
  ghost predicate Indexes(index: Index, questions: seq<Question>) {
    && |index| == |questions|
    && (forall id :: id in index ==> exists i :: 0 <= i < |questions| && questions[i].id == id)
    && (forall i :: 0 <= i < |questions| ==> IndexedAs(index, questions[i]))
  }

  method QuestionIndex(questions: seq<Question>) returns (r: Result<Index, Error>)
    ensures r.Ok? <==> forall i :: 0 <= i < |questions| ==> Indexable(questions, i)
    ensures r.Ok? ==> Indexes(r.value, questions)
    ensures r.Err? ==> exists i :: 0 <= i < |questions| && FirstRefused(questions, i, r.error)
  {
    var index: Index := map[];
    for i := 0 to |questions|
      invariant forall k :: 0 <= k < i ==> Indexable(questions, k)
      invariant |index| == i
      invariant forall id :: id in index ==> exists k :: 0 <= k < i && questions[k].id == id
      invariant forall k :: 0 <= k < i ==> IndexedAs(index, questions[k])
    {
      var q := questions[i];
      if q.id == "" || q.id in index {
        assert !Indexable(questions, i) && FirstRefused(questions, i, BadId);
        return Err(BadId);
      }
      if q.category == "" {
        assert !Indexable(questions, i) && FirstRefused(questions, i, BadCategory);
        return Err(BadCategory);
      }
      if q.history.None? {
        assert !Indexable(questions, i) && FirstRefused(questions, i, BadHistory);
        return Err(BadHistory);
      }
      index := index[q.id := Row(q.category, q.abstention, q.history.value)];
    }
    return Ok(index);
  }

  /** What a successful split promises. */
  ghost predicate SplitLaw(index: Index, s: Split, devSize: int, pilotSize: int) {
    && |s.dev| == devSize && |s.pilot| == pilotSize && |s.eval| == |index| - devSize > 0
    && Sorted(Before, s.dev) && Sorted(Before, s.pilot) && Sorted(Before, s.eval)
    && (forall q :: q in index <==> q in s.dev || q in s.eval)
    && (forall q :: q in s.dev ==> q !in s.eval)
    && (forall q :: q in s.pilot ==> q in s.dev)
    && KeepsGroups(index, s.dev) && KeepsGroups(index, s.eval) && KeepsGroups(index, s.pilot)
  }

  function Within(index: Index, ids: seq<string>): Index {
    map q | q in index && q in ids :: index[q]
  }

  /** The dev ids decide first, then the pilot ids drawn from them; the first failure is the result. */
  ghost predicate SplitOutcome(index: Index, devSize: int, pilotSize: int, rank: string -> nat, r: Result<Split, Error>) {
    if devSize >= |index| then r == Err(NothingHeldOut)
    else exists dev :: Outcome(index, devSize, rank, dev) && DevOutcome(index, dev, pilotSize, rank, r)
  }

  ghost predicate DevOutcome(index: Index, dev: Result<seq<string>, Error>, pilotSize: int, rank: string -> nat, r: Result<Split, Error>) {
    match dev
    case Err(e) => r == Err(e)
    case Ok(ids) => exists pilot :: Outcome(Within(index, ids), pilotSize, rank, pilot) && PilotOutcome(ids, pilot, r)
  }

  ghost predicate PilotOutcome(dev: seq<string>, pilot: Result<seq<string>, Error>, r: Result<Split, Error>) {
    match pilot
    case Err(e) => r == Err(e)
    case Ok(ids) => r.Ok? && r.value.dev == dev && r.value.pilot == ids
  }

  /** Too large a dev split holds nothing out; any other size that cannot be is refused; and only a fill that gets stuck fails besides. */
  lemma SplitOutcomeMeans(index: Index, devSize: int, pilotSize: int, rank: string -> nat, r: Result<Split, Error>)
    requires SplitOutcome(index, devSize, pilotSize, rank, r)
    ensures r == Err(NothingHeldOut) <==> devSize >= |index|
    ensures r == Err(BadSize) ==> devSize < |index| && (devSize < 1 || pilotSize < 1 || pilotSize > devSize)
    ensures devSize < |index| && devSize < 1 ==> r == Err(BadSize)
    ensures r.Ok? ==> 1 <= pilotSize <= devSize
    ensures r.Err? ==> r.error in {NothingHeldOut, BadSize, CannotFill}
  {
    if devSize < |index| {
      var dev :| Outcome(index, devSize, rank, dev) && DevOutcome(index, dev, pilotSize, rank, r);
      OutcomeErrors(index, devSize, rank, dev);
      if dev.Ok? { AfterDev(index, dev.value, devSize, pilotSize, rank, r); }
    }
  }

  lemma OutcomeErrors(index: Index, size: int, rank: string -> nat, r: Result<seq<string>, Error>)
    requires Outcome(index, size, rank, r)
    ensures r == Err(BadSize) <==> size < 1 || size > |index|
    ensures r.Err? ==> r.error in {BadSize, CannotFill}
  {
  }

  lemma AfterDev(index: Index, dev: seq<string>, devSize: int, pilotSize: int, rank: string -> nat, r: Result<Split, Error>)
    requires Outcome(index, devSize, rank, Ok(dev)) && DevOutcome(index, Ok(dev), pilotSize, rank, r)
    ensures r == Err(BadSize) <==> pilotSize < 1 || pilotSize > devSize
    ensures r.Err? ==> r.error in {BadSize, CannotFill}
  {
    WithinSize(index, devSize, rank, dev);
    var pilot :| Outcome(Within(index, dev), pilotSize, rank, pilot) && PilotOutcome(dev, pilot, r);
    OutcomeErrors(Within(index, dev), pilotSize, rank, pilot);
  }

  lemma WithinSize(index: Index, size: int, rank: string -> nat, ids: seq<string>)
    requires Outcome(index, size, rank, Ok(ids))
    ensures |Within(index, ids)| == size
  {
    var groups, picks, boundary :| OutcomeOf(index, groups, rank, size, picks, boundary, Ok(ids));
    MembersClosed(index, groups, picks);
    assert Within(index, ids) == Within(index, Members(groups, picks));
    DevSize(index, Members(groups, picks), Within(index, Members(groups, picks)));
  }

  method SplitIndex(index: Index, devSize: int, pilotSize: int, rank: string -> nat) returns (r: Result<Split, Error>)
    requires RanksApart(Histories(index), rank)
    ensures SplitOutcome(index, devSize, pilotSize, rank, r)
    ensures r.Ok? ==> SplitLaw(index, r.value, devSize, pilotSize)
  {
    if devSize >= |index| { return Err(NothingHeldOut); }
    var dev := BalancedIds(index, devSize, rank);
    if dev.Err? {
      assert DevOutcome(index, dev, pilotSize, rank, Err(dev.error));
      return Err(dev.error);
    }
    var devIndex := Within(index, dev.value);
    DevSize(index, dev.value, devIndex);
    assert Histories(devIndex) <= Histories(index);
    var pilot := BalancedIds(devIndex, pilotSize, rank);
    if pilot.Err? {
      assert PilotOutcome(dev.value, pilot, Err(pilot.error));
      assert DevOutcome(index, dev, pilotSize, rank, Err(pilot.error));
      return Err(pilot.error);
    }
    var held := ElementsOf(index.Keys - devIndex.Keys);
    var eval := SortStrings(held);
    HeldSize(index, devIndex, eval);
    GroupsStayWhole(index, devIndex, dev.value, pilot.value, eval);
    r := Ok(Split(dev.value, pilot.value, eval));
    assert PilotOutcome(dev.value, pilot, r);
    assert DevOutcome(index, dev, pilotSize, rank, r);
  }

  lemma GroupsStayWhole(index: Index, devIndex: Index, dev: seq<string>, pilot: seq<string>, eval: seq<string>)
    requires forall q :: q in dev ==> q in index
    requires devIndex == Within(index, dev)
    requires KeepsGroups(index, dev) && KeepsGroups(devIndex, pilot) && forall q :: q in pilot ==> q in devIndex
    requires forall q :: q in eval <==> q in index && q !in devIndex
    ensures KeepsGroups(index, pilot) && KeepsGroups(index, eval)
  {
  }

  lemma DevSize(index: Index, dev: seq<string>, devIndex: Index)
    requires NoDup(dev) && devIndex == Within(index, dev) && forall q :: q in dev ==> q in index
    ensures |devIndex| == |dev|
  {
    NoDupCounts(dev);
    assert Elements(dev) == devIndex.Keys;
    assert |devIndex.Keys| == |devIndex|;
  }

  lemma HeldSize(index: Index, devIndex: Index, eval: seq<string>)
    requires NoDup(eval) && devIndex.Keys <= index.Keys && forall q :: q in eval <==> q in index.Keys - devIndex.Keys
    ensures |eval| == |index| - |devIndex|
  {
    NoDupCounts(eval);
    assert Elements(eval) == index.Keys - devIndex.Keys;
    assert |index.Keys| == |index| && |devIndex.Keys| == |devIndex|;
  }

  function QuestionHistories(questions: seq<Question>): set<string> {
    set q | q in questions && q.history.Some? :: q.history.value
  }

  method MakeSplits(questions: seq<Question>, devSize: int, pilotSize: int, rank: string -> nat)
    returns (r: Result<Split, Error>, index: Index)
    requires RanksApart(QuestionHistories(questions), rank)
    ensures (forall i :: 0 <= i < |questions| ==> Indexable(questions, i)) ==>
              && Indexes(index, questions) && SplitOutcome(index, devSize, pilotSize, rank, r)
              && (r.Ok? ==> SplitLaw(index, r.value, devSize, pilotSize))
    ensures (exists i :: 0 <= i < |questions| && !Indexable(questions, i)) ==>
              r.Err? && exists i :: 0 <= i < |questions| && FirstRefused(questions, i, r.error)
  {
    var built := QuestionIndex(questions);
    if built.Err? { return Err(built.error), map[]; }
    index := built.value;
    IndexedHistories(index, questions);
    r := SplitIndex(index, devSize, pilotSize, rank);
  }

  lemma IndexedHistories(index: Index, questions: seq<Question>)
    requires Indexes(index, questions)
    ensures Histories(index) <= QuestionHistories(questions)
  {
    forall q | q in index ensures index[q].history in QuestionHistories(questions) {
      var i :| 0 <= i < |questions| && questions[i].id == q;
      assert IndexedAs(index, questions[i]) && questions[i] in questions;
    }
  }

  // --------------------------------------------------------------------------- a split that is missed

  function SharedBy(a: string, b: string, c: string, i: nat): string {
    if i < 3 then a else if i < 5 then b else c
  }

  /** The questions with this history are the ones from `lo` up to `hi`. */
  ghost predicate Slice(questions: seq<Question>, d: string, lo: nat, hi: nat) {
    lo < hi <= |questions| && forall i :: 0 <= i < |questions| ==> (questions[i].history == Some(d) <==> lo <= i < hi)
  }

  /** Seven questions of one category, none abstaining: three share history a, two share b, two share c. */
  ghost predicate ThreeTwoTwo(questions: seq<Question>, category: string, a: string, b: string, c: string) {
    && |questions| == 7 && category != "" && a != b && b != c && a != c
    && (forall i :: 0 <= i < 7 ==> questions[i].id != "")
    && DistinctIds(questions)
    && (forall i :: 0 <= i < 7 ==>
          questions[i] == Question(questions[i].id, category, false, Some(SharedBy(a, b, c, i))))
  }

  function IdsOf(questions: seq<Question>, lo: nat, hi: nat): (r: seq<string>)
    requires lo <= hi <= |questions|
    ensures |r| == hi - lo && forall k :: 0 <= k < hi - lo ==> r[k] == questions[lo + k].id
  {
    if lo == hi then [] else IdsOf(questions, lo, hi - 1) + [questions[hi - 1].id]
  }

  lemma SharedIds(questions: seq<Question>, index: Index, d: string, lo: nat, hi: nat, q: string)
    requires Indexes(index, questions) && DistinctIds(questions) && Slice(questions, d, lo, hi)
    ensures q in IdsOf(questions, lo, hi) <==> q in index && index[q].history == d
  {
    var ids := IdsOf(questions, lo, hi);
    if q in index {
      var i :| 0 <= i < |questions| && questions[i].id == q;
      assert IndexedAs(index, questions[i]);
      assert lo <= i < hi ==> ids[i - lo] == q;
    }
    if k :| 0 <= k < hi - lo && ids[k] == q { assert IndexedAs(index, questions[lo + k]); }
  }

  lemma SharedNoDup(questions: seq<Question>, lo: nat, hi: nat)
    requires DistinctIds(questions) && lo <= hi <= |questions|
    ensures NoDup(IdsOf(questions, lo, hi))
  {
  }

  lemma SharedGroup(questions: seq<Question>, index: Index, groups: Groups, d: string, lo: nat, hi: nat)
    requires Indexes(index, questions) && GroupsOf(index, groups) && DistinctIds(questions) && Slice(questions, d, lo, hi)
    ensures d in groups && |groups[d]| == hi - lo
  {
    var ids := IdsOf(questions, lo, hi);
    assert ids[0] in ids;
    SharedIds(questions, index, d, lo, hi, ids[0]);
    forall q ensures q in groups[d] <==> q in ids { SharedIds(questions, index, d, lo, hi, q); }
    SharedNoDup(questions, lo, hi);
    SameElementsSameLength(groups[d], ids);
  }

  lemma ThreeSlices(questions: seq<Question>, category: string, a: string, b: string, c: string)
    requires ThreeTwoTwo(questions, category, a, b, c)
    ensures Slice(questions, a, 0, 3) && Slice(questions, b, 3, 5) && Slice(questions, c, 5, 7) && DistinctIds(questions)
  {
  }

  lemma ThreeGroups(questions: seq<Question>, category: string, a: string, b: string, c: string, index: Index, groups: Groups)
    requires ThreeTwoTwo(questions, category, a, b, c) && Indexes(index, questions) && GroupsOf(index, groups)
    ensures groups.Keys == {a, b, c} && |groups[a]| == 3 && |groups[b]| == 2 && |groups[c]| == 2
  {
    ThreeSlices(questions, category, a, b, c);
    SharedGroup(questions, index, groups, a, 0, 3);
    SharedGroup(questions, index, groups, b, 3, 5);
    SharedGroup(questions, index, groups, c, 5, 7);
    assert groups.Keys <= {a, b, c} by {
      OneOfThree(questions, category, a, b, c, index);
      GroupedHistories(index, groups);
    }
    assert {a, b, c} <= groups.Keys;
  }

  lemma OneOfThree(questions: seq<Question>, category: string, a: string, b: string, c: string, index: Index)
    requires ThreeTwoTwo(questions, category, a, b, c) && Indexes(index, questions)
    ensures OneCategory(index, category) && Histories(index) <= {a, b, c}
  {
    forall q | q in index
      ensures index[q].category == category && !index[q].abstention && index[q].history in {a, b, c}
    {
      var i :| 0 <= i < 7 && questions[i].id == q;
      assert IndexedAs(index, questions[i]);
    }
  }

  lemma ThreeSticks(groups: Groups, rank: string -> nat, a: string, b: string, c: string)
    requires a != b && b != c && a != c && rank(a) < rank(b) && rank(a) < rank(c)
    requires groups.Keys == {a, b, c} && |groups[a]| == 3 && |groups[b]| == 2 && |groups[c]| == 2
    ensures Chosen(groups, [a]) && Stuck(groups, 4, [a]) && Leads(groups, rank, [a])
  {
    SnocMembers(groups, [], a);
    assert [] + [a] == [a] && Members(groups, []) == [];
  }

  lemma ThreeAreRefused(questions: seq<Question>, category: string, a: string, b: string, c: string, index: Index,
                        rank: string -> nat, groups: Groups, picks: seq<string>, boundary: nat, ok: bool)
    requires ThreeTwoTwo(questions, category, a, b, c) && rank(a) < rank(b) && rank(a) < rank(c)
    requires Indexes(index, questions) && Balanced(index, groups, rank, 4, picks, boundary, ok)
    ensures !ok && GroupsOf(index, groups) && Chosen(groups, [b, c]) && |Members(groups, [b, c])| == 4
  {
    ThreeGroups(questions, category, a, b, c, index, groups);
    ThreeSticks(groups, rank, a, b, c);
    OneOfThree(questions, category, a, b, c, index);
    FollowsTheRanks(index, groups, rank, 4, category, [a], picks, boundary, ok);
    TwoGroups(groups, b, c);
  }

  /**
   * Ranked before the other two, the group of three is taken, nothing fits beside it, and the dev split of
   * four is refused, although the two groups of two are one: the fill never takes a group back.
   */
  lemma FillCanMissAnExactSplit(questions: seq<Question>, category: string, a: string, b: string, c: string,
                                index: Index, pilotSize: int, rank: string -> nat, r: Result<Split, Error>)
    requires ThreeTwoTwo(questions, category, a, b, c) && rank(a) < rank(b) && rank(a) < rank(c)
    requires Indexes(index, questions) && SplitOutcome(index, 4, pilotSize, rank, r)
    ensures forall i :: 0 <= i < |questions| ==> Indexable(questions, i)
    ensures r == Err(CannotFill)
    ensures exists groups :: GroupsOf(index, groups) && Chosen(groups, [b, c]) && |Members(groups, [b, c])| == 4
  {
    var dev :| Outcome(index, 4, rank, dev) && DevOutcome(index, dev, pilotSize, rank, r);
    var groups, picks, boundary :| OutcomeOf(index, groups, rank, 4, picks, boundary, dev);
    ThreeAreRefused(questions, category, a, b, c, index, rank, groups, picks, boundary, dev.Ok?);
  }

  lemma TwoGroups(groups: Groups, b: string, c: string)
    requires b in groups && c in groups
    ensures Members(groups, [b, c]) == groups[b] + groups[c]
  {
    SnocMembers(groups, [], b);
    SnocMembers(groups, [b], c);
    assert [] + [b] == [b] && [b] + [c] == [b, c];
  }
}
