/** Dictionary matching: collect word-bounded hits of every known name, keep the leftmost longest ones. */
module EntityMatch {
  import opened Prelude
  import opened Sorting

  datatype Entity = Entity(name: string, kind: string)

  /** Lower-cased names with what they stand for, and which characters make up words. */
  datatype Lexicon = Lexicon(known: map<string, Entity>, alnum: char -> bool)

  datatype Match = Match(start: nat, end: nat, entity: Entity)

  // ------------------------------------------------------------------------------------- hits

  predicate OccursAt(text: string, key: string, i: nat) {
    i + |key| <= |text| && text[i..i + |key|] == key
  }

  function Find(text: string, key: string, start: nat): (r: Option<nat>)
    ensures r.Some? ==> start <= r.value && r.value + |key| <= |text|
    decreases |text| - start
  {
    if start + |key| > |text| then None
    else if OccursAt(text, key, start) then Some(start)
    else if start == |text| then None
    else Find(text, key, start + 1)
  }

  lemma {:induction false} FindIsLeftmost(text: string, key: string, start: nat)
    ensures match Find(text, key, start)
            case Some(i) => start <= i && OccursAt(text, key, i) && forall j :: start <= j < i ==> !OccursAt(text, key, j)
            case None => forall j :: start <= j ==> !OccursAt(text, key, j)
    decreases |text| - start
  {
    if start + |key| <= |text| && !OccursAt(text, key, start) && start < |text| {
      FindIsLeftmost(text, key, start + 1);
    }
  }

  /** Where a key is hit when each search resumes at the end of the previous hit. */
  function Hits(text: string, key: string, start: nat): seq<nat>
    requires key != ""
    decreases |text| - start
  {
    match Find(text, key, start)
    case None => []
    case Some(i) => [i] + Hits(text, key, i + |key|)
  }

  ghost predicate Shadowed(hits: seq<nat>, width: nat, i: nat) {
    exists h :: h in hits && h < i < h + width
  }

  lemma ShadowedByFirst(first: nat, rest: seq<nat>, width: nat, i: nat)
    ensures Shadowed([first] + rest, width, i) <==> first < i < first + width || Shadowed(rest, width, i)
  {
    var hits := [first] + rest;
    assert first in hits && forall h :: h in hits <==> h == first || h in rest;
  }

  /** Exactly the occurrences that do not start inside an earlier hit are hit, even if that one fails the word test. */
  lemma {:induction false} HitOrShadowed(text: string, key: string, start: nat, i: nat)
    requires key != ""
    ensures i in Hits(text, key, start) <==>
              start <= i && OccursAt(text, key, i) && !Shadowed(Hits(text, key, start), |key|, i)
    decreases |text| - start
  {
    FindIsLeftmost(text, key, start);
    var f := Find(text, key, start);
    if f.Some? {
      var first, rest := f.value, Hits(text, key, f.value + |key|);
      var hits := Hits(text, key, start);
      forall h ensures h in rest <==> first + |key| <= h && OccursAt(text, key, h) && !Shadowed(rest, |key|, h) {
        HitOrShadowed(text, key, first + |key|, h);
      }
      assert hits == [first] + rest;
      ShadowedByFirst(first, rest, |key|, i);
    }
  }

  /** A search for the empty name finds it where it starts and would resume at the same place forever. */
  lemma EmptyNameNeverAdvances(text: string, start: nat)
    requires start <= |text|
    ensures Find(text, "", start) == Some(start) && start + |""| == start
  {
  }

  predicate WordBounded(lex: Lexicon, text: string, start: nat, end: nat)
    requires start <= end <= |text|
  {
    && (start == 0 || !lex.alnum(text[start - 1]))
    && (end >= |text| || !lex.alnum(text[end]))
  }

  predicate IsCandidate(lex: Lexicon, text: string, key: string, m: Match) {
    && key in lex.known && key != ""
    && m.start in Hits(text, key, 0) && m.end == m.start + |key| && m.entity == lex.known[key]
    && m.end <= |text| && WordBounded(lex, text, m.start, m.end)
  }

  /** The candidates of a text, as a set: the order of the dictionary does not enter. */
  ghost predicate Candidate(lex: Lexicon, text: string, m: Match) {
    exists key :: IsCandidate(lex, text, key, m)
  }

  lemma SpanSpells(lex: Lexicon, text: string, key: string, m: Match)
    requires IsCandidate(lex, text, key, m)
    ensures m.start < m.end <= |text| && text[m.start..m.end] == key && m.entity == lex.known[key]
  {
    HitOrShadowed(text, key, 0, m.start);
  }

  /** A candidate spells a known name, no letter or digit touches it, and no earlier hit of that name reaches over its start. */
  lemma CandidateMeans(lex: Lexicon, text: string, key: string, m: Match)
    requires key in lex.known && key != ""
    ensures IsCandidate(lex, text, key, m) <==>
              && m.start + |key| == m.end <= |text| && text[m.start..m.end] == key && m.entity == lex.known[key]
              && (m.start > 0 ==> !lex.alnum(text[m.start - 1])) && (m.end < |text| ==> !lex.alnum(text[m.end]))
              && forall h :: h in Hits(text, key, 0) && h < m.start ==> h + |key| <= m.start
  {
    HitOrShadowed(text, key, 0, m.start);
  }

  /** The span of a candidate spells its name, so two candidates with one span are the same. */
  lemma SpanDetermines(lex: Lexicon, text: string, a: Match, b: Match)
    requires Candidate(lex, text, a) && Candidate(lex, text, b) && a.start == b.start && a.end == b.end
    ensures a == b && a.start < a.end
  {
    var k :| IsCandidate(lex, text, k, a);
    var l :| IsCandidate(lex, text, l, b);
    SpanSpells(lex, text, k, a);
    SpanSpells(lex, text, l, b);
  }

  // -------------------------------------------------------------------------------- selection

  /** By position, longest first. */
  function PositionOrder(): (Match, Match) -> bool {
    (a: Match, b: Match) => a.start < b.start || (a.start == b.start && a.end > b.end)
  }

  predicate Overlaps(start: nat, end: nat, s: nat, e: nat) {
    (start >= s && start < e) || (end > s && end <= e) || (start <= s && end >= e)
  }

  /** The three-way test is the usual one for nonempty spans. */
  lemma OverlapMeansShared(start: nat, end: nat, s: nat, e: nat)
    requires start < end && s < e
    ensures Overlaps(start, end, s, e) <==> start < e && s < end
  {
  }

  predicate Blocked(accepted: seq<Match>, m: Match) {
    exists i :: 0 <= i < |accepted| && Overlaps(m.start, m.end, accepted[i].start, accepted[i].end)
  }

  function Accept(matches: seq<Match>): seq<Match> {
    if matches == [] then []
    else
      var accepted := Accept(matches[..|matches| - 1]);
      var m := matches[|matches| - 1];
      if Blocked(accepted, m) then accepted else accepted + [m]
  }

  function Dedup(accepted: seq<Match>): seq<Entity> {
    if accepted == [] then []
    else
      var found := Dedup(accepted[..|accepted| - 1]);
      var e := accepted[|accepted| - 1].entity;
      if HasName(found, e.name) then found else found + [e]
  }

  predicate HasName(found: seq<Entity>, name: string) {
    exists i :: 0 <= i < |found| && found[i].name == name
  }

  ghost predicate Nonempty(matches: seq<Match>) {
    forall i :: 0 <= i < |matches| ==> matches[i].start < matches[i].end
  }

  ghost predicate LeftToRight(accepted: seq<Match>) {
    forall i, j :: 0 <= i < j < |accepted| ==> accepted[i].end <= accepted[j].start
  }

  /** A candidate that was turned down overlaps an accepted one that is further left, or as far left and longer. */
  ghost predicate BeatenBy(accepted: seq<Match>, m: Match) {
    exists a :: a in accepted && a.start < m.end && m.start < a.end && (a.start < m.start || (a.start == m.start && a.end > m.end))
  }

  /** The accepted candidates so far, against the candidates looked at so far. */
  ghost predicate Settled(matches: seq<Match>, accepted: seq<Match>) {
    && LeftToRight(accepted) && Nonempty(accepted)
    && (forall a :: a in accepted ==> a in matches)
    && (forall m :: m in matches && m !in accepted ==> BeatenBy(accepted, m))
  }

  lemma {:induction false} AcceptLaw(matches: seq<Match>)
    requires Sorted(PositionOrder(), matches) && Nonempty(matches)
    ensures Settled(matches, Accept(matches))
    decreases |matches|
  {
    if matches != [] {
      var init, m := matches[..|matches| - 1], matches[|matches| - 1];
      AcceptLaw(init);
      assert matches == init + [m];
      var before := Accept(init);
      forall a | a in before ensures PositionOrder()(a, m) {
        assert a in init;
      }
      if Blocked(before, m) { TurnDownKeeps(init, before, m); } else { TakeKeeps(init, before, m); }
    }
  }

  lemma TurnDownKeeps(init: seq<Match>, before: seq<Match>, m: Match)
    requires Settled(init, before) && Blocked(before, m) && m.start < m.end && forall a :: a in before ==> PositionOrder()(a, m)
    ensures Settled(init + [m], before)
  {
    var i :| 0 <= i < |before| && Overlaps(m.start, m.end, before[i].start, before[i].end);
    OverlapMeansShared(m.start, m.end, before[i].start, before[i].end);
    assert before[i] in before;
    assert BeatenBy(before, m);
  }

  lemma TakeKeeps(init: seq<Match>, before: seq<Match>, m: Match)
    requires Settled(init, before) && !Blocked(before, m) && m.start < m.end
    requires forall a :: a in before ==> PositionOrder()(a, m)
    ensures Settled(init + [m], before + [m])
  {
    forall i | 0 <= i < |before| ensures before[i].end <= m.start {
      assert before[i] in before && !Overlaps(m.start, m.end, before[i].start, before[i].end);
      OverlapMeansShared(m.start, m.end, before[i].start, before[i].end);
    }
    forall x | x in init && x !in before ensures BeatenBy(before + [m], x) {
      var a :| a in before && a.start < x.end && x.start < a.end && (a.start < x.start || (a.start == x.start && a.end > x.end));
      assert a in before + [m];
    }
  }

  lemma {:induction false} DedupLaw(accepted: seq<Match>)
    ensures var found := Dedup(accepted);
            && (forall i, j :: 0 <= i < j < |found| ==> found[i].name != found[j].name)
            && (forall e :: e in found ==> exists m :: m in accepted && m.entity == e)
            && (forall m :: m in accepted ==> HasName(found, m.entity.name))
    decreases |accepted|
  {
    if accepted != [] {
      var init, last := accepted[..|accepted| - 1], accepted[|accepted| - 1];
      DedupLaw(init);
      var before, found := Dedup(init), Dedup(accepted);
      assert accepted == init + [last];
      forall m | m in accepted ensures HasName(found, m.entity.name) {
        if m in init {
          var i :| 0 <= i < |before| && before[i].name == m.entity.name;
          assert found[i].name == m.entity.name;
        } else if !HasName(before, last.entity.name) {
          assert found[|before|].name == m.entity.name;
        }
      }
      forall e | e in found ensures exists m :: m in accepted && m.entity == e {
        if e in before {
          var m :| m in init && m.entity == e;
          assert m in accepted;
        } else {
          assert last in accepted && last.entity == e;
        }
      }
    }
  }

  /** The first accepted match of its name. */
  ghost predicate FirstNamed(accepted: seq<Match>, p: nat)
    requires p < |accepted|
  {
    forall q :: 0 <= q < p ==> accepted[q].entity.name != accepted[p].entity.name
  }

  ghost predicate FoundAt(accepted: seq<Match>, e: Entity, p: nat) {
    p < |accepted| && FirstNamed(accepted, p) && accepted[p].entity == e
  }

  ghost predicate Found(accepted: seq<Match>, e: Entity) {
    exists p: nat :: FoundAt(accepted, e, p)
  }

  /** Each entity is reported as its name is first met, in the order of those first places. */
  ghost predicate InFirstOrder(accepted: seq<Match>, found: seq<Entity>) {
    && (forall k :: 0 <= k < |found| ==> Found(accepted, found[k]))
    && (forall j, k, p: nat, q: nat :: 0 <= j < k < |found| && FoundAt(accepted, found[j], p) && FoundAt(accepted, found[k], q) ==> p < q)
  }

  lemma FoundAtPrefix(init: seq<Match>, last: Match, e: Entity, p: nat)
    ensures p < |init| ==> (FoundAt(init + [last], e, p) <==> FoundAt(init, e, p))
    ensures FoundAt(init + [last], e, |init|) <==> last.entity == e && forall m :: m in init ==> m.entity.name != last.entity.name
  {
    var accepted := init + [last];
    if p < |init| { assert forall q :: 0 <= q <= p ==> accepted[q] == init[q]; }
    if FoundAt(accepted, e, |init|) {
      forall m | m in init ensures m.entity.name != last.entity.name {
        var q :| 0 <= q < |init| && init[q] == m;
        assert accepted[q] == m;
      }
    }
  }

  lemma {:induction false} DedupKeepsFirstPlaces(accepted: seq<Match>)
    ensures InFirstOrder(accepted, Dedup(accepted))
    decreases |accepted|
  {
    if accepted != [] {
      var init, last := accepted[..|accepted| - 1], accepted[|accepted| - 1];
      assert accepted == init + [last];
      DedupKeepsFirstPlaces(init);
      DedupLaw(init);
      var before, found := Dedup(init), Dedup(accepted);
      forall e, p: nat ensures FoundAt(accepted, e, p) ==> if p < |init| then FoundAt(init, e, p) else p == |init| && last.entity == e {
        FoundAtPrefix(init, last, e, p);
      }
      forall k | 0 <= k < |before| ensures Found(accepted, before[k]) && !FoundAt(accepted, before[k], |init|) {
        var p: nat :| FoundAt(init, before[k], p);
        FoundAtPrefix(init, last, before[k], p);
        FoundAtPrefix(init, last, before[k], |init|);
        assert init[p] in init && FoundAt(accepted, before[k], p);
      }
      if !HasName(before, last.entity.name) {
        NewlyFound(init, last, before);
        assert found == before + [last.entity];
      }
    }
  }

  lemma NewlyFound(init: seq<Match>, last: Match, before: seq<Entity>)
    requires before == Dedup(init) && !HasName(before, last.entity.name)
    ensures FoundAt(init + [last], last.entity, |init|)
  {
    DedupLaw(init);
    FoundAtPrefix(init, last, last.entity, |init|);
  }

  // ------------------------------------------------------------------------------ the program

  /** The candidates in order: fixed by the text and the dictionary as a set of names. */
  ghost predicate IsSortedCandidates(lex: Lexicon, text: string, matches: seq<Match>) {
    Sorted(PositionOrder(), matches) && forall m :: m in matches <==> Candidate(lex, text, m)
  }

  ghost predicate IsExtraction(lex: Lexicon, text: string, accepted: seq<Match>, found: seq<Entity>) {
    exists matches :: IsSortedCandidates(lex, text, matches) && accepted == Accept(matches) && found == Dedup(accepted)
  }

  /** Any two extractions agree, whatever order the dictionary was gone through in. */
  lemma ExtractionIsUnique(lex: Lexicon, text: string, a: seq<Match>, f: seq<Entity>, b: seq<Match>, g: seq<Entity>)
    requires IsExtraction(lex, text, a, f) && IsExtraction(lex, text, b, g)
    ensures a == b && f == g
  {
    var x: seq<Match> :| IsSortedCandidates(lex, text, x) && a == Accept(x) && f == Dedup(a);
    var y: seq<Match> :| IsSortedCandidates(lex, text, y) && b == Accept(y) && g == Dedup(b);
    SortedIsUnique(PositionOrder(), x, y);
  }

  /**
   * What an extraction accepts: disjoint word-bounded occurrences of known names, from left to right,
   * such that every other candidate is beaten by an accepted one.
   */
  lemma ExtractionLaw(lex: Lexicon, text: string, accepted: seq<Match>, found: seq<Entity>)
    requires IsExtraction(lex, text, accepted, found)
    ensures LeftToRight(accepted)
    ensures forall a :: a in accepted ==> Candidate(lex, text, a)
    ensures forall m :: Candidate(lex, text, m) && m !in accepted ==> BeatenBy(accepted, m)
    ensures forall i, j :: 0 <= i < j < |found| ==> found[i].name != found[j].name
    ensures forall a :: a in accepted ==> HasName(found, a.entity.name)
    ensures InFirstOrder(accepted, found)
  {
    var matches: seq<Match> :| IsSortedCandidates(lex, text, matches) && accepted == Accept(matches) && found == Dedup(accepted);
    forall i | 0 <= i < |matches| ensures matches[i].start < matches[i].end {
      assert matches[i] in matches;
      SpanDetermines(lex, text, matches[i], matches[i]);
    }
    AcceptLaw(matches);
    DedupLaw(accepted);
    DedupKeepsFirstPlaces(accepted);
  }

  /** `keys` is the dictionary in whatever order its map iterates. */
  method Extract(lex: Lexicon, text: string, keys: seq<string>) returns (found: seq<Entity>, accepted: seq<Match>)
    requires "" !in lex.known
    requires (forall k :: k in keys <==> k in lex.known) && forall i, j :: 0 <= i < j < |keys| ==> keys[i] != keys[j]
    ensures IsExtraction(lex, text, accepted, found)
  {
    var matches := CollectMatches(lex, text, keys);
    forall i, j | 0 <= i < j < |matches| ensures PositionOrder()(matches[i], matches[j]) || PositionOrder()(matches[j], matches[i]) {
      assert matches[i] in matches && matches[j] in matches;
      if matches[i].start == matches[j].start && matches[i].end == matches[j].end {
        SpanDetermines(lex, text, matches[i], matches[j]);
      }
    }
    var sorted := Sort(PositionOrder(), matches);
    accepted := KeepLongest(sorted);
    found := FirstOfEachName(accepted);
    assert IsSortedCandidates(lex, text, sorted);
  }

  ghost predicate OfFirst(lex: Lexicon, text: string, keys: seq<string>, n: nat, m: Match)
    requires n <= |keys|
  {
    exists i :: 0 <= i < n && IsCandidate(lex, text, keys[i], m)
  }

  ghost predicate AllDifferent(ms: seq<Match>) {
    forall i, j :: 0 <= i < j < |ms| ==> ms[i] != ms[j]
  }

  method CollectMatches(lex: Lexicon, text: string, keys: seq<string>) returns (matches: seq<Match>)
    requires "" !in lex.known
    requires (forall k :: k in keys <==> k in lex.known) && forall i, j :: 0 <= i < j < |keys| ==> keys[i] != keys[j]
    ensures forall m :: m in matches <==> Candidate(lex, text, m)
    ensures AllDifferent(matches)
  {
    matches := [];
    for n := 0 to |keys|
      invariant forall m :: m in matches <==> OfFirst(lex, text, keys, n, m)
      invariant AllDifferent(matches)
    {
      var more := HitsOf(lex, text, keys[n]);
      OneMoreName(lex, text, keys, n, matches, more);
      matches := matches + more;
    }
    forall m ensures m in matches <==> Candidate(lex, text, m) {
      if Candidate(lex, text, m) {
        var key :| IsCandidate(lex, text, key, m);
        assert key in keys;
      }
    }
  }

  lemma OneMoreName(lex: Lexicon, text: string, keys: seq<string>, n: nat, matches: seq<Match>, more: seq<Match>)
    requires n < |keys| && keys[n] in lex.known && keys[n] != "" && forall i, j :: 0 <= i < j < |keys| ==> keys[i] != keys[j]
    requires (forall m :: m in matches <==> OfFirst(lex, text, keys, n, m)) && AllDifferent(matches)
    requires more == MatchesFrom(lex, text, keys[n], 0)
    ensures forall m :: m in matches + more <==> OfFirst(lex, text, keys, n + 1, m)
    ensures AllDifferent(matches + more)
  {
    forall m ensures m in more <==> IsCandidate(lex, text, keys[n], m) {
      MatchesFromMeans(lex, text, keys[n], 0, m);
    }
    MatchesFromAscend(lex, text, keys[n], 0);
    forall m ensures m in matches + more <==> OfFirst(lex, text, keys, n + 1, m) {
      assert OfFirst(lex, text, keys, n + 1, m) <==> OfFirst(lex, text, keys, n, m) || IsCandidate(lex, text, keys[n], m);
    }
    forall m | m in more ensures m !in matches {
      if OfFirst(lex, text, keys, n, m) {
        var k :| 0 <= k < n && IsCandidate(lex, text, keys[k], m);
        SpanSpells(lex, text, keys[k], m);
        SpanSpells(lex, text, keys[n], m);
      }
    }
    DifferentConcat(matches, more);
  }

  lemma DifferentConcat(a: seq<Match>, b: seq<Match>)
    requires AllDifferent(a) && StartsAscend(b) && forall m :: m in b ==> m !in a
    ensures AllDifferent(a + b)
  {
    forall i, j | 0 <= i < j < |a + b| ensures (a + b)[i] != (a + b)[j] {
      if i < |a| <= j { assert (a + b)[j] in b; }
    }
  }

  function BoundedHit(lex: Lexicon, text: string, key: string, i: nat): seq<Match>
    requires key in lex.known && i + |key| <= |text|
  {
    if WordBounded(lex, text, i, i + |key|) then [Match(i, i + |key|, lex.known[key])] else []
  }

  /** The bounded hits of one name, in text order. */
  function MatchesFrom(lex: Lexicon, text: string, key: string, start: nat): seq<Match>
    requires key in lex.known && key != ""
    decreases |text| - start
  {
    match Find(text, key, start)
    case None => []
    case Some(i) =>
      BoundedHit(lex, text, key, i) + MatchesFrom(lex, text, key, i + |key|)
  }

  predicate IsMatchOf(lex: Lexicon, text: string, key: string, hits: seq<nat>, m: Match)
    requires key in lex.known
  {
    && m.start in hits && m.end == m.start + |key| && m.entity == lex.known[key]
    && m.end <= |text| && WordBounded(lex, text, m.start, m.end)
  }

  lemma {:induction false} MatchesFromMeans(lex: Lexicon, text: string, key: string, start: nat, m: Match)
    requires key in lex.known && key != ""
    ensures m in MatchesFrom(lex, text, key, start) <==> IsMatchOf(lex, text, key, Hits(text, key, start), m)
    ensures m in MatchesFrom(lex, text, key, start) ==> m.start >= start
    decreases |text| - start
  {
    var f := Find(text, key, start);
    if f.Some? {
      MatchesFromMeans(lex, text, key, f.value + |key|, m);
    }
  }

  ghost predicate StartsAscend(ms: seq<Match>) {
    forall i, j :: 0 <= i < j < |ms| ==> ms[i].start < ms[j].start
  }

  lemma {:induction false} MatchesFromAscend(lex: Lexicon, text: string, key: string, start: nat)
    requires key in lex.known && key != ""
    ensures StartsAscend(MatchesFrom(lex, text, key, start))
    decreases |text| - start
  {
    var f := Find(text, key, start);
    if f.Some? {
      var next := f.value + |key|;
      var rest := MatchesFrom(lex, text, key, next);
      MatchesFromAscend(lex, text, key, next);
      forall i | 0 <= i < |rest| ensures rest[i].start >= next {
        MatchesFromMeans(lex, text, key, next, rest[i]);
      }
      PrependAscends(BoundedHit(lex, text, key, f.value), rest);
    }
  }

  lemma PrependAscends(first: seq<Match>, rest: seq<Match>)
    requires |first| <= 1 && StartsAscend(rest)
    requires forall i, j :: 0 <= i < |first| && 0 <= j < |rest| ==> first[i].start < rest[j].start
    ensures StartsAscend(first + rest)
  {
  }

  method HitsOf(lex: Lexicon, text: string, key: string) returns (more: seq<Match>)
    requires key in lex.known && key != ""
    ensures more == MatchesFrom(lex, text, key, 0)
  {
    more := [];
    var start := 0;
    var f := Find(text, key, 0);
    ghost var all := AndFrom(lex, text, key, [], 0);
    while f.Some?
      invariant f == Find(text, key, start)
      invariant AndFrom(lex, text, key, more, start) == all
      decreases |text| - start
    {
      NextMatches(lex, text, key, start, f.value, more);
      more := more + BoundedHit(lex, text, key, f.value);
      start := f.value + |key|;
      f := Find(text, key, start);
    }
    NoMoreMatches(lex, text, key, start, more);
  }

  function AndFrom(lex: Lexicon, text: string, key: string, more: seq<Match>, start: nat): seq<Match>
    requires key in lex.known && key != ""
  {
    more + MatchesFrom(lex, text, key, start)
  }

  lemma NextMatches(lex: Lexicon, text: string, key: string, start: nat, i: nat, more: seq<Match>)
    requires key in lex.known && key != "" && Find(text, key, start) == Some(i)
    ensures AndFrom(lex, text, key, more, start) ==
            AndFrom(lex, text, key, more + BoundedHit(lex, text, key, i), i + |key|)
  {
    var rest := MatchesFrom(lex, text, key, i + |key|);
    assert more + (BoundedHit(lex, text, key, i) + rest) == more + BoundedHit(lex, text, key, i) + rest;
  }

  lemma NoMoreMatches(lex: Lexicon, text: string, key: string, start: nat, more: seq<Match>)
    requires key in lex.known && key != "" && Find(text, key, start) == None
    ensures AndFrom(lex, text, key, more, start) == more
    ensures AndFrom(lex, text, key, [], 0) == MatchesFrom(lex, text, key, 0)
  {
  }

  method KeepLongest(matches: seq<Match>) returns (accepted: seq<Match>)
    ensures accepted == Accept(matches)
  {
    accepted := [];
    for i := 0 to |matches|
      invariant accepted == Accept(matches[..i])
    {
      assert matches[..i + 1][..i] == matches[..i];
      if !Blocked(accepted, matches[i]) {
        accepted := accepted + [matches[i]];
      }
    }
    assert matches[..|matches|] == matches;
  }

  method FirstOfEachName(accepted: seq<Match>) returns (found: seq<Entity>)
    ensures found == Dedup(accepted)
  {
    found := [];
    for i := 0 to |accepted|
      invariant found == Dedup(accepted[..i])
    {
      assert accepted[..i + 1][..i] == accepted[..i];
      if !HasName(found, accepted[i].entity.name) {
        found := found + [accepted[i].entity];
      }
    }
    assert accepted[..|accepted|] == accepted;
  }
}
