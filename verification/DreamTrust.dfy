/** Trust over whole histories, and the dream run that retires the sources it merged. */
module DreamTrust {
  import opened Prelude
  import opened Chunks

  // ---------------------------------------------------------------------------- all histories

  /** A link leads to something stored and at least as trusted; generated text is below all its sources. */
  ghost predicate Lawful(store: Store, id: string)
    requires id in store
  {
    var c := store[id];
    && c.id == id
    && (c.supersededBy.Some? ==> c.supersededBy.value in store && Rank(store[c.supersededBy.value]) >= Rank(c))
    && (c.sources.Some? ==>
          && Rank(c) <= 2
          && forall i :: 0 <= i < |c.sources.value| ==> c.sources.value[i] in store && Rank(c) <= Rank(store[c.sources.value[i]]))
  }

  ghost predicate AllLawful(store: Store) {
    forall id {:trigger Lawful(store, id)} :: id in store ==> Lawful(store, id)
  }

  predicate TrustKept(store: Store, store': Store) {
    forall k :: k in store ==> k in store' && store'[k].trust == store[k].trust
  }

  lemma StaysLawful(store: Store, store': Store, id: string)
    requires id in store && Lawful(store, id) && TrustKept(store, store')
    requires store'[id].id == store[id].id && store'[id].sources == store[id].sources
    requires store'[id].supersededBy == store[id].supersededBy
    ensures Lawful(store', id)
  {
  }

  lemma FlippedIsLawful(store: Store, store': Store, id: string)
    requires id in store && Lawful(store, id) && TrustKept(store, store')
    requires store'[id].id == store[id].id && store'[id].sources == store[id].sources
    requires store'[id].supersededBy.Some? && store'[id].supersededBy.value in store'
    requires Rank(store'[store'[id].supersededBy.value]) >= Rank(store[id])
    ensures Lawful(store', id)
  {
  }

  lemma DerivedIsLawful(store: Store, c: Chunk, group: seq<string>)
    requires IsFresh(store, c) && c.sources == Some(group)
    requires forall i :: 0 <= i < |group| ==> group[i] in store
    requires c.trust == Some(DerivedTrust(Lookup(store, group)))
    ensures Lawful(store[c.id := c], c.id)
  {
    var chunks := Lookup(store, group);
    DerivedRank(chunks);
    forall i | 0 <= i < |group| ensures Rank(c) <= Rank(store[group[i]]) {
      assert chunks[i] == store[group[i]];
    }
  }

  lemma StepKeepsLaw(store: Store, a: Action)
    requires AllLawful(store) && Enabled(store, a)
    ensures AllLawful(Next(store, a))
  {
    var store' := Next(store, a);
    forall id {:trigger Lawful(store', id)} | id in store' ensures Lawful(store', id) {
      match a
      case Create(c) => if id != c.id { StaysLawful(store, store', id); }
      case SoftDelete(_) => StaysLawful(store, store', id);
      case Supersede(copy, c) =>
        if id == copy.id && GuardPasses(copy, c.trust) { FlippedIsLawful(store, store', id); }
        else if id != c.id { StaysLawful(store, store', id); }
      case DreamPersist(c, group) =>
        if id == c.id { DerivedIsLawful(store, c, group); } else { StaysLawful(store, store', id); }
      case DreamRetire(newId, old', _) =>
        if id == old' && GuardPasses(store[old'], store[newId].trust) { FlippedIsLawful(store, store', id); }
        else { StaysLawful(store, store', id); }
    }
  }

  lemma {:induction false} HistoriesKeepLaw(store: Store, run: seq<Action>)
    requires AllLawful(store) && Allowed(store, run)
    ensures AllLawful(After(store, run))
    decreases |run|
  {
    if run != [] {
      StepKeepsLaw(store, run[0]);
      HistoriesKeepLaw(Next(store, run[0]), run[1..]);
    }
  }

  /** A succession follows `supersededBy` links; a derivation goes from generated text to its sources. */
  ghost predicate IsSuccession(store: Store, path: seq<string>) {
    && path != [] && path[0] in store
    && forall i :: 0 <= i < |path| - 1 ==> path[i] in store && store[path[i]].supersededBy == Some(path[i + 1])
  }

  ghost predicate IsDerivation(store: Store, path: seq<string>) {
    && path != [] && path[0] in store
    && forall i :: 0 <= i < |path| - 1 ==> path[i] in store && store[path[i]].sources.Some? && path[i + 1] in store[path[i]].sources.value
  }

  lemma {:induction false} SuccessionRises(store: Store, path: seq<string>, n: nat)
    requires AllLawful(store) && IsSuccession(store, path) && n < |path|
    ensures path[n] in store && Rank(store[path[0]]) <= Rank(store[path[n]])
  {
    if n > 0 {
      SuccessionRises(store, path, n - 1);
      assert Lawful(store, path[n - 1]);
    }
  }

  lemma {:induction false} DerivationRises(store: Store, path: seq<string>, n: nat)
    requires AllLawful(store) && IsDerivation(store, path) && n < |path|
    ensures path[n] in store && Rank(store[path[0]]) <= Rank(store[path[n]])
    ensures n > 0 ==> Rank(store[path[0]]) <= 2
  {
    if n > 0 {
      DerivationRises(store, path, n - 1);
      assert Lawful(store, path[n - 1]);
    }
  }

  /**
   * In every history of soft deletes, supersedes of any copy and dream runs cut short anywhere: every
   * link leads to a stored chunk, trust never falls along any chain of successors, and generated text is never more
   * trusted than anything it was derived from, at any depth, nor as trusted as the user.
   */
  lemma TrustOverHistories(run: seq<Action>, path: seq<string>)
    requires Allowed(map[], run)
    ensures var store := After(map[], run);
            && (IsSuccession(store, path) ==>
                  path[|path| - 1] in store && Rank(store[path[0]]) <= Rank(store[path[|path| - 1]]))
            && (IsDerivation(store, path) ==>
                  && path[|path| - 1] in store && Rank(store[path[0]]) <= Rank(store[path[|path| - 1]])
                  && (|path| > 1 ==> Rank(store[path[0]]) <= 2))
  {
    HistoriesKeepLaw(map[], run);
    var store := After(map[], run);
    if IsSuccession(store, path) { SuccessionRises(store, path, |path| - 1); }
    if IsDerivation(store, path) { DerivationRises(store, path, |path| - 1); }
  }

  lemma UserRank(t: Option<string>)
    ensures UserTier(t) <==> TrustRank(t) == 3
  {
    TiersApart();
  }

  /**
   * In every history: what replaces user text, at any distance, is user text, and generated text is never
   * marked as the user's, nor left without a tier.
   */
  lemma UserTextStaysUserText(run: seq<Action>, path: seq<string>, id: string)
    requires Allowed(map[], run)
    ensures var store := After(map[], run);
            && (IsSuccession(store, path) && UserTier(store[path[0]].trust) ==>
                  path[|path| - 1] in store && UserTier(store[path[|path| - 1]].trust))
            && (id in store && store[id].sources.Some? ==> store[id].trust.Some? && store[id].trust.value != "a1")
  {
    HistoriesKeepLaw(map[], run);
    TrustOverHistories(run, path);
    var store := After(map[], run);
    if IsSuccession(store, path) {
      UserRank(store[path[0]].trust);
      UserRank(store[path[|path| - 1]].trust);
    }
    if id in store {
      assert Lawful(store, id);
      UserRank(store[id].trust);
    }
  }

  // ------------------------------------------------------------------- what a dream run retires

  predicate InGroup(group: seq<Chunk>, id: string) {
    exists i :: 0 <= i < |group| && group[i].id == id
  }

  /** What the guards let a dream run retire, judged on the store as it is and the group as it was read. */
  predicate Retirable(store: Store, group: seq<Chunk>, stream: string, id: string) {
    InGroup(group, id) && id in store && Eligible(store[id], stream) && GuardPasses(store[id], Some(DerivedTrust(group)))
  }

  /** With the tiers the run saw, it retires exactly sources of the group's weakest tier, and no user statement. */
  lemma RetiresOnlyTheWeakest(store: Store, group: seq<Chunk>, stream: string, i: nat)
    requires i < |group| && group[i].id in store && store[group[i].id].trust == group[i].trust
    requires var c := store[group[i].id]; c.isLatest && !c.deleted && c.stream == stream
    ensures Retirable(store, group, stream, group[i].id) <==> Rank(group[i]) == MinRank(group) && Rank(group[i]) <= 2
  {
    DerivedRank(group);
  }

  /** Even when a tier changed since the group was read, nothing above the group's weakest tier is retired. */
  lemma NeverRetiresAbove(store: Store, group: seq<Chunk>, stream: string, id: string)
    requires Retirable(store, group, stream, id)
    ensures Rank(store[id]) <= 2
    ensures forall i :: 0 <= i < |group| ==> Rank(store[id]) <= Rank(group[i])
  {
    DerivedRank(group);
  }

  /** No user statement is ever retired by a dream run, whatever was read, named or changed. */
  lemma NeverRetiresUserText(store: Store, group: seq<Chunk>, stream: string, id: string)
    requires Retirable(store, group, stream, id)
    ensures store[id].trust.Some? && store[id].trust.value != "a1"
    ensures store[id].isLatest && !store[id].deleted && store[id].stream == stream
    ensures exists i :: 0 <= i < |group| && group[i].id == id
  {
    DerivedTiers(group);
    GuardMeans(store[id], Some(DerivedTrust(group)));
  }

  function ResolveOne(store: Store, group: seq<Chunk>, stream: string, newId: string, now: nat, id: string): Store {
    if Retirable(store, group, stream, id) then store[id := DreamMark(Flip(store[id], newId), now)] else store
  }

  function ResolveAll(store: Store, group: seq<Chunk>, stream: string, newId: string, now: nat, targets: seq<string>): Store {
    if targets == [] then store
    else
      var before := ResolveAll(store, group, stream, newId, now, targets[..|targets| - 1]);
      ResolveOne(before, group, stream, newId, now, targets[|targets| - 1])
  }

  ghost function Retired(store: Store, group: seq<Chunk>, stream: string, targets: seq<string>): set<string> {
    set id | id in targets && Retirable(store, group, stream, id)
  }

  /** Exactly the retirable targets change, each once however often it is named, and into nothing else. */
  lemma {:induction false} ResolveAllMeans(store: Store, group: seq<Chunk>, stream: string, newId: string, now: nat, targets: seq<string>)
    ensures var store' := ResolveAll(store, group, stream, newId, now, targets);
            && store'.Keys == store.Keys
            && forall id :: id in store ==>
                 store'[id] == if id in Retired(store, group, stream, targets) then DreamMark(Flip(store[id], newId), now) else store[id]
    decreases |targets|
  {
    if targets != [] {
      var init, last := targets[..|targets| - 1], targets[|targets| - 1];
      ResolveAllMeans(store, group, stream, newId, now, init);
      var before := ResolveAll(store, group, stream, newId, now, init);
      assert targets == init + [last];
      assert Retired(store, group, stream, targets) ==
             Retired(store, group, stream, init) + (if Retirable(store, group, stream, last) then {last} else {});
      assert last in store && last !in Retired(store, group, stream, init) ==> before[last] == store[last];
    }
  }

  lemma LastCounts(store: Store, group: seq<Chunk>, stream: string, newId: string, now: nat, targets: seq<string>)
    requires targets != []
    ensures var init, last := targets[..|targets| - 1], targets[|targets| - 1];
            var before := ResolveAll(store, group, stream, newId, now, init);
            |Retired(store, group, stream, targets)| ==
            |Retired(store, group, stream, init)| + (if Retirable(before, group, stream, last) then 1 else 0)
  {
    var init, last := targets[..|targets| - 1], targets[|targets| - 1];
    ResolveAllMeans(store, group, stream, newId, now, init);
    assert targets == init + [last];
    var r := Retired(store, group, stream, init);
    if last in store && last !in r && Retirable(store, group, stream, last) {
      assert Retired(store, group, stream, targets) == r + {last};
    } else {
      assert Retired(store, group, stream, targets) == r;
    }
  }

  /** A target retirable after some have been retired was retirable at the start, and is not among them. */
  lemma RetiredMore(store: Store, group: seq<Chunk>, stream: string, newId: string, now: nat, targets: seq<string>, i: nat)
    requires i < |targets|
    ensures var before := ResolveAll(store, group, stream, newId, now, targets[..i]);
            && (Retirable(before, group, stream, targets[i]) ==>
                  Retirable(store, group, stream, targets[i]) && targets[i] in Retired(store, group, stream, targets))
            && Retired(store, group, stream, targets[..i + 1]) ==
                 Retired(store, group, stream, targets[..i]) + (if Retirable(store, group, stream, targets[i]) then {targets[i]} else {})
            && (Retirable(store, group, stream, targets[i]) && !Retirable(before, group, stream, targets[i]) ==>
                  targets[i] in Retired(store, group, stream, targets[..i]))
  {
    ResolveAllMeans(store, group, stream, newId, now, targets[..i]);
    assert targets[..i + 1] == targets[..i] + [targets[i]];
  }

  // ------------------------------------------------------------------------------ the program

  datatype Blocked = Blocked(old': string, new': string, context: string)

  lemma RetiresAfterMerge(store: Store, merged: Chunk, group: seq<Chunk>, stream: string, now: nat, targets: seq<string>)
    requires merged.id !in store && !InGroup(group, merged.id) && merged.trust == Some(DerivedTrust(group))
    ensures var store' := ResolveAll(store[merged.id := merged], group, stream, merged.id, now, targets);
            && merged.id in store' && store'[merged.id] == merged
            && (forall id :: id in store ==>
                  id in store' &&
                  store'[id] == if id in Retired(store, group, stream, targets)
                                then DreamMark(Flip(store[id], merged.id), now) else store[id])
            && (forall id :: id in store && id in store' && store'[id] != store[id] ==>
                  Rank(store[id]) <= Rank(merged) && Rank(merged) <= 2)
    ensures Retired(store[merged.id := merged], group, stream, targets) == Retired(store, group, stream, targets)
  {
    ResolveAllMeans(store[merged.id := merged], group, stream, merged.id, now, targets);
    assert Retired(store[merged.id := merged], group, stream, targets) == Retired(store, group, stream, targets);
    DerivedRank(group);
  }

  class ChunkStore {
    var chunks: Store
    var audit: seq<Blocked>

    constructor ()
      ensures chunks == map[] && audit == []
    {
      chunks, audit := map[], [];
    }

    /** A blocked supersede changes nothing but the audit trail; the new chunk is returned unlinked. */
    method ApplySupersede(old': Chunk, c: Chunk) returns (linked: Chunk)
      modifies this
      ensures GuardPasses(old', c.trust) ==>
                linked == LinkSuccessor(old', c) && chunks == old(chunks)[old'.id := Flip(old', c.id)] && audit == old(audit)
      ensures !GuardPasses(old', c.trust) ==>
                linked == c && chunks == old(chunks) && audit == old(audit) + [Blocked(old'.id, c.id, "contradiction")]
    {
      var oldRank, newRank := TrustRank(old'.trust), TrustRank(c.trust);
      if newRank < oldRank {
        audit := audit + [Blocked(old'.id, c.id, "contradiction")];
        return c;
      }
      chunks := chunks[old'.id := Flip(old', c.id)];
      linked := LinkSuccessor(old', c);
    }

    /** `fails` says whether writing the old chunk fails; then nothing has changed. */
    method TrySupersedeForDream(old': Chunk, newId: string, newTrust: Option<string>, now: nat, fails: bool) returns (applied: Option<bool>)
      modifies this
      ensures applied == if !GuardPasses(old', newTrust) then Some(false) else if fails then None else Some(true)
      ensures applied == Some(true) ==> chunks == old(chunks)[old'.id := DreamMark(Flip(old', newId), now)] && audit == old(audit)
      ensures applied == Some(false) ==> chunks == old(chunks) && audit == old(audit) + [Blocked(old'.id, newId, "dream")]
      ensures applied == None ==> chunks == old(chunks) && audit == old(audit)
    {
      var oldRank, newRank := TrustRank(old'.trust), TrustRank(newTrust);
      if newRank < oldRank {
        audit := audit + [Blocked(old'.id, newId, "dream")];
        return Some(false);
      }
      if fails {
        return None;
      }
      chunks := chunks[old'.id := DreamMark(Flip(old', newId), now)];
      return Some(true);
    }

    /**
     * `fails` says which chunks cannot be written. The first retirable target that cannot ends the loop with an
     * error; the retirable targets named before it, `done` of the list, stay retired.
     */
    method ResolveDreamContradictions(group: seq<Chunk>, stream: string, newId: string, now: nat, targets: seq<string>,
                                      fails: string -> bool)
      returns (resolved: Option<nat>, ghost done: nat)
      requires KeyedById(chunks)
      modifies this
      ensures KeyedById(chunks) && done <= |targets|
      ensures chunks == ResolveAll(old(chunks), group, stream, newId, now, targets[..done])
      ensures resolved.Some? <==> forall id :: id in Retired(old(chunks), group, stream, targets) ==> !fails(id)
      ensures resolved.Some? ==> done == |targets| && resolved.value == |Retired(old(chunks), group, stream, targets)|
      ensures resolved.None? ==>
                && done < |targets| && fails(targets[done]) && Retirable(chunks, group, stream, targets[done])
                && forall id :: id in Retired(old(chunks), group, stream, targets[..done]) ==> !fails(id)
    {
      var count := 0;
      ghost var start := chunks;
      assert Retired(start, group, stream, targets[..0]) == {};
      for i := 0 to |targets|
        invariant KeyedById(chunks)
        invariant chunks == ResolveAll(start, group, stream, newId, now, targets[..i])
        invariant count == |Retired(start, group, stream, targets[..i])|
        invariant forall id :: id in Retired(start, group, stream, targets[..i]) ==> !fails(id)
      {
        var id := targets[i];
        assert targets[..i + 1][..i] == targets[..i];
        LastCounts(start, group, stream, newId, now, targets[..i + 1]);
        RetiredMore(start, group, stream, newId, now, targets, i);
        if InGroup(group, id) && id in chunks && Eligible(chunks[id], stream) {
          var applied := TrySupersedeForDream(chunks[id], newId, Some(DerivedTrust(group)), now, fails(id));
          if applied.None? {
            return None, i;
          }
          if applied.value {
            count := count + 1;
          }
        }
      }
      assert targets[..|targets|] == targets;
      return Some(count), |targets|;
    }

    /**
     * An empty merge or a failed write retires nothing; otherwise the merged chunk is on disk before anything is
     * retired for it. A source that cannot be written leaves the ones named before it retired.
     */
    method ApplyDreamResponse(merged: Chunk, blank: bool, persisted: Persisted, group: seq<Chunk>, stream: string, now: nat,
                              targets: seq<string>, fails: string -> bool)
      returns (resolved: Option<nat>, ghost done: nat)
      requires KeyedById(chunks) && merged.id !in chunks && !InGroup(group, merged.id)
      requires merged.trust == Some(DerivedTrust(group))
      modifies this
      ensures resolved.Some? <==>
                !blank && persisted.Stored? && forall id :: id in Retired(old(chunks), group, stream, targets) ==> !fails(id)
      ensures resolved.Some? ==> done == |targets| && resolved.value == |Retired(old(chunks), group, stream, targets)|
      ensures blank || persisted.NotStored? ==> chunks == old(chunks)
      ensures !blank && persisted.StoredNotIndexed? ==> done == 0
      ensures !blank && persisted.Stored? && resolved.None? ==>
                done < |targets| && fails(targets[done]) && targets[done] in Retired(old(chunks), group, stream, targets)
      ensures !blank && !persisted.NotStored? ==>
                && done <= |targets| && merged.id in chunks && chunks[merged.id] == merged
                && forall id :: id in old(chunks) ==>
                     id in chunks &&
                     chunks[id] == if id in Retired(old(chunks), group, stream, targets[..done])
                                   then DreamMark(Flip(old(chunks)[id], merged.id), now) else old(chunks)[id]
      ensures forall id :: id in old(chunks) && id in chunks && chunks[id] != old(chunks)[id] ==>
                Rank(old(chunks)[id]) <= Rank(merged) && Rank(merged) <= 2
    {
      if blank || persisted.NotStored? { return None, 0; }
      ghost var before := chunks;
      chunks := chunks[merged.id := merged];
      RetiresAfterMerge(before, merged, group, stream, now, targets);
      if persisted.StoredNotIndexed? {
        RetiresAfterMerge(before, merged, group, stream, now, targets[..0]);
        return None, 0;
      }
      resolved, done := ResolveDreamContradictions(group, stream, merged.id, now, targets, fails);
      RetiresAfterMerge(before, merged, group, stream, now, targets[..done]);
      if resolved.None? { RetiredMore(before[merged.id := merged], group, stream, merged.id, now, targets, done); }
      assert targets[..|targets|] == targets;
    }
  }
}
