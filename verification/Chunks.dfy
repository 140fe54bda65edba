/** Memory chunks, their trust tiers, guarded supersedes, and the histories a store can go through. */
module Chunks {
  import opened Prelude

  datatype Meta = Meta(supersededBy: Option<string>)

  datatype Chunk = Chunk(
    id: string,
    stream: string,
    version: nat,
    isLatest: bool,
    supersededBy: Option<string>,
    supersedes: Option<string>,
    root: Option<string>,
    deleted: bool,
    trust: Option<string>,
    sources: Option<seq<string>>,
    validUntil: Option<nat>,
    meta: Option<Meta>)

  type Store = map<string, Chunk>

  ghost predicate KeyedById(store: Store) {
    forall id :: id in store ==> store[id].id == id
  }

  // ------------------------------------------------------------------------------------ trust

  /** A missing tier is a legacy chunk and counts as the highest one. */
  function TrustRank(t: Option<string>): (rank: nat)
    ensures rank <= 3
  {
    var tier := if t.Some? then t.value else "a1";
    if tier == "a1" then 3 else if tier == "a2" then 2 else if tier == "b" then 1 else 0
  }

  function Rank(c: Chunk): nat {
    TrustRank(c.trust)
  }

  function MinRank(chunks: seq<Chunk>): (m: nat)
    requires chunks != []
    ensures forall i :: 0 <= i < |chunks| ==> m <= Rank(chunks[i])
    ensures exists i :: 0 <= i < |chunks| && m == Rank(chunks[i])
  {
    var last := Rank(chunks[|chunks| - 1]);
    if |chunks| == 1 then last
    else
      var m := MinRank(chunks[..|chunks| - 1]);
      if last < m then last else m
  }

  /** Generated text is as trusted as its weakest source, and never more than assistant-derived. */
  function DerivedTrust(sources: seq<Chunk>): string {
    match if sources == [] then 0 else MinRank(sources)
    case 0 => "unknown"
    case 1 => "b"
    case _ => "a2"
  }

  lemma DerivedRank(sources: seq<Chunk>)
    ensures TrustRank(Some(DerivedTrust(sources))) ==
            if sources == [] then 0 else if MinRank(sources) < 2 then MinRank(sources) else 2
    ensures forall i :: 0 <= i < |sources| ==> TrustRank(Some(DerivedTrust(sources))) <= Rank(sources[i])
  {
    if sources != [] {
      var m := MinRank(sources);
      assert m == 0 || m == 1 || m >= 2;
      assert "unknown" != "a1" && "unknown" != "a2" && "unknown" != "b" by {
        assert |"unknown"| == 7 && |"a1"| == 2;
      }
    } else {
      assert |"unknown"| == 7 && |"a1"| == 2;
    }
  }

  /** What a user said: the first tier, or a chunk from before there were tiers. */
  predicate UserTier(t: Option<string>) { t == None || t == Some("a1") }

  predicate KnownTier(t: Option<string>) { UserTier(t) || t == Some("a2") || t == Some("b") }

  lemma TiersApart()
    ensures "a1" != "a2" && "a1" != "b" && "a2" != "b" && "unknown" != "a1" && "unknown" != "a2" && "unknown" != "b"
  {
    assert "a1"[1] != "a2"[1] && |"b"| == 1 && |"unknown"| == 7;
  }

  /** Generated text is assistant text if every source is at least that, weak if one is, unknown if one is. */
  lemma DerivedTiers(sources: seq<Chunk>)
    ensures DerivedTrust(sources) in {"a2", "b", "unknown"} && !UserTier(Some(DerivedTrust(sources)))
    ensures DerivedTrust(sources) == "unknown" <==> sources == [] || exists c :: c in sources && !KnownTier(c.trust)
    ensures DerivedTrust(sources) == "a2" <==>
              sources != [] && forall c :: c in sources ==> UserTier(c.trust) || c.trust == Some("a2")
  {
    TiersApart();
    if sources != [] {
      var m := MinRank(sources);
      var i :| 0 <= i < |sources| && m == Rank(sources[i]);
      assert sources[i] in sources;
      assert m == 0 || m == 1 || m >= 2;
      assert forall c :: c in sources ==> m <= Rank(c);
    }
  }

  // ------------------------------------------------------------------------------- supersedes

  function Flip(old': Chunk, newId: string): Chunk {
    old'.(isLatest := false, supersededBy := Some(newId))
  }

  function RootId(c: Chunk): string {
    if c.root.Some? then c.root.value else c.id
  }

  function LinkSuccessor(old': Chunk, c: Chunk): Chunk {
    c.(supersedes := Some(old'.id), root := Some(RootId(old')), version := old'.version + 1)
  }

  predicate GuardPasses(old': Chunk, newTrust: Option<string>) {
    TrustRank(newTrust) >= Rank(old')
  }

  /** User text gives way only to user text, assistant text only to those two, weak text to any known tier. */
  lemma GuardMeans(old': Chunk, newTrust: Option<string>)
    ensures UserTier(old'.trust) ==> (GuardPasses(old', newTrust) <==> UserTier(newTrust))
    ensures old'.trust == Some("a2") ==> (GuardPasses(old', newTrust) <==> UserTier(newTrust) || newTrust == Some("a2"))
    ensures old'.trust == Some("b") ==> (GuardPasses(old', newTrust) <==> KnownTier(newTrust))
    ensures !KnownTier(old'.trust) ==> GuardPasses(old', newTrust)
  {
    TiersApart();
  }

  /** What a dream run adds to the chunk it retires, in the same write. */
  function DreamMark(c: Chunk, now: nat): Chunk {
    c.(validUntil := Some(now),
       meta := if c.meta.Some? then Some(c.meta.value.(supersededBy := Some("dream-consolidated"))) else None)
  }

  /** Superseding touches the old chunk's flag and successor, and the new one's predecessor, root and version. */
  lemma SupersedeMeans(old': Chunk, c: Chunk)
    ensures var flipped := Flip(old', c.id);
            flipped.supersededBy == Some(c.id) && !flipped.isLatest &&
            old' == flipped.(isLatest := old'.isLatest, supersededBy := old'.supersededBy)
    ensures var linked := LinkSuccessor(old', c);
            && linked.supersedes == Some(old'.id) && linked.version - 1 == old'.version
            && linked.root == (match old'.root case Some(root) => Some(root) case None => Some(old'.id))
            && c == linked.(supersedes := c.supersedes, version := c.version, root := c.root)
  {
  }

  /** Retiring ends the chunk's validity now, and says so in its metadata if it has any. */
  lemma DreamMarkMeans(c: Chunk, now: nat)
    ensures var marked := DreamMark(c, now);
            && marked.validUntil == Some(now) && (marked.meta == None <==> c.meta == None)
            && (marked.meta.Some? ==> marked.meta.value.supersededBy == Some("dream-consolidated"))
            && c == marked.(validUntil := c.validUntil, meta := c.meta)
  {
  }

  predicate Eligible(c: Chunk, stream: string) {
    c.isLatest && !c.deleted && c.stream == stream
  }

  // -------------------------------------------------------------------------------- histories

  /** A chunk as ingest builds it: current, first of its chain, not yet linked to anything; an extend only gives it a root. */
  predicate IsFresh(store: Store, c: Chunk) {
    c.id !in store && c.version == 1 && c.isLatest && c.supersededBy.None? && c.supersedes.None? && !c.deleted
  }

  /** Something that may have been read as this chunk earlier on: only what never changes must agree. */
  predicate IsCopy(copy: Chunk, c: Chunk) {
    copy.id == c.id && copy.trust == c.trust && copy.sources == c.sources
  }

  datatype Action =
    | Create(c: Chunk)
    | SoftDelete(id: string)
    | Supersede(copy: Chunk, c: Chunk)
    | DreamPersist(c: Chunk, group: seq<string>)
    | DreamRetire(newId: string, old': string, now: nat)

  function Lookup(store: Store, ids: seq<string>): seq<Chunk>
    requires forall i :: 0 <= i < |ids| ==> ids[i] in store
  {
    seq(|ids|, i requires 0 <= i < |ids| => store[ids[i]])
  }

  /**
   * A supersede works on whatever copy of the old chunk the caller holds, current or not, superseded or
   * not. A merged chunk is written first, as an independent step; its sources are retired one
   * by one after that.
   */
  predicate Enabled(store: Store, a: Action) {
    match a
    case Create(c) => IsFresh(store, c) && c.sources.None?
    case SoftDelete(id) => id in store
    case Supersede(copy, c) => IsFresh(store, c) && c.sources.None? && copy.id in store && IsCopy(copy, store[copy.id])
    case DreamPersist(c, group) =>
      && IsFresh(store, c)
      && c.sources == Some(group)
      && (forall i :: 0 <= i < |group| ==> group[i] in store)
      && c.trust == Some(DerivedTrust(Lookup(store, group)))
    case DreamRetire(newId, old', _) =>
      && newId in store && old' in store
      && store[newId].sources.Some? && old' in store[newId].sources.value
      && Eligible(store[old'], store[newId].stream)
  }

  function Next(store: Store, a: Action): Store
    requires Enabled(store, a)
  {
    match a
    case Create(c) => store[c.id := c]
    case SoftDelete(id) => store[id := store[id].(deleted := true)]
    case Supersede(copy, c) =>
      if GuardPasses(copy, c.trust)
      then store[copy.id := Flip(copy, c.id)][c.id := LinkSuccessor(copy, c)]
      else store[c.id := c]
    case DreamPersist(c, _) => store[c.id := c]
    case DreamRetire(newId, old', now) =>
      if GuardPasses(store[old'], store[newId].trust)
      then store[old' := DreamMark(Flip(store[old'], newId), now)]
      else store
  }

  /** What ingest may create: any chunk under a new id that is current, live and first of its chain, and not generated. */
  lemma CreatableIff(store: Store, c: Chunk)
    ensures Enabled(store, Create(c)) <==>
              c.id !in store &&
              c == c.(version := 1, isLatest := true, deleted := false, supersededBy := None, supersedes := None, sources := None)
  {
  }

  predicate Allowed(store: Store, run: seq<Action>)
    decreases |run|
  {
    run == [] || (Enabled(store, run[0]) && Allowed(Next(store, run[0]), run[1..]))
  }

  function After(store: Store, run: seq<Action>): Store
    requires Allowed(store, run)
    decreases |run|
  {
    if run == [] then store else After(Next(store, run[0]), run[1..])
  }

  /** A history is its steps one after the other, each allowed where it is taken. */
  lemma {:induction false} HistoriesTakeEach(store: Store, run: seq<Action>, a: Action)
    ensures Allowed(store, [])
    ensures Allowed(store, run + [a]) <==> Allowed(store, run) && Enabled(After(store, run), a)
    ensures Allowed(store, run + [a]) ==> After(store, run + [a]) == Next(After(store, run), a)
    decreases |run|
  {
    if run == [] {
      assert [a][1..] == [] && run + [a] == [a];
    } else {
      assert (run + [a])[1..] == run[1..] + [a];
      if Enabled(store, run[0]) { HistoriesTakeEach(Next(store, run[0]), run[1..], a); }
    }
  }

  /** Whatever was read in the past is a copy of what is stored now. */
  lemma {:induction false} PastReadsAreCopies(store: Store, run: seq<Action>, id: string)
    requires KeyedById(store) && Allowed(store, run) && id in store
    ensures KeyedById(After(store, run)) && id in After(store, run) && IsCopy(store[id], After(store, run)[id])
    decreases |run|
  {
    if run != [] {
      assert IsCopy(store[id], Next(store, run[0])[id]);
      PastReadsAreCopies(Next(store, run[0]), run[1..], id);
    }
  }
}
