/** Version chains and the walk that lists one from any of its members. */
module MemoryChain {
  import opened Prelude
  import opened Chunks

  datatype Direction = Backward | Forward

  function Link(d: Direction, c: Chunk): Option<string> {
    match d case Backward => c.supersedes case Forward => c.supersededBy
  }

  datatype Walk = Walk(found: seq<Chunk>, visited: set<string>)

  /** Follow links from `next` until one is missing, dangling or seen before, or there is no more room. */
  function WalkFrom(store: Store, d: Direction, next: Option<string>, visited: set<string>, room: nat): Walk
    decreases |store.Keys - visited|
  {
    if next.None? || room == 0 || next.value in visited then Walk([], visited)
    else
      var id := next.value;
      if id !in store then Walk([], visited + {id})
      else
        var c := store[id];
        Unvisited(store, visited, id);
        var more := WalkFrom(store, d, Link(d, c), visited + {id}, if c.deleted then room else room - 1);
        Walk(Self(c) + more.found, more.visited)
  }

  lemma Unvisited(store: Store, visited: set<string>, id: string)
    requires id in store && id !in visited
    ensures |store.Keys - (visited + {id})| < |store.Keys - visited|
  {
    assert store.Keys - visited == (store.Keys - (visited + {id})) + {id};
  }

  function Reverse(cs: seq<Chunk>): (r: seq<Chunk>)
    ensures |r| == |cs|
  {
    if cs == [] then [] else Reverse(cs[1..]) + [cs[0]]
  }

  /** What following links from `next` makes of the chunks collected so far. */
  function Outcome(store: Store, d: Direction, next: Option<string>, visited: set<string>, chain: seq<Chunk>, limit: nat): (w: Walk)
    requires |chain| <= limit
    ensures |w.found| <= limit
  {
    WalkFits(store, d, next, visited, limit - |chain|);
    var w := WalkFrom(store, d, next, visited, limit - |chain|);
    Walk(chain + w.found, w.visited)
  }

  function Self(c: Chunk): seq<Chunk> {
    if c.deleted then [] else [c]
  }

  function ChainSpec(store: Store, id: string, limit: nat): seq<Chunk> {
    if limit == 0 || id !in store then []
    else
      var q := store[id];
      var behind := Outcome(store, Backward, q.supersedes, {id}, Self(q), limit);
      Outcome(store, Forward, q.supersededBy, behind.visited, Reverse(behind.found), limit).found
  }

  // --------------------------------------------------------------------------- arbitrary graphs

  ghost predicate DistinctIds(cs: seq<Chunk>) {
    forall i, j :: 0 <= i < j < |cs| ==> cs[i].id != cs[j].id
  }

  predicate IsLiveIn(store: Store, c: Chunk) {
    c.id in store && store[c.id] == c && !c.deleted
  }

  ghost predicate LiveIn(store: Store, cs: seq<Chunk>) {
    forall i :: 0 <= i < |cs| ==> IsLiveIn(store, cs[i])
  }

  lemma {:induction false} WalkFits(store: Store, d: Direction, next: Option<string>, visited: set<string>, room: nat)
    ensures |WalkFrom(store, d, next, visited, room).found| <= room
    decreases |store.Keys - visited|
  {
    if next.Some? && room > 0 && next.value !in visited && next.value in store {
      var c := store[next.value];
      Unvisited(store, visited, next.value);
      WalkFits(store, d, Link(d, c), visited + {next.value}, if c.deleted then room else room - 1);
    }
  }

  /** Chunks found by a walk: live, each once, and none visited before. */
  ghost predicate FoundOnce(store: Store, cs: seq<Chunk>, before: set<string>, after: set<string>) {
    && LiveIn(store, cs) && DistinctIds(cs)
    && forall i :: 0 <= i < |cs| ==> cs[i].id !in before && cs[i].id in after
  }

  lemma {:induction false} WalkFacts(store: Store, d: Direction, next: Option<string>, visited: set<string>, room: nat)
    requires KeyedById(store)
    ensures var w := WalkFrom(store, d, next, visited, room);
            visited <= w.visited && FoundOnce(store, w.found, visited, w.visited)
    decreases |store.Keys - visited|
  {
    if next.Some? && room > 0 && next.value !in visited && next.value in store {
      var c := store[next.value];
      Unvisited(store, visited, next.value);
      var room' := if c.deleted then room else room - 1;
      WalkFacts(store, d, Link(d, c), visited + {next.value}, room');
      var more := WalkFrom(store, d, Link(d, c), visited + {next.value}, room');
      FoundFirst(store, c, more.found, visited, more.visited);
    }
  }

  lemma FoundFirst(store: Store, c: Chunk, cs: seq<Chunk>, before: set<string>, after: set<string>)
    requires c.id in store && store[c.id] == c && c.id !in before
    requires before + {c.id} <= after && FoundOnce(store, cs, before + {c.id}, after)
    ensures FoundOnce(store, Self(c) + cs, before, after)
  {
    if c.deleted {
      assert Self(c) + cs == cs;
    } else {
      FoundFirstLive(store, c, cs, before, after);
    }
  }

  lemma FoundFirstLive(store: Store, c: Chunk, cs: seq<Chunk>, before: set<string>, after: set<string>)
    requires IsLiveIn(store, c) && c.id !in before
    requires before + {c.id} <= after && FoundOnce(store, cs, before + {c.id}, after)
    ensures FoundOnce(store, [c] + cs, before, after)
  {
    var all := [c] + cs;
    forall i | 0 <= i < |all| ensures IsLiveIn(store, all[i]) && all[i].id !in before && all[i].id in after {
      if i > 0 { assert all[i] == cs[i - 1]; }
    }
    forall i, j | 0 <= i < j < |all| ensures all[i].id != all[j].id {
      assert all[j] == cs[j - 1] && (i > 0 ==> all[i] == cs[i - 1]);
    }
  }

  lemma {:induction false} ReverseAt(cs: seq<Chunk>)
    ensures |Reverse(cs)| == |cs|
    ensures forall i :: 0 <= i < |cs| ==> Reverse(cs)[i] == cs[|cs| - 1 - i]
  {
    if cs != [] {
      ReverseAt(cs[1..]);
    }
  }

  /**
   * Whatever the links are (cycles, branches, dangling ids), the walk ends, returns at most `limit` live
   * chunks without repeats, and never leaves out the queried chunk if it is live.
   */
  lemma AnyGraph(store: Store, id: string, limit: nat)
    requires KeyedById(store)
    ensures var r := ChainSpec(store, id, limit);
            && |r| <= limit
            && LiveIn(store, r)
            && DistinctIds(r)
            && (limit > 0 && id in store && !store[id].deleted ==> store[id] in r)
  {
    if limit > 0 && id in store {
      var q := store[id];
      var room := limit - |Self(q)|;
      var back := WalkFrom(store, Backward, q.supersedes, {id}, room);
      WalkFits(store, Backward, q.supersedes, {id}, room);
      WalkFacts(store, Backward, q.supersedes, {id}, room);
      var ahead := WalkFrom(store, Forward, q.supersededBy, back.visited, room - |back.found|);
      WalkFacts(store, Forward, q.supersededBy, back.visited, room - |back.found|);
      AroundQueried(store, q, back, ahead);
      ChainParts(store, id, limit, back, ahead);
    }
  }

  /** The listed chain, by its parts. */
  lemma ChainParts(store: Store, id: string, limit: nat, back: Walk, ahead: Walk)
    requires id in store && limit > 0
    requires var room := limit - |Self(store[id])|;
             && back == WalkFrom(store, Backward, store[id].supersedes, {id}, room)
             && |back.found| <= room
             && ahead == WalkFrom(store, Forward, store[id].supersededBy, back.visited, room - |back.found|)
    ensures ChainSpec(store, id, limit) == Reverse(Self(store[id]) + back.found) + ahead.found
    ensures |ChainSpec(store, id, limit)| <= limit
  {
  }

  lemma AroundQueried(store: Store, q: Chunk, back: Walk, ahead: Walk)
    requires q.id in store && store[q.id] == q && {q.id} <= back.visited
    requires FoundOnce(store, back.found, {q.id}, back.visited) && FoundOnce(store, ahead.found, back.visited, ahead.visited)
    ensures var r := Reverse(Self(q) + back.found) + ahead.found;
            && LiveIn(store, r) && DistinctIds(r)
            && (!q.deleted ==> q in r)
  {
    assert {} + {q.id} == {q.id};
    FoundFirst(store, q, back.found, {}, back.visited);
    Joined(store, Self(q) + back.found, ahead.found, back.visited, ahead.visited);
    if !q.deleted {
      ReverseAt(Self(q) + back.found);
      assert Reverse(Self(q) + back.found)[|back.found|] == q;
    }
  }

  lemma Joined(store: Store, older: seq<Chunk>, newer: seq<Chunk>, mid: set<string>, after: set<string>)
    requires FoundOnce(store, older, {}, mid) && FoundOnce(store, newer, mid, after)
    ensures |Reverse(older)| == |older|
    ensures LiveIn(store, Reverse(older) + newer) && DistinctIds(Reverse(older) + newer)
  {
    ReverseAt(older);
  }

  // ------------------------------------------------------------------------------ proper chains

  /** A whole chain, oldest first: linked both ways, versions counting up, all of one root. */
  ghost predicate IsChain(store: Store, path: seq<string>) {
    && path != []
    && (forall i :: 0 <= i < |path| ==> path[i] in store)
    && store[path[0]].supersedes.None?
    && store[path[|path| - 1]].supersededBy.None?
    && (forall i :: 0 <= i < |path| ==> Steps(store, path, i))
  }

  ghost predicate Steps(store: Store, path: seq<string>, i: int)
    requires 0 <= i < |path| && forall j :: 0 <= j < |path| ==> path[j] in store
  {
    && (i > 0 ==>
          && store[path[i - 1]].supersededBy == Some(path[i])
          && store[path[i]].supersedes == Some(path[i - 1])
          && store[path[i]].root == Some(RootId(store[path[0]])))
    && store[path[i]].version == store[path[0]].version + i
    && store[path[i]].isLatest == (i == |path| - 1)
  }

  function Live(store: Store, path: seq<string>): seq<Chunk>
    requires forall i :: 0 <= i < |path| ==> path[i] in store
  {
    if path == [] then []
    else Live(store, path[..|path| - 1]) + Self(store[path[|path| - 1]])
  }

  lemma {:induction false} LiveConcat(store: Store, a: seq<string>, b: seq<string>)
    requires forall i :: 0 <= i < |a| ==> a[i] in store
    requires forall i :: 0 <= i < |b| ==> b[i] in store
    ensures Live(store, a + b) == Live(store, a) + Live(store, b)
    decreases |b|
  {
    if b == [] {
      assert a + b == a;
    } else {
      var b' := b[..|b| - 1];
      LiveConcat(store, a, b');
      assert (a + b)[..|a + b| - 1] == a + b';
    }
  }

  /** The walk finds `cs` and visits only ids that were visited before or are among `ids`. */
  ghost predicate Finds(w: Walk, cs: seq<Chunk>, visited: set<string>, ids: seq<string>) {
    w.found == cs && forall id :: id in w.visited ==> id in visited || id in ids
  }

  ghost predicate Stored(store: Store, path: seq<string>) {
    forall i :: 0 <= i < |path| ==> path[i] in store
  }

  function Prev(path: seq<string>, i: nat): Option<string>
    requires i <= |path|
  {
    if i == 0 then None else Some(path[i - 1])
  }

  function Succ(path: seq<string>, i: nat): Option<string>
    requires i < |path|
  {
    if i + 1 == |path| then None else Some(path[i + 1])
  }

  ghost predicate BackLinked(store: Store, path: seq<string>)
    requires Stored(store, path)
  {
    forall i {:trigger Prev(path, i)} :: 0 <= i < |path| ==> store[path[i]].supersedes == Prev(path, i)
  }

  ghost predicate AheadLinked(store: Store, path: seq<string>)
    requires Stored(store, path)
  {
    forall i {:trigger Succ(path, i)} :: 0 <= i < |path| ==> store[path[i]].supersededBy == Succ(path, i)
  }

  ghost predicate Unseen(path: seq<string>, visited: set<string>) {
    forall i :: 0 <= i < |path| ==> path[i] !in visited
  }

  lemma PrefixLinked(store: Store, path: seq<string>, k: nat)
    requires Stored(store, path) && BackLinked(store, path) && NoDup(path) && k <= |path|
    ensures Stored(store, path[..k]) && BackLinked(store, path[..k]) && NoDup(path[..k])
  {
    assert forall i :: 0 <= i < k ==> path[..k][i] == path[i] && Prev(path[..k], i) == Prev(path, i);
  }

  lemma SuffixLinked(store: Store, path: seq<string>, k: nat)
    requires Stored(store, path) && AheadLinked(store, path) && NoDup(path) && k <= |path|
    ensures Stored(store, path[k..]) && AheadLinked(store, path[k..]) && NoDup(path[k..])
  {
    assert forall i :: 0 <= i < |path| - k ==> path[k..][i] == path[k + i] && Succ(path[k..], i) == Succ(path, k + i);
  }

  /** As many as there is room for, from the front or from the back. */
  function First(cs: seq<Chunk>, room: nat): seq<Chunk> {
    if room < |cs| then cs[..room] else cs
  }

  function Last(cs: seq<Chunk>, room: nat): seq<Chunk> {
    if room < |cs| then cs[|cs| - room..] else cs
  }

  /** The ones in the middle, those nearest before them, and with what room is left those nearest after. */
  function Nearest(older: seq<Chunk>, self: seq<Chunk>, newer: seq<Chunk>, limit: nat): seq<Chunk>
    requires |self| <= limit
  {
    var before := Last(older, limit - |self|);
    before + self + First(newer, limit - |self| - |before|)
  }

  lemma FirstOfSelf(c: Chunk, cs: seq<Chunk>, room: nat)
    requires room > 0
    ensures First(Self(c) + cs, room) == Self(c) + First(cs, if c.deleted then room else room - 1)
  {
    if c.deleted { assert Self(c) + cs == cs && Self(c) + First(cs, room) == First(cs, room); }
  }

  lemma FirstReversed(cs: seq<Chunk>, room: nat)
    ensures First(Reverse(cs), room) == Reverse(Last(cs, room))
  {
    ReverseAt(cs);
    ReverseAt(Last(cs, room));
  }

  /** Walking back over a linked stretch from behind its end finds its live chunks, newest first, while there is room. */
  lemma {:induction false} WalkBack(store: Store, path: seq<string>, visited: set<string>, room: nat)
    requires Stored(store, path) && BackLinked(store, path) && NoDup(path) && Unseen(path, visited)
    ensures Finds(WalkFrom(store, Backward, Prev(path, |path|), visited, room), First(Reverse(Live(store, path)), room), visited, path)
    decreases |path|
  {
    if path != [] && room > 0 {
      var n := |path| - 1;
      var id, older := path[n], path[..n];
      assert path == older + [id];
      PrefixLinked(store, path, n);
      LiveSnoc(store, older, id);
      var room' := if store[id].deleted then room else room - 1;
      WalkBack(store, older, visited + {id}, room');
      assert store[id].supersedes == Prev(path, n) == Prev(older, |older|);
      FindsFirst(store, Backward, id, visited, room, First(Reverse(Live(store, older)), room'), older);
      FirstOfSelf(store[id], Reverse(Live(store, older)), room);
    }
  }

  /** Walking ahead over a linked stretch finds its live chunks, oldest first, while there is room. */
  lemma {:induction false} WalkAhead(store: Store, path: seq<string>, visited: set<string>, room: nat)
    requires Stored(store, path) && AheadLinked(store, path) && NoDup(path) && Unseen(path, visited)
    ensures WalkFrom(store, Forward, if path == [] then None else Some(path[0]), visited, room).found == First(Live(store, path), room)
    decreases |path|
  {
    if path != [] && room > 0 {
      var id, newer := path[0], path[1..];
      assert path == [id] + newer;
      SuffixLinked(store, path, 1);
      LiveConcat(store, [id], newer);
      LiveOne(store, id);
      var room' := if store[id].deleted then room else room - 1;
      WalkAhead(store, newer, visited + {id}, room');
      assert store[id].supersededBy == Succ(path, 0);
      AheadFirst(store, id, visited, room, First(Live(store, newer), room'), if newer == [] then None else Some(newer[0]));
      FirstOfSelf(store[id], Live(store, newer), room);
    }
  }

  lemma AheadFirst(store: Store, id: string, visited: set<string>, room: nat, cs: seq<Chunk>, next: Option<string>)
    requires id in store && id !in visited && room > 0 && store[id].supersededBy == next
    requires WalkFrom(store, Forward, next, visited + {id}, if store[id].deleted then room else room - 1).found == cs
    ensures WalkFrom(store, Forward, Some(id), visited, room).found == Self(store[id]) + cs
  {
  }

  lemma LiveSnoc(store: Store, path: seq<string>, id: string)
    requires id in store && forall i :: 0 <= i < |path| ==> path[i] in store
    ensures Live(store, path + [id]) == Live(store, path) + Self(store[id])
    ensures Reverse(Live(store, path + [id])) == Self(store[id]) + Reverse(Live(store, path))
  {
    assert (path + [id])[..|path|] == path;
    if store[id].deleted {
      assert Live(store, path + [id]) == Live(store, path);
    } else {
      ReverseSnoc(Live(store, path), store[id]);
    }
  }

  lemma FindsFirst(store: Store, d: Direction, id: string, visited: set<string>, room: nat, cs: seq<Chunk>, ids: seq<string>)
    requires id in store && id !in visited && room > 0
    requires var c := store[id];
             Finds(WalkFrom(store, d, Link(d, c), visited + {id}, if c.deleted then room else room - 1), cs, visited + {id}, ids)
    ensures Finds(WalkFrom(store, d, Some(id), visited, room), Self(store[id]) + cs, visited, ids + [id])
  {
  }

  lemma {:induction false} ReverseSnoc(cs: seq<Chunk>, c: Chunk)
    ensures Reverse(cs + [c]) == [c] + Reverse(cs)
  {
    if cs == [] {
      assert [c][1..] == [];
    } else {
      ReverseSnoc(cs[1..], c);
      assert (cs + [c])[1..] == cs[1..] + [c];
    }
  }

  lemma {:induction false} ReverseTwice(cs: seq<Chunk>)
    ensures Reverse(Reverse(cs)) == cs
  {
    if cs != [] {
      ReverseTwice(cs[1..]);
      ReverseSnoc(Reverse(cs[1..]), cs[0]);
      assert cs == [cs[0]] + cs[1..];
    }
  }

  lemma LiveOne(store: Store, id: string)
    requires id in store
    ensures Live(store, [id]) == Self(store[id])
  {
    assert [id][..0] == [];
  }

  lemma ChainIsDistinct(store: Store, path: seq<string>)
    requires IsChain(store, path)
    ensures forall i, j :: 0 <= i < j < |path| ==> path[i] != path[j]
  {
    forall i, j | 0 <= i < j < |path| ensures path[i] != path[j] {
      assert Steps(store, path, i) && Steps(store, path, j);
    }
  }

  /** Every member of a chain has the same history: the live versions of the whole chain, oldest first. */
  lemma ChainFromAnyMember(store: Store, path: seq<string>, k: nat, limit: nat)
    requires IsChain(store, path) && k < |path| && limit >= |Live(store, path)|
    ensures ChainSpec(store, path[k], limit) == Live(store, path)
  {
    if limit > 0 {
      ChainWithinLimit(store, path, k, limit);
      NearestIsWhole(store, path, k, limit);
    }
  }

  lemma NearestIsWhole(store: Store, path: seq<string>, k: nat, limit: nat)
    requires Stored(store, path) && k < |path| && limit > 0 && limit >= |Live(store, path)|
    ensures Nearest(Live(store, path[..k]), Self(store[path[k]]), Live(store, path[k + 1..]), limit) == Live(store, path)
  {
    LiveSplit(store, path, k);
    RoomForAll(Live(store, path[..k]), Self(store[path[k]]), Live(store, path[k + 1..]), limit);
  }

  lemma RoomForAll(older: seq<Chunk>, self: seq<Chunk>, newer: seq<Chunk>, limit: nat)
    requires |older + self + newer| <= limit
    ensures Nearest(older, self, newer, limit) == older + self + newer
  {
  }

  /**
   * With too little room a member lists itself, if it is live, the live versions nearest before it, and with
   * what room is left the ones nearest after it.
   */
  lemma ChainWithinLimit(store: Store, path: seq<string>, k: nat, limit: nat)
    requires IsChain(store, path) && k < |path| && limit > 0
    ensures ChainSpec(store, path[k], limit) ==
            Nearest(Live(store, path[..k]), Self(store[path[k]]), Live(store, path[k + 1..]), limit)
  {
    WalksFromMember(store, path, k, limit - |Self(store[path[k]])|);
    ChainFromWalks(store, path[k], limit, Live(store, path[..k]), Live(store, path[k + 1..]));
  }

  /** Both walks from a chunk find what is nearest among the ones before and after it. */
  ghost predicate WalksMeet(store: Store, id: string, room: nat, older: seq<Chunk>, newer: seq<Chunk>)
    requires id in store
  {
    var back := WalkFrom(store, Backward, store[id].supersedes, {id}, room);
    && back.found == Reverse(Last(older, room))
    && |back.found| <= room
    && WalkFrom(store, Forward, store[id].supersededBy, back.visited, room - |back.found|).found == First(newer, room - |back.found|)
  }

  lemma ChainFromWalks(store: Store, id: string, limit: nat, older: seq<Chunk>, newer: seq<Chunk>)
    requires id in store && limit > 0 && WalksMeet(store, id, limit - |Self(store[id])|, older, newer)
    ensures ChainSpec(store, id, limit) == Nearest(older, Self(store[id]), newer, limit)
  {
    var q := store[id];
    var room := limit - |Self(q)|;
    var back := WalkFrom(store, Backward, q.supersedes, {id}, room);
    var ahead := WalkFrom(store, Forward, q.supersededBy, back.visited, room - |back.found|);
    ChainParts(store, id, limit, back, ahead);
    PartsAreNearest(older, Self(q), newer, limit, back.found, ahead.found);
  }

  lemma PartsAreNearest(older: seq<Chunk>, self: seq<Chunk>, newer: seq<Chunk>, limit: nat, back: seq<Chunk>, ahead: seq<Chunk>)
    requires |self| <= 1 <= limit && back == Reverse(Last(older, limit - |self|))
    requires |back| <= limit - |self| && ahead == First(newer, limit - |self| - |back|)
    ensures Reverse(self + back) + ahead == Nearest(older, self, newer, limit)
  {
    ReverseSelf(self, Last(older, limit - |self|));
  }

  lemma WalksFromMember(store: Store, path: seq<string>, k: nat, room: nat)
    requires IsChain(store, path) && k < |path|
    ensures WalksMeet(store, path[k], room, Live(store, path[..k]), Live(store, path[k + 1..]))
  {
    BackFromMember(store, path, k, room);
    FirstReversed(Live(store, path[..k]), room);
    var back := WalkFrom(store, Backward, store[path[k]].supersedes, {path[k]}, room);
    ChainLinks(store, path);
    UnseenAhead(path, k, back.visited);
    AheadFromMember(store, path, k, back.visited, room - |back.found|);
  }

  lemma BackFromMember(store: Store, path: seq<string>, k: nat, room: nat)
    requires IsChain(store, path) && k < |path|
    ensures Finds(WalkFrom(store, Backward, store[path[k]].supersedes, {path[k]}, room),
                  First(Reverse(Live(store, path[..k])), room), {path[k]}, path[..k])
  {
    ChainLinks(store, path);
    PrefixLinked(store, path, k);
    assert Prev(path[..k], |path[..k]|) == Prev(path, k) == store[path[k]].supersedes;
    assert Unseen(path[..k], {path[k]});
    WalkBack(store, path[..k], {path[k]}, room);
  }

  lemma AheadFromMember(store: Store, path: seq<string>, k: nat, visited: set<string>, room: nat)
    requires IsChain(store, path) && k < |path|
    requires Unseen(path[k + 1..], visited)
    ensures WalkFrom(store, Forward, store[path[k]].supersededBy, visited, room).found == First(Live(store, path[k + 1..]), room)
  {
    ChainLinks(store, path);
    SuffixLinked(store, path, k + 1);
    assert store[path[k]].supersededBy == Succ(path, k);
    WalkAhead(store, path[k + 1..], visited, room);
  }

  lemma UnseenAhead(path: seq<string>, k: nat, visited: set<string>)
    requires NoDup(path) && k < |path|
    requires forall id :: id in visited ==> id == path[k] || id in path[..k]
    ensures Unseen(path[k + 1..], visited)
  {
  }

  lemma ChainLinks(store: Store, path: seq<string>)
    requires IsChain(store, path)
    ensures Stored(store, path) && BackLinked(store, path) && AheadLinked(store, path) && NoDup(path)
  {
    forall i {:trigger Prev(path, i)} {:trigger Succ(path, i)} | 0 <= i < |path|
      ensures store[path[i]].supersedes == Prev(path, i) && store[path[i]].supersededBy == Succ(path, i)
    {
      assert Steps(store, path, i) && (i + 1 < |path| ==> Steps(store, path, i + 1));
    }
    ChainIsDistinct(store, path);
  }

  lemma LiveSplit(store: Store, path: seq<string>, k: nat)
    requires (forall i :: 0 <= i < |path| ==> path[i] in store) && k < |path|
    ensures Live(store, path) ==
            Live(store, path[..k]) + Self(store[path[k]]) + Live(store, path[k + 1..])
  {
    var id := path[k];
    assert path == path[..k] + [id] + path[k + 1..];
    LiveConcat(store, path[..k] + [id], path[k + 1..]);
    LiveConcat(store, path[..k], [id]);
    LiveOne(store, id);
  }

  lemma ReverseSelf(self: seq<Chunk>, older: seq<Chunk>)
    requires |self| <= 1
    ensures Reverse(self + Reverse(older)) == older + self
  {
    ReverseTwice(older);
    if self != [] {
      assert self == [self[0]] && (self + Reverse(older))[1..] == Reverse(older);
    } else {
      assert self + Reverse(older) == Reverse(older);
    }
  }

  ghost predicate VersionsAscend(cs: seq<Chunk>) {
    forall i, j :: 0 <= i < j < |cs| ==> cs[i].version < cs[j].version
  }

  /** The listed history is in version order. */
  lemma {:induction false} LiveAscends(store: Store, path: seq<string>, n: nat)
    requires IsChain(store, path) && n <= |path|
    ensures VersionsAscend(Live(store, path[..n]))
    ensures forall c :: c in Live(store, path[..n]) ==> c.version < store[path[0]].version + n
  {
    if n > 0 {
      var c := store[path[n - 1]];
      var before := Live(store, path[..n - 1]);
      assert path[..n][..n - 1] == path[..n - 1];
      assert Live(store, path[..n]) == before + Self(c);
      assert Steps(store, path, n - 1);
      LiveAscends(store, path, n - 1);
      forall i | 0 <= i < |before| ensures before[i].version < c.version {
        assert before[i] in before;
      }
    }
  }

  // ---------------------------------------------------------------------------------- histories

  ghost predicate ChainThrough(store: Store, path: seq<string>, id: string) {
    IsChain(store, path) && id in path
  }

  ghost predicate OnChain(store: Store, id: string) {
    exists path :: ChainThrough(store, path, id)
  }

  ghost predicate AllOnChains(store: Store) {
    KeyedById(store) && forall id {:trigger OnChain(store, id)} :: id in store ==> OnChain(store, id)
  }

  predicate SameLinks(a: Chunk, b: Chunk) {
    && a.id == b.id && a.version == b.version && a.isLatest == b.isLatest
    && a.supersededBy == b.supersededBy && a.supersedes == b.supersedes && a.root == b.root
  }

  predicate KeepsLinks(store: Store, store': Store, id: string) {
    id in store ==> id in store' && SameLinks(store[id], store'[id])
  }

  /** A chain keeps its shape when its members keep their links. */
  lemma ChainKept(store: Store, store': Store, path: seq<string>)
    requires IsChain(store, path)
    requires forall i :: 0 <= i < |path| ==> KeepsLinks(store, store', path[i])
    ensures IsChain(store', path)
  {
    forall i | 0 <= i < |path| ensures path[i] in store' {
      assert path[i] in store && KeepsLinks(store, store', path[i]);
    }
    assert KeepsLinks(store, store', path[0]) && KeepsLinks(store, store', path[|path| - 1]);
    forall i | 0 <= i < |path| ensures Steps(store', path, i) {
      assert Steps(store, path, i);
      assert KeepsLinks(store, store', path[i]) && (i > 0 ==> KeepsLinks(store, store', path[i - 1]));
    }
  }

  lemma StaysOnChain(store: Store, store': Store, id: string)
    requires OnChain(store, id)
    requires forall k :: KeepsLinks(store, store', k)
    ensures OnChain(store', id)
  {
    var path :| ChainThrough(store, path, id);
    ChainKept(store, store', path);
    assert ChainThrough(store', path, id);
  }

  lemma SingleChain(store: Store, c: Chunk)
    requires c.id in store && store[c.id] == c && c.isLatest && c.supersededBy.None? && c.supersedes.None?
    ensures OnChain(store, c.id)
  {
    assert Steps(store, [c.id], 0);
    assert ChainThrough(store, [c.id], c.id);
  }

  lemma CreateKeepsChains(store: Store, c: Chunk)
    requires AllOnChains(store) && IsFresh(store, c)
    ensures AllOnChains(store[c.id := c])
  {
    var store' := store[c.id := c];
    assert forall k :: KeepsLinks(store, store', k);
    SingleChain(store', c);
    forall id {:trigger OnChain(store', id)} | id in store' ensures OnChain(store', id) {
      if id != c.id { StaysOnChain(store, store', id); }
    }
  }

  lemma DeleteKeepsChains(store: Store, id: string)
    requires AllOnChains(store) && id in store
    ensures AllOnChains(store[id := store[id].(deleted := true)])
  {
    var store' := store[id := store[id].(deleted := true)];
    assert forall k :: KeepsLinks(store, store', k);
    forall k {:trigger OnChain(store', k)} | k in store' ensures OnChain(store', k) {
      StaysOnChain(store, store', k);
    }
  }

  function Superseded(store: Store, old': string, c: Chunk): Store
    requires old' in store
  {
    store[old' := Flip(store[old'], c.id)][c.id := LinkSuccessor(store[old'], c)]
  }

  lemma ChainExtended(store: Store, path: seq<string>, old': string, c: Chunk)
    requires KeyedById(store) && IsChain(store, path) && path[|path| - 1] == old' && c.id !in store
    requires c.isLatest && c.supersededBy.None?
    ensures IsChain(Superseded(store, old', c), path + [c.id])
  {
    var store' := Superseded(store, old', c);
    var path' := path + [c.id];
    ChainIsDistinct(store, path);
    forall i | 0 <= i < |path'| ensures path'[i] in store' {
      assert i < |path| ==> path[i] in store;
    }
    forall i | 0 <= i < |path'| ensures Steps(store', path', i) {
      if i < |path| {
        assert Steps(store, path, i);
      } else {
        assert Steps(store, path, i - 1);
      }
    }
  }

  /** The chain of the superseded version grows by one; every other chain is untouched. */
  lemma SupersededOnChain(store: Store, old': string, c: Chunk, id: string)
    requires KeyedById(store) && c.id !in store && c.isLatest && c.supersededBy.None?
    requires old' in store && store[old'].supersededBy.None? && OnChain(store, id)
    ensures OnChain(Superseded(store, old', c), id)
    ensures id == old' ==> OnChain(Superseded(store, old', c), c.id)
  {
    var store' := Superseded(store, old', c);
    var path :| ChainThrough(store, path, id);
    if old' in path {
      EndsAt(store, path, old');
      ChainExtended(store, path, old', c);
      assert ChainThrough(store', path + [c.id], id) && ChainThrough(store', path + [c.id], c.id);
    } else {
      forall i | 0 <= i < |path| ensures KeepsLinks(store, store', path[i]) {
        assert path[i] in store;
      }
      ChainKept(store, store', path);
      assert ChainThrough(store', path, id);
    }
  }

  lemma SupersedeKeepsChains(store: Store, old': string, c: Chunk)
    requires AllOnChains(store) && IsFresh(store, c) && old' in store && store[old'].supersededBy.None?
    ensures AllOnChains(Superseded(store, old', c))
  {
    var store' := Superseded(store, old', c);
    SupersededOnChain(store, old', c, old');
    forall id {:trigger OnChain(store', id)} | id in store' ensures OnChain(store', id) {
      if id != c.id { SupersededOnChain(store, old', c, id); }
    }
  }

  lemma LinkedForward(store: Store, path: seq<string>)
    requires IsChain(store, path)
    ensures forall i :: 0 <= i < |path| - 1 ==> store[path[i]].supersededBy.Some?
  {
    forall i | 0 <= i < |path| - 1 ensures store[path[i]].supersededBy.Some? {
      assert Steps(store, path, i + 1);
    }
  }

  /** Only the last member of a chain has no successor. */
  lemma EndsAt(store: Store, path: seq<string>, id: string)
    requires IsChain(store, path) && id in path && store[id].supersededBy.None?
    ensures path[|path| - 1] == id
  {
    LinkedForward(store, path);
  }

  /** No dream run, and a supersede is of the current version as it is stored. */
  predicate OfCurrent(store: Store, a: Action) {
    match a
    case Supersede(copy, _) => copy.id in store && copy == store[copy.id] && copy.supersededBy.None?
    case DreamPersist(_, _) => false
    case DreamRetire(_, _, _) => false
    case _ => true
  }

  predicate AllOfCurrent(store: Store, run: seq<Action>)
    requires Allowed(store, run)
    decreases |run|
  {
    run == [] || (OfCurrent(store, run[0]) && AllOfCurrent(Next(store, run[0]), run[1..]))
  }

  predicate IsStored(store: Store, c: Chunk) { c.id in store && store[c.id] == c }

  /** Such a history only creates, soft-deletes, and supersedes what has no successor, as it is stored at that moment. */
  lemma {:induction false} CurrentTakesEach(store: Store, run: seq<Action>, a: Action)
    requires Allowed(store, run + [a])
    ensures Allowed(store, run) && AllOfCurrent(store, [])
    ensures AllOfCurrent(store, run + [a]) <==>
              && AllOfCurrent(store, run)
              && (a.Create? || a.SoftDelete? || (a.Supersede? && a.copy.supersededBy == None && IsStored(After(store, run), a.copy)))
    decreases |run|
  {
    HistoriesTakeEach(store, run, a);
    if run == [] {
      assert [a][1..] == [] && run + [a] == [a];
    } else {
      assert (run + [a])[1..] == run[1..] + [a];
      CurrentTakesEach(Next(store, run[0]), run[1..], a);
    }
  }

  lemma StepKeepsChains(store: Store, a: Action)
    requires AllOnChains(store) && Enabled(store, a) && OfCurrent(store, a)
    ensures AllOnChains(Next(store, a))
  {
    match a
    case Create(c) => CreateKeepsChains(store, c);
    case SoftDelete(id) => DeleteKeepsChains(store, id);
    case Supersede(copy, c) =>
      if GuardPasses(copy, c.trust) { SupersedeKeepsChains(store, copy.id, c); } else { CreateKeepsChains(store, c); }
  }

  lemma {:induction false} HistoriesKeepChains(store: Store, run: seq<Action>)
    requires AllOnChains(store) && Allowed(store, run) && AllOfCurrent(store, run)
    ensures AllOnChains(After(store, run))
    decreases |run|
  {
    if run != [] {
      StepKeepsChains(store, run[0]);
      HistoriesKeepChains(Next(store, run[0]), run[1..]);
    }
  }

  /**
   * In every store built from fresh chunks, soft deletes and guarded supersedes of the current version,
   * every chunk lies on one chain, and each member of it lists the same live versions in version order.
   */
  lemma HistoryIsTheSameFromEveryMember(run: seq<Action>, id: string) returns (path: seq<string>)
    requires Allowed(map[], run) && AllOfCurrent(map[], run) && id in After(map[], run)
    ensures var store := After(map[], run);
            && ChainThrough(store, path, id)
            && (forall k, limit: nat :: 0 <= k < |path| && limit >= |Live(store, path)| ==>
                  ChainSpec(store, path[k], limit) == Live(store, path))
            && VersionsAscend(Live(store, path))
  {
    HistoriesKeepChains(map[], run);
    var store := After(map[], run);
    assert OnChain(store, id);
    path :| ChainThrough(store, path, id);
    forall k, limit: nat | 0 <= k < |path| && limit >= |Live(store, path)|
      ensures ChainSpec(store, path[k], limit) == Live(store, path)
    {
      ChainFromAnyMember(store, path, k, limit);
    }
    LiveAscends(store, path, |path|);
    assert path[..|path|] == path;
  }

  // -------------------------------------------------------------------------------- the program

  /** `get_memory_chain`: backwards to the root, then forwards from the queried chunk. */
  method GetMemoryChain(store: Store, id: string, limit: nat) returns (chain: seq<Chunk>)
    ensures chain == ChainSpec(store, id, limit)
  {
    if limit == 0 || id !in store {
      return [];
    }
    var queried := store[id];
    var visited;
    chain, visited := Follow(store, Backward, queried.supersedes, {id}, Self(queried), limit);
    chain := Reverse(chain);
    chain, visited := Follow(store, Forward, queried.supersededBy, visited, chain, limit);
  }

  /** The loop both directions share: follow one kind of link and collect what is live. */
  method Follow(store: Store, d: Direction, start: Option<string>, before: set<string>, collected: seq<Chunk>, limit: nat)
    returns (chain: seq<Chunk>, visited: set<string>)
    requires |collected| <= limit
    ensures |chain| <= limit && Walk(chain, visited) == Outcome(store, d, start, before, collected, limit)
  {
    chain, visited := collected, before;
    var next := start;
    while next.Some? && |chain| < limit && next.value !in visited && next.value in store
      invariant |chain| <= limit
      invariant Outcome(store, d, next, visited, chain, limit) == Outcome(store, d, start, before, collected, limit)
      decreases |store.Keys - visited|
    {
      WalkStep(store, d, next.value, visited, limit, chain);
      var c := store[next.value];
      visited := visited + {next.value};
      next := Link(d, c);
      chain := if c.deleted then chain else chain + [c];
    }
    WalkStops(store, d, next, visited, limit, chain);
    if next.Some? && |chain| < limit && next.value !in visited {
      visited := visited + {next.value};
    }
  }

  lemma WalkStops(store: Store, d: Direction, next: Option<string>, visited: set<string>, limit: nat, chain: seq<Chunk>)
    requires |chain| <= limit
    requires !(next.Some? && |chain| < limit && next.value !in visited && next.value in store)
    ensures Outcome(store, d, next, visited, chain, limit) ==
            Walk(chain, if next.Some? && |chain| < limit && next.value !in visited then visited + {next.value} else visited)
  {
  }

  /** One turn of the loop: the chunk moves from the rest of the walk to the chunks collected. */
  lemma WalkStep(store: Store, d: Direction, id: string, visited: set<string>, limit: nat, chain: seq<Chunk>)
    requires id in store && id !in visited && |chain| < limit
    ensures var c := store[id];
            var chain' := if c.deleted then chain else chain + [c];
            Outcome(store, d, Some(id), visited, chain, limit) == Outcome(store, d, Link(d, c), visited + {id}, chain', limit)
    ensures |store.Keys - (visited + {id})| < |store.Keys - visited|
  {
    Unvisited(store, visited, id);
    var c := store[id];
    var room := limit - |chain|;
    var rest := WalkFrom(store, d, Link(d, c), visited + {id}, if c.deleted then room else room - 1);
    assert WalkFrom(store, d, Some(id), visited, room) == Walk(Self(c) + rest.found, rest.visited);
    if c.deleted {
      assert [] + rest.found == rest.found;
    } else {
      assert chain + ([c] + rest.found) == chain + [c] + rest.found;
    }
  }
}
