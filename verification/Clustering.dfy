/** Greedy clustering of chunks by embedding similarity, with running centroids, over the reals. */
module Clustering {
  import opened Prelude

  type Vector = seq<real>

  type Similarity = (Vector, Vector) -> real

  type Embeddings = string -> Option<Vector>

  datatype Group = Group(centroid: Vector, members: seq<string>)

  // --------------------------------------------------------------------------------- centroids

  /** Coordinates both vectors have move towards the new embedding; the others stay. */
  function Updated(c: Vector, e: Vector, n: nat): (r: Vector)
    requires n > 0
    ensures |r| == |c|
  {
    seq(|c|, k requires 0 <= k < |c| => if k < |e| then (c[k] * (n as real - 1.0) + e[k]) / n as real else c[k])
  }

  method UpdateCentroid(c: Vector, e: Vector, n: nat) returns (r: Vector)
    requires n > 0
    ensures r == Updated(c, e, n)
  {
    r := c;
    var k := 0;
    while k < |c| && k < |e|
      invariant k <= |c| && k <= |e| && |r| == |c|
      invariant forall j :: 0 <= j < k ==> r[j] == Updated(c, e, n)[j]
      invariant forall j :: k <= j < |c| ==> r[j] == c[j]
    {
      r := r[k := (r[k] * (n as real - 1.0) + e[k]) / n as real];
      k := k + 1;
    }
  }

  // ---------------------------------------------------------------------------------- choosing

  /** The highest similarity so far, starting from -1, and the first group that reached it. */
  function Best(sim: Similarity, e: Vector, groups: seq<Group>): (r: (real, Option<nat>))
    ensures r.1.Some? ==> r.1.value < |groups|
  {
    if groups == [] then (-1.0, None)
    else
      var n := |groups| - 1;
      var best := Best(sim, e, groups[..n]);
      var s := sim(e, groups[n].centroid);
      if s > best.0 then (s, Some(n)) else best
  }

  /** The group a chunk joins, or none when it starts its own. */
  function Home(sim: Similarity, threshold: real, e: Vector, groups: seq<Group>): (r: Option<nat>)
    ensures r.Some? ==> r.value < |groups|
  {
    var best := Best(sim, e, groups);
    if best.0 >= threshold then best.1 else None
  }

  lemma {:induction false} BestMeans(sim: Similarity, e: Vector, groups: seq<Group>)
    ensures var (s, i) := Best(sim, e, groups);
            && s >= -1.0
            && (forall j :: 0 <= j < |groups| ==> sim(e, groups[j].centroid) <= s)
            && match i
               case None => s == -1.0
               case Some(i) =>
                 && i < |groups| && s == sim(e, groups[i].centroid) > -1.0
                 && forall j :: 0 <= j < i ==> sim(e, groups[j].centroid) < s
    decreases |groups|
  {
    if groups != [] { BestMeans(sim, e, groups[..|groups| - 1]); }
  }

  /** A chunk joins the first of its most similar groups, exactly when that group is similar enough. */
  lemma HomeIff(sim: Similarity, threshold: real, e: Vector, groups: seq<Group>, i: nat)
    requires i < |groups|
    ensures Home(sim, threshold, e, groups) == Some(i) <==>
              && sim(e, groups[i].centroid) > -1.0 && sim(e, groups[i].centroid) >= threshold
              && (forall j :: 0 <= j < |groups| ==> sim(e, groups[j].centroid) <= sim(e, groups[i].centroid))
              && (forall j :: 0 <= j < i ==> sim(e, groups[j].centroid) < sim(e, groups[i].centroid))
    ensures Home(sim, threshold, e, groups).Some? ==> Home(sim, threshold, e, groups).value < |groups|
  {
    BestMeans(sim, e, groups);
    var best := Best(sim, e, groups).1;
    if best.Some? && best.value < |groups| {
      assert sim(e, groups[best.value].centroid) <= sim(e, groups[i].centroid) ==> best.value <= i;
    }
  }

  function Place(sim: Similarity, threshold: real, groups: seq<Group>, id: string, e: Vector): seq<Group> {
    match Home(sim, threshold, e, groups)
    case None => groups + [Group(e, [id])]
    case Some(i) =>
      var members := groups[i].members + [id];
      groups[i := Group(Updated(groups[i].centroid, e, |members|), members)]
  }

  datatype Item = Item(id: string, e: Vector)

  /** The chunks that have an embedding, with it. */
  function Embedded(emb: Embeddings, chunks: seq<string>): seq<Item> {
    if chunks == [] then []
    else
      var n := |chunks| - 1;
      Embedded(emb, chunks[..n]) + match emb(chunks[n]) case None => [] case Some(e) => [Item(chunks[n], e)]
  }

  function Grown(sim: Similarity, threshold: real, items: seq<Item>): seq<Group> {
    if items == [] then []
    else
      var n := |items| - 1;
      Place(sim, threshold, Grown(sim, threshold, items[..n]), items[n].id, items[n].e)
  }

  function Clustered(sim: Similarity, threshold: real, emb: Embeddings, chunks: seq<string>): seq<Group> {
    Grown(sim, threshold, Embedded(emb, chunks))
  }

  lemma ClusteredSnoc(sim: Similarity, threshold: real, emb: Embeddings, chunks: seq<string>, id: string)
    ensures var groups := Clustered(sim, threshold, emb, chunks);
            Clustered(sim, threshold, emb, chunks + [id]) ==
              match emb(id) case None => groups case Some(e) => Place(sim, threshold, groups, id, e)
  {
    EmbeddedSnoc(emb, chunks, id);
    var before := Embedded(emb, chunks);
    if emb(id).Some? {
      assert (before + [Item(id, emb(id).value)])[..|before|] == before;
    } else {
      assert before + [] == before;
    }
  }

  lemma EmbeddedSnoc(emb: Embeddings, chunks: seq<string>, id: string)
    ensures Embedded(emb, chunks + [id]) ==
              Embedded(emb, chunks) + match emb(id) case None => [] case Some(e) => [Item(id, e)]
  {
    assert (chunks + [id])[..|chunks|] == chunks;
  }

  // --------------------------------------------------------------------------- one group a chunk

  function HomeOf(sim: Similarity, threshold: real, emb: Embeddings, groups: seq<Group>, id: string): Option<nat> {
    match emb(id)
    case None => None
    case Some(e) => Some(match Home(sim, threshold, e, groups) case None => |groups| case Some(i) => i)
  }

  /** Where each chunk went: a group's position, or nowhere for a chunk without an embedding. */
  function Homes(sim: Similarity, threshold: real, emb: Embeddings, chunks: seq<string>): (r: seq<Option<nat>>)
    ensures |r| == |chunks|
  {
    if chunks == [] then []
    else
      var n := |chunks| - 1;
      Homes(sim, threshold, emb, chunks[..n]) +
        [HomeOf(sim, threshold, emb, Clustered(sim, threshold, emb, chunks[..n]), chunks[n])]
  }

  lemma HomesSnoc(sim: Similarity, threshold: real, emb: Embeddings, chunks: seq<string>, id: string)
    ensures Homes(sim, threshold, emb, chunks + [id]) ==
              Homes(sim, threshold, emb, chunks) + [HomeOf(sim, threshold, emb, Clustered(sim, threshold, emb, chunks), id)]
  {
    assert (chunks + [id])[..|chunks|] == chunks;
  }

  /** The chunks with one home, in their order. */
  function SentTo(chunks: seq<string>, homes: seq<Option<nat>>, home: Option<nat>): (r: seq<string>)
    requires |homes| == |chunks|
    ensures forall id :: id in r ==> id in chunks
  {
    if chunks == [] then []
    else
      var n := |chunks| - 1;
      SentTo(chunks[..n], homes[..n], home) + if homes[n] == home then [chunks[n]] else []
  }

  lemma SentSnoc(chunks: seq<string>, homes: seq<Option<nat>>, id: string, h: Option<nat>, home: Option<nat>)
    requires |homes| == |chunks|
    ensures SentTo(chunks + [id], homes + [h], home) == SentTo(chunks, homes, home) + if h == home then [id] else []
  {
    assert (chunks + [id])[..|chunks|] == chunks && (homes + [h])[..|chunks|] == homes;
  }

  lemma {:induction false} NobodySentBeyond(chunks: seq<string>, homes: seq<Option<nat>>, g: nat)
    requires |homes| == |chunks| && forall i :: 0 <= i < |homes| ==> homes[i] != Some(g)
    ensures SentTo(chunks, homes, Some(g)) == []
    decreases |chunks|
  {
    if chunks != [] {
      assert homes[|chunks| - 1] != Some(g);
      NobodySentBeyond(chunks[..|chunks| - 1], homes[..|chunks| - 1], g);
    }
  }

  ghost predicate GroupsMatch(emb: Embeddings, groups: seq<Group>, chunks: seq<string>, homes: seq<Option<nat>>) {
    && |homes| == |chunks|
    && (forall i :: 0 <= i < |homes| ==>
          (homes[i].None? <==> emb(chunks[i]).None?) && (homes[i].Some? ==> homes[i].value < |groups|))
    && (forall g :: 0 <= g < |groups| ==> groups[g].members == SentTo(chunks, homes, Some(g)) != [])
  }

  /** Each group holds exactly the chunks sent to it, in order, and none is empty. */
  lemma {:induction false} GroupsAreHomes(sim: Similarity, threshold: real, emb: Embeddings, chunks: seq<string>)
    ensures GroupsMatch(emb, Clustered(sim, threshold, emb, chunks), chunks, Homes(sim, threshold, emb, chunks))
    decreases |chunks|
  {
    if chunks != [] {
      var n := |chunks| - 1;
      var rest, id := chunks[..n], chunks[n];
      assert chunks == rest + [id];
      GroupsAreHomes(sim, threshold, emb, rest);
      ClusteredSnoc(sim, threshold, emb, rest, id);
      HomesSnoc(sim, threshold, emb, rest, id);
      var groups, homes := Clustered(sim, threshold, emb, rest), Homes(sim, threshold, emb, rest);
      if emb(id).Some? {
        PlaceMatches(sim, threshold, emb, groups, rest, homes, id);
      } else {
        SkipMatches(emb, groups, rest, homes, id);
      }
    }
  }

  lemma PlaceMatches(sim: Similarity, threshold: real, emb: Embeddings, groups: seq<Group>, chunks: seq<string>,
                     homes: seq<Option<nat>>, id: string)
    requires GroupsMatch(emb, groups, chunks, homes) && emb(id).Some?
    ensures GroupsMatch(emb, Place(sim, threshold, groups, id, emb(id).value), chunks + [id],
                        homes + [HomeOf(sim, threshold, emb, groups, id)])
  {
    BestMeans(sim, emb(id).value, groups);
    var home := Home(sim, threshold, emb(id).value, groups);
    if home.None? {
      OpenMatches(emb, groups, chunks, homes, id);
    } else {
      JoinMatches(emb, groups, chunks, homes, id, home.value);
    }
  }

  lemma OpenMatches(emb: Embeddings, groups: seq<Group>, chunks: seq<string>, homes: seq<Option<nat>>, id: string)
    requires GroupsMatch(emb, groups, chunks, homes) && emb(id).Some?
    ensures GroupsMatch(emb, groups + [Group(emb(id).value, [id])], chunks + [id], homes + [Some(|groups|)])
  {
    var after := groups + [Group(emb(id).value, [id])];
    NobodySentBeyond(chunks, homes, |groups|);
    forall g | 0 <= g < |after|
      ensures after[g].members == SentTo(chunks + [id], homes + [Some(|groups|)], Some(g)) != []
    {
      SentSnoc(chunks, homes, id, Some(|groups|), Some(g));
    }
  }

  lemma JoinMatches(emb: Embeddings, groups: seq<Group>, chunks: seq<string>, homes: seq<Option<nat>>, id: string, i: nat)
    requires GroupsMatch(emb, groups, chunks, homes) && emb(id).Some? && i < |groups|
    ensures var members := groups[i].members + [id];
            GroupsMatch(emb, groups[i := Group(Updated(groups[i].centroid, emb(id).value, |members|), members)],
                        chunks + [id], homes + [Some(i)])
  {
    forall g | 0 <= g < |groups|
      ensures SentTo(chunks + [id], homes + [Some(i)], Some(g)) == groups[g].members + if g == i then [id] else []
    {
      SentSnoc(chunks, homes, id, Some(i), Some(g));
    }
  }

  lemma SkipMatches(emb: Embeddings, groups: seq<Group>, chunks: seq<string>, homes: seq<Option<nat>>, id: string)
    requires GroupsMatch(emb, groups, chunks, homes) && emb(id).None?
    ensures GroupsMatch(emb, groups, chunks + [id], homes + [None])
  {
    forall g | 0 <= g < |groups| ensures groups[g].members == SentTo(chunks + [id], homes + [None], Some(g)) != [] {
      SentSnoc(chunks, homes, id, None, Some(g));
    }
  }

  // ------------------------------------------------------------------------------ exact centroids

  function SumAt(emb: Embeddings, members: seq<string>, k: nat): real {
    if members == [] then 0.0
    else
      var e := emb(members[|members| - 1]);
      SumAt(emb, members[..|members| - 1], k) + if e.Some? && k < |e.value| then e.value[k] else 0.0
  }

  /** Every member has an embedding with coordinate k. */
  ghost predicate Shared(emb: Embeddings, members: seq<string>, k: nat) {
    forall i :: 0 <= i < |members| ==> emb(members[i]).Some? && k < |emb(members[i]).value|
  }

  ghost predicate MeanAt(emb: Embeddings, g: Group, k: nat) {
    && g.members != []
    && (Shared(emb, g.members, k) ==>
          k < |g.centroid| && g.centroid[k] == SumAt(emb, g.members, k) / |g.members| as real)
  }

  lemma JoinKeepsMean(emb: Embeddings, g: Group, id: string, e: Vector, k: nat)
    requires emb(id) == Some(e) && MeanAt(emb, g, k)
    ensures var members := g.members + [id]; MeanAt(emb, Group(Updated(g.centroid, e, |members|), members), k)
  {
    var members := g.members + [id];
    assert members[..|g.members|] == g.members && members[|g.members|] == id;
    if Shared(emb, members, k) {
      forall i | 0 <= i < |g.members| ensures emb(g.members[i]).Some? && k < |emb(g.members[i]).value| {
        assert members[i] == g.members[i];
      }
      assert Shared(emb, g.members, k);
      var n := |g.members| as real;
      assert emb(members[|g.members|]).Some? && |members| as real == n + 1.0;
      MeanStep(SumAt(emb, g.members, k), n, e[k]);
      assert Updated(g.centroid, e, |members|)[k] == (g.centroid[k] * (n + 1.0 - 1.0) + e[k]) / (n + 1.0);
      assert SumAt(emb, members, k) == SumAt(emb, g.members, k) + e[k];
    }
  }

  lemma MeanStep(sum: real, n: real, x: real)
    requires n > 0.0
    ensures (sum / n * (n + 1.0 - 1.0) + x) / (n + 1.0) == (sum + x) / (n + 1.0)
  {
    assert sum / n * n == sum;
  }

  ghost predicate AllMeans(emb: Embeddings, groups: seq<Group>, k: nat) {
    forall g :: 0 <= g < |groups| ==> MeanAt(emb, groups[g], k)
  }

  lemma PlaceKeepsMeans(sim: Similarity, threshold: real, emb: Embeddings, groups: seq<Group>, id: string, e: Vector, k: nat)
    requires emb(id) == Some(e) && AllMeans(emb, groups, k)
    ensures AllMeans(emb, Place(sim, threshold, groups, id, e), k)
  {
    var home := Home(sim, threshold, e, groups);
    if home.None? {
      assert [id][..0] == [];
      assert SumAt(emb, [id], k) == 0.0 + if k < |e| then e[k] else 0.0;
      assert Shared(emb, [id], k) ==> emb([id][0]).Some?;
      assert MeanAt(emb, Group(e, [id]), k);
    } else if home.value < |groups| {
      assert MeanAt(emb, groups[home.value], k);
      JoinKeepsMean(emb, groups[home.value], id, e, k);
    }
  }

  /** In every coordinate all its members share, a group's centroid is exactly their mean. */
  lemma {:induction false} CentroidsAreMeans(sim: Similarity, threshold: real, emb: Embeddings, chunks: seq<string>, k: nat)
    ensures AllMeans(emb, Clustered(sim, threshold, emb, chunks), k)
    decreases |chunks|
  {
    if chunks != [] {
      var n := |chunks| - 1;
      var rest, id := chunks[..n], chunks[n];
      assert chunks == rest + [id];
      CentroidsAreMeans(sim, threshold, emb, rest, k);
      ClusteredSnoc(sim, threshold, emb, rest, id);
      if emb(id).Some? {
        PlaceKeepsMeans(sim, threshold, emb, Clustered(sim, threshold, emb, rest), id, emb(id).value, k);
      }
    }
  }

  // ----------------------------------------------------------------------------------- the result

  function Members(groups: seq<Group>): (r: seq<seq<string>>)
    ensures |r| == |groups| && forall g :: 0 <= g < |groups| ==> r[g] == groups[g].members
  {
    seq(|groups|, g requires 0 <= g < |groups| => groups[g].members)
  }

  function Collected(chunks: seq<string>, groups: seq<Group>, homes: seq<Option<nat>>): seq<seq<string>>
    requires |homes| == |chunks|
  {
    var without := SentTo(chunks, homes, None);
    if without == chunks then [chunks] else if without == [] then Members(groups) else Members(groups) + [without]
  }

  function Grouping(sim: Similarity, threshold: real, emb: Embeddings, chunks: seq<string>): seq<seq<string>> {
    Collected(chunks, Clustered(sim, threshold, emb, chunks), Homes(sim, threshold, emb, chunks))
  }

  /** Chunks none of which has an embedding stay together. */
  lemma UnembeddedIsOneGroup(sim: Similarity, threshold: real, emb: Embeddings, chunks: seq<string>)
    requires forall id :: id in chunks ==> emb(id).None?
    ensures Grouping(sim, threshold, emb, chunks) == [chunks]
  {
    UnembeddedHomes(sim, threshold, emb, chunks);
  }

  lemma {:induction false} UnembeddedHomes(sim: Similarity, threshold: real, emb: Embeddings, chunks: seq<string>)
    requires forall id :: id in chunks ==> emb(id).None?
    ensures SentTo(chunks, Homes(sim, threshold, emb, chunks), None) == chunks
  {
    if chunks != [] {
      var n := |chunks| - 1;
      assert chunks == chunks[..n] + [chunks[n]];
      UnembeddedHomes(sim, threshold, emb, chunks[..n]);
      assert Homes(sim, threshold, emb, chunks)[..n] == Homes(sim, threshold, emb, chunks[..n]);
    }
  }

  /** Which home the group at a position of the result stands for. */
  function HomeAt(groups: nat, g: nat): Option<nat> { if g < groups then Some(g) else None }

  lemma {:induction false} SentLength(chunks: seq<string>, homes: seq<Option<nat>>, h: Option<nat>, i: nat)
    requires |homes| == |chunks| && i < |homes|
    ensures |SentTo(chunks, homes, h)| <= |chunks|
    ensures |SentTo(chunks, homes, h)| == |chunks| ==> homes[i] == h
    ensures |SentTo(chunks, homes, h)| == 0 ==> homes[i] != h
    decreases |chunks|
  {
    var n := |chunks| - 1;
    AllIfAsMany(chunks[..n], homes[..n], h);
    if i < n { SentLength(chunks[..n], homes[..n], h, i); }
  }

  lemma CollectedPartitions(emb: Embeddings, groups: seq<Group>, chunks: seq<string>, homes: seq<Option<nat>>)
    requires GroupsMatch(emb, groups, chunks, homes)
    ensures var result := Collected(chunks, groups, homes);
            && (forall g :: 0 <= g < |result| ==> result[g] == SentTo(chunks, homes, HomeAt(|groups|, g)))
            && (chunks != [] ==> forall g :: 0 <= g < |result| ==> result[g] != [])
    ensures SentTo(chunks, homes, None) == chunks ==> groups == []
  {
    if SentTo(chunks, homes, None) == chunks {
      forall i | 0 <= i < |homes| ensures homes[i].None? { SentLength(chunks, homes, None, i); }
      NobodyMeansNoGroups(emb, groups, chunks, homes);
    }
  }

  lemma EveryoneIsCollected(emb: Embeddings, groups: seq<Group>, chunks: seq<string>, homes: seq<Option<nat>>, i: nat)
    requires GroupsMatch(emb, groups, chunks, homes) && i < |chunks|
    ensures exists g :: 0 <= g < |Collected(chunks, groups, homes)| && HomeAt(|groups|, g) == homes[i]
  {
    CollectedPartitions(emb, groups, chunks, homes);
    SentLength(chunks, homes, None, i);
    assert HomeAt(|groups|, if homes[i].Some? then homes[i].value else |groups|) == homes[i];
  }

  lemma NobodyMeansNoGroups(emb: Embeddings, groups: seq<Group>, chunks: seq<string>, homes: seq<Option<nat>>)
    requires GroupsMatch(emb, groups, chunks, homes) && forall i :: 0 <= i < |homes| ==> homes[i].None?
    ensures groups == []
  {
    if groups != [] {
      NobodySentBeyond(chunks, homes, 0);
    }
  }

  /** Every chunk is in exactly the group it was sent to, and each group keeps the input's order. */
  lemma GroupingPartitions(sim: Similarity, threshold: real, emb: Embeddings, chunks: seq<string>)
    ensures var result, homes := Grouping(sim, threshold, emb, chunks), Homes(sim, threshold, emb, chunks);
            var n := |Clustered(sim, threshold, emb, chunks)|;
            && (forall g :: 0 <= g < |result| ==> result[g] == SentTo(chunks, homes, HomeAt(n, g)))
            && (forall i :: 0 <= i < |chunks| ==> exists g :: 0 <= g < |result| && HomeAt(n, g) == homes[i])
            && (chunks != [] ==> forall g :: 0 <= g < |result| ==> result[g] != [])
  {
    GroupsAreHomes(sim, threshold, emb, chunks);
    var groups, homes := Clustered(sim, threshold, emb, chunks), Homes(sim, threshold, emb, chunks);
    CollectedPartitions(emb, groups, chunks, homes);
    forall i | 0 <= i < |chunks|
      ensures exists g :: 0 <= g < |Collected(chunks, groups, homes)| && HomeAt(|groups|, g) == homes[i]
    {
      EveryoneIsCollected(emb, groups, chunks, homes, i);
    }
  }

  /** Distinct chunks make disjoint groups. */
  lemma {:induction false} SentApart(chunks: seq<string>, homes: seq<Option<nat>>, a: Option<nat>, b: Option<nat>, id: string)
    requires |homes| == |chunks| && a != b
    requires NoDup(chunks)
    ensures !(id in SentTo(chunks, homes, a) && id in SentTo(chunks, homes, b))
    decreases |chunks|
  {
    if chunks != [] {
      var n := |chunks| - 1;
      SentApart(chunks[..n], homes[..n], a, b, id);
      assert chunks[n] !in chunks[..n];
    }
  }

  lemma GroupsAreDisjoint(sim: Similarity, threshold: real, emb: Embeddings, chunks: seq<string>, g: nat, h: nat)
    requires NoDup(chunks)
    requires g < h < |Grouping(sim, threshold, emb, chunks)|
    ensures forall id :: id in Grouping(sim, threshold, emb, chunks)[g] ==>
                           id !in Grouping(sim, threshold, emb, chunks)[h] && id in chunks
  {
    GroupingPartitions(sim, threshold, emb, chunks);
    var homes, n := Homes(sim, threshold, emb, chunks), |Clustered(sim, threshold, emb, chunks)|;
    forall id | id in Grouping(sim, threshold, emb, chunks)[g]
      ensures id !in Grouping(sim, threshold, emb, chunks)[h] && id in chunks
    {
      SentApart(chunks, homes, HomeAt(n, g), HomeAt(n, h), id);
    }
  }

  method NearestGroup(sim: Similarity, threshold: real, e: Vector, groups: seq<Group>) returns (home: Option<nat>)
    ensures home == Home(sim, threshold, e, groups)
    ensures home.Some? ==> home.value < |groups|
  {
    var bestSim, bestIdx := -1.0, None;
    for i := 0 to |groups|
      invariant (bestSim, bestIdx) == Best(sim, e, groups[..i])
    {
      assert groups[..i + 1][..i] == groups[..i];
      var s := sim(e, groups[i].centroid);
      if s > bestSim { bestSim, bestIdx := s, Some(i); }
    }
    assert groups[..|groups|] == groups;
    BestMeans(sim, e, groups);
    home := if bestSim >= threshold then bestIdx else None;
  }

  /** The chunks sent nowhere are those without an embedding. */
  lemma {:induction false} UnsentSnoc(sim: Similarity, threshold: real, emb: Embeddings, chunks: seq<string>, id: string)
    ensures SentTo(chunks + [id], Homes(sim, threshold, emb, chunks + [id]), None) ==
              SentTo(chunks, Homes(sim, threshold, emb, chunks), None) + if emb(id).None? then [id] else []
  {
    HomesSnoc(sim, threshold, emb, chunks, id);
    SentSnoc(chunks, Homes(sim, threshold, emb, chunks), id,
             HomeOf(sim, threshold, emb, Clustered(sim, threshold, emb, chunks), id), None);
  }

  method Separate(sim: Similarity, threshold: real, emb: Embeddings, chunks: seq<string>)
    returns (items: seq<Item>, without: seq<string>)
    ensures items == Embedded(emb, chunks) && |items| + |without| == |chunks|
    ensures without == SentTo(chunks, Homes(sim, threshold, emb, chunks), None)
  {
    items, without := [], [];
    for n := 0 to |chunks|
      invariant items == Embedded(emb, chunks[..n]) && |items| + |without| == n
      invariant without == SentTo(chunks[..n], Homes(sim, threshold, emb, chunks[..n]), None)
    {
      var id := chunks[n];
      assert chunks[..n + 1] == chunks[..n] + [id];
      UnsentSnoc(sim, threshold, emb, chunks[..n], id);
      EmbeddedSnoc(emb, chunks[..n], id);
      match emb(id) {
        case None => without := without + [id];
        case Some(e) => items := items + [Item(id, e)];
      }
    }
    assert chunks[..|chunks|] == chunks;
  }

  /** Place the embedded chunks one by one. */
  method Grow(sim: Similarity, threshold: real, items: seq<Item>) returns (groups: seq<Group>)
    ensures groups == Grown(sim, threshold, items)
  {
    groups := [];
    for n := 0 to |items|
      invariant groups == Grown(sim, threshold, items[..n])
    {
      assert items[..n + 1][..n] == items[..n];
      var home := NearestGroup(sim, threshold, items[n].e, groups);
      if home.Some? {
        var g := groups[home.value];
        var members := g.members + [items[n].id];
        var centroid := UpdateCentroid(g.centroid, items[n].e, |members|);
        groups := groups[home.value := Group(centroid, members)];
      } else {
        groups := groups + [Group(items[n].e, [items[n].id])];
      }
    }
    assert items[..|items|] == items;
  }

  /** Chunks without an embedding make one last group, or the only one. */
  method ClusterBySimilarity(sim: Similarity, threshold: real, emb: Embeddings, chunks: seq<string>)
    returns (result: seq<seq<string>>)
    ensures result == Grouping(sim, threshold, emb, chunks)
  {
    var items, without := Separate(sim, threshold, emb, chunks);
    AllIfAsMany(chunks, Homes(sim, threshold, emb, chunks), None);
    if items == [] { return [chunks]; }
    var groups := Grow(sim, threshold, items);
    result := Members(groups);
    if without != [] { result := result + [without]; }
  }

  lemma {:induction false} AllIfAsMany(chunks: seq<string>, homes: seq<Option<nat>>, h: Option<nat>)
    requires |homes| == |chunks|
    ensures |SentTo(chunks, homes, h)| <= |chunks|
    ensures |SentTo(chunks, homes, h)| == |chunks| <==> SentTo(chunks, homes, h) == chunks
    decreases |chunks|
  {
    if chunks != [] {
      var n := |chunks| - 1;
      AllIfAsMany(chunks[..n], homes[..n], h);
      assert chunks == chunks[..n] + [chunks[n]];
    }
  }
}
