/** Consolidating raw chunks into summaries: which leases are taken, released, or left behind. */
module Consolidation {
  import opened Clustering
  import opened Prelude

  /** A raw chunk; `ready` says it is the latest version, not dormant and old enough. */
  datatype Raw = Raw(stream: string, ready: bool, deleted: bool, consolidated: bool, inProgress: bool)

  datatype Summary = Summary(stream: string, sources: seq<string>)

  datatype State = State(chunks: map<string, Raw>, summaries: seq<Summary>)

  /** How one sub-group ends. `stored` says whether the summary reached the store all the same. */
  datatype Ending =
    | MarkFails(marked: nat)
    | OverBudget
    | DroppedAwaiting
    | LlmError
    | Rejected
    | PersistFails(stored: bool)
    | DroppedPersisting(stored: bool)
    | ConsolidateFails(done: nat)
    | Finished

  datatype Flow = Next | StopStream | StopRun

  /** A sub-group that was reached: its place among its stream's groups, its chunks and its ending. */
  datatype Visit = Visit(stream: string, slot: nat, ids: seq<string>, ending: Ending)

  // ------------------------------------------------------------------------------------- marks

  datatype Change = Leasing | Releasing | Finishing

  function Changed(c: Raw, change: Change): Raw {
    match change
    case Leasing => c.(inProgress := true)
    case Releasing => c.(inProgress := false)
    case Finishing => c.(consolidated := true, inProgress := false)
  }

  function Marked(chunks: map<string, Raw>, ids: seq<string>, change: Change): map<string, Raw> {
    map id | id in chunks :: if id in ids then Changed(chunks[id], change) else chunks[id]
  }

  lemma MarkedOneMore(chunks: map<string, Raw>, ids: seq<string>, i: nat, change: Change)
    requires i < |ids|
    ensures var before, id := Marked(chunks, ids[..i], change), ids[i];
            Marked(chunks, ids[..i + 1], change) == if id in before then before[id := Changed(before[id], change)] else before
  {
    assert ids[..i + 1] == ids[..i] + [ids[i]];
  }

  /** The ids reached before a fault. */
  function Reached(ids: seq<string>, fault: Option<nat>): seq<string> {
    match fault
    case None => ids
    case Some(k) => if k < |ids| then ids[..k] else ids
  }

  // -------------------------------------------------------------------------------- one sub-group

  function StoresSummary(ending: Ending): bool {
    match ending
    case PersistFails(stored) => stored
    case DroppedPersisting(stored) => stored
    case ConsolidateFails(_) => true
    case Finished => true
    case _ => false
  }

  function Consolidates(v: Visit): seq<string> {
    match v.ending
    case ConsolidateFails(done) => Reached(v.ids, Some(done))
    case Finished => v.ids
    case _ => []
  }

  /** The chunks whose lease was taken and never given back: the guard did not exist yet. */
  function Stranded(v: Visit): seq<string> {
    if v.ending.MarkFails? then Reached(v.ids, Some(v.ending.marked)) else []
  }

  /** Lease, perhaps store a summary, perhaps mark sources consolidated, and release unless all were. */
  function AfterVisit(s: State, v: Visit): State {
    if v.ending.MarkFails? then s.(chunks := Marked(s.chunks, Reached(v.ids, Some(v.ending.marked)), Leasing))
    else
      var leased := Marked(s.chunks, v.ids, Leasing);
      var finished := Marked(leased, Consolidates(v), Finishing);
      State(if v.ending.Finished? then finished else Marked(finished, v.ids, Releasing),
            s.summaries + if StoresSummary(v.ending) then [Summary(v.stream, v.ids)] else [])
  }

  /** What a whole visit comes to for one chunk. */
  function Effect(v: Visit, id: string, c: Raw): Raw {
    if id !in v.ids then c
    else if id in Stranded(v) then c.(inProgress := true)
    else if v.ending.MarkFails? then c
    else c.(consolidated := c.consolidated || id in Consolidates(v), inProgress := false)
  }

  lemma EffectOfVisit(s: State, v: Visit, id: string)
    requires id in s.chunks
    ensures AfterVisit(s, v).chunks.Keys == s.chunks.Keys
    ensures AfterVisit(s, v).chunks[id] == Effect(v, id, s.chunks[id])
  {
    assert forall fault :: id in Reached(v.ids, fault) ==> id in v.ids;
  }

  /** The first so many of some chunks. */
  ghost predicate AmongFirst(id: string, ids: seq<string>, n: nat) {
    exists i :: 0 <= i < |ids| && i < n && ids[i] == id
  }

  /** Which of a visit's chunks are finished or left leased, and when it leaves a summary behind. */
  lemma VisitMeans(s: State, v: Visit, id: string)
    ensures id in Consolidates(v) <==>
              (v.ending == Finished && id in v.ids) || (v.ending.ConsolidateFails? && AmongFirst(id, v.ids, v.ending.done))
    ensures id in Stranded(v) <==> v.ending.MarkFails? && AmongFirst(id, v.ids, v.ending.marked)
    ensures AfterVisit(s, v).summaries ==
              if v.ending in {Finished, PersistFails(true), DroppedPersisting(true)} || v.ending.ConsolidateFails?
              then s.summaries + [Summary(v.stream, v.ids)] else s.summaries
  {
    assert s.summaries + [] == s.summaries;
  }

  // -------------------------------------------------------------------------------------- runs

  function Run(s: State, trace: seq<Visit>): State {
    if trace == [] then s else AfterVisit(Run(s, trace[..|trace| - 1]), trace[|trace| - 1])
  }

  predicate Eligible(c: Raw) { c.ready && !c.deleted && !c.consolidated && !c.inProgress }

  ghost predicate LawfulVisit(start: map<string, Raw>, minimum: nat, v: Visit) {
    |v.ids| >= minimum && NoDup(v.ids) &&
    forall id :: id in v.ids ==> id in start && Eligible(start[id]) && start[id].stream == v.stream
  }

  ghost predicate Apart(v: Visit, w: Visit) { forall id :: id in v.ids ==> id !in w.ids }

  /** Visits to disjoint groups of chunks that were eligible at the start, each within one stream. */
  ghost predicate Lawful(start: map<string, Raw>, minimum: nat, trace: seq<Visit>) {
    && (forall k :: 0 <= k < |trace| ==> LawfulVisit(start, minimum, trace[k]))
    && (forall j, k :: 0 <= j < k < |trace| ==> Apart(trace[j], trace[k]))
  }

  lemma {:induction false} UntouchedByRun(s: State, trace: seq<Visit>, id: string)
    requires id in s.chunks && forall k :: 0 <= k < |trace| ==> id !in trace[k].ids
    ensures id in Run(s, trace).chunks && Run(s, trace).chunks[id] == s.chunks[id]
    decreases |trace|
  {
    if trace != [] {
      var n := |trace| - 1;
      assert forall k :: 0 <= k < n ==> trace[..n][k] == trace[k];
      UntouchedByRun(s, trace[..n], id);
      EffectOfVisit(Run(s, trace[..n]), trace[n], id);
    }
  }

  /** A chunk is touched by one visit at most, so that visit's effect is what the whole run does to it. */
  lemma {:induction false} TouchedOnce(s: State, minimum: nat, trace: seq<Visit>, k: nat, id: string)
    requires Lawful(s.chunks, minimum, trace) && k < |trace| && id in trace[k].ids
    ensures id in s.chunks && id in Run(s, trace).chunks
    ensures Run(s, trace).chunks[id] == Effect(trace[k], id, s.chunks[id])
    decreases |trace|
  {
    var n := |trace| - 1;
    assert LawfulVisit(s.chunks, minimum, trace[k]);
    if k == n {
      forall j | 0 <= j < n ensures id !in trace[..n][j].ids { assert Apart(trace[j], trace[n]); }
      UntouchedByRun(s, trace[..n], id);
    } else {
      assert Apart(trace[k], trace[n]);
      LawfulPrefix(s.chunks, minimum, trace, n);
      TouchedOnce(s, minimum, trace[..n], k, id);
    }
    EffectOfVisit(Run(s, trace[..n]), trace[n], id);
  }

  lemma LawfulPrefix(start: map<string, Raw>, minimum: nat, trace: seq<Visit>, n: nat)
    requires Lawful(start, minimum, trace) && n <= |trace|
    ensures Lawful(start, minimum, trace[..n])
  {
    forall k | 0 <= k < n ensures LawfulVisit(start, minimum, trace[..n][k]) { assert trace[..n][k] == trace[k]; }
    forall j, k | 0 <= j < k < n ensures Apart(trace[..n][j], trace[..n][k]) { assert Apart(trace[j], trace[k]); }
  }

  ghost predicate StrandedIn(trace: seq<Visit>, id: string) {
    exists k :: 0 <= k < |trace| && id in Stranded(trace[k])
  }

  ghost predicate FinishedIn(trace: seq<Visit>, id: string) {
    exists k :: 0 <= k < |trace| && id in Consolidates(trace[k])
  }

  lemma ReachedAreVisited(v: Visit)
    ensures forall id :: id in Stranded(v) || id in Consolidates(v) ==> id in v.ids
  {
  }

  /**
   * However a run ends, a chunk is left in progress exactly if it was before or its lease was taken
   * by a marking that failed half way, and newly consolidated exactly if some visit finished it.
   */
  lemma RunOutcome(s: State, minimum: nat, trace: seq<Visit>, id: string)
    requires Lawful(s.chunks, minimum, trace) && id in s.chunks
    ensures id in Run(s, trace).chunks
    ensures Run(s, trace).chunks[id].inProgress <==> s.chunks[id].inProgress || StrandedIn(trace, id)
    ensures Run(s, trace).chunks[id].consolidated <==> s.chunks[id].consolidated || FinishedIn(trace, id)
  {
    if k :| 0 <= k < |trace| && id in trace[k].ids {
      TouchedOnce(s, minimum, trace, k, id);
      assert LawfulVisit(s.chunks, minimum, trace[k]);
      OnlyHere(s.chunks, minimum, trace, k, id);
      ReachedAreVisited(trace[k]);
    } else {
      UntouchedByRun(s, trace, id);
      forall k | 0 <= k < |trace| ensures id !in Stranded(trace[k]) && id !in Consolidates(trace[k]) {
        ReachedAreVisited(trace[k]);
      }
    }
  }

  lemma OnlyHere(start: map<string, Raw>, minimum: nat, trace: seq<Visit>, k: nat, id: string)
    requires Lawful(start, minimum, trace) && k < |trace| && id in trace[k].ids
    ensures StrandedIn(trace, id) <==> id in Stranded(trace[k])
    ensures FinishedIn(trace, id) <==> id in Consolidates(trace[k])
  {
    forall j | 0 <= j < |trace| && j != k ensures id !in Stranded(trace[j]) && id !in Consolidates(trace[j]) {
      ReachedAreVisited(trace[j]);
      assert if j < k then Apart(trace[j], trace[k]) else Apart(trace[k], trace[j]);
    }
  }

  ghost predicate SameLeases(a: map<string, Raw>, b: map<string, Raw>) {
    forall id :: id in a ==> id in b && (a[id].inProgress <==> b[id].inProgress)
  }

  /** No lease is left behind exactly when no marking failed after its first chunk. */
  lemma NothingStrandedIff(s: State, minimum: nat, trace: seq<Visit>)
    requires Lawful(s.chunks, minimum, trace)
    ensures SameLeases(s.chunks, Run(s, trace).chunks) <==>
              forall k :: 0 <= k < |trace| ==>
                trace[k].ending.MarkFails? ==> trace[k].ending.marked == 0 || trace[k].ids == []
  {
    forall id | id in s.chunks
      ensures id in Run(s, trace).chunks
      ensures Run(s, trace).chunks[id].inProgress <==> s.chunks[id].inProgress || StrandedIn(trace, id)
    {
      RunOutcome(s, minimum, trace, id);
    }
    forall k | 0 <= k < |trace| && trace[k].ending.MarkFails? && trace[k].ending.marked > 0 && trace[k].ids != []
      ensures !SameLeases(s.chunks, Run(s, trace).chunks)
    {
      var id := trace[k].ids[0];
      assert id in Stranded(trace[k]) by { assert id == Stranded(trace[k])[0]; }
      assert StrandedIn(trace, id) && LawfulVisit(s.chunks, minimum, trace[k]);
      assert id in trace[k].ids && id in s.chunks;
    }
  }

  /** A marking that fails on its second chunk leaves the first one leased with no guard to release it. */
  lemma MarkingCanStrand(a: string, b: string)
    requires a != b
    ensures var raw := Raw("s", true, false, false, false);
            var s := State(map[a := raw, b := raw], []);
            var trace := [Visit("s", 0, [a, b], MarkFails(1))];
            Lawful(s.chunks, 2, trace) && !SameLeases(s.chunks, Run(s, trace).chunks)
  {
    var raw := Raw("s", true, false, false, false);
    var s := State(map[a := raw, b := raw], []);
    var trace := [Visit("s", 0, [a, b], MarkFails(1))];
    assert Lawful(s.chunks, 2, trace);
    NothingStrandedIff(s, 2, trace);
    assert trace[0].ending.MarkFails? && trace[0].ids != [];
  }

  // -------------------------------------------------------------------- between passes: recovery

  /** Start-up recovery takes the lease off every live chunk it gets to. */
  function Recovered(chunks: map<string, Raw>, reached: seq<string>): map<string, Raw> {
    map id | id in chunks :: if id in reached && !chunks[id].deleted then Changed(chunks[id], Releasing) else chunks[id]
  }

  predicate IsOrphan(c: Raw) { c.inProgress && !c.deleted }

  function Orphans(chunks: map<string, Raw>, keys: seq<string>): set<string> {
    set id | id in keys && id in chunks && IsOrphan(chunks[id])
  }

  /** Counted are the live chunks among the keys that carry a lease. */
  lemma OrphansAre(chunks: map<string, Raw>, keys: seq<string>, id: string)
    ensures id in Orphans(chunks, keys) <==> id in keys && id in chunks && chunks[id].inProgress && chunks[id].deleted == false
  {
  }

  /** What happens to a store over time: passes, start-up recoveries (whole or cut short), soft deletes. */
  datatype Event = Pass(trace: seq<Visit>) | Recover(reached: seq<string>) | SoftDelete(id: string)

  function AfterEvent(s: State, e: Event): State {
    match e
    case Pass(trace) => Run(s, trace)
    case Recover(reached) => s.(chunks := Recovered(s.chunks, reached))
    case SoftDelete(id) => if id in s.chunks then s.(chunks := s.chunks[id := s.chunks[id].(deleted := true)]) else s
  }

  ghost predicate EventOk(s: State, minimum: nat, e: Event) {
    e.Pass? ==> Lawful(s.chunks, minimum, e.trace)
  }

  ghost predicate EventsOk(s: State, minimum: nat, events: seq<Event>)
    decreases |events|
  {
    events == [] || (EventOk(s, minimum, events[0]) && EventsOk(AfterEvent(s, events[0]), minimum, events[1..]))
  }

  predicate Leased(s: State, id: string) { id in s.chunks && s.chunks[id].inProgress }

  /** The chunk is leased now and after every one of the events. */
  ghost predicate LeasedThroughout(s: State, events: seq<Event>, id: string)
    decreases |events|
  {
    Leased(s, id) && (events != [] ==> LeasedThroughout(AfterEvent(s, events[0]), events[1..], id))
  }

  /** Some recovery gets to the chunk while it is live. */
  ghost predicate RecoveredLive(events: seq<Event>, id: string) {
    exists k :: 0 <= k < |events| && events[k].Recover? && id in events[k].reached && SoftDelete(id) !in events[..k]
  }

  lemma EventOnLeased(s: State, minimum: nat, e: Event, id: string)
    requires Leased(s, id) && EventOk(s, minimum, e)
    ensures id in AfterEvent(s, e).chunks
    ensures AfterEvent(s, e).chunks[id].deleted == (s.chunks[id].deleted || e == SoftDelete(id))
    ensures AfterEvent(s, e).chunks[id].inProgress <==> !(e.Recover? && id in e.reached && !s.chunks[id].deleted)
  {
    if e.Pass? {
      forall k | 0 <= k < |e.trace| ensures id !in e.trace[k].ids { assert LawfulVisit(s.chunks, minimum, e.trace[k]); }
      UntouchedByRun(s, e.trace, id);
    }
  }

  lemma RecoveredLiveStep(events: seq<Event>, id: string)
    requires events != []
    ensures RecoveredLive(events, id) <==>
              (events[0].Recover? && id in events[0].reached) || (events[0] != SoftDelete(id) && RecoveredLive(events[1..], id))
  {
    var rest := events[1..];
    if events[0].Recover? && id in events[0].reached { assert events[..0] == []; }
    if k :| 0 <= k < |rest| && rest[k].Recover? && id in rest[k].reached && SoftDelete(id) !in rest[..k] {
      assert events[k + 1] == rest[k] && events[..k + 1] == [events[0]] + rest[..k];
    }
    if k :| 0 < k < |events| && events[k].Recover? && id in events[k].reached && SoftDelete(id) !in events[..k] {
      assert rest[k - 1] == events[k] && events[..k] == [events[0]] + rest[..k - 1];
      assert events[0] in events[..k];
    }
  }

  /**
   * A lease left on a live chunk stays, through any number of passes, exactly until a start-up recovery
   * gets to the chunk while it is still live; a soft-deleted chunk keeps it.
   */
  lemma {:induction false} StrandedUntilRecovery(s: State, minimum: nat, events: seq<Event>, id: string)
    requires EventsOk(s, minimum, events) && id in s.chunks && s.chunks[id].inProgress
    ensures LeasedThroughout(s, events, id) <==> s.chunks[id].deleted || !RecoveredLive(events, id)
    decreases |events|
  {
    if events != [] {
      var s1, rest := AfterEvent(s, events[0]), events[1..];
      EventOnLeased(s, minimum, events[0], id);
      RecoveredLiveStep(events, id);
      if Leased(s1, id) { StrandedUntilRecovery(s1, minimum, rest, id); }
    }
  }

  /** A whole recovery leaves no live chunk leased and every live chunk that is ready and not consolidated eligible again. */
  lemma RecoveryFreesTheLive(s: State, keys: seq<string>, id: string)
    requires id in s.chunks && id in keys && !s.chunks[id].deleted
    ensures var s' := AfterEvent(s, Recover(keys));
            && !Leased(s', id) && s'.chunks[id].consolidated == s.chunks[id].consolidated
            && (Eligible(s'.chunks[id]) <==> s.chunks[id].ready && !s.chunks[id].consolidated)
  {
  }

  ghost predicate SummaryLaw(start: map<string, Raw>, minimum: nat, d: Summary) {
    |d.sources| >= minimum && NoDup(d.sources) &&
    forall id :: id in d.sources ==> id in start && Eligible(start[id]) && start[id].stream == d.stream
  }

  /** Summaries are only added, each from enough eligible chunks of its own stream. */
  lemma {:induction false} SummariesStayInStream(s: State, minimum: nat, trace: seq<Visit>)
    requires Lawful(s.chunks, minimum, trace)
    ensures s.summaries <= Run(s, trace).summaries
    ensures forall j :: |s.summaries| <= j < |Run(s, trace).summaries| ==>
                          SummaryLaw(s.chunks, minimum, Run(s, trace).summaries[j])
    decreases |trace|
  {
    if trace != [] {
      var n := |trace| - 1;
      LawfulPrefix(s.chunks, minimum, trace, n);
      SummariesStayInStream(s, minimum, trace[..n]);
      assert LawfulVisit(s.chunks, minimum, trace[n]);
    }
  }

  ghost predicate HasSummary(before: State, after: State, id: string)
    requires id in before.chunks
  {
    exists j :: |before.summaries| <= j < |after.summaries| &&
                after.summaries[j].stream == before.chunks[id].stream && id in after.summaries[j].sources
  }

  lemma {:induction false} VisitLeavesSummary(s: State, minimum: nat, trace: seq<Visit>, k: nat)
    requires Lawful(s.chunks, minimum, trace) && k < |trace| && StoresSummary(trace[k].ending)
    ensures exists j :: |s.summaries| <= j < |Run(s, trace).summaries| &&
                        Run(s, trace).summaries[j] == Summary(trace[k].stream, trace[k].ids)
    decreases |trace|
  {
    var n := |trace| - 1;
    LawfulPrefix(s.chunks, minimum, trace, n);
    SummariesStayInStream(s, minimum, trace[..n]);
    if k == n {
      var before := Run(s, trace[..n]).summaries;
      assert Run(s, trace).summaries[|before|] == Summary(trace[k].stream, trace[k].ids);
    } else {
      VisitLeavesSummary(s, minimum, trace[..n], k);
      var j :| |s.summaries| <= j < |Run(s, trace[..n]).summaries| &&
               Run(s, trace[..n]).summaries[j] == Summary(trace[k].stream, trace[k].ids);
      assert Run(s, trace).summaries[j] == Run(s, trace[..n]).summaries[j];
    }
  }

  /** A chunk is newly consolidated only when a summary of its own stream that lists it was stored. */
  lemma ConsolidatedHasSummary(s: State, minimum: nat, trace: seq<Visit>, id: string)
    requires Lawful(s.chunks, minimum, trace) && id in s.chunks && !s.chunks[id].consolidated
    ensures id in Run(s, trace).chunks
    ensures Run(s, trace).chunks[id].consolidated ==> HasSummary(s, Run(s, trace), id)
  {
    RunOutcome(s, minimum, trace, id);
    if FinishedIn(trace, id) {
      var k :| 0 <= k < |trace| && id in Consolidates(trace[k]);
      ReachedAreVisited(trace[k]);
      assert LawfulVisit(s.chunks, minimum, trace[k]);
      VisitLeavesSummary(s, minimum, trace, k);
    }
  }

  // --------------------------------------------------------------------------------- the program

  class ChunkStore {
    var chunks: map<string, Raw>
    var summaries: seq<Summary>

    constructor (chunks: map<string, Raw>, summaries: seq<Summary>)
      ensures this.chunks == chunks && this.summaries == summaries
    {
      this.chunks, this.summaries := chunks, summaries;
    }

    ghost function Snapshot(): State
      reads this
    {
      State(chunks, summaries)
    }

    /** Chunks are rewritten one by one, missing ones skipped, until a write fails. */
    method Mark(ids: seq<string>, change: Change, fault: Option<nat>) returns (ok: bool)
      modifies this`chunks
      ensures chunks == Marked(old(chunks), Reached(ids, fault), change)
      ensures ok == fault.None?
    {
      assert ids[..0] == [] && chunks == Marked(chunks, [], change);
      for i := 0 to |ids|
        invariant chunks == Marked(old(chunks), ids[..i], change)
        invariant fault.None? || fault.value >= i
      {
        if fault == Some(i) { return false; }
        var id := ids[i];
        MarkedOneMore(old(chunks), ids, i, change);
        if id in chunks {
          chunks := chunks[id := Changed(chunks[id], change)];
        }
      }
      assert ids[..|ids|] == ids;
      return fault.None?;
    }

    /** A summary can reach the store and its write still fail, at the text index. */
    method Persist(summary: Summary, persisted: Persisted) returns (ok: bool)
      modifies this`summaries
      ensures summaries == old(summaries) + if persisted.NotStored? then [] else [summary]
      ensures ok == persisted.Stored?
    {
      if persisted.NotStored? { return false; }
      summaries := summaries + [summary];
      return persisted.Stored?;
    }

    /** Chunks are visited in key order; `fails` says which cannot be rewritten, and the first of them stops the recovery. */
    method RecoverOrphaned(keys: seq<string>, fails: string -> bool) returns (recovered: Option<nat>, ghost reached: seq<string>)
      modifies this`chunks
      ensures reached <= keys && chunks == Recovered(old(chunks), reached)
      ensures recovered.Some? ==> reached == keys && recovered.value == |Orphans(old(chunks), keys)|
      ensures recovered.None? ==>
                |reached| < |keys| && fails(keys[|reached|]) && Leased(old(Snapshot()), keys[|reached|]) &&
                !old(chunks)[keys[|reached|]].deleted
    {
      var count := 0;
      assert keys[..0] == [] && chunks == Recovered(chunks, []) && Orphans(chunks, []) == {};
      for i := 0 to |keys|
        invariant chunks == Recovered(old(chunks), keys[..i])
        invariant count == |Orphans(old(chunks), keys[..i])|
      {
        var id := keys[i];
        RecoverOne(old(chunks), keys, i);
        OrphansOneMore(old(chunks), keys, i);
        if id in chunks && !chunks[id].deleted && chunks[id].inProgress {
          if fails(id) { return None, keys[..i]; }
          chunks := chunks[id := Changed(chunks[id], Releasing)];
          count := count + 1;
        }
      }
      assert keys[..|keys|] == keys;
      return Some(count), keys;
    }
  }

  lemma RecoverOne(chunks: map<string, Raw>, keys: seq<string>, i: nat)
    requires i < |keys|
    ensures var before, after, id := Recovered(chunks, keys[..i]), Recovered(chunks, keys[..i + 1]), keys[i];
            && before.Keys == chunks.Keys
            && (id in chunks ==> before[id].deleted == chunks[id].deleted)
            && (id in before && before[id].inProgress ==> chunks[id].inProgress)
            && after == if id in before && !before[id].deleted && before[id].inProgress
                        then before[id := Changed(before[id], Releasing)] else before
  {
    assert keys[..i + 1] == keys[..i] + [keys[i]];
  }

  lemma OrphansOneMore(chunks: map<string, Raw>, keys: seq<string>, i: nat)
    requires i < |keys|
    ensures var before, id := Recovered(chunks, keys[..i]), keys[i];
            |Orphans(chunks, keys[..i + 1])| ==
            |Orphans(chunks, keys[..i])| + if id in before && IsOrphan(before[id]) then 1 else 0
  {
    var before, id := Recovered(chunks, keys[..i]), keys[i];
    var orphans := Orphans(chunks, keys[..i]);
    assert keys[..i + 1] == keys[..i] + [id];
    if id in before && IsOrphan(before[id]) {
      assert id !in keys[..i];
      assert Orphans(chunks, keys[..i + 1]) == orphans + {id} && id !in orphans;
    } else {
      assert id in chunks && IsOrphan(chunks[id]) ==> id in keys[..i];
      assert Orphans(chunks, keys[..i + 1]) == orphans;
    }
  }

  /** Releases a sub-group's lease when it goes out of scope, unless disarmed. */
  class InProgressGuard {
    const store: ChunkStore
    const ids: seq<string>
    var armed: bool

    constructor (store: ChunkStore, ids: seq<string>)
      ensures this.store == store && this.ids == ids && armed
    {
      this.store, this.ids, armed := store, ids, true;
    }

    method Disarm()
      modifies this
      ensures !armed
    {
      armed := false;
    }

    method Drop()
      modifies store
      ensures store.chunks == if armed then Marked(old(store.chunks), ids, Releasing) else old(store.chunks)
      ensures store.summaries == old(store.summaries)
    {
      if armed {
        var _ := store.Mark(ids, Releasing, None);
      }
    }
  }

  function FlowAfter(ending: Ending): Flow {
    match ending
    case OverBudget => StopStream
    case DroppedAwaiting => StopRun
    case DroppedPersisting(_) => StopRun
    case _ => Next
  }

  /** A spent budget, and a cancellation while waiting or storing, end more than their own sub-group. */
  predicate Stops(ending: Ending) {
    ending.OverBudget? || Dropped(ending)
  }

  predicate Dropped(ending: Ending) {
    ending.DroppedAwaiting? || ending.DroppedPersisting?
  }

  lemma FlowMeans(ending: Ending)
    ensures FlowAfter(ending) == Next <==> !Stops(ending)
    ensures FlowAfter(ending) == StopRun <==> Dropped(ending)
  {
  }

  /** Every path out of a leased sub-group goes through the guard. */
  method ProcessSubGroup(store: ChunkStore, v: Visit) returns (flow: Flow)
    modifies store
    ensures store.Snapshot() == AfterVisit(old(store.Snapshot()), v) && flow == FlowAfter(v.ending)
  {
    var leased := store.Mark(v.ids, Leasing, if v.ending.MarkFails? then Some(v.ending.marked) else None);
    if !leased { return Next; }
    var guard := new InProgressGuard(store, v.ids);
    flow := Next;
    match v.ending {
      case OverBudget => flow := StopStream;
      case DroppedAwaiting => flow := StopRun;
      case LlmError =>
      case Rejected =>
      case PersistFails(stored) =>
        var _ := store.Persist(Summary(v.stream, v.ids), if stored then StoredNotIndexed else NotStored);
      case DroppedPersisting(stored) =>
        var _ := store.Persist(Summary(v.stream, v.ids), if stored then StoredNotIndexed else NotStored);
        flow := StopRun;
      case ConsolidateFails(done) =>
        var _ := store.Persist(Summary(v.stream, v.ids), Stored);
        var _ := store.Mark(v.ids, Finishing, Some(done));
      case Finished =>
        var _ := store.Persist(Summary(v.stream, v.ids), Stored);
        var ok := store.Mark(v.ids, Finishing, None);
        if ok { guard.Disarm(); }
    }
    NothingMarked(old(store.chunks), v.ids);
    guard.Drop();
  }

  lemma NothingMarked(chunks: map<string, Raw>, ids: seq<string>)
    ensures Marked(Marked(chunks, ids, Leasing), [], Finishing) == Marked(chunks, ids, Leasing)
  {
  }

  // ---------------------------------------------------------------------- which groups are visited

  predicate Big(groups: seq<seq<string>>, minimum: nat, slot: nat) {
    slot < |groups| && |groups[slot]| >= minimum
  }

  type Fate = (string, nat) -> Ending

  type Cancelled = (string, nat) -> bool

  /** The visits of one stream from a place on, and how the stream ends. */
  function StreamVisits(stream: string, groups: seq<seq<string>>, minimum: nat, fate: Fate, cancelled: Cancelled, slot: nat)
    : (seq<Visit>, Flow)
    requires slot <= |groups|
    decreases |groups| - slot
  {
    if slot == |groups| then ([], Next)
    else if |groups[slot]| < minimum then StreamVisits(stream, groups, minimum, fate, cancelled, slot + 1)
    else if cancelled(stream, slot) then ([], StopStream)
    else
      var v := Visit(stream, slot, groups[slot], fate(stream, slot));
      if FlowAfter(v.ending) != Next then ([v], FlowAfter(v.ending))
      else
        var rest := StreamVisits(stream, groups, minimum, fate, cancelled, slot + 1);
        ([v] + rest.0, rest.1)
  }

  /** A group is come to when no big enough group before it was cancelled or ended the stream. */
  ghost predicate ComesTo(stream: string, groups: seq<seq<string>>, minimum: nat, fate: Fate, cancelled: Cancelled,
                          from: nat, slot: nat) {
    forall j {:trigger Big(groups, minimum, j)} ::
      from <= j < slot && Big(groups, minimum, j) ==> !cancelled(stream, j) && !Stops(fate(stream, j))
  }

  ghost predicate VisitsSlot(visits: seq<Visit>, slot: nat) {
    exists k :: 0 <= k < |visits| && visits[k].slot == slot
  }

  /** Visits are of groups of at least the minimum size, in order, each with the ending that awaits it. */
  lemma {:induction false} VisitsAreGroups(stream: string, groups: seq<seq<string>>, minimum: nat, fate: Fate, cancelled: Cancelled,
                                           from: nat)
    requires from <= |groups|
    ensures var visits := StreamVisits(stream, groups, minimum, fate, cancelled, from).0;
            InGroups(visits, stream, groups, minimum, from, |groups|) &&
            forall k :: 0 <= k < |visits| ==> visits[k].ending == fate(stream, visits[k].slot)
    decreases |groups| - from
  {
    if from < |groups| { VisitsAreGroups(stream, groups, minimum, fate, cancelled, from + 1); }
  }

  /** Exactly the big enough groups are visited, up to the first cancellation or the first ending that stops the stream. */
  lemma {:induction false} VisitedIff(stream: string, groups: seq<seq<string>>, minimum: nat, fate: Fate, cancelled: Cancelled,
                                      from: nat, slot: nat)
    requires from <= |groups|
    ensures VisitsSlot(StreamVisits(stream, groups, minimum, fate, cancelled, from).0, slot) <==>
              from <= slot && Big(groups, minimum, slot) && !cancelled(stream, slot)
              && ComesTo(stream, groups, minimum, fate, cancelled, from, slot)
    decreases |groups| - from
  {
    if from < |groups| {
      VisitedIff(stream, groups, minimum, fate, cancelled, from + 1, slot);
      var rest := StreamVisits(stream, groups, minimum, fate, cancelled, from + 1).0;
      if Big(groups, minimum, from) && !cancelled(stream, from) {
        var v := Visit(stream, from, groups[from], fate(stream, from));
        FlowMeans(fate(stream, from));
        if FlowAfter(fate(stream, from)) == Next {
          VisitsOneMore(v, rest, slot);
          assert ComesTo(stream, groups, minimum, fate, cancelled, from, slot) <==>
                 slot <= from || ComesTo(stream, groups, minimum, fate, cancelled, from + 1, slot);
        } else {
          assert [v][0].slot == from;
        }
      }
    }
  }

  lemma VisitsOneMore(v: Visit, rest: seq<Visit>, slot: nat)
    ensures VisitsSlot([v] + rest, slot) <==> v.slot == slot || VisitsSlot(rest, slot)
  {
    if v.slot == slot { assert ([v] + rest)[0].slot == slot; }
    if k :| 0 <= k < |rest| && rest[k].slot == slot { assert ([v] + rest)[k + 1].slot == slot; }
  }

  type GroupsOf = string -> seq<seq<string>>

  /** The visits of a pass over streams in some order. */
  function PassVisits(order: seq<string>, groupsOf: GroupsOf, minimum: nat, fate: Fate, cancelled: Cancelled,
                      cancelledBefore: string -> bool): seq<Visit>
    decreases |order|
  {
    if order == [] || cancelledBefore(order[0]) then []
    else
      var here := StreamVisits(order[0], groupsOf(order[0]), minimum, fate, cancelled, 0);
      here.0 + if here.1 == StopRun then []
               else PassVisits(order[1..], groupsOf, minimum, fate, cancelled, cancelledBefore)
  }

  /** The stream's first group of at least the minimum size is there and not cancelled. */
  ghost predicate HasWork(stream: string, groups: seq<seq<string>>, minimum: nat, cancelled: Cancelled) {
    exists slot :: FirstBig(groups, minimum, slot) && !cancelled(stream, slot)
  }

  predicate FirstBig(groups: seq<seq<string>>, minimum: nat, slot: nat) {
    Big(groups, minimum, slot) && forall j :: 0 <= j < slot ==> !Big(groups, minimum, j)
  }

  lemma {:induction false} IdleIff(stream: string, groups: seq<seq<string>>, minimum: nat, fate: Fate, cancelled: Cancelled, from: nat)
    requires from <= |groups| && forall j :: 0 <= j < from ==> !Big(groups, minimum, j)
    ensures var here := StreamVisits(stream, groups, minimum, fate, cancelled, from);
            (here.0 == [] <==> !HasWork(stream, groups, minimum, cancelled)) && (here.0 == [] ==> here.1 != StopRun)
    decreases |groups| - from
  {
    if from < |groups| {
      if Big(groups, minimum, from) {
        assert FirstBig(groups, minimum, from);
        assert forall slot :: FirstBig(groups, minimum, slot) ==> slot == from;
      } else {
        IdleIff(stream, groups, minimum, fate, cancelled, from + 1);
      }
    }
  }

  /** The pass gets as far as a stream when it was not cancelled before that stream or any earlier one. */
  ghost predicate NotCancelledUpTo(order: seq<string>, cancelledBefore: string -> bool, j: nat)
    requires j < |order|
  {
    forall k :: 0 <= k <= j ==> !cancelledBefore(order[k])
  }

  lemma {:induction false} NothingToDoIff(order: seq<string>, groupsOf: GroupsOf, minimum: nat, fate: Fate, cancelled: Cancelled,
                                          cancelledBefore: string -> bool)
    ensures PassVisits(order, groupsOf, minimum, fate, cancelled, cancelledBefore) == [] <==>
            forall j {:trigger order[j]} :: 0 <= j < |order| && NotCancelledUpTo(order, cancelledBefore, j) ==>
              !HasWork(order[j], groupsOf(order[j]), minimum, cancelled)
    decreases |order|
  {
    if order != [] && !cancelledBefore(order[0]) {
      var rest := order[1..];
      IdleIff(order[0], groupsOf(order[0]), minimum, fate, cancelled, 0);
      NothingToDoIff(rest, groupsOf, minimum, fate, cancelled, cancelledBefore);
      assert NotCancelledUpTo(order, cancelledBefore, 0);
      forall j | 0 <= j < |rest|
        ensures rest[j] == order[j + 1]
        ensures NotCancelledUpTo(order, cancelledBefore, j + 1) <==> NotCancelledUpTo(rest, cancelledBefore, j)
      {
        UpToFrom(order, cancelledBefore, 1, j);
      }
      if PassVisits(rest, groupsOf, minimum, fate, cancelled, cancelledBefore) != [] {
        var j :| 0 <= j < |rest| && NotCancelledUpTo(rest, cancelledBefore, j) &&
                 HasWork(rest[j], groupsOf(rest[j]), minimum, cancelled);
        assert order[j + 1] == rest[j];
      }
    }
  }

  lemma UpToFrom(order: seq<string>, cancelledBefore: string -> bool, from: nat, j: nat)
    requires from <= |order| && j < |order| - from && forall k :: 0 <= k < from ==> !cancelledBefore(order[k])
    ensures NotCancelledUpTo(order, cancelledBefore, from + j) <==> NotCancelledUpTo(order[from..], cancelledBefore, j)
  {
    assert forall k :: 0 <= k < |order[from..]| ==> order[from..][k] == order[from + k];
    if NotCancelledUpTo(order[from..], cancelledBefore, j) {
      forall k | 0 <= k <= from + j ensures !cancelledBefore(order[k]) {
        if k >= from { assert !cancelledBefore(order[from..][k - from]); }
      }
    }
  }

  /** No earlier stream ended the pass, and it was not cancelled before any stream up to this one. */
  ghost predicate PassComesTo(order: seq<string>, groupsOf: GroupsOf, minimum: nat, fate: Fate, cancelled: Cancelled,
                              cancelledBefore: string -> bool, i: nat)
    requires i <= |order|
  {
    forall k {:trigger order[k]} :: 0 <= k < i ==>
      !cancelledBefore(order[k]) && StreamVisits(order[k], groupsOf(order[k]), minimum, fate, cancelled, 0).1 != StopRun
  }

  lemma {:induction false} PassSplits(order: seq<string>, groupsOf: GroupsOf, minimum: nat, fate: Fate, cancelled: Cancelled,
                                      cancelledBefore: string -> bool, i: nat)
    requires i <= |order| && PassComesTo(order, groupsOf, minimum, fate, cancelled, cancelledBefore, i)
    ensures PassVisits(order, groupsOf, minimum, fate, cancelled, cancelledBefore) ==
            PassVisits(order[..i], groupsOf, minimum, fate, cancelled, cancelledBefore) +
            PassVisits(order[i..], groupsOf, minimum, fate, cancelled, cancelledBefore)
    decreases i
  {
    if i == 0 {
      assert order[0..] == order && order[..0] == [];
    } else {
      var rest := order[1..];
      forall k | 0 <= k < i - 1 ensures rest[k] == order[k + 1] {}
      PassSplits(rest, groupsOf, minimum, fate, cancelled, cancelledBefore, i - 1);
      assert order[..i][0] == order[0] && order[..i][1..] == rest[..i - 1] && rest[i - 1..] == order[i..];
      var here := StreamVisits(order[0], groupsOf(order[0]), minimum, fate, cancelled, 0).0;
      SplitOneMore(here, PassVisits(rest[..i - 1], groupsOf, minimum, fate, cancelled, cancelledBefore),
                   PassVisits(order[i..], groupsOf, minimum, fate, cancelled, cancelledBefore));
    }
  }

  lemma SplitOneMore(here: seq<Visit>, before: seq<Visit>, after: seq<Visit>)
    ensures here + (before + after) == (here + before) + after
  {
  }

  /**
   * A spent budget ends only the stream it is met in: nothing is visited after that stream exactly when no
   * later stream the pass still comes to has an uncancelled first group of at least the minimum size.
   */
  lemma BudgetStopsThePassIff(order: seq<string>, groupsOf: GroupsOf, minimum: nat, fate: Fate, cancelled: Cancelled,
                              cancelledBefore: string -> bool, i: nat)
    requires i < |order| && PassComesTo(order, groupsOf, minimum, fate, cancelled, cancelledBefore, i) && !cancelledBefore(order[i])
    requires var here := StreamVisits(order[i], groupsOf(order[i]), minimum, fate, cancelled, 0).0;
             here != [] && here[|here| - 1].ending == OverBudget
    ensures PassVisits(order, groupsOf, minimum, fate, cancelled, cancelledBefore) ==
            PassVisits(order[..i + 1], groupsOf, minimum, fate, cancelled, cancelledBefore) <==>
            forall j {:trigger order[j]} :: i < j < |order| && NotCancelledUpTo(order, cancelledBefore, j) ==>
              !HasWork(order[j], groupsOf(order[j]), minimum, cancelled)
  {
    var rest := order[i + 1..];
    LastEndingDecides(order[i], groupsOf(order[i]), minimum, fate, cancelled, 0);
    PassSplits(order, groupsOf, minimum, fate, cancelled, cancelledBefore, i + 1);
    var first := PassVisits(order[..i + 1], groupsOf, minimum, fate, cancelled, cancelledBefore);
    var later := PassVisits(rest, groupsOf, minimum, fate, cancelled, cancelledBefore);
    assert first + later == first <==> later == [] by { assert |first + later| == |first| + |later|; }
    NothingToDoIff(rest, groupsOf, minimum, fate, cancelled, cancelledBefore);
    forall j | i < j < |order|
      ensures rest[j - i - 1] == order[j]
      ensures NotCancelledUpTo(order, cancelledBefore, j) <==> NotCancelledUpTo(rest, cancelledBefore, j - i - 1)
    {
      UpToFrom(order, cancelledBefore, i + 1, j - i - 1);
    }
    forall j | 0 <= j < |rest| ensures rest[j] == order[i + 1 + j] {}
  }

  /** Only a cancellation while waiting or storing ends the pass; a spent budget ends its stream. */
  lemma {:induction false} LastEndingDecides(stream: string, groups: seq<seq<string>>, minimum: nat, fate: Fate, cancelled: Cancelled,
                                             from: nat)
    requires from <= |groups|
    ensures var here := StreamVisits(stream, groups, minimum, fate, cancelled, from);
            && (here.1 == StopRun <==> here.0 != [] && Dropped(here.0[|here.0| - 1].ending))
            && (here.0 != [] && here.0[|here.0| - 1].ending == OverBudget ==> here.1 == StopStream)
    decreases |groups| - from
  {
    if from < |groups| {
      LastEndingDecides(stream, groups, minimum, fate, cancelled, from + 1);
      FlowMeans(fate(stream, from));
      if Big(groups, minimum, from) && !cancelled(stream, from) && FlowAfter(fate(stream, from)) == Next {
        var rest := StreamVisits(stream, groups, minimum, fate, cancelled, from + 1).0;
        var v := Visit(stream, from, groups[from], fate(stream, from));
        assert ([v] + rest)[|rest|] == if rest == [] then v else rest[|rest| - 1];
      }
    }
  }

  /** One more stream come to adds its own visits. */
  lemma PassUpTo(order: seq<string>, groupsOf: GroupsOf, minimum: nat, fate: Fate, cancelled: Cancelled,
                 cancelledBefore: string -> bool, i: nat)
    requires i < |order| && PassComesTo(order, groupsOf, minimum, fate, cancelled, cancelledBefore, i) && !cancelledBefore(order[i])
    ensures PassVisits(order[..i + 1], groupsOf, minimum, fate, cancelled, cancelledBefore) ==
            PassVisits(order[..i], groupsOf, minimum, fate, cancelled, cancelledBefore) +
            StreamVisits(order[i], groupsOf(order[i]), minimum, fate, cancelled, 0).0
  {
    var upTo := order[..i + 1];
    forall k | 0 <= k < i ensures upTo[k] == order[k] {}
    PassSplits(upTo, groupsOf, minimum, fate, cancelled, cancelledBefore, i);
    assert upTo[..i] == order[..i] && upTo[i..] == [order[i]];
    PassStep([order[i]], 0, groupsOf, minimum, fate, cancelled, cancelledBefore, [],
             PassVisits([order[i]], groupsOf, minimum, fate, cancelled, cancelledBefore));
    assert [order[i]][1..] == [] && [order[i]][0..] == [order[i]];
    var here := StreamVisits(order[i], groupsOf(order[i]), minimum, fate, cancelled, 0).0;
    assert [] + here == here && here + [] == here;
  }

  /** A pass stops for good at the first stream whose last visit was dropped, and goes on after any other. */
  lemma DroppedEndsThePass(order: seq<string>, groupsOf: GroupsOf, minimum: nat, fate: Fate, cancelled: Cancelled,
                           cancelledBefore: string -> bool, i: nat)
    requires i < |order| && PassComesTo(order, groupsOf, minimum, fate, cancelled, cancelledBefore, i) && !cancelledBefore(order[i])
    ensures var here := StreamVisits(order[i], groupsOf(order[i]), minimum, fate, cancelled, 0).0;
            PassVisits(order, groupsOf, minimum, fate, cancelled, cancelledBefore) ==
            PassVisits(order[..i + 1], groupsOf, minimum, fate, cancelled, cancelledBefore) +
              if here != [] && Dropped(here[|here| - 1].ending) then []
              else PassVisits(order[i + 1..], groupsOf, minimum, fate, cancelled, cancelledBefore)
  {
    LastEndingDecides(order[i], groupsOf(order[i]), minimum, fate, cancelled, 0);
    PassSplits(order, groupsOf, minimum, fate, cancelled, cancelledBefore, i);
    PassUpTo(order, groupsOf, minimum, fate, cancelled, cancelledBefore, i);
    var before := PassVisits(order[..i], groupsOf, minimum, fate, cancelled, cancelledBefore);
    var upTo := PassVisits(order[..i + 1], groupsOf, minimum, fate, cancelled, cancelledBefore);
    PassStep(order, i, groupsOf, minimum, fate, cancelled, cancelledBefore, before,
             PassVisits(order, groupsOf, minimum, fate, cancelled, cancelledBefore));
    assert upTo + [] == upTo;
  }

  /** The visits of one stream, at increasing places among its groups. */
  ghost predicate InGroups(visits: seq<Visit>, stream: string, groups: seq<seq<string>>, minimum: nat, from: nat, upto: nat)
    requires upto <= |groups|
  {
    && (forall k :: 0 <= k < |visits| ==>
          && visits[k].stream == stream && from <= visits[k].slot < upto
          && visits[k].ids == groups[visits[k].slot] && |visits[k].ids| >= minimum)
    && (forall j, k :: 0 <= j < k < |visits| ==> visits[j].slot < visits[k].slot)
  }

  lemma RunSnoc(s: State, trace: seq<Visit>, v: Visit)
    ensures Run(s, trace + [v]) == AfterVisit(Run(s, trace), v)
  {
    assert (trace + [v])[..|trace|] == trace;
  }

  lemma {:induction false} RunConcat(s: State, a: seq<Visit>, b: seq<Visit>)
    ensures Run(s, a + b) == Run(Run(s, a), b)
    decreases |b|
  {
    if b == [] {
      assert a + b == a;
    } else {
      var n := |b| - 1;
      assert a + b == (a + b[..n]) + [b[n]] && b == b[..n] + [b[n]];
      RunSnoc(s, a + b[..n], b[n]);
      RunSnoc(Run(s, a), b[..n], b[n]);
      RunConcat(s, a, b[..n]);
    }
  }

  /** What the loop over a stream's groups has done so far, together with what `StreamVisits` says is left. */
  ghost predicate Onward(visits: seq<Visit>, rest: (seq<Visit>, Flow), all: (seq<Visit>, Flow)) {
    visits + rest.0 == all.0 && rest.1 == all.1
  }

  lemma OnwardStep(visits: seq<Visit>, stream: string, groups: seq<seq<string>>, minimum: nat, fate: Fate, cancelled: Cancelled,
                   slot: nat, all: (seq<Visit>, Flow))
    requires slot < |groups| && |groups[slot]| >= minimum && !cancelled(stream, slot)
    requires Onward(visits, StreamVisits(stream, groups, minimum, fate, cancelled, slot), all)
    ensures var v := Visit(stream, slot, groups[slot], fate(stream, slot));
            if FlowAfter(v.ending) != Next then all == (visits + [v], FlowAfter(v.ending))
            else Onward(visits + [v], StreamVisits(stream, groups, minimum, fate, cancelled, slot + 1), all)
  {
    var v := Visit(stream, slot, groups[slot], fate(stream, slot));
    var rest := StreamVisits(stream, groups, minimum, fate, cancelled, slot + 1);
    assert visits + ([v] + rest.0) == (visits + [v]) + rest.0;
  }

  lemma OnwardStart(all: (seq<Visit>, Flow))
    ensures Onward([], all, all)
  {
  }

  lemma OnwardEnd(visits: seq<Visit>, flow: Flow, all: (seq<Visit>, Flow))
    requires Onward(visits, ([], flow), all)
    ensures (visits, flow) == all
  {
    assert visits + [] == visits;
  }

  method ProcessStream(store: ChunkStore, stream: string, groups: seq<seq<string>>, minimum: nat, fate: Fate, cancelled: Cancelled)
    returns (flow: Flow, ghost visits: seq<Visit>)
    modifies store
    ensures store.Snapshot() == Run(old(store.Snapshot()), visits)
    ensures (visits, flow) == StreamVisits(stream, groups, minimum, fate, cancelled, 0)
  {
    visits := [];
    ghost var all := StreamVisits(stream, groups, minimum, fate, cancelled, 0);
    OnwardStart(all);
    for slot := 0 to |groups|
      invariant store.Snapshot() == Run(old(store.Snapshot()), visits)
      invariant Onward(visits, StreamVisits(stream, groups, minimum, fate, cancelled, slot), all)
    {
      if |groups[slot]| >= minimum {
        if cancelled(stream, slot) {
          OnwardEnd(visits, StopStream, all);
          return StopStream, visits;
        }
        var v := Visit(stream, slot, groups[slot], fate(stream, slot));
        RunSnoc(old(store.Snapshot()), visits, v);
        OnwardStep(visits, stream, groups, minimum, fate, cancelled, slot, all);
        flow := ProcessSubGroup(store, v);
        visits := visits + [v];
        if flow != Next { return; }
      }
    }
    OnwardEnd(visits, Next, all);
    return Next, visits;
  }

  /** Raw chunks in key order that may be summarised, up to a limit. */
  function Candidates(chunks: map<string, Raw>, keys: seq<string>, limit: nat): seq<string> {
    if keys == [] then []
    else
      var before, id := Candidates(chunks, keys[..|keys| - 1], limit), keys[|keys| - 1];
      if |before| < limit && id in chunks && Eligible(chunks[id]) then before + [id] else before
  }

  /** Everything a chunk must be to be summarised. */
  lemma EligibleMeans(c: Raw)
    ensures Eligible(c) <==> c.ready && c == Raw(c.stream, true, false, false, false)
  {
  }

  /** Some of the keys, in their order. */
  ghost predicate InOrderOf(r: seq<string>, keys: seq<string>) {
    forall a, b, p, q :: 0 <= a < b < |r| && 0 <= p < |keys| && 0 <= q < |keys| && r[a] == keys[p] && r[b] == keys[q] ==> p < q
  }

  /** The earliest keys win: none is taken while an eligible one before it is left out. */
  ghost predicate EarliestOf(chunks: map<string, Raw>, r: seq<string>, keys: seq<string>) {
    forall p, q :: 0 <= p < q < |keys| && keys[q] in r && keys[p] in chunks && Eligible(chunks[keys[p]]) ==> keys[p] in r
  }

  lemma {:induction false} CandidatesAre(chunks: map<string, Raw>, keys: seq<string>, limit: nat)
    requires NoDup(keys)
    ensures var r := Candidates(chunks, keys, limit);
            && NoDup(r) && |r| <= limit
            && (forall id :: id in r ==> id in keys && id in chunks && Eligible(chunks[id]))
            && (|r| < limit ==> forall id :: id in keys && id in chunks && Eligible(chunks[id]) ==> id in r)
  {
    if keys != [] {
      var n := |keys| - 1;
      CandidatesAre(chunks, keys[..n], limit);
      assert keys == keys[..n] + [keys[n]] && keys[n] !in keys[..n];
    }
  }

  lemma {:induction false} CandidatesComeFirst(chunks: map<string, Raw>, keys: seq<string>, limit: nat)
    requires NoDup(keys)
    ensures InOrderOf(Candidates(chunks, keys, limit), keys) && EarliestOf(chunks, Candidates(chunks, keys, limit), keys)
  {
    if keys != [] {
      var n := |keys| - 1;
      var before := Candidates(chunks, keys[..n], limit);
      CandidatesComeFirst(chunks, keys[..n], limit);
      CandidatesAre(chunks, keys[..n], limit);
      OrderStays(before, keys);
      forall p, q | 0 <= p < q < |keys| && keys[q] in Candidates(chunks, keys, limit) && keys[p] in chunks && Eligible(chunks[keys[p]])
        ensures keys[p] in Candidates(chunks, keys, limit)
      {
        assert keys[..n][p] == keys[p] && (q < n ==> keys[..n][q] == keys[q]);
      }
    }
  }

  /** A selection from all keys but the last stays in order, also with the last one added. */
  lemma OrderStays(r: seq<string>, keys: seq<string>)
    requires keys != [] && NoDup(keys) && InOrderOf(r, keys[..|keys| - 1])
    requires forall id :: id in r ==> id in keys[..|keys| - 1]
    ensures InOrderOf(r, keys) && InOrderOf(r + [keys[|keys| - 1]], keys)
  {
    var n := |keys| - 1;
    var more := r + [keys[n]];
    forall a, b, p, q | 0 <= a < b < |more| && 0 <= p < |keys| && 0 <= q < |keys| && more[a] == keys[p] && more[b] == keys[q]
      ensures p < q
    {
      assert more[a] == r[a] && r[a] in r;
      assert p < n && keys[..n][p] == keys[p];
      if b < |r| {
        assert more[b] == r[b] && r[b] in r;
        assert q < n && keys[..n][q] == keys[q];
      }
    }
    forall a, b, p, q | 0 <= a < b < |r| && 0 <= p < |keys| && 0 <= q < |keys| && r[a] == keys[p] && r[b] == keys[q]
      ensures p < q
    {
      assert more[a] == r[a] && more[b] == r[b];
    }
  }

  method Scan(store: ChunkStore, keys: seq<string>, limit: nat) returns (r: seq<string>)
    ensures r == Candidates(store.chunks, keys, limit)
  {
    r := [];
    for i := 0 to |keys|
      invariant r == Candidates(store.chunks, keys[..i], limit)
      invariant |r| >= limit ==> r == Candidates(store.chunks, keys[..i], limit)
    {
      assert keys[..i + 1][..i] == keys[..i];
      var id := keys[i];
      if |r| < limit && id in store.chunks && Eligible(store.chunks[id]) { r := r + [id]; }
    }
    assert keys[..|keys|] == keys;
  }

  /** One stream's share of the candidates, in their order. */
  function InStream(start: map<string, Raw>, candidates: seq<string>, stream: string): seq<string> {
    if candidates == [] then []
    else
      var n := |candidates| - 1;
      InStream(start, candidates[..n], stream) +
        if candidates[n] in start && start[candidates[n]].stream == stream then [candidates[n]] else []
  }

  lemma {:induction false} InStreamAre(start: map<string, Raw>, candidates: seq<string>, stream: string)
    requires NoDup(candidates)
    ensures var r := InStream(start, candidates, stream);
            NoDup(r) && forall id :: id in r <==> id in candidates && id in start && start[id].stream == stream
  {
    if candidates != [] {
      var n := |candidates| - 1;
      InStreamAre(start, candidates[..n], stream);
      assert candidates == candidates[..n] + [candidates[n]] && candidates[n] !in candidates[..n];
    }
  }

  lemma {:induction false} InStreamKeepsOrder(start: map<string, Raw>, candidates: seq<string>, stream: string)
    requires NoDup(candidates)
    ensures InOrderOf(InStream(start, candidates, stream), candidates)
  {
    if candidates != [] {
      var n := |candidates| - 1;
      var before := InStream(start, candidates[..n], stream);
      InStreamKeepsOrder(start, candidates[..n], stream);
      InStreamAre(start, candidates[..n], stream);
      OrderStays(before, candidates);
      assert before + [] == before;
    }
  }

  method OfStream(start: map<string, Raw>, candidates: seq<string>, stream: string) returns (r: seq<string>)
    ensures r == InStream(start, candidates, stream)
  {
    r := [];
    for i := 0 to |candidates|
      invariant r == InStream(start, candidates[..i], stream)
    {
      assert candidates[..i + 1][..i] == candidates[..i];
      var id := candidates[i];
      if id in start && start[id].stream == stream { r := r + [id]; }
    }
    assert candidates[..|candidates|] == candidates;
  }

  lemma StreamIsLawful(start: map<string, Raw>, minimum: nat, stream: string, chunks: seq<string>,
                       groups: seq<seq<string>>, visits: seq<Visit>)
    requires forall id :: id in chunks ==> id in start && Eligible(start[id]) && start[id].stream == stream
    requires forall g, id :: 0 <= g < |groups| && id in groups[g] ==> id in chunks
    requires forall g :: 0 <= g < |groups| ==> NoDup(groups[g])
    requires forall g, h, id :: 0 <= g < h < |groups| && id in groups[g] ==> id !in groups[h]
    requires InGroups(visits, stream, groups, minimum, 0, |groups|)
    ensures Lawful(start, minimum, visits)
  {
  }

  ghost predicate Streams(visits: seq<Visit>, streams: seq<string>) {
    forall k :: 0 <= k < |visits| ==> visits[k].stream in streams
  }

  lemma LawfulConcat(start: map<string, Raw>, minimum: nat, a: seq<Visit>, b: seq<Visit>, stream: string, streams: seq<string>)
    requires Lawful(start, minimum, a) && Lawful(start, minimum, b)
    requires Streams(a, [stream]) && Streams(b, streams) && stream !in streams
    ensures Lawful(start, minimum, a + b) && Streams(a + b, [stream] + streams)
  {
    forall j, k | 0 <= j < k < |a + b| ensures Apart((a + b)[j], (a + b)[k]) {
      if k < |a| {
        assert Apart(a[j], a[k]);
      } else if j >= |a| {
        assert Apart(b[j - |a|], b[k - |a|]);
      } else {
        assert LawfulVisit(start, minimum, a[j]) && LawfulVisit(start, minimum, b[k - |a|]);
      }
    }
    forall k | 0 <= k < |a + b| ensures LawfulVisit(start, minimum, (a + b)[k]) {
      assert if k < |a| then LawfulVisit(start, minimum, a[k]) else LawfulVisit(start, minimum, b[k - |a|]);
    }
  }

  datatype Config = Config(minimum: nat, batchSize: nat, threshold: real)

  function Taken(cfg: Config, start: map<string, Raw>, candidates: seq<string>, stream: string): seq<string> {
    var chunks := InStream(start, candidates, stream);
    if |chunks| > cfg.batchSize then chunks[..cfg.batchSize] else chunks
  }

  /** The sub-groups of one stream: none when it has too few chunks. */
  function GroupsIn(cfg: Config, sim: Similarity, emb: Embeddings, start: map<string, Raw>, candidates: seq<string>, stream: string)
    : seq<seq<string>>
  {
    if |InStream(start, candidates, stream)| < cfg.minimum then []
    else Grouping(sim, cfg.threshold, emb, Taken(cfg, start, candidates, stream))
  }

  ghost predicate IsGrouped(groups: seq<seq<string>>, id: string) {
    exists g :: 0 <= g < |groups| && id in groups[g]
  }

  lemma GroupedAreTheChunks(sim: Similarity, threshold: real, emb: Embeddings, chunks: seq<string>, id: string)
    ensures IsGrouped(Grouping(sim, threshold, emb, chunks), id) <==> id in chunks
  {
    GroupingPartitions(sim, threshold, emb, chunks);
    var groups, homes := Grouping(sim, threshold, emb, chunks), Homes(sim, threshold, emb, chunks);
    var n := |Clustered(sim, threshold, emb, chunks)|;
    if id in chunks {
      var i :| 0 <= i < |chunks| && chunks[i] == id;
      var g :| 0 <= g < |groups| && HomeAt(n, g) == homes[i];
      SentToAre(chunks, homes, homes[i], id);
      assert id in groups[g];
    }
    if g :| 0 <= g < |groups| && id in groups[g] { SentToAre(chunks, homes, HomeAt(n, g), id); }
  }

  lemma {:induction false} SentToAre(chunks: seq<string>, homes: seq<Option<nat>>, h: Option<nat>, id: string)
    requires |homes| == |chunks|
    ensures id in SentTo(chunks, homes, h) <==> exists i :: 0 <= i < |chunks| && chunks[i] == id && homes[i] == h
    decreases |chunks|
  {
    if chunks != [] {
      var n := |chunks| - 1;
      SentToAre(chunks[..n], homes[..n], h, id);
      assert forall i :: 0 <= i < n ==> chunks[..n][i] == chunks[i] && homes[..n][i] == homes[i];
    }
  }

  /** A stream with enough candidates is grouped, its first batch of them and no others. */
  lemma GroupedIff(cfg: Config, sim: Similarity, emb: Embeddings, start: map<string, Raw>, candidates: seq<string>,
                   stream: string, id: string)
    ensures var chunks := InStream(start, candidates, stream);
            IsGrouped(GroupsIn(cfg, sim, emb, start, candidates, stream), id) <==>
              |chunks| >= cfg.minimum && AmongFirst(id, chunks, cfg.batchSize)
  {
    var taken := Taken(cfg, start, candidates, stream);
    assert id in taken <==> AmongFirst(id, InStream(start, candidates, stream), cfg.batchSize);
    GroupedAreTheChunks(sim, cfg.threshold, emb, taken, id);
  }

  lemma GroupsInAreLawful(cfg: Config, sim: Similarity, emb: Embeddings, start: map<string, Raw>, candidates: seq<string>,
                          stream: string, visits: seq<Visit>)
    requires NoDup(candidates) && forall id :: id in candidates ==> id in start && Eligible(start[id])
    requires var groups := GroupsIn(cfg, sim, emb, start, candidates, stream);
             InGroups(visits, stream, groups, cfg.minimum, 0, |groups|)
    ensures Lawful(start, cfg.minimum, visits)
  {
    InStreamAre(start, candidates, stream);
    var chunks := Taken(cfg, start, candidates, stream);
    assert NoDup(chunks);
    if |InStream(start, candidates, stream)| >= cfg.minimum {
      GroupsAreLawful(sim, cfg.threshold, emb, chunks);
      StreamIsLawful(start, cfg.minimum, stream, chunks, Grouping(sim, cfg.threshold, emb, chunks), visits);
    }
  }

  /** Every visit of a pass is of an eligible group of its own stream, and no chunk is visited twice. */
  lemma {:induction false} PassIsLawful(cfg: Config, sim: Similarity, emb: Embeddings, start: map<string, Raw>, candidates: seq<string>,
                                        order: seq<string>, fate: Fate, cancelled: Cancelled, cancelledBefore: string -> bool)
    requires NoDup(candidates) && NoDup(order) && forall id :: id in candidates ==> id in start && Eligible(start[id])
    ensures var trace := PassVisits(order, s => GroupsIn(cfg, sim, emb, start, candidates, s), cfg.minimum, fate, cancelled, cancelledBefore);
            Lawful(start, cfg.minimum, trace) && Streams(trace, order)
    decreases |order|
  {
    if order != [] && !cancelledBefore(order[0]) {
      var groups := GroupsIn(cfg, sim, emb, start, candidates, order[0]);
      var here := StreamVisits(order[0], groups, cfg.minimum, fate, cancelled, 0);
      VisitsAreGroups(order[0], groups, cfg.minimum, fate, cancelled, 0);
      GroupsInAreLawful(cfg, sim, emb, start, candidates, order[0], here.0);
      var rest := order[1..];
      assert order == [order[0]] + rest && order[0] !in rest;
      PassIsLawful(cfg, sim, emb, start, candidates, rest, fate, cancelled, cancelledBefore);
      var later := PassVisits(rest, s => GroupsIn(cfg, sim, emb, start, candidates, s), cfg.minimum, fate, cancelled, cancelledBefore);
      LawfulConcat(start, cfg.minimum, here.0, later, order[0], rest);
    }
  }

  lemma PassStep(order: seq<string>, i: nat, groupsOf: GroupsOf, minimum: nat, fate: Fate, cancelled: Cancelled,
                 cancelledBefore: string -> bool, trace: seq<Visit>, all: seq<Visit>)
    requires i < |order| && trace + PassVisits(order[i..], groupsOf, minimum, fate, cancelled, cancelledBefore) == all
    ensures var here := StreamVisits(order[i], groupsOf(order[i]), minimum, fate, cancelled, 0);
            if cancelledBefore(order[i]) then trace == all
            else if here.1 == StopRun then trace + here.0 == all
            else (trace + here.0) + PassVisits(order[i + 1..], groupsOf, minimum, fate, cancelled, cancelledBefore) == all
  {
    assert order[i..][0] == order[i] && order[i..][1..] == order[i + 1..];
    var here := StreamVisits(order[i], groupsOf(order[i]), minimum, fate, cancelled, 0);
    var later := PassVisits(order[i + 1..], groupsOf, minimum, fate, cancelled, cancelledBefore);
    assert trace + [] == trace && here.0 + [] == here.0;
    assert trace + (here.0 + later) == (trace + here.0) + later;
  }

  /**
   * A whole pass visits exactly what `PassVisits` says, for every order of the streams and wherever it
   * stops, and leaves the store as those visits do.
   */
  method Consolidate(store: ChunkStore, cfg: Config, sim: Similarity, emb: Embeddings, keys: seq<string>, order: seq<string>,
                     fate: Fate, cancelled: Cancelled, cancelledBefore: string -> bool)
    returns (ghost trace: seq<Visit>)
    requires NoDup(keys) && NoDup(order)
    modifies store
    ensures var candidates := Candidates(old(store.chunks), keys, cfg.batchSize * 10);
            trace == PassVisits(order, s => GroupsIn(cfg, sim, emb, old(store.chunks), candidates, s), cfg.minimum,
                                fate, cancelled, cancelledBefore)
    ensures Lawful(old(store.chunks), cfg.minimum, trace)
    ensures store.Snapshot() == Run(old(store.Snapshot()), trace)
  {
    var start := store.chunks;
    trace := [];
    var candidates := Scan(store, keys, cfg.batchSize * 10);
    CandidatesAre(start, keys, cfg.batchSize * 10);
    ghost var groupsOf := s => GroupsIn(cfg, sim, emb, start, candidates, s);
    PassIsLawful(cfg, sim, emb, start, candidates, order, fate, cancelled, cancelledBefore);
    ghost var all := PassVisits(order, groupsOf, cfg.minimum, fate, cancelled, cancelledBefore);
    assert order[0..] == order;
    for i := 0 to |order|
      invariant trace + PassVisits(order[i..], groupsOf, cfg.minimum, fate, cancelled, cancelledBefore) == all
      invariant store.Snapshot() == Run(old(store.Snapshot()), trace)
    {
      PassStep(order, i, groupsOf, cfg.minimum, fate, cancelled, cancelledBefore, trace, all);
      if cancelledBefore(order[i]) { return; }
      var groups := GroupStream(cfg, sim, emb, start, candidates, order[i]);
      var flow, visits := ProcessStream(store, order[i], groups, cfg.minimum, fate, cancelled);
      RunConcat(old(store.Snapshot()), trace, visits);
      trace := trace + visits;
      if flow == StopRun { return; }
    }
  }

  // ------------------------------------------------------------------ a pass goes on after a spent budget

  lemma OneGroup(stream: string, group: seq<string>, minimum: nat, fate: Fate, cancelled: Cancelled)
    requires !cancelled(stream, 0) && |group| >= minimum
    ensures var ending := fate(stream, 0);
            StreamVisits(stream, [group], minimum, fate, cancelled, 0) == ([Visit(stream, 0, group, ending)], FlowAfter(ending))
  {
    var v := Visit(stream, 0, group, fate(stream, 0));
    assert StreamVisits(stream, [group], minimum, fate, cancelled, 1) == ([], Next);
    assert [v] + [] == [v];
  }

  /** Eligible chunks of one stream: enough for a group, no more than a batch. */
  ghost predicate Share(cfg: Config, start: map<string, Raw>, stream: string, ids: seq<string>) {
    && ids != [] && cfg.minimum <= |ids| <= cfg.batchSize
    && forall id :: id in ids ==> id in start && Eligible(start[id]) && start[id].stream == stream
  }

  lemma {:induction false} AllCandidates(start: map<string, Raw>, keys: seq<string>, limit: nat)
    requires |keys| <= limit && forall id :: id in keys ==> id in start && Eligible(start[id])
    ensures Candidates(start, keys, limit) == keys
  {
    if keys != [] {
      var n := |keys| - 1;
      assert keys == keys[..n] + [keys[n]];
      AllCandidates(start, keys[..n], limit);
    }
  }

  lemma {:induction false} OwnShare(start: map<string, Raw>, ids: seq<string>, stream: string, other: string)
    requires forall id :: id in ids ==> id in start && start[id].stream == stream
    ensures InStream(start, ids, other) == if other == stream then ids else []
  {
    if ids != [] {
      var n := |ids| - 1;
      assert ids == ids[..n] + [ids[n]];
      OwnShare(start, ids[..n], stream, other);
    }
  }

  lemma {:induction false} InStreamConcat(start: map<string, Raw>, xs: seq<string>, ys: seq<string>, stream: string)
    ensures InStream(start, xs + ys, stream) == InStream(start, xs, stream) + InStream(start, ys, stream)
    decreases |ys|
  {
    if ys == [] {
      assert xs + ys == xs;
    } else {
      var n := |ys| - 1;
      assert (xs + ys)[..|xs| + n] == xs + ys[..n] && (xs + ys)[|xs| + n] == ys[n];
      InStreamConcat(start, xs, ys[..n], stream);
    }
  }

  const NO_EMBEDDINGS: Embeddings := (id: string) => None

  /** Without embeddings a stream's share is one group. */
  lemma ShareIsOneGroup(cfg: Config, sim: Similarity, start: map<string, Raw>, candidates: seq<string>, stream: string, ids: seq<string>)
    requires Share(cfg, start, stream, ids) && InStream(start, candidates, stream) == ids
    ensures GroupsIn(cfg, sim, NO_EMBEDDINGS, start, candidates, stream) == [ids]
  {
    UnembeddedIsOneGroup(sim, cfg.threshold, NO_EMBEDDINGS, ids);
  }

  lemma SharesAreGroups(cfg: Config, sim: Similarity, start: map<string, Raw>, a: string, b: string, xs: seq<string>, ys: seq<string>)
    requires a != b && Share(cfg, start, a, xs) && Share(cfg, start, b, ys)
    ensures GroupsIn(cfg, sim, NO_EMBEDDINGS, start, xs + ys, a) == [xs]
    ensures GroupsIn(cfg, sim, NO_EMBEDDINGS, start, xs + ys, b) == [ys]
  {
    SharesAreApart(start, a, b, xs, ys);
    ShareIsOneGroup(cfg, sim, start, xs + ys, a, xs);
    ShareIsOneGroup(cfg, sim, start, xs + ys, b, ys);
  }

  lemma SharesAreApart(start: map<string, Raw>, a: string, b: string, xs: seq<string>, ys: seq<string>)
    requires a != b && forall id :: id in xs ==> id in start && start[id].stream == a
    requires forall id :: id in ys ==> id in start && start[id].stream == b
    ensures InStream(start, xs + ys, a) == xs && InStream(start, xs + ys, b) == ys
  {
    InStreamConcat(start, xs, ys, a);
    InStreamConcat(start, xs, ys, b);
    OwnShare(start, xs, a, a);
    OwnShare(start, ys, b, a);
    OwnShare(start, xs, a, b);
    OwnShare(start, ys, b, b);
    assert xs + [] == xs && [] + ys == ys;
  }

  /**
   * A pass of the program over two streams whose chunks have no embeddings: the first meets a spent budget, and
   * the second is leased and processed all the same, whether it meets the spent budget too or, on a new day,
   * goes through.
   */
  lemma PassGoesOnAfterBudget(cfg: Config, sim: Similarity, start: map<string, Raw>, a: string, b: string,
                              xs: seq<string>, ys: seq<string>, second: Ending)
    requires a != b && NoDup(xs + ys) && Share(cfg, start, a, xs) && Share(cfg, start, b, ys)
    ensures var candidates := Candidates(start, xs + ys, cfg.batchSize * 10);
            PassVisits([a, b], s => GroupsIn(cfg, sim, NO_EMBEDDINGS, start, candidates, s), cfg.minimum,
                       (s: string, slot: nat) => if s == a then OverBudget else second,
                       (s: string, slot: nat) => false, (s: string) => false) ==
            [Visit(a, 0, xs, OverBudget), Visit(b, 0, ys, second)]
  {
    AllCandidates(start, xs + ys, cfg.batchSize * 10);
    SharesAreGroups(cfg, sim, start, a, b, xs, ys);
    TwoGroups(a, b, xs, ys, s => GroupsIn(cfg, sim, NO_EMBEDDINGS, start, xs + ys, s), cfg.minimum, second);
  }

  lemma TwoGroups(a: string, b: string, xs: seq<string>, ys: seq<string>, groupsOf: GroupsOf, minimum: nat, second: Ending)
    requires a != b && |xs| >= minimum && |ys| >= minimum && groupsOf(a) == [xs] && groupsOf(b) == [ys]
    ensures PassVisits([a, b], groupsOf, minimum, (s: string, slot: nat) => if s == a then OverBudget else second,
                       (s: string, slot: nat) => false, (s: string) => false) ==
            [Visit(a, 0, xs, OverBudget), Visit(b, 0, ys, second)]
  {
    var fate := (s: string, slot: nat) => if s == a then OverBudget else second;
    var cancelled := (s: string, slot: nat) => false;
    var never := (s: string) => false;
    OneGroup(a, xs, minimum, fate, cancelled);
    OneGroup(b, ys, minimum, fate, cancelled);
    assert [a, b][1..] == [b] && [b][1..] == [];
    assert PassVisits([], groupsOf, minimum, fate, cancelled, never) == [];
    assert PassVisits([b], groupsOf, minimum, fate, cancelled, never) == [Visit(b, 0, ys, second)];
  }

  method GroupStream(cfg: Config, sim: Similarity, emb: Embeddings, start: map<string, Raw>, candidates: seq<string>, stream: string)
    returns (groups: seq<seq<string>>)
    ensures groups == GroupsIn(cfg, sim, emb, start, candidates, stream)
  {
    var chunks := OfStream(start, candidates, stream);
    if |chunks| < cfg.minimum { return []; }
    if |chunks| > cfg.batchSize { chunks := chunks[..cfg.batchSize]; }
    groups := ClusterBySimilarity(sim, cfg.threshold, emb, chunks);
  }

  lemma {:induction false} SentNoDup(chunks: seq<string>, homes: seq<Option<nat>>, h: Option<nat>)
    requires |homes| == |chunks| && NoDup(chunks)
    ensures NoDup(SentTo(chunks, homes, h))
    decreases |chunks|
  {
    if chunks != [] {
      var n := |chunks| - 1;
      SentNoDup(chunks[..n], homes[..n], h);
      assert chunks[n] !in chunks[..n];
    }
  }

  lemma GroupsAreLawful(sim: Similarity, threshold: real, emb: Embeddings, chunks: seq<string>)
    requires NoDup(chunks)
    ensures var groups := Grouping(sim, threshold, emb, chunks);
            && (forall g, id :: 0 <= g < |groups| && id in groups[g] ==> id in chunks)
            && (forall g :: 0 <= g < |groups| ==> NoDup(groups[g]))
            && (forall g, h, id :: 0 <= g < h < |groups| && id in groups[g] ==> id !in groups[h])
  {
    var groups := Grouping(sim, threshold, emb, chunks);
    GroupingPartitions(sim, threshold, emb, chunks);
    var homes, n := Homes(sim, threshold, emb, chunks), |Clustered(sim, threshold, emb, chunks)|;
    forall g | 0 <= g < |groups| ensures NoDup(groups[g]) { SentNoDup(chunks, homes, HomeAt(n, g)); }
    forall g, h, id | 0 <= g < h < |groups| && id in groups[g] ensures id !in groups[h] {
      GroupsAreDisjoint(sim, threshold, emb, chunks, g, h);
    }
  }
}
