/** What the protocol guarantees in every reachable state. */
module PaidCall {
  import opened Prelude
  import opened Sums
  import opened Budget
  import opened PaidEntries
  import opened PaidProtocol
  import opened PaidInvariant

  ghost predicate ReachedFrom(env: Env, limit: Amount, run: seq<Action>, s: Sys) {
    && MoneyOk(limit) && Units(limit) == env.limit
    && Allowed(env, Initial(limit), run)
    && After(env, Initial(limit), run) == s
  }

  ghost predicate Reachable(env: Env, s: Sys) {
    exists limit, run :: ReachedFrom(env, limit, run, s)
  }

  lemma ReachableInv(env: Env, s: Sys)
    requires Reachable(env, s)
    ensures Inv(env, s)
  {
    var limit, run :| ReachedFrom(env, limit, run, s);
    InitialInv(env, limit);
    RunKeepsInv(env, Initial(limit), run);
  }

  /** Over every interleaving with crashes, the provider is called at most once per request. */
  lemma AtMostOneCall(env: Env, s: Sys, h: string)
    requires Reachable(env, s)
    ensures |Bills(s.calls, h)| <= 1
  {
    ReachableInv(env, s);
    assert LocalOk(env, h, View(s, h));
  }

  /**
   * A call can be issued only under a durable, unsettled reservation for its full maximum that no call
   * has used, and never for a request that already has a cached answer.
   */
  lemma CallsAreReserved(env: Env, s: Sys, p: nat, bill: nat)
    requires Reachable(env, s) && Enabled(env, s, Issue(p, bill))
    ensures var ph := s.procs[p];
            && ConfigOk(env.config(ph.h)) && ph.h in s.ledger.requests
            && s.ledger.requests[ph.h] == Row(ph.token, MaxCost(env.config(ph.h)), None)
            && Bills(s.calls, ph.h) == []
            && ph.h !in s.cache
  {
    ReachableInv(env, s);
    var ph := s.procs[p];
    assert ProcOk(env, s, p) && LocalOk(env, ph.h, View(s, ph.h));
  }

  function Billed(calls: seq<Call>): nat {
    if calls == [] then 0 else calls[0].bill + Billed(calls[1..])
  }

  lemma {:induction false} BilledAtMost(calls: seq<Call>, m: map<string, nat>)
    requires forall h :: |Bills(calls, h)| <= 1
    requires forall h :: Bills(calls, h) != [] ==> h in m && Bills(calls, h)[0] <= m[h]
    ensures Billed(calls) <= Sum(m)
    decreases |calls|
  {
    if calls != [] {
      var c := calls[0];
      assert Bills(calls, c.h) == [c.bill] + Bills(calls[1..], c.h);
      SumRemove(m, c.h);
      forall h
        ensures |Bills(calls[1..], h)| <= 1
        ensures Bills(calls[1..], h) != [] ==> h in m - {c.h} && Bills(calls[1..], h)[0] <= (m - {c.h})[h]
      {
        assert Bills(calls, h) == (if c.h == h then [c.bill] else []) + Bills(calls[1..], h);
      }
      BilledAtMost(calls[1..], m - {c.h});
    }
  }

  /** Everything ever billed, settled or not, stays within the limit plus what bills exceed their rows by. */
  lemma BilledWithinLimit(env: Env, s: Sys, over: map<string, nat>)
    requires Reachable(env, s) && over.Keys == s.ledger.requests.Keys
    requires forall h, call :: h in over && call in s.calls && call.h == h ==>
               call.bill <= Cell(Capped, s.ledger.requests[h]) + over[h]
    ensures Billed(s.calls) <= env.limit + Sum(over)
  {
    ReachableInv(env, s);
    var rs := s.ledger.requests;
    var cover := map h | h in rs :: Cell(Capped, rs[h]) + over[h];
    forall h
      ensures |Bills(s.calls, h)| <= 1
      ensures Bills(s.calls, h) != [] ==> h in cover && Bills(s.calls, h)[0] <= cover[h]
    {
      assert LocalOk(env, h, View(s, h));
      if Bills(s.calls, h) != [] { BillHasCall(s.calls, h); }
    }
    BilledAtMost(s.calls, cover);
    SumPlus(Cells(Capped, rs), over, cover);
    assert Total(Capped, rs) <= env.limit;
  }

  lemma {:induction false} BillHasCall(calls: seq<Call>, h: string)
    requires Bills(calls, h) != []
    ensures Call(h, Bills(calls, h)[0]) in calls
  {
    if calls[0].h != h { BillHasCall(calls[1..], h); }
  }

  /** So the limit holds when no bill exceeds its reservation, nor the usage its settlement recorded. */
  lemma CoveredBillsStayWithin(env: Env, s: Sys)
    requires Reachable(env, s)
    requires forall call :: call in s.calls && call.h in s.ledger.requests ==>
               call.bill <= Cell(Capped, s.ledger.requests[call.h])
    ensures Billed(s.calls) <= env.limit
  {
    var none := map h | h in s.ledger.requests :: 0;
    BilledWithinLimit(env, s, none);
    AllZero(none);
  }

  lemma {:induction false} BilledAddsUp(calls: seq<Call>, call: Call)
    ensures Billed(calls + [call]) == Billed(calls) + call.bill
  {
    if calls == [] {
      assert [call][1..] == [];
    } else {
      assert (calls + [call])[1..] == calls[1..] + [call];
      BilledAddsUp(calls[1..], call);
    }
  }

  lemma {:induction false} FirstIsForever(env: Env, s: Sys, run: seq<Action>, h: string)
    requires Inv(env, s) && Allowed(env, s, run) && h in s.first
    ensures h in After(env, s, run).first && After(env, s, run).first[h] == s.first[h]
    decreases |run|
  {
    if run != [] {
      StepKeepsInv(env, s, run[0]);
      FirstIsKept(env, s, run[0], h);
      FirstIsForever(env, Next(env, s, run[0]), run[1..], h);
    }
  }

  lemma FirstIsKept(env: Env, s: Sys, a: Action, h: string)
    requires Inv(env, s) && Enabled(env, s, a) && h in s.first
    ensures h in Next(env, s, a).first && Next(env, s, a).first[h] == s.first[h]
  {
    if a.WriteFirst? {
      assert ProcOk(env, s, a.p);
    }
  }

  /** What the provider confirmed costs no more than the configuration reserved. */
  predicate WithinReservation(c: Config, e: Entry) {
    e.actual.Some? ==> MoneyOk(e.actual.value) && Units(e.actual.value) <= Units(MaxCost(c))
  }

  /** So it is whenever the confirmed counts stay inside the window and the completion limit. */
  lemma CountsInsideAreWithin(env: Env, h: string, e: Entry)
    requires FirstOk(env, h, e) && MoneyOk(MaxCost(env.config(h)))
    requires e.usage.Some? ==> e.usage.value.prompt <= env.config(h).window && e.usage.value.completion <= env.config(h).maxCompletion
    ensures WithinReservation(env.config(h), e)
  {
    FirstOkFacts(env, h, e);
    if e.usage.Some? { UsageWithinReservation(env.config(h), e.usage.value.prompt, e.usage.value.completion); }
  }

  /** How an invocation for a request with first entry `e` must end. */
  ghost predicate EndsAs(env: Env, s: Sys, h: string, e: Entry, r: Outcome) {
    && !r.called
    && r.returned == Gave(Finish(e))
    && r.cache == s.cache[h := Seal(Finish(e))]
    && h in s.ledger.requests
    && r.ledger == s.ledger.(requests := s.ledger.requests[h := Row(e.token, MaxCost(env.config(h)), e.actual)])
  }

  /**
   * Once a request's first entry is on disk, whatever runs or crashes afterwards, a rerun accepts the
   * cached file, makes no call, and ends with the same entry and the same ledger row as a run that
   * never crashed; a second rerun changes nothing more.
   */
  lemma RerunConverges(env: Env, s: Sys, run: seq<Action>, h: string, token: string, answer: Answer)
    requires Reachable(env, s) && h in s.first && Allowed(env, s, run)
    requires WithinReservation(env.config(h), s.first[h])
    ensures var s' := After(env, s, run);
            var r := CompleteSpec(env, s'.ledger, s'.cache, h, token, answer);
            && h in s'.cache
            && ValidateCached(s'.cache[h], h, env.config(h), s'.ledger, env.limit)
            && EndsAs(env, s', h, s.first[h], r)
            && CompleteSpec(env, r.ledger, r.cache, h, token, answer) == r
  {
    ReachableInv(env, s);
    RunKeepsInv(env, s, run);
    FirstIsForever(env, s, run, h);
    var s' := After(env, s, run);
    CachedFileIsValid(env, s', h);
    CachedRerun(env, s', h, token, answer);
    RerunTwice(env, s', h, token, answer);
  }

  /** Every file in the cache of a reachable state passes validation, whatever the usage was. */
  lemma CachedFileIsValid(env: Env, s: Sys, h: string)
    requires Inv(env, s) && h in s.first
    ensures h in s.cache && s.cache[h] == Seal(s.cache[h].entry) && Version(s.first[h], s.cache[h].entry)
    ensures s.cache[h].entry.request == h
    ensures ValidateCached(s.cache[h], h, env.config(h), s.ledger, env.limit)
  {
    assert LocalOk(env, h, View(s, h));
    FirstOkFacts(env, h, s.first[h]);
    assert RowOk(s.ledger.requests[h]);
  }

  lemma CachedRerun(env: Env, s: Sys, h: string, token: string, answer: Answer)
    requires Inv(env, s) && h in s.first && WithinReservation(env.config(h), s.first[h])
    ensures EndsAs(env, s, h, s.first[h], CompleteSpec(env, s.ledger, s.cache, h, token, answer))
    ensures s.first[h].actual.Some? ==> MoneyOk(s.first[h].actual.value)
  {
    CachedFileIsValid(env, s, h);
    var e, c, file := s.first[h], env.config(h), s.cache[h];
    assert LocalOk(env, h, View(s, h));
    assert RowOk(s.ledger.requests[h]);
    FirstOkFacts(env, h, e);
    if e.actual.Some? {
      SettleOutcome(env, s, h, file.entry);
      assert file.entry == Finish(e) ==> s.cache[h := Seal(Finish(e))] == s.cache;
    } else {
      assert s.ledger.requests[h := Row(e.token, MaxCost(c), e.actual)] == s.ledger.requests;
      assert s.cache[h := Seal(Finish(e))] == s.cache;
    }
  }

  lemma RerunTwice(env: Env, s: Sys, h: string, token: string, answer: Answer)
    requires Inv(env, s) && h in s.first && WithinReservation(env.config(h), s.first[h])
    ensures var r := CompleteSpec(env, s.ledger, s.cache, h, token, answer);
            CompleteSpec(env, r.ledger, r.cache, h, token, answer) == r
  {
    var e, c := s.first[h], env.config(h);
    var r := CompleteSpec(env, s.ledger, s.cache, h, token, answer);
    CachedRerun(env, s, h, token, answer);
    var s' := s.(ledger := r.ledger, cache := r.cache, procs := map[]);
    RerunStateInv(env, s, s', h, token, answer);
    CachedRerun(env, s', h, token, answer);
    assert s'.ledger.requests[h := Row(e.token, MaxCost(c), e.actual)] == s'.ledger.requests;
    assert s'.cache[h := Seal(Finish(e))] == s'.cache;
  }

  lemma RerunStateInv(env: Env, s: Sys, s': Sys, h: string, token: string, answer: Answer)
    requires Inv(env, s) && h in s.first && WithinReservation(env.config(h), s.first[h])
    requires var r := CompleteSpec(env, s.ledger, s.cache, h, token, answer);
             s' == s.(ledger := r.ledger, cache := r.cache, procs := map[])
    ensures Inv(env, s')
  {
    var e := s.first[h];
    CachedRerun(env, s, h, token, answer);
    CachedFileIsValid(env, s, h);
    assert LocalOk(env, h, View(s, h));
    if e.actual.Some? {
      SettleOutcome(env, s, h, e);
      SettleIsSound(s.ledger, env.limit, e.token, e.actual.value);
      SettledLocal(env, h, View(s, h), s'.ledger.requests[h]);
    }
    var mid := s.(ledger := s'.ledger, procs := map[]);
    RowWritten(s, mid, h, s'.ledger.requests[h]);
    SameElsewhereKeepsLocals(env, s, mid, h);
    FinishedLocal(env, h, View(mid, h));
    FilesWritten(mid, s', h, Seal(Finish(e)));
    SameElsewhereKeepsLocals(env, mid, s', h);
  }

  /**
   * Every entry a process ends with, and the file it leaves, is completed exactly if the provider's answer
   * counted and stopped, failed as incomplete exactly if it counted and did not stop, and says nothing else
   * than the request's first entry.
   */
  lemma FinalEntryMeans(env: Env, s: Sys, p: nat)
    requires Reachable(env, s) && p in s.procs && s.procs[p].Done?
    ensures var h, e := s.procs[p].h, s.procs[p].entry;
            && h in s.first && IsFinal(s.first[h], e) && h in s.cache && s.cache[h].entry == e
            && exists answer :: s.first[h] == FirstEntry(h, s.first[h].token, env.config(h), answer)
  {
    ReachableInv(env, s);
    var h := s.procs[p].h;
    FinishersAgree(env, s, p);
    assert LocalOk(env, h, View(s, h));
    FirstIsFinished(env, h, s.first[h]);
  }

  lemma FirstIsFinished(env: Env, h: string, first: Entry)
    requires FirstOk(env, h, first)
    ensures IsFinal(first, Finish(first))
  {
    var answer :| first == FirstEntry(h, first.token, env.config(h), answer);
    FinishIsFinal(h, first.token, env.config(h), answer);
  }

  /** Every cached file holds the first entry of its request or the final one. */
  lemma CachedEntryMeans(env: Env, s: Sys, h: string)
    requires Reachable(env, s) && h in s.cache
    ensures h in s.first && (s.cache[h].entry == s.first[h] || IsFinal(s.first[h], s.cache[h].entry))
  {
    ReachableInv(env, s);
    assert LocalOk(env, h, View(s, h));
    FirstIsFinished(env, h, s.first[h]);
  }

  /** A rerun gives back, and leaves on disk, the final form of the request's first entry. */
  lemma RerunMeans(env: Env, s: Sys, run: seq<Action>, h: string, token: string, answer: Answer)
    requires Reachable(env, s) && h in s.first && Allowed(env, s, run)
    requires WithinReservation(env.config(h), s.first[h])
    ensures var s' := After(env, s, run);
            var r := CompleteSpec(env, s'.ledger, s'.cache, h, token, answer);
            && r.returned.Gave? && IsFinal(s.first[h], r.returned.entry)
            && h in r.cache && r.cache[h] == CacheFile(r.returned.entry, r.returned.entry)
  {
    RerunConverges(env, s, run, h, token, answer);
    ReachableInv(env, s);
    assert LocalOk(env, h, View(s, h));
    FirstIsFinished(env, h, s.first[h]);
  }

  /** An overrun never turns into a silent success: every rerun records the usage and raises again. */
  lemma OverrunAlwaysRaises(env: Env, s: Sys, h: string, token: string, answer: Answer)
    requires Reachable(env, s) && h in s.first && s.first[h].actual.Some? && MoneyOk(s.first[h].actual.value)
    requires Units(s.first[h].actual.value) > Units(MaxCost(env.config(h)))
    ensures var r := CompleteSpec(env, s.ledger, s.cache, h, token, answer);
            && r.returned == Threw && !r.called && r.cache == s.cache
            && h in r.ledger.requests && r.ledger.requests[h].actual == s.first[h].actual
            && Breached(r.ledger.requests)
  {
    ReachableInv(env, s);
    CachedFileIsValid(env, s, h);
    assert LocalOk(env, h, View(s, h));
    SettleOutcome(env, s, h, s.cache[h].entry);
    var r := CompleteSpec(env, s.ledger, s.cache, h, token, answer);
    assert OverMax(r.ledger.requests[h]);
  }

  /** Exactly a confirmed cost inside the reservation, or none, lets a rerun return; every other one raises each time. */
  lemma RerunReturnsIff(env: Env, s: Sys, run: seq<Action>, h: string, token: string, answer: Answer)
    requires Reachable(env, s) && h in s.first && Allowed(env, s, run)
    ensures var s' := After(env, s, run);
            var r := CompleteSpec(env, s'.ledger, s'.cache, h, token, answer);
            && (r.returned.Gave? <==> WithinReservation(env.config(h), s.first[h]))
            && (!r.returned.Gave? ==> r.returned == Threw && !r.called && r.cache == s'.cache)
  {
    ReachableInv(env, s);
    RunKeepsInv(env, s, run);
    FirstIsForever(env, s, run, h);
    var s' := After(env, s, run);
    if WithinReservation(env.config(h), s.first[h]) {
      RerunMeans(env, s, run, h, token, answer);
    } else {
      OutsideRaises(env, s', h, token, answer);
    }
  }

  lemma OutsideRaises(env: Env, s: Sys, h: string, token: string, answer: Answer)
    requires Inv(env, s) && h in s.first && !WithinReservation(env.config(h), s.first[h])
    ensures var r := CompleteSpec(env, s.ledger, s.cache, h, token, answer);
            r.returned == Threw && !r.called && r.cache == s.cache
  {
    CachedFileIsValid(env, s, h);
    assert LocalOk(env, h, View(s, h));
    var e := s.cache[h].entry;
    if MoneyOk(e.actual.value) {
      SettleOutcome(env, s, h, e);
    } else {
      assert SettleSpec(s.ledger, env.limit, e.token, e.actual.value).error == Some(InvalidMoney);
    }
  }

  /** Every process that finishes returns the one final entry of its request, and that entry is on disk and settled. */
  lemma FinishersAgree(env: Env, s: Sys, p: nat)
    requires Reachable(env, s) && p in s.procs && s.procs[p].Done?
    ensures var h, e := s.procs[p].h, s.procs[p].entry;
            && h in s.first && e == Finish(s.first[h])
            && h in s.cache && s.cache[h] == Seal(e)
            && h in s.ledger.requests && s.ledger.requests[h].actual == e.actual
  {
    ReachableInv(env, s);
    assert ProcOk(env, s, p) && LocalOk(env, s.procs[p].h, View(s, s.procs[p].h));
  }
}
