/** The sequential program, and why running it is one of the protocol's own runs. */
module PaidClient {
  import opened Prelude
  import opened Sums
  import opened Budget
  import opened PaidEntries
  import opened PaidProtocol
  import opened PaidCall

  // --------------------------------------------- an invocation is one of the machine's own runs

  lemma Prepend(env: Env, s: Sys, a: Action, run: seq<Action>)
    requires Enabled(env, s, a) && Allowed(env, Next(env, s, a), run)
    ensures Allowed(env, s, [a] + run) && After(env, s, [a] + run) == After(env, Next(env, s, a), run)
  {
    assert ([a] + run)[1..] == run;
  }

  /** Where an invocation leaves its process. */
  function EndPhase(h: string, v: Verdict): Phase {
    match v
    case Gave(e) => Done(h, e)
    case Refused => Declined(h)
    case Threw => Stopped(h)
  }

  /** What a process still does once its entry is written or validated. */
  lemma SettlingIsARun(env: Env, s: Sys, p: nat, called: bool) returns (run: seq<Action>)
    requires p in s.procs && s.procs[p].Settling?
    ensures Allowed(env, s, run)
    ensures var r := SettleResponseSpec(env.limit, s.ledger, s.cache, called, s.procs[p].h, s.procs[p].entry);
            var s' := After(env, s, run);
            && s'.ledger == r.ledger && s'.cache == r.cache && s'.calls == s.calls && s'.first == s.first
            && s'.procs == s.procs[p := EndPhase(s.procs[p].h, r.returned)]
  {
    var s1 := Next(env, s, SettleUsage(p));
    if s1.procs[p].Finishing? {
      var s2 := Next(env, s1, WriteFinal(p));
      Prepend(env, s1, WriteFinal(p), []);
      run := [SettleUsage(p)] + [WriteFinal(p)];
      Prepend(env, s, SettleUsage(p), [WriteFinal(p)]);
      assert s2.procs == s.procs[p := s2.procs[p]];
    } else {
      run := [SettleUsage(p)];
      Prepend(env, s, SettleUsage(p), []);
    }
  }

  /** What a call for a request came back with and was billed. */
  datatype Reply = Reply(token: string, answer: Answer, bill: nat)

  ghost function Invocation(env: Env, s: Sys, h: string, a: Reply): Outcome {
    CompleteSpec(env, s.ledger, s.cache, h, a.token, a.answer)
  }

  function Answering(env: Env, h: string, a: Reply): Entry {
    FirstEntry(h, a.token, env.config(h), a.answer)
  }

  /** `s'` is how `s` looks after process `p` ran one whole invocation with outcome `r`. */
  ghost predicate RanAs(env: Env, s: Sys, s': Sys, p: nat, h: string, r: Outcome, a: Reply) {
    && s'.ledger == r.ledger && s'.cache == r.cache
    && s'.calls == s.calls + (if r.called then [Call(h, a.bill)] else [])
    && s'.first == (if r.called then s.first[h := Answering(env, h, a)] else s.first)
    && s'.procs == s.procs[p := EndPhase(h, r.returned)]
  }

  lemma LoadedIsARun(env: Env, s: Sys, p: nat, a: Reply) returns (run: seq<Action>)
    requires p in s.procs && s.procs[p].Loaded? && s.procs[p].h in s.cache && s.procs[p].file == s.cache[s.procs[p].h]
    requires ConfigOk(env.config(s.procs[p].h))
    ensures Allowed(env, s, run)
    ensures var h := s.procs[p].h; RanAs(env, s, After(env, s, run), p, h, Invocation(env, s, h, a), a)
  {
    var s1 := Next(env, s, Validate(p));
    var rest: seq<Action> := [];
    if s1.procs[p].Settling? {
      rest := SettlingIsARun(env, s1, p, false);
    }
    run := [Validate(p)] + rest;
    Prepend(env, s, Validate(p), rest);
  }

  lemma AbsentIsARun(env: Env, s: Sys, p: nat, a: Reply) returns (run: seq<Action>)
    requires p in s.procs && s.procs[p].Absent? && s.procs[p].h !in s.cache && FreshToken(s.ledger, a.token)
    requires ConfigOk(env.config(s.procs[p].h))
    ensures Allowed(env, s, run)
    ensures var h := s.procs[p].h; RanAs(env, s, After(env, s, run), p, h, Invocation(env, s, h, a), a)
  {
    var take := TakeReservation(p, a.token);
    var s1 := Next(env, s, take);
    var h := s.procs[p].h;
    AbsentOutcome(env, s, p, a);
    var rest: seq<Action> := [];
    if s1.procs[p].Holding? {
      rest := HoldingIsARun(env, s1, p, a);
    }
    SameProcs(env, s, s1, After(env, s1, rest), p, h, Invocation(env, s, h, a), a);
    run := [take] + rest;
    Prepend(env, s, take, rest);
  }

  /** Taking the reservation decides between a refusal and a call for the reserved request. */
  lemma AbsentOutcome(env: Env, s: Sys, p: nat, a: Reply)
    requires p in s.procs && s.procs[p].Absent? && s.procs[p].h !in s.cache && FreshToken(s.ledger, a.token)
    requires ConfigOk(env.config(s.procs[p].h))
    ensures var h := s.procs[p].h;
            var s1 := Next(env, s, TakeReservation(p, a.token));
            var e := Answering(env, h, a);
            && s1.cache == s.cache && s1.calls == s.calls && s1.first == s.first
            && p in s1.procs && s1.procs == s.procs[p := s1.procs[p]]
            && s1.procs[p] in {Holding(h, a.token), Declined(h)}
            && Invocation(env, s, h, a) ==
                 if s1.procs[p].Holding? then SettleResponseSpec(env.limit, s1.ledger, s.cache[h := Seal(e)], true, h, e)
                 else Outcome(s1.ledger, s.cache, false, Refused)
  {
  }

  /** Run alone, an invocation does to the disk exactly what some run of the machine's steps does. */
  lemma CompleteIsARun(env: Env, s: Sys, p: nat, h: string, a: Reply) returns (run: seq<Action>)
    requires p !in s.procs && !Blank(h) && FreshToken(s.ledger, a.token)
    ensures Allowed(env, s, run)
    ensures RanAs(env, s, After(env, s, run), p, h, Invocation(env, s, h, a), a)
  {
    var s1 := Next(env, s, Start(p, h));
    var rest: seq<Action> := [];
    if !ConfigOk(env.config(h)) {
    } else if h in s.cache {
      var s2 := Next(env, s1, Load(p));
      var last := LoadedIsARun(env, s2, p, a);
      rest := [Load(p)] + last;
      Prepend(env, s1, Load(p), last);
      SameProcs(env, s1, s2, After(env, s1, rest), p, h, Invocation(env, s, h, a), a);
    } else {
      rest := AbsentIsARun(env, s1, p, a);
    }
    run := [Start(p, h)] + rest;
    Prepend(env, s, Start(p, h), rest);
    SameProcs(env, s, s1, After(env, s, run), p, h, Invocation(env, s, h, a), a);
  }

  lemma SameProcs(env: Env, s: Sys, s1: Sys, s': Sys, p: nat, h: string, r: Outcome, a: Reply)
    requires RanAs(env, s1, s', p, h, r, a)
    requires s1.calls == s.calls && s1.first == s.first && p in s1.procs && s1.procs == s.procs[p := s1.procs[p]]
    ensures RanAs(env, s, s', p, h, r, a)
  {
  }

  lemma HoldingIsARun(env: Env, s: Sys, p: nat, a: Reply) returns (run: seq<Action>)
    requires p in s.procs && s.procs[p].Holding? && s.procs[p].token == a.token
    ensures Allowed(env, s, run)
    ensures var h := s.procs[p].h;
            var e := Answering(env, h, a);
            var r := SettleResponseSpec(env.limit, s.ledger, s.cache[h := Seal(e)], true, h, e);
            RanAs(env, s, After(env, s, run), p, h, r, a)
  {
    var s1 := Next(env, s, Issue(p, a.bill));
    var s2 := Next(env, s1, Receive(p, a.answer));
    var s3 := Next(env, s2, WriteFirst(p));
    var rest := SettlingIsARun(env, s3, p, true);
    Prepend(env, s2, WriteFirst(p), rest);
    Prepend(env, s1, Receive(p, a.answer), [WriteFirst(p)] + rest);
    run := [Issue(p, a.bill)] + ([Receive(p, a.answer)] + ([WriteFirst(p)] + rest));
    Prepend(env, s, Issue(p, a.bill), [Receive(p, a.answer)] + ([WriteFirst(p)] + rest));
    assert s3.procs == s.procs[p := s3.procs[p]];
    var s' := After(env, s, run);
    assert s'.procs == s.procs[p := s'.procs[p]];
  }

  /** A crash loses its process and nothing that is on disk. */
  lemma CrashKeepsTheDisk(env: Env, s: Sys, p: nat)
    requires Enabled(env, s, Crash(p))
    ensures var s' := Next(env, s, Crash(p));
            && p in s.procs && p !in s'.procs && (forall q :: q in s.procs && q != p ==> q in s'.procs && s'.procs[q] == s.procs[q])
            && s'.ledger == s.ledger && s'.cache == s.cache && s'.calls == s.calls && s'.first == s.first
  {
  }

  // ------------------------------------------------------------------------------ the program

  class CompletionClient {
    const env: Env
    const ledger: BudgetLedger
    var cache: map<string, CacheFile>

    constructor (env: Env, ledger: BudgetLedger, cache: map<string, CacheFile>)
      ensures this.env == env && this.ledger == ledger && this.cache == cache
    {
      this.env := env;
      this.ledger := ledger;
      this.cache := cache;
    }

    /** `answer` is what the transport yields if it is called; `token` is what a reservation would draw. */
    method Complete(h: string, token: string, answer: Answer) returns (called: bool, returned: Verdict)
      requires env.limit == Units(ledger.limitUsd)
      modifies this`cache, ledger`file
      ensures old(ledger.file).Saved? ==>
                var r := CompleteSpec(env, old(ledger.file).ledger, old(cache), h, token, answer);
                ledger.file == Saved(r.ledger) && cache == r.cache && called == r.called && returned == r.returned
      ensures !old(ledger.file).Saved? ==>
                && ledger.file == old(ledger.file) && cache == old(cache) && !called
                && returned == if ConfigOk(env.config(h)) && h !in cache then Refused else Threw
    {
      called, returned := false, Threw;
      var c := env.config(h);
      if !ConfigOk(c) {
        return;
      }
      if h in cache {
        var file := cache[h];
        if file.entry.request == h && ContentOk(file, c) {
          var refused := ledger.VerifyReservation(file.entry.token, h, MaxCost(c));
          if refused.None? {
            returned := SettleResponse(h, file.entry, false);
          }
        }
      } else {
        var reserved := ledger.Reserve(h, MaxCost(c), token);
        if reserved.Err? {
          returned := Refused;
        } else {
          called := true;
          var e := FirstEntry(h, reserved.value, c, answer);
          cache := cache[h := Seal(e)];
          returned := SettleResponse(h, e, true);
        }
      }
    }

    method SettleResponse(h: string, e: Entry, ghost called: bool) returns (returned: Verdict)
      requires env.limit == Units(ledger.limitUsd) && ledger.file.Saved?
      modifies this`cache, ledger`file
      ensures var r := SettleResponseSpec(env.limit, old(ledger.file).ledger, old(cache), called, h, e);
              ledger.file == Saved(r.ledger) && cache == r.cache && returned == r.returned
    {
      if e.actual.Some? {
        var error := ledger.Settle(e.token, e.actual.value);
        if error.Some? {
          return Threw;
        }
      }
      if e.status != ResponseReceived {
        return Gave(e);
      }
      cache := cache[h := Seal(Finish(e))];
      return Gave(Finish(e));
    }
  }
}
