/** Every step of the protocol keeps its invariant. */
module PaidInvariant {
  import opened Prelude
  import opened Sums
  import opened Budget
  import opened PaidEntries
  import opened PaidProtocol

  /** How a request's durable facts may move under a process that does not own the call. */
  predicate Advances(v: Local, v': Local) {
    && (v.first.Some? ==> v'.first == v.first)
    && (Settled(v) ==> Settled(v'))
    && (v.first.Some? && v.file.Some? && v.file.value.entry == Finish(v.first.value) ==> v'.file == v.file)
  }

  lemma OthersStayOk(env: Env, v: Local, v': Local, ph: Phase)
    requires PhaseOk(env, v, ph) && !Owns(ph) && Advances(v, v')
    ensures PhaseOk(env, v', ph)
  {
  }

  ghost predicate SameElsewhere(s: Sys, s': Sys, h: string) {
    forall g :: g != h ==> View(s', g) == View(s, g)
  }

  lemma SameElsewhereKeepsLocals(env: Env, s: Sys, s': Sys, h: string)
    requires LocalsOk(env, s) && SameElsewhere(s, s', h) && LocalOk(env, h, View(s', h))
    ensures LocalsOk(env, s')
  {
    forall g ensures LocalOk(env, g, View(s', g)) {
      if g != h {
        assert View(s', g) == View(s, g) && LocalOk(env, g, View(s, g));
      }
    }
  }

  /** A process without the right to call survives every advance of its request. */
  lemma OtherProcOk(env: Env, s: Sys, s': Sys, h: string, q: nat)
    requires q in s.procs && ProcOk(env, s, q) && q in s'.procs && s'.procs[q] == s.procs[q]
    requires SameElsewhere(s, s', h)
    requires s.procs[q].h == h ==> View(s', h) == View(s, h) || (!Owns(s.procs[q]) && Advances(View(s, h), View(s', h)))
    ensures ProcOk(env, s', q)
  {
    if s.procs[q].h == h {
      if View(s', h) != View(s, h) {
        OthersStayOk(env, View(s, h), View(s', h), s.procs[q]);
      }
    } else {
      assert View(s', s.procs[q].h) == View(s, s.procs[q].h);
    }
  }

  /** Only one process may own a request, and none owns one that has no row or has a first entry. */
  lemma NoOtherOwner(env: Env, s: Sys, p: nat, h: string, q: nat)
    requires Orderly(env, s) && q != p && OwnsRequest(s.procs, q, h)
    ensures View(s, h).row.Some? && View(s, h).first.None?
    ensures !OwnsRequest(s.procs, p, h)
  {
    assert ProcOk(env, s, q);
  }

  /**
   * One process changes the facts of its own request and moves on. It may do so if nothing changes,
   * or nobody else can own the request: it owns it itself, it is free, or its answer is cached.
   */
  lemma UpdateKeepsOrder(env: Env, s: Sys, s': Sys, p: nat, ph: Phase)
    requires Orderly(env, s) && s'.procs == s.procs[p := ph]
    requires p in s.procs ==> s.procs[p].h == ph.h
    requires SameElsewhere(s, s', ph.h)
    requires LocalOk(env, ph.h, View(s', ph.h)) && PhaseOk(env, View(s', ph.h), ph)
    requires Advances(View(s, ph.h), View(s', ph.h))
    requires View(s', ph.h) == View(s, ph.h) || OwnsRequest(s.procs, p, ph.h) ||
             View(s, ph.h).row.None? || View(s, ph.h).first.Some?
    requires Owns(ph) ==> OwnsRequest(s.procs, p, ph.h) || View(s, ph.h).row.None?
    ensures Orderly(env, s')
  {
    SameElsewhereKeepsLocals(env, s, s', ph.h);
    forall q | q in s'.procs ensures ProcOk(env, s', q) {
      if q != p {
        if View(s', ph.h) != View(s, ph.h) && OwnsRequest(s.procs, q, ph.h) {
          NoOtherOwner(env, s, p, ph.h, q);
        }
        OtherProcOk(env, s, s', ph.h, q);
      }
    }
    forall q, r, h | OwnsRequest(s'.procs, q, h) && OwnsRequest(s'.procs, r, h) ensures q == r {
      assert q != p ==> OwnsRequest(s.procs, q, h);
      assert r != p ==> OwnsRequest(s.procs, r, h);
      if q != p && r == p { NoOtherOwner(env, s, p, h, q); }
      if r != p && q == p { NoOtherOwner(env, s, p, h, r); }
    }
  }

  /** A request's view depends only on the durable parts and the calls. */
  lemma SameView(s: Sys, s': Sys)
    requires s.ledger == s'.ledger && s.cache == s'.cache && s.calls == s'.calls && s.first == s'.first
    ensures forall h :: View(s', h) == View(s, h)
  {
  }

  lemma MoveKeepsInv(env: Env, s: Sys, p: nat, ph: Phase)
    requires Inv(env, s) && (p in s.procs ==> s.procs[p].h == ph.h)
    requires PhaseOk(env, View(s, ph.h), ph)
    requires Owns(ph) ==> OwnsRequest(s.procs, p, ph.h)
    ensures Inv(env, s.(procs := s.procs[p := ph]))
  {
    var s' := s.(procs := s.procs[p := ph]);
    SameView(s, s');
    UpdateKeepsOrder(env, s, s', p, ph);
  }

  lemma CrashKeepsInv(env: Env, s: Sys, p: nat)
    requires Inv(env, s)
    ensures Inv(env, s.(procs := s.procs - {p}))
  {
    var s' := s.(procs := s.procs - {p});
    SameView(s, s');
    forall h ensures LocalOk(env, h, View(s', h)) {
      assert LocalOk(env, h, View(s, h)) && View(s', h) == View(s, h);
    }
    forall q | q in s'.procs ensures ProcOk(env, s', q) {
      assert ProcOk(env, s, q) && View(s', s.procs[q].h) == View(s, s.procs[q].h);
    }
    forall q, r, h | OwnsRequest(s'.procs, q, h) && OwnsRequest(s'.procs, r, h) ensures q == r {
      assert OwnsRequest(s.procs, q, h) && OwnsRequest(s.procs, r, h);
    }
  }

  lemma RowWritten(s: Sys, s': Sys, h: string, row: Row)
    requires s.calls == s'.calls && s.cache == s'.cache && s.first == s'.first
    requires s'.ledger.requests == s.ledger.requests[h := row]
    ensures SameElsewhere(s, s', h) && View(s', h) == View(s, h).(row := Some(row))
  {
  }

  lemma FilesWritten(s: Sys, s': Sys, h: string, file: CacheFile)
    requires s.calls == s'.calls && s.ledger == s'.ledger
    requires s'.cache == s.cache[h := file]
    requires s'.first == s.first || (h in s'.first && s'.first == s.first[h := s'.first[h]])
    ensures SameElsewhere(s, s', h)
    ensures View(s', h) == View(s, h).(file := Some(file), first := View(s', h).first)
  {
  }

  lemma CallIssued(s: Sys, s': Sys, h: string, bill: nat)
    requires s.ledger == s'.ledger && s.cache == s'.cache && s.first == s'.first
    requires s'.calls == s.calls + [Call(h, bill)]
    ensures SameElsewhere(s, s', h)
    ensures View(s', h) == View(s, h).(bills := Bills(s.calls, h) + [bill])
  {
    forall g ensures Bills(s'.calls, g) == Bills(s.calls, g) + if g == h then [bill] else [] {
      BillsAppend(s.calls, Call(h, bill), g);
    }
  }

  lemma ReservedLocal(env: Env, h: string, v: Local, token: string)
    requires LocalOk(env, h, v) && v.row.None? && ConfigOk(env.config(h))
    ensures var v' := v.(row := Some(Row(token, MaxCost(env.config(h)), None)));
            LocalOk(env, h, v') && PhaseOk(env, v', Holding(h, token)) && Advances(v, v')
  {
  }

  lemma ReserveKeepsInv(env: Env, s: Sys, p: nat, token: string)
    requires Inv(env, s) && Enabled(env, s, TakeReservation(p, token))
    ensures Inv(env, Next(env, s, TakeReservation(p, token)))
  {
    var h := s.procs[p].h;
    var max := MaxCost(env.config(h));
    assert ProcOk(env, s, p);
    if ReserveSpec(s.ledger, env.limit, h, max, token).Err? {
      MoveKeepsInv(env, s, p, Declined(h));
    } else {
      ReserveIsSound(s.ledger, env.limit, h, max, token);
      var s' := Next(env, s, TakeReservation(p, token));
      RowWritten(s, s', h, Row(token, max, None));
      ReservedLocal(env, h, View(s, h), token);
      UpdateKeepsOrder(env, s, s', p, Holding(h, token));
    }
  }

  lemma IssuedLocal(env: Env, v: Local, h: string, token: string, bill: nat)
    requires LocalOk(env, h, v) && PhaseOk(env, v, Holding(h, token))
    ensures var v' := v.(bills := [bill]);
            LocalOk(env, h, v') && PhaseOk(env, v', InFlight(h, token, bill)) && Advances(v, v')
  {
  }

  lemma IssueKeepsInv(env: Env, s: Sys, p: nat, bill: nat)
    requires Inv(env, s) && Enabled(env, s, Issue(p, bill))
    ensures Inv(env, Next(env, s, Issue(p, bill)))
  {
    var ph := s.procs[p];
    var s' := Next(env, s, Issue(p, bill));
    assert ProcOk(env, s, p);
    CallIssued(s, s', ph.h, bill);
    IssuedLocal(env, View(s, ph.h), ph.h, ph.token, bill);
    UpdateKeepsOrder(env, s, s', p, InFlight(ph.h, ph.token, bill));
  }

  lemma ReceiveKeepsInv(env: Env, s: Sys, p: nat, answer: Answer)
    requires Inv(env, s) && Enabled(env, s, Receive(p, answer))
    ensures Inv(env, Next(env, s, Receive(p, answer)))
  {
    var ph := s.procs[p];
    assert ProcOk(env, s, p);
    FirstEntryToken(ph.h, ph.token, env.config(ph.h), answer);
    MoveKeepsInv(env, s, p, Answered(ph.h, FirstEntry(ph.h, ph.token, env.config(ph.h), answer)));
  }

  lemma FirstEntryToken(h: string, token: string, c: Config, answer: Answer)
    ensures var e := FirstEntry(h, token, c, answer);
            && e.token == token && e.request == h
            && (e.actual.None? ==> e.status == Failed)
            && (e.actual.Some? ==> e.status == ResponseReceived && e.usage.Some? &&
                                   e.actual == Some(Cost(c, e.usage.value.prompt, e.usage.value.completion)))
  {
  }

  lemma FirstOkFacts(env: Env, h: string, e: Entry)
    requires FirstOk(env, h, e)
    ensures e.request == h
    ensures e.actual.None? ==> e.status == Failed
    ensures e.actual.Some? ==> e.status == ResponseReceived && e.usage.Some? &&
                               e.actual == Some(Cost(env.config(h), e.usage.value.prompt, e.usage.value.completion))
    ensures ContentOk(Seal(e), env.config(h)) && ContentOk(Seal(Finish(e)), env.config(h))
  {
    var answer :| e == FirstEntry(h, e.token, env.config(h), answer);
    FirstEntryToken(h, e.token, env.config(h), answer);
    WrittenEntriesAreValid(h, e.token, env.config(h), answer);
  }

  lemma WrittenLocal(env: Env, v: Local, h: string, e: Entry)
    requires LocalOk(env, h, v) && PhaseOk(env, v, Answered(h, e))
    ensures var v' := v.(file := Some(Seal(e)), first := Some(e));
            LocalOk(env, h, v') && PhaseOk(env, v', Settling(h, e)) && Advances(v, v')
  {
  }

  lemma WriteFirstKeepsInv(env: Env, s: Sys, p: nat)
    requires Inv(env, s) && Enabled(env, s, WriteFirst(p))
    ensures Inv(env, Next(env, s, WriteFirst(p)))
  {
    var ph := s.procs[p];
    var s' := Next(env, s, WriteFirst(p));
    assert ProcOk(env, s, p);
    FilesWritten(s, s', ph.h, Seal(ph.entry));
    WrittenLocal(env, View(s, ph.h), ph.h, ph.entry);
    UpdateKeepsOrder(env, s, s', p, Settling(ph.h, ph.entry));
  }

  /** What settling an entry of a cached request does to the ledger. */
  lemma SettleOutcome(env: Env, s: Sys, h: string, e: Entry)
    requires Inv(env, s) && h in s.first && Version(s.first[h], e) && e.actual.Some?
    ensures h in s.ledger.requests
    ensures var r := SettleSpec(s.ledger, env.limit, e.token, e.actual.value);
            var row := s.ledger.requests[h].(actual := e.actual);
            if MoneyOk(e.actual.value)
            then r == Settlement(s.ledger.(requests := s.ledger.requests[h := row]), if OverMax(row) then Some(BudgetBreach) else None)
            else r == Settlement(s.ledger, Some(InvalidMoney))
  {
    assert LocalOk(env, h, View(s, h));
    if MoneyOk(e.actual.value) {
      SettleTouchesOneRow(s.ledger, env.limit, e.token, e.actual.value, h);
    }
  }

  lemma SettledLocal(env: Env, h: string, v: Local, row: Row)
    requires LocalOk(env, h, v) && v.first.Some? && v.first.value.actual.Some? && MoneyOk(v.first.value.actual.value)
    requires v.row.Some? && row == v.row.value.(actual := v.first.value.actual)
    ensures var v' := v.(row := Some(row));
            LocalOk(env, h, v') && Settled(v') && Advances(v, v')
  {
  }

  lemma SettleKeepsInv(env: Env, s: Sys, p: nat)
    requires Inv(env, s) && Enabled(env, s, SettleUsage(p))
    ensures Inv(env, Next(env, s, SettleUsage(p)))
  {
    var h, e := s.procs[p].h, s.procs[p].entry;
    assert ProcOk(env, s, p) && LocalOk(env, h, View(s, h));
    FirstOkFacts(env, h, s.first[h]);
    if e.actual.None? {
      MoveKeepsInv(env, s, p, Done(h, e));
    } else {
      SettleOutcome(env, s, h, e);
      if !MoneyOk(e.actual.value) {
        MoveKeepsInv(env, s, p, Stopped(h));
      } else {
        SettleSomeKeepsInv(env, s, p, h, e);
      }
    }
  }

  lemma SettleSomeKeepsInv(env: Env, s: Sys, p: nat, h: string, e: Entry)
    requires Inv(env, s) && p in s.procs && s.procs[p] == Settling(h, e)
    requires e.actual.Some? && MoneyOk(e.actual.value)
    ensures Inv(env, Next(env, s, SettleUsage(p)))
  {
    var row, next := SettleStep(env, s, p, h, e);
    assert ProcOk(env, s, p) && LocalOk(env, h, View(s, h));
    var s' := Next(env, s, SettleUsage(p));
    RowWritten(s, s', h, row);
    SettledLocal(env, h, View(s, h), row);
    SettledPhase(env, h, View(s, h), row, e);
    UpdateKeepsOrder(env, s, s', p, next);
  }

  /** What a settlement that reaches the ledger writes, and where it leaves its process. */
  lemma SettleStep(env: Env, s: Sys, p: nat, h: string, e: Entry) returns (row: Row, next: Phase)
    requires Inv(env, s) && p in s.procs && s.procs[p] == Settling(h, e)
    requires e.actual.Some? && MoneyOk(e.actual.value)
    ensures h in s.ledger.requests && row == s.ledger.requests[h].(actual := e.actual)
    ensures next == if OverMax(row) then Stopped(h) else if e.status == ResponseReceived then Finishing(h, e) else Done(h, e)
    ensures Next(env, s, SettleUsage(p)) == s.(ledger := s.ledger.(requests := s.ledger.requests[h := row]), procs := s.procs[p := next])
    ensures Sound(Next(env, s, SettleUsage(p)).ledger, env.limit)
  {
    assert ProcOk(env, s, p);
    SettleOutcome(env, s, h, e);
    SettleIsSound(s.ledger, env.limit, e.token, e.actual.value);
    row := s.ledger.requests[h].(actual := e.actual);
    next := Next(env, s, SettleUsage(p)).procs[p];
  }

  /** A settled version of the answer is either waiting for its final write or already final. */
  lemma SettledPhase(env: Env, h: string, v: Local, row: Row, e: Entry)
    requires LocalOk(env, h, v) && Current(v, e) && e.actual.Some?
    requires v.row.Some? && row == v.row.value.(actual := v.first.value.actual)
    ensures var v' := v.(row := Some(row));
            PhaseOk(env, v', if e.status == ResponseReceived then Finishing(h, e) else Done(h, e))
  {
    FirstOkFacts(env, h, v.first.value);
  }

  lemma FinishedLocal(env: Env, h: string, v: Local)
    requires LocalOk(env, h, v) && Settled(v)
    ensures var v' := v.(file := Some(Seal(Finish(v.first.value))));
            LocalOk(env, h, v') && PhaseOk(env, v', Done(h, Finish(v.first.value))) && Advances(v, v')
  {
  }

  lemma WriteFinalKeepsInv(env: Env, s: Sys, p: nat)
    requires Inv(env, s) && Enabled(env, s, WriteFinal(p))
    ensures Inv(env, Next(env, s, WriteFinal(p)))
  {
    var ph := s.procs[p];
    var s' := Next(env, s, WriteFinal(p));
    assert ProcOk(env, s, p);
    FilesWritten(s, s', ph.h, Seal(Finish(ph.entry)));
    FinishedLocal(env, ph.h, View(s, ph.h));
    UpdateKeepsOrder(env, s, s', p, Done(ph.h, Finish(ph.entry)));
  }

  lemma ReadStepKeepsInv(env: Env, s: Sys, a: Action)
    requires Inv(env, s) && Enabled(env, s, a) && (a.Start? || a.Load?)
    ensures Inv(env, Next(env, s, a))
  {
    var h := if a.Start? then a.h else s.procs[a.p].h;
    assert LocalOk(env, h, View(s, h));
    MoveKeepsInv(env, s, a.p, Next(env, s, a).procs[a.p]);
  }

  lemma ValidateKeepsInv(env: Env, s: Sys, p: nat)
    requires Inv(env, s) && Enabled(env, s, Validate(p))
    ensures Inv(env, Next(env, s, Validate(p)))
  {
    var ph := s.procs[p];
    assert ProcOk(env, s, p);
    var next := Next(env, s, Validate(p)).procs[p];
    assert next == Settling(ph.h, ph.file.entry) || next == Stopped(ph.h);
    MoveKeepsInv(env, s, p, next);
  }

  lemma StepKeepsInv(env: Env, s: Sys, a: Action)
    requires Inv(env, s) && Enabled(env, s, a)
    ensures Inv(env, Next(env, s, a))
  {
    match a
    case Start(_, _) => ReadStepKeepsInv(env, s, a);
    case Load(_) => ReadStepKeepsInv(env, s, a);
    case Validate(p) => ValidateKeepsInv(env, s, p);
    case TakeReservation(p, token) => ReserveKeepsInv(env, s, p, token);
    case Issue(p, bill) => IssueKeepsInv(env, s, p, bill);
    case Receive(p, answer) => ReceiveKeepsInv(env, s, p, answer);
    case WriteFirst(p) => WriteFirstKeepsInv(env, s, p);
    case SettleUsage(p) => SettleKeepsInv(env, s, p);
    case WriteFinal(p) => WriteFinalKeepsInv(env, s, p);
    case Crash(p) => CrashKeepsInv(env, s, p);
  }

  lemma {:induction false} RunKeepsInv(env: Env, s: Sys, run: seq<Action>)
    requires Inv(env, s) && Allowed(env, s, run)
    ensures Inv(env, After(env, s, run))
    decreases |run|
  {
    if run != [] {
      StepKeepsInv(env, s, run[0]);
      RunKeepsInv(env, Next(env, s, run[0]), run[1..]);
    }
  }

  lemma InitialInv(env: Env, limit: Amount)
    requires MoneyOk(limit) && Units(limit) == env.limit
    ensures Inv(env, Initial(limit))
  {
    EmptyIsSound(limit);
  }
}
