/** Which bills a provider may send, call by call, without all of them together ever exceeding the limit. */
module PaidPolicy {
  import opened Prelude
  import opened Sums
  import opened Division
  import opened Budget
  import opened PaidEntries
  import opened PaidProtocol
  import opened PaidInvariant
  import opened PaidCall
  import opened PaidClient

  /** What the accepted usage of an answer costs; nothing is reported by a failure or a refused answer. */
  function Reported(c: Config, answer: Answer): Option<Amount> {
    match answer
    case Raised(_) => None
    case Returned(r) =>
      match ParseResponse(r, c.model, c.tier)
      case None => None
      case Some(p) => Some(Cost(c, p.usage.prompt, p.usage.completion))
  }

  lemma FirstReports(h: string, token: string, c: Config, answer: Answer)
    ensures FirstEntry(h, token, c, answer).actual == Reported(c, answer)
    ensures FirstEntry(h, token, c, answer).token == token
  {
  }

  /** The smaller of the reported cost and the reservation; the whole reservation if no usable cost is reported. */
  function Counted(c: Config, answer: Answer): nat {
    var max := Units(MaxCost(c));
    match Reported(c, answer)
    case None => max
    case Some(actual) => if MoneyOk(actual) && Units(actual) < max then Units(actual) else max
  }

  predicate Covered(c: Config, answer: Answer, bill: nat) {
    bill <= Counted(c, answer)
  }

  /** Which bills a provider sends beside which answers. */
  type Policy = (Config, Answer, nat) -> bool

  ghost predicate CallObeys(env: Env, policy: Policy, s: Sys, call: Call) {
    exists answer :: AnsweredBy(env, s, call, answer) && policy(env.config(call.h), answer, call.bill)
  }

  /** The answer may have been this one: nothing was written for the call, or what follows from the answer. */
  ghost predicate AnsweredBy(env: Env, s: Sys, call: Call, answer: Answer) {
    call.h in s.first ==> s.first[call.h] == FirstEntry(call.h, s.first[call.h].token, env.config(call.h), answer)
  }

  ghost predicate Obeys(env: Env, policy: Policy, s: Sys) {
    forall call :: call in s.calls ==> CallObeys(env, policy, s, call)
  }

  // ------------------------------------------------------------------------------- it is enough

  lemma {:induction false} CallIsBilled(calls: seq<Call>, call: Call)
    requires call in calls
    ensures call.bill in Bills(calls, call.h)
  {
    if calls[0] != call { CallIsBilled(calls[1..], call); }
  }

  /** A covered bill is within what the ledger counts for its request, settled or not. */
  lemma CoveredWithinRow(env: Env, s: Sys, call: Call, answer: Answer)
    requires Inv(env, s) && Bills(s.calls, call.h) == [call.bill] && AnsweredBy(env, s, call, answer)
    requires Covered(env.config(call.h), answer, call.bill)
    ensures call.h in s.ledger.requests && call.bill <= Cell(Capped, s.ledger.requests[call.h])
  {
    var h := call.h;
    assert LocalOk(env, h, View(s, h));
    assert RowOk(s.ledger.requests[h]);
    if s.ledger.requests[h].actual.Some? {
      FirstReports(h, s.first[h].token, env.config(h), answer);
    }
  }

  lemma ObeyingStaysWithin(env: Env, policy: Policy, s: Sys)
    requires Reachable(env, s) && Obeys(env, policy, s)
    requires forall h, answer, bill {:trigger policy(env.config(h), answer, bill)} ::
               ConfigOk(env.config(h)) && policy(env.config(h), answer, bill) ==> Covered(env.config(h), answer, bill)
    ensures Billed(s.calls) <= env.limit
  {
    ReachableInv(env, s);
    forall call | call in s.calls ensures call.h in s.ledger.requests && call.bill <= Cell(Capped, s.ledger.requests[call.h]) {
      CallIsBilled(s.calls, call);
      assert LocalOk(env, call.h, View(s, call.h));
      assert CallObeys(env, policy, s, call);
      var answer :| AnsweredBy(env, s, call, answer) && policy(env.config(call.h), answer, call.bill);
      CoveredWithinRow(env, s, call, answer);
    }
    CoveredBillsStayWithin(env, s);
  }

  // ------------------------------------------------------------------------------- and necessary

  /** A ledger no reservation of which is outstanding or overrun, with this much spent. */
  ghost predicate Used(l: Ledger, limit: nat, amount: nat) {
    Sound(l, limit) && !Breached(l.requests) && Committed(l) == amount
  }

  predicate Fits(max: Amount, actual: Option<Amount>) {
    actual.Some? && MoneyOk(actual.value) && Units(actual.value) <= Units(max)
  }

  /** The answer reports a cost inside the reservation, so its settlement goes through. */
  predicate Settles(c: Config, answer: Answer) {
    Fits(MaxCost(c), Reported(c, answer))
  }

  lemma CommitsMore(l: Ledger, amount: nat, h: string, row: Row)
    requires Committed(l) == amount && !Breached(l.requests) && h !in l.requests && row.actual.Some? && !OverMax(row)
    ensures Committed(l.(requests := l.requests[h := row])) == amount + Units(row.actual.value)
    ensures !Breached(l.requests[h := row])
  {
    TotalPut(Spent, l.requests, h, row);
    TotalPut(Reserved, l.requests, h, row);
    BreachedPut(l.requests, h, row);
  }

  lemma SettleReserved(l: Ledger, limit: nat, h: string, max: Amount, token: string, actual: Amount)
    requires h !in l.requests && MoneyOk(actual)
    requires Sound(l.(requests := l.requests[h := Row(token, max, None)]), limit)
    ensures var l1 := l.(requests := l.requests[h := Row(token, max, None)]);
            var row := Row(token, max, Some(actual));
            var l2 := l.(requests := l.requests[h := row]);
            SettleSpec(l1, limit, token, actual) == Settlement(l2, if OverMax(row) then Some(BudgetBreach) else None) && Sound(l2, limit)
  {
    var l1 := l.(requests := l.requests[h := Row(token, max, None)]);
    var row := Row(token, max, Some(actual));
    SettleTouchesOneRow(l1, limit, token, actual, h);
    assert l1.requests[h := row] == l.requests[h := row];
    SettleIsSound(l1, limit, token, actual);
  }

  /** A request that can still be made: nobody has reserved, cached or named anything of it, and its maximum fits. */
  ghost predicate Open(env: Env, l: Ledger, cache: map<string, CacheFile>, h: string, token: string, amount: nat) {
    && Used(l, env.limit, amount) && FreshToken(l, token) && !Blank(h) && h !in l.requests && h !in cache
    && ConfigOk(env.config(h)) && MoneyOk(MaxCost(env.config(h))) && amount + Units(MaxCost(env.config(h))) <= env.limit
  }

  lemma OpenReserves(env: Env, l: Ledger, cache: map<string, CacheFile>, h: string, token: string, answer: Answer, amount: nat)
    requires Open(env, l, cache, h, token, amount)
    ensures var c := env.config(h);
            var l1 := l.(requests := l.requests[h := Row(token, MaxCost(c), None)]);
            var e := FirstEntry(h, token, c, answer);
            && Sound(l1, env.limit)
            && CompleteSpec(env, l, cache, h, token, answer) ==
                 SettleResponseSpec(env.limit, l1, cache[h := Seal(e)], true, h, e)
  {
    ReserveIsSound(l, env.limit, h, MaxCost(env.config(h)), token);
  }

  /** The ledger gains one row, under this token, for this request. */
  ghost predicate OneRowMore(l: Ledger, l': Ledger, h: string, token: string) {
    exists row: Row :: row.token == token && l'.requests == l.requests[h := row]
  }

  /** The row a fresh reservation is left with: a usable reported cost is recorded, even one over the maximum. */
  function RowAfter(max: Amount, e: Entry): Row {
    Row(e.token, max, if e.actual.Some? && MoneyOk(e.actual.value) then e.actual else None)
  }

  lemma SettlesReservation(limit: nat, l: Ledger, cache: map<string, CacheFile>, h: string, max: Amount, e: Entry)
    requires h !in l.requests && h in cache && Sound(l.(requests := l.requests[h := Row(e.token, max, None)]), limit)
    ensures var r := SettleResponseSpec(limit, l.(requests := l.requests[h := Row(e.token, max, None)]), cache, true, h, e);
            && r.called && r.cache.Keys == cache.Keys && r.ledger == l.(requests := l.requests[h := RowAfter(max, e)])
            && Sound(r.ledger, limit)
            && (e.actual.Some? && MoneyOk(e.actual.value) && !OverMax(RowAfter(max, e)) ==> r.returned.Gave?)
  {
    var l1 := l.(requests := l.requests[h := Row(e.token, max, None)]);
    if e.actual.Some? {
      if MoneyOk(e.actual.value) {
        SettleReserved(l, limit, h, max, e.token, e.actual.value);
      } else {
        assert SettleSpec(l1, limit, e.token, e.actual.value) == Settlement(l1, Some(InvalidMoney));
      }
    }
    KeysStay(cache, h, Seal(Finish(e)));
  }

  lemma KeysStay(cache: map<string, CacheFile>, h: string, file: CacheFile)
    requires h in cache
    ensures cache[h := file].Keys == cache.Keys
  {
  }

  lemma SettlesAndCommits(limit: nat, l: Ledger, cache: map<string, CacheFile>, h: string, max: Amount, e: Entry, amount: nat)
    requires h !in l.requests && h in cache && Sound(l.(requests := l.requests[h := Row(e.token, max, None)]), limit)
    requires Committed(l) == amount && !Breached(l.requests)
    ensures var r := SettleResponseSpec(limit, l.(requests := l.requests[h := Row(e.token, max, None)]), cache, true, h, e);
            && r.called && r.cache.Keys == cache.Keys && OneRowMore(l, r.ledger, h, e.token)
            && (Fits(max, e.actual) ==> r.returned.Gave? && Used(r.ledger, limit, amount + Units(e.actual.value)))
  {
    SettlesReservation(limit, l, cache, h, max, e);
    var row := RowAfter(max, e);
    assert row.token == e.token;
    if Fits(max, e.actual) { CommitsMore(l, amount, h, row); }
  }

  /** A call commits exactly the cost it reports: what is left of its reservation can be reserved again. */
  lemma CallCommitsItsUsage(env: Env, l: Ledger, cache: map<string, CacheFile>, h: string, token: string, answer: Answer, amount: nat)
    requires Open(env, l, cache, h, token, amount)
    ensures var r := CompleteSpec(env, l, cache, h, token, answer);
            && r.called && r.cache.Keys == cache.Keys + {h} && OneRowMore(l, r.ledger, h, token)
            && (Settles(env.config(h), answer) ==>
                  r.returned.Gave? && Used(r.ledger, env.limit, amount + Units(Reported(env.config(h), answer).value)))
  {
    var c := env.config(h);
    var e := FirstEntry(h, token, c, answer);
    FirstReports(h, token, c, answer);
    OpenReserves(env, l, cache, h, token, answer, amount);
    SettlesAndCommits(env.limit, l, cache[h := Seal(e)], h, MaxCost(c), e, amount);
    KeyAdded(cache, h, Seal(e));
  }

  /**
   * What a whole first call gives back and leaves on disk, in terms of what the provider sent: completed exactly if
   * the answer counts, stopped, and its cost is inside the reservation.
   */
  lemma FirstCallMeans(env: Env, l: Ledger, cache: map<string, CacheFile>, h: string, token: string, answer: Answer, amount: nat)
    requires Open(env, l, cache, h, token, amount)
    ensures var r := CompleteSpec(env, l, cache, h, token, answer);
            var first := FirstEntry(h, token, env.config(h), answer);
            && r.called
            && (r.returned.Gave? <==> first.actual.None? || Settles(env.config(h), answer))
            && (r.returned.Gave? ==> IsFinal(first, r.returned.entry) && r.cache == cache[h := CacheFile(r.returned.entry, r.returned.entry)])
            && (r.returned.Gave? && r.returned.entry.status == Completed <==>
                  && answer.Returned? && Accepted(env.config(h), answer.response)
                  && answer.response.choices[0].finish == Some("stop") && Settles(env.config(h), answer))
            && (!r.returned.Gave? ==> r.returned == Threw && r.cache == cache[h := CacheFile(first, first)])
  {
    var c := env.config(h);
    var e := FirstEntry(h, token, c, answer);
    FirstReports(h, token, c, answer);
    FirstEntrySays(h, token, c, answer);
    FinishIsFinal(h, token, c, answer);
    OpenReserves(env, l, cache, h, token, answer, amount);
    FirstSettlement(env.limit, l, cache[h := Seal(e)], h, MaxCost(c), e);
    SealedTwice(cache, h, e, Finish(e));
  }

  lemma SealedTwice(cache: map<string, CacheFile>, h: string, a: Entry, b: Entry)
    ensures cache[h := Seal(a)][h := Seal(b)] == cache[h := Seal(b)]
  {
  }

  lemma FirstSettlement(limit: nat, l: Ledger, cache: map<string, CacheFile>, h: string, max: Amount, e: Entry)
    requires h !in l.requests && Sound(l.(requests := l.requests[h := Row(e.token, max, None)]), limit)
    requires e.actual.None? <==> e.status == Failed
    requires e.status != Failed ==> e.status == ResponseReceived
    ensures var r := SettleResponseSpec(limit, l.(requests := l.requests[h := Row(e.token, max, None)]), cache, true, h, e);
            && r.called
            && (e.actual.None? ==> r.returned == Gave(e) && r.cache == cache)
            && (e.actual.Some? && Fits(max, e.actual) ==> r.returned == Gave(Finish(e)) && r.cache == cache[h := Seal(Finish(e))])
            && (e.actual.Some? && !Fits(max, e.actual) ==> r.returned == Threw && r.cache == cache)
  {
    if e.actual.Some? && MoneyOk(e.actual.value) { SettleReserved(l, limit, h, max, e.token, e.actual.value); }
  }

  lemma KeyAdded(cache: map<string, CacheFile>, h: string, file: CacheFile)
    ensures h in cache[h := file] && cache[h := file].Keys == cache.Keys + {h}
  {
  }

  /** Request hashes and tokens for as many calls as it takes. */
  function Name(i: nat): (r: string)
    ensures |r| == i + 1 && r[0] == 'x'
  {
    if i == 0 then ['x'] else Name(i - 1) + ['x']
  }

  /** The names from this one on are unused, and so are the processes. */
  ghost predicate Unused(s: Sys, m: nat) {
    forall i: nat {:trigger Name(i)} :: i >= m ==>
      i !in s.procs && Name(i) !in s.ledger.requests && Name(i) !in s.cache && FreshToken(s.ledger, Name(i))
  }

  ghost predicate RepliedTo(env: Env, s: Sys, call: Call, answer: Answer) {
    call.h in s.first && AnsweredBy(env, s, call, answer)
  }

  /** `m` calls were made, each with this answer and this bill. */
  ghost predicate Repeated(env: Env, answer: Answer, bill: nat, s: Sys, m: nat) {
    && Reachable(env, s) && Unused(s, m) && |s.calls| == m
    && forall call :: call in s.calls ==> call.bill == bill && RepliedTo(env, s, call, answer) && ShortName(call.h, m)
  }

  predicate ShortName(h: string, m: nat) { |h| <= m }

  lemma {:induction false} RunConcat(env: Env, s: Sys, a: seq<Action>, b: seq<Action>)
    requires Allowed(env, s, a) && Allowed(env, After(env, s, a), b)
    ensures Allowed(env, s, a + b) && After(env, s, a + b) == After(env, After(env, s, a), b)
    decreases |a|
  {
    if a == [] {
      assert a + b == b;
    } else {
      RunConcat(env, Next(env, s, a[0]), a[1..], b);
      Prepend(env, s, a[0], a[1..] + b);
      assert a + b == [a[0]] + (a[1..] + b);
    }
  }

  lemma ReachFurther(env: Env, s: Sys, run: seq<Action>)
    requires Reachable(env, s) && Allowed(env, s, run)
    ensures Reachable(env, After(env, s, run))
  {
    var limit, before :| ReachedFrom(env, limit, before, s);
    RunConcat(env, Initial(limit), before, run);
    assert ReachedFrom(env, limit, before + run, After(env, s, run));
  }

  lemma OneMoreCall(env: Env, answer: Answer, bill: nat, s: Sys, m: nat, amount: nat) returns (s': Sys)
    requires Repeated(env, answer, bill, s, m) && Open(env, s.ledger, s.cache, Name(m), Name(m), amount)
    ensures Repeated(env, answer, bill, s', m + 1)
    ensures Settles(env.config(Name(m)), answer) ==>
              Used(s'.ledger, env.limit, amount + Units(Reported(env.config(Name(m)), answer).value))
  {
    var h := Name(m);
    var reply := Reply(h, answer, bill);
    CallCommitsItsUsage(env, s.ledger, s.cache, h, h, answer, amount);
    assert Name(m) == h;
    var run := CompleteIsARun(env, s, m, h, reply);
    s' := After(env, s, run);
    ReachFurther(env, s, run);
    var r := Invocation(env, s, h, reply);
    UnusedAfter(env, s, s', m, r, reply);
    RepliesAfter(env, s, s', m, r, reply);
  }

  lemma UnusedAfter(env: Env, s: Sys, s': Sys, m: nat, r: Outcome, reply: Reply)
    requires Unused(s, m) && RanAs(env, s, s', m, Name(m), r, reply)
    requires r.cache.Keys == s.cache.Keys + {Name(m)} && OneRowMore(s.ledger, r.ledger, Name(m), Name(m))
    ensures Unused(s', m + 1)
  {
    forall i: nat {:trigger Name(i)} | i >= m + 1
      ensures i !in s'.procs && Name(i) !in s'.ledger.requests && Name(i) !in s'.cache && FreshToken(s'.ledger, Name(i))
    {
      assert |Name(i)| != |Name(m)|;
      StillUnused(s, s', Name(m), Name(i));
      assert i !in s.procs;
    }
  }

  lemma StillUnused(s: Sys, s': Sys, used: string, name: string)
    requires name != used && name !in s.ledger.requests && name !in s.cache && FreshToken(s.ledger, name)
    requires OneRowMore(s.ledger, s'.ledger, used, used) && s'.cache.Keys == s.cache.Keys + {used}
    ensures name !in s'.ledger.requests && name !in s'.cache && FreshToken(s'.ledger, name)
  {
    var row: Row :| row.token == used && s'.ledger.requests == s.ledger.requests[used := row];
    assert name !in s'.cache.Keys;
  }

  lemma RepliesAfter(env: Env, s: Sys, s': Sys, m: nat, r: Outcome, reply: Reply)
    requires RanAs(env, s, s', m, Name(m), r, reply) && r.called
    requires forall call :: call in s.calls ==>
               call.bill == reply.bill && RepliedTo(env, s, call, reply.answer) && ShortName(call.h, m)
    ensures forall call :: call in s'.calls ==>
              call.bill == reply.bill && RepliedTo(env, s', call, reply.answer) && ShortName(call.h, m + 1)
  {
    FirstReports(Name(m), reply.token, env.config(Name(m)), reply.answer);
    forall call | call in s'.calls
      ensures call.bill == reply.bill && RepliedTo(env, s', call, reply.answer) && ShortName(call.h, m + 1)
    {
      if call in s.calls {
        assert call.h != Name(m) && RepliedTo(env, s, call, reply.answer);
      } else {
        assert call == Call(Name(m), reply.bill);
      }
    }
  }

  lemma UnusedAtFirst(env: Env, limit: Amount, answer: Answer, bill: nat)
    requires MoneyOk(limit) && Units(limit) == env.limit
    ensures Repeated(env, answer, bill, Initial(limit), 0) && Used(Initial(limit).ledger, env.limit, 0)
  {
    EmptyIsSound(limit);
    AllZero(Cells(Spent, map[]));
    AllZero(Cells(Reserved, map[]));
    assert ReachedFrom(env, limit, [], Initial(limit));
    forall i: nat ensures FreshToken(Initial(limit).ledger, Name(i)) { assert |Name(i)| > 0; }
  }

  ghost predicate Same(env: Env, c: Config) {
    ConfigOk(c) && MoneyOk(MaxCost(c)) && forall h :: env.config(h) == c
  }

  lemma NameIsNotBlank(i: nat)
    ensures !Blank(Name(i))
  {
    assert !IsSpace(Name(i)[0]);
  }

  lemma NextIsOpen(env: Env, c: Config, answer: Answer, bill: nat, s: Sys, m: nat, amount: nat)
    requires Same(env, c) && Repeated(env, answer, bill, s, m) && Used(s.ledger, env.limit, amount)
    requires amount + Units(MaxCost(c)) <= env.limit
    ensures Open(env, s.ledger, s.cache, Name(m), Name(m), amount)
  {
    NameIsNotBlank(m);
  }

  lemma OneMoreSettled(env: Env, c: Config, answer: Answer, bill: nat, before: Sys, m: nat, amount: nat, after: nat) returns (s: Sys)
    requires Same(env, c) && Repeated(env, answer, bill, before, m) && Used(before.ledger, env.limit, amount)
    requires Settles(c, answer) && amount + Units(MaxCost(c)) <= env.limit && after == amount + Units(Reported(c, answer).value)
    ensures Repeated(env, answer, bill, s, m + 1) && Used(s.ledger, env.limit, after)
  {
    NextIsOpen(env, c, answer, bill, before, m, amount);
    s := OneMoreCall(env, answer, bill, before, m, amount);
  }

  lemma TimesStep(n: nat, k: nat)
    requires n > 0
    ensures (n - 1) * k <= n * k && (n - 1) * k + k == n * k
  {
  }

  /** Calls that settle for `k` each can be repeated as long as the last one's reservation still fits. */
  lemma {:induction false} RepeatCalls(env: Env, c: Config, limit: Amount, answer: Answer, bill: nat, n: nat, k: nat) returns (s: Sys)
    requires Same(env, c) && MoneyOk(limit) && Units(limit) == env.limit
    requires Settles(c, answer) && k == Units(Reported(c, answer).value) && n * k + Units(MaxCost(c)) <= env.limit
    ensures Repeated(env, answer, bill, s, n) && Used(s.ledger, env.limit, n * k)
    decreases n
  {
    if n == 0 {
      s := Initial(limit);
      UnusedAtFirst(env, limit, answer, bill);
    } else {
      TimesStep(n, k);
      var before := RepeatCalls(env, c, limit, answer, bill, n - 1, k);
      s := OneMoreSettled(env, c, answer, bill, before, n - 1, (n - 1) * k, n * k);
    }
  }

  lemma {:induction false} BilledTimes(calls: seq<Call>, bill: nat)
    requires forall call :: call in calls ==> call.bill == bill
    ensures Billed(calls) == |calls| * bill
  {
    if calls != [] {
      BilledTimes(calls[1..], bill);
      assert (|calls| - 1) * bill + bill == |calls| * bill;
    }
  }

  /** How many settled calls to make before the one that no longer fits beside them. */
  function Before(c: Config, answer: Answer, bill: nat): nat {
    var max := Units(MaxCost(c));
    if bill <= max && Counted(c, answer) < bill then (max - Counted(c, answer)) / (bill - Counted(c, answer)) else 0
  }

  /** The limit those calls will exceed. */
  function Exceeded(c: Config, answer: Answer, bill: nat): nat {
    Before(c, answer, bill) * Counted(c, answer) + Units(MaxCost(c))
  }

  lemma OneTooMany(max: nat, k: nat, bill: nat)
    requires k < bill <= max
    ensures ((max - k) / (bill - k) + 1) * bill > (max - k) / (bill - k) * k + max
  {
    var d, q, r := bill - k, (max - k) / (bill - k), (max - k) % (bill - k);
    assert max - k == d * q + r && r < d;
    assert (q + 1) * bill == q * bill + bill;
    assert q * bill == q * k + q * d by { assert bill == k + d; }
    assert q * d == d * q;
  }

  lemma CountedIsReported(c: Config, answer: Answer)
    requires Counted(c, answer) < Units(MaxCost(c))
    ensures Settles(c, answer) && Counted(c, answer) == Units(Reported(c, answer).value)
  {
  }

  /** One call more than fits beside the settled ones is billed past the limit. */
  lemma LastCall(env: Env, c: Config, answer: Answer, bill: nat, before: Sys, n: nat, amount: nat) returns (s: Sys)
    requires Same(env, c) && Repeated(env, answer, bill, before, n) && Used(before.ledger, env.limit, amount)
    requires amount + Units(MaxCost(c)) <= env.limit < (n + 1) * bill
    ensures Reachable(env, s) && Billed(s.calls) > env.limit
    ensures forall call :: call in s.calls ==> call.bill == bill && RepliedTo(env, s, call, answer)
  {
    NextIsOpen(env, c, answer, bill, before, n, amount);
    s := OneMoreCall(env, answer, bill, before, n, amount);
    BilledTimes(s.calls, bill);
  }

  lemma EscapesAt(env: Env, c: Config, answer: Answer, bill: nat, limit: Amount, n: nat, k: nat) returns (s: Sys)
    requires Same(env, c) && MoneyOk(limit) && Units(limit) == env.limit
    requires n == 0 || (Settles(c, answer) && k == Units(Reported(c, answer).value))
    requires n * k + Units(MaxCost(c)) <= env.limit < (n + 1) * bill
    ensures Reachable(env, s) && Billed(s.calls) > env.limit
    ensures forall call :: call in s.calls ==> call.bill == bill && RepliedTo(env, s, call, answer)
  {
    var before;
    if n == 0 {
      before := Initial(limit);
      UnusedAtFirst(env, limit, answer, bill);
    } else {
      before := RepeatCalls(env, c, limit, answer, bill, n, k);
    }
    s := LastCall(env, c, answer, bill, before, n, n * k);
  }

  lemma ExceededByBills(c: Config, answer: Answer, bill: nat)
    requires !Covered(c, answer, bill)
    ensures var n := Before(c, answer, bill); Exceeded(c, answer, bill) < (n + 1) * bill
  {
    var k, max := Counted(c, answer), Units(MaxCost(c));
    if bill <= max { OneTooMany(max, k, bill); }
  }

  /** A bill that is not covered, sent again and again, exceeds a limit that every single reservation respected. */
  lemma UncoveredEscapes(c: Config, answer: Answer, bill: nat) returns (env: Env, s: Sys)
    requires ConfigOk(c) && MoneyOk(MaxCost(c)) && !Covered(c, answer, bill) && Exceeded(c, answer, bill) < TEN_TO_THE_28
    ensures Same(env, c) && env.limit == Exceeded(c, answer, bill)
    ensures Reachable(env, s) && Billed(s.calls) > env.limit
    ensures forall call :: call in s.calls ==> call.bill == bill && RepliedTo(env, s, call, answer)
  {
    var limit := Decimal(Exceeded(c, answer, bill), -12);
    env := Env(Units(limit), (h: string) => c);
    var n := Before(c, answer, bill);
    if n > 0 { CountedIsReported(c, answer); }
    ExceededByBills(c, answer, bill);
    s := EscapesAt(env, c, answer, bill, limit, n, Counted(c, answer));
  }

  // ------------------------------------------------------------------------------- exactly then

  const TEN_TO_THE_14 := 1_0000000_0000000

  /** An accepted configuration whose reservation is below a hundred dollars. */
  predicate Affordable(c: Config) {
    ConfigOk(c) && MaxCost(c).coefficient < TEN_TO_THE_14
  }

  lemma SmallLimit(c: Config, answer: Answer, bill: nat)
    requires Affordable(c) && !Covered(c, answer, bill)
    ensures MoneyOk(MaxCost(c)) && Exceeded(c, answer, bill) < TEN_TO_THE_28
  {
    var max, k := Units(MaxCost(c)), Counted(c, answer);
    if bill <= max {
      var q := (max - k) / (bill - k);
      QuotientAtMost(max - k, bill - k);
      ProductBelow(q, k, max);
    }
  }

  lemma ProductBelow(q: nat, k: nat, max: nat)
    requires q + k <= max < TEN_TO_THE_14
    ensures q * k + max < TEN_TO_THE_28
  {
    assert q * k <= max * k by { assert (max - q) * k >= 0; }
    assert max * k <= TEN_TO_THE_14 * k by { assert (TEN_TO_THE_14 - max) * k >= 0; }
  }

  ghost predicate OnlyAffordable(env: Env) {
    forall h :: ConfigOk(env.config(h)) ==> Affordable(env.config(h))
  }

  ghost predicate KeepsLimits(policy: Policy) {
    forall env, s :: OnlyAffordable(env) && Reachable(env, s) && Obeys(env, policy, s) ==> Billed(s.calls) <= env.limit
  }

  ghost predicate BillsCovered(policy: Policy) {
    forall c, answer, bill :: Affordable(c) && policy(c, answer, bill) ==> Covered(c, answer, bill)
  }

  /**
   * No run of any processes under any limit is ever billed more than the limit exactly when the provider
   * bills no call more than its reservation, nor more than the usage it reports beside it.
   */
  lemma PolicyKeepsLimitsIff(policy: Policy)
    ensures KeepsLimits(policy) <==> BillsCovered(policy)
  {
    if BillsCovered(policy) {
      forall env, s | OnlyAffordable(env) && Reachable(env, s) && Obeys(env, policy, s) ensures Billed(s.calls) <= env.limit {
        ObeyingStaysWithin(env, policy, s);
      }
    } else {
      var c, answer, bill :| Affordable(c) && policy(c, answer, bill) && !Covered(c, answer, bill);
      SmallLimit(c, answer, bill);
      var env, s := UncoveredEscapes(c, answer, bill);
      RepeatedObeys(env, policy, s, c, answer, bill);
    }
  }

  lemma RepeatedObeys(env: Env, policy: Policy, s: Sys, c: Config, answer: Answer, bill: nat)
    requires Same(env, c) && policy(c, answer, bill)
    requires forall call :: call in s.calls ==> call.bill == bill && RepliedTo(env, s, call, answer)
    ensures Obeys(env, policy, s)
  {
    forall call | call in s.calls ensures CallObeys(env, policy, s, call) {
      assert AnsweredBy(env, s, call, answer);
    }
  }

  /** The smallest configuration the floor accepts: 1047576 tokens in, one token out, 2 and 8 dollars a million. */
  const FLOOR_CONFIG := Config(TRUSTED_MODEL, None, 1047576, 1, 2000000, 8000000)

  /** Some text, and no tokens at all. */
  function NothingUsed(text: string): Answer {
    Returned(Response(Some(TRUSTED_MODEL), None, Some(0), Some(0), Some(0), [Choice(Some(text), Some(['s', 't', 'o', 'p']))]))
  }

  /**
   * Bills inside their reservations can still exceed the limit: a provider that bills a call in full
   * but reports no usage gets the reservation back, and it can be reserved again.
   */
  lemma UnderstatedUsageEscapes(text: string) returns (env: Env, s: Sys)
    requires !Blank(text)
    ensures Affordable(FLOOR_CONFIG) && Same(env, FLOOR_CONFIG) && env.limit == Units(MaxCost(FLOOR_CONFIG))
    ensures Reachable(env, s) && Billed(s.calls) > env.limit
    ensures forall call :: call in s.calls ==> call.bill == Units(MaxCost(FLOOR_CONFIG))
  {
    var c, answer := FLOOR_CONFIG, NothingUsed(text);
    NothingIsCounted(text);
    SmallLimit(c, answer, Units(MaxCost(c)));
    env, s := UncoveredEscapes(c, answer, Units(MaxCost(c)));
  }

  lemma FloorCost()
    ensures ConfigOk(FLOOR_CONFIG) && MaxCost(FLOOR_CONFIG) == Decimal(2095160000000, -12)
    ensures Units(MaxCost(FLOOR_CONFIG)) == 2095160000000
  {
  }

  lemma NothingIsReported(text: string)
    requires !Blank(text)
    ensures Reported(FLOOR_CONFIG, NothingUsed(text)) == Some(Decimal(0, -12))
  {
    var r := NothingUsed(text).response;
    assert r.choices[0] == Choice(Some(text), Some(['s', 't', 'o', 'p']));
    assert ParseResponse(r, TRUSTED_MODEL, None).Some?;
  }

  lemma NothingIsCounted(text: string)
    requires !Blank(text)
    ensures Affordable(FLOOR_CONFIG) && Counted(FLOOR_CONFIG, NothingUsed(text)) == 0
    ensures Units(MaxCost(FLOOR_CONFIG)) == 2095160000000
  {
    FloorCost();
    NothingIsReported(text);
  }
}
