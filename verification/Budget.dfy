/** The fail-closed spend ledger: reserve the maximum first, settle the confirmed usage later. */
module Budget {
  import opened Prelude
  import opened Sums

  // ---------------------------------------------------------------------------------- money

  /** A parsed decimal; `NotANumber` stands for every value that is no finite decimal. */
  datatype Amount = NotANumber | Decimal(coefficient: int, exponent: int)

  const TEN_TO_THE_28 := 1_0000000_0000000_0000000_0000000
  const MIN_EXPONENT := -12
  const MAX_EXPONENT := 12

  /** `c` times ten to the power `n`. */
  function Shift(c: nat, n: nat): nat {
    if n == 0 then c else 10 * Shift(c, n - 1)
  }

  predicate MoneyOk(a: Amount) {
    && a.Decimal?
    && 0 <= a.coefficient < TEN_TO_THE_28
    && MIN_EXPONENT <= a.exponent <= MAX_EXPONENT
  }

  /** The value of an accepted amount, counted exactly in units of 10^-12 dollars. */
  function Units(a: Amount): nat {
    if MoneyOk(a) then Shift(a.coefficient, a.exponent - MIN_EXPONENT) else 0
  }

  // ---------------------------------------------------------------------------------- state

  datatype Row = Row(token: string, max: Amount, actual: Option<Amount>)

  datatype Ledger = Ledger(limit: Amount, requests: map<string, Row>)

  datatype Error =
    | InvalidRequestId
    | InvalidMoney
    | LedgerMissing
    | LedgerUnreadable
    | DuplicateReservation
    | BudgetBreach
    | BudgetExceeded
    | UnknownToken
    | SettledDifferently
    | ReservationMismatch

  datatype Column = Spent | Reserved | Capped | Overrun

  function Cell(c: Column, r: Row): nat {
    var max := Units(r.max);
    match c
    case Spent => if r.actual.Some? then Units(r.actual.value) else 0
    case Reserved => if r.actual.Some? then 0 else max
    case Capped => if r.actual.Some? && Units(r.actual.value) < max then Units(r.actual.value) else max
    case Overrun => if OverMax(r) then Units(r.actual.value) - max else 0
  }

  predicate OverMax(r: Row) {
    r.actual.Some? && Units(r.actual.value) > Units(r.max)
  }

  ghost function Cells(c: Column, requests: map<string, Row>): map<string, nat> {
    map id | id in requests :: Cell(c, requests[id])
  }

  ghost function Total(c: Column, requests: map<string, Row>): nat {
    Sum(Cells(c, requests))
  }

  ghost function Committed(l: Ledger): nat {
    Total(Spent, l.requests) + Total(Reserved, l.requests)
  }

  predicate Breached(requests: map<string, Row>) {
    exists id :: id in requests && OverMax(requests[id])
  }

  predicate RowOk(r: Row) {
    && r.token != ""
    && MoneyOk(r.max)
    && (r.actual.Some? ==> MoneyOk(r.actual.value))
  }

  predicate RequestsOk(requests: map<string, Row>) {
    && (forall id :: id in requests ==> id != "" && RowOk(requests[id]))
    && (forall id, id' :: id in requests && id' in requests && requests[id].token == requests[id'].token ==> id == id')
  }

  /** What reading the ledger file back accepts. */
  ghost predicate ReadOk(l: Ledger, limit: nat) {
    && MoneyOk(l.limit)
    && Units(l.limit) == limit
    && RequestsOk(l.requests)
    && !(Committed(l) > limit && !Breached(l.requests))
  }

  /** What stripping a string takes away. */
  predicate IsSpace(c: char) {
    var n := c as int;
    || 9 <= n <= 13 || 28 <= n <= 32 || n == 133 || n == 160 || n == 5760 || 8192 <= n <= 8202
    || n == 8232 || n == 8233 || n == 8239 || n == 8287 || n == 12288
  }

  predicate Blank(s: string) {
    forall i :: 0 <= i < |s| ==> IsSpace(s[i])
  }

  // ------------------------------------------------------------ what each operation must do

  ghost function ReserveSpec(l: Ledger, limit: nat, id: string, max: Amount, token: string): Result<Ledger, Error> {
    if Blank(id) then Err(InvalidRequestId)
    else if !MoneyOk(max) then Err(InvalidMoney)
    else if !ReadOk(l, limit) then Err(LedgerUnreadable)
    else if id in l.requests then Err(DuplicateReservation)
    else if Breached(l.requests) then Err(BudgetBreach)
    else if Units(max) > limit - Committed(l) then Err(BudgetExceeded)
    else Ok(l.(requests := l.requests[id := Row(token, max, None)]))
  }

  /** A settlement can both write and fail: an overrun is recorded before it is reported. */
  datatype Settlement = Settlement(ledger: Ledger, error: Option<Error>)

  predicate Holds(requests: map<string, Row>, id: string, token: string) {
    id in requests && requests[id].token == token
  }

  ghost function SettleSpec(l: Ledger, limit: nat, token: string, actual: Amount): Settlement {
    if !MoneyOk(actual) then Settlement(l, Some(InvalidMoney))
    else if !ReadOk(l, limit) then Settlement(l, Some(LedgerUnreadable))
    else if !exists id :: Holds(l.requests, id, token) then Settlement(l, Some(UnknownToken))
    else
      var id :| Holds(l.requests, id, token);
      var row := l.requests[id];
      if row.actual.Some? && Units(row.actual.value) != Units(actual) then Settlement(l, Some(SettledDifferently))
      else
        var row' := row.(actual := Some(actual));
        Settlement(l.(requests := l.requests[id := row']), if OverMax(row') then Some(BudgetBreach) else None)
  }

  ghost function VerifySpec(l: Ledger, limit: nat, token: string, id: string, max: Amount): Option<Error> {
    if !MoneyOk(max) then Some(InvalidMoney)
    else if id == "" then Some(InvalidRequestId)
    else if !ReadOk(l, limit) then Some(LedgerUnreadable)
    else if !(Holds(l.requests, id, token) && Units(l.requests[id].max) == Units(max)) then Some(ReservationMismatch)
    else None
  }

  // ------------------------------------------------------------------- arithmetic of columns

  lemma TotalPut(c: Column, requests: map<string, Row>, id: string, row: Row)
    ensures id !in requests ==> Total(c, requests[id := row]) == Total(c, requests) + Cell(c, row)
    ensures id in requests ==> Total(c, requests[id := row]) == Total(c, requests) - Cell(c, requests[id]) + Cell(c, row)
  {
    SumPut(Cells(c, requests), id, Cell(c, row));
    assert Cells(c, requests)[id := Cell(c, row)] == Cells(c, requests[id := row]);
  }

  lemma BreachedPut(requests: map<string, Row>, id: string, row: Row)
    requires id !in requests
    ensures Breached(requests[id := row]) == (Breached(requests) || OverMax(row))
  {
    var requests' := requests[id := row];
    assert requests'[id] == row;
    assert forall k :: k in requests ==> k in requests' && requests'[k] == requests[k];
  }

  lemma CellSplits(r: Row)
    ensures Cell(Spent, r) + Cell(Reserved, r) == Cell(Capped, r) + Cell(Overrun, r)
  {
  }

  /** Everything committed splits into the part inside the reservations and the overrun. */
  lemma CommittedSplits(l: Ledger)
    ensures Committed(l) == Total(Capped, l.requests) + Total(Overrun, l.requests)
  {
    var rs := l.requests;
    var whole := map id | id in rs :: Cell(Spent, rs[id]) + Cell(Reserved, rs[id]);
    forall id | id in rs ensures whole[id] == Cell(Capped, rs[id]) + Cell(Overrun, rs[id]) {
      CellSplits(rs[id]);
    }
    SumPlus(Cells(Spent, rs), Cells(Reserved, rs), whole);
    SumPlus(Cells(Capped, rs), Cells(Overrun, rs), whole);
  }

  lemma {:induction false} NoBreachNoOverrun(requests: map<string, Row>)
    requires !Breached(requests)
    ensures Total(Overrun, requests) == 0
  {
    AllZero(Cells(Overrun, requests));
  }

  lemma {:induction false} AllZero(m: map<string, nat>)
    requires forall k :: k in m ==> m[k] == 0
    ensures Sum(m) == 0
    decreases |m|
  {
    if m.Keys != {} {
      var k :| k in m.Keys;
      SumRemove(m, k);
      assert (m - {k}).Keys == m.Keys - {k} && |m.Keys - {k}| < |m.Keys|;
      AllZero(m - {k});
    }
  }

  // ------------------------------------------------------------------ what the definitions come to

  /** Up to 28 digits with twelve places either way are accepted; one place up is ten times as much. */
  lemma AmountsMean(c: int, e: int)
    ensures MoneyOk(Decimal(c, e)) <==> -1 < c < 10_000_000_000_000_000_000_000_000_000 && -13 < e < 13
    ensures MoneyOk(Decimal(c, -12)) ==> Units(Decimal(c, -12)) == c
    ensures MoneyOk(Decimal(c, e)) && e < 12 ==> Units(Decimal(c, e + 1)) == 10 * Units(Decimal(c, e))
    ensures !MoneyOk(NotANumber)
  {
    if MoneyOk(Decimal(c, e)) && e < 12 { assert e + 1 - MIN_EXPONENT == (e - MIN_EXPONENT) + 1; }
  }

  lemma {:induction false} ShiftScales(c: nat, n: nat)
    ensures Shift(10 * c, n) == 10 * Shift(c, n)
  {
    if n > 0 { ShiftScales(c, n - 1); }
  }

  /** An amount is worth the same however it is written. */
  lemma SameValue(c: nat, e: int)
    requires MoneyOk(Decimal(10 * c, e)) && e < 12
    ensures MoneyOk(Decimal(c, e + 1)) && Units(Decimal(10 * c, e)) == Units(Decimal(c, e + 1))
  {
    ShiftScales(c, e - MIN_EXPONENT);
  }

  /** Committed is what settled requests used plus what the others reserved. */
  lemma CommittedIsTheSum(l: Ledger, worth: map<string, nat>)
    requires worth.Keys == l.requests.Keys
    requires forall id, r :: id in l.requests && l.requests[id] == r ==>
               worth[id] == match r.actual case Some(used) => Units(used) case None => Units(r.max)
    ensures Committed(l) == Sum(worth)
  {
    SumPlus(Cells(Spent, l.requests), Cells(Reserved, l.requests), worth);
  }

  /** The overrun is what settled requests used above their own reservations. */
  lemma OverrunIsTheSum(requests: map<string, Row>, over: map<string, nat>)
    requires over.Keys == requests.Keys
    requires forall id, r :: id in requests && requests[id] == r ==>
               over[id] == match r.actual case Some(used) => if Units(used) <= Units(r.max) then 0 else Units(used) - Units(r.max) case None => 0
    ensures Total(Overrun, requests) == Sum(over)
    ensures Breached(requests) <==> exists id :: id in over && over[id] > 0
  {
    assert Cells(Overrun, requests) == over;
    forall id | id in requests ensures OverMax(requests[id]) <==> over[id] > 0 {}
  }

  /** A reservation caps what its request counts with: the smaller of the two once it is settled. */
  lemma CappedIsTheLesser(r: Row)
    ensures r.actual == None ==> Cell(Capped, r) == Units(r.max)
    ensures r.actual.Some? ==> Cell(Capped, r) <= Units(r.max) && Cell(Capped, r) <= Units(r.actual.value)
    ensures r.actual.Some? ==> Cell(Capped, r) in {Units(r.max), Units(r.actual.value)}
  {
  }

  /** An id is blank when nothing is left of it once spaces are taken away. */
  lemma BlankIff(id: string)
    ensures !Blank(id) <==> exists i :: 0 <= i < |id| && !SpaceCode(id[i] as int)
  {
  }

  predicate SpaceCode(n: int) {
    n in {9, 10, 11, 12, 13, 28, 29, 30, 31, 32, 133, 160, 5760, 8232, 8233, 8239, 8287, 12288} || 8191 < n < 8203
  }

  /** A row is accepted with a token, an accepted maximum and, once settled, an accepted amount. */
  ghost predicate WellFormed(requests: map<string, Row>) {
    forall id, r :: id in requests && requests[id] == r ==>
      id != [] && r.token != [] && MoneyOk(r.max) && (r.actual == None || MoneyOk(r.actual.value))
  }

  ghost predicate TokensDiffer(requests: map<string, Row>) {
    forall id, other :: id in requests && other in requests && id != other ==> requests[id].token != requests[other].token
  }

  /** Which ledgers are read back: one over its limit only if some request used more than it reserved. */
  lemma ReadsBackIff(l: Ledger, limit: nat)
    ensures ReadOk(l, limit) <==>
              && MoneyOk(l.limit) && Units(l.limit) == limit && WellFormed(l.requests) && TokensDiffer(l.requests)
              && (Committed(l) <= limit || Total(Overrun, l.requests) > 0)
  {
    OverrunShows(l.requests);
    if ReadOk(l, limit) {
      assert forall id, r :: id in l.requests && l.requests[id] == r ==> RowOk(r);
    }
    if WellFormed(l.requests) && TokensDiffer(l.requests) {
      forall id | id in l.requests ensures id != "" && RowOk(l.requests[id]) {}
    }
  }

  lemma OverrunShows(requests: map<string, Row>)
    ensures Breached(requests) <==> Total(Overrun, requests) > 0
  {
    if Breached(requests) {
      var id :| id in requests && OverMax(requests[id]);
      SumRemove(Cells(Overrun, requests), id);
    } else {
      NoBreachNoOverrun(requests);
    }
  }

  /** When a reservation is granted, what it leaves, and the reason behind each refusal. */
  lemma ReserveMeans(l: Ledger, limit: nat, id: string, max: Amount, token: string)
    ensures var r := ReserveSpec(l, limit, id, max, token);
            && (r.Ok? <==>
                  && !Blank(id) && MoneyOk(max) && ReadOk(l, limit) && id !in l.requests
                  && Total(Overrun, l.requests) == 0 && Committed(l) + Units(max) <= limit)
            && (r.Ok? ==>
                  && r.value.limit == l.limit && r.value.requests.Keys == l.requests.Keys + {id}
                  && r.value.requests[id] == Row(token, max, None)
                  && forall other :: other in l.requests ==> r.value.requests[other] == l.requests[other])
            && (r == Err(InvalidRequestId) <==> Blank(id))
            && (r == Err(InvalidMoney) <==> !Blank(id) && !MoneyOk(max))
            && (r == Err(LedgerUnreadable) <==> !Blank(id) && MoneyOk(max) && !ReadOk(l, limit))
            && (r == Err(DuplicateReservation) ==> id in l.requests)
            && (r == Err(BudgetBreach) ==> id !in l.requests && Total(Overrun, l.requests) > 0)
            && (r == Err(BudgetExceeded) ==> Committed(l) + Units(max) > limit)
            && r !in {Err(LedgerMissing), Err(UnknownToken), Err(SettledDifferently), Err(ReservationMismatch)}
  {
    OverrunShows(l.requests);
  }

  /** When a settlement is refused without a trace, and what it records otherwise. */
  lemma SettleMeans(l: Ledger, limit: nat, token: string, actual: Amount)
    ensures var s := SettleSpec(l, limit, token, actual);
            if !MoneyOk(actual) then s == Settlement(l, Some(InvalidMoney))
            else if !ReadOk(l, limit) then s == Settlement(l, Some(LedgerUnreadable))
            else if forall id :: id in l.requests ==> l.requests[id].token != token then s == Settlement(l, Some(UnknownToken))
            else exists id :: id in l.requests && Settles(l, s, id, token, actual)
  {
    if MoneyOk(actual) && ReadOk(l, limit) {
      if id :| id in l.requests && l.requests[id].token == token {
        assert Holds(l.requests, id, token);
        if SettleSpec(l, limit, token, actual).error == Some(SettledDifferently) {
          TokensAreUnique(l.requests, id, token);
        } else {
          var other :| Holds(l.requests, other, token) && SettleSpec(l, limit, token, actual).ledger == l.(requests := l.requests[other := l.requests[other].(actual := Some(actual))]);
          TokensAreUnique(l.requests, id, token);
        }
      } else {
        assert forall id :: !Holds(l.requests, id, token);
      }
    }
  }

  /** The row of the token takes the amount, unless it was settled with another one; an overrun is recorded and reported. */
  ghost predicate Settles(l: Ledger, s: Settlement, id: string, token: string, actual: Amount)
    requires id in l.requests
  {
    var row := l.requests[id];
    && row.token == token
    && if row.actual.Some? && Units(row.actual.value) != Units(actual) then s == Settlement(l, Some(SettledDifferently))
       else && s.ledger == Ledger(l.limit, l.requests[id := Row(token, row.max, Some(actual))])
            && s.error == if Units(actual) <= Units(row.max) then None else Some(BudgetBreach)
  }

  /** A cached artifact stands under its reservation when token, request and maximum all agree. */
  lemma VerifyMeans(l: Ledger, limit: nat, token: string, id: string, max: Amount)
    ensures var e := VerifySpec(l, limit, token, id, max);
            && (e == None <==> && MoneyOk(max) && id != [] && ReadOk(l, limit)
                               && id in l.requests && l.requests[id].token == token && Units(l.requests[id].max) == Units(max))
            && (e == Some(InvalidMoney) <==> !MoneyOk(max))
            && (e == Some(InvalidRequestId) <==> MoneyOk(max) && id == [])
            && (e == Some(LedgerUnreadable) <==> MoneyOk(max) && id != [] && !ReadOk(l, limit))
            && (e.Some? ==> e.value in {InvalidMoney, InvalidRequestId, LedgerUnreadable, ReservationMismatch})
  {
  }

  // ------------------------------------------------------------------------ runs of the ledger

  datatype Op = Reserve(id: string, max: Amount, token: string) | Settle(token: string, actual: Amount)

  ghost function Apply(l: Ledger, limit: nat, op: Op): Ledger {
    match op
    case Reserve(id, max, token) =>
      var r := ReserveSpec(l, limit, id, max, token);
      if r.Ok? then r.value else l
    case Settle(token, actual) => SettleSpec(l, limit, token, actual).ledger
  }

  ghost function Run(l: Ledger, limit: nat, ops: seq<Op>): Ledger
    decreases |ops|
  {
    if ops == [] then l else Run(Apply(l, limit, ops[0]), limit, ops[1..])
  }

  /** A run takes its operations one after the other, and one that is refused leaves the ledger alone. */
  lemma {:induction false} RunTakesEach(l: Ledger, limit: nat, ops: seq<Op>, next: Op)
    ensures var now := Run(l, limit, ops);
            Run(l, limit, ops + [next]) ==
            match next
            case Reserve(id, max, token) =>
              (match ReserveSpec(now, limit, id, max, token) case Ok(after) => after case Err(_) => now)
            case Settle(token, actual) => SettleSpec(now, limit, token, actual).ledger
    decreases |ops|
  {
    if ops == [] {
      assert Run(Apply(l, limit, next), limit, []) == Apply(l, limit, next);
    } else {
      assert (ops + [next])[1..] == ops[1..] + [next];
      RunTakesEach(Apply(l, limit, ops[0]), limit, ops[1..], next);
    }
  }

  /** Generated tokens are nonempty and never repeat. */
  ghost predicate FreshToken(l: Ledger, token: string) {
    token != "" && forall id :: id in l.requests ==> l.requests[id].token != token
  }

  ghost predicate FreshRun(l: Ledger, limit: nat, ops: seq<Op>)
    decreases |ops|
  {
    ops == [] || (
      && (ops[0].Reserve? ==> FreshToken(l, ops[0].token))
      && FreshRun(Apply(l, limit, ops[0]), limit, ops[1..]))
  }

  ghost predicate Sound(l: Ledger, limit: nat) {
    && ReadOk(l, limit)
    && Total(Capped, l.requests) <= limit
  }

  function EmptyLedger(limit: Amount): Ledger {
    Ledger(limit, map[])
  }

  lemma EmptyIsSound(limit: Amount)
    requires MoneyOk(limit)
    ensures Sound(EmptyLedger(limit), Units(limit))
  {
    CommittedSplits(EmptyLedger(limit));
  }

  lemma SoundFromCapped(l: Ledger, limit: nat)
    requires MoneyOk(l.limit) && Units(l.limit) == limit && RequestsOk(l.requests)
    requires Total(Capped, l.requests) <= limit
    ensures Sound(l, limit)
  {
    CommittedSplits(l);
    if !Breached(l.requests) {
      NoBreachNoOverrun(l.requests);
    }
  }

  lemma ReserveIsSound(l: Ledger, limit: nat, id: string, max: Amount, token: string)
    requires Sound(l, limit) && FreshToken(l, token)
    requires ReserveSpec(l, limit, id, max, token).Ok?
    ensures Sound(ReserveSpec(l, limit, id, max, token).value, limit)
  {
    var row := Row(token, max, None);
    var l' := ReserveSpec(l, limit, id, max, token).value;
    NoBreachNoOverrun(l.requests);
    CommittedSplits(l);
    TotalPut(Capped, l.requests, id, row);
    SoundFromCapped(l', limit);
  }

  lemma TokensAreUnique(requests: map<string, Row>, id: string, token: string)
    requires RequestsOk(requests) && Holds(requests, id, token)
    ensures forall other :: Holds(requests, other, token) <==> other == id
  {
    forall other | Holds(requests, other, token) ensures other == id {
      assert requests[other].token == requests[id].token;
    }
  }

  /** The row a settlement touches is unique, so a settlement is a single-row update. */
  lemma SettleTouchesOneRow(l: Ledger, limit: nat, token: string, actual: Amount, id: string)
    requires RequestsOk(l.requests) && Holds(l.requests, id, token)
    requires MoneyOk(actual) && ReadOk(l, limit)
    requires l.requests[id].actual.Some? ==> Units(l.requests[id].actual.value) == Units(actual)
    ensures var row' := l.requests[id].(actual := Some(actual));
            SettleSpec(l, limit, token, actual) ==
            Settlement(l.(requests := l.requests[id := row']), if OverMax(row') then Some(BudgetBreach) else None)
  {
    TokensAreUnique(l.requests, id, token);
  }

  lemma SettleIsSound(l: Ledger, limit: nat, token: string, actual: Amount)
    requires Sound(l, limit)
    ensures Sound(SettleSpec(l, limit, token, actual).ledger, limit)
  {
    var l' := SettleSpec(l, limit, token, actual).ledger;
    if l' != l {
      var id :| Holds(l.requests, id, token) && l' == l.(requests := l.requests[id := l.requests[id].(actual := Some(actual))]);
      TotalPut(Capped, l.requests, id, l'.requests[id]);
      SoundFromCapped(l', limit);
    }
  }

  lemma ApplyIsSound(l: Ledger, limit: nat, op: Op)
    requires Sound(l, limit)
    requires op.Reserve? ==> FreshToken(l, op.token)
    ensures Sound(Apply(l, limit, op), limit)
  {
    match op
    case Reserve(id, max, token) =>
      if ReserveSpec(l, limit, id, max, token).Ok? { ReserveIsSound(l, limit, id, max, token); }
    case Settle(token, actual) => SettleIsSound(l, limit, token, actual);
  }

  /**
   * Every state a run writes is accepted by the next read, and spent plus reserved stays within
   * the limit plus what settled requests overran their own reservations by.
   */
  lemma {:induction false} RunStaysWithinLimit(l: Ledger, limit: nat, ops: seq<Op>)
    requires Sound(l, limit) && FreshRun(l, limit, ops)
    ensures ReadOk(Run(l, limit, ops), limit)
    ensures Committed(Run(l, limit, ops)) <= limit + Total(Overrun, Run(l, limit, ops).requests)
    ensures Sound(Run(l, limit, ops), limit)
    decreases |ops|
  {
    if ops == [] {
      CommittedSplits(l);
    } else {
      ApplyIsSound(l, limit, ops[0]);
      RunStaysWithinLimit(Apply(l, limit, ops[0]), limit, ops[1..]);
    }
  }

  /** Rows are never lost, and their token, maximum and confirmed usage never change. */
  ghost predicate Extends(old': map<string, Row>, new': map<string, Row>) {
    forall id :: id in old' ==>
      && id in new'
      && new'[id].token == old'[id].token
      && new'[id].max == old'[id].max
      && (old'[id].actual.Some? ==> new'[id].actual.Some? && Units(new'[id].actual.value) == Units(old'[id].actual.value))
  }

  lemma ApplyExtends(l: Ledger, limit: nat, op: Op)
    ensures Extends(l.requests, Apply(l, limit, op).requests)
  {
    match op
    case Reserve(_, _, _) =>
    case Settle(token, actual) =>
      var s := SettleSpec(l, limit, token, actual);
      if s.ledger != l {
        var id :| Holds(l.requests, id, token) && s.ledger.requests == l.requests[id := l.requests[id].(actual := Some(actual))]
                  && (l.requests[id].actual.Some? ==> Units(l.requests[id].actual.value) == Units(actual));
      }
  }

  lemma {:induction false} RunExtends(l: Ledger, limit: nat, ops: seq<Op>)
    ensures Extends(l.requests, Run(l, limit, ops).requests)
    decreases |ops|
  {
    if ops != [] {
      var l' := Apply(l, limit, ops[0]);
      ApplyExtends(l, limit, ops[0]);
      RunExtends(l', limit, ops[1..]);
    }
  }

  /** Once a request used more than it reserved, no later state of any run admits another reservation. */
  lemma BreachIsPermanent(l: Ledger, limit: nat, ops: seq<Op>, id: string, max: Amount, token: string)
    requires Breached(l.requests)
    ensures Breached(Run(l, limit, ops).requests)
    ensures ReserveSpec(Run(l, limit, ops), limit, id, max, token).Err?
  {
    RunExtends(l, limit, ops);
    var bad :| bad in l.requests && OverMax(l.requests[bad]);
    assert OverMax(Run(l, limit, ops).requests[bad]);
  }

  /** A request id can be reserved once: after it has been, every later attempt in any run fails. */
  lemma ReservedOnce(l: Ledger, limit: nat, ops: seq<Op>, id: string, max: Amount, token: string)
    requires id in l.requests
    ensures ReserveSpec(Run(l, limit, ops), limit, id, max, token).Err?
  {
    RunExtends(l, limit, ops);
  }

  /** Settling is idempotent, and after it a different amount is refused without any change. */
  lemma SettleTwice(l: Ledger, limit: nat, token: string, a: Amount, b: Amount)
    requires Sound(l, limit) && MoneyOk(b)
    requires SettleSpec(l, limit, token, a).error in {None, Some(BudgetBreach)}
    ensures var s := SettleSpec(l, limit, token, a);
            && SettleSpec(s.ledger, limit, token, a) == s
            && (Units(b) != Units(a) ==> SettleSpec(s.ledger, limit, token, b) == Settlement(s.ledger, Some(SettledDifferently)))
  {
    var s := SettleSpec(l, limit, token, a);
    var id :| Holds(l.requests, id, token) && s.ledger == l.(requests := l.requests[id := l.requests[id].(actual := Some(a))]);
    SettleIsSound(l, limit, token, a);
    SettleTouchesOneRow(s.ledger, limit, token, a, id);
    assert Holds(s.ledger.requests, id, token);
    assert s.ledger.requests[id := s.ledger.requests[id].(actual := Some(a))] == s.ledger.requests;
    assert s.error == if OverMax(s.ledger.requests[id]) then Some(BudgetBreach) else None by {
      if s.error == None && OverMax(s.ledger.requests[id]) {
        SettleTouchesOneRow(l, limit, token, a, id);
      }
    }
  }

  // ------------------------------------------------------------------------------ the program

  ghost function Without(requests: map<string, Row>, left: set<string>): map<string, Row> {
    map id | id in requests && id !in left :: requests[id]
  }

  lemma OneMoreRow(requests: map<string, Row>, left: set<string>, id: string)
    requires id in left && left <= requests.Keys
    ensures forall c :: Total(c, Without(requests, left - {id})) == Total(c, Without(requests, left)) + Cell(c, requests[id])
    ensures Breached(Without(requests, left - {id})) == (Breached(Without(requests, left)) || OverMax(requests[id]))
  {
    var row, done := requests[id], Without(requests, left);
    assert Without(requests, left - {id}) == done[id := row];
    forall c ensures Total(c, done[id := row]) == Total(c, done) + Cell(c, row) {
      TotalPut(c, done, id, row);
    }
    BreachedPut(done, id, row);
  }

  datatype File = Missing | Corrupt | Saved(ledger: Ledger)

  /** The shared ledger file with its lock file; each method body is one locked section. */
  class BudgetLedger {
    const limitUsd: Amount
    var file: File
    var marked: bool

    constructor (limitUsd: Amount, file: File, marked: bool)
      ensures this.limitUsd == limitUsd && this.file == file && this.marked == marked
    {
      this.limitUsd := limitUsd;
      this.file := file;
      this.marked := marked;
    }

    ghost predicate Readable()
      reads this
    {
      file.Saved? && ReadOk(file.ledger, Units(limitUsd))
    }

    /** A ledger that was initialized once and then vanished is never reset to an empty one. */
    method Open() returns (error: Option<Error>)
      modifies this
      ensures !MoneyOk(limitUsd) ==> error == Some(InvalidMoney) && file == old(file) && marked == old(marked)
      ensures MoneyOk(limitUsd) && old(file).Missing? && old(marked) ==>
                error == Some(LedgerMissing) && file == old(file) && marked
      ensures MoneyOk(limitUsd) && !(old(file).Missing? && old(marked)) ==>
                && marked
                && file == (if old(file).Missing? then Saved(Ledger(limitUsd, map[])) else old(file))
                && error == (if Readable() then None else Some(LedgerUnreadable))
    {
      if !MoneyOk(limitUsd) {
        return Some(InvalidMoney);
      }
      if file.Missing? && marked {
        return Some(LedgerMissing);
      }
      marked := true;
      if file.Missing? {
        file := Saved(EmptyLedger(limitUsd));
      }
      var state := Read();
      error := if state.Ok? then None else Some(LedgerUnreadable);
    }

    method Read() returns (r: Result<Ledger, Error>)
      ensures r == if Readable() then Ok(file.ledger) else Err(LedgerUnreadable)
    {
      if !file.Saved? {
        return Err(LedgerUnreadable);
      }
      var l := file.ledger;
      if !MoneyOk(l.limit) || Units(l.limit) != Units(limitUsd) || !RequestsOk(l.requests) {
        return Err(LedgerUnreadable);
      }
      var spent, reserved, breached := Totals(l.requests);
      if spent + reserved > Units(limitUsd) && !breached {
        return Err(LedgerUnreadable);
      }
      return Ok(l);
    }

    static method Totals(requests: map<string, Row>) returns (spent: nat, reserved: nat, breached: bool)
      ensures spent == Total(Spent, requests)
      ensures reserved == Total(Reserved, requests)
      ensures breached == Breached(requests)
    {
      spent, reserved, breached := 0, 0, false;
      var left := requests.Keys;
      assert Without(requests, left) == map[];
      while left != {}
        invariant left <= requests.Keys
        invariant spent == Total(Spent, Without(requests, left))
        invariant reserved == Total(Reserved, Without(requests, left))
        invariant breached == Breached(Without(requests, left))
        decreases |left|
      {
        var id :| id in left;
        var row := requests[id];
        OneMoreRow(requests, left, id);
        if row.actual.Some? {
          spent := spent + Units(row.actual.value);
        } else {
          reserved := reserved + Units(row.max);
        }
        breached := breached || OverMax(row);
        left := left - {id};
      }
      assert Without(requests, {}) == requests;
    }

    method Reserve(id: string, max: Amount, token: string) returns (r: Result<string, Error>)
      modifies this`file
      ensures old(file).Saved? ==>
                match ReserveSpec(old(file).ledger, Units(limitUsd), id, max, token)
                case Ok(l') => r == Ok(token) && file == Saved(l')
                case Err(e) => r == Err(e) && file == old(file)
      ensures !old(file).Saved? ==>
                && file == old(file)
                && r == Err(if Blank(id) then InvalidRequestId else if !MoneyOk(max) then InvalidMoney else LedgerUnreadable)
    {
      if Blank(id) {
        return Err(InvalidRequestId);
      }
      if !MoneyOk(max) {
        return Err(InvalidMoney);
      }
      var state := Read();
      if state.Err? {
        return Err(LedgerUnreadable);
      }
      var l := state.value;
      if id in l.requests {
        return Err(DuplicateReservation);
      }
      var spent, reserved, breached := Totals(l.requests);
      if breached {
        return Err(BudgetBreach);
      }
      if Units(max) > Units(limitUsd) - spent - reserved {
        return Err(BudgetExceeded);
      }
      file := Saved(l.(requests := l.requests[id := Row(token, max, None)]));
      return Ok(token);
    }

    method VerifyReservation(token: string, id: string, max: Amount) returns (error: Option<Error>)
      ensures file.Saved? ==> error == VerifySpec(file.ledger, Units(limitUsd), token, id, max)
      ensures !file.Saved? ==>
                error == Some(if !MoneyOk(max) then InvalidMoney else if id == "" then InvalidRequestId else LedgerUnreadable)
    {
      if !MoneyOk(max) {
        return Some(InvalidMoney);
      }
      if id == "" {
        return Some(InvalidRequestId);
      }
      var state := Read();
      if state.Err? {
        return Some(LedgerUnreadable);
      }
      var rows := state.value.requests;
      if id !in rows || rows[id].token != token || Units(rows[id].max) != Units(max) {
        return Some(ReservationMismatch);
      }
      return None;
    }

    method Settle(token: string, actual: Amount) returns (error: Option<Error>)
      modifies this`file
      ensures old(file).Saved? ==>
                && file == Saved(SettleSpec(old(file).ledger, Units(limitUsd), token, actual).ledger)
                && error == SettleSpec(old(file).ledger, Units(limitUsd), token, actual).error
      ensures !old(file).Saved? ==> file == old(file) && error == Some(if MoneyOk(actual) then LedgerUnreadable else InvalidMoney)
    {
      if !MoneyOk(actual) {
        return Some(InvalidMoney);
      }
      var state := Read();
      if state.Err? {
        return Some(LedgerUnreadable);
      }
      var l := state.value;
      var found := FindToken(l.requests, token);
      if found.None? {
        return Some(UnknownToken);
      }
      var id := found.value;
      var row := l.requests[id];
      if row.actual.Some? && Units(row.actual.value) != Units(actual) {
        SettleConflict(l, Units(limitUsd), token, actual, id);
        return Some(SettledDifferently);
      }
      SettleTouchesOneRow(l, Units(limitUsd), token, actual, id);
      var row' := row.(actual := Some(actual));
      file := Saved(l.(requests := l.requests[id := row']));
      error := if OverMax(row') then Some(BudgetBreach) else None;
    }

    static method FindToken(requests: map<string, Row>, token: string) returns (found: Option<string>)
      ensures found.Some? ==> Holds(requests, found.value, token)
      ensures found.None? ==> forall id :: !Holds(requests, id, token)
    {
      var left := requests.Keys;
      while left != {}
        invariant left <= requests.Keys
        invariant forall id :: Holds(requests, id, token) ==> id in left
        decreases |left|
      {
        var id :| id in left;
        if requests[id].token == token {
          return Some(id);
        }
        left := left - {id};
      }
      return None;
    }
  }

  lemma SettleConflict(l: Ledger, limit: nat, token: string, actual: Amount, id: string)
    requires MoneyOk(actual) && ReadOk(l, limit) && Holds(l.requests, id, token)
    requires l.requests[id].actual.Some? && Units(l.requests[id].actual.value) != Units(actual)
    ensures SettleSpec(l, limit, token, actual) == Settlement(l, Some(SettledDifferently))
  {
    TokensAreUnique(l.requests, id, token);
  }
}
