/**
 * The single-attempt completion protocol over the spend ledger: check the cache, reserve durably,
 * call once, cache what came back, settle, finish. Many processes share the ledger and the cache,
 * and any of them may crash between any two steps.
 *
 * Hashes are collision-free, so a request hash determines the configuration frozen into it
 * (`Env.config`) and an entry's digest is represented by the entry it was computed from.
 */
module PaidProtocol {
  import opened Prelude
  import opened Sums
  import opened Budget
  import opened PaidEntries

  // ------------------------------------------------------------------- many processes, crashes

  datatype Phase =
    | Absent(h: string)                             // looked: no cache file
    | Present(h: string)                            // looked: there is a cache file
    | Loaded(h: string, file: CacheFile)
    | Holding(h: string, token: string)
    | InFlight(h: string, token: string, bill: nat) // the transport has been called
    | Answered(h: string, entry: Entry)             // nothing written yet
    | Settling(h: string, entry: Entry)             // written or validated
    | Finishing(h: string, entry: Entry)            // settled
    | Done(h: string, entry: Entry)
    | Declined(h: string)                           // returned the refusal of its reservation
    | Stopped(h: string)                            // raised

  datatype Call = Call(h: string, bill: nat)

  /** Durable state, running processes, and what an observer saw: provider calls and first entries. */
  datatype Sys = Sys(ledger: Ledger, cache: map<string, CacheFile>, procs: map<nat, Phase>,
                     calls: seq<Call>, first: map<string, Entry>)

  datatype Action =
    | Start(p: nat, h: string)
    | Load(p: nat)
    | Validate(p: nat)
    | TakeReservation(p: nat, token: string)
    | Issue(p: nat, bill: nat)
    | Receive(p: nat, answer: Answer)
    | WriteFirst(p: nat)
    | SettleUsage(p: nat)
    | WriteFinal(p: nat)
    | Crash(p: nat)

  ghost predicate Enabled(env: Env, s: Sys, a: Action) {
    match a
    case Start(p, h) => p !in s.procs && !Blank(h)
    case Load(p) => p in s.procs && s.procs[p].Present? && s.procs[p].h in s.cache
    case Validate(p) => p in s.procs && s.procs[p].Loaded?
    case TakeReservation(p, token) => p in s.procs && s.procs[p].Absent? && FreshToken(s.ledger, token)
    case Issue(p, _) => p in s.procs && s.procs[p].Holding?
    case Receive(p, _) => p in s.procs && s.procs[p].InFlight?
    case WriteFirst(p) => p in s.procs && s.procs[p].Answered?
    case SettleUsage(p) => p in s.procs && s.procs[p].Settling?
    case WriteFinal(p) => p in s.procs && s.procs[p].Finishing?
    case Crash(p) => p in s.procs
  }

  ghost function Next(env: Env, s: Sys, a: Action): Sys
    requires Enabled(env, s, a)
  {
    match a
    case Start(p, h) =>
      s.(procs := s.procs[p := if !ConfigOk(env.config(h)) then Stopped(h)
                               else if h in s.cache then Present(h) else Absent(h)])
    case Load(p) =>
      var h := s.procs[p].h;
      s.(procs := s.procs[p := Loaded(h, s.cache[h])])
    case Validate(p) =>
      var ph := s.procs[p];
      var ok := ph.file.entry.request == ph.h && ValidateCached(ph.file, ph.h, env.config(ph.h), s.ledger, env.limit);
      s.(procs := s.procs[p := if ok then Settling(ph.h, ph.file.entry) else Stopped(ph.h)])
    case TakeReservation(p, token) =>
      var h := s.procs[p].h;
      (match ReserveSpec(s.ledger, env.limit, h, MaxCost(env.config(h)), token)
       case Err(_) => s.(procs := s.procs[p := Declined(h)])
       case Ok(l') => s.(ledger := l', procs := s.procs[p := Holding(h, token)]))
    case Issue(p, bill) =>
      var ph := s.procs[p];
      s.(calls := s.calls + [Call(ph.h, bill)], procs := s.procs[p := InFlight(ph.h, ph.token, bill)])
    case Receive(p, answer) =>
      var ph := s.procs[p];
      s.(procs := s.procs[p := Answered(ph.h, FirstEntry(ph.h, ph.token, env.config(ph.h), answer))])
    case WriteFirst(p) =>
      var ph := s.procs[p];
      s.(cache := s.cache[ph.h := Seal(ph.entry)],
         first := s.first[ph.h := ph.entry],
         procs := s.procs[p := Settling(ph.h, ph.entry)])
    case SettleUsage(p) =>
      var ph := s.procs[p];
      var e := ph.entry;
      var r := if e.actual.Some? then SettleSpec(s.ledger, env.limit, e.token, e.actual.value) else Settlement(s.ledger, None);
      s.(ledger := r.ledger,
         procs := s.procs[p := if r.error.Some? then Stopped(ph.h)
                               else if e.status == ResponseReceived then Finishing(ph.h, e)
                               else Done(ph.h, e)])
    case WriteFinal(p) =>
      var ph := s.procs[p];
      s.(cache := s.cache[ph.h := Seal(Finish(ph.entry))], procs := s.procs[p := Done(ph.h, Finish(ph.entry))])
    case Crash(p) =>
      s.(procs := s.procs - {p})
  }

  ghost predicate Allowed(env: Env, s: Sys, run: seq<Action>)
    decreases |run|
  {
    run == [] || (Enabled(env, s, run[0]) && Allowed(env, Next(env, s, run[0]), run[1..]))
  }

  ghost function After(env: Env, s: Sys, run: seq<Action>): Sys
    requires Allowed(env, s, run)
    decreases |run|
  {
    if run == [] then s else After(env, Next(env, s, run[0]), run[1..])
  }

  /** A run is its steps one after the other, each enabled where it is taken. */
  lemma {:induction false} RunsTakeEach(env: Env, s: Sys, run: seq<Action>, a: Action)
    ensures Allowed(env, s, [])
    ensures Allowed(env, s, run + [a]) <==> Allowed(env, s, run) && Enabled(env, After(env, s, run), a)
    ensures Allowed(env, s, run + [a]) ==> After(env, s, run + [a]) == Next(env, After(env, s, run), a)
    decreases |run|
  {
    if run == [] {
      assert [a][1..] == [] && run + [a] == [a];
    } else {
      assert (run + [a])[1..] == run[1..] + [a];
      if Enabled(env, s, run[0]) { RunsTakeEach(env, Next(env, s, run[0]), run[1..], a); }
    }
  }

  function Initial(limit: Amount): Sys {
    Sys(EmptyLedger(limit), map[], map[], [], map[])
  }

  // ------------------------------------------------------------------------------- invariant

  /** The bills of the calls made for one request. */
  function Bills(calls: seq<Call>, h: string): seq<nat> {
    if calls == [] then [] else (if calls[0].h == h then [calls[0].bill] else []) + Bills(calls[1..], h)
  }

  lemma {:induction false} BillsAppend(calls: seq<Call>, c: Call, h: string)
    ensures Bills(calls + [c], h) == Bills(calls, h) + if c.h == h then [c.bill] else []
  {
    if calls == [] {
      assert [c][1..] == [];
    } else {
      BillsAppend(calls[1..], c, h);
      assert (calls + [c])[1..] == calls[1..] + [c];
    }
  }

  /** Everything durable or observed about one request. Requests do not interfere outside the ledger's sums. */
  datatype Local = Local(row: Option<Row>, file: Option<CacheFile>, first: Option<Entry>, bills: seq<nat>)

  function View(s: Sys, h: string): Local {
    Local(if h in s.ledger.requests then Some(s.ledger.requests[h]) else None,
          if h in s.cache then Some(s.cache[h]) else None,
          if h in s.first then Some(s.first[h]) else None,
          Bills(s.calls, h))
  }

  predicate RowIs(env: Env, h: string, v: Local, token: string) {
    v.row.Some? && v.row.value.token == token && v.row.value.max == MaxCost(env.config(h))
  }

  ghost predicate FirstOk(env: Env, h: string, e: Entry) {
    exists answer :: e == FirstEntry(h, e.token, env.config(h), answer)
  }

  predicate Version(first: Entry, e: Entry) {
    e == first || e == Finish(first)
  }

  /** The ledger records exactly the usage the first entry confirmed. */
  predicate Settled(v: Local) {
    v.first.Some? && v.row.Some? && v.row.value.actual == v.first.value.actual
  }

  /** An entry a process may have read or written: the first one, or the final one that is there to stay. */
  predicate Current(v: Local, e: Entry) {
    v.first.Some? && (e == v.first.value || (e == Finish(v.first.value) && v.file.Some? && v.file.value.entry == e))
  }

  ghost predicate CachedOk(env: Env, h: string, v: Local)
    requires v.first.Some? && v.file.Some?
  {
    var first, file := v.first.value, v.file.value;
    && FirstOk(env, h, first)
    && RowIs(env, h, v, first.token)
    && |v.bills| == 1
    && file.digest == file.entry && Version(first, file.entry)
    && (file.entry != first ==> Settled(v))
  }

  ghost predicate LocalOk(env: Env, h: string, v: Local) {
    && |v.bills| <= 1
    && (v.bills != [] ==> v.row.Some?)
    && (v.row.Some? ==> ConfigOk(env.config(h)) && v.row.value.max == MaxCost(env.config(h)))
    && (v.row.Some? && v.row.value.actual.Some? ==> Settled(v))
    && v.file.Some? == v.first.Some?
    && (v.first.Some? ==> CachedOk(env, h, v))
  }

  predicate Owns(ph: Phase) {
    ph.Holding? || ph.InFlight? || ph.Answered?
  }

  ghost predicate PhaseOk(env: Env, v: Local, ph: Phase) {
    match ph
    case Absent(h) => !Blank(h) && ConfigOk(env.config(h))
    case Present(h) => v.first.Some?
    case Loaded(h, file) => file.digest == file.entry && Current(v, file.entry)
    case Holding(h, token) => RowIs(env, h, v, token) && v.bills == [] && v.first.None?
    case InFlight(h, token, bill) => RowIs(env, h, v, token) && v.bills == [bill] && v.first.None?
    case Answered(h, e) =>
      RowIs(env, h, v, e.token) && FirstOk(env, h, e) && |v.bills| == 1 && v.first.None?
    case Settling(h, e) => Current(v, e)
    case Finishing(h, e) => Settled(v) && e == v.first.value && e.status == ResponseReceived
    case Done(h, e) => Settled(v) && v.file.Some? && v.file.value.entry == e == Finish(v.first.value)
    case Declined(_) => true
    case Stopped(_) => true
  }

  ghost predicate LocalsOk(env: Env, s: Sys) {
    forall h :: LocalOk(env, h, View(s, h))
  }

  ghost predicate ProcOk(env: Env, s: Sys, p: nat)
    requires p in s.procs
  {
    PhaseOk(env, View(s, s.procs[p].h), s.procs[p])
  }

  ghost predicate ProcsOk(env: Env, s: Sys) {
    forall p :: p in s.procs ==> ProcOk(env, s, p)
  }

  /** `p` holds the right to call for `h`. */
  predicate OwnsRequest(procs: map<nat, Phase>, p: nat, h: string) {
    p in procs && Owns(procs[p]) && procs[p].h == h
  }

  ghost predicate Exclusive(procs: map<nat, Phase>) {
    forall p, q, h :: OwnsRequest(procs, p, h) && OwnsRequest(procs, q, h) ==> p == q
  }

  /** Every request's facts agree, every process is where they allow, and no two own one request. */
  ghost predicate Orderly(env: Env, s: Sys) {
    LocalsOk(env, s) && ProcsOk(env, s) && Exclusive(s.procs)
  }

  ghost predicate Inv(env: Env, s: Sys) {
    Sound(s.ledger, env.limit) && Orderly(env, s)
  }
}
