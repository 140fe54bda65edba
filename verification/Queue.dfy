/**
 * The background queue protocol: many producers, one batching worker, an atomic gauge of pending
 * requests. The embedding queue bounds a batch by its length; the entity queue bounds its tokens too.
 */
module Queue {
  import opened Prelude

  datatype Request = Request(id: nat, tokens: nat)

  datatype Config = Config(batchSize: nat, maxTokens: Option<nat>, interval: nat, capacity: nat)

  function Tokens(batch: seq<Request>): nat {
    if batch == [] then 0 else Tokens(batch[..|batch| - 1]) + batch[|batch| - 1].tokens
  }

  /** The requests together have at least as many tokens as the bound. */
  predicate OverTokens(cfg: Config, batch: seq<Request>) {
    cfg.maxTokens.Some? && Tokens(batch) >= cfg.maxTokens.value
  }

  predicate Full(cfg: Config, batch: seq<Request>) {
    |batch| >= cfg.batchSize || OverTokens(cfg, batch)
  }

  /** Each request counts with its own tokens, once. */
  lemma {:induction false} TokensAddUp(a: seq<Request>, b: seq<Request>)
    ensures Tokens(a + b) == Tokens(a) + Tokens(b)
    ensures forall r: Request :: Tokens([r]) == r.tokens
    decreases |b|
  {
    forall r: Request ensures Tokens([r]) == r.tokens { assert [r][..0] == []; }
    if b == [] {
      assert a + b == a;
    } else {
      var n := |b| - 1;
      assert (a + b)[..|a| + n] == a + b[..n] && (a + b)[|a| + n] == b[n];
      TokensAddUp(a, b[..n]);
    }
  }

  // ---------------------------------------------------------------------------------- machine

  /** A producer between counting its request and either sending it or taking the count back. */
  datatype Producer = Counted(request: Request) | Refused(request: Request)

  /** Where the worker goes on after a flush. */
  datatype Then = ThenCollect | ThenDrain | ThenExit

  /** `Settling`: a batch was flushed and is not yet subtracted from the gauge. */
  datatype Worker = Collecting | Polling | Draining | Settling(count: nat, next: Then) | Exited

  datatype Sys = Sys(pending: int, producers: map<nat, Producer>, queue: seq<Request>, batch: seq<Request>,
                     worker: Worker, shutdown: bool, closed: bool, sendersGone: bool,
                     accepted: seq<Request>, flushed: seq<seq<Request>>)

  datatype Action =
    | Count(p: nat, request: Request)
    | TrySend(p: nat)
    | TakeBack(p: nat)
    | SignalShutdown
    | DropSenders
    | Leave(expired: bool)
    | Poll
    | Receive
    | SeeClosed
    | SeeShutdown
    | Timeout
    | DrainOne
    | DrainEnd
    | Settle

  predicate IsWorkerAction(a: Action) {
    !(a.Count? || a.TrySend? || a.TakeBack? || a.SignalShutdown? || a.DropSenders?)
  }

  predicate Enabled(cfg: Config, s: Sys, a: Action) {
    match a
    case Count(p, _) => p !in s.producers && !s.sendersGone
    case TrySend(p) => p in s.producers && s.producers[p].Counted?
    case TakeBack(p) => p in s.producers && s.producers[p].Refused?
    case SignalShutdown => true
    case DropSenders => s.producers == map[]
    case Leave(expired) => s.worker.Collecting? && (expired || cfg.interval == 0 || Full(cfg, s.batch))
    case Poll => s.worker.Collecting? && cfg.interval > 0 && !Full(cfg, s.batch)
    case Receive => s.worker.Polling? && s.queue != []
    case SeeClosed => s.worker.Polling? && s.queue == [] && s.sendersGone
    case SeeShutdown => s.worker.Polling? && s.shutdown
    case Timeout => s.worker.Polling?
    case DrainOne => s.worker.Draining? && s.queue != []
    case DrainEnd => s.worker.Draining? && s.queue == []
    case Settle => s.worker.Settling?
  }

  function GoOn(next: Then): Worker {
    match next case ThenCollect => Collecting case ThenDrain => Draining case ThenExit => Exited
  }

  /** Flush what was collected, if anything, and continue as `next` once it is settled. */
  function Flush(s: Sys, next: Then): Sys {
    if s.batch == [] then s.(worker := GoOn(next))
    else s.(flushed := s.flushed + [s.batch], batch := [], worker := Settling(|s.batch|, next))
  }

  function Take(s: Sys): Sys
    requires s.queue != []
  {
    s.(batch := s.batch + [s.queue[0]], queue := s.queue[1..])
  }

  function Next(cfg: Config, s: Sys, a: Action): Sys
    requires Enabled(cfg, s, a)
  {
    match a
    case Count(p, request) => s.(pending := s.pending + 1, producers := s.producers[p := Counted(request)])
    case TrySend(p) =>
      var request := s.producers[p].request;
      if s.closed || s.worker.Exited? || |s.queue| >= cfg.capacity
      then s.(producers := s.producers[p := Refused(request)])
      else s.(producers := s.producers - {p}, queue := s.queue + [request], accepted := s.accepted + [request])
    case TakeBack(p) => s.(pending := s.pending - 1, producers := s.producers - {p})
    case SignalShutdown => s.(shutdown := true)
    case DropSenders => s.(sendersGone := true)
    case Leave(_) => Flush(s, ThenCollect)
    case Poll => s.(worker := Polling)
    case Receive => Take(s).(worker := Collecting)
    case SeeClosed => Flush(s, ThenExit)
    case SeeShutdown => s.(closed := true, worker := Draining)
    case Timeout => Flush(s, ThenCollect)
    case DrainOne => if Full(cfg, Take(s).batch) then Flush(Take(s), ThenDrain) else Take(s)
    case DrainEnd => Flush(s, ThenExit)
    case Settle => s.(pending := s.pending - s.worker.count, worker := GoOn(s.worker.next))
  }

  predicate Allowed(cfg: Config, s: Sys, run: seq<Action>)
    decreases |run|
  {
    run == [] || (Enabled(cfg, s, run[0]) && Allowed(cfg, Next(cfg, s, run[0]), run[1..]))
  }

  function After(cfg: Config, s: Sys, run: seq<Action>): Sys
    requires Allowed(cfg, s, run)
    decreases |run|
  {
    if run == [] then s else After(cfg, Next(cfg, s, run[0]), run[1..])
  }

  /** A run is its steps one after the other, each enabled where it is taken. */
  lemma {:induction false} RunsTakeEach(cfg: Config, s: Sys, run: seq<Action>, a: Action)
    ensures Allowed(cfg, s, [])
    ensures Allowed(cfg, s, run + [a]) <==> Allowed(cfg, s, run) && Enabled(cfg, After(cfg, s, run), a)
    ensures Allowed(cfg, s, run + [a]) ==> After(cfg, s, run + [a]) == Next(cfg, After(cfg, s, run), a)
    decreases |run|
  {
    if run == [] {
      assert [a][1..] == [] && run + [a] == [a];
    } else {
      assert (run + [a])[1..] == run[1..] + [a];
      if Enabled(cfg, s, run[0]) { RunsTakeEach(cfg, Next(cfg, s, run[0]), run[1..], a); }
    }
  }

  function Initial(): Sys {
    Sys(0, map[], [], [], Collecting, false, false, false, [], [])
  }

  /** At first nothing is counted, queued, batched or flushed, and every producer may begin. */
  lemma BeginsEmpty(cfg: Config, p: nat, request: Request)
    ensures var s := Initial();
            && Enabled(cfg, s, Count(p, request)) && s.pending == 0 && s.queue + s.batch + s.accepted == [] && s.flushed == []
            && s.producers == map[] && s.worker == Collecting && !s.shutdown && !s.closed
  {
  }

  // -------------------------------------------------------------------------------- invariant

  function Concat(batches: seq<seq<Request>>): seq<Request> {
    if batches == [] then [] else Concat(batches[..|batches| - 1]) + batches[|batches| - 1]
  }

  lemma ConcatSnoc(batches: seq<seq<Request>>, b: seq<Request>)
    ensures Concat(batches + [b]) == Concat(batches) + b
  {
    assert (batches + [b])[..|batches|] == batches;
  }

  function Unsettled(w: Worker): nat {
    if w.Settling? then w.count else 0
  }

  /** A batch grows only while it is not full, so it exceeds a bound by at most its last request. */
  predicate Bounded(cfg: Config, batch: seq<Request>) {
    batch == [] || !Full(cfg, batch[..|batch| - 1])
  }

  ghost predicate AllBounded(cfg: Config, flushed: seq<seq<Request>>, from: nat) {
    forall i :: from <= i < |flushed| ==> flushed[i] != [] && Bounded(cfg, flushed[i])
  }

  predicate NoMoreSends(s: Sys) {
    s.closed || (s.sendersGone && s.producers == map[])
  }

  /** What must hold for the worker to go on as `next` with an empty batch. */
  predicate ThenOk(cfg: Config, s: Sys, next: Then) {
    match next
    case ThenCollect => true
    case ThenDrain => s.closed && !Full(cfg, [])
    case ThenExit => NoMoreSends(s) && s.queue == []
  }

  predicate WorkerOk(cfg: Config, s: Sys) {
    match s.worker
    case Collecting => true
    case Polling => !Full(cfg, s.batch) && cfg.interval > 0
    case Draining => s.closed && !Full(cfg, s.batch)
    case Settling(_, next) => s.batch == [] && ThenOk(cfg, s, next)
    case Exited => s.batch == [] && ThenOk(cfg, s, ThenExit)
  }

  ghost predicate Inv(cfg: Config, s: Sys) {
    && s.pending == |s.producers| + |s.queue| + |s.batch| + Unsettled(s.worker)
    && s.accepted == Concat(s.flushed) + (s.batch + s.queue)
    && WorkerOk(cfg, s)
    && (s.sendersGone ==> s.producers == map[])
    && Bounded(cfg, s.batch)
    && AllBounded(cfg, s.flushed, 0)
  }

  lemma CountKeepsInv(cfg: Config, s: Sys, p: nat, request: Request)
    requires Inv(cfg, s) && Enabled(cfg, s, Count(p, request))
    ensures Inv(cfg, Next(cfg, s, Count(p, request)))
  {
    var s' := Next(cfg, s, Count(p, request));
    assert s'.producers.Keys == s.producers.Keys + {p};
  }

  lemma AcceptedAtTheEnd(done: seq<Request>, batch: seq<Request>, queue: seq<Request>, request: Request)
    ensures (done + (batch + queue)) + [request] == done + (batch + (queue + [request]))
  {
  }

  lemma TrySendKeepsInv(cfg: Config, s: Sys, p: nat)
    requires Inv(cfg, s) && Enabled(cfg, s, TrySend(p))
    ensures Inv(cfg, Next(cfg, s, TrySend(p)))
  {
    var s' := Next(cfg, s, TrySend(p));
    assert p in s.producers.Keys;
    if s.closed || s.worker.Exited? || |s.queue| >= cfg.capacity {
      assert s'.producers.Keys == s.producers.Keys;
    } else {
      assert s.producers.Keys == s'.producers.Keys + {p};
      AcceptedAtTheEnd(Concat(s.flushed), s.batch, s.queue, s.producers[p].request);
    }
  }

  lemma TakeBackKeepsInv(cfg: Config, s: Sys, p: nat)
    requires Inv(cfg, s) && Enabled(cfg, s, TakeBack(p))
    ensures Inv(cfg, Next(cfg, s, TakeBack(p)))
  {
    var s' := Next(cfg, s, TakeBack(p));
    assert s.producers.Keys == s'.producers.Keys + {p};
  }

  /** The part of the invariant that does not depend on where the worker is. */
  ghost predicate Sound(cfg: Config, s: Sys) {
    && s.pending == |s.producers| + |s.queue| + |s.batch|
    && s.accepted == Concat(s.flushed) + (s.batch + s.queue)
    && (s.sendersGone ==> s.producers == map[])
    && Bounded(cfg, s.batch)
    && AllBounded(cfg, s.flushed, 0)
  }

  lemma FlushOne(cfg: Config, flushed: seq<seq<Request>>, batch: seq<Request>, queue: seq<Request>, from: nat)
    requires batch != [] && Bounded(cfg, batch) && AllBounded(cfg, flushed, from)
    ensures Concat(flushed + [batch]) + ([] + queue) == Concat(flushed) + (batch + queue)
    ensures AllBounded(cfg, flushed + [batch], from)
  {
    ConcatSnoc(flushed, batch);
    assert Concat(flushed) + batch + ([] + queue) == Concat(flushed) + (batch + queue);
  }

  lemma FlushKeepsInv(cfg: Config, s: Sys, next: Then)
    requires Sound(cfg, s) && ThenOk(cfg, s, next)
    ensures Inv(cfg, Flush(s, next))
  {
    if s.batch != [] {
      FlushOne(cfg, s.flushed, s.batch, s.queue, 0);
    }
  }

  lemma TakeIsSound(cfg: Config, s: Sys)
    requires Sound(cfg, s) && s.queue != [] && !Full(cfg, s.batch)
    ensures Sound(cfg, Take(s))
  {
    assert Take(s).batch[..|s.batch|] == s.batch;
    assert s.batch + s.queue == Take(s).batch + Take(s).queue;
    assert Concat(s.flushed) + (s.batch + s.queue) == Concat(s.flushed) + s.batch + s.queue;
    assert Concat(s.flushed) + (Take(s).batch + Take(s).queue) == Concat(s.flushed) + Take(s).batch + Take(s).queue;
  }

  lemma DrainOneKeepsInv(cfg: Config, s: Sys)
    requires Inv(cfg, s) && Enabled(cfg, s, DrainOne)
    ensures Inv(cfg, Next(cfg, s, DrainOne))
  {
    TakeIsSound(cfg, s);
    if Full(cfg, Take(s).batch) {
      EmptyIsLeast(cfg, s.batch);
      FlushKeepsInv(cfg, Take(s), ThenDrain);
    }
  }

  lemma StepKeepsInv(cfg: Config, s: Sys, a: Action)
    requires Inv(cfg, s) && Enabled(cfg, s, a)
    ensures Inv(cfg, Next(cfg, s, a))
  {
    match a
    case Leave(_) => FlushKeepsInv(cfg, s, ThenCollect);
    case Poll =>
    case Receive => TakeIsSound(cfg, s);
    case SeeClosed => FlushKeepsInv(cfg, s, ThenExit);
    case SeeShutdown =>
    case Timeout => FlushKeepsInv(cfg, s, ThenCollect);
    case DrainOne => DrainOneKeepsInv(cfg, s);
    case DrainEnd => FlushKeepsInv(cfg, s, ThenExit);
    case Settle =>
    case Count(p, request) => CountKeepsInv(cfg, s, p, request);
    case TrySend(p) => TrySendKeepsInv(cfg, s, p);
    case TakeBack(p) => TakeBackKeepsInv(cfg, s, p);
    case SignalShutdown =>
    case DropSenders =>
  }

  lemma EmptyIsLeast(cfg: Config, batch: seq<Request>)
    ensures Full(cfg, []) ==> Full(cfg, batch)
  {
  }

  lemma {:induction false} RunKeepsInv(cfg: Config, s: Sys, run: seq<Action>)
    requires Inv(cfg, s) && Allowed(cfg, s, run)
    ensures Inv(cfg, After(cfg, s, run))
    decreases |run|
  {
    if run != [] {
      StepKeepsInv(cfg, s, run[0]);
      RunKeepsInv(cfg, Next(cfg, s, run[0]), run[1..]);
    }
  }

  // ------------------------------------------------------------------------------ main results

  /**
   * In every interleaving the gauge is exactly the requests counted by producers still at it, queued,
   * batched, and flushed but unsettled; so it never drops below zero.
   */
  lemma GaugeIsExact(cfg: Config, run: seq<Action>)
    requires Allowed(cfg, Initial(), run)
    ensures var s := After(cfg, Initial(), run);
            s.pending == |s.producers| + |s.queue| + |s.batch| + Unsettled(s.worker) && s.pending >= 0
  {
    RunKeepsInv(cfg, Initial(), run);
  }

  /** Accepted requests are flushed exactly once and in order, in batches inside both bounds. */
  lemma FlushedInOrder(cfg: Config, run: seq<Action>)
    requires Allowed(cfg, Initial(), run)
    ensures var s := After(cfg, Initial(), run);
            && Concat(s.flushed) + s.batch + s.queue == s.accepted
            && (s.worker.Exited? ==> Concat(s.flushed) == s.accepted)
            && forall i :: 0 <= i < |s.flushed| ==>
                 var b := s.flushed[i];
                 && 0 < |b| <= cfg.batchSize
                 && (cfg.maxTokens.Some? ==> Tokens(b[..|b| - 1]) < cfg.maxTokens.value)
  {
    RunKeepsInv(cfg, Initial(), run);
  }

  /**
   * A batch leaves early only because time ran out or nothing more can come: outside those steps it has
   * reached a bound. And the worker never waits, nor goes on draining, with a batch that has.
   */
  lemma LeavesEarlyOnlyWhen(cfg: Config, run: seq<Action>, a: Action)
    requires Allowed(cfg, Initial(), run) && Enabled(cfg, After(cfg, Initial(), run), a)
    ensures var s := After(cfg, Initial(), run);
            var after := Next(cfg, s, a);
            && (after.flushed != s.flushed ==>
                  var b := if a.DrainOne? then s.batch + [s.queue[0]] else s.batch;
                  && after.flushed == s.flushed + [b] && after.batch == []
                  && (|b| >= cfg.batchSize || (cfg.maxTokens.Some? && Tokens(b) >= cfg.maxTokens.value)
                      || a in {Leave(true), Timeout, SeeClosed, DrainEnd} || cfg.interval == 0))
            && (s.worker in {Polling, Draining} ==>
                  |s.batch| < cfg.batchSize && (cfg.maxTokens.Some? ==> Tokens(s.batch) < cfg.maxTokens.value))
  {
    RunKeepsInv(cfg, Initial(), run);
  }

  /** After the worker has exited the gauge is zero exactly if no producer is in the middle of an enqueue. */
  lemma ZeroAfterExitIff(cfg: Config, run: seq<Action>)
    requires Allowed(cfg, Initial(), run) && After(cfg, Initial(), run).worker.Exited?
    ensures var s := After(cfg, Initial(), run);
            s.pending == 0 <==> s.producers == map[]
  {
    RunKeepsInv(cfg, Initial(), run);
    var s := After(cfg, Initial(), run);
    if |s.producers| == 0 {
      assert s.producers.Keys == {};
    }
  }

  /** A producer caught between counting and taking back leaves the gauge at one after shutdown. */
  lemma NotAlwaysZeroAfterExit() returns (cfg: Config, run: seq<Action>)
    ensures Allowed(cfg, Initial(), run)
    ensures After(cfg, Initial(), run).worker.Exited? && After(cfg, Initial(), run).pending == 1
  {
    cfg := Config(1, None, 1, 1);
    var s1 := Next(cfg, Initial(), SignalShutdown);
    var s2 := Next(cfg, s1, Count(0, Request(0, 0)));
    var s3 := Next(cfg, s2, Poll);
    var s4 := Next(cfg, s3, SeeShutdown);
    var s5 := Next(cfg, s4, DrainEnd);
    Prepend(cfg, s4, DrainEnd, []);
    Prepend(cfg, s3, SeeShutdown, [DrainEnd]);
    Prepend(cfg, s2, Poll, [SeeShutdown] + [DrainEnd]);
    Prepend(cfg, s1, Count(0, Request(0, 0)), [Poll] + ([SeeShutdown] + [DrainEnd]));
    Prepend(cfg, Initial(), SignalShutdown, [Count(0, Request(0, 0))] + ([Poll] + ([SeeShutdown] + [DrainEnd])));
    run := [SignalShutdown] + ([Count(0, Request(0, 0))] + ([Poll] + ([SeeShutdown] + [DrainEnd])));
  }

  lemma Prepend(cfg: Config, s: Sys, a: Action, run: seq<Action>)
    requires Enabled(cfg, s, a) && Allowed(cfg, Next(cfg, s, a), run)
    ensures Allowed(cfg, s, [a] + run) && After(cfg, s, [a] + run) == After(cfg, Next(cfg, s, a), run)
  {
    assert ([a] + run)[1..] == run;
  }

  // ---------------------------------------------------------------------------------- progress

  /** The worker gets to look at its channel at all. */
  predicate CanWork(cfg: Config) {
    cfg.interval > 0 && cfg.batchSize > 0 && (cfg.maxTokens.Some? ==> cfg.maxTokens.value > 0)
  }

  /** How far a worker that has been told to shut down still is from having exited. */
  function Distance(cfg: Config, s: Sys): nat {
    var q := 3 * |s.queue|;
    match s.worker
    case Exited => 0
    case Draining => q + 2
    case Polling => q + 4
    case Collecting => if Full(cfg, s.batch) then q + 7 else q + 5
    case Settling(_, next) => (match next case ThenExit => 1 case ThenDrain => q + 3 case ThenCollect => q + 6)
  }

  function NextTowardsExit(cfg: Config, s: Sys): Action {
    match s.worker
    case Draining => if s.queue != [] then DrainOne else DrainEnd
    case Polling => SeeShutdown
    case Collecting => if Full(cfg, s.batch) then Leave(false) else Poll
    case _ => Settle
  }

  lemma StepsTowardsExit(cfg: Config, s: Sys)
    requires Inv(cfg, s) && CanWork(cfg) && s.shutdown && !s.worker.Exited?
    ensures var a := NextTowardsExit(cfg, s);
            && Enabled(cfg, s, a) && IsWorkerAction(a)
            && Distance(cfg, Next(cfg, s, a)) < Distance(cfg, s)
            && Next(cfg, s, a).shutdown && Next(cfg, s, a).accepted == s.accepted
  {
  }

  /** Left to run after a shutdown signal, a worker that can work drains everything accepted and exits. */
  lemma {:induction false} ShutdownDrains(cfg: Config, s: Sys) returns (run: seq<Action>)
    requires Inv(cfg, s) && CanWork(cfg) && s.shutdown
    ensures forall i :: 0 <= i < |run| ==> IsWorkerAction(run[i])
    ensures Allowed(cfg, s, run) && After(cfg, s, run).worker.Exited?
    ensures Concat(After(cfg, s, run).flushed) == s.accepted
    decreases Distance(cfg, s)
  {
    if s.worker.Exited? {
      run := [];
    } else {
      var a := NextTowardsExit(cfg, s);
      StepsTowardsExit(cfg, s);
      StepKeepsInv(cfg, s, a);
      var rest := ShutdownDrains(cfg, Next(cfg, s, a));
      run := [a] + rest;
      assert run[1..] == rest;
    }
  }

  /** A step by which the worker turns away from a signal it could take: a premature timeout, or a request received first. */
  predicate IsDetour(cfg: Config, s: Sys, a: Action) {
    (a.Leave? && !Full(cfg, s.batch)) || a.Receive? || a.Timeout?
  }

  function Detours(cfg: Config, s: Sys, run: seq<Action>): nat
    requires Allowed(cfg, s, run)
    decreases |run|
  {
    if run == [] then 0 else (if IsDetour(cfg, s, run[0]) then 1 else 0) + Detours(cfg, Next(cfg, s, run[0]), run[1..])
  }

  function WorkerSteps(run: seq<Action>): nat {
    if run == [] then 0 else (if IsWorkerAction(run[0]) then 1 else 0) + WorkerSteps(run[1..])
  }

  /** Each step counts once, as the worker's own or not, and as a detour or not. */
  lemma {:induction false} StepsAddUp(cfg: Config, s: Sys, run: seq<Action>, a: Action)
    requires Allowed(cfg, s, run + [a])
    ensures Allowed(cfg, s, run) && Allowed(cfg, s, []) && Detours(cfg, s, []) == 0 && WorkerSteps([]) == 0
    ensures var now := After(cfg, s, run);
            Detours(cfg, s, run + [a]) - Detours(cfg, s, run) ==
            if a in {Receive, Timeout} || (a.Leave? && |now.batch| < cfg.batchSize && !OverTokens(cfg, now.batch)) then 1 else 0
    ensures WorkerSteps(run + [a]) - WorkerSteps(run) ==
            if a.Leave? || a in {Poll, Receive, SeeClosed, SeeShutdown, Timeout, DrainOne, DrainEnd, Settle} then 1 else 0
    decreases |run|
  {
    RunsTakeEach(cfg, s, run, a);
    if run == [] {
      assert [a][1..] == [] && run + [a] == [a];
    } else {
      assert (run + [a])[1..] == run[1..] + [a];
      StepsAddUp(cfg, Next(cfg, s, run[0]), run[1..], a);
    }
  }

  lemma AcceptedGrows(cfg: Config, s: Sys, a: Action)
    requires Enabled(cfg, s, a)
    ensures |s.accepted| <= |Next(cfg, s, a).accepted|
  {
  }

  lemma ProducerCost(cfg: Config, s: Sys, a: Action)
    requires Inv(cfg, s) && s.shutdown && Enabled(cfg, s, a) && !IsWorkerAction(a)
    ensures var s' := Next(cfg, s, a);
            s'.shutdown && Distance(cfg, s') <= Distance(cfg, s) + 3 * (|s'.accepted| - |s.accepted|)
  {
  }

  lemma DetourCost(cfg: Config, s: Sys, a: Action)
    requires Inv(cfg, s) && CanWork(cfg) && s.shutdown && Enabled(cfg, s, a) && IsDetour(cfg, s, a)
    ensures var s' := Next(cfg, s, a);
            s'.shutdown && s'.accepted == s.accepted && Distance(cfg, s') <= Distance(cfg, s) + 2
  {
  }

  lemma DirectCost(cfg: Config, s: Sys, a: Action)
    requires Inv(cfg, s) && CanWork(cfg) && s.shutdown && Enabled(cfg, s, a) && IsWorkerAction(a) && !IsDetour(cfg, s, a)
    ensures var s' := Next(cfg, s, a);
            s'.shutdown && s'.accepted == s.accepted && Distance(cfg, s') < Distance(cfg, s)
  {
  }

  /** Every worker step brings the exit nearer, except a detour; a request sent puts it off by three. */
  lemma StepCost(cfg: Config, s: Sys, a: Action)
    requires Inv(cfg, s) && CanWork(cfg) && s.shutdown && Enabled(cfg, s, a)
    ensures var s' := Next(cfg, s, a);
            && s'.shutdown
            && (if IsWorkerAction(a) then 1 else 0) + Distance(cfg, s') <=
                 Distance(cfg, s) + (if IsDetour(cfg, s, a) then 3 else 0) + 3 * (|s'.accepted| - |s.accepted|)
  {
    if !IsWorkerAction(a) {
      ProducerCost(cfg, s, a);
    } else if IsDetour(cfg, s, a) {
      DetourCost(cfg, s, a);
    } else {
      DirectCost(cfg, s, a);
    }
  }

  /**
   * In every run after the signal, with producers interleaved in any way, the worker takes no more steps than
   * its distance from the exit, and three for each detour and for each request still accepted.
   */
  lemma {:induction false} StepsAreBounded(cfg: Config, s: Sys, run: seq<Action>)
    requires Inv(cfg, s) && CanWork(cfg) && s.shutdown && Allowed(cfg, s, run)
    ensures var s' := After(cfg, s, run);
            && s'.shutdown && Inv(cfg, s') && |s.accepted| <= |s'.accepted|
            && WorkerSteps(run) + Distance(cfg, s') <=
                 Distance(cfg, s) + 3 * Detours(cfg, s, run) + 3 * (|s'.accepted| - |s.accepted|)
    decreases |run|
  {
    if run != [] {
      StepKeepsInv(cfg, s, run[0]);
      StepCost(cfg, s, run[0]);
      AcceptedGrows(cfg, s, run[0]);
      StepsAreBounded(cfg, Next(cfg, s, run[0]), run[1..]);
    }
  }

  /**
   * So every run that goes on for long enough has drained everything and exited, and until then the worker
   * is never stuck: it has a step that is no detour.
   */
  lemma EveryRunDrains(cfg: Config, s: Sys, run: seq<Action>)
    requires Inv(cfg, s) && CanWork(cfg) && s.shutdown && Allowed(cfg, s, run)
    ensures var s' := After(cfg, s, run);
            && (WorkerSteps(run) >= Distance(cfg, s) + 3 * Detours(cfg, s, run) + 3 * (|s'.accepted| - |s.accepted|) ==>
                  s'.worker.Exited?)
            && (s'.worker.Exited? ==> Concat(s'.flushed) == s'.accepted)
            && (!s'.worker.Exited? ==>
                  var a := NextTowardsExit(cfg, s');
                  Enabled(cfg, s', a) && IsWorkerAction(a) && !IsDetour(cfg, s', a))
  {
    StepsAreBounded(cfg, s, run);
    var s' := After(cfg, s, run);
    if s'.worker.Exited? {
      assert s'.batch + s'.queue == [];
    } else {
      StepsTowardsExit(cfg, s');
    }
  }

  function Prefix(step: nat -> Action, n: nat): seq<Action> {
    if n == 0 then [] else Prefix(step, n - 1) + [step(n - 1)]
  }

  lemma {:induction false} PrefixIs(step: nat -> Action, n: nat)
    ensures |Prefix(step, n)| == n
    ensures forall i :: 0 <= i < n ==> Prefix(step, n)[i] == step(i)
  {
    if n > 0 { PrefixIs(step, n - 1); }
  }

  /**
   * Fair: the worker keeps going until it has exited, turns away from the signal only so many times, and no more
   * than so many requests get in.
   */
  ghost predicate Fair(cfg: Config, s: Sys, step: nat -> Action, detours: nat, sends: nat) {
    && (forall n: nat :: Allowed(cfg, s, Prefix(step, n)))
    && (forall n: nat :: Detours(cfg, s, Prefix(step, n)) <= detours &&
                         |After(cfg, s, Prefix(step, n)).accepted| <= |s.accepted| + sends)
    && (forall k: nat :: GoesOnFor(cfg, s, step, k))
  }

  ghost predicate GoesOnFor(cfg: Config, s: Sys, step: nat -> Action, k: nat) {
    exists n: nat :: GoesOn(cfg, s, Prefix(step, n), k)
  }

  /** The worker has exited, or taken this many steps. */
  ghost predicate GoesOn(cfg: Config, s: Sys, run: seq<Action>, k: nat) {
    Allowed(cfg, s, run) && (After(cfg, s, run).worker.Exited? || WorkerSteps(run) >= k)
  }

  /** Every fair infinite run after the signal drains everything accepted and exits. */
  lemma FairRunsDrain(cfg: Config, s: Sys, step: nat -> Action, detours: nat, sends: nat)
    requires Inv(cfg, s) && CanWork(cfg) && s.shutdown && Fair(cfg, s, step, detours, sends)
    ensures exists n: nat :: DrainedBy(cfg, s, Prefix(step, n))
  {
    var k := Distance(cfg, s) + 3 * detours + 3 * sends;
    assert GoesOnFor(cfg, s, step, k);
    var n: nat :| GoesOn(cfg, s, Prefix(step, n), k);
    EveryRunDrains(cfg, s, Prefix(step, n));
    assert DrainedBy(cfg, s, Prefix(step, n));
  }

  ghost predicate DrainedBy(cfg: Config, s: Sys, run: seq<Action>) {
    Allowed(cfg, s, run) && var s' := After(cfg, s, run); s'.worker.Exited? && Concat(s'.flushed) == s'.accepted
  }

  lemma {:induction false} NeverLooks(cfg: Config, s: Sys, run: seq<Action>)
    requires !CanWork(cfg) && s.worker.Collecting? && s.batch == [] && s.flushed == [] && Allowed(cfg, s, run)
    ensures var s' := After(cfg, s, run);
            s'.worker.Collecting? && s'.batch == [] && s'.flushed == []
    decreases |run|
  {
    if run != [] {
      NeverLooks(cfg, Next(cfg, s, run[0]), run[1..]);
    }
  }

  /** From every state reached with the shutdown signalled, the worker can exit if and only if it can work. */
  lemma ShutdownCompletesIff(cfg: Config, before: seq<Action>)
    requires Allowed(cfg, Initial(), before) && After(cfg, Initial(), before).shutdown
    ensures var s := After(cfg, Initial(), before);
            CanWork(cfg) <==> exists run :: Allowed(cfg, s, run) && After(cfg, s, run).worker.Exited?
  {
    var s := After(cfg, Initial(), before);
    if CanWork(cfg) {
      RunKeepsInv(cfg, Initial(), before);
      var run := ShutdownDrains(cfg, s);
    } else {
      NeverLooks(cfg, Initial(), before);
      forall run | Allowed(cfg, s, run) ensures !After(cfg, s, run).worker.Exited? {
        NeverLooks(cfg, s, run);
      }
    }
  }

  // ------------------------------------------------------------------------------ the program

  /** The worker's own state while it drains a closed channel. */
  class QueueWorker {
    const cfg: Config
    var pending: int
    var queue: seq<Request>
    var batch: seq<Request>
    var flushed: seq<seq<Request>>

    constructor (cfg: Config, pending: int, queue: seq<Request>, batch: seq<Request>)
      ensures this.cfg == cfg && this.pending == pending && this.queue == queue && this.batch == batch && flushed == []
    {
      this.cfg := cfg;
      this.pending := pending;
      this.queue := queue;
      this.batch := batch;
      this.flushed := [];
    }

    /** Count first, send second, and take the count back if the channel refuses. */
    method Enqueue(request: Request, closed: bool) returns (ok: bool)
      modifies this
      ensures ok == (!closed && |old(queue)| < cfg.capacity)
      ensures pending - |queue| == old(pending) - |old(queue)|
      ensures queue == if ok then old(queue) + [request] else old(queue)
      ensures batch == old(batch) && flushed == old(flushed)
    {
      pending := pending + 1;
      if closed || |queue| >= cfg.capacity {
        pending := pending - 1;
        return false;
      }
      queue := queue + [request];
      return true;
    }

    method FlushBatch()
      modifies this
      ensures flushed == old(flushed) + [old(batch)] && batch == []
      ensures pending == old(pending) - |old(batch)| && queue == old(queue)
    {
      var count := |batch|;
      flushed := flushed + [batch];
      batch := [];
      pending := pending - count;
    }

    /** Everything batched or queued is flushed in order, in bounded batches, and settled. */
    method DrainQueue()
      requires !Full(cfg, batch)
      modifies this
      ensures queue == [] && batch == []
      ensures Concat(flushed) == Concat(old(flushed)) + old(batch) + old(queue)
      ensures pending == old(pending) - |old(batch)| - |old(queue)|
      ensures old(flushed) <= flushed
      ensures AllBounded(cfg, flushed, |old(flushed)|)
      ensures forall i :: |old(flushed)| <= i < |flushed| - 1 ==>
                |flushed[i]| >= cfg.batchSize || (cfg.maxTokens.Some? && Tokens(flushed[i]) >= cfg.maxTokens.value)
    {
      ghost var all := Concat(flushed) + (batch + queue);
      ghost var due := pending - |batch| - |queue|;
      while queue != []
        invariant !Full(cfg, batch)
        invariant Concat(flushed) + (batch + queue) == all
        invariant pending - |batch| - |queue| == due
        invariant old(flushed) <= flushed
        invariant AllBounded(cfg, flushed, |old(flushed)|)
        invariant forall i :: |old(flushed)| <= i < |flushed| ==> |flushed[i]| >= cfg.batchSize || OverTokens(cfg, flushed[i])
        decreases |queue|
      {
        TakeOne(cfg, batch, queue);
        batch, queue := batch + [queue[0]], queue[1..];
        if Full(cfg, batch) {
          FlushOne(cfg, flushed, batch, queue, |old(flushed)|);
          FlushBatch();
        }
      }
      assert batch + queue == batch;
      if batch != [] {
        PrefixNotFull(cfg, batch);
        FlushOne(cfg, flushed, batch, queue, |old(flushed)|);
        FlushBatch();
      }
      assert Concat(flushed) + [] == Concat(flushed);
      assert all == Concat(old(flushed)) + old(batch) + old(queue);
    }
  }

  lemma TakeOne(cfg: Config, batch: seq<Request>, queue: seq<Request>)
    requires queue != [] && !Full(cfg, batch)
    ensures batch + queue == (batch + [queue[0]]) + queue[1..]
    ensures Bounded(cfg, batch + [queue[0]])
    ensures !Full(cfg, [])
  {
    assert (batch + [queue[0]])[..|batch|] == batch;
    EmptyIsLeast(cfg, batch);
  }

  lemma PrefixNotFull(cfg: Config, batch: seq<Request>)
    requires batch != [] && !Full(cfg, batch)
    ensures !Full(cfg, batch[..|batch| - 1])
  {
  }
}
