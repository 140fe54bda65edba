/** The shared engine of the hosted worker: scopes fenced by epochs, with build jobs running under them. */
module EpochFence {
  import opened Prelude

  type Path = string
  type Scope = string
  type JobId = string

  datatype Context = Context(actor: string, scope: Scope, epoch: int)

  datatype Outcome = Finished(payload: string) | Failed | Panicked

  /** A build job and how its thread will end, unknown until it is awaited. */
  datatype ScopeState = ScopeState(root: Path, jobs: map<JobId, Outcome>)

  datatype Refusal =
    | InvalidContext | BadRoot | StaleEpoch | ActiveJobs | NotOpen | BadRequest
    | JobExists | JobAbsent | JobFailed | CommandFailed | UnknownCommand

  /** What the file system says of the directory named by an open request. */
  datatype Target = Target(isDirectory: bool, reader: bool, marker: Option<Context>, canonical: Option<Path>, parent: Option<Path>)

  datatype Command =
    | OpenScope(target: Target)
    | Build(job: JobId, wellFormed: bool, outcome: Outcome)
    | Await(awaited: JobId)
    | Query(answer: Option<string>)
    | Status
    | Unknown

  datatype Reply = Opened(count: nat) | Pending(job: JobId) | Answer(text: string) | Contexts(total: nat)

  datatype State = State(contexts: map<Context, ScopeState>, epochs: map<Scope, int>)

  predicate SafeChar(c: char) {
    'a' <= c <= 'z' || 'A' <= c <= 'Z' || '0' <= c <= '9' || c == '_' || c == '-'
  }

  predicate SafeName(s: string) {
    0 < |s| <= 128 && forall i :: 0 <= i < |s| ==> SafeChar(s[i])
  }

  predicate ValidContext(c: Context) { SafeName(c.actor) && SafeName(c.scope) && c.epoch >= 0 }

  // ------------------------------------------------------------------------------- the machine

  /** A reader's directory must carry the context's own marker; any other must sit right under the shared root. */
  function CanonicalRoot(sharedRoot: Path, context: Context, t: Target): Option<Path> {
    if !t.isDirectory then None
    else if t.reader then if t.marker == Some(context) then t.canonical else None
    else if t.parent == Some(sharedRoot) then t.canonical
    else None
  }

  predicate ScopeBusy(contexts: map<Context, ScopeState>, scope: Scope) {
    exists c :: c in contexts && c.scope == scope && contexts[c].jobs != map[]
  }

  function Advance(s: State, context: Context): Result<State, Refusal> {
    var known := context.scope in s.epochs;
    if known && context.epoch < s.epochs[context.scope] then Err(StaleEpoch)
    else if known && context.epoch == s.epochs[context.scope] then Ok(s)
    else if ScopeBusy(s.contexts, context.scope) then Err(ActiveJobs)
    else Ok(s.(epochs := s.epochs[context.scope := context.epoch]))
  }

  function Open(sharedRoot: Path, s: State, context: Context, t: Target): (State, Result<Reply, Refusal>) {
    match CanonicalRoot(sharedRoot, context, t)
    case None => (s, Err(BadRoot))
    case Some(root) =>
      match Advance(s, context)
      case Err(e) => (s, Err(e))
      case Ok(advanced) =>
        var jobs := if context in s.contexts then s.contexts[context].jobs else map[];
        if jobs != map[] then (advanced, Err(ActiveJobs))
        else
          var after := advanced.(contexts := s.contexts[context := ScopeState(root, map[])]);
          (after, Ok(Opened(|after.contexts|)))
  }

  function WithJobs(s: State, context: Context, jobs: map<JobId, Outcome>): State
    requires context in s.contexts
  {
    s.(contexts := s.contexts[context := s.contexts[context].(jobs := jobs)])
  }

  function Joined(outcome: Outcome): Result<Reply, Refusal> {
    if outcome.Finished? then Ok(Answer(outcome.payload)) else Err(JobFailed)
  }

  predicate Current(s: State, context: Context) {
    context.scope in s.epochs && s.epochs[context.scope] == context.epoch
  }

  function Execute(sharedRoot: Path, s: State, context: Context, command: Command): (State, Result<Reply, Refusal>) {
    if !ValidContext(context) then (s, Err(InvalidContext))
    else if command.OpenScope? then Open(sharedRoot, s, context, command.target)
    else if !Current(s, context) then (s, Err(StaleEpoch))
    else if context !in s.contexts then (s, Err(NotOpen))
    else
      var jobs := s.contexts[context].jobs;
      match command
      case Build(job, wellFormed, outcome) =>
        if !wellFormed then (s, Err(BadRequest))
        else if job in jobs then (s, Err(JobExists))
        else (WithJobs(s, context, jobs[job := outcome]), Ok(Pending(job)))
      case Await(job) =>
        if job !in jobs then (s, Err(JobAbsent)) else (WithJobs(s, context, jobs - {job}), Joined(jobs[job]))
      case Query(answer) => (s, if answer.Some? then Ok(Answer(answer.value)) else Err(CommandFailed))
      case Status => (s, Ok(Contexts(|s.contexts|)))
      case _ => (s, Err(UnknownCommand))
  }

  // ---------------------------------------------------------------------------- what the replies say

  /** A name is one to 128 ASCII letters, digits, underscores and hyphens, and an epoch is not negative. */
  lemma ContextIsValidIff(c: Context)
    ensures ValidContext(c) <==> NameOk(c.actor) && NameOk(c.scope) && c.epoch > -1
  {
  }

  ghost predicate NameOk(s: string) {
    1 <= |s| < 129 && forall i :: 0 <= i < |s| ==> CodeOk(s[i] as int)
  }

  predicate CodeOk(code: nat) {
    code in {45, 95} || 47 < code < 58 || 64 < code < 91 || 96 < code < 123
  }

  /** Every job of every context of the scope was awaited. */
  ghost predicate Quiet(s: State, scope: Scope) {
    forall c, job :: c in s.contexts && c.scope == scope ==> job !in s.contexts[c].jobs
  }

  lemma QuietIff(s: State, scope: Scope)
    ensures Quiet(s, scope) <==> !ScopeBusy(s.contexts, scope)
  {
    forall c | c in s.contexts && c.scope == scope && s.contexts[c].jobs != map[] ensures !Quiet(s, scope) {
      var job :| job in s.contexts[c].jobs;
    }
  }

  /** The directory may serve the context: a reader by the context's own marker, any other by its place. */
  predicate Serves(sharedRoot: Path, context: Context, t: Target) {
    && t.isDirectory && t.canonical.Some?
    && (t.reader ==> t.marker == Some(context))
    && (!t.reader ==> t.parent == Some(sharedRoot))
  }

  ghost predicate Overtaken(s: State, context: Context) {
    context.scope in s.epochs && context.epoch < s.epochs[context.scope]
  }

  lemma AdvanceMeans(s: State, context: Context)
    ensures var r := Advance(s, context);
            && (r == Err(StaleEpoch) <==> Overtaken(s, context))
            && (r.Ok? <==> !Overtaken(s, context) && (Current(s, context) || Quiet(s, context.scope)))
            && (r.Err? ==> r.error in {StaleEpoch, ActiveJobs})
            && (r.Ok? ==> r.value.epochs == s.epochs[context.scope := context.epoch])
  {
    QuietIff(s, context.scope);
  }

  ghost predicate Idle(s: State, context: Context) {
    forall job :: !Running(s, context, job)
  }

  lemma IdleIff(s: State, context: Context)
    ensures Idle(s, context) <==> context !in s.contexts || s.contexts[context].jobs == map[]
  {
    if context in s.contexts && s.contexts[context].jobs != map[] {
      var job :| job in s.contexts[context].jobs;
      assert Running(s, context, job);
    }
  }

  /**
   * An open succeeds exactly if the directory may serve the context, its epoch is not below the scope's,
   * no job of the scope would be overtaken and none runs under the context itself.
   */
  lemma OpenSucceedsIff(sharedRoot: Path, s: State, context: Context, t: Target)
    requires ValidContext(context)
    ensures var reply := Execute(sharedRoot, s, context, OpenScope(t)).1;
            && (reply.Ok? <==> && Serves(sharedRoot, context, t) && !Overtaken(s, context) && Idle(s, context)
                               && (Current(s, context) || Quiet(s, context.scope)))
            && (reply == Err(BadRoot) <==> !Serves(sharedRoot, context, t))
            && (reply == Err(StaleEpoch) <==> Serves(sharedRoot, context, t) && Overtaken(s, context))
            && (reply.Err? ==> reply.error in {BadRoot, StaleEpoch, ActiveJobs})
  {
    AdvanceMeans(s, context);
    IdleIff(s, context);
  }

  /** An open that succeeds raises the scope's epoch and points the context at the directory. */
  lemma OpenPointsAtTheDirectory(sharedRoot: Path, s: State, context: Context, t: Target)
    requires Execute(sharedRoot, s, context, OpenScope(t)).1.Ok?
    ensures var (after, reply) := Execute(sharedRoot, s, context, OpenScope(t));
            && after.epochs == s.epochs[context.scope := context.epoch]
            && t.canonical.Some? && after.contexts == s.contexts[context := ScopeState(t.canonical.value, map[])]
            && reply == Ok(Opened(|s.contexts.Keys + {context}|))
  {
    AdvanceMeans(s, context);
    var after := Execute(sharedRoot, s, context, OpenScope(t)).0;
    assert after.contexts.Keys == s.contexts.Keys + {context};
  }

  /** What stands between a context and a command other than an open, in the order it is looked at. */
  lemma CommandsAreFenced(sharedRoot: Path, s: State, context: Context, command: Command)
    ensures var reply := Execute(sharedRoot, s, context, command).1;
            && (!ValidContext(context) ==> reply == Err(InvalidContext))
            && (ValidContext(context) && !command.OpenScope? ==>
                  && (!(context.scope in s.epochs && s.epochs[context.scope] == context.epoch) ==> reply == Err(StaleEpoch))
                  && (context.scope in s.epochs && s.epochs[context.scope] == context.epoch && context !in s.contexts ==>
                        reply == Err(NotOpen)))
  {
  }

  /** What a command other than an open does once its context is open and current, with the state it leaves. */
  lemma CommandMeans(sharedRoot: Path, s: State, context: Context, command: Command)
    requires ValidContext(context) && context in s.contexts
    requires context.scope in s.epochs && s.epochs[context.scope] == context.epoch
    ensures var (after, reply) := Execute(sharedRoot, s, context, command);
            var held := s.contexts[context];
            match command
            case OpenScope(_) => true
            case Build(job, wellFormed, outcome) =>
              if wellFormed && job !in held.jobs
              then reply == Ok(Pending(job)) && OnlyJobs(s, after, context, held.jobs[job := outcome])
              else after == s && reply == Err(if wellFormed then JobExists else BadRequest)
            case Await(job) =>
              if job in held.jobs
              then && OnlyJobs(s, after, context, map other | other in held.jobs && other != job :: held.jobs[other])
                   && (forall text :: held.jobs[job] == Finished(text) <==> reply == Ok(Answer(text)))
                   && (held.jobs[job] in {Failed, Panicked} <==> reply == Err(JobFailed))
              else after == s && reply == Err(JobAbsent)
            case Query(answer) =>
              && after == s
              && (forall text :: answer == Some(text) <==> reply == Ok(Answer(text)))
              && (answer == None <==> reply == Err(CommandFailed))
            case Status => after == s && reply == Ok(Contexts(|s.contexts.Keys|))
            case Unknown => after == s && reply == Err(UnknownCommand)
  {
    match command
    case Await(job) =>
      var jobs := s.contexts[context].jobs;
      assert jobs - {job} == map other | other in jobs && other != job :: jobs[other];
    case _ =>
  }

  /** Only the context's own jobs changed. */
  ghost predicate OnlyJobs(s: State, after: State, context: Context, jobs: map<JobId, Outcome>)
    requires context in s.contexts
  {
    && after.epochs == s.epochs
    && after.contexts == s.contexts[context := ScopeState(s.contexts[context].root, jobs)]
  }

  // -------------------------------------------------------------------------- every reachable state

  datatype Request = Request(context: Context, command: Command)

  function Run(sharedRoot: Path, s: State, requests: seq<Request>): State
    decreases |requests|
  {
    if requests == [] then s
    else Run(sharedRoot, Execute(sharedRoot, s, requests[0].context, requests[0].command).0, requests[1..])
  }

  /** A run takes its requests one after the other. */
  lemma {:induction false} RunTakesEach(sharedRoot: Path, s: State, requests: seq<Request>, next: Request)
    ensures Run(sharedRoot, s, requests + [next]) ==
              Execute(sharedRoot, Run(sharedRoot, s, requests), next.context, next.command).0
    decreases |requests|
  {
    if requests == [] {
      assert Run(sharedRoot, Execute(sharedRoot, s, next.context, next.command).0, []) == Execute(sharedRoot, s, next.context, next.command).0;
    } else {
      assert (requests + [next])[1..] == requests[1..] + [next];
      RunTakesEach(sharedRoot, Execute(sharedRoot, s, requests[0].context, requests[0].command).0, requests[1..], next);
    }
  }

  const FRESH := State(map[], map[])

  /** No context is ahead of its scope's epoch, and one with running jobs is at it. */
  ghost predicate Inv(s: State) {
    forall c :: c in s.contexts ==>
      && ValidContext(c)
      && c.scope in s.epochs && c.epoch <= s.epochs[c.scope]
      && (s.contexts[c].jobs != map[] ==> Current(s, c))
  }

  lemma AdvanceKeepsInv(s: State, context: Context)
    requires Inv(s) && Advance(s, context).Ok?
    ensures Inv(Advance(s, context).value) && Current(Advance(s, context).value, context)
    ensures Advance(s, context).value.contexts == s.contexts
    ensures ScopeBusy(s.contexts, context.scope) ==> Advance(s, context).value == s
  {
    var after := Advance(s, context).value;
    forall c | c in after.contexts
      ensures c.scope in after.epochs && c.epoch <= after.epochs[c.scope]
      ensures after.contexts[c].jobs != map[] ==> Current(after, c)
    {
      if c.scope == context.scope && after.contexts[c].jobs != map[] { assert ScopeBusy(s.contexts, context.scope); }
    }
  }

  lemma StepKeepsInv(sharedRoot: Path, s: State, context: Context, command: Command)
    requires Inv(s)
    ensures Inv(Execute(sharedRoot, s, context, command).0)
  {
    if command.OpenScope? && Advance(s, context).Ok? {
      AdvanceKeepsInv(s, context);
    }
  }

  lemma {:induction false} ReachableInv(sharedRoot: Path, s: State, requests: seq<Request>)
    requires Inv(s)
    ensures Inv(Run(sharedRoot, s, requests))
    decreases |requests|
  {
    if requests != [] {
      StepKeepsInv(sharedRoot, s, requests[0].context, requests[0].command);
      ReachableInv(sharedRoot, Execute(sharedRoot, s, requests[0].context, requests[0].command).0, requests[1..]);
    }
  }

  ghost predicate EpochsGrow(s: State, t: State) {
    forall scope :: scope in s.epochs ==> scope in t.epochs && s.epochs[scope] <= t.epochs[scope]
  }

  /** No scope's epoch ever falls. */
  lemma {:induction false} EpochNeverFalls(sharedRoot: Path, s: State, requests: seq<Request>)
    ensures EpochsGrow(s, Run(sharedRoot, s, requests))
    decreases |requests|
  {
    if requests != [] {
      EpochNeverFalls(sharedRoot, Execute(sharedRoot, s, requests[0].context, requests[0].command).0, requests[1..]);
    }
  }

  /** Once a scope was opened at an epoch, whatever happens next, a lower epoch gets nothing and changes nothing. */
  lemma OpenFencesOlder(sharedRoot: Path, s: State, context: Context, t: Target, between: seq<Request>, late: Request)
    requires Open(sharedRoot, s, context, t).1.Ok?
    requires late.context.scope == context.scope && late.context.epoch < context.epoch
    ensures var now := Run(sharedRoot, Open(sharedRoot, s, context, t).0, between);
            var answer := Execute(sharedRoot, now, late.context, late.command);
            answer.0 == now && answer.1.Err?
  {
    var held := Open(sharedRoot, s, context, t).0;
    EpochNeverFalls(sharedRoot, held, between);
    assert held.epochs[context.scope] == context.epoch;
  }

  /** A command other than an open succeeds only for a context that is open at its scope's current epoch. */
  lemma OnlyCurrentSucceeds(sharedRoot: Path, s: State, context: Context, command: Command)
    ensures Execute(sharedRoot, s, context, command).1.Ok? && !command.OpenScope? ==>
              Current(s, context) && context in s.contexts
    ensures Execute(sharedRoot, s, context, command).1.Ok? ==> Current(Execute(sharedRoot, s, context, command).0, context)
  {
  }

  /** A running job can always be awaited, and awaiting it gives its own outcome and forgets only it. */
  lemma JobsCanBeAwaited(sharedRoot: Path, requests: seq<Request>, c: Context, job: JobId)
    requires Running(Run(sharedRoot, FRESH, requests), c, job)
    ensures var now := Run(sharedRoot, FRESH, requests);
            var (after, reply) := Execute(sharedRoot, now, c, Await(job));
            var jobs := now.contexts[c].jobs;
            && (forall text :: jobs[job] == Finished(text) <==> reply == Ok(Answer(text)))
            && (jobs[job] in {Failed, Panicked} <==> reply == Err(JobFailed))
            && OnlyJobs(now, after, c, map other | other in jobs && other != job :: jobs[other])
  {
    ReachableInv(sharedRoot, FRESH, requests);
    var now := Run(sharedRoot, FRESH, requests);
    assert now.contexts[c].jobs != map[];
    CommandMeans(sharedRoot, now, c, Await(job));
  }

  ghost predicate Running(s: State, c: Context, job: JobId) {
    c in s.contexts && job in s.contexts[c].jobs
  }

  /** The job is running before every one of the requests and after the last. */
  ghost predicate RunsThroughout(sharedRoot: Path, s: State, requests: seq<Request>, c: Context, job: JobId)
    decreases |requests|
  {
    && Running(s, c, job)
    && (requests != [] ==>
          RunsThroughout(sharedRoot, Execute(sharedRoot, s, requests[0].context, requests[0].command).0, requests[1..], c, job))
  }

  /** While a job runs its root and its outcome stay, and its scope keeps its epoch. */
  lemma {:induction false} RootIsPinned(sharedRoot: Path, s: State, requests: seq<Request>, c: Context, job: JobId)
    requires Inv(s) && RunsThroughout(sharedRoot, s, requests, c, job)
    ensures var now := Run(sharedRoot, s, requests);
            && Running(now, c, job)
            && now.contexts[c].root == s.contexts[c].root
            && now.contexts[c].jobs[job] == s.contexts[c].jobs[job]
            && Current(now, c)
    decreases |requests|
  {
    assert s.contexts[c].jobs != map[];
    if requests != [] {
      var r := requests[0];
      StepKeepsInv(sharedRoot, s, r.context, r.command);
      StepPinsRoot(sharedRoot, s, r, c, job);
      RootIsPinned(sharedRoot, Execute(sharedRoot, s, r.context, r.command).0, requests[1..], c, job);
    }
  }

  lemma StepPinsRoot(sharedRoot: Path, s: State, r: Request, c: Context, job: JobId)
    requires Inv(s) && Running(s, c, job) && Running(Execute(sharedRoot, s, r.context, r.command).0, c, job)
    ensures var now := Execute(sharedRoot, s, r.context, r.command).0;
            now.contexts[c].root == s.contexts[c].root && now.contexts[c].jobs[job] == s.contexts[c].jobs[job]
  {
  }

  /** A job leaves only by being awaited under its own context, so a run without that keeps it running. */
  lemma {:induction false} JobsLeaveByAwait(sharedRoot: Path, s: State, requests: seq<Request>, c: Context, job: JobId)
    requires Running(s, c, job)
    requires forall i :: 0 <= i < |requests| ==> requests[i] != Request(c, Await(job))
    ensures RunsThroughout(sharedRoot, s, requests, c, job)
    decreases |requests|
  {
    if requests != [] {
      var r := requests[0];
      assert s.contexts[c].jobs != map[];
      assert Running(Execute(sharedRoot, s, r.context, r.command).0, c, job);
      JobsLeaveByAwait(sharedRoot, Execute(sharedRoot, s, r.context, r.command).0, requests[1..], c, job);
    }
  }

  ghost predicate SameOutside(s: State, t: State, scope: Scope) {
    && (forall c: Context :: c.scope != scope ==> (c in s.contexts <==> c in t.contexts))
    && (forall c: Context :: c.scope != scope && c in s.contexts && c in t.contexts ==> s.contexts[c] == t.contexts[c])
    && (forall o :: o != scope ==> (o in s.epochs <==> o in t.epochs))
    && (forall o :: o != scope && o in s.epochs && o in t.epochs ==> s.epochs[o] == t.epochs[o])
  }

  /** A refusal changes nothing, except that awaiting a failed job forgets it; no scope touches another. */
  lemma RefusalChangesNothing(sharedRoot: Path, s: State, context: Context, command: Command)
    requires Inv(s)
    ensures var (after, reply) := Execute(sharedRoot, s, context, command);
            && (reply.Err? && reply.error != JobFailed ==> after == s)
            && SameOutside(s, after, context.scope)
  {
    if command.OpenScope? && Advance(s, context).Ok? && context in s.contexts && s.contexts[context].jobs != map[] {
      assert ScopeBusy(s.contexts, context.scope);
      AdvanceKeepsInv(s, context);
    }
  }

  // -------------------------------------------------------------------------------- the program

  class SharedEngine {
    const root: Path
    var contexts: map<Context, ScopeState>
    var scopeEpochs: map<Scope, int>

    constructor (root: Path)
      ensures this.root == root && Snapshot() == FRESH
    {
      this.root := root;
      contexts, scopeEpochs := map[], map[];
    }

    ghost function Snapshot(): State
      reads this
    {
      State(contexts, scopeEpochs)
    }

    method AnyJobs(scope: Option<Scope>) returns (busy: bool)
      ensures busy <==> exists c :: c in contexts && (scope.None? || c.scope == scope.value) && contexts[c].jobs != map[]
    {
      var rest := contexts.Keys;
      while rest != {}
        invariant rest <= contexts.Keys
        invariant forall c :: c in contexts && c !in rest ==> !((scope.None? || c.scope == scope.value) && contexts[c].jobs != map[])
        decreases |rest|
      {
        var c :| c in rest;
        if (scope.None? || c.scope == scope.value) && contexts[c].jobs != map[] { return true; }
        rest := rest - {c};
      }
      return false;
    }

    method AdvanceScopeEpoch(context: Context) returns (refusal: Option<Refusal>)
      modifies this`scopeEpochs
      ensures match Advance(old(Snapshot()), context)
              case Ok(after) => refusal == None && Snapshot() == after
              case Err(e) => refusal == Some(e) && Snapshot() == old(Snapshot())
    {
      var known := context.scope in scopeEpochs;
      if known && context.epoch < scopeEpochs[context.scope] { return Some(StaleEpoch); }
      if !known || context.epoch > scopeEpochs[context.scope] {
        var busy := AnyJobs(Some(context.scope));
        if busy { return Some(ActiveJobs); }
        scopeEpochs := scopeEpochs[context.scope := context.epoch];
      }
      return None;
    }

    method OpenScope(context: Context, target: Target) returns (reply: Result<Reply, Refusal>)
      modifies this
      ensures (Snapshot(), reply) == Open(root, old(Snapshot()), context, target)
    {
      var canonical := CanonicalRoot(root, context, target);
      if canonical.None? { return Err(BadRoot); }
      var refusal := AdvanceScopeEpoch(context);
      if refusal.Some? { return Err(refusal.value); }
      if context !in contexts {
        contexts := contexts[context := ScopeState(canonical.value, map[])];
      }
      if contexts[context].jobs != map[] { return Err(ActiveJobs); }
      contexts := contexts[context := contexts[context].(root := canonical.value)];
      assert contexts == old(contexts)[context := ScopeState(canonical.value, map[])];
      return Ok(Opened(|contexts|));
    }

    method SpawnBuild(context: Context, job: JobId, wellFormed: bool, outcome: Outcome)
      returns (reply: Result<Reply, Refusal>)
      requires ValidContext(context) && Current(Snapshot(), context)
      modifies this`contexts
      ensures context in old(contexts) ==>
                (Snapshot(), reply) == Execute(root, old(Snapshot()), context, Build(job, wellFormed, outcome))
      ensures context !in old(contexts) ==>
                Snapshot() == old(Snapshot()) && reply == Err(if wellFormed then NotOpen else BadRequest)
    {
      if !wellFormed { return Err(BadRequest); }
      if context !in contexts { return Err(NotOpen); }
      var state := contexts[context];
      if job in state.jobs { return Err(JobExists); }
      contexts := contexts[context := state.(jobs := state.jobs[job := outcome])];
      return Ok(Pending(job));
    }

    method AwaitJob(context: Context, job: JobId) returns (reply: Result<Reply, Refusal>)
      requires ValidContext(context) && Current(Snapshot(), context)
      modifies this`contexts
      ensures (Snapshot(), reply) == Execute(root, old(Snapshot()), context, Await(job))
    {
      if context !in contexts { return Err(NotOpen); }
      var state := contexts[context];
      if job !in state.jobs { return Err(JobAbsent); }
      contexts := contexts[context := state.(jobs := state.jobs - {job})];
      return Joined(state.jobs[job]);
    }

    method Perform(context: Context, command: Command) returns (reply: Result<Reply, Refusal>)
      modifies this
      ensures (Snapshot(), reply) == Execute(root, old(Snapshot()), context, command)
    {
      if !ValidContext(context) { return Err(InvalidContext); }
      if command.OpenScope? {
        reply := OpenScope(context, command.target);
        return;
      }
      if context.scope !in scopeEpochs || scopeEpochs[context.scope] != context.epoch { return Err(StaleEpoch); }
      if context !in contexts { return Err(NotOpen); }
      match command {
        case Build(job, wellFormed, outcome) => reply := SpawnBuild(context, job, wellFormed, outcome);
        case Await(job) => reply := AwaitJob(context, job);
        case Query(answer) => reply := if answer.Some? then Ok(Answer(answer.value)) else Err(CommandFailed);
        case Status => reply := Ok(Contexts(|contexts|));
        case _ => reply := Err(UnknownCommand);
      }
    }

    /** Shutting down is allowed exactly when no context has a running job. */
    method MayShutDown() returns (allowed: bool)
      ensures allowed <==> forall c, job :: !Running(Snapshot(), c, job)
    {
      var busy := AnyJobs(None);
      allowed := !busy;
      if busy {
        var c :| c in contexts && contexts[c].jobs != map[];
        var job :| job in contexts[c].jobs;
        assert Running(Snapshot(), c, job);
      } else {
        forall c, job ensures !Running(Snapshot(), c, job) {
          if c in contexts { assert contexts[c].jobs == map[]; }
        }
      }
    }
  }
}
