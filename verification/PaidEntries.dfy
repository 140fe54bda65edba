/** The pure side of the completion protocol: cost, parsing, cache entries, and one uninterrupted invocation. */
module PaidEntries {
  import opened Prelude
  import opened Budget

  // ------------------------------------------------------------------------------ pure parts

  /** Prices are counted in the ledger's unit per token. */
  datatype Config = Config(model: string, tier: Option<string>, window: nat, maxCompletion: nat,
                           inputPrice: nat, outputPrice: nat)

  const TRUSTED_MODEL: string := "gpt-4.1-2025-04-14"
  const DEFAULT_TIER: string := "default"

  /** The trusted floor: one known model, its whole window, and prices of at least 2 and 8 dollars a million tokens. */
  predicate ConfigOk(c: Config) {
    && c.model == TRUSTED_MODEL && (c.tier.None? || c.tier.value == DEFAULT_TIER)
    && c.window >= 1047576 && 0 < c.maxCompletion < c.window
    && c.inputPrice >= 2000000 && c.outputPrice >= 8000000
  }

  datatype Usage = Usage(prompt: nat, completion: nat, total: nat)

  datatype Choice = Choice(content: Option<string>, finish: Option<string>)

  /** A decoded provider answer; `None` counts are missing or not integers. */
  datatype Response = Response(model: Option<string>, tier: Option<string>, prompt: Option<int>,
                               completion: Option<int>, total: Option<int>, choices: seq<Choice>)

  datatype Parsed = Parsed(text: string, usage: Usage, finish: Option<string>)

  datatype Status = ResponseReceived | Completed | Failed

  /** A cache entry; an absent key is `None`, and a finish reason that is present may itself be null. */
  datatype Entry = Entry(status: Status, request: string, token: string, actual: Option<Amount>,
                         text: Option<string>, usage: Option<Usage>, finish: Option<Option<string>>,
                         model: Option<string>, tier: Option<string>, error: Option<string>)

  datatype CacheFile = CacheFile(entry: Entry, digest: Entry)

  datatype Answer = Raised(error: string) | Returned(response: Response)

  function Cost(c: Config, input: nat, output: nat): Amount {
    Decimal(c.inputPrice * input + c.outputPrice * output, -12)
  }

  function MaxCost(c: Config): Amount {
    Cost(c, c.window, c.maxCompletion)
  }

  predicate CountOk(n: Option<int>) {
    n.Some? && n.value >= 0
  }

  function ParseResponse(r: Response, model: string, tier: Option<string>): Option<Parsed> {
    if r.model != Some(model) then None
    else if tier.Some? && r.tier != tier then None
    else if !CountOk(r.prompt) || !CountOk(r.completion) || !CountOk(r.total) then None
    else if r.total.value != r.prompt.value + r.completion.value then None
    else if |r.choices| != 1 then None
    else if r.choices[0].content.None? || Blank(r.choices[0].content.value) then None
    else Some(Parsed(r.choices[0].content.value, Usage(r.prompt.value, r.completion.value, r.total.value),
                     r.choices[0].finish))
  }

  function FailedEntry(h: string, token: string, error: string): Entry {
    Entry(Failed, h, token, None, None, None, None, None, None, Some(error))
  }

  /** The entry written before anything is settled. */
  function FirstEntry(h: string, token: string, c: Config, answer: Answer): Entry {
    match answer
    case Raised(error) => FailedEntry(h, token, error)
    case Returned(r) =>
      match ParseResponse(r, c.model, c.tier)
      case None => FailedEntry(h, token, "ValueError")
      case Some(p) =>
        Entry(ResponseReceived, h, token, Some(Cost(c, p.usage.prompt, p.usage.completion)),
              Some(p.text), Some(p.usage), Some(p.finish), Some(c.model), c.tier, None)
  }

  /** The entry written after a successful settlement. */
  function Finish(e: Entry): Entry {
    if e.status != ResponseReceived then e
    else if e.finish == Some(Some("stop")) then e.(status := Completed)
    else e.(status := Failed, error := Some("IncompleteCompletion"))
  }

  function Seal(e: Entry): CacheFile {
    CacheFile(e, e)
  }

  predicate FailureShape(e: Entry) {
    e.status == Failed && e.error.Some? && e.text.None? && e.usage.None? && e.finish.None? && e.model.None? && e.tier.None?
  }

  predicate AnswerShape(e: Entry, c: Config) {
    && e.text.Some? && e.usage.Some? && e.finish.Some? && e.model.Some?
    && e.tier.Some? == c.tier.Some?
    && e.error.Some? == (e.status == Failed)
  }

  function AsResponse(e: Entry): Response
    requires e.text.Some? && e.usage.Some? && e.finish.Some?
  {
    var u := e.usage.value;
    Response(e.model, e.tier, Some(u.prompt), Some(u.completion), Some(u.total),
             [Choice(e.text, e.finish.value)])
  }

  /** Everything about a cached file that can be checked without the ledger. */
  predicate ContentOk(file: CacheFile, c: Config) {
    var e := file.entry;
    && file.digest == e
    && if e.actual.None? then FailureShape(e) else
       && AnswerShape(e, c)
       && ParseResponse(AsResponse(e), c.model, c.tier).Some?
       && e.actual.value == Cost(c, e.usage.value.prompt, e.usage.value.completion)
       && (e.status == Completed ==> e.finish.value == Some("stop"))
  }

  ghost predicate ValidateCached(file: CacheFile, h: string, c: Config, l: Ledger, limit: nat) {
    && ContentOk(file, c)
    && VerifySpec(l, limit, file.entry.token, h, MaxCost(c)) == None
  }

  /** Both entries the protocol writes are accepted when they are read back. */
  lemma WrittenEntriesAreValid(h: string, token: string, c: Config, answer: Answer)
    ensures ContentOk(Seal(FirstEntry(h, token, c, answer)), c)
    ensures ContentOk(Seal(Finish(FirstEntry(h, token, c, answer))), c)
  {
  }

  /** What the provider must send for its answer to count: the frozen model and tier, consistent usage, one text. */
  predicate Accepted(c: Config, r: Response) {
    && r.model == Some(c.model) && (c.tier.Some? ==> r.tier == c.tier)
    && r.prompt.Some? && r.prompt.value >= 0 && r.completion.Some? && r.completion.value >= 0
    && r.total == Some(r.prompt.value + r.completion.value)
    && |r.choices| == 1 && r.choices[0].content.Some? && !Blank(r.choices[0].content.value)
  }

  /** The first entry says exactly what the provider answered, and what it costs, or why it does not count. */
  lemma FirstEntrySays(h: string, token: string, c: Config, answer: Answer)
    ensures var e := FirstEntry(h, token, c, answer);
            && e.request == h && e.token == token
            && (answer.Raised? ==> e == Entry(Failed, h, token, None, None, None, None, None, None, Some(answer.error)))
            && (answer.Returned? && !Accepted(c, answer.response) ==>
                  e == Entry(Failed, h, token, None, None, None, None, None, None, Some("ValueError")))
            && (answer.Returned? && Accepted(c, answer.response) ==>
                  var r := answer.response;
                  var (input, output) := (r.prompt.value, r.completion.value);
                  e == Entry(ResponseReceived, h, token,
                             Some(Decimal(c.inputPrice * input + c.outputPrice * output, -12)),
                             r.choices[0].content, Some(Usage(input, output, r.total.value)), Some(r.choices[0].finish),
                             Some(c.model), c.tier, None))
  {
  }

  /** What the settled form of a first entry must be, told by the usage and the finish reason. */
  ghost predicate IsFinal(first: Entry, e: Entry) {
    if first.usage.None? then e == first
    else
      && e == first.(status := e.status, error := e.error)
      && (e.status == Completed <==> first.finish == Some(Some("stop")))
      && (e.status == Failed && e.error == Some("IncompleteCompletion") <==> first.finish != Some(Some("stop")))
      && (e.status == Completed ==> e.error == first.error)
  }

  lemma FinishIsFinal(h: string, token: string, c: Config, answer: Answer)
    ensures var first := FirstEntry(h, token, c, answer);
            IsFinal(first, Finish(first)) && Finish(first).status in {Completed, Failed}
  {
  }

  /** The floor, and the reservation for a whole window in and a whole completion out at the two prices. */
  lemma ReservationMeans(c: Config)
    ensures ConfigOk(c) <==>
              && c.model == TRUSTED_MODEL && c.tier in {None, Some(DEFAULT_TIER)}
              && c.window > 1047575 && 1 <= c.maxCompletion <= c.window - 1
              && c.inputPrice > 1999999 && c.outputPrice > 7999999
    ensures ConfigOk(c) && MoneyOk(MaxCost(c)) ==>
              Units(MaxCost(c)) == c.window * c.inputPrice + c.maxCompletion * c.outputPrice
  {
  }

  /** A cached failure: it has no usage and says nothing but why. */
  ghost predicate CachedFailure(e: Entry) {
    exists why: string :: e == Entry(Failed, e.request, e.token, None, None, None, None, None, None, Some(why))
  }

  /** A cached answer: what an accepted answer of this configuration costs, says and counts. */
  ghost predicate CachedAnswer(e: Entry, c: Config) {
    && e.usage.Some? && e.text.Some? && !Blank(e.text.value) && e.finish.Some?
    && e.usage.value.total == e.usage.value.prompt + e.usage.value.completion
    && e.actual == Some(Decimal(c.inputPrice * e.usage.value.prompt + c.outputPrice * e.usage.value.completion, -12))
    && e.model == Some(c.model) && e.tier == c.tier
    && (e.status == Failed <==> e.error.Some?)
    && (e.status == Completed ==> e.finish.value == Some("stop"))
  }

  /** Which cached files are accepted: undamaged ones, of either kind, under the request's own reservation. */
  lemma AcceptsCachedIff(file: CacheFile, h: string, c: Config, l: Ledger, limit: nat)
    ensures ValidateCached(file, h, c, l, limit) <==>
              && file.digest == file.entry && (CachedFailure(file.entry) || CachedAnswer(file.entry, c))
              && MoneyOk(MaxCost(c)) && h != [] && ReadOk(l, limit) && h in l.requests
              && l.requests[h].token == file.entry.token && Units(l.requests[h].max) == Units(MaxCost(c))
  {
    var e := file.entry;
    VerifyMeans(l, limit, e.token, h, MaxCost(c));
    if e.actual.None? && FailureShape(e) {
      assert e == Entry(Failed, e.request, e.token, None, None, None, None, None, None, Some(e.error.value));
    }
  }

  /** Usage inside the reserved window costs no more than the reservation. */
  lemma UsageWithinReservation(c: Config, input: nat, output: nat)
    requires input <= c.window && output <= c.maxCompletion
    requires MoneyOk(MaxCost(c))
    ensures MoneyOk(Cost(c, input, output)) && Units(Cost(c, input, output)) <= Units(MaxCost(c))
  {
    assert c.inputPrice * input <= c.inputPrice * c.window;
    assert c.outputPrice * output <= c.outputPrice * c.maxCompletion;
  }

  // -------------------------------------------------------------- one uninterrupted invocation

  datatype Env = Env(limit: nat, config: string -> Config)

  /** An exception, the dictionary that reports a refused reservation, or the entry. */
  datatype Verdict = Threw | Refused | Gave(entry: Entry)

  datatype Outcome = Outcome(ledger: Ledger, cache: map<string, CacheFile>, called: bool, returned: Verdict)

  ghost function SettleResponseSpec(limit: nat, l: Ledger, cache: map<string, CacheFile>, called: bool, h: string, e: Entry): Outcome {
    var s := if e.actual.Some? then SettleSpec(l, limit, e.token, e.actual.value) else Settlement(l, None);
    if s.error.Some? then Outcome(s.ledger, cache, called, Threw)
    else if e.status != ResponseReceived then Outcome(s.ledger, cache, called, Gave(e))
    else Outcome(s.ledger, cache[h := Seal(Finish(e))], called, Gave(Finish(e)))
  }

  ghost function CompleteSpec(env: Env, l: Ledger, cache: map<string, CacheFile>, h: string, token: string, answer: Answer): Outcome {
    var c := env.config(h);
    if !ConfigOk(c) then Outcome(l, cache, false, Threw)
    else if h in cache then
      var file := cache[h];
      if file.entry.request == h && ValidateCached(file, h, c, l, env.limit)
      then SettleResponseSpec(env.limit, l, cache, false, h, file.entry)
      else Outcome(l, cache, false, Threw)
    else
      match ReserveSpec(l, env.limit, h, MaxCost(c), token)
      case Err(_) => Outcome(l, cache, false, Refused)
      case Ok(l') =>
        var e := FirstEntry(h, token, c, answer);
        SettleResponseSpec(env.limit, l', cache[h := Seal(e)], true, h, e)
  }

  /** How an invocation goes on from a written or validated entry: settle it, then put the final form on disk. */
  lemma SettlingMeans(limit: nat, l: Ledger, cache: map<string, CacheFile>, called: bool, h: string, e: Entry)
    requires e.status == ResponseReceived ==> e.usage.Some? && e.error.None?
    ensures var r := SettleResponseSpec(limit, l, cache, called, h, e);
            && r.called == called && r.returned != Refused
            && (e.actual == None ==> r.ledger == l && r.returned.Gave?)
            && (e.actual.Some? ==> var s := SettleSpec(l, limit, e.token, e.actual.value);
                                   r.ledger == s.ledger && (r.returned == Threw <==> s.error.Some?))
            && (r.returned.Gave? && e.status in {Completed, Failed} ==> r.returned == Gave(e))
            && (r.returned.Gave? && e.status == ResponseReceived ==>
                  IsFinal(e, r.returned.entry) && r.cache == cache[h := CacheFile(r.returned.entry, r.returned.entry)])
            && (!(r.returned.Gave? && e.status == ResponseReceived) ==> r.cache == cache)
  {
  }

  /**
   * When an invocation calls the provider, and how it ends when it does not: an untrusted configuration and
   * a cached file that is not accepted raise, a refused reservation is reported, all without any change.
   */
  lemma CompleteMeans(env: Env, l: Ledger, cache: map<string, CacheFile>, h: string, token: string, answer: Answer)
    ensures var r := CompleteSpec(env, l, cache, h, token, answer);
            var c := env.config(h);
            && (r.called <==> ConfigOk(c) && h !in cache && ReserveSpec(l, env.limit, h, MaxCost(c), token).Ok?)
            && (r.returned == Refused <==> ConfigOk(c) && h !in cache && !r.called)
            && (!ConfigOk(c) || (h in cache && !(cache[h].entry.request == h && ValidateCached(cache[h], h, c, l, env.limit))) ==>
                  r.returned == Threw)
            && (!ConfigOk(c) || (h !in cache && !r.called) || (h in cache && !ValidateCached(cache[h], h, c, l, env.limit)) ==>
                  r.ledger == l && r.cache == cache)
            && (r.called ==> r == SettleResponseSpec(env.limit, ReserveSpec(l, env.limit, h, MaxCost(c), token).value,
                                    cache[h := CacheFile(FirstEntry(h, token, c, answer), FirstEntry(h, token, c, answer))],
                                    true, h, FirstEntry(h, token, c, answer)))
  {
  }
}
