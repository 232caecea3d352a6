/**
 The model gateway (services/model_gateway.py): which providers a chat request
 tries, and the failover loop in its streaming and its collecting form. What a
 provider does, what the clock reads and what other requests do meanwhile is
 given by a `World` for each provider.
 */
module Gateway {
  import opened Wrappers
  import opened Breaker

  // ----- which providers are tried ----------------------------------------------------

  datatype Attempt = Attempt(provider: string, model: string)

  /** The model names read from the environment; `anthropic` is empty when unset. */
  datatype Env = Env(anthropic: string, gemini: string)

  const OPENAI_FAST := "gpt-5.5-instant"
  const OPENAI_REASONING := "gpt-5.5-pro"
  const ANTHROPIC_FLAGSHIP := "claude-opus-4.8"
  const ANTHROPIC_FAST := "claude-sonnet-4.6"
  const GEMINI_FAST := "gemini-3.8-flash"
  const DEEPSEEK_DEFAULT := "deepseek-flash"
  const XAI_FLAGSHIP := "grok-4.6"

  function GatewayFor(providerId: string): Option<string> {
    if providerId == "gpt" then Some("openai")
    else if providerId == "claude" then Some("anthropic")
    else if providerId == "gemini" then Some("google")
    else if providerId == "grok" then Some("xai")
    else if providerId == "deepseek" then Some("deepseek")
    else None
  }

  function ModelFor(env: Env, gateway: string, tier: string): string {
    if gateway == "openai" then
      if tier == "enterprise" then OPENAI_REASONING else OPENAI_FAST
    else if gateway == "anthropic" then
      if env.anthropic != "" then env.anthropic
      else if tier == "pro" || tier == "enterprise" then ANTHROPIC_FLAGSHIP
      else ANTHROPIC_FAST
    else if gateway == "deepseek" then DEEPSEEK_DEFAULT
    else if gateway == "xai" then XAI_FLAGSHIP
    else env.gemini
  }

  function TierPrimary(tier: string): Attempt {
    if tier == "pro" then Attempt("anthropic", ANTHROPIC_FLAGSHIP)
    else if tier == "enterprise" then Attempt("openai", OPENAI_REASONING)
    else Attempt("openai", OPENAI_FAST)
  }

  const CHAIN := [
    Attempt("openai", OPENAI_FAST),
    Attempt("anthropic", ANTHROPIC_FAST),
    Attempt("google", GEMINI_FAST)
  ]

  function Others(chain: seq<Attempt>, p: string): seq<Attempt> {
    if chain == [] then []
    else (if chain[0].provider != p then [chain[0]] else []) + Others(chain[1..], p)
  }

  /** A request names a tier and perhaps a provider and a model; an empty name counts as none. */
  datatype Request = Request(tier: string, providerId: string, modelOverride: string, vision: bool)

  function Attempts(env: Env, req: Request): Option<seq<Attempt>> {
    var all :=
      if req.providerId != "" then
        match GatewayFor(req.providerId)
        case None => None
        case Some(gateway) =>
          if req.modelOverride != "" then Some([Attempt(gateway, req.modelOverride)])
          else Some([Attempt(gateway, ModelFor(env, gateway, req.tier))])
      else if req.tier == "free" || req.tier == "" then
        Some([Attempt("openai", OPENAI_FAST)])
      else
        var first := TierPrimary(req.tier);
        Some([first] + Others(CHAIN, first.provider));
    match all
    case Some(list) => Some(if req.vision then list[..1] else list)
    case None => None
  }

  ghost predicate Distinct(attempts: seq<Attempt>) {
    attempts != [] ==>
      && (forall b | b in attempts[1..] :: b.provider != attempts[0].provider)
      && Distinct(attempts[1..])
  }

  ghost predicate Named(attempts: seq<Attempt>) {
    forall a | a in attempts :: a.model != "" && a.provider != ""
  }

  lemma ModelIsNamed(env: Env, gateway: string, tier: string)
    requires env.gemini != ""
    ensures ModelFor(env, gateway, tier) != ""
  {
  }

  lemma TierChain(tier: string)
    ensures var list := [TierPrimary(tier)] + Others(CHAIN, TierPrimary(tier).provider);
            |list| == 3 && Distinct(list) && Named(list)
  {
    OthersOfChain(TierPrimary(tier).provider);
    TripleIsDistinct([TierPrimary(tier)] + Others(CHAIN, TierPrimary(tier).provider));
  }

  /** No provider is listed twice and every model has a name; there is one attempt for a named provider, an
      image or a free tier, and three otherwise. */
  lemma AttemptsAreDistinct(env: Env, req: Request)
    requires env.gemini != "" && Attempts(env, req).Some?
    ensures var list := Attempts(env, req).value;
            && Distinct(list) && Named(list)
            && |list| == if req.providerId != "" || req.vision || req.tier in {"", "free"} then 1 else 3
  {
    var list := Attempts(env, req).value;
    if req.providerId != "" {
      ModelIsNamed(env, GatewayFor(req.providerId).value, req.tier);
      assert list[..1] == list;
    } else if req.tier == "free" || req.tier == "" {
      assert list[..1] == list;
    } else {
      TierChain(req.tier);
    }
  }

  /** A request that names no provider, on a paid tier and without an image: the tier's own model first, and
      behind it, in the order of the chain, every other provider with its fallback. */
  lemma PaidTiersFailOver(env: Env, req: Request)
    requires req.providerId == "" && req.tier !in {"", "free"} && !req.vision
    ensures var google := Attempt("google", "gemini-3.8-flash");
            Attempts(env, req) == Some(
              if req.tier == "pro" then
                [Attempt("anthropic", "claude-opus-4.8"), Attempt("openai", "gpt-5.5-instant"), google]
              else
                [Attempt("openai", if req.tier == "enterprise" then "gpt-5.5-pro" else "gpt-5.5-instant"),
                 Attempt("anthropic", "claude-sonnet-4.6"), google])
  {
    var first := TierPrimary(req.tier);
    OthersOfChain(first.provider);
    assert [first] + Others(CHAIN, first.provider) == [first, Others(CHAIN, first.provider)[0], Others(CHAIN, first.provider)[1]];
  }

  lemma FreeTierStaysAlone(env: Env, req: Request)
    requires req.providerId == "" && req.tier in {"", "free"}
    ensures Attempts(env, req) == Some([Attempt("openai", "gpt-5.5-instant")])
  {
    assert [Attempt("openai", OPENAI_FAST)][..1] == [Attempt("openai", OPENAI_FAST)];
  }

  /** The names a user may pick, with the gateways behind them. */
  ghost function Speakers(): map<string, string> {
    map["gpt" := "openai", "claude" := "anthropic", "gemini" := "google", "grok" := "xai", "deepseek" := "deepseek"]
  }

  /** A named provider is tried alone, behind its own gateway and with the model asked for; a name that stands
      for none is refused. */
  lemma NamedProviderAlone(env: Env, req: Request)
    requires req.providerId != ""
    ensures Attempts(env, req).Some? <==> req.providerId in Speakers()
    ensures req.providerId in Speakers() ==>
              var gateway := Speakers()[req.providerId];
              var model := if req.modelOverride != "" then req.modelOverride else ModelFor(env, gateway, req.tier);
              Attempts(env, req) == Some([Attempt(gateway, model)])
  {
    if GatewayFor(req.providerId).Some? {
      var gateway := GatewayFor(req.providerId).value;
      var model := if req.modelOverride != "" then req.modelOverride else ModelFor(env, gateway, req.tier);
      var only := [Attempt(gateway, model)];
      assert only[..1] == only;
    } else {
      assert req.providerId !in {"gpt", "claude", "gemini", "grok", "deepseek"};
    }
  }

  /** The model of a gateway when none is asked for. */
  lemma DefaultModels(env: Env, tier: string)
    ensures ModelFor(env, "openai", tier) == if tier == "enterprise" then "gpt-5.5-pro" else "gpt-5.5-instant"
    ensures env.anthropic == "" ==>
              ModelFor(env, "anthropic", tier) == if tier in {"pro", "enterprise"} then "claude-opus-4.8" else "claude-sonnet-4.6"
    ensures env.anthropic != "" ==> ModelFor(env, "anthropic", tier) == env.anthropic
    ensures ModelFor(env, "google", tier) == env.gemini
    ensures ModelFor(env, "xai", tier) == "grok-4.6" && ModelFor(env, "deepseek", tier) == "deepseek-flash"
  {
  }

  /** An image cuts the list to its head. */
  lemma ImageCutsToFirst(env: Env, req: Request)
    requires req.vision
    ensures Attempts(env, req) ==
              match Attempts(env, req.(vision := false))
              case None => None
              case Some(list) => Some(list[..1])
  {
  }

  /** To name the provider a tier would try first anyway, and no model, changes nothing about that attempt, unless
      the environment sets another model for it. */
  lemma NamingTheFirstChangesNothing(env: Env, req: Request, providerId: string)
    requires req.providerId == "" && req.modelOverride == "" && providerId in Speakers()
    requires Attempts(env, req).Some? && |Attempts(env, req).value| > 0
    requires Speakers()[providerId] == Attempts(env, req).value[0].provider
    ensures var first := Attempts(env, req).value[0];
            Attempts(env, req.(providerId := providerId)) ==
            Some([if first.provider == "anthropic" && env.anthropic != "" then first.(model := env.anthropic) else first])
  {
    NamedProviderAlone(env, req.(providerId := providerId));
    if req.tier in {"", "free"} {
      FreeTierStaysAlone(env, req);
    } else {
      PaidTiersFailOver(env, req.(vision := false));
    }
  }

  lemma TripleIsDistinct(list: seq<Attempt>)
    requires |list| == 3 && list[0].provider != list[1].provider && list[0].provider != list[2].provider
    requires list[1].provider != list[2].provider
    ensures Distinct(list)
  {
    var two, one := list[1..], list[2..];
    assert one[1..] == [];
    assert Distinct(one);
    assert two[1..] == one;
    assert Distinct(two);
  }

  lemma OthersOfChain(p: string)
    requires p == "openai" || p == "anthropic"
    ensures Others(CHAIN, p) == [if p == "openai" then CHAIN[1] else CHAIN[0], CHAIN[2]]
  {
    assert CHAIN[1..][1..][1..] == [] && CHAIN[1..][0] == CHAIN[1] && CHAIN[1..][1..][0] == CHAIN[2];
    assert Others(CHAIN[1..][1..], p) == [CHAIN[2]];
  }

  // ----- what one attempt meets ------------------------------------------------------

  datatype Failure = TimedOut | OtherError | Cancelled | ConsumerClosed

  datatype Ending = Finished | Raised(failure: Failure)

  datatype World = World(
    hasKey: bool,
    checkedAt: real,
    knownModel: bool,
    chunks: seq<string>,
    ending: Ending,
    endedAt: real,
    errorText: string,
    during: seq<Event>,
    settling: seq<Event>
  )

  datatype Outcome = Success | Rejected | Timeout | Error | ClientDisconnect | StreamInterrupted

  function Classify(f: Failure, streamedAny: bool): Outcome {
    match f
    case TimedOut => Timeout
    case OtherError => Error
    case Cancelled => if streamedAny then StreamInterrupted else ClientDisconnect
    case ConsumerClosed => if streamedAny then StreamInterrupted else ClientDisconnect
  }

  predicate StopsStream(f: Failure) {
    f == Cancelled || f == ConsumerClosed
  }

  /** All that a request does that others can see, in order. */
  datatype Step =
    | Dispatch(a: Attempt)
    | Account(a: Attempt, outcome: Outcome)
    | Yield(text: string, model: string, provider: string)

  function YieldAll(chunks: seq<string>, a: Attempt): seq<Step> {
    if chunks == [] then []
    else
      YieldAll(chunks[..|chunks|-1], a) +
      if chunks[|chunks|-1] != "" then [Yield(chunks[|chunks|-1], a.model, a.provider)] else []
  }

  function Concat(texts: seq<string>): string {
    if texts == [] then "" else Concat(texts[..|texts|-1]) + texts[|texts|-1]
  }

  predicate StreamedAny(chunks: seq<string>) {
    exists k | 0 <= k < |chunks| :: chunks[k] != ""
  }

  datatype Last = Nothing | Last(provider: string, errorText: string)

  function FinalText(last: Last): string {
    if last.Nothing? then "No provider available" else last.errorText
  }

  function FinalProvider(last: Last): string {
    if last.Nothing? then "" else last.provider
  }

  function Check(a: Attempt, w: World): Event {
    Event(Checked, a.provider, w.checkedAt)
  }

  function Settle(h: seq<Event>, a: Attempt, w: World): seq<Event> {
    h + [Check(a, w)] + w.during + w.settling +
    [Event(if w.ending.Finished? then Succeeded else Failed, a.provider, w.endedAt)]
  }

  // ----- the streaming form -----------------------------------------------------------

  datatype Run = Run(log: seq<Step>, history: seq<Event>, raised: Option<Failure>, served: Option<Attempt>)

  /** What one turn of the failover loop leads to: the end of the run, or the next attempt. */
  datatype Turn<R> = Stop(run: R) | Next(log: seq<Step>, history: seq<Event>, last: Last)

  function StreamTurn(explicit: bool, a: Attempt, w: World, h: seq<Event>, last: Last): Turn<Run> {
    if !w.hasKey then
      if explicit then
        Stop(Run([Account(a, Rejected), Yield(w.errorText, "", a.provider)], h + w.settling, None, None))
      else Next([], h, last)
    else if Refuses(Replay(h, a.provider), w.checkedAt) then
      Next([], h + [Check(a, w)], last)
    else if !w.knownModel then
      Stop(Run([Account(a, Rejected), Yield(w.errorText, "", a.provider)], h + [Check(a, w)] + w.settling, None, None))
    else
      var out := [Dispatch(a)] + YieldAll(w.chunks, a);
      match w.ending
      case Finished =>
        Stop(Run(out + [Account(a, Success)], Settle(h, a, w), None, Some(a)))
      case Raised(f) =>
        var log := out + [Account(a, Classify(f, StreamedAny(w.chunks)))];
        if StopsStream(f) then Stop(Run(log, Settle(h, a, w), Some(f), None))
        else Next(log, Settle(h, a, w), Last(a.provider, w.errorText))
  }

  function Stream(explicit: bool, attempts: seq<Attempt>, worlds: string -> World, h: seq<Event>, last: Last): Run {
    if attempts == [] then
      Run([Yield(FinalText(last), "", FinalProvider(last))], h, None, None)
    else
      match StreamTurn(explicit, attempts[0], worlds(attempts[0].provider), h, last)
      case Stop(run) => run
      case Next(log, h', last') =>
        var more := Stream(explicit, attempts[1..], worlds, h', last');
        more.(log := log + more.log)
  }

  /** The loop of `route_request_stream`, against the shared breaker. */
  method RouteRequestStream(explicit: bool, attempts: seq<Attempt>, worlds: string -> World, breaker: CircuitBreaker)
    returns (log: seq<Step>, raised: Option<Failure>, served: Option<Attempt>)
    requires breaker.Valid()
    modifies breaker
    ensures breaker.Valid()
    ensures Run(log, breaker.history, raised, served) == Stream(explicit, attempts, worlds, old(breaker.history), Nothing)
  {
    log := [];
    var last := Nothing;
    ghost var goal := Stream(explicit, attempts, worlds, breaker.history, Nothing);
    for i := 0 to |attempts|
      invariant breaker.Valid()
      invariant Continues(log, Stream(explicit, attempts[i..], worlds, breaker.history, last), goal)
    {
      var a := attempts[i];
      assert attempts[i..][0] == a && attempts[i..][1..] == attempts[i+1..];
      var stop, more;
      stop, more, raised, served, last := TryStream(explicit, a, worlds(a.provider), last, breaker);
      if stop {
        return log + more, raised, served;
      }
      ContinuesOn(log, more, Stream(explicit, attempts[i+1..], worlds, breaker.history, last), goal);
      log := log + more;
    }
    log := log + [Yield(FinalText(last), "", FinalProvider(last))];
    return log, None, None;
  }

  /** `goal` is the run `rest` behind the steps already taken. */
  ghost predicate Continues(log: seq<Step>, rest: Run, goal: Run) {
    goal == rest.(log := log + rest.log)
  }

  lemma ContinuesOn(log: seq<Step>, more: seq<Step>, rest: Run, goal: Run)
    requires Continues(log, rest.(log := more + rest.log), goal)
    ensures Continues(log + more, rest, goal)
  {
    assert log + (more + rest.log) == log + more + rest.log;
  }

  /** One turn of the streaming loop. */
  method TryStream(explicit: bool, a: Attempt, w: World, before: Last, breaker: CircuitBreaker)
    returns (stop: bool, log: seq<Step>, raised: Option<Failure>, served: Option<Attempt>, last: Last)
    requires breaker.Valid()
    modifies breaker
    ensures breaker.Valid()
    ensures StreamTurn(explicit, a, w, old(breaker.history), before) ==
            if stop then Stop(Run(log, breaker.history, raised, served)) else Next(log, breaker.history, last)
  {
    log, raised, served, last := [], None, None, before;
    if !w.hasKey {
      if explicit {
        breaker.Others(w.settling);
        return true, [Account(a, Rejected), Yield(w.errorText, "", a.provider)], None, None, last;
      }
      return false, log, raised, served, last;
    }
    var ready := breaker.Ready(a.provider, w.checkedAt);
    if !ready {
      return false, log, raised, served, last;
    }
    if !w.knownModel {
      breaker.Others(w.settling);
      return true, [Account(a, Rejected), Yield(w.errorText, "", a.provider)], None, None, last;
    }
    breaker.Others(w.during);
    var out, streamedAny := Relay(w.chunks, a);
    log := [Dispatch(a)] + out;
    breaker.Others(w.settling);
    match w.ending {
      case Finished =>
        log := log + [Account(a, Success)];
        breaker.Ok(a.provider, w.endedAt);
        return true, log, None, Some(a), last;
      case Raised(f) =>
        log := log + [Account(a, Classify(f, streamedAny))];
        breaker.Fail(a.provider, w.endedAt);
        if StopsStream(f) {
          return true, log, Some(f), None, last;
        }
        return false, log, None, None, Last(a.provider, w.errorText);
    }
  }

  /** The loop over one provider's items: empty chunks are dropped. */
  method Relay(chunks: seq<string>, a: Attempt) returns (out: seq<Step>, streamedAny: bool)
    ensures out == YieldAll(chunks, a)
    ensures streamedAny == StreamedAny(chunks)
  {
    out, streamedAny := [], false;
    for k := 0 to |chunks|
      invariant out == YieldAll(chunks[..k], a)
      invariant streamedAny == StreamedAny(chunks[..k])
    {
      assert chunks[..k+1] == chunks[..k] + [chunks[k]];
      StreamedAnyStep(chunks, k);
      if chunks[k] != "" {
        streamedAny := true;
        out := out + [Yield(chunks[k], a.model, a.provider)];
      }
    }
    assert chunks[..|chunks|] == chunks;
  }

  lemma StreamedAnyStep(chunks: seq<string>, k: nat)
    requires k < |chunks|
    ensures StreamedAny(chunks[..k+1]) <==> StreamedAny(chunks[..k]) || chunks[k] != ""
  {
    assert chunks[..k+1][k] == chunks[k];
    assert forall j | 0 <= j < k :: chunks[..k+1][j] == chunks[..k][j];
  }

  // ----- the collecting form ------------------------------------------------------------

  datatype Reply = Reply(content: string, model: string, provider: string)

  datatype SendRun = SendRun(log: seq<Step>, history: seq<Event>, reply: Reply)

  function SendTurn(explicit: bool, a: Attempt, w: World, h: seq<Event>, last: Last): Turn<SendRun> {
    if !w.hasKey then
      if explicit then Stop(SendRun([Account(a, Rejected)], h + w.settling, Reply(w.errorText, "", a.provider)))
      else Next([], h, last)
    else if Refuses(Replay(h, a.provider), w.checkedAt) then
      Next([], h + [Check(a, w)], last)
    else if !w.knownModel then
      Stop(SendRun([Account(a, Rejected)], h + [Check(a, w)] + w.settling, Reply(w.errorText, "", a.provider)))
    else
      match w.ending
      case Finished =>
        Stop(SendRun([Dispatch(a), Account(a, Success)],
                     h + [Check(a, w)] + w.during + [Event(Succeeded, a.provider, w.endedAt)] + w.settling,
                     Reply(Concat(w.chunks), a.model, a.provider)))
      case Raised(f) =>
        Next([Dispatch(a), Account(a, Classify(f, false))], Settle(h, a, w), Last(a.provider, w.errorText))
  }

  function Send(explicit: bool, attempts: seq<Attempt>, worlds: string -> World, h: seq<Event>, last: Last): SendRun {
    if attempts == [] then
      SendRun([], h, Reply(FinalText(last), "", FinalProvider(last)))
    else
      match SendTurn(explicit, attempts[0], worlds(attempts[0].provider), h, last)
      case Stop(run) => run
      case Next(log, h', last') =>
        var more := Send(explicit, attempts[1..], worlds, h', last');
        more.(log := log + more.log)
  }

  /** The loop of `route_request`. Any exception at all, a cancellation too, moves on to the next attempt. */
  method RouteRequest(explicit: bool, attempts: seq<Attempt>, worlds: string -> World, breaker: CircuitBreaker)
    returns (log: seq<Step>, reply: Reply)
    requires breaker.Valid()
    modifies breaker
    ensures breaker.Valid()
    ensures SendRun(log, breaker.history, reply) == Send(explicit, attempts, worlds, old(breaker.history), Nothing)
  {
    log := [];
    var last := Nothing;
    ghost var goal := Send(explicit, attempts, worlds, breaker.history, Nothing);
    for i := 0 to |attempts|
      invariant breaker.Valid()
      invariant SendContinues(log, Send(explicit, attempts[i..], worlds, breaker.history, last), goal)
    {
      var a := attempts[i];
      assert attempts[i..][0] == a && attempts[i..][1..] == attempts[i+1..];
      var stop, more;
      stop, more, reply, last := TrySend(explicit, a, worlds(a.provider), last, breaker);
      if stop {
        return log + more, reply;
      }
      SendContinuesOn(log, more, Send(explicit, attempts[i+1..], worlds, breaker.history, last), goal);
      log := log + more;
    }
    return log, Reply(FinalText(last), "", FinalProvider(last));
  }

  ghost predicate SendContinues(log: seq<Step>, rest: SendRun, goal: SendRun) {
    goal == rest.(log := log + rest.log)
  }

  lemma SendContinuesOn(log: seq<Step>, more: seq<Step>, rest: SendRun, goal: SendRun)
    requires SendContinues(log, rest.(log := more + rest.log), goal)
    ensures SendContinues(log + more, rest, goal)
  {
    assert log + (more + rest.log) == log + more + rest.log;
  }

  /** One turn of the collecting loop. */
  method TrySend(explicit: bool, a: Attempt, w: World, before: Last, breaker: CircuitBreaker)
    returns (stop: bool, log: seq<Step>, reply: Reply, last: Last)
    requires breaker.Valid()
    modifies breaker
    ensures breaker.Valid()
    ensures SendTurn(explicit, a, w, old(breaker.history), before) ==
            if stop then Stop(SendRun(log, breaker.history, reply)) else Next(log, breaker.history, last)
  {
    log, reply, last := [], Reply("", "", ""), before;
    if !w.hasKey {
      if explicit {
        breaker.Others(w.settling);
        return true, [Account(a, Rejected)], Reply(w.errorText, "", a.provider), last;
      }
      return false, log, reply, last;
    }
    var ready := breaker.Ready(a.provider, w.checkedAt);
    if !ready {
      return false, log, reply, last;
    }
    if !w.knownModel {
      breaker.Others(w.settling);
      return true, [Account(a, Rejected)], Reply(w.errorText, "", a.provider), last;
    }
    breaker.Others(w.during);
    match w.ending {
      case Finished =>
        breaker.Ok(a.provider, w.endedAt);
        breaker.Others(w.settling);
        return true, [Dispatch(a), Account(a, Success)], Reply(Concat(w.chunks), a.model, a.provider), last;
      case Raised(f) =>
        breaker.Others(w.settling);
        breaker.Fail(a.provider, w.endedAt);
        return false, [Dispatch(a), Account(a, Classify(f, false))], reply, Last(a.provider, w.errorText);
    }
  }
}
