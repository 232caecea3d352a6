/**
 The event protocol of the chat stream (services/chat_service.py), standard path,
 on top of the streaming gateway.
 */
module ChatStream {
  import opened Wrappers
  import opened Breaker
  import opened Gateway
  import opened GatewayLaws

  // ----- what a consumer of the gateway hears ---------------------------------------

  predicate IsContent(s: Step) {
    s.Yield? && s.model != "" && s.text != ""
  }

  /** Text without a model is a message about a failure. */
  predicate IsComplaint(s: Step) {
    s.Yield? && s.model == "" && s.text != ""
  }

  /** The text a run streams, piece by piece, whichever provider said it. */
  function Contents(log: seq<Step>): seq<string> {
    if log == [] then []
    else Contents(log[..|log|-1]) + if IsContent(log[|log|-1]) then [log[|log|-1].text] else []
  }

  function LastModel(log: seq<Step>): string {
    if log == [] then ""
    else if log[|log|-1].Yield? && log[|log|-1].model != "" then log[|log|-1].model
    else LastModel(log[..|log|-1])
  }

  function LastProvider(log: seq<Step>): string {
    if log == [] then ""
    else if log[|log|-1].Yield? && log[|log|-1].provider != "" then log[|log|-1].provider
    else LastProvider(log[..|log|-1])
  }

  predicate EndsInComplaint(log: seq<Step>) {
    log != [] && IsComplaint(log[|log|-1])
  }

  /** What is heard of a log: all of it up to the first complaint. */
  function Until(log: seq<Step>): seq<Step> {
    if log == [] then []
    else
      var u := Until(log[..|log|-1]);
      if EndsInComplaint(u) then u else log
  }

  lemma {:induction false} UntilStays(log: seq<Step>, k: nat)
    requires k <= |log| && EndsInComplaint(Until(log[..k]))
    ensures Until(log) == Until(log[..k])
  {
    if k < |log| {
      assert log[..|log|-1][..k] == log[..k];
      UntilStays(log[..|log|-1], k);
    } else {
      assert log[..k] == log;
    }
  }

  lemma {:induction false} UntilTheEnd(log: seq<Step>)
    requires forall k | 0 <= k < |log| - 1 :: !IsComplaint(log[k])
    ensures Until(log) == log
  {
    if log != [] {
      UntilTheEnd(log[..|log|-1]);
    }
  }

  /** Until a run ends without having been served, all it yields is non-empty text of a named model. */
  lemma {:induction false} OnlyContent(log: seq<Step>)
    requires Named(Dispatched(log))
    ensures !Runs(Idle, log).Broken? && Runs(Idle, log) != Closed(false) ==>
              && (forall s | s in log && s.Yield? :: s.text != "" && s.model != "" && s.provider != "")
              && (Runs(Idle, log).Busy? ==> Runs(Idle, log).a in Dispatched(log))
    decreases |log|
  {
    if log != [] {
      var init, s := log[..|log|-1], log[|log|-1];
      assert Named(Dispatched(init)) by {
        assert forall a | a in Dispatched(init) :: a in Dispatched(log);
      }
      OnlyContent(init);
      assert log == init + [s];
    }
  }

  lemma UnservedStep(log: seq<Step>)
    requires Runs(Idle, log) == Closed(false)
    ensures log != [] && log[|log|-1].Yield? && log[|log|-1].model == ""
    ensures Runs(Idle, log[..|log|-1]).Idle? || Runs(Idle, log[..|log|-1]).Refused?
  {
  }

  /** A run that ends unserved ends in one message without a model, and yields only content before it. */
  lemma UnservedEndsInMessage(log: seq<Step>)
    requires Named(Dispatched(log)) && Runs(Idle, log) == Closed(false)
    ensures log != [] && log[|log|-1].Yield? && log[|log|-1].model == ""
    ensures forall s | s in log[..|log|-1] && s.Yield? :: s.text != "" && s.model != "" && s.provider != ""
  {
    UnservedStep(log);
    assert Dispatched(log[..|log|-1]) == Dispatched(log);
    OnlyContent(log[..|log|-1]);
  }

  // ----- the chat turn --------------------------------------------------------------

  datatype ChatEvent =
    | Meta
    | Mutated(card: string)
    | Chunk(content: string)
    | Done(response: string, model: string, provider: string)
    | Fault(message: string)

  datatype Write =
    | SourceTurn
    | Sqlite(user: string, assistant: string)
    | Postgres(user: string, assistant: string)

  /** What the helpers of one turn report; an empty text stands for none. */
  datatype Turn = Turn(
    rolling: bool,
    hasProject: bool,
    vision: bool,
    oversize: string,
    visionError: string,
    modelError: string,
    clarify: string,
    copilot: Result<seq<string>, string>,
    userText: string
  )

  datatype ChatRun = ChatRun(events: seq<ChatEvent>, writes: seq<Write>, completed: bool)

  function Or(text: string, otherwise: string): string {
    if text != "" then text else otherwise
  }

  function ClarifyReply(t: Turn): string {
    if !t.rolling && t.hasProject && !t.vision then t.clarify else ""
  }

  function Opening(t: Turn): Result<seq<ChatEvent>, seq<ChatEvent>> {
    if !t.rolling && t.oversize != "" then Err([Fault(t.oversize)])
    else if t.visionError != "" then Err([Fault(t.visionError)])
    else if t.modelError != "" then Err([Fault(t.modelError)])
    else if t.hasProject && !t.rolling && ClarifyReply(t) == "" then
      match t.copilot
      case Err(e) => Err([Meta, Fault(Or(e, "Copilot tool execution failed."))])
      case Ok(cards) => Ok([Meta] + Cards(cards))
    else Ok([Meta])
  }

  function Cards(cards: seq<string>): seq<ChatEvent>
  {
    seq(|cards|, k requires 0 <= k < |cards| => Mutated(cards[k]))
  }

  function Chunks(texts: seq<string>): seq<ChatEvent>
  {
    seq(|texts|, k requires 0 <= k < |texts| => Chunk(texts[k]))
  }

  function Stores(t: Turn, texts: seq<string>): seq<Write> {
    (if texts != [] && ClarifyReply(t) == "" && !t.rolling && t.hasProject && !t.vision then [SourceTurn] else []) +
    [Sqlite(t.userText, Concat(texts)), Postgres(t.userText, Concat(texts))]
  }

  /** The gateway as the chat sees it: no attempts at all for an unknown provider, or one run. */
  datatype Routed = Unroutable(message: string) | Routed(run: Run)

  /** What one chat turn emits and stores. */
  function Chat(t: Turn, routed: Routed): ChatRun {
    match Opening(t)
    case Err(events) => ChatRun(events, [], true)
    case Ok(opening) =>
      if ClarifyReply(t) != "" then
        var texts := [ClarifyReply(t)];
        ChatRun(opening + Chunks(texts) + [Done(Concat(texts), "", "")], Stores(t, texts), true)
      else
        match routed
        case Unroutable(e) => ChatRun(opening + [Fault(Or(e, "Chat stream failed."))], [], true)
        case Routed(r) =>
          var texts := Contents(r.log);
          if r.raised.Some? then ChatRun(opening + Chunks(texts), [], false)
          else if r.served.Some? then
            ChatRun(opening + Chunks(texts) + [Done(Concat(texts), LastModel(r.log), LastProvider(r.log))],
                    Stores(t, texts), true)
          else if r.log != [] && r.log[|r.log|-1].Yield? then
            ChatRun(opening + Chunks(texts) + [Fault(r.log[|r.log|-1].text)], [], true)
          else ChatRun([], [], false)
  }

  datatype Heard = Heard(texts: seq<string>, model: string, provider: string, failed: Option<string>)

  function Hear(log: seq<Step>): Heard {
    Heard(Contents(log), LastModel(log), LastProvider(log), if EndsInComplaint(log) then Some(log[|log|-1].text) else None)
  }

  /** The loop over the gateway's yields: a complaint ends it, and empty text is passed over. */
  method Listen(log: seq<Step>) returns (heard: Heard)
    ensures heard == Hear(Until(log))
  {
    var texts, model, provider := [], "", "";
    for k := 0 to |log|
      invariant Until(log[..k]) == log[..k] && !EndsInComplaint(log[..k])
      invariant Heard(texts, model, provider, None) == Hear(log[..k])
    {
      assert log[..k+1][..k] == log[..k] && log[..k+1][k] == log[k];
      if log[k].Yield? {
        if log[k].model != "" {
          model := log[k].model;
        }
        if log[k].provider != "" {
          provider := log[k].provider;
        }
        if log[k].model == "" && log[k].text != "" {
          UntilStays(log, k + 1);
          return Heard(texts, model, provider, Some(log[k].text));
        }
        if log[k].text == "" {
          continue;
        }
        texts := texts + [log[k].text];
      }
    }
    assert log[..|log|] == log;
    return Heard(texts, model, provider, None);
  }

  /** The messages of failed attempts are never empty. */
  ghost predicate Spoken(worlds: string -> World) {
    forall p :: worlds(p).errorText != ""
  }

  ghost function Route(attempts: Option<seq<Attempt>>, explicit: bool, worlds: string -> World, h: seq<Event>): Routed {
    match attempts
    case None => Unroutable("unknown speaking provider_id")
    case Some(list) => Routed(Stream(explicit, list, worlds, h, Nothing))
  }

  method StreamChatResponse(t: Turn, attempts: Option<seq<Attempt>>, explicit: bool, worlds: string -> World,
                            breaker: CircuitBreaker)
    returns (run: ChatRun)
    requires breaker.Valid() && Spoken(worlds) && (attempts.Some? ==> Distinct(attempts.value) && Named(attempts.value))
    modifies breaker
    ensures breaker.Valid()
    ensures run == Chat(t, Route(attempts, explicit, worlds, old(breaker.history)))
    ensures breaker.history ==
              if Opening(t).Ok? && ClarifyReply(t) == "" && attempts.Some?
              then Stream(explicit, attempts.value, worlds, old(breaker.history), Nothing).history
              else old(breaker.history)
  {
    var events: seq<ChatEvent>;
    match Opening(t) {
      case Err(stopped) => return ChatRun(stopped, [], true);
      case Ok(opening) => events := opening;
    }
    if ClarifyReply(t) != "" {
      var texts := [ClarifyReply(t)];
      return ChatRun(events + Chunks(texts) + [Done(Concat(texts), "", "")], Stores(t, texts), true);
    }
    if attempts.None? {
      return ChatRun(events + [Fault(Or("unknown speaking provider_id", "Chat stream failed."))], [], true);
    }
    ghost var r := Stream(explicit, attempts.value, worlds, breaker.history, Nothing);
    var log, raised, served := RouteRequestStream(explicit, attempts.value, worlds, breaker);
    StreamIsHearable(explicit, attempts.value, worlds, old(breaker.history));
    var heard := Listen(log);
    events := events + Chunks(heard.texts);
    if raised.Some? {
      return ChatRun(events, [], false);
    }
    match heard.failed {
      case Some(message) =>
        return ChatRun(events + [Fault(message)], [], true);
      case None =>
        return ChatRun(events + [Done(Concat(heard.texts), heard.model, heard.provider)], Stores(t, heard.texts), true);
    }
  }

  ghost predicate EndsSpoken(r: Run) {
    r.raised.None? && r.served.None? ==> r.log != [] && r.log[|r.log|-1].Yield? && r.log[|r.log|-1].text != ""
  }

  lemma {:induction false} LastMessageSpoken(explicit: bool, attempts: seq<Attempt>, worlds: string -> World,
                                             h: seq<Event>, last: Last)
    requires Spoken(worlds) && FinalText(last) != ""
    ensures EndsSpoken(Stream(explicit, attempts, worlds, h, last))
    decreases |attempts|
  {
    if attempts != [] {
      var turn := StreamTurn(explicit, attempts[0], worlds(attempts[0].provider), h, last);
      if turn.Next? {
        LastMessageSpoken(explicit, attempts[1..], worlds, turn.history, turn.last);
      }
    }
  }

  /** Before its last step a run yields only content, and it ends in a message exactly when nobody served it. */
  ghost predicate Hearable(r: Run) {
    && (forall k | 0 <= k < |r.log| - 1 && r.log[k].Yield? :: IsContent(r.log[k]))
    && (r.log != [] && r.log[|r.log|-1].Yield? ==> r.log[|r.log|-1].text != "")
    && (r.raised.None? ==>
          (r.served.None? <==> r.log != [] && r.log[|r.log|-1].Yield? && r.log[|r.log|-1].model == ""))
  }

  lemma RunIsHearable(r: Run)
    requires EndsWell(r) && Named(Dispatched(r.log)) && EndsSpoken(r)
    ensures Hearable(r) && Until(r.log) == r.log
  {
    OnlyContent(r.log);
    assert forall k | 0 <= k < |r.log| :: r.log[k] in r.log;
    if Runs(Idle, r.log) == Closed(false) {
      UnservedEndsInMessage(r.log);
      assert forall k | 0 <= k < |r.log| - 1 :: r.log[k] in r.log[..|r.log|-1];
    }
    UntilTheEnd(r.log);
  }

  lemma StreamIsHearable(explicit: bool, attempts: seq<Attempt>, worlds: string -> World, h: seq<Event>)
    requires Distinct(attempts) && Named(attempts) && Spoken(worlds)
    ensures var r := Stream(explicit, attempts, worlds, h, Nothing); Hearable(r) && Until(r.log) == r.log
  {
    StreamKeepsProtocol(explicit, attempts, worlds, h, Nothing);
    DispatchesOnce(explicit, attempts, worlds, h, Nothing);
    LastMessageSpoken(explicit, attempts, worlds, h, Nothing);
    RunIsHearable(Stream(explicit, attempts, worlds, h, Nothing));
  }

  // ----- the protocol of the stream ------------------------------------------------

  /** The state changes a turn reports: those of its project's tools, if it gets to run them. */
  function CardsOf(t: Turn): seq<string> {
    if t.hasProject && !t.rolling && ClarifyReply(t) == "" && t.copilot.Ok? then t.copilot.value else []
  }

  /** One error, or one behind meta; or meta, all state changes, all text, and exactly one of an error and a done
      that repeats the text. */
  ghost predicate KeepsProtocol(events: seq<ChatEvent>, cards: seq<string>, texts: seq<string>) {
    || (|events| == 1 && events[0].Fault?)
    || (|events| == 2 && events[0].Meta? && events[1].Fault?)
    || (&& events != []
        && var last := events[|events|-1];
        && events == [Meta] + Cards(cards) + Chunks(texts) + [last]
        && (last.Fault? || (last.Done? && last.response == Concat(texts))))
  }

  /** Both stores are given the text of the done event, and nothing is stored without one. */
  ghost predicate StoresWhatItSaid(t: Turn, run: ChatRun) {
    if run.events != [] && run.events[|run.events|-1].Done? then
      var response := run.events[|run.events|-1].response;
      var both := [Sqlite(t.userText, response), Postgres(t.userText, response)];
      run.writes == both || run.writes == [SourceTurn] + both
    else run.writes == []
  }

  lemma ChatKeepsProtocol(t: Turn, attempts: Option<seq<Attempt>>, explicit: bool, worlds: string -> World, h: seq<Event>)
    requires Spoken(worlds) && (attempts.Some? ==> Distinct(attempts.value) && Named(attempts.value))
    ensures var routed := Route(attempts, explicit, worlds, h);
            var run := Chat(t, routed);
            && (run.completed ==> KeepsProtocol(run.events, CardsOf(t), TextsOf(t, routed)))
            && StoresWhatItSaid(t, run)
  {
    var routed := Route(attempts, explicit, worlds, h);
    if attempts.Some? {
      StreamIsHearable(explicit, attempts.value, worlds, h);
    }
    ChatHasShape(t, routed);
    if Opening(t).Ok? {
      OpeningReads(t);
    }
  }

  function TextsOf(t: Turn, routed: Routed): seq<string> {
    if ClarifyReply(t) != "" then [ClarifyReply(t)]
    else if routed.Routed? then Contents(routed.run.log)
    else []
  }

  lemma ChatHasShape(t: Turn, routed: Routed)
    requires routed.Routed? && routed.run.raised.None? && routed.run.served.None? ==>
               routed.run.log != [] && routed.run.log[|routed.run.log|-1].Yield?
    ensures var run, texts := Chat(t, routed), TextsOf(t, routed);
            && run.events != []
            && (Opening(t).Ok? ==>
                  if run.completed then
                    var last := run.events[|run.events|-1];
                    && run.events == Opening(t).value + Chunks(texts) + [last]
                    && (last.Fault? || last.Done?)
                    && (last.Done? ==> last.response == Concat(texts) && run.writes == Stores(t, texts))
                    && (last.Fault? ==> run.writes == [])
                  else
                    run.events == Opening(t).value + Chunks(texts) && run.writes == [] && !run.events[|run.events|-1].Done?)
  {
    if Opening(t).Ok? {
      OpeningReads(t);
      NotDone(CardsOf(t), TextsOf(t, routed));
    }
  }

  lemma NotDone(cards: seq<string>, texts: seq<string>)
    ensures var events := [Meta] + Cards(cards) + Chunks(texts); !events[|events|-1].Done?
  {
  }

  lemma OpeningReads(t: Turn)
    requires Opening(t).Ok?
    ensures Opening(t).value == [Meta] + Cards(CardsOf(t))
  {
  }

  /** A routed turn ends in done exactly when some provider served it. */
  lemma DoneIffServed(t: Turn, attempts: seq<Attempt>, explicit: bool, worlds: string -> World, h: seq<Event>)
    requires Spoken(worlds) && Distinct(attempts) && Named(attempts)
    requires Opening(t).Ok? && ClarifyReply(t) == ""
    ensures var r, run := Stream(explicit, attempts, worlds, h, Nothing), Chat(t, Route(Some(attempts), explicit, worlds, h));
            && run.events != []
            && (run.events[|run.events|-1].Done? <==> IsSuccess(r.log, |r.log| - 1))
            && (run.completed <==> r.raised.None?)
  {
    StreamIsHearable(explicit, attempts, worlds, h);
    StreamAccounts(explicit, attempts, worlds, h);
    StreamKeepsProtocol(explicit, attempts, worlds, h, Nothing);
  }

  // ----- which provider the done event names ------------------------------------------

  lemma {:induction false} LastProviderConcat(a: seq<Step>, b: seq<Step>)
    ensures LastProvider(a + b) == if LastProvider(b) != "" then LastProvider(b) else LastProvider(a)
  {
    if b == [] {
      assert a + b == a;
    } else {
      assert (a + b)[..|a+b|-1] == a + b[..|b|-1];
      LastProviderConcat(a, b[..|b|-1]);
    }
  }

  lemma {:induction false} LastProviderOfRelay(chunks: seq<string>, a: Attempt)
    requires a.provider != ""
    ensures LastProvider(YieldAll(chunks, a)) == if StreamedAny(chunks) then a.provider else ""
  {
    if chunks != [] {
      var k := |chunks| - 1;
      LastProviderOfRelay(chunks[..k], a);
      StreamedAnyStep(chunks, k);
      assert chunks[..k+1] == chunks;
      if chunks[k] != "" {
        LastProviderOfYield(YieldAll(chunks[..k], a), chunks[k], a);
      } else {
        assert YieldAll(chunks, a) == YieldAll(chunks[..k], a);
      }
    }
  }

  lemma LastProviderOfYield(log: seq<Step>, text: string, a: Attempt)
    requires a.provider != ""
    ensures LastProvider(log + [Yield(text, a.model, a.provider)]) == a.provider
  {
  }

  lemma LastProviderOfAttempt(chunks: seq<string>, a: Attempt, o: Outcome)
    requires a.provider != ""
    ensures LastProvider([Dispatch(a)] + YieldAll(chunks, a) + [Account(a, o)]) == if StreamedAny(chunks) then a.provider else ""
  {
    LastProviderOfRelay(chunks, a);
    LastProviderConcat([Dispatch(a)], YieldAll(chunks, a));
    LastProviderConcat([Dispatch(a)] + YieldAll(chunks, a), [Account(a, o)]);
    assert [Dispatch(a)][..0] == [] && [Account(a, o)][..0] == [];
  }

  /** The provider named last is the one that served exactly when that one said something. */
  ghost predicate NamesServer(attempts: seq<Attempt>, worlds: string -> World, r: Run) {
    r.served.Some? ==>
      && r.served.value in attempts
      && (LastProvider(r.log) == r.served.value.provider <==> StreamedAny(worlds(r.served.value.provider).chunks))
      && (LastProvider(r.log) != "" ==> Lists(attempts, LastProvider(r.log)))
  }

  lemma TurnNames(explicit: bool, a: Attempt, w: World, h: seq<Event>, last: Last)
    requires a.provider != ""
    ensures match StreamTurn(explicit, a, w, h, last)
            case Stop(r) =>
              r.served.Some? ==> r.served.value == a && LastProvider(r.log) == if StreamedAny(w.chunks) then a.provider else ""
            case Next(log, _, _) => LastProvider(log) == "" || LastProvider(log) == a.provider
  {
    LastProviderOfAttempt(w.chunks, a, if w.ending.Finished? then Success else Classify(w.ending.failure, StreamedAny(w.chunks)));
  }

  /** The done event names the provider that served the turn exactly when that provider said something:
      one that ends well without a word leaves the name of an earlier, failed provider standing. */
  lemma {:induction false} DoneNamesServerIffItSpoke(explicit: bool, attempts: seq<Attempt>, worlds: string -> World,
                                                     h: seq<Event>, last: Last)
    requires Distinct(attempts) && Named(attempts)
    ensures NamesServer(attempts, worlds, Stream(explicit, attempts, worlds, h, last))
    decreases |attempts|
  {
    if attempts != [] {
      var a, rest := attempts[0], attempts[1..];
      assert a in attempts;
      TurnNames(explicit, a, worlds(a.provider), h, last);
      var turn := StreamTurn(explicit, a, worlds(a.provider), h, last);
      if turn.Next? {
        DoneNamesServerIffItSpoke(explicit, rest, worlds, turn.history, turn.last);
        NamesExtend(attempts, worlds, turn.log, Stream(explicit, rest, worlds, turn.history, turn.last));
      }
    }
  }

  lemma NamesExtend(attempts: seq<Attempt>, worlds: string -> World, log: seq<Step>, more: Run)
    requires attempts != [] && Distinct(attempts) && Named(attempts) && NamesServer(attempts[1..], worlds, more)
    requires LastProvider(log) == "" || LastProvider(log) == attempts[0].provider
    ensures NamesServer(attempts, worlds, more.(log := log + more.log))
  {
    LastProviderConcat(log, more.log);
    assert attempts[0] in attempts && forall b | b in attempts[1..] :: b in attempts;
    if more.served.Some? {
      assert more.served.value.provider != attempts[0].provider;
      assert more.served.value.provider != "";
    }
  }
}
