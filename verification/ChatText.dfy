/**
 What a chat turn says and stores, in terms of what the providers said and of the
 helpers' reports.
 */
module ChatText {
  import opened Wrappers
  import opened Breaker
  import opened Gateway
  import opened GatewayLaws
  import opened ChatStream

  // ----- text in pieces ------------------------------------------------------------

  lemma {:induction false} ConcatJoins(a: seq<string>, b: seq<string>)
    ensures Concat(a + b) == Concat(a) + Concat(b)
  {
    if b == [] {
      assert a + b == a;
    } else {
      var init := b[..|b|-1];
      ConcatJoins(a, init);
      assert (a + b)[..|a+b|-1] == a + init;
      Regroup(Concat(a), Concat(init), b[|b|-1]);
    }
  }

  lemma ConcatOne(text: string)
    ensures Concat([text]) == text
  {
    assert [text][..0] == [];
    assert "" + text == text;
  }

  ghost predicate Ascending(at: seq<nat>) {
    forall j, k | 0 <= j < k < |at| :: at[j] < at[k]
  }

  lemma AscendingOn(at: seq<nat>, n: nat)
    requires Ascending(at) && forall k | k in at :: k < n
    ensures Ascending(at + [n])
  {
    assert forall j | 0 <= j < |at| :: at[j] in at;
  }

  /** The texts heard of a log are those of all content yields, in their order. */
  lemma {:induction false} ContentsAreYields(log: seq<Step>) returns (at: seq<nat>)
    ensures Ascending(at) && forall k: nat :: k in at <==> k < |log| && IsContent(log[k])
    ensures |Contents(log)| == |at|
    ensures forall k | 0 <= k < |at| :: at[k] < |log| && IsContent(log[at[k]]) && Contents(log)[k] == log[at[k]].text
  {
    if log == [] {
      at := [];
    } else {
      var n := |log| - 1;
      at := ContentsAreYields(log[..n]);
      if IsContent(log[n]) {
        AscendingOn(at, n);
        at := at + [n];
      }
    }
  }

  /** What is heard of a log ends with its first complaint, if there is one. */
  lemma {:induction false} HeardUpToComplaint(log: seq<Step>) returns (n: nat)
    ensures n <= |log| && Until(log) == log[..n]
    ensures forall k | 0 <= k < n - 1 :: !IsComplaint(log[k])
    ensures (n > 0 && IsComplaint(log[n-1])) || (n == |log| && forall k | 0 <= k < n :: !IsComplaint(log[k]))
  {
    if log == [] {
      n := 0;
    } else {
      var init := log[..|log|-1];
      n := HeardUpToComplaint(init);
      assert init[..n] == log[..n];
      if n == 0 || !IsComplaint(log[n-1]) {
        n := |log|;
        assert log[..n] == log;
      }
    }
  }

  /** What an attempt yields are its chunks in their order, but for the empty ones. */
  lemma {:induction false} YieldsAreChunks(chunks: seq<string>, a: Attempt) returns (at: seq<nat>)
    ensures Ascending(at) && forall k: nat :: k in at <==> k < |chunks| && chunks[k] != ""
    ensures |YieldAll(chunks, a)| == |at|
    ensures forall k | 0 <= k < |at| :: at[k] < |chunks| && YieldAll(chunks, a)[k] == Yield(chunks[at[k]], a.model, a.provider)
  {
    if chunks == [] {
      at := [];
    } else {
      var n := |chunks| - 1;
      at := YieldsAreChunks(chunks[..n], a);
      if chunks[n] != "" {
        AscendingOn(at, n);
        at := at + [n];
      }
    }
  }

  /** The model named is that of the last yield with one, and so is the provider; none is named if there is none. */
  lemma {:induction false} NamesAreLast(log: seq<Step>) returns (i: nat, j: nat)
    ensures i <= |log| && LastModel(log) == (if i == 0 then "" else ModelAt(log, i - 1))
    ensures i > 0 ==> ModelAt(log, i - 1) != ""
    ensures forall k: nat | i <= k < |log| :: ModelAt(log, k) == ""
    ensures j <= |log| && LastProvider(log) == (if j == 0 then "" else ProviderAt(log, j - 1))
    ensures j > 0 ==> ProviderAt(log, j - 1) != ""
    ensures forall k: nat | j <= k < |log| :: ProviderAt(log, k) == ""
  {
    if log == [] {
      i, j := 0, 0;
    } else {
      var n := |log| - 1;
      i, j := NamesAreLast(log[..n]);
      assert forall k: nat | k < n :: ModelAt(log[..n], k) == ModelAt(log, k) && ProviderAt(log[..n], k) == ProviderAt(log, k);
      i := if ModelAt(log, n) != "" then |log| else i;
      j := if ProviderAt(log, n) != "" then |log| else j;
    }
  }

  function ModelAt(log: seq<Step>, k: nat): string
    requires k < |log|
  {
    if log[k].Yield? then log[k].model else ""
  }

  function ProviderAt(log: seq<Step>, k: nat): string
    requires k < |log|
  {
    if log[k].Yield? then log[k].provider else ""
  }

  // ----- a run tells what its providers said -----------------------------------------

  /** All that the providers tried have said, in the order they were tried. */
  function Told(tried: seq<Attempt>, worlds: string -> World): string {
    if tried == [] then ""
    else Concat(worlds(tried[0].provider).chunks) + Told(tried[1..], worlds)
  }

  lemma {:induction false} ToldJoins(a: seq<Attempt>, b: seq<Attempt>, worlds: string -> World)
    ensures Told(a + b, worlds) == Told(a, worlds) + Told(b, worlds)
  {
    if a == [] {
      assert a + b == b;
      assert "" + Told(b, worlds) == Told(b, worlds);
    } else {
      ToldJoins(a[1..], b, worlds);
      assert (a + b)[1..] == a[1..] + b;
      Regroup(Concat(worlds(a[0].provider).chunks), Told(a[1..], worlds), Told(b, worlds));
    }
  }

  lemma {:induction false} ContentsConcat(a: seq<Step>, b: seq<Step>)
    ensures Contents(a + b) == Contents(a) + Contents(b)
  {
    if b == [] {
      assert a + b == a;
    } else {
      ContentsConcat(a, b[..|b|-1]);
      assert (a + b)[..|a+b|-1] == a + b[..|b|-1];
    }
  }

  lemma {:induction false} ContentsOfRelay(chunks: seq<string>, a: Attempt)
    requires a.model != ""
    ensures Concat(Contents(YieldAll(chunks, a))) == Concat(chunks)
  {
    if chunks != [] {
      var n := |chunks| - 1;
      ContentsOfRelay(chunks[..n], a);
      if chunks[n] != "" {
        ContentsOfYield(YieldAll(chunks[..n], a), chunks[n], a);
      } else {
        assert YieldAll(chunks, a) == YieldAll(chunks[..n], a);
        Regroup(Concat(chunks[..n]), "", "");
      }
    }
  }

  lemma ContentsOfYield(log: seq<Step>, text: string, a: Attempt)
    requires a.model != "" && text != ""
    ensures Concat(Contents(log + [Yield(text, a.model, a.provider)])) == Concat(Contents(log)) + text
  {
    var s := Yield(text, a.model, a.provider);
    assert (log + [s])[..|log|] == log;
    ConcatJoins(Contents(log), [text]);
    ConcatOne(text);
  }

  ghost predicate Tells(log: seq<Step>, worlds: string -> World) {
    Concat(Contents(log)) == Told(Dispatched(log), worlds)
  }

  lemma {:induction false} NoContents(log: seq<Step>)
    requires forall s | s in log :: !IsContent(s)
    ensures Contents(log) == []
  {
    if log != [] {
      assert log[|log|-1] in log;
      NoContents(log[..|log|-1]);
    }
  }

  lemma NothingTold(log: seq<Step>, worlds: string -> World)
    requires Dispatched(log) == [] && forall s | s in log :: !IsContent(s)
    ensures Tells(log, worlds)
  {
    NoContents(log);
  }

  lemma AttemptTells(chunks: seq<string>, a: Attempt, o: Outcome, worlds: string -> World)
    requires a.model != "" && worlds(a.provider).chunks == chunks
    ensures Tells([Dispatch(a)] + YieldAll(chunks, a) + [Account(a, o)], worlds)
  {
    AttemptLog(chunks, a, o);
    ContentsOfAttempt(chunks, a, o);
    ContentsOfRelay(chunks, a);
    assert [a][1..] == [];
    Regroup(Concat(chunks), "", "");
  }

  lemma ContentsOfAttempt(chunks: seq<string>, a: Attempt, o: Outcome)
    ensures Contents([Dispatch(a)] + YieldAll(chunks, a) + [Account(a, o)]) == Contents(YieldAll(chunks, a))
  {
    ContentsConcat([Dispatch(a)], YieldAll(chunks, a));
    ContentsConcat([Dispatch(a)] + YieldAll(chunks, a), [Account(a, o)]);
    assert [Dispatch(a)][..0] == [] && [Account(a, o)][..0] == [];
  }

  lemma TellsThen(log: seq<Step>, more: seq<Step>, worlds: string -> World)
    requires Tells(log, worlds) && Tells(more, worlds)
    ensures Tells(log + more, worlds)
  {
    ContentsConcat(log, more);
    ConcatJoins(Contents(log), Contents(more));
    DispatchedConcat(log, more);
    ToldJoins(Dispatched(log), Dispatched(more), worlds);
  }

  lemma TurnTells(explicit: bool, a: Attempt, worlds: string -> World, h: seq<Event>, last: Last)
    requires a.model != ""
    ensures match StreamTurn(explicit, a, worlds(a.provider), h, last)
            case Stop(run) => Tells(run.log, worlds)
            case Next(log, _, _) => Tells(log, worlds)
  {
    var w := worlds(a.provider);
    match FateOf(explicit, a, w, h) {
      case Skipped =>
        NothingTold([], worlds);
      case Turned =>
        RejectLog(a, w.errorText);
        NothingTold([Account(a, Rejected), Yield(w.errorText, "", a.provider)], worlds);
      case Tried =>
        AttemptTells(w.chunks, a, if w.ending.Finished? then Success else Classify(w.ending.failure, StreamedAny(w.chunks)), worlds);
    }
  }

  /** The text heard of a run is what the providers it tried have said, one after the other, also those that
      failed half way. */
  lemma {:induction false} StreamTells(explicit: bool, attempts: seq<Attempt>, worlds: string -> World, h: seq<Event>, last: Last)
    requires Named(attempts)
    ensures Tells(Stream(explicit, attempts, worlds, h, last).log, worlds)
    decreases |attempts|
  {
    if attempts == [] {
      FinalLog(last);
      NothingTold([Yield(FinalText(last), "", FinalProvider(last))], worlds);
    } else {
      var a, rest := attempts[0], attempts[1..];
      assert a in attempts && forall b | b in rest :: b in attempts;
      var turn := StreamTurn(explicit, a, worlds(a.provider), h, last);
      TurnTells(explicit, a, worlds, h, last);
      if turn.Next? {
        StreamTells(explicit, rest, worlds, turn.history, turn.last);
        TellsThen(turn.log, Stream(explicit, rest, worlds, turn.history, turn.last).log, worlds);
      }
    }
  }

  // ----- why a run was not served ------------------------------------------------------

  /** The message of a run that nobody served: that of the attempt it turned away, or else of the last one that
      failed; a run that tried nothing says so. */
  ghost predicate SaysWhy(worlds: string -> World, r: Run, otherwise: Step) {
    r.raised.None? && r.served.None? ==>
      var c, d := Recorded(r.log), Dispatched(r.log);
      && r.log != []
      && r.log[|r.log|-1] ==
           if c != [] && c[|c|-1].1 == Rejected then Complaint(worlds, c[|c|-1].0)
           else if d != [] then Complaint(worlds, d[|d|-1])
           else otherwise
  }

  function Final(last: Last): Step {
    Yield(FinalText(last), "", FinalProvider(last))
  }

  function Complaint(worlds: string -> World, a: Attempt): Step {
    Yield(worlds(a.provider).errorText, "", a.provider)
  }

  lemma RejectionSaysWhy(worlds: string -> World, a: Attempt, h: seq<Event>, otherwise: Step)
    ensures SaysWhy(worlds, Run([Account(a, Rejected), Complaint(worlds, a)], h, None, None), otherwise)
  {
    RejectLog(a, worlds(a.provider).errorText);
  }

  /** A turn that goes on was skipped and leaves no trace, or failed and left its own message. */
  ghost predicate LeavesMessage(worlds: string -> World, a: Attempt, log: seq<Step>, last: Last, last': Last) {
    || (log == [] && last' == last)
    || (&& last' == Last(a.provider, worlds(a.provider).errorText)
        && Dispatched(log) == [a]
        && exists o :: o != Rejected && Recorded(log) == [(a, o)])
  }

  lemma MessageSaysWhy(worlds: string -> World, a: Attempt, log: seq<Step>, more: Run, last: Last, last': Last)
    requires LeavesMessage(worlds, a, log, last, last') && SaysWhy(worlds, more, Final(last'))
    ensures SaysWhy(worlds, more.(log := log + more.log), Final(last))
  {
    if log == [] {
      assert [] + more.log == more.log;
    } else {
      DispatchedConcat(log, more.log);
    }
  }

  lemma AttemptLeavesMessage(worlds: string -> World, a: Attempt, o: Outcome, last: Last)
    requires o != Rejected
    ensures var w := worlds(a.provider);
            LeavesMessage(worlds, a, [Dispatch(a)] + YieldAll(w.chunks, a) + [Account(a, o)], last, Last(a.provider, w.errorText))
  {
    AttemptLog(worlds(a.provider).chunks, a, o);
  }

  lemma TurnSaysWhy(explicit: bool, a: Attempt, worlds: string -> World, h: seq<Event>, last: Last)
    ensures match StreamTurn(explicit, a, worlds(a.provider), h, last)
            case Stop(run) => SaysWhy(worlds, run, Final(last))
            case Next(log, _, last') => LeavesMessage(worlds, a, log, last, last')
  {
    var w := worlds(a.provider);
    if FateOf(explicit, a, w, h) == Turned {
      RejectionSaysWhy(worlds, a, StreamTurn(explicit, a, w, h, last).run.history, Final(last));
    } else if FateOf(explicit, a, w, h) == Tried && w.ending.Raised? {
      AttemptLeavesMessage(worlds, a, Classify(w.ending.failure, StreamedAny(w.chunks)), last);
    }
  }

  lemma {:induction false} StreamSaysWhy(explicit: bool, attempts: seq<Attempt>, worlds: string -> World, h: seq<Event>,
                                         last: Last)
    ensures SaysWhy(worlds, Stream(explicit, attempts, worlds, h, last), Final(last))
    decreases |attempts|
  {
    if attempts == [] {
      FinalLog(last);
    } else {
      var a, rest := attempts[0], attempts[1..];
      var turn := StreamTurn(explicit, a, worlds(a.provider), h, last);
      TurnSaysWhy(explicit, a, worlds, h, last);
      if turn.Next? {
        StreamSaysWhy(explicit, rest, worlds, turn.history, turn.last);
        MessageSaysWhy(worlds, a, turn.log, Stream(explicit, rest, worlds, turn.history, turn.last), last, turn.last);
      }
    }
  }

  /** A request that ends unserved gives the reason of the attempt it turned away, or else of the last attempt
      that failed, with that provider's name, or says that no provider is available. */
  lemma UnservedSaysWhy(explicit: bool, attempts: seq<Attempt>, worlds: string -> World, h: seq<Event>)
    ensures SaysWhy(worlds, Stream(explicit, attempts, worlds, h, Nothing), Yield("No provider available", "", ""))
  {
    StreamSaysWhy(explicit, attempts, worlds, h, Nothing);
  }

  // ----- what a turn says and stores ---------------------------------------------------

  /** The events are the opening, a state change for each card, and the texts, each in order, up to `last`. */
  ghost predicate Reads(events: seq<ChatEvent>, cards: seq<string>, texts: seq<string>, last: seq<ChatEvent>) {
    var n := 1 + |cards|;
    && |events| == n + |texts| + |last|
    && events[0] == Meta
    && (forall k | 0 <= k < |cards| :: events[1+k] == Mutated(cards[k]))
    && (forall k | 0 <= k < |texts| :: events[n+k] == Chunk(texts[k]))
    && events[n+|texts|..] == last
  }

  /** What a turn says and stores of a run it heard: `texts` one by one, and `told` as a whole. */
  ghost predicate Conveys(t: ChatStream.Turn, r: Run, texts: seq<string>, told: string, run: ChatRun) {
    if r.raised.Some? then Reads(run.events, CardsOf(t), texts, []) && run.writes == []
    else if r.served.Some? then
      && Reads(run.events, CardsOf(t), texts, [Done(told, LastModel(r.log), LastProvider(r.log))])
      && run.writes ==
           (if told != "" && t.hasProject && !t.rolling && !t.vision then [SourceTurn] else []) +
           [Sqlite(t.userText, told), Postgres(t.userText, told)]
    else
      && r.log != [] && r.log[|r.log|-1].Yield?
      && Reads(run.events, CardsOf(t), texts, [Fault(r.log[|r.log|-1].text)]) && run.writes == []
  }

  lemma ChatConveys(t: ChatStream.Turn, r: Run)
    requires Opening(t).Ok? && ClarifyReply(t) == ""
    requires r.raised.None? && r.served.None? ==> r.log != [] && r.log[|r.log|-1].Yield?
    ensures Conveys(t, r, Contents(r.log), Concat(Contents(r.log)), Chat(t, Routed(r)))
  {
    var cards, texts := CardsOf(t), Contents(r.log);
    NothingSaid(r.log);
    OpeningReads(t);
    EventsRead(cards, texts, []);
    assert [Meta] + Cards(cards) + Chunks(texts) + [] == [Meta] + Cards(cards) + Chunks(texts);
    EventsRead(cards, texts, [Done(Concat(texts), LastModel(r.log), LastProvider(r.log))]);
    if r.log != [] && r.log[|r.log|-1].Yield? {
      EventsRead(cards, texts, [Fault(r.log[|r.log|-1].text)]);
    }
  }

  /** A turn that is let through and asks nothing back says what the providers said, in their order; when one of
      them served it, the done event and both stores get all of it, and the project's sources count the turn if
      anything was said without an image. */
  lemma ChatTellsProviders(t: ChatStream.Turn, attempts: seq<Attempt>, explicit: bool, worlds: string -> World, h: seq<Event>)
    returns (texts: seq<string>, at: seq<nat>)
    requires Spoken(worlds) && Distinct(attempts) && Named(attempts)
    requires Opening(t).Ok? && ClarifyReply(t) == ""
    ensures var r := Stream(explicit, attempts, worlds, h, Nothing);
            && Ascending(at) && (forall k: nat :: k in at <==> k < |r.log| && IsContent(r.log[k]))
            && |texts| == |at|
            && (forall k | 0 <= k < |at| :: at[k] < |r.log| && r.log[at[k]].Yield? && texts[k] == r.log[at[k]].text)
            && Conveys(t, r, texts, Told(Dispatched(r.log), worlds), Chat(t, Route(Some(attempts), explicit, worlds, h)))
  {
    var r := Stream(explicit, attempts, worlds, h, Nothing);
    texts := Contents(r.log);
    at := ContentsAreYields(r.log);
    StreamIsHearable(explicit, attempts, worlds, h);
    StreamTells(explicit, attempts, worlds, h, Nothing);
    ChatConveys(t, r);
  }

  lemma EventsRead(cards: seq<string>, texts: seq<string>, last: seq<ChatEvent>)
    ensures Reads([Meta] + Cards(cards) + Chunks(texts) + last, cards, texts, last)
  {
  }

  lemma {:induction false} NothingSaid(log: seq<Step>)
    ensures Concat(Contents(log)) == "" <==> Contents(log) == []
  {
    if log != [] {
      var init, s := log[..|log|-1], log[|log|-1];
      NothingSaid(init);
      if IsContent(s) {
        ConcatJoins(Contents(init), [s.text]);
        ConcatOne(s.text);
      } else {
        assert Contents(log) == Contents(init);
      }
    }
  }

  /** A turn that must ask back says the question and stores it, and no provider is tried for it. */
  lemma ClarifyingTurn(t: ChatStream.Turn, routed: Routed)
    requires t.clarify != "" && t.hasProject && !t.rolling && !t.vision
    requires t.oversize == "" && t.visionError == "" && t.modelError == ""
    ensures Chat(t, routed) ==
            ChatRun([Meta, Chunk(t.clarify), Done(t.clarify, "", "")],
                    [Sqlite(t.userText, t.clarify), Postgres(t.userText, t.clarify)], true)
  {
    ConcatOne(t.clarify);
  }

  /** The checks up front come in this order, each with its own message, and nothing else is said or stored. */
  lemma RefusedTurn(t: ChatStream.Turn, routed: Routed)
    ensures var refusal := if t.oversize != "" && !t.rolling then t.oversize
                           else if t.visionError != "" then t.visionError
                           else t.modelError;
            refusal != "" ==> Chat(t, routed) == ChatRun([Fault(refusal)], [], true)
  {
  }

  /** Tools that fail end the turn behind its opening, with a message in any case. */
  lemma FailedTools(t: ChatStream.Turn, routed: Routed)
    requires t.hasProject && !t.rolling && t.copilot.Err? && ClarifyReply(t) == ""
    requires t.oversize == "" && t.visionError == "" && t.modelError == ""
    ensures Chat(t, routed) ==
            ChatRun([Meta, Fault(if t.copilot.error != "" then t.copilot.error else "Copilot tool execution failed.")], [], true)
  {
  }

  /** A rolling turn has no size limit, asks nothing back and runs no tools; outside a project there is nothing to
      ask and nothing to run; and an image is never answered by a question. */
  lemma TurnIgnores(t: ChatStream.Turn, routed: Routed, oversize: string, clarify: string, copilot: Result<seq<string>, string>)
    ensures t.rolling ==> Chat(t, routed) == Chat(t.(oversize := oversize, clarify := clarify, copilot := copilot), routed)
    ensures !t.hasProject ==> Chat(t, routed) == Chat(t.(clarify := clarify, copilot := copilot), routed)
    ensures t.vision ==> Chat(t, routed) == Chat(t.(clarify := clarify), routed)
  {
  }

  lemma UnknownProvider(t: ChatStream.Turn, explicit: bool, worlds: string -> World, h: seq<Event>)
    requires Opening(t).Ok? && ClarifyReply(t) == ""
    ensures var run := Chat(t, Route(None, explicit, worlds, h));
            Reads(run.events, CardsOf(t), [], [Fault("unknown speaking provider_id")]) && run.writes == [] && run.completed
  {
    OpeningReads(t);
    EventsRead(CardsOf(t), [], [Fault("unknown speaking provider_id")]);
    assert [Meta] + Cards(CardsOf(t)) + Chunks([]) == [Meta] + Cards(CardsOf(t));
  }
}
