/**
 A guest expert's opinion on a thread (services/expert_opinion_service.py): the
 stream, which stores the answer below its anchor, and the collector around it.
 */
module ExpertOpinion {
  import opened Wrappers
  import opened Breaker
  import opened Gateway
  import opened GatewayLaws
  import opened ThreadOrder
  import opened ThreadStore
  import C = ChatStream
  import ChatText

  datatype ExpertEvent =
    | Meta(provider: string)
    | Chunk(content: string)
    | Done(response: string, model: string, provider: string, messageId: int)
    | Fault(message: string)

  /** How a stream ends: after its last event, refused up front, cut off, or failing to store the answer. */
  datatype Ending = Completed | HttpError(status: int) | CutOff | StoreFailed

  datatype Opinion = Opinion(events: seq<ExpertEvent>, ending: Ending)

  function Chunks(texts: seq<string>): seq<ExpertEvent> {
    seq(|texts|, k requires 0 <= k < |texts| => Chunk(texts[k]))
  }

  /** The anchor can be stored: none, a stored message, or the id the answer itself will get. */
  predicate Storable(rows: seq<Message>, lastId: nat, anchor: Option<int>) {
    anchor.None? || anchor.value == lastId + 1 || HasId(rows, anchor.value)
  }

  /** What the stream says, given the thread and the gateway's run. */
  function Said(providerId: Option<string>, rows: seq<Message>, lastId: nat, anchor: Option<int>, run: Run): Opinion {
    match Refusal(providerId, rows, anchor)
    case Some(status) => Opinion([], HttpError(status))
    case None => Consulted(providerId.value, Storable(rows, lastId, anchor), lastId + 1, run)
  }

  /** The status a request is refused with before anything is said. */
  function Refusal(providerId: Option<string>, rows: seq<Message>, anchor: Option<int>): (status: Option<int>)
    ensures status.None? ==> providerId.Some?
  {
    if providerId.None? then Some(400) else if anchor.Some? && rows == [] then Some(404) else None
  }

  function Consulted(provider: string, storable: bool, nextId: int, run: Run): Opinion {
    var texts := C.Contents(run.log);
    var spoken := [Meta(provider)] + Chunks(texts);
    if run.raised.Some? then Opinion(spoken, CutOff)
    else if run.served.None? then
      Opinion(spoken + if run.log != [] && run.log[|run.log|-1].Yield? then [Fault(run.log[|run.log|-1].text)] else [], Completed)
    else if !storable then Opinion(spoken, StoreFailed)
    else
      Opinion(spoken + [Done(Concat(texts), C.LastModel(run.log), C.LastProvider(run.log), nextId)], Completed)
  }

  /** What is heard of a run, with its last message if nobody served it. */
  ghost predicate IsHeard(heard: C.Heard, raised: Option<Failure>, run: Run) {
    && raised == run.raised
    && heard.texts == C.Contents(run.log) && heard.model == C.LastModel(run.log) && heard.provider == C.LastProvider(run.log)
    && (raised.None? ==>
          if run.served.Some? then heard.failed.None?
          else run.log != [] && run.log[|run.log|-1].Yield? && heard.failed == Some(run.log[|run.log|-1].text))
  }

  /** Distinct, named attempts, whose failures have something to say. */
  ghost predicate Servable(attempts: seq<Attempt>, worlds: string -> World) {
    C.Spoken(worlds) && Distinct(attempts) && Named(attempts)
  }

  method StreamExpertOpinion(db: ThreadDb, providerId: Option<string>, anchor: Option<int>, messageType: string,
                             encode: string -> string, attempts: seq<Attempt>, worlds: string -> World,
                             breaker: CircuitBreaker)
    returns (opinion: Opinion)
    requires db.Valid() && breaker.Valid() && Servable(attempts, worlds)
    modifies db, breaker
    ensures db.Valid() && breaker.Valid()
    ensures opinion == Said(providerId, old(db.rows), old(db.lastId), anchor,
                            Stream(true, attempts, worlds, old(breaker.history), Nothing))
    ensures db.rows == old(db.rows) + Answered(opinion, providerId, messageType, encode, anchor)
  {
    ghost var run := Stream(true, attempts, worlds, breaker.history, Nothing);
    ghost var said := Said(providerId, db.rows, db.lastId, anchor, run);
    var refusal := Refuse(db, providerId, anchor);
    if refusal.Some? {
      assert said == Opinion([], HttpError(refusal.value));
      return Opinion([], HttpError(refusal.value));
    }
    assert said == Consulted(providerId.value, Storable(db.rows, db.lastId, anchor), db.lastId + 1, run);
    var heard, raised := Consult(attempts, worlds, breaker);
    opinion := Conclude(db, heard, raised, run, providerId, anchor, messageType, encode);
    assert opinion == said;
  }

  /** A complete answer is stored, and announced once it is. */
  method Conclude(db: ThreadDb, heard: C.Heard, raised: Option<Failure>, ghost run: Run, providerId: Option<string>,
                  anchor: Option<int>, messageType: string, encode: string -> string)
    returns (opinion: Opinion)
    requires db.Valid() && IsHeard(heard, raised, run) && providerId.Some?
    modifies db
    ensures db.Valid()
    ensures opinion == Consulted(providerId.value, Storable(old(db.rows), old(db.lastId), anchor), old(db.lastId) + 1, run)
    ensures db.rows == old(db.rows) + Answered(opinion, providerId, messageType, encode, anchor)
  {
    var spoken := [Meta(providerId.value)] + Chunks(heard.texts);
    if raised.Some? {
      return Opinion(spoken, CutOff);
    }
    if heard.failed.Some? {
      return Opinion(spoken + [Fault(heard.failed.value)], Completed);
    }
    var response := Concat(heard.texts);
    var stored := StoreAnswer(db, response, providerId, anchor, messageType, encode);
    if stored.None? {
      return Opinion(spoken, StoreFailed);
    }
    var done := Done(response, heard.model, heard.provider, stored.value);
    AnsweredByDone(spoken, done, providerId, messageType, encode, anchor);
    return Opinion(spoken + [done], Completed);
  }

  /** What an opinion leaves in the thread: the whole answer, below its anchor, if it says it is done. */
  function Answered(o: Opinion, providerId: Option<string>, messageType: string, encode: string -> string,
                    anchor: Option<int>): seq<Message>
  {
    if o.events != [] && o.events[|o.events|-1].Done? then
      var done := o.events[|o.events|-1];
      [Message(done.messageId, "assistant", providerId, messageType, encode(done.response), anchor)]
    else []
  }

  lemma AnsweredByDone(spoken: seq<ExpertEvent>, done: ExpertEvent, providerId: Option<string>, messageType: string,
                       encode: string -> string, anchor: Option<int>)
    requires done.Done?
    ensures Answered(Opinion(spoken + [done], Completed), providerId, messageType, encode, anchor) ==
            [Message(done.messageId, "assistant", providerId, messageType, encode(done.response), anchor)]
  {
  }

  method StoreAnswer(db: ThreadDb, response: string, providerId: Option<string>,
                     anchor: Option<int>, messageType: string, encode: string -> string)
    returns (stored: Option<int>)
    requires db.Valid()
    modifies db
    ensures db.Valid()
    ensures stored == if Storable(old(db.rows), old(db.lastId), anchor) then Some(old(db.lastId) + 1) else None
    ensures db.rows == old(db.rows) +
              if stored.None? then []
              else [Message(stored.value, "assistant", providerId, messageType, encode(response), anchor)]
  {
    var result := db.InsertThreadMessage("assistant", encode(response), providerId, messageType, anchor);
    match result {
      case Err(_) => return None;
      case Ok(id) => return Some(id);
    }
  }

  method Refuse(db: ThreadDb, providerId: Option<string>, anchor: Option<int>) returns (status: Option<int>)
    requires db.Valid()
    ensures status == Refusal(providerId, db.rows, anchor)
  {
    if providerId.None? {
      return Some(400);
    }
    var hasContext := HasContext(db, anchor);
    return if hasContext then None else Some(404);
  }

  /** An anchor is looked up before anything is said; only an empty context counts as not found. */
  method HasContext(db: ThreadDb, anchor: Option<int>) returns (ok: bool)
    requires db.Valid()
    ensures ok <==> anchor.None? || db.rows != []
  {
    if anchor.None? {
      return true;
    }
    var context := db.ListThreadMessagesUntil(anchor);
    ContextEmptyIffThreadEmpty(db.rows, anchor, context);
    return context != [];
  }

  /** One gateway run, as heard. */
  method Consult(attempts: seq<Attempt>, worlds: string -> World, breaker: CircuitBreaker)
    returns (heard: C.Heard, raised: Option<Failure>)
    requires breaker.Valid() && Servable(attempts, worlds)
    modifies breaker
    ensures breaker.Valid()
    ensures IsHeard(heard, raised, Stream(true, attempts, worlds, old(breaker.history), Nothing))
  {
    var log, cut, served := RouteRequestStream(true, attempts, worlds, breaker);
    C.StreamIsHearable(true, attempts, worlds, old(breaker.history));
    heard := C.Listen(log);
    raised := cut;
  }

  lemma ContextEmptyIffThreadEmpty(rows: seq<Message>, anchor: Option<int>, context: seq<Message>)
    requires UniqueIds(rows)
    requires exists ordered :: IsDisplay(TableOf(rows), ordered) && IsCut(TableOf(rows), ordered, anchor, context)
    ensures context == [] <==> rows == []
  {
    var ordered :| IsDisplay(TableOf(rows), ordered) && IsCut(TableOf(rows), ordered, anchor, context);
    DisplayIsPermutation(rows, ordered);
  }

  // ----- the collector ----------------------------------------------------------------

  datatype Payload = Payload(response: string, model: string, provider: string, messageId: Option<int>)

  /** What leaves the collector instead of a payload: a status, the cancellation, or the failure to store. */
  datatype Escape = Http(status: int) | Cut | NotStored

  predicate Faulty(events: seq<ExpertEvent>) {
    exists k | 0 <= k < |events| :: events[k].Fault?
  }

  /** What the last meta or done event says. */
  function Announced(events: seq<ExpertEvent>): Payload {
    if events == [] then Payload("", "", "", None)
    else
      match events[|events|-1]
      case Meta(_) => Payload("", "", "", None)
      case Done(response, model, provider, id) => Payload(response, model, provider, Some(id))
      case _ => Announced(events[..|events|-1])
  }

  /** The text heard wins over the text announced. */
  function PayloadOf(events: seq<ExpertEvent>): Payload {
    var said := Announced(events);
    said.(response := if Heard(events) != "" then Heard(events) else said.response)
  }

  function Collected(o: Opinion): Result<Payload, Escape> {
    if Faulty(o.events) then Err(Http(502))
    else
      match o.ending
      case Completed => Ok(PayloadOf(o.events))
      case HttpError(status) => Err(Http(status))
      case CutOff => Err(Cut)
      case StoreFailed => Err(NotStored)
  }

  /** The loop of `run_expert_opinion`: an error event becomes a status 502, and what the stream raises gets
      through. */
  method Collect(o: Opinion) returns (r: Result<Payload, Escape>)
    ensures r == Collected(o)
  {
    var events := o.events;
    var parts := "";
    var meta := Payload("", "", "", None);
    for k := 0 to |events|
      invariant parts == Heard(events[..k]) && meta == Announced(events[..k])
      invariant forall j | 0 <= j < k :: !events[j].Fault?
    {
      assert events[..k+1][..k] == events[..k];
      match events[k] {
        case Meta(_) => meta := Payload("", "", "", None);
        case Chunk(text) => parts := parts + text;
        case Done(response, model, provider, id) => meta := Payload(response, model, provider, Some(id));
        case Fault(_) => return Err(Http(502));
      }
    }
    assert events[..|events|] == events;
    match o.ending {
      case HttpError(status) => return Err(Http(status));
      case CutOff => return Err(Cut);
      case StoreFailed => return Err(NotStored);
      case Completed => return Ok(meta.(response := if parts != "" then parts else meta.response));
    }
  }

  /** The text of all chunks. */
  function Heard(events: seq<ExpertEvent>): string {
    if events == [] then ""
    else Heard(events[..|events|-1]) + if events[|events|-1].Chunk? then events[|events|-1].content else ""
  }

  lemma {:induction false} HeardChunks(meta: ExpertEvent, texts: seq<string>)
    requires meta.Meta?
    ensures Heard([meta] + Chunks(texts)) == Concat(texts)
  {
    var events := [meta] + Chunks(texts);
    if texts == [] {
      assert events[..0] == [];
    } else {
      assert events[..|events|-1] == [meta] + Chunks(texts[..|texts|-1]);
      HeardChunks(meta, texts[..|texts|-1]);
    }
  }

  lemma SpokenIsCollected(meta: ExpertEvent, texts: seq<string>, last: ExpertEvent)
    requires meta.Meta? && (last.Fault? || (last.Done? && last.response == Concat(texts)))
    ensures var spoken := [meta] + Chunks(texts);
            && !Faulty(spoken)
            && (last.Fault? ==> Faulty(spoken + [last]))
            && (last.Done? ==>
                  && !Faulty(spoken + [last])
                  && PayloadOf(spoken + [last]) == Payload(last.response, last.model, last.provider, Some(last.messageId)))
  {
    var spoken := [meta] + Chunks(texts);
    HeardChunks(meta, texts);
    assert (spoken + [last])[..|spoken|] == spoken && (spoken + [last])[|spoken|] == last;
  }

  /** A request is refused up front for two reasons only, and then nothing is said: no provider is named, or an anchor
      is asked for in an empty thread. */
  lemma RefusedUpFront(providerId: Option<string>, rows: seq<Message>, lastId: nat, anchor: Option<int>, run: Run)
    ensures var o := Said(providerId, rows, lastId, anchor, run);
            && (o.ending == HttpError(400) <==> providerId.None?)
            && (o.ending == HttpError(404) <==> providerId.Some? && anchor.Some? && rows == [])
            && (o.ending.HttpError? ==> o.ending.status in {400, 404} && o.events == [] && Collected(o) == Err(Http(o.ending.status)))
  {
  }

  /** A run that nobody served ends in a message. */
  ghost predicate Explained(run: Run) {
    run.raised.None? && run.served.None? ==> run.log != [] && run.log[|run.log|-1].Yield?
  }

  /** Collected, an opinion is what was streamed of it: the whole text, with the names and the id announced,
      exactly when a run was served and stored; otherwise a status, or what the stream raised. */
  lemma CollectedIsStreamed(providerId: Option<string>, rows: seq<Message>, lastId: nat, anchor: Option<int>, run: Run)
    requires Explained(run)
    ensures Collected(Said(providerId, rows, lastId, anchor, run)) ==
              match Refusal(providerId, rows, anchor)
              case Some(status) => Err(Http(status))
              case None =>
                if run.raised.Some? then Err(Cut)
                else if run.served.None? then Err(Http(502))
                else if !Storable(rows, lastId, anchor) then Err(NotStored)
                else Ok(Payload(Concat(C.Contents(run.log)), C.LastModel(run.log), C.LastProvider(run.log), Some(lastId + 1)))
  {
    if providerId.Some? {
      var meta, texts := Meta(providerId.value), C.Contents(run.log);
      SpokenIsCollected(meta, texts, Done(Concat(texts), C.LastModel(run.log), C.LastProvider(run.log), lastId + 1));
      if run.log != [] && run.log[|run.log|-1].Yield? {
        SpokenIsCollected(meta, texts, Fault(run.log[|run.log|-1].text));
      }
    }
  }

  /** An opinion opens with its provider, goes on with the texts in order, and, once done, says so last. */
  ghost predicate Reads(o: Opinion, provider: string, texts: seq<string>, last: seq<ExpertEvent>) {
    && |o.events| == 1 + |texts| + |last| && o.events[0] == Meta(provider)
    && (forall k | 0 <= k < |texts| :: o.events[1+k] == Chunk(texts[k]))
    && o.events[1+|texts|..] == last
  }

  lemma EventsRead(provider: string, texts: seq<string>, last: seq<ExpertEvent>, ending: Ending)
    ensures Reads(Opinion([Meta(provider)] + Chunks(texts) + last, ending), provider, texts, last)
  {
  }

  lemma ConsultedReads(provider: string, storable: bool, nextId: int, run: Run)
    requires Explained(run)
    ensures var o := Consulted(provider, storable, nextId, run);
            Reads(o, provider, C.Contents(run.log),
                  if run.raised.Some? then []
                  else if run.served.None? then [Fault(run.log[|run.log|-1].text)]
                  else if !storable then []
                  else [Done(Concat(C.Contents(run.log)), C.LastModel(run.log), C.LastProvider(run.log), nextId)])
  {
    var texts := C.Contents(run.log);
    var o := Consulted(provider, storable, nextId, run);
    if run.raised.Some? || (run.served.Some? && !storable) {
      EventsRead(provider, texts, [], o.ending);
      assert [Meta(provider)] + Chunks(texts) + [] == [Meta(provider)] + Chunks(texts);
    } else {
      EventsRead(provider, texts, o.events[|texts|+1..], o.ending);
    }
  }

  /** What an opinion says of a run it heard and what is handed over of it: `texts` one by one, `told` as a whole. */
  ghost predicate Conveys(o: Opinion, provider: string, storable: bool, nextId: int, run: Run, texts: seq<string>, told: string) {
    if run.raised.Some? then Reads(o, provider, texts, []) && Collected(o) == Err(Cut)
    else if run.served.None? then
      && run.log != [] && run.log[|run.log|-1].Yield?
      && Reads(o, provider, texts, [Fault(run.log[|run.log|-1].text)]) && Collected(o) == Err(Http(502))
    else if !storable then Reads(o, provider, texts, []) && Collected(o) == Err(NotStored)
    else
      && Reads(o, provider, texts, [Done(told, C.LastModel(run.log), C.LastProvider(run.log), nextId)])
      && Collected(o) == Ok(Payload(told, C.LastModel(run.log), C.LastProvider(run.log), Some(nextId)))
  }

  lemma OpinionConveys(providerId: string, rows: seq<Message>, lastId: nat, anchor: Option<int>, run: Run)
    requires Explained(run) && Refusal(Some(providerId), rows, anchor).None?
    ensures Conveys(Said(Some(providerId), rows, lastId, anchor, run), providerId, Storable(rows, lastId, anchor), lastId + 1,
                    run, C.Contents(run.log), Concat(C.Contents(run.log)))
  {
    CollectedIsStreamed(Some(providerId), rows, lastId, anchor, run);
    ConsultedReads(providerId, Storable(rows, lastId, anchor), lastId + 1, run);
  }

  /** What a served opinion streams, stores and hands over is what the providers tried have said, piece by piece
      and in that order. */
  lemma OpinionTellsProviders(providerId: string, rows: seq<Message>, lastId: nat, anchor: Option<int>,
                              attempts: seq<Attempt>, worlds: string -> World, h: seq<Event>)
    returns (texts: seq<string>, at: seq<nat>)
    requires Servable(attempts, worlds) && Refusal(Some(providerId), rows, anchor).None?
    ensures var run := Stream(true, attempts, worlds, h, Nothing);
            && ChatText.Ascending(at) && (forall k: nat :: k in at <==> k < |run.log| && C.IsContent(run.log[k]))
            && |texts| == |at|
            && (forall k | 0 <= k < |at| :: at[k] < |run.log| && run.log[at[k]].Yield? && texts[k] == run.log[at[k]].text)
            && Conveys(Said(Some(providerId), rows, lastId, anchor, run), providerId, Storable(rows, lastId, anchor), lastId + 1,
                       run, texts, ChatText.Told(Dispatched(run.log), worlds))
  {
    var run := Stream(true, attempts, worlds, h, Nothing);
    texts := C.Contents(run.log);
    at := ChatText.ContentsAreYields(run.log);
    ChatText.StreamTells(true, attempts, worlds, h, Nothing);
    StreamIsExplained(attempts, worlds, h);
    OpinionConveys(providerId, rows, lastId, anchor, run);
  }

  /** What the thread gains: the collected answer, below its anchor. */
  function Kept(r: Result<Payload, Escape>, id: int, providerId: Option<string>, messageType: string,
                encode: string -> string, anchor: Option<int>): seq<Message>
  {
    match r
    case Err(_) => []
    case Ok(payload) => [Message(id, "assistant", providerId, messageType, encode(payload.response), anchor)]
  }

  lemma KeptIsAnswered(providerId: Option<string>, rows: seq<Message>, lastId: nat, anchor: Option<int>, run: Run,
                       messageType: string, encode: string -> string)
    requires Explained(run)
    ensures var o := Said(providerId, rows, lastId, anchor, run);
            Kept(Collected(o), lastId + 1, providerId, messageType, encode, anchor) ==
            Answered(o, providerId, messageType, encode, anchor)
  {
    CollectedIsStreamed(providerId, rows, lastId, anchor, run);
    var spoken := if providerId.Some? then [Meta(providerId.value)] + Chunks(C.Contents(run.log)) else [];
    assert spoken != [] ==> !spoken[|spoken|-1].Done?;
  }

  lemma StreamIsExplained(attempts: seq<Attempt>, worlds: string -> World, h: seq<Event>)
    requires Servable(attempts, worlds)
    ensures Explained(Stream(true, attempts, worlds, h, Nothing))
  {
    C.StreamIsHearable(true, attempts, worlds, h);
  }

  /** The stream and its collector: a payload comes back exactly when the thread gained the answer it holds. */
  method RunExpertOpinion(db: ThreadDb, providerId: Option<string>, anchor: Option<int>, messageType: string,
                          encode: string -> string, attempts: seq<Attempt>, worlds: string -> World,
                          breaker: CircuitBreaker)
    returns (r: Result<Payload, Escape>)
    requires db.Valid() && breaker.Valid() && Servable(attempts, worlds)
    modifies db, breaker
    ensures db.Valid() && breaker.Valid()
    ensures r == Collected(Said(providerId, old(db.rows), old(db.lastId), anchor,
                                Stream(true, attempts, worlds, old(breaker.history), Nothing)))
    ensures db.rows == old(db.rows) + Kept(r, old(db.lastId) + 1, providerId, messageType, encode, anchor)
  {
    ghost var run := Stream(true, attempts, worlds, breaker.history, Nothing);
    ghost var said := Said(providerId, db.rows, db.lastId, anchor, run);
    StreamIsExplained(attempts, worlds, breaker.history);
    KeptIsAnswered(providerId, db.rows, db.lastId, anchor, run, messageType, encode);
    var opinion := StreamExpertOpinion(db, providerId, anchor, messageType, encode, attempts, worlds, breaker);
    assert opinion == said;
    r := Collect(opinion);
  }

  /** An anchor that names no message is noticed up front only in an empty thread: in any other, the
      answer is streamed in full and then lost, whenever a provider serves it. */
  lemma MissingAnchorLosesAnswer(providerId: string, rows: seq<Message>, lastId: nat, anchor: int, run: Run)
    requires run.served.Some? && run.raised.None?
    ensures var o := Said(Some(providerId), rows, lastId, Some(anchor), run);
            && (o.ending == HttpError(404) <==> rows == [])
            && (o.ending == StoreFailed <==> rows != [] && anchor != lastId + 1 && !HasId(rows, anchor))
            && (o.ending == StoreFailed ==> o.events == [Meta(providerId)] + Chunks(C.Contents(run.log)))
  {
    assert rows == [] ==> !HasId(rows, anchor);
  }
}
