# A verified model of the thread store, the model gateway and the bounded text and money code

The project models the parts of a construction-management chat backend whose behaviour cannot be read off one branch:
the display order of message threads, the provider gateway with its shared circuit breaker and the event streams on top
of it, keyset pagination with its opaque cursor, the envelope user turns are stored in, a sliding-window rate limiter,
and the arithmetic and text scanners that promise bounds. `dafny verify dfyconfig.toml` checks all of it.

Each module stands for one part:

- `ThreadOrder`, `ThreadInsert`, `ThreadStore`: messages with anchors. The display order is defined without any traversal
  (lexicographic order on the paths of anchors, then what no root reaches, by id); the traversal of the program is proved
  to produce it for any anchors, cyclic ones included, and insertion and the context cut are proved about it.
- `Breaker`, `Gateway`, `GatewayLaws`, `GatewayOrder`, `GatewayRecords`, `GatewayForms`: the breaker as one history of
  atomic steps by any number of requests, both gateway loops against it, the protocol and accounting of a request, the
  order of its attempts, what its records tell, and the two forms side by side. A `World` says for each provider what it yields, how it ends, what the clock reads and what
  other requests do meanwhile.
- `ChatStream`, `ChatText`, `ExpertOpinion`: the event protocols on top of the gateway, and what is said and stored in
  terms of what the providers said.
- `Pagination`, `Base64`, `Calendar`, `Cursor`: pages over a fixed list, walks over a changing store, and the cursor
  (RFC 4648, sections 3.2 and 5).
- `Json`, `JsonText`, `Names`, `UserTurn`, `TurnText`: the envelope on a concrete JSON printer and reader (RFC 8259), what
  the stored text looks like, and what becomes of each part.
- `RateLimiter`, `Money`, `CostLayers`, `Ledger`, `Transcript`, `ColumnSplit`, `LanguageOverride`: one file of the
  program each (`Money` holds the rounding both money modules use). `Text` and `Wrappers` hold what they share.

Code that changes state is imperative here as well: the loops and classes are proved against specification functions,
and what is promised is proved about those functions.

Where the code and its own description part, the model follows the code:

- An insert is displayed behind everything already inserted below its anchor, not directly below the anchor
  (`ThreadInsert.InsertFollowsBlock`). A row anchored on its own id satisfies the foreign key and is displayed last.
- A missing anchor is reported as not found only in an empty thread; in any other the answer is streamed in full and
  then fails to be stored (`ExpertOpinion.MissingAnchorLosesAnswer`).
- The collecting gateway goes on to the next provider after a cancellation, the streaming one stops
  (`GatewayForms.CancellationParts`).
- The done event can name a failed provider, when the one that served said nothing (`ChatStream.DoneNamesServerIffItSpoke`).
- Decoding a stored turn trims a file name that was cut behind a blank (`UserTurn.EncodedTurnDecodes`), and an envelope
  typed as plain text is unwrapped on its way to the provider (`UserTurn.TypedEnvelopeIsUnwrapped`).
- Layers that are all captured as zero are left at zero, whatever the bid (`CostLayers.LayersAddUp`).
- A transcript bound of zero messages bounds nothing (`Transcript.LineBoundHoldsIff`).
- Paging returns a project once more exactly when it is dated back past the cursor behind the page it was on
  (`Pagination.RepeatedIffDatedBack`).

## Model

| member | source | states |
|---|---|---|
| ThreadOrder.UnrootedIffOnOrBelowCycle | database/thread_store.py:213-232 | a message is out of reach of every root exactly when climbing its anchors leads onto a cycle |
| ThreadOrder.ChainIsShort | database/thread_store.py:226-232 | a path of anchors from a root never meets a message twice and is no longer than the thread, so the unchecked recursion ends |
| ThreadOrder.OrderUnique | database/thread_store.py:209-238 | the same messages in display order are the same list |
| ThreadOrder.DisplayUnique | database/thread_store.py:209-238 | a thread has one display only |
| ThreadOrder.DisplayIsPermutation | database/thread_store.py:209-238 | a display is a permutation of the rows, for any anchors |
| ThreadOrder.DisplayReads | database/thread_store.py:222-238 | roots ascend, siblings ascend, an anchor precedes its inserts, messages on or below a cycle come last in id order |
| ThreadInsert.InsertFollowsBlock | database/thread_store.py:209-238 | below a reachable anchor, the newest message is displayed right behind the anchor's unbroken block (the anchor and all below it) and nothing else moves |
| ThreadInsert.InsertRoot | database/thread_store.py:217-222 | a message without an anchor in the thread goes behind all that roots reach, before what they do not |
| ThreadInsert.InsertUnrooted | database/thread_store.py:234-238 | a message anchored on itself or on an unreachable message goes last |
| ThreadInsert.CutKeepsAncestors | database/thread_store.py:435-445 | the cut behind a reachable anchor holds all the anchor's ancestors and nothing inserted below the anchor |
| ThreadStore.Walk | database/thread_store.py:226-229 | the recursive walk ends on any table and appends exactly the node's block in display order |
| ThreadStore.WalkEach | database/thread_store.py:228-229 | the loop over sorted children appends their blocks, one after the other |
| ThreadStore.IndexRows | database/thread_store.py:213-221 | each anchor's list holds its children, the roots are the rows without a stored anchor |
| ThreadStore.WalkRoots | database/thread_store.py:222-232 | walking the sorted roots yields exactly the messages roots reach, in order |
| ThreadStore.AppendUnseen | database/thread_store.py:234-238 | appending the unseen rows by id completes the display |
| ThreadStore.OrderThreadMessages | database/thread_store.py:209-238 | for rows with unique ids and any anchors the result is the display, and a permutation of the rows |
| ThreadStore.StoredIsRooted | database/thread_store.py:400-420 | under the foreign key only a self-anchored row can keep a stored message from being reached |
| ThreadStore.InsertThenList | database/thread_store.py:400-432 | listing before and after one insertion below a reachable anchor differs by the new message behind the anchor's block |
| ThreadStore.ThreadDb.InsertThreadMessage | database/thread_store.py:400-420 | refused exactly when the anchor is neither stored nor the row's own id; otherwise one row with the next id is added and nothing else changes |
| ThreadStore.ThreadDb.ListThreadMessages | database/thread_store.py:423-432 | returns the display of the stored rows, a permutation of them |
| ThreadStore.ThreadDb.ListThreadMessagesUntil | database/thread_store.py:435-445 | the whole thread without the anchor, otherwise the prefix ending at it, with its ancestors and without its descendants |
| ThreadStore.CutAt | database/thread_store.py:440-445 | the loop with break returns the prefix up to the anchor, or everything |
| Breaker.CircuitBreaker.Ready | services/model_gateway.py:221-228 | answers by the replayed history of its provider, which `Breaker.ReplayReads` spells out in events, and resets an expired deadline |
| Breaker.CircuitBreaker.Ok | services/model_gateway.py:231-232 | leaves the breaker at the replay of the history with one more success |
| Breaker.CircuitBreaker.Fail | services/model_gateway.py:235-240 | leaves the breaker at the replay of the history with one more failure |
| Breaker.CircuitBreaker.Others | services/model_gateway.py:221-240 | any interleaved steps of other requests amount to a longer history |
| Breaker.CountBounded | services/model_gateway.py:235-240 | under every interleaving the failure count stays within 0 to 2 |
| Breaker.ReplayReads | services/model_gateway.py:221-240 | after any history the entry holds the failures behind the last success, trip or check past a deadline, and the deadline of the trip that stands, both told by the events alone |
| Breaker.DeadlineIsLastOpenTrip | services/model_gateway.py:221-240 | the deadline is that of an open trip, and no open trip that still counts ends later |
| Breaker.RefusesIffOpenTrip | services/model_gateway.py:221-240 | at time t the breaker refuses exactly when some trip at u with t < u + 60 has had no success after it |
| Breaker.CountIsStreak | services/model_gateway.py:231-240 | the count is the number of failures behind the last success, trip or check past a deadline, and no success is among them |
| Breaker.ThreeFailuresTrip | services/model_gateway.py:235-240 | any three failures with no success among them open the breaker at one of them, unless a trip stood when they began |
| Breaker.ThirdFailureOpens | services/model_gateway.py:221-240 | a provider that fails three times and never succeeds is refused for sixty seconds from its third failure on |
| Breaker.TripIsThirdFailure | services/model_gateway.py:235-240 | it takes three failures without a success among them to trip |
| Gateway.AttemptsAreDistinct | services/model_gateway.py:193-212 | no provider is listed twice and each attempt names a model; there is one for a named provider, an image or a free tier, and three otherwise |
| Gateway.PaidTiersFailOver | services/model_gateway.py:112-119 | without a named provider or an image a paid tier lists its own model first and then every other provider of the chain, in chain order, with its fallback |
| Gateway.FreeTierStaysAlone | services/model_gateway.py:204-206 | a free tier lists the fast model alone |
| Gateway.NamedProviderAlone | services/model_gateway.py:199-203 | a named provider is tried alone, behind its own gateway, with the model asked for or else its default; a name that stands for none is refused |
| Gateway.NamingTheFirstChangesNothing | services/model_gateway.py:165-212 | naming the provider a tier tries first anyway leaves that attempt as it is, unless the environment sets another model for it |
| Gateway.RouteRequestStream | services/model_gateway.py:493-607 | the loop against the shared breaker produces the run of the specification: log, breaker history, failure, server |
| Gateway.TryStream | services/model_gateway.py:493-600 | one turn of the streaming loop |
| Gateway.Relay | services/model_gateway.py:543-557 | all non-empty chunks are yielded in order, and whether there was one is known |
| Gateway.RouteRequest | services/model_gateway.py:287-466 | the collecting loop produces the run of its specification |
| Gateway.TrySend | services/model_gateway.py:287-459 | one turn of the collecting loop, which any exception at all sends on to the next attempt |
| GatewayLaws.StreamKeepsProtocol | services/model_gateway.py:493-607 | every run keeps the protocol: dispatch, output of that attempt, one record; and it ends served, in one message, or cut off |
| GatewayLaws.ProtocolBalances | services/model_gateway.py:493-607 | any log that keeps the protocol has one record per dispatch, in order, and at most one rejection, at the end |
| GatewayLaws.SuccessIsLast | services/model_gateway.py:558-579 | in any log that keeps the protocol a success is the very last step |
| GatewayLaws.DispatchesOnce | services/model_gateway.py:493-550 | each provider is dispatched at most once, and only with a key, a known model and the breaker's consent |
| GatewayLaws.EachAttemptIsAccounted | services/model_gateway.py:493-600 | provider by provider the log holds exactly the record due: one for an attempt met that is tried or turned away, none for one that is skipped or never met, and nothing under any other name |
| GatewayLaws.RejectionsAreExplicit | services/model_gateway.py:496-533 | a rejection record names a listed attempt that was asked for without a key, or whose model is unknown and which the breaker let through |
| GatewayLaws.StreamAccounts | services/model_gateway.py:493-607 | one record per dispatch and explicit rejection, exactly the one due to each attempt met and none for skipped ones or those never met, every rejection explicit, at most one success, last, exactly when served |
| GatewayOrder.FailoverIsInOrder | services/model_gateway.py:493-607 | an attempt is tried or turned away only once each one before it had no key, was held off by the breaker or failed uncancelled; a request that runs out of attempts has passed all of them so |
| GatewayOrder.KeylessIsInvisible | services/model_gateway.py:496-512 | unless a provider is asked for, those without a key might as well not be listed |
| GatewayRecords.RecordsTellOutput | services/model_gateway.py:580-597 | a recorded disconnect follows the dispatch itself, a recorded interruption follows output of that very attempt |
| GatewayRecords.RecordsTellEnding | services/model_gateway.py:558-600 | the record of a tried attempt is the one due to how it ended: success, timeout, other error, or cut off with or without a word said |
| GatewayRecords.CancellationEndsRun | services/model_gateway.py:580-600 | a run is cut off exactly when one of its attempts is, which is then the last, and what cut it gets out |
| GatewayRecords.BreakerHearsRecords | services/model_gateway.py:558-600 | the breaker hears one verdict per recorded attempt, in the same order and at the moment it ended, good exactly for a success, and between them only what other requests do while an attempt lasts or is recorded |
| GatewayRecords.BreakerHearsSent | services/model_gateway.py:287-459 | in the collecting form it hears the same, but of a success before that is recorded |
| GatewayForms.FormsAgree | services/model_gateway.py:287-607 | same keys, breaker, clock and providers without cancellation: same provider, model and text, same breaker, same records |
| GatewayForms.CancellationParts | services/model_gateway.py:414-600 | whichever attempt a cancellation ends the stream at, both forms have the same records up to it, and the collecting form continues with the attempts behind it |
| ChatStream.Listen | services/chat_service.py:546-584 | of any log: the text up to the first message without a model, the last model and provider named, and that message; `ChatText.ContentsAreYields` and `ChatText.NamesAreLast` tie these to the yields |
| ChatStream.UnservedEndsInMessage | services/model_gateway.py:601-607 | an unserved run yields only content of named models and then one message without a model |
| ChatStream.StreamChatResponse | services/chat_service.py:526-710 | the turn emits and stores what its specification says; the breaker is where the gateway run leaves it if there was one, and untouched if the turn ended before |
| ChatStream.ChatKeepsProtocol | services/chat_service.py:526-710 | a completed turn is one error, at most behind meta, or meta, all state changes, all the text heard and exactly one of error and done; both stores get the done text, and nothing is stored without a done |
| ChatStream.DoneIffServed | services/chat_service.py:557-710 | a routed turn ends in done exactly when the run ends in a success record, and completes exactly when nothing cut it off |
| ChatStream.DoneNamesServerIffItSpoke | services/chat_service.py:569-572 | the named provider is the one that served exactly when that one said something |
| ChatText.ContentsAreYields | services/chat_service.py:557-584 | the texts heard of a log are those of all its content yields, in their order |
| ChatText.HeardUpToComplaint | services/chat_service.py:557-584 | what is heard of a log ends with its first message without a model, if there is one |
| ChatText.YieldsAreChunks | services/model_gateway.py:543-557 | what an attempt yields are all its chunks but the empty ones, in their order and under its own name |
| ChatText.NamesAreLast | services/chat_service.py:569-572 | the model and the provider named are those of the last yield that names one |
| ChatText.StreamTells | services/chat_service.py:557-589 | the text heard of a run is all that the providers it tried have said, one after the other, those that failed half way included |
| ChatText.UnservedSaysWhy | services/model_gateway.py:601-607 | a request nobody served ends in the message of the attempt it turned away, or else of the last one that failed, or says that no provider is available |
| ChatText.ChatTellsProviders | services/chat_service.py:526-710 | a turn let through says its state changes and the providers' texts, each in order; served, the done event and both stores get all that was said, and the sources count the turn if that was anything, in a project and without an image |
| ChatText.ClarifyingTurn | services/chat_service.py:551-556 | a turn that must ask back says and stores the question, whatever the gateway would do, and does not count for the sources |
| ChatText.RefusedTurn | services/chat_service.py:268-374 | the first failing check up front, size before image before model, is all a turn says, and nothing is stored |
| ChatText.TurnIgnores | services/chat_service.py:268-556 | a rolling turn is the same whatever its size, question and tools; a turn outside a project whatever its question and tools; a turn with an image whatever its question |
| ExpertOpinion.StreamExpertOpinion | services/expert_opinion_service.py:118-253 | events and ending follow from thread and gateway run; the thread gains the whole answer below its anchor exactly with a done event |
| ExpertOpinion.Conclude | services/expert_opinion_service.py:209-253 | only a run that somebody served and nothing cut off is stored, and it is announced once it is stored |
| ExpertOpinion.StoreAnswer | services/expert_opinion_service.py:224-231 | the answer is stored under the next id exactly when its anchor can be |
| ExpertOpinion.HasContext | services/expert_opinion_service.py:139-140 | the look-up of an anchor fails exactly in an empty thread |
| ExpertOpinion.Refuse | services/expert_opinion_service.py:131-140 | 400 without a provider, 404 for any anchor in an empty thread, and no other refusal |
| ExpertOpinion.Consult | services/expert_opinion_service.py:182-207 | what is heard of the run, with the last message of one nobody served |
| ExpertOpinion.Collect | services/expert_opinion_service.py:269-311 | an error event becomes a 502, what the stream raises gets through, and otherwise the payload holds the text heard and what was announced |
| ExpertOpinion.CollectedIsStreamed | services/expert_opinion_service.py:118-311 | collecting a stream gives the concatenation of all chunks with the names and id announced exactly when a run was served and stored; otherwise the status, cancellation or failure to store |
| ExpertOpinion.OpinionTellsProviders | services/expert_opinion_service.py:182-311 | an opinion streams the providers' texts in order, and once served and storable announces and hands over all that was said; otherwise it ends in the last message, the cancellation or the failure to store |
| ExpertOpinion.RefusedUpFront | services/expert_opinion_service.py:131-140 | 400 exactly without a provider, 404 exactly for an anchor in an empty thread, and then nothing is said |
| ExpertOpinion.RunExpertOpinion | services/expert_opinion_service.py:256-311 | a payload comes back exactly when the thread gained the answer it holds, below its anchor; in every other case the thread is unchanged |
| ExpertOpinion.MissingAnchorLosesAnswer | services/expert_opinion_service.py:139-231 | a missing anchor is refused exactly in an empty thread; in any other a served answer is streamed in full and not stored |
| Pagination.KeysetAfter | services/project_library.py:90-114 | the loop with its started flag cuts the page off the rows from the first one past the cursor, for any rows and limit |
| Pagination.FromIsSelectedIff | services/project_library.py:104-114 | that equals filtering exactly when no row behind the first one past the cursor fails the predicate |
| Pagination.PageIsFilterThenLimit | services/project_library.py:90-137 | on a strictly descending list it always does |
| Pagination.PagesCoverList | services/project_library.py:90-114 | the pages concatenated are the list, and has-more is true on exactly the non-final ones |
| Pagination.TopIsPrefix | services/project_library.py:125-137 | the greatest n keys in descending order are the first n of all keys in that order |
| Pagination.PageIsBounded | services/project_library.py:38-53 | whatever environment and caller say, a page has 1 to 200 rows; a limit in range stands, one out of range becomes the nearest in range, none is the standard size, and clamping twice is clamping once |
| Pagination.EnvironmentBounds | services/project_library.py:26-42 | unset, pages have 50 rows and at most 100; what the environment sets stands when it is in range |
| Pagination.PageIsRange | services/project_service.py:81-108 | a page is exactly what is listed between its cursors, and there is a next cursor only if something is left |
| Pagination.StatementIsKeysetAfter | services/project_library.py:117-137 | the statement and the pure function cut the same page and agree on whether there is more |
| Pagination.OpsLeadLater | services/project_service.py:81-108 | inserts, deletes and updates that do not date back never lower a date nor bring a deleted project back |
| Pagination.NoneTwice | services/project_service.py:81-108 | no project is on two pages of a walk while projects are inserted, deleted and updated in between, whatever the limit of each page |
| Pagination.NoneTwiceInPage | services/project_service.py:92-108 | nor twice on one page, and each belongs to the organisation |
| Pagination.LatestFirst | services/project_library.py:125-137 | on a page later dates come first, and greater ids of equal dates |
| Pagination.NothingLaterLeftOut | services/project_library.py:117-137 | a listed project past the cursor and later than some row of the page is on the page |
| Pagination.UntouchedIsReturnedOnce | services/project_service.py:81-108 | a project untouched throughout a finished walk is on exactly one page |
| Pagination.AheadShrinks | services/project_library.py:117-137 | each page takes a full page of projects off those a walk may still return, and only new ones dated past its cursor join them |
| Pagination.WalkEnds | services/project_library.py:117-137 | the room on the pages read is bounded by the projects there were at the start and those inserted past a cursor since, so a walk that none joins ends |
| Pagination.UnchangedIsReturned | services/project_service.py:81-108 | whatever else happens, a project unchanged from some page of a finished sequence on, past its cursor, is on that page or a later one |
| Pagination.RepeatIsDatedBack | services/project_service.py:81-108 | whatever happens to the projects, one on two pages was dated back in between, past the cursor behind the first |
| Pagination.RepeatedIffDatedBack | services/project_service.py:81-108 | a project with another date behind the page it was on is returned again exactly when it was dated back past the cursor behind that page |
| Pagination.BackdatingRepeats | services/project_service.py:81-108 | such a finished sequence of pages exists: two projects, one of them dated back and on both pages |
| Base64.DecodeEncode | services/project_library.py:66-76 | decoding what was encoded gives the bytes back, for every byte length |
| Base64.RepadRestores | services/project_library.py:66-75 | the padding left out is the padding put back, for every byte length |
| Base64.LongVectors | services/project_library.py:66 | the test vectors of RFC 4648, section 10, with `Base64.ShortVectors` and `Base64.Alphabet` |
| Calendar.FromOrdinal | services/project_library.py:57-66 | every day number of the years 1 to 9999 has its date, and that date has the number |
| Calendar.DateReads | services/project_library.py:57-66 | every date of those years is the one its number stands for |
| Calendar.MonthStarts | services/project_library.py:57-66 | how many days of a year, leap or not, lie before each month |
| Calendar.ToUtcKeepsInstant | services/project_library.py:57-61 | moving to a UTC clock keeps the instant, and moving again changes nothing |
| Calendar.OffsetIsAhead | services/project_library.py:57-61 | a clock with a positive offset shows a later time than UTC, by that much |
| Calendar.IsoReads | services/project_library.py:63-79 | the ISO text of every UTC instant reads back as that instant |
| Calendar.IsoTextReads | services/project_library.py:63 | the text of an instant is its year, month, day, hour, minute and second in that order, with microseconds only if there are any |
| Calendar.ZoneReads | services/project_library.py:79 | an offset is read in hours and minutes with its sign |
| Cursor.UuidReads | services/project_library.py:63-78 | the text of every 128-bit id reads back as that id |
| Cursor.CursorText | services/project_library.py:62-65 | a cursor holds the object of the instant's ISO text and the id's text, without blanks |
| Cursor.DecodedIsUtc | services/project_library.py:70-87 | white space around a cursor does not matter, white space alone is refused, and what is read is on a UTC clock |
| Cursor.CursorRoundTrip | services/project_library.py:56-87 | decoding an encoded cursor gives the same instant in UTC and the same id; only an instant outside the calendar has no cursor |
| Json.LoadsDumps | services/message_format.py:94-149 | any value without floats reads back as itself, with either choice of separators |
| JsonText.DumpsReads | services/message_format.py:149 | the text of every kind of value, built from the texts of its parts in their order |
| JsonText.EscapeTable | services/message_format.py:149 | how each character of a string is written; everything beyond ASCII stays as it is |
| JsonText.GetIsLast | services/message_format.py:46-87 | a look-up finds the last field of that name, or null |
| Names.CanonicalIsFixed | services/message_format.py:78-82 | the canonical text of an id is its own canonical text |
| Names.UuidForms | services/message_format.py:78-82 | thirty-two hexadecimal digits in either case, bare or hyphenated, in braces or behind the scheme's name, are the same id |
| Names.HyphensStand | services/message_format.py:80 | the canonical text has groups of 8, 4, 4, 4 and 12 digits |
| Names.WordsPart | services/message_format.py:83 | white space parts words wherever it stands, so the words of a text are those in front and those behind |
| Names.NormalNameReads | services/message_format.py:83 | a name is the text's words with single blanks and single quotes, cut at 256 characters, or image when there are none |
| Text.StripCuts | services/message_format.py:56-59 | stripping cuts all white space off both ends and nothing else |
| Names.CollapseIsSpaced | services/message_format.py:83 | collapsed text has single blanks only and none at either end |
| Names.CollapseSpaced | services/message_format.py:83 | collapsing white space changes an already spaced name by a final blank at most |
| Names.NormalAgain | services/message_format.py:83 | normalising a normal name drops a final blank and then nothing more |
| Names.NormalNameIsNormal | services/message_format.py:83 | a normalised name is non-empty, at most 256 characters, without double quotes, doubled blanks or a blank in front |
| Names.BlankComesFromCut | services/message_format.py:83 | a normalised name ends in a blank exactly when the cut at 256 characters fell right behind one |
| UserTurn.SanitizeUserTurnParts | services/message_format.py:38-87 | the loop refuses the turn, skips the file or keeps the part as its specification says |
| UserTurn.ItemIsClean | services/message_format.py:38-87 | a part that passes has a trimmed, non-empty id and label, the count of its body, or a canonical file id and a normal name |
| UserTurn.BodiesKept | services/message_format.py:47-77 | no text and no pasted body is ever changed, and the count is that of the body |
| UserTurn.EnvelopeReads | services/message_format.py:90-149 | reading a written envelope gives its parts back, in order, up to the blank of a cut name |
| UserTurn.EncodedTurnDecodes | services/message_format.py:90-149 | decoding an encoded turn gives its sanitised non-empty parts, unchanged exactly when no file name was cut behind a blank |
| UserTurn.SecondTripChangesNothing | services/message_format.py:90-149 | encoding and decoding once more changes nothing |
| UserTurn.StoredTurnExpands | services/message_format.py:125-157 | what is stored expands to the expansion of the turn's parts; for a turn of text alone exactly when the text is no envelope itself |
| TurnText.ExpansionJoins | services/message_format.py:125-131 | parts are expanded one after the other, in their order |
| TurnText.PartExpands | services/message_format.py:125-131 | a text or a paste expands to its body, a file to nothing |
| TurnText.StoredBodyStands | services/message_format.py:125-157 | in what a provider gets of an attached turn, each body stands right behind the bodies of the parts before it |
| TurnText.ItemFates | services/message_format.py:44-87 | what becomes of any raw item: a file with a bad id is left out, anything else unacceptable refuses the turn |
| TurnText.RefusedIffBadItem | services/message_format.py:38-87 | a list is refused exactly when one of its items is |
| TurnText.SanitizeJoins | services/message_format.py:38-87 | the parts kept of one list stand in front of those of the next |
| TurnText.CompactJoins | services/message_format.py:139-144 | the non-empty parts of a turn are those of its first parts and then those of the rest, and with `TurnText.CompactOne` only empty texts are dropped |
| TurnText.TurnIsStoredAs | services/message_format.py:134-149 | the very text that is stored: nothing for a refused turn, the envelope of the non-empty parts when one is attached, the plain text otherwise |
| TurnText.ReadsAsTurnIff | services/message_format.py:90-101 | a text is read as a turn exactly when it starts as the writer's and is an object of version one and this kind with acceptable parts |
| UserTurn.ExpansionIsShorter | services/message_format.py:125-157 | an envelope is longer than all the bodies it holds together |
| UserTurn.TypedEnvelopeIsUnwrapped | services/message_format.py:134-157 | the failing family: any attached turn's envelope, typed as text, is stored as typed and expanded to its bodies |
| RateLimiter.Limiter.Check | services/basalt_rate_limit.py:33-45 | admits exactly when fewer than the maximum were admitted within the last window, and leaves all other keys alone |
| RateLimiter.Limiter.Prune | services/basalt_rate_limit.py:37 | keeps the recent times of a bucket, in order |
| RateLimiter.WindowHoldsAtMostMax | services/basalt_rate_limit.py:33-45 | wherever a half-open window is laid over a run, the calls of one key admitted in it are at most the maximum |
| RateLimiter.RejectedIffFull | services/basalt_rate_limit.py:33-45 | every call of a run was rejected exactly when as many calls of its key as are allowed were admitted less than a window before it |
| RateLimiter.KeysAreIndependent | services/basalt_rate_limit.py:33-45 | the calls of one key are served as if there were no other keys |
| Money.Round2IsNear | services/cost_engineering_service.py:64-82 | rounding to cents moves a value by half a cent at most |
| Money.Round2IsMonotone | services/cost_engineering_service.py:64-82 | rounding never reverses an order |
| Money.HalfGoesToEven | services/project_copilot_tools.py:393-394 | half a cent goes to the even neighbour |
| CostLayers.ExtractLayerAmounts | services/cost_engineering_service.py:52-84 | the loops over the dictionary compute the filled and adjusted layers of the specification |
| CostLayers.ShareOut | services/cost_engineering_service.py:67-71 | if rounding leaves every missing layer at zero, no more than one and a half cents were to be shared |
| CostLayers.FillByWeight | services/cost_engineering_service.py:67-71 | each missing layer gets its weighted share of what remains, captured ones stay |
| CostLayers.NothingFound | services/cost_engineering_service.py:31-36 | a bid of 100 without any layer is split 68, 12, 10 and 10 |
| CostLayers.FillIsProportional | services/cost_engineering_service.py:62-71 | one factor times its share is what every missing layer gets, to half a cent, and that factor gives out all that remains; captured layers stay |
| CostLayers.SpreadDrift | services/cost_engineering_service.py:76-82 | rewriting the layers in place uses the sum from before, for every layer |
| CostLayers.SpreadIsProportional | services/cost_engineering_service.py:76-82 | one factor times the layer is what every layer becomes, to half a cent, and that factor takes the sum to the total |
| CostLayers.AllFourIff | services/cost_engineering_service.py:62-110 | all four layers come back exactly when none was found, all were, or something was left over; otherwise a KeyError |
| CostLayers.LayersAddUp | services/cost_engineering_service.py:52-84 | none is negative, and the sum is within 0.025 of a positive bid exactly unless all four were captured as zero and the bid exceeds 0.025 |
| CostLayers.LayersKeepOrder | services/cost_engineering_service.py:76-82 | the drift correction lets no layer overtake another |
| CostLayers.PercentagesAddUp | services/cost_engineering_service.py:105-116 | the percentages add up to one hundred within 0.02 + 0.5 / total |
| CostLayers.PercentagesAreOwn | services/cost_engineering_service.py:105-116 | each percentage is its own layer's in the rounded sum, within 0.005, and zero of an empty sum |
| Ledger.SumLedger | services/project_copilot_tools.py:371-389 | the four totals are the sums of the entries by kind and by pending or not |
| Ledger.SettlingMovesAmount | services/project_copilot_tools.py:371-389 | whatever a pending entry becomes moves exactly its amount from the pending to the final total of its kind and nothing else |
| Ledger.GetCashFlowForecast | services/project_copilot_tools.py:351-402 | week w of the runway is the finalised net plus w weekly differences, and the last week is within 0.01 per week of the net with pending |
| Ledger.LastWeekIsNear | services/project_copilot_tools.py:391-400 | spreading pending amounts in cents over any number of weeks loses at most a cent a week |
| Ledger.ExportLedgerToAccountant | services/invoice_tools.py:168-184 | one bucket per currency in use with its sums, and the nets of all buckets add up to the net |
| Ledger.InCurrencyOne | services/invoice_tools.py:173-184 | an entry is booked in the currency it names, in US dollars if it names none, and with `Ledger.InCurrencyJoins` a bucket is the sum of its entries |
| Ledger.NetWithout | services/invoice_tools.py:195-196 | the net over all currencies does not depend on their order |
| Ledger.KindIsBoth | services/project_copilot_tools.py:376-389 | pending and other entries of a kind are all of its entries |
| Ledger.ForecastAndExport | services/invoice_tools.py:173-184 | forecast with everything pending, export and sum of the currencies' nets are one number |
| Transcript.RenderLines | services/adhoc_transcript.py:269-276 | the loop with its counters makes the lines of the specification, which `Transcript.KeptLinesKeepTheirRounds` tells from the messages alone |
| Transcript.BuildTranscriptLines | services/adhoc_transcript.py:262-284 | cuts and pops to the kept lines and joins them by blank lines |
| Transcript.LongestSuffixThatFits | services/adhoc_transcript.py:278-284 | what is kept is the longest run of latest lines within both bounds |
| Transcript.LineBoundHoldsIff | services/adhoc_transcript.py:278-279 | exactly when the number of kept lines is within the bound, for any bound |
| Transcript.TextIsBounded | services/adhoc_transcript.py:281-284 | the joined text is at most the character bound plus the number of lines less two |
| Transcript.KeptLinesKeepTheirRounds | services/adhoc_transcript.py:231-240 | however much is cut, the lines left are those of the latest messages that have one, in order, and each synthesis shows one more than the number of earlier syntheses of the same session, whatever other sessions say |
| Transcript.RoundsLookDifferent | services/adhoc_transcript.py:239 | two labels with text behind them look the same only for the same round and text |
| Transcript.SynthesisLineTells | services/adhoc_transcript.py:231-240 | the line of a synthesis tells both its round and its text |
| ColumnSplit.SplitColumnList | services/project_schema_generator.py:135-154 | the scan returns the stripped non-empty stretches between the cuts |
| ColumnSplit.CutsOutsideParentheses | services/project_schema_generator.py:139-144 | a cut is a comma before which no stretch opens more parentheses than it closes |
| ColumnSplit.PiecesJoin | services/project_schema_generator.py:145-154 | the pieces of some stretches are those of the first ones and then those of the rest, and with `ColumnSplit.PiecesOfOne` each is its stretch stripped, unless blank |
| ColumnSplit.SegmentsSplit | services/project_schema_generator.py:139-154 | the stretches joined by commas are the text, none holds a comma outside parentheses, all but the last close theirs |
| ColumnSplit.SplitIsUnique | services/project_schema_generator.py:139-154 | there is no other way to split a text like that |
| ColumnSplit.PieceStaysWhole | services/project_schema_generator.py:135-154 | splitting a piece again gives that piece alone |
| ColumnSplit.RejoinedSplitsTheSame | services/project_schema_generator.py:135-154 | splitting the comma-join of the pieces gives the same pieces |
| LanguageOverride.Find | services/chat_language.py:94-96 | the first occurrence from a position on, or a negative number exactly if there is none |
| LanguageOverride.ExtractInMessageLanguageOverride | services/chat_language.py:84-102 | none exactly when no phrase occurs, otherwise the code of an occurrence that ends last |
| LanguageOverride.TableOrderDoesNotMatter | services/chat_language.py:91-102 | two consistent tables with the same phrases give the same answer, whatever their order |
| LanguageOverride.PatternsAreConsistent | services/chat_language.py:28-37 | in the table in use phrases that end alike ask for the same language |

## Left out

- ThreadStore.ThreadDb.InsertThreadMessage: the thread's metadata touch and the creation time; ids come from the row counter of an undamaged SQLite table, and no row is deleted.
- ThreadStore.OrderThreadMessages: takes rows with unique ids, which the primary key guarantees; its three phases are methods of their own, and the traversal's call stack has no limit here.
- Gateway.RouteRequestStream: usage data of the end marker, prices, latencies and logging; error texts are inputs; the record and the breaker helpers do not raise; image content only as the cut to the first attempt. Each turn of the loop is a method of its own, as is each turn of the collecting loop.
- Gateway.AttemptsAreDistinct: tier and provider names come in lower case, and the default Gemini model has a name.
- ChatStream.StreamChatResponse: standard and rolling turns only, not project set-up; look-ups, prompts and the copilot preamble are inputs, and the background store is taken as attempted when scheduled; messages of failed attempts are not empty.
- ExpertOpinion.StreamExpertOpinion: prompt, workspace files and the encoding of the answer are inputs.
- ExpertOpinion.Collect: the event lines are values here, and the payload has text, model, provider and message id only.
- Pagination.StatementIsKeysetAfter: the SQL engine is its predicate, order and limit.
- Cursor.CursorRoundTrip: the reader takes fewer texts than Python's (full date, time to seconds with an optional six-digit fraction, an offset in hours and minutes, ASCII bytes); what the encoder writes is within.
- Json.LoadsDumps: floats are kept as literal text and not compared as numbers, lone surrogates are not read, and the limits on digits and nesting are not modelled.
- Names.CanonicalIsFixed: underscores, signs, white space and non-ASCII digits that Python's integer reader takes inside an id are not taken.
- UserTurn.SanitizeUserTurnParts: an infinite count is taken like any other number, where Python's integer conversion raises an OverflowError that nothing catches; the text of a list or an object given for an id or a name is its JSON text, not Python's.
- RateLimiter.Limiter.Check: the key comes in ready; how it is built from the request is not modelled.
- CostLayers.ExtractLayerAmounts: exact decimals instead of binary floats, and the amounts found by the patterns are an input.
- Ledger.GetCashFlowForecast: exact decimals without a context precision, and the conversions to floats in the payload are not modelled.
- Transcript.RenderLines: decoding the stored envelopes into bodies, lines and lower-case session names is an input.
- LanguageOverride.ExtractInMessageLanguageOverride: the text comes in cut to length and case-folded.
- Authentication, routers, the front end, the document job queue and its leases, the quotation flow, pattern extraction of places, amounts and schemas, attention ranking and embeddings: configuration, input and output, or short branches without a property over runs.
