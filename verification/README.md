# Fallback routing, retrieval and session state: a verified model

A Dafny model of the stateful core of a chat-agent backend: the router that falls back across
models and API keys, the Deep Research relay, chunking and ingestion of documents, hybrid retrieval
with its caches, two rate limiters, the branch forest of conversations and the WebSocket sessions.
`dafny verify dfyconfig.toml` checks all of it.

Each loop or object of the program that updates variables is an imperative method or class here,
proved equal to a specification function on values; the lemmas are about those functions, over every
input and every run. Whatever the program does not control is an arbitrary parameter: provider
replies, the keys a query returns, clock readings, database refusals, the heading detector, the page
cleaner, the reranker's order, the similarity of vectors.

| file | what it models |
|---|---|
| `Router.dfy` | `route_chat` and `route_stream_chat` as one machine: attempts, models, keys, skip structures, deadline |
| `RouterRequest.dfy` | what one request keeps |
| `RouterExhaustion.dfy`, `RouterMarks.dfy`, `RouterWalk.dfy`, `RouterAnswers.dfy` | where each event of a request stands, which model answers, what "exhausted" means |
| `RouterRuns.dfy` | what holds over any run of router requests and relays that share cooldowns and keys |
| `Relay.dfy` | the Deep Research relay as a generator over its local variables |
| `RelayRuns.dfy`, `RelayReach.dfy`, `RelayCooldowns.dfy` | its runs told by the log of calls and queries, why it gives up, which keys it uses |
| `RelayFrontEnds.dfy`, `RelayExamples.dfy`, `RelayStalls.dfy` | its two renderings, two concrete runs, what a stall does to a key |
| `Cooldowns.dfy`, `KeyHealth.dfy` | cooldown dictionaries and key health, against their history |
| `Text.dfy`, `Windows.dfy`, `WindowCuts.dfy`, `Sections.dfy`, `ChunkDocument.dfy`, `ChunkOrder.dfy`, `ChunkOffsets.dfy`, `Pages.dfy` | sliding windows and where they are cut, heading sections, parent/child chunks, their order and where they lie, page spans |
| `Ingestion.dfy`, `Provenance.dfy` | stored chunk rows with reused vectors; which model's vector a row carries after many ingests |
| `EmbeddingCache.dfy`, `FillIn.dfy`, `Picking.dfy` | the LRU embedding cache; filling gaps in order; what it means to keep the items that pass a test |
| `RankFusion.dfy`, `ParentExpansion.dfy`, `RetrievalCache.dfy`, `CacheRetention.dfy` | reciprocal rank fusion, small-to-big expansion and scoring, the semantic cache and what it retains |
| `SlidingWindow.dfy` | both sliding-window rate limiters |
| `Conversations.dfy`, `WsSessions.dfy`, `WsIdle.dfy` | the branch forest with cascading delete; the session maps under interleaving, and against the events alone |

## Where the code and its own words differ

The model follows the code. Each item names the members that prove it, with the exact condition and, where a
property fails, a concrete input.

- `page_for_offset` says a joiner maps to the nearest page; it maps to the first page
  (`Pages.LookupOutsideSpans`, `Pages.JoinerIsNearestOnlyForFirstPage`, `Pages.JoinerNamesFirstPage`).
- `doc[char_start:char_end] == raw_text` fails when stripping removed white space in front of a section
  body, a parent window or a child window (`ChunkOffsets.OffsetsAreExactIff`, `ChunkOffsets.ChunkLocated`,
  `ChunkOffsets.OffsetCanBeTooEarly`).
- `retry_after` is presented as the time the next slot opens; it is the last refused instant, and the
  gateway's header rounds it down (`SlidingWindow.RetryAfterIsTheLastRefusal`,
  `SlidingWindow.RetryHeaderSufficesIff`, `SlidingWindow.HeaderComesTooEarly`).
- With a limit of 0 or less the limiter reads an empty deque and raises, just when nothing was admitted in
  the last 60 seconds (`SlidingWindow.EmptyQueueErrorIff`, `SlidingWindow.FirstCallAtLimitZeroRaises`).
- The relay drops a platform after an authorization error only if the error is also retryable. "401
  unauthorized" is not, so the next model of that platform is still called; the unit test that expects
  otherwise stubs the retryable check to say yes (`RelayRuns.CallsMoveForward`,
  `RelayExamples.RefusalKeepsPlatform`).
- A relay model that streams text and then fails is not named in `models_used`, and no hand-off is
  announced before some call has worked (`RelayRuns.EventsTellTheRun`, `RelayRuns.HandoffIff`).
- The streamed and the single Deep Research answer differ when the models emit only white space
  (`RelayFrontEnds.FrontEndsAgreeIff`, `RelayExamples.BlankAnswersDiffer`).
- A stalled relay model is handed off like a failed one, but its key is not cooled, so the router may call it
  at once (`RelayStalls.StallCoolsIff`).
- The router gives a key marked dead another chance after 30 minutes; the relay does not
  (`RelayCooldowns.ReadmissionDiffersIff`, `RelayCooldowns.CallsUseReadyKeys`).
- A cooldown can end earlier than the one before it, when the successes in between bring the failure count
  back over a step (`Cooldowns.ExpiryMovesEarlierIff`, `Cooldowns.CanMoveEarlierIff`,
  `Cooldowns.ExpiryMayMoveEarlierAfterTwoSuccesses`).
- Re-ingest reuses a stored vector whichever model produced it and tags it with the new one
  (`Provenance.StoredVectorsAreRightIff`, `Provenance.TaggedBWithVectorOfA`).
- A selected chunk whose parent row is gone is returned with score 0 (`ParentExpansion.ScoresAreRightIff`,
  `ParentExpansion.OrphanScoresZero`).
- Registering a live session id again counts twice in the gauge (`WsSessions.GaugeIsRightIff`,
  `WsSessions.RegisteringTwiceCountsTwice`).

## Model

| member | source | states |
|---|---|---|
| `Router.RequestRun.OneKey` | app/services/fallback_router.py:376-422 | one key with its skip test, cooldown test, call and bookkeeping does to the in-place dictionaries and sets exactly what `TryKey` says |
| `Router.RequestRun.OneFailure` | app/services/fallback_router.py:412-457 | the `except` branch: key health first, then cooldown, quota rule, 404 rule, and which loop goes on |
| `Router.RequestRun.QuotaFailure` | app/services/fallback_router.py:443-449 | the count rises, and the platform is dropped from the third quota failure on while another listed one is left |
| `Router.RequestRun.KeyLoop` | app/services/fallback_router.py:376-457 | the key loop with its early exits equals the recursion over keys |
| `Router.RequestRun.ModelLoop` | app/services/fallback_router.py:352-374 | the model loop with the deadline, the skip tests and the key query equals the recursion over models |
| `Router.RequestRun.RouteRequest` | app/services/fallback_router.py:344-462 | a whole request equals `Route`, for `route_chat` and `route_stream_chat`, including all failure exits and the state left for the next request |
| `RouterRequest.RequestKeeps` | app/services/fallback_router.py:486-624 | every request, whatever providers answer, keeps the invariant: calls once per key, counts equal to quota failures so far, drops for cause and final |
| `RouterRequest.EachCandidateCalledOnce` | app/services/fallback_router.py:344-462 | each (platform, model, key) is called at most once per request, whatever `max_retries` is |
| `RouterRequest.SkippedPlatformsHaveCause` | app/services/fallback_router.py:429-451 | a platform is skipped only for a dead key or at least three quota failures of its own; without a dead key the skipped ones stay a proper subset of the listed ones |
| `RouterRequest.DroppedPlatformIsNotCalled` | app/services/fallback_router.py:346-356 | after an event that drops a platform no call goes to it again |
| `RouterExhaustion.ModelIsSettled` | app/services/fallback_router.py:363-457 | the turn of one model leaves it dropped, or each key usable at the start of the request called, or found cooling in this pass |
| `RouterMarks.KeyTakesTurn` | app/services/fallback_router.py:376-457 | what one key's turn does, told by the reply it got: an answer has text (not blank when awaited whole), a failure repeats the message, its finding is what the message says if it could be saved, and exactly a dead key, a non-retryable, a quota or a 404 error leaves the model |
| `RouterWalk.ModelsAreWalked` | app/services/fallback_router.py:352-457 | one pass goes through the listed places in order, looks at the deadline once for each, and ends with the first answer; the places before it are out of play or have no usable key left untried |
| `RouterAnswers.RequestIsItsPasses` | app/services/fallback_router.py:351-462 | a request is up to `max_retries` passes: it returns what the first pass that answers found, with that pass's number; it is exhausted exactly when none answers, and turned away exactly when Deep Research has no model |
| `RouterAnswers.AnswerComesFirst` | app/services/fallback_router.py:351-410 | of an answered request, from trace, world and request alone: the last event, and no other, is an answer; it comes from the model returned, its reply was the text returned, in the pass whose number is returned; passes, places and keys never go back, no call starts a model after the 20-second deadline, a model left is not called again; and every place listed before is out of play or had every usable key called, or found cooling in this pass |
| `RouterAnswers.ExhaustedLeavesNoneBehind` | app/services/fallback_router.py:459-462 | "all models exhausted" means nothing was answered, and each pass that the deadline did not cut short found every listed model out of play or had every usable key called, or found cooling in that pass |
| `RouterRuns.ServingLasts` | app/services/fallback_router.py:363-404 | over any run of router requests and relays the cooldowns and key rows are those the history gives; every call was to a triple not cooling by the full history, every key passed over was cooling by it, and no call was to a benched key |
| `RouterRuns.NoCallWhileCooling` | app/services/fallback_router.py:380-381 | no call of router or relay starts within 90, 600 or 86400 seconds of its triple's last cooldown, whoever set it, as picked by the failure walk |
| `RouterRuns.NoCallOnBenchedKey` | app/services/provider_health.py:127-140 | no router call starts on a key marked dead at most 30 minutes ago and not updated since, and no relay call at any later time |
| `RouterRuns.CountsAreWalks` | app/services/rate_limit.py:33-55 | over any such run each stored failure count is the walk of the triple's own calls reflected at 0, and none is 0 |
| `Cooldowns.RateLimits.IsOnCooldown` | app/services/rate_limit.py:22-30 | answers from the stored expiry and forgets one that is over: what is left is cooling |
| `Cooldowns.RateLimits.SetCooldown` | app/services/rate_limit.py:33-46 | counts the failure and sets the expiry for the new count |
| `Cooldowns.RateLimits.RecordSuccess` | app/services/rate_limit.py:49-55 | takes one off the count, dropping it at 1 |
| `Cooldowns.CoolingIffLastFailureSays` | app/services/rate_limit.py:22-46 | a triple is cooling if and only if its last recorded failure says so; forgetting finished cooldowns never shows |
| `Cooldowns.CountIsReflectedWalk` | app/services/rate_limit.py:33-55 | the count is the failure/success walk reflected at 0, stored counts are at least 1 |
| `Cooldowns.ExpiryMovesEarlierIff` | app/services/rate_limit.py:33-55 | from one failure to the next the expiry moves earlier if and only if less time passed than the cooldown got shorter, by the counts known before |
| `Cooldowns.CanMoveEarlierIff` | app/services/rate_limit.py:33-55 | it can happen if and only if the successes in between bring the count from 2 or 3 to none, or from 4 or more to at most 2 |
| `Cooldowns.ExpiryNeverMovesEarlier` | app/services/rate_limit.py:33-55 | so never with at most one success in between |
| `Cooldowns.ExpiryMayMoveEarlierAfterTwoSuccesses` | app/services/rate_limit.py:33-55 | with two successes it can: 600 becomes 91 |
| `KeyHealth.KeyTable.RecordFailure` | app/services/provider_health.py:84-105 | marks the key's row and reports the finding, or neither when the message says nothing, the key is gone or the write fails |
| `KeyHealth.KeyTable.RecordSuccess` | app/services/provider_health.py:108-124 | marks the key healthy unless the write fails |
| `KeyHealth.ClassifyMeaning` | app/services/provider_health.py:58-76 | a key is condemned exactly on a fatal phrase without rate-limit wording, and busy exactly on that wording or on a quota without a fatal phrase; every quota message says something |
| `KeyHealth.PhraseMeaning` | app/services/provider_health.py:42-55 | the phrases that condemn a key, that speak of rate limiting, and that count as a quota error, as sets |
| `KeyHealth.RetryMeaning` | app/services/rate_limit.py:80-89 | the phrases after which a key is cooled, and those of an unknown model |
| `Relay.RelayRun.ChooseModel` | app/services/fallback_router.py:699-728 | the cursor loop with its skip sets, provider lookup and key query equals `Select` |
| `Relay.RelayRun.ChooseKey` | app/services/fallback_router.py:716-720 | the first key not cooling, with the cooldown tests made on the way |
| `Relay.RelayRun.Stream` | app/services/fallback_router.py:754-773 | each piece of text is kept and passed on once, in order; the last finish reason is the answer |
| `Relay.RelayRun.Call` | app/services/fallback_router.py:737-773 | announcement, prompt and stream of one call |
| `Relay.RelayRun.OneSegment` | app/services/fallback_router.py:742-810 | one call with its bookkeeping, and whether the relay goes on |
| `Relay.RelayRun.Recover` | app/services/fallback_router.py:781-795 | cooldown, platform bar and model drop after an error or a stall |
| `Relay.RelayRun.Generate` | app/services/fallback_router.py:673-816 | the generator yields `Events` and leaves the cooldowns of `Run` |
| `RelayRuns.SelectMeaning` | app/services/fallback_router.py:699-728 | the chosen model is the first one from the cursor on that is in play, and its key the first ready one that the query made for it returned; each place passed has a reason, for want of keys the query made for that very place |
| `RelayRuns.ReasonMeaning` | app/services/fallback_router.py:771-773 | the reason of a stream is that of its last finish event; without one there is none |
| `RelayRuns.ContentsMeaning` | app/services/fallback_router.py:764-770 | the content events are exactly the non-empty pieces, text by text, in order |
| `RelayRuns.EveryRelayIsGood` | app/services/fallback_router.py:684-816 | every run keeps the invariant between its variables and its log, makes at most 12 calls, and stops because it is complete, has no model, used 12 turns or ran out of time |
| `RelayRuns.CallsMoveForward` | app/services/fallback_router.py:783-810 | of two calls the later is at the same place or further on; any call that worked was followed by another only if its last finish event said "length", and only then the place or the model comes again; no failed or blank model is called again, nor a platform after a retryable authorization error |
| `RelayRuns.PromptsCarryTheWork` | app/services/fallback_router.py:635-653 | each prompt is the base messages plus, once there is text, its end (all of it up to 80000 characters) and the request to resume |
| `RelayRuns.EventsTellTheRun` | app/services/fallback_router.py:762-816 | exactly one `done`, last; content events add up to all text; the names are those with a call that worked, in order, none twice in a row |
| `RelayRuns.HandoffIff` | app/services/fallback_router.py:737-740 | a hand-off precedes a call's content if and only if there is text and the last call that worked has another name |
| `RelayRuns.ModelsAreNamedInOrder` | app/services/fallback_router.py:797-799 | the models named at the end are, in order, those of the calls that worked and whose previous such call has another name |
| `RelayReach.NoModelLeftBehind` | app/services/fallback_router.py:699-733 | a run that gives up incomplete and in time has a reason for every model: failed or blank, barred, no provider, or at a query the run made for it all live keys cooling from the start or since an earlier call of the run |
| `RelayReach.CutOffCallIsContinued` | app/services/fallback_router.py:806-810 | a last call that left text and whose last finish event said "length" ends no run with turns and time left, unless every model has a reason, its own too |
| `RelayReach.NoCallPastTheBudget` | app/services/fallback_router.py:682-684 | no call follows one that was over 240 seconds or more after the start |
| `RelayCooldowns.RunIsToldByItsCalls` | app/services/fallback_router.py:716-795 | the cooldowns after a run are those at its start with what its calls did, in order, and no call was on a key cooling by them |
| `RelayCooldowns.CallsUseReadyKeys` | app/services/fallback_router.py:709-720 | each call's key was returned, enabled and not marked dead, by the query made for its model just before, and was not cooling by the start and the calls before |
| `RelayCooldowns.LiveKeysInOrder` | app/services/fallback_router.py:709-715 | the query returns exactly the enabled keys of the platform not marked dead, in table order |
| `RelayCooldowns.ReadmissionDiffersIff` | app/services/fallback_router.py:709-715 | the router takes a key the relay leaves out if and only if it is enabled and marked dead without a time or more than 30 minutes ago |
| `RelayFrontEnds.RouteDeepResearchStream` | app/services/fallback_router.py:819-860 | the stream is the rendering of the relay's events, or "unavailable" without models |
| `RelayFrontEnds.RouteDeepResearch` | app/services/fallback_router.py:863-905 | the single answer is all text with footer or apology, and counts the models named |
| `RelayFrontEnds.FrontEndsAgreeIff` | app/services/fallback_router.py:840-905 | with hand-off notices taken out the stream is the single answer if and only if the text is empty or not blank; so always when a model is named |
| `RelayFrontEnds.StreamShowsEveryEvent` | app/services/fallback_router.py:840-851 | the stream shows the events one by one, in order: text as it is, a hand-off with the model's name, the end as footer or apology |
| `RelayFrontEnds.FooterMeaning` | app/services/fallback_router.py:656-665 | the footer names every model used, in order, with arrows in between and their number in front, or the only one alone |
| `RelayExamples.BlankAnswersDiffer` | app/services/fallback_router.py:847-851 | a run with a single space, where the two answers differ |
| `RelayExamples.RefusalKeepsPlatform` | app/services/fallback_router.py:783-790 | a run in which "401 unauthorized" does not keep the relay off the platform |
| `RelayStalls.StallCoolsIff` | app/services/fallback_router.py:758-787 | a call that stalls cools its key if and only if the model's own name contains a retryable phrase |
| `Windows.SlidingWindows` | app/services/rag_chunking.py:280-303 | the loop returns the pieces of the recursive window list |
| `Windows.ChunkText` | app/services/rag_chunking.py:183-209 | the flat chunker is the projection of the window list |
| `Windows.BestOfMeaning` | app/services/rag_chunking.py:212-219 | the cut lies just past the last late-enough occurrence of the most preferred boundary; -1 exactly when there is none |
| `WindowCuts.WindowsAreRightlyCut` | app/services/rag_chunking.py:192-219 | every window that cannot reach the end of the text ends just past the last occurrence, in its second half, of the first of the eight boundaries that has one, else at full size |
| `WindowCuts.WindowsOfMeaning` | app/services/rag_chunking.py:280-303 | the pieces of a text are exactly the windows that are not blank, in order, stripped, each with its start |
| `Windows.WindowsFormAChain` | app/services/rag_chunking.py:288-302 | windows are at most `size` long, cover the text without a gap and overlap by exactly the clamped overlap: `start + 1` never decides |
| `Windows.WindowsRejoin` | app/services/rag_chunking.py:291-302 | round trip: the first window and the new part of each later one are the text; with overlap 0 a partition |
| `Windows.NoCharacterLost` | app/services/rag_chunking.py:297-299 | every character that is not white space shows in a piece at its recorded offset |
| `Windows.WindowPiecesAreGood` | app/services/rag_chunking.py:297-299 | every piece is trimmed, not blank, no longer than a window, and found at its offset plus the white space stripped |
| `Windows.ZeroSizeWindowsAreEmpty` | app/services/rag_chunking.py:291-302 | with size 0 the loop ends and finds nothing |
| `Windows.ShortTextIsOneWindow` | app/services/rag_chunking.py:286-287 | the shortcut for short texts agrees with the loop |
| `Sections.SplitSections` | app/services/rag_chunking.py:245-277 | the line loop with stack, buffer and offsets returns the sections defined without them, by enclosing headings and blocks of lines |
| `Sections.LinesMeaning` | app/services/rag_chunking.py:261 | the lines contain no newline and give back the text with newlines in between |
| `Sections.PathMeaning` | app/services/rag_chunking.py:265-268 | a heading is on the path if and only if it precedes the line and no later heading before the line is as shallow or shallower |
| `Sections.EnclosingIncreases` | app/services/rag_chunking.py:266-268 | levels strictly increase along every path |
| `Sections.PoppingKeepsShallower` | app/services/rag_chunking.py:266-267 | popping from the top of an increasing stack keeps exactly the shallower headings |
| `Sections.HeadingLineUpdatesPath` | app/services/rag_chunking.py:265-268 | a heading line drops what is as deep and adds itself |
| `Sections.BlocksTile` | app/services/rag_chunking.py:261-276 | blocks and heading lines tile the lines in order |
| `Sections.BlocksKeepPlainLines` | app/services/rag_chunking.py:269-274 | the lines that are not headings go to the blocks in order, none lost or repeated |
| `Sections.BlockAtOffset` | app/services/rag_chunking.py:272-275 | a block of lines sits in the text at the running offset of its first line |
| `Sections.SectionStartIsExactIff` | app/services/rag_chunking.py:256-259 | the recorded start points at the body if and only if the block does not begin with white space |
| `Sections.SectionLocated` | app/services/rag_chunking.py:245-277 | every section has a trimmed non-blank body found at its start plus the white space stripped there |
| `Sections.PlainCharacterIsInSection` | app/services/rag_chunking.py:256-275 | a visible character of a line that is not a heading is in the body of a section whose path is the line's enclosing headings |
| `ChunkDocument.ChunkDocument` | app/services/rag_chunking.py:310-353 | the three nested loops with the running key return the children of the parents of the sections |
| `ChunkDocument.ChunkParent` | app/services/rag_chunking.py:335-351 | the children of one parent with its key, texts and offsets |
| `ChunkOrder.SectionsInOrder` | app/services/rag_chunking.py:253-277 | the sections are exactly the blocks that are not blank, in order, each stripped, at its first line's offset, under its headings' titles |
| `ChunkOrder.ParentsInOrder` | app/services/rag_chunking.py:306-353 | the parents are exactly all windows of all sections, in order |
| `ChunkOrder.ChildrenInOrder` | app/services/rag_chunking.py:306-353 | the children are exactly all windows of all parents, in order, with key, spans, and texts under their label |
| `ChunkOrder.LabelMeaning` | app/services/rag_chunking.py:306-353 | a label is the titles of the path in order with an arrow in between; an empty path has none |
| `ChunkDocument.DocumentChildrenAreGood` | app/services/rag_chunking.py:334-352 | each child is a contiguous piece of its parent's window, its span lies inside the parent's, and children of a key share one parent |
| `ChunkDocument.DocumentKeysRun` | app/services/rag_chunking.py:331-352 | parent keys run 0, 1, 2, ... in order, each with at least one child |
| `ChunkDocument.DocumentFlatChunking` | app/services/rag_chunking.py:323-329 | with parent size at most child size each parent has one child, equal to it |
| `ChunkOffsets.NoBodyCharacterLost` | app/services/rag_chunking.py:332-351 | each visible character of a section body is shown at its own place by a child of a window of that section |
| `ChunkOffsets.DocumentKeepsVisibleCharacters` | app/services/rag_chunking.py:326-353 | each visible character of a document outside headings is shown at its own place by a chunk labelled with the enclosing headings |
| `ChunkOffsets.ChunkLocated` | app/services/rag_chunking.py:332-346 | each chunk is found in the document at `char_start` plus three gaps of white space, those stripped before its section body, its parent window and its own window |
| `ChunkOffsets.OffsetsAreExactIff` | app/services/rag_chunking.py:336-346 | `doc[char_start:char_end] == raw_text` for every chunk if and only if no section block, parent window or child window begins with white space; which is if and only if no `char_start` is on white space |
| `ChunkOffsets.OffsetCanBeTooEarly` | app/services/rag_chunking.py:257-259 | a heading, an empty line and a text: 4 is recorded, the text is at 5 |
| `Pages.BuildPagedText` | app/services/rag_chunking.py:104-121 | the loop returns the join of the cleaned pages and the spans |
| `Pages.JoinersAreNewlines` | app/services/rag_chunking.py:104-121 | between two neighbouring spans stand exactly two newlines |
| `Pages.SpansAreLaidOut` | app/services/rag_chunking.py:112-121 | spans are ordered, two characters apart, and reach the end of the text |
| `Pages.SpansShowTheirPages` | app/services/rag_chunking.py:116-121 | cutting the text at a span gives that page's cleaned text |
| `Pages.PageHasSpanIff` | app/services/rag_chunking.py:112-119 | a page has a span if and only if its cleaned text is not empty |
| `Pages.LookupInsideSpan` | app/services/rag_chunking.py:124-128 | an offset inside a span is looked up to that page |
| `Pages.LookupOutsideSpans` | app/services/rag_chunking.py:129-131 | elsewhere the lookup gives the last page at or past the end, and the first page in every joiner |
| `Pages.JoinerIsNearestOnlyForFirstPage` | app/services/rag_chunking.py:124-131 | in a joiner the page before is returned if and only if it is the first, the page after never |
| `Pages.JoinerNamesFirstPage` | app/services/rag_chunking.py:124-131 | three pages where the offset after the second gives page 1 |
| `Ingestion.ChunkTable.EmbedAndStore` | app/services/rag_ingestion.py:47-143 | the reply, and the whole table after it; nothing changes without children or when a batch raises |
| `Ingestion.ChunkVectors` | app/services/rag_ingestion.py:70-99 | reuse, batches and gap filling give each chunk its stored or fresh vector, in order, for every batch boundary |
| `Ingestion.ChunkTable.InsertParents` | app/services/rag_ingestion.py:106-125 | the unique parents in order of first occurrence with the ids handed out |
| `Ingestion.ChunkTable.InsertChildren` | app/services/rag_ingestion.py:127-142 | the children with vectors, links and ordinals |
| `Ingestion.ChildRowsAreAlignedAndLinked` | app/services/rag_ingestion.py:106-142 | each child row has its own text, hash, span, section, vector, tag and ordinal, and links to a row that holds its parent's text, hash, span and section and no vector |
| `Ingestion.FirstStoredWins` | app/services/rag_ingestion.py:73-83 | the vector reused is that of the first searchable row of the same document with this hash and a vector; there is none to reuse exactly when no row is such |
| `Ingestion.OtherRowsStay` | app/services/rag_ingestion.py:103-104 | the rows of all other documents stay, in order |
| `Ingestion.RowIdsAreConsecutive` | app/services/rag_ingestion.py:123-142 | the rows of a document take consecutive ids, parents first |
| `Provenance.EveryVectorIsTraced` | app/services/rag_ingestion.py:70-142 | after any history of ingests each child row holds the vector of the model whose ingest last requested its text, and the tag of the document's last ingest |
| `Provenance.RowIsRightIff` | app/services/rag_ingestion.py:74-83 | a row's vector is its tag's if and only if the two models agree on the text |
| `Provenance.StoredVectorsAreRightIff` | app/services/rag_ingestion.py:74-83 | all rows are right whatever the models compute if and only if each stored text was last requested under the tag of its document's last ingest |
| `Provenance.TaggedBWithVectorOfA` | app/services/rag_ingestion.py:74-83 | model A, then model B with deduplication: a row tagged B with A's vector |
| `Ingestion.IngestKeepsAlignment` | app/services/rag_ingestion.py:70-143 | with one provider, rows aligned with their text stay so under re-ingest of any children |
| `Ingestion.ReingestIsIdempotent` | app/services/rag_ingestion.py:70-143 | ingesting the same children again requests nothing and writes the same rows up to ids |
| `Ingestion.OrdinalsNumberTheRows` | app/services/rag_ingestion.py:112-135 | ordinals number the rows 0, 1, 2, ..., parents first |
| `Ingestion.ChunkedDocumentsAreStoredInOrder` | app/services/rag_ingestion.py:106-142 | what the chunker returns meets what storing needs, for every document |
| `EmbeddingCache.EmbedCache.CacheGet` | app/providers/embeddings.py:45-49 | a hit returns the vector and becomes the newest entry |
| `EmbeddingCache.EmbedCache.CachePut` | app/providers/embeddings.py:52-56 | the entry becomes the newest, and the oldest go while there are more than the limit |
| `EmbeddingCache.EmbedCache.Embed` | app/providers/embeddings.py:111-144 | whatever the cache holds, its limit and the batches, the reply is the pointwise embedding in order, or the failure of a batch |
| `EmbeddingCache.EmbedWithRetry` | app/providers/embeddings.py:92-109 | raises if and only if every attempt raises, else the first answer |
| `EmbeddingCache.FetchAll` | app/providers/embeddings.py:129-132 | no batch boundary shows in the result |
| `EmbeddingCache.MissPlacesAreMissing` | app/providers/embeddings.py:122-130 | the places without a hit are those of the missing keys, in order |
| `EmbeddingCache.CacheStaysCoherent` | app/providers/embeddings.py:45-56 | after any history by any providers and limits every cached vector is right |
| `EmbeddingCache.CacheStaysBounded` | app/providers/embeddings.py:52-56 | with one limit the cache never holds more, and no key twice |
| `EmbeddingCache.EvictionFollowsRecency` | app/providers/embeddings.py:42-56 | the cache holds exactly the most recently used keys of the whole history, in order of use |
| `RankFusion.ReciprocalRankFusion` | app/services/rag_retrieval.py:175-187 | the dictionary loops and the sort return the best ids with their fused scores |
| `RankFusion.AllSharesAddUp` | app/services/rag_retrieval.py:182-185 | the running totals are the sums of 1/(k + rank) over the lists |
| `RankFusion.SortIsStable` | app/services/rag_retrieval.py:186 | ties keep their order of first occurrence |
| `RankFusion.TiesGoToTheFirstShown` | app/services/rag_retrieval.py:182-187 | of two returned ids with equal scores the first is shown, list by list and rank by rank, before the second |
| `RankFusion.FusionKeepsTheBest` | app/services/rag_retrieval.py:186-187 | ids are distinct, best first, as many as asked for or exist, and none left out scores higher |
| `RankFusion.FusedIdsOccur` | app/services/rag_retrieval.py:182-185 | the candidates are exactly the ids in some list |
| `RankFusion.ListOrderIsIrrelevant` | app/services/rag_retrieval.py:182-184 | permuting the lists changes no score |
| `RankFusion.ListScoreAt` | app/services/rag_retrieval.py:183-184 | position r gives 1/(k + r + 1) |
| `RankFusion.AheadEverywhereScoresMore` | app/services/rag_retrieval.py:182-184 | ahead in every list that has the other means a strictly higher score |
| `ParentExpansion.ExpandParents` | app/services/rag_retrieval.py:41-60 | the loop returns the first occurrences of the targets |
| `ParentExpansion.RankResults` | app/services/rag_retrieval.py:244-271 | reranked selection, best scores and expansion, with stray reranker indices dropped |
| `ParentExpansion.SelectedMeaning` | app/services/rag_retrieval.py:244-245 | the selection is exactly the chunks at the in-range places of the reranker's order, in that order |
| `ParentExpansion.BlocksFollowTheReranker` | app/services/rag_retrieval.py:244-271 | block i stands before block j if and only if the reranker ranks some chunk of block i before every chunk of block j |
| `ParentExpansion.ExpansionKeepsFirstOccurrences` | app/services/rag_retrieval.py:52-60 | one block per id, in order of first occurrence |
| `ParentExpansion.BlocksAreDistinct` | app/services/rag_retrieval.py:53-60 | no two returned blocks have the same id |
| `ParentExpansion.ScoreIsBestOfChildren` | app/services/rag_retrieval.py:246-250 | with parents present each block's score is the maximum over its selected children |
| `ParentExpansion.OrphanScoresZero` | app/services/rag_retrieval.py:247-270 | a selected chunk without its parent row gets score 0 |
| `ParentExpansion.ScoresAreRightIff` | app/services/rag_retrieval.py:246-270 | all blocks carry the best score of their chunks if and only if no parent row is missing |
| `ParentExpansion.FusionFeedsExpansion` | app/services/rag_retrieval.py:233-251 | what fusion and any reranker order select meets what the scoring relies on |
| `RetrievalCache.RagCache.Get` | app/services/rag_cache.py:33-55 | the answer of `Lookup`, and the shelf with the hit renewed or the expired entries gone |
| `RetrievalCache.RagCache.Put` | app/services/rag_cache.py:58-64 | the entry stored as newest and the oldest evicted |
| `RetrievalCache.RagCache.Invalidate` | app/services/rag_cache.py:67-69 | the scope is emptied, others stay |
| `RetrievalCache.EntriesComeFromPuts` | app/services/rag_cache.py:33-69 | over any history each entry was put after the last invalidation, as the latest for its query |
| `RetrievalCache.LookupMeaning` | app/services/rag_cache.py:40-55 | silent exactly when no unexpired entry has the text or is similar enough; else the entry with the text if there is one, else the most similar, the most recently used among equals |
| `RetrievalCache.ReturnedPayloadWasPut` | app/services/rag_cache.py:33-69 | a payload returned was put in that scope after its last invalidation and at most ttl ago, and answers the query |
| `RetrievalCache.PutIsBounded` | app/services/rag_cache.py:58-64 | each put leaves at most max(1, cap) entries, the new one among them, and other scopes alone |
| `CacheRetention.PutDropsOnlyTheOldest` | app/services/rag_cache.py:58-64 | a put leaves the newest part of the other entries in their order, then its own; all of them unless the scope is full |
| `CacheRetention.GetDropsOnlyExpired` | app/services/rag_cache.py:38-54 | a get drops only what has expired |
| `CacheRetention.EveryEntryIsRetained` | app/services/rag_cache.py:33-69 | over any history with one limit, an entry last put for its query, not invalidated and unexpired at every get since, is on the shelf while fewer than max(1, cap) other queries of the scope were used after it |
| `CacheRetention.RecentEntryIsReturned` | app/services/rag_cache.py:33-64 | so a get of its text returns its payload |
| `SlidingWindow.RateLimiter.CheckAndRecord` | app/services/tool_executor.py:85-133 | the answer and the tool's new queue; no other queue changes |
| `SlidingWindow.GatewayLimiter.CheckRateLimit` | app/routes/agent.py:56-67 | the same step with a limit of 60, and the header it sends |
| `SlidingWindow.HeaderMeaning` | app/routes/agent.py:61-66 | the header is the whole seconds of the wait, and at least 1 |
| `SlidingWindow.PruningIsInvisible` | app/services/tool_executor.py:111-118 | with a forward clock forgetting old admissions changes no answer of any run |
| `SlidingWindow.TurnedAwayIffWindowFull` | app/services/tool_executor.py:111-133 | refused if and only if the limit was used up in the 60 seconds before |
| `SlidingWindow.AtMostLimitInAnyWindow` | app/services/tool_executor.py:111-118 | any closed 60-second interval of any run has at most limit admissions |
| `SlidingWindow.AdmittedAgainIff` | app/services/tool_executor.py:124-133 | a later call gets in if and only if the limit-th newest entry has expired, strictly |
| `SlidingWindow.RetryAfterIsTheLastRefusal` | app/services/tool_executor.py:125-133 | at the time `retry_after` names the call is still refused, after it admitted |
| `SlidingWindow.RetryHeaderSufficesIff` | app/routes/agent.py:61-66 | waiting as long as the header says is enough if and only if less than a second was left |
| `SlidingWindow.HeaderComesTooEarly` | app/routes/agent.py:61-66 | a full window with 1.5 seconds to go: the header says 1 and the next call is refused |
| `SlidingWindow.EmptyQueueErrorIff` | app/services/tool_executor.py:116-127 | over any run the empty deque is read if and only if the limit is 0 or less and nothing was admitted in the last 60 seconds |
| `SlidingWindow.FirstCallAtLimitZeroRaises` | app/services/tool_executor.py:126 | the first call at limit 0 raises |
| `SlidingWindow.ToolsAreIndependent` | app/services/tool_executor.py:105-109 | one tool's traffic never shows in another's queue |
| `Conversations.ConversationStore.Delete` | app/routes/conversations.py:86-127 | the worklist loop ends; the ids are exactly the conversation and its descendants, each once; the new store |
| `Conversations.ConversationStore.Detach` | app/routes/conversations.py:130-139 | clears the parent link of an owned conversation, else 404 |
| `Conversations.ConversationStore.Branch` | app/routes/conversations.py:174-217 | copies the prefix to a new child or an owned target, with the three replies told apart |
| `Conversations.CreateOpensEmpty` | app/services/agent.py:715-720 | creating opens an empty top-level chat and changes nothing else |
| `Conversations.CopiedMeaning` | app/routes/conversations.py:182-190 | the copied messages are those at places 0 to max(0, up_to), as far as there are any |
| `Conversations.BranchOpensCopy` | app/routes/conversations.py:194-217 | a new branch belongs to the account, hangs under its source, is titled after it in at most 120 characters and holds the copy; nothing else changes |
| `Conversations.BranchAppendsCopy` | app/routes/conversations.py:194-217 | branching to an owned chat appends the copy to it and changes nothing else |
| `Conversations.DetachClearsParent` | app/routes/conversations.py:130-139 | detaching clears one parent link and changes nothing else |
| `Conversations.RunKeepsForest` | app/routes/conversations.py:86-217 | over any run parents are older than their branches, exist and have the same owner |
| `Conversations.DescendantsShareOwner` | app/routes/conversations.py:89-101 | a cascade only reaches conversations of the account that asked |
| `Conversations.DeleteLeavesNoDanglingParent` | app/routes/conversations.py:124-126 | exactly the descendants go, nothing else changes, and no survivor points to a deleted one |
| `Conversations.DetachRemovesSubtree` | app/routes/conversations.py:133-137 | detaching takes exactly the branch's own subtree out of those above |
| `Conversations.DetachedBranchSurvivesDelete` | app/routes/conversations.py:90-93 | a branch detached first survives the delete with all below it, the rest goes |
| `WsSessions.WebSocketManager.RegisterSession` | app/services/ws_manager.py:49-57 | refused at 100, else the maps and the gauge after it |
| `WsSessions.WebSocketManager.UnregisterSession` | app/services/ws_manager.py:59-66 | all three maps lose the id; the gauge falls only if it was there |
| `WsSessions.WebSocketManager.TouchSession` | app/services/ws_manager.py:68-72 | activity renewed and ping forgotten, for a live id only |
| `WsSessions.WebSocketManager.StartTick` | app/services/ws_manager.py:101-103 | a tick starts with a snapshot of the sessions and changes no map |
| `WsSessions.WebSocketManager.VisitNext` | app/services/ws_manager.py:103-116 | the keepalive's treatment of one session, and when it pings |
| `WsSessions.EveryRunIsGood` | app/services/ws_manager.py:49-118 | at every await of every interleaving: at most 100 sessions, equal keys of sessions and activity, pings among them, gauge off by the re-registrations |
| `WsSessions.TimeoutCloseIsDeserved` | app/services/ws_manager.py:104-112 | a timeout close hits only a session pinged a whole tick before and neither touched, registered nor removed since |
| `WsSessions.GaugeIsRightIff` | app/services/ws_manager.py:49-66 | the gauge equals the session count if and only if no live id was registered again |
| `WsSessions.RegisteringTwiceCountsTwice` | app/services/ws_manager.py:53-56 | one session registered twice makes the gauge two |
| `WsSessions.PendingPingIsAlwaysClosed` | app/services/ws_manager.py:104-112 | the keepalive closes every session it finds with a pending ping |
| `WsIdle.SessionsAreToldByEvents` | app/services/ws_manager.py:49-118 | a session is live just when the events say so, and its activity is the time of its last registration or touch |
| `WsIdle.KeepaliveActsAfterSilence` | app/services/ws_manager.py:101-118 | the keepalive pings the session it visits exactly if nothing was heard from it for more than 30 minutes and no ping is pending, closes it exactly if one is, and then nothing was heard for more than 30 minutes and 10 seconds |

## Left out

- HTTP, SSE, WebSocket and database transport: tables are sequences or maps, providers are arbitrary replies.
- Ordering and filtering of models (`_get_ordered_models`), tier heuristics, prompts: any model list is allowed.
- Penalties (`record_rate_limit_hit`, `get_penalty`), which only feed the ordering.
- Lower-casing of error messages: messages are given in lower case. Owner scoping of keys: the table is the account's view.
- One clock serves the router's monotonic deadline and the wall-clock cooldowns; sub-second steps are reals.
- The rest of a primed stream after its first chunk, which no longer touches the router's state.
- A consumer that abandons the relay's generator early, and the closing of provider streams.
- Relay.RelayRun.Generate: events are collected in a sequence; what happens between two yields is not interleaved with the consumer.
- RouterRuns.ServingLasts: requests and relays are served one after another; concurrent ones on the same tables are not modelled, and the key table changes only by what the router records.
- `wait_for_slot`, the retry policy and tool execution around the limiter.
- PDF and DOCX extraction, `clean_text`, heading regular expressions: the cleaner and the line classifier are arbitrary functions.
- Windows.SlidingWindows: sizes are natural numbers; a negative chunk size is not modelled.
- SHA-256 is an injective constructor, string keys built by concatenation are tuples, floats are reals, and the rounding of scores to six digits is not modelled.
- Ingestion.ChunkTable.EmbedAndStore: token counts, page numbers, owner and job progress columns are not modelled, as nothing depends on them; providers return one vector per text, so the count-mismatch error cannot arise.
- EmbeddingCache.EmbedCache.Embed: providers are deterministic and return one vector per text, so the count-mismatch error cannot arise; the remembered dimension is not modelled.
- The database's own searches (semantic, keyword, conversation documents), the query rewriter and reranker internals: ranked lists and orders are arbitrary.
- The race between a `retrieve` in flight and `invalidate`: cache claims are about the order of cache operations.
- Removal of memory rows and graph edges by the delete route; the truncate, project and title routes.
- Conversations.ConversationStore.Branch: message timestamps and the model and platform columns are not modelled; messages are in order of creation.
- WsSessions.WebSocketManager.VisitNext: each visit of the keepalive is an event of its own, which allows more interleavings than the event loop does.
- Planner checks, citations, the graph memory, configuration, document generators, passwords and tokens: they would only add easier members.
