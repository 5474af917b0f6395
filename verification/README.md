# A verified model of responses-gateway

The gateway puts an OpenAI-Responses front end before other model providers. It resolves
`previous_response_id` itself by walking parent pointers in its session table, repairs and
accumulates event streams, strips or rejects unsupported features, and layers environment
variables over its configuration file. This Dafny 4.11 project models those four parts and
proves what each promises. `dafny verify dfyconfig.toml` checks everything.

## How it is laid out

| file | what it holds |
|---|---|
| `JsonValues.dfy` | decoded JSON, Python truth and `dict.get`, small sequence helpers |
| `Streaming.dfy` | events, items and the `StreamBridge` object; the pure functions its methods are proved against |
| `StreamRepair.dfy` | the announcement-precedence rule and what the inserted announcements achieve |
| `StreamFold.dfy`, `StreamText.dfy` | what the accumulator holds after any stream: order, arguments, text, fields and usage |
| `StreamItems.dfy` | what each accumulated item is, field by field |
| `StreamConservation.dfy` | when no text of a stream is lost |
| `StreamSpelling.dfy` | a source with its left-out announcements spelled out, which is all the accumulator sees of the bridge |
| `StreamRefinement.dfy` | a streamed response equals the non-streamed one |
| `Store.dfy`, `Resolver.dfy`, `Recorder.dfy` | the table, cold storage, the parent walk, the rebuilt history, the recorded row |
| `Protocol.dfy` | the session protocol as a transition system |
| `Invariants.dfy`, `Lineages.dfy`, `Preservation.dfy` | its invariants and their preservation by every step |
| `SessionTheorems.dfy`, `Conversation.dfy` | the results over all runs |
| `Rebuilding.dfy` | what a stored turn gives to later requests, item by item |
| `Readability.dfy` | in every run, only the requested turn itself can be unreadable |
| `FollowUp.dfy` | the recorder's call as steps of the protocol; a turn stored and followed up on, step by step |
| `StreamedRecord.dfy` | what the record of a streamed turn says, and what of it reaches the next turn |
| `Api.dfy` | plain and streamed turns end to end, and the link between the two halves |
| `Validator.dfy`, `ValidatorTheorems.dfy`, `ValidatorFields.dfy` | strip and reject modes: what they find and leave, entry by entry, and how they agree |
| `Config.dfy`, `ConfigTheorems.dfy`, `EnvironmentNames.dfy` | variables, override tree and merge; what the order of the environment means; which names and values are read as what |

Objects that the source updates in place are classes (`StreamBridge`, `SessionStore`,
`InMemoryColdStorage`, `SessionResolver`, `SessionRecorder`, `Gateway`, `RequestValidator`); each
method is proved equal to a pure function of the old state, and the theorems are about those
functions. Concurrency is a transition system: every request in flight is a phase, every database
or cold-storage transaction is one step, and inserts by other requests, cleanups for any time,
failures at any point and clock ticks come between any two steps. `Run` applies any list of
actions to any initial state, so a theorem with `Run(s, run)` speaks of every reachable state.
`turns` (every turn ever stored, deleted or not), `drawn`, and the `start` of a walk (table, cold
storage, clock and turns at its first transaction) are history variables that no step's outcome
depends on.

Sequences that the source appends to are defined from their last element (`Init`, `Last`), so
that proofs follow the appends. Every lemma carries `{:induction false}`: all inductions are
written out.

Where a method and its function share a helper (how an input is normalised, which kinds count as
text, when a rejected value matches), a theorem says what the whole operation does in constructors
and keys of the source, without the helper: `InlineTurnGives`, `PointerIsAnswered`,
`MessageEventsAreAnnounced`, `InsertedForEvent`, `ItemIsBuilt`, `RecordSays`, `StripFinds`,
`RejectFinds`, `NamesPathIff`.

## What the proofs found

Each of these is a promise or an expectation that the code does not keep on all inputs. Lemmas give
inputs on which it fails and, as an equivalence, exactly when it holds.

- **Offloaded turns are not read back transparently.** The recorder stores
  `{"input": request, "output": response}` and the resolver returns one level too little, so an
  offloaded turn comes back as its whole request body, with no output, and with the old
  instructions inside it. `OffloadingIsVisible` and `OldRequestLeaksIff` give the exact conditions,
  `OffloadingReachesTheModel` follows a turn through the protocol into the next model call, and
  `RepairedPayloadIsTransparent` shows that unwrapping one level more is enough. The documentation
  (sections 4.1 and 4.2 of the architecture design) and the comment in the resolver promise
  otherwise; the model follows the code.
- **A streamed record is not the plain record.** The module comment of the bridge promises that it
  is. Its output is (`StreamRefinesResponse`, `BridgeRefinesResponse`); every other field freezes at
  `response.created`, except `usage`. `StreamedRecordIsPlainIff` says of any stream exactly when the
  whole record is the same, and `CompletedStaysInProgress` is an ordinary stream recorded as still in
  progress.
- **The empty item id is special.** A provider's own announcement of `""` is forgotten, so repair
  is idempotent exactly when no message event carries that id (`RepairIsIdempotent`).
- **Text deltas land on the latest message,** whatever item they name and even if it is done
  (`TextIsBaseAndLandedDeltas`, `LateDeltaGrowsDoneItem`). `TextIsOwnIff` says when an item has
  exactly its own deltas.
- **Text can be lost:** a delta before the first message (`EarlyDeltaIsLost`), text that a done event
  leaves out (`DoneEventLosesText`), and text of an item announced again
  (`RepeatedAnnouncementLosesText`). `TextNeverLostIff`, and `BridgeNeverLosesIff` over a provider's own events,
  say exactly when all text is there at all times.
- **A null rejected value never stops matching,** because a missing field reads as null
  (`StripSettlesIffNoNull` over all requests, `StripSettlesIff` for each one, `NullIsReportedForEver`
  on the empty one).
- **Strip and reject mode can disagree:** a tool type that is a list makes strip mode fail where
  reject mode has already rejected an earlier tool (`ModesPartOnBadToolTypes`), and strip mode alone
  applies the allow list (`ModesPartOnAllowList`). `ModesAgreeIff` says exactly when they agree.
- **A cleanup can mend a request** when cold storage has been switched off since the turns were stored
  (`CleanupMends`; `ResolvesIff` gives the exact conditions on any table). Under one configuration it
  never does: in every run of the protocol a request resolves after a cleanup exactly when it resolved
  before, and every failure but expiry stays the same failure (`CleanupNeverMends`), because a turn's
  ancestors were all read to answer it (`OnlyTheParentCanFail`).
- **Resolving is not one transaction:** a parent that passes its checks can be cleaned up before the
  walk, and the follow-up then has a parent and no history (`CleanupOvertakesWalk`).
  `InterleavedResolveIsAtomic` holds as long as no row of the chain is deleted meanwhile.
- **The order of the environment can matter** to the configuration (`EnvironmentOrderMattersIff`,
  `PrefixesClash`).

## Model

| member | source | states |
|---|---|---|
| `Streaming.StreamBridge.Tee` | gateway/streaming.py:55-74 | over any source, what is forwarded is the rewritten source with the missing announcements inserted, and the buffers hold the fold of exactly what was forwarded |
| `Streaming.StreamBridge.SynthesizeMissingAnnouncements` | gateway/streaming.py:76-131 | the announcements inserted before an event, and the new sets of announced items and parts, as functions of the old sets |
| `Streaming.StreamBridge.MaybeRewriteId` | gateway/streaming.py:133-139 | only lifecycle events with a response change, and only in their id |
| `Streaming.StreamBridge.ConsumeEvent` | gateway/streaming.py:141-182 | the new items, order and response fields as a function of the old ones, for each kind of event |
| `Streaming.StreamBridge.LatestItemOfType` | gateway/streaming.py:184-189 | the backward scan finds the last announced id whose item has the type now, or nothing |
| `Streaming.StreamBridge.FinalState` | gateway/streaming.py:191-194 | never meets a missing key; the output is the items in announcement order |
| `Streaming.OrderIsCovered` | gateway/streaming.py:149-155 | after any trace each id in the order list has an item |
| `StreamRepair.ForwardedIsWellAnnounced` | gateway/streaming.py:61-66 | for every source, each forwarded message event comes after an announcement of its item, and each text event after one of its part; the announced sets match what the client was told |
| `StreamRepair.MessageEventsAreAnnounced` | gateway/streaming.py:28-43 | the same kind by kind: each of the six kinds of message event comes after an announcement of its item, text deltas and text dones after one of their part of it |
| `StreamRepair.InsertedForEvent` | gateway/streaming.py:96-131 | each source event is forwarded right after at most an empty, in-progress assistant message for its item, if it is one of the six kinds, and an empty output_text part, if it is one of the two text kinds; with its ids and indices, and nothing else |
| `StreamRepair.ErasingSyntheticsGivesSource` | gateway/streaming.py:68-74 | removing the inserted events gives back the source, complete and in order |
| `StreamRepair.InsertionsAreJustified` | gateway/streaming.py:96-131 | each inserted event is needed by the very next event and repeats nothing announced before (for "", nothing inserted before) |
| `StreamRepair.OneInsertionEach` | gateway/streaming.py:98-130 | no item and no part is announced twice by the bridge |
| `StreamRepair.InsertionIsNeededIff` | gateway/streaming.py:98-131 | taking one inserted event away breaks the precedence rule exactly when nothing before it makes the same announcement |
| `StreamRepair.RemovingAnInsertionBreaksTheRule` | gateway/streaming.py:98-131 | for a non-empty id it always does |
| `StreamRepair.InsertionIsSuperfluousIff` | gateway/streaming.py:78-131 | on the source: an insertion is superfluous exactly when the provider made the same announcement before the event it is for |
| `StreamRepair.RemovingAnInsertionForTheEmptyIdMayNot` | gateway/streaming.py:78-82 | a source with the id "" for which it does not |
| `StreamRepair.UntouchedIffObedient` | gateway/streaming.py:61-66 | a stream passes unchanged exactly when it obeys the precedence rule and no message event carries the id "" |
| `StreamRepair.RepairIsIdempotent` | gateway/streaming.py:68-131 | a second bridge inserts nothing exactly when no message event of the source carries the id "" |
| `StreamRepair.LifecycleShowsGatewayId` | gateway/streaming.py:133-139 | every lifecycle event with a response that the client sees carries the gateway's id |
| `StreamRepair.RewriteChangesOnlyTheId` | gateway/streaming.py:18-26 | with a gateway id, the response of each of the five lifecycle kinds carries it and is otherwise as it was; nothing else changes, and nothing at all without one |
| `StreamFold.OutputFollowsAnnouncements` | gateway/streaming.py:149-155 | the order list is the forwarded announcements with non-empty ids, repeats included, and each item is stored under its own id |
| `StreamFold.ArgumentsAreBaseAndLaterDeltas` | gateway/streaming.py:164-176 | an item's arguments are those of the last event that set it, then exactly its own later deltas, under any interleaving |
| `StreamFold.UnsetItemsAreAbsent` | gateway/streaming.py:164-170 | before anything sets an item its argument deltas leave no trace |
| `StreamFold.RecordedFields` | gateway/streaming.py:143-148 | after any trace: beside output and usage, exactly the merged fields of the created events, whatever else came; usage is the one reported last |
| `StreamFold.FieldIsLastCreated` | gateway/streaming.py:143-148 | in any trace, a field other than output and usage has the value of the last created event that names it, and is missing when none does |
| `StreamFold.UsageIsLastReported` | gateway/streaming.py:143-147 | in any trace, usage is what the last created event naming it or completed event with a true one says, and empty when there is none |
| `StreamFold.CompletedStaysInProgress` | gateway/streaming.py:9-10 | a stream created in progress and completed as completed is recorded as in progress |
| `StreamFold.ForwardKeepsFields` | gateway/streaming.py:68-74 | inserted announcements change no response field, for any source |
| `StreamText.DeltaLandsOnLatest` | gateway/streaming.py:156-163 | a text delta extends the latest announced message and touches nothing else |
| `StreamItems.DeltaExtendsLastPart` | gateway/streaming.py:156-163 | a text delta extends the last part's text when that is an output_text, else adds one part with it; every other part, field and item stays |
| `StreamItems.ItemIsBuilt` | gateway/streaming.py:149-176 | after any stream an item is what the last event that set it said, all text that landed on it since in one part, its own later argument deltas behind its arguments, and nothing else changed |
| `StreamItems.DeltasMakeOnePart` | gateway/streaming.py:156-163 | a message announced empty and never set again holds all text that landed on it in one output_text part |
| `StreamText.TextIsBaseAndLandedDeltas` | gateway/streaming.py:156-176 | an item's text is that of the last event that set it, then exactly the deltas that came while it was the latest message, whatever item those name and whether or not it was done |
| `StreamText.TextIsOwnIff` | gateway/streaming.py:156-163 | as long as nothing sets it again, an item has at all times its set text and then exactly its own deltas, if and only if each delta comes while it is the latest message when it names it, and only then |
| `StreamText.LatestMessageIs` | gateway/streaming.py:184-189 | in terms of the events: the latest message is the last announced id whose item was last set as a message |
| `StreamText.LateDeltaGrowsDoneItem` | gateway/streaming.py:171-176 | a delta after the done event makes the recorded item differ from the one the done event carried |
| `StreamConservation.TextNeverLostIff` | gateway/streaming.py:149-176 | for announcements without text: at all times the output shows all text so far, in arrival order, if and only if each done event confirms the text its item shows, each repeated announcement finds no text to reset, and each delta finds a message that was announced once |
| `StreamConservation.TextSplits` | gateway/streaming.py:156-163 | where announcements carry no text, done events confirm, repeated announcements find no text and deltas land on no message announced twice: all deltas joined are the dropped ones followed by the output's text |
| `StreamConservation.TextConservedIff` | gateway/streaming.py:156-163 | then text is conserved in the end exactly when each delta with text finds a message |
| `StreamConservation.MessageToLandOn` | gateway/streaming.py:184-189 | a delta finds a message exactly when some announced id was last set as one |
| `StreamConservation.BridgeNeverLosesIff` | gateway/streaming.py:68-176 | over a provider's own events, whose announcements carry no text: through the bridge the output shows all text so far at all times, if and only if, once left-out announcements are made, each done event confirms, each repeated or late announcement finds no text, and each delta lands on a message announced once |
| `StreamConservation.BridgeConservesText` | gateway/streaming.py:68-176 | no text is lost when the source announces each item once, in time and without text, done events confirm, and each delta names an item that is set as a message or not at all |
| `StreamConservation.DoneEventLosesText` | gateway/streaming.py:171-176 | a source whose deltas name a message, and whose text is lost because the done event carries none |
| `StreamConservation.RepeatedAnnouncementLosesText` | gateway/streaming.py:149-155 | a source whose text is lost because its message is announced again |
| `StreamConservation.EarlyDeltaIsLost` | gateway/streaming.py:156-163 | a delta that names no item and comes before any message leaves no text |
| `StreamRefinement.StreamRefinesResponse` | gateway/streaming.py:9-10 | if the events serialise a response, the accumulated output is that response's output |
| `StreamRefinement.OrdinaryStreamSerialises` | gateway/streaming.py:141-182 | an announced, streamed and finished message is such a serialisation |
| `StreamRefinement.BridgeRefinesResponse` | gateway/streaming.py:61-74 | the same over the bridge, ids rewritten: for any provider's events that serialise a response once left-out item announcements are spelled out; content parts may be missing anywhere |
| `StreamRefinement.AnnouncedSourceRefinesResponse` | gateway/streaming.py:61-74 | for events that announce each message item before naming it, a condition on the events themselves |
| `StreamRefinement.UnannouncedStreamSerialises` | gateway/streaming.py:61-66 | a provider that streams a message with neither item nor part announced meets the condition |
| `StreamSpelling.ForwardAccumulatesSpelled` | gateway/streaming.py:96-155 | folding what the bridge forwards is folding the source with a message announcement before the first event that names an unmentioned item; inserted parts leave no trace |
| `StreamSpelling.RewrittenSpelled` | gateway/streaming.py:133-139 | rewriting the response id changes neither the items nor their order |
| `Store.Purge` | gateway/session/store.py:80-91 | exactly the rows that have no expiry before the given time stay, unchanged |
| `Store.SessionStore.Insert` | gateway/session/store.py:60-63 | adds the row unless its id is taken, and then changes nothing |
| `Store.SessionStore.DeleteExpired` | gateway/session/store.py:80-91 | the table becomes its purge and the count is how many rows went |
| `Store.InMemoryColdStorage.Put` | gateway/storage/cold.py:31-34 | the payload is found under the key, all else as before |
| `Resolver.SessionResolver.WalkParentChain` | gateway/session/resolver.py:80-93 | returns the parent chain within one lookup more than there are rows, on any table |
| `Resolver.WalkOnAnyTable` | gateway/session/resolver.py:80-93 | on any table, cyclic ones included: distinct rows, each the parent of the next, ending at the requested id when present |
| `Resolver.WalkStopsOnlyAtAnEnd` | gateway/session/resolver.py:85-91 | it stops only where there is no parent, an unknown one, or one met already |
| `Resolver.CleanupCutsTrail` | gateway/session/resolver.py:85-91 | on any table, cleanup cuts the walk at its first expired row and changes nothing before it |
| `Resolver.SessionResolver.ReconstructMessages` | gateway/session/resolver.py:95-113 | the messages of the rows in order; the first row that fails decides the error |
| `Resolver.SessionResolver.ExtractNonSystemInput` | gateway/session/resolver.py:139-152 | the normalised items without system messages, in order |
| `Resolver.ReconstructSplits` | gateway/session/resolver.py:104-113 | a chain's history is the joined histories of any split of it, errors included |
| `Resolver.SessionResolver.ResolveRequest` | gateway/session/resolver.py:51-78 | the resolved request, session and parent, or which of the five errors |
| `Resolver.UntouchedIffNoPointer` | gateway/session/resolver.py:52-54 | exactly a request whose pointer is missing or false to Python is handed over as it came, with neither session nor parent |
| `Resolver.PointerIsAnswered` | gateway/session/resolver.py:56-78 | any other: no such row, not found; expired by now, expired; another provider's, mismatch; an unreadable history, its failure; else the request without the pointer, its input (a text as one user message, a list as it is, an object as one item) after the history, and all else as it was |
| `FollowUp.FirstTransaction` | gateway/session/resolver.py:52-68 | the same for the first transaction of a request in flight |
| `FollowUp.ExpiredMeanwhile` | gateway/session/resolver.py:59-64 | a parent that expires before that transaction answers expired |
| `Resolver.CleanupChangesAnswers` | gateway/session/resolver.py:56-78 | on any table, after a cleanup, at any later time: expired may become not found; a resolved request still resolves, with less history at the root side; a payload failure stays one, or the request resolves with the rows that are left; no other answer changes its kind |
| `Resolver.ResolvesIff` | gateway/session/resolver.py:70-78 | on any table, once the parent passes: the request resolves exactly when every row of the walk can be read, and after a cleanup exactly when every row before the first expired one can |
| `Resolver.CleanupMends` | gateway/session/resolver.py:116-122 | with cold storage no longer configured: a request fails on its expired, offloaded root and resolves once that is deleted; no run of the protocol, whose configuration is fixed, reaches this |
| `Readability.OnlyTheParentCanFail` | gateway/session/resolver.py:104-113 | in every run, every row that is walked before the requested turn itself can be rebuilt |
| `Readability.CleanupNeverMends` | gateway/session/resolver.py:56-78 | in every run, a cleanup changes of any later answer only that expired may become not found, and how far back the history goes: a request resolves after it exactly when it did before, with the same session and parent, and other failures stay |
| `Recorder.SessionRecorder.Record` | gateway/session/recorder.py:44-97 | the one row added, with its session, parent, times and usage, its payloads kept inline or in cold storage as a whole, offloaded exactly when large, configured and the put succeeds; every other cold object stays |
| `FollowUp.RecordIsThreeSteps` | gateway/session/recorder.py:65-97 | the protocol's answer, save and insert leave table and cold storage exactly as that one call does |
| `Preservation.RunKeeps` | gateway/api.py:150-173 | the invariants of the session protocol hold after every run |
| `SessionTheorems.TurnsFormForest` | gateway/session/recorder.py:69-81 | in every run, a stored turn's parent was stored strictly before it with the same provider and session, and ids are not reused |
| `SessionTheorems.VisitedGuardNeverFires` | gateway/session/resolver.py:83-86 | in every run, no walk under way is ever stopped by the revisiting guard |
| `SessionTheorems.WalkIsCompleteBeforeCleanup` | gateway/session/resolver.py:80-93 | until a cleanup, a walk returns all ancestors from the root to the requested turn |
| `SessionTheorems.CleanupNeverLeavesHole` | gateway/session/store.py:80-91 | in every run, the walk after a cleanup is the walk before it without expired rows, a contiguous part at the newest end |
| `SessionTheorems.NoHoles` | gateway/session/recorder.py:65-67 | in every run, once an ancestor is gone all older ones are |
| `SessionTheorems.InterleavedWalkIsStable` | gateway/session/resolver.py:85-91 | with inserts and cleanups between its lookups, a finished walk is a newest part of the chain at its first transaction, and all of it unless a row of it was deleted |
| `SessionTheorems.InterleavedResolveIsAtomic` | gateway/session/resolver.py:56-78 | with no such deletion the request is resolved as in one step on the table, cold storage and clock of its first transaction: the same request, session and parent, or the same failure |
| `FollowUp.CleanupOvertakesWalk` | gateway/session/resolver.py:56-93 | the case left out there: a parent that passes its checks, expires and is cleaned up before the walk looks for it gives a follow-up with session and parent and no history |
| `SessionTheorems.UnstoredIsNeverFound` | gateway/session/recorder.py:62-63 | in every run, the id of a turn with storing off is answered as not found |
| `SessionTheorems.FailedIsNeverStored` | gateway/api.py:160-173 | in every run, a request that fails before its turn is inserted leaves no row, then or ever after |
| `SessionTheorems.FlightsAskWhatTheyBeganWith` | gateway/api.py:150-172 | in every run, what is resolved and recorded for a request is the body, provider, model and store flag that it began with |
| `SessionTheorems.SessionsAreTrees` | gateway/session/recorder.py:65-71 | in every run, two turns share a session id exactly when they descend from the same root, deleted or not |
| `SessionTheorems.ChainsShareProviderAndSession` | gateway/session/resolver.py:65-78 | in every run, all rows of a walk have the requested row's provider and session |
| `SessionTheorems.NoDanglingOffload` | gateway/session/recorder.py:83-97 | in every run, crashes and failed puts included, a stored row has both payloads inline and no key, or neither and a key holding exactly both |
| `Conversations.ConversationEquation` | gateway/session/resolver.py:70-78 | in every run, the input handed to the model is the contributions of a contiguous newest part of the turn its previous_response_id names and that turn's ancestors, each once and in order, then its own input (a text as one user message, a list as it is, an object as one item); all of them unless the next one was deleted; only a request without the pointer passes as it came |
| `Conversations.ConversationGrowsByOneTurn` | gateway/session/resolver.py:104-113 | a follow-up's history is its parent's history and then exactly the parent's own contribution |
| `Rebuilding.InlineTurnGives` | gateway/session/resolver.py:104-152 | a turn kept inline gives, of its input, in order and unchanged, exactly the items whose role is not system, then, of its output, in order, exactly its messages, as the assistant's with their content, and its function calls |
| `Rebuilding.OddOutputGives` | gateway/session/resolver.py:108-112 | an output that is a text or a mapping gives nothing, a null, boolean or number cannot be read |
| `Rebuilding.ColdRowNeedsItsObject` | gateway/session/resolver.py:115-124 | a row with a cold key is unavailable exactly when cold storage or the object is missing, and unreadable when that is no mapping |
| `Conversations.ItemsMessagesSplits` | gateway/session/resolver.py:108-112 | an output's items contribute one by one and in order, for any split of it |
| `Conversations.WithoutSystemSplits` | gateway/session/resolver.py:146-152 | system items are filtered wherever they stand and everything else keeps its place |
| `Conversations.NoOldInstructions` | gateway/session/resolver.py:98-101 | from turns kept inline, no rebuilt message is an old system item; only a recorded function call could carry that role |
| `Conversations.OldRequestLeaksIff` | gateway/session/resolver.py:98-127 | of a kept turn whose request body has neither a role nor a type, the whole old body, instructions included, is handed on as a message exactly when the turn was offloaded |
| `Conversations.OffloadingIsVisible` | gateway/session/resolver.py:115-127 | the messages the resolver reads from a kept row are the turn's own contribution exactly when it was not offloaded, or its output equals its whole request |
| `Conversations.OffloadingIsVisibleForRequests` | gateway/session/recorder.py:86-89 | without that exception for request bodies that have neither a role nor a type |
| `FollowUp.OffloadingReachesTheModel` | gateway/session/resolver.py:104-127 | in the run that stores any turn without a pointer, whose body has neither a role nor a type, and follows up on it, the model is handed the turn's own contribution when it was kept inline, and its whole request as one message when it was offloaded |
| `Conversations.RepairedPayloadIsTransparent` | gateway/session/resolver.py:115-127 | with one more level unwrapped, every kept row, inline or cold, is rebuilt as its own contribution |
| `Api.Gateway.PlainTurn` | gateway/api.py:160-173 | the answer with the gateway's id, recorded with the client's own request, inherited session and parent, expiry and provider; nothing recorded when the call fails |
| `Api.Gateway.StreamTurn` | gateway/api.py:180-216 | everything forwarded, then the record, then the terminator, in this order; a known error is told first and not recorded, any other breaks off; what the record is, field by field |
| `Api.StreamedTurnLeavesSameHistory` | gateway/api.py:182-196 | a streamed turn whose provider's events serialise a response is recorded with the plain response's output and rebuilt into the same messages |
| `Api.StreamedRecordIsPlainIff` | gateway/api.py:182-196 | such a turn's whole record is the plain turn's exactly when its created events had every other field and the usage reported last is the response's |
| `StreamedRecord.RecordSays` | gateway/api.py:185-190 | the record of a streamed turn: the gateway's id, one object for each announcement with exactly the id, type, arguments, content parts and other keys of its item, and every other field as accumulated |
| `StreamedRecord.StreamedTextReachesNextTurn` | gateway/session/resolver.py:107-112 | from it, kept inline, the next turn is given messages that hold exactly the text of the bridge's output |
| `StreamedRecord.AllTextReachesNextTurn` | gateway/streaming.py:9-10 | so all text deltas of a source that meets the conditions for losing none reach the next turn, in arrival order |
| `Validator.RequestValidator.Validate` | gateway/validator.py:45-130 | the request afterwards and the report, rejection or type error, in both modes |
| `ValidatorFields.StripFinds` | gateway/validator.py:57-130 | strip mode: exactly the tools of a denied type, or missed by a given allow list, by index and type; then exactly the entries whose value matches (a boolean only the same boolean, else Python's equality, missing as null); then exactly the fields present and not null; each in order, and exactly those are gone |
| `ValidatorFields.StripFailsIff` | gateway/validator.py:68-82 | it fails exactly when some tool's type is a list or a mapping |
| `ValidatorFields.RejectFinds` | gateway/validator.py:57-130 | reject mode: the first denied tool or bad type, else the first matching entry, else the first present field, else it passes; all it changes is an empty tools field |
| `ValidatorFields.OddToolsArePassedOver` | gateway/validator.py:61-62 | tools that are not a list are passed over by both modes |
| `Validator.RequestValidator.InspectTools` | gateway/validator.py:67-89 | findings and indices of dropped tools; in reject mode the first denied tool or bad type decides |
| `Validator.RequestValidator.PopIndices` | gateway/validator.py:90-91 | popping from the last index to the first leaves exactly the surviving tools in order |
| `ValidatorTheorems.ToolReport` | gateway/validator.py:67-89 | the report names exactly the dropped tools by original index, ascending, with their types |
| `ValidatorTheorems.PyEqIsNumericEquality` | gateway/validator.py:99-103 | the comparison with a rejected value is equality once booleans are read as the numbers they equal, at any depth |
| `ValidatorTheorems.StripSettlesIffNoNull` | gateway/validator.py:57-130 | a second strip is silent for every request exactly when no rejected value is null |
| `ValidatorTheorems.StripSettlesIff` | gateway/validator.py:57-130 | for one request whose tool types can be looked up: exactly when each field whose null is rejected holds something, is not stripped for mere presence and, if it is the tools, keeps one |
| `ValidatorTheorems.NullIsReportedForEver` | gateway/validator.py:97-107 | stripping the empty request reports a field whose null is rejected, and leaves the request as it was to be reported again |
| `ValidatorTheorems.ModesAgreeIff` | gateway/validator.py:14-20 | as configured, the two modes tell the same (reject's rejection is strip's first entry, or both fail on a tool type) exactly when no denied tool stands before a tool type that cannot be looked up and the allow list misses no tool before a denied one (with it off, the former alone: `AllowListOff`) |
| `ValidatorTheorems.RejectAcceptsStrippedIff` | gateway/validator.py:14-20 | reject mode accepts what strip mode, allow list as configured, left, exactly under the condition of a silent second strip, for any request whose tool types can be looked up |
| `ValidatorTheorems.ModesPartOnBadToolTypes` | gateway/validator.py:68-82 | a request on which the modes part because a tool type cannot be looked up |
| `ValidatorTheorems.ModesPartOnAllowList` | gateway/validator.py:83-89 | a request on which the modes part because the allow list applies to strip mode only |
| `Config.ParseEnvOverrides` | gateway/config.py:132-152 | the override tree of the environment, names filtered, lower-cased and split and integers parsed, or the type error of descending into a plain value |
| `ConfigTheorems.JoinedSplit` | gateway/config.py:139 | splitting a name loses nothing and leaves no delimiter in a part |
| `ConfigTheorems.NameSplitsIff` | gateway/config.py:139 | the paths that some name splits into are exactly those with no delimiter in a part and no part but the last ending in an underscore |
| `EnvironmentNames.NamesPathIff` | gateway/config.py:133-139 | a variable overrides a path exactly when its name is the prefix and then the path's parts joined by the delimiter, in any mix of cases, for a path of two parts or more |
| `EnvironmentNames.ReadAsIntegerIff` | gateway/config.py:147-150 | a value is read as an integer exactly when it is, between blanks, an optional sign and digits with single underscores between them; else it is kept as it is |
| `EnvironmentNames.IntegersAreRead` | gateway/config.py:147-148 | every integer is read back from how it is written, signed or not, between blanks |
| `EnvironmentNames.UnderscoresDoNotCount` | gateway/config.py:147-148 | underscores do not change the number |
| `EnvironmentNames.LeadingZeroDoesNotCount` | gateway/config.py:147-148 | neither do leading zeros |
| `Config.DeepMerge` | gateway/config.py:106-114 | the key-by-key loop computes the recursive merge and leaves its arguments alone |
| `Config.LoadConfig` | gateway/config.py:170-179 | the file with the overrides merged over it, or the error of building them |
| `ConfigTheorems.OrderDoesNotMatter` | gateway/config.py:132-152 | overrides that are pairwise equal or unrelated build the same tree in every order |
| `ConfigTheorems.OrderMattersIff` | gateway/config.py:141-150 | for any list of overrides, every order builds the same tree exactly when every two are equal or neither path leads through the other |
| `ConfigTheorems.EnvironmentOrderMattersIff` | gateway/config.py:132-152 | the same for the order in which the environment lists its variables |
| `ConfigTheorems.EveryOrderSucceedsIff` | gateway/config.py:141-150 | every order builds a tree at all exactly when no path leads through another one's value |
| `ConfigTheorems.LastVariableWins` | gateway/config.py:133-150 | of variables for one path, the one listed last is read |
| `ConfigTheorems.SomeOrderSucceeds` | gateway/config.py:141-150 | some order always does |
| `ConfigTheorems.PrefixesClash` | gateway/config.py:142-150 | a path and a longer one: one order fails, the other overwrites |
| `ConfigTheorems.MergeIsIdempotent` | gateway/config.py:106-114 | merging the same overrides again changes nothing, for any trees |
| `ConfigTheorems.LoadedConfig` | gateway/config.py:176-177 | for such overrides over any file: same in every order, each override path reads its value, unrelated paths read the file, merging again changes nothing |

## Left out

- Tee: takes the source as a finished sequence; how a consumer interleaves with the generator is not modelled, and forwarded events are values as of the moment they are yielded, so sharing of `content` lists between forwarded events and buffered items is not captured.
- ConsumeEvent: items are typed records (id, type, content, arguments, each possibly missing, and all other fields kept unread); an event whose item is no mapping, whose id, type or arguments is neither missing nor a string, whose content is neither missing nor a list (null included), whose content index is no integer, or whose content part lacks a type or a text is not modelled.
- ResolveRequest: a `previous_response_id` that is neither a string nor empty is answered as not found; the database driver decides that case.
- ParseEnvOverrides: letters, digits and white space beyond ASCII in a variable, and the interpreter's limit on the digits of an integer, are not modelled; the moving reference into nested dictionaries is a recursive assignment on values, so partial trees left behind by a failing variable are not captured.
- LoadConfig: schema validation and defaults after the merge are not modelled.
- Record: the payload size is a number given by the caller; JSON serialisation is taken to be faithful.
- Ids, session ids, storage keys and the clock are drawn from outside: fresh, non-empty and non-decreasing.
- Numbers in JSON are integers; Python's equality of true and 1 is modelled where the validator compares values.
- Model calls, alias loading and error wrapping (`gateway/llm.py`) are an arbitrary answer, event sequence or failure.
- SQLAlchemy, Alembic, the S3 backend and thread hand-off are atomic operations that may fail.
- HTTP routing, middleware, logging, line framing, error texts and workaround links.
- `list_by_session_id`, `/v1/models`, `/healthz` and the remaining schema fields: one-branch facts.
- Associativity of `_deep_merge` is not claimed: it fails when a plain value replaces a mapping in the middle layer.
