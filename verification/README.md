# Asteria: what the studio's transcript and the runtime's ledgers keep

A Dafny model of the parts of the repository whose correctness lies between functions rather than in any one of
them, with proofs about every run, every transcript, every proposal. `dafny verify dfyconfig.toml` checks it.

* **Delivery.** A session's server log reaches the browser through an SSE stream, which reconnects natively and
  manually and can lose or repeat a line, and through overlapping fallback polls, all sharing one cursor. `Delivery`
  has the handlers on values; `Protocol` is the transition system of client, server, browser and network, and holds
  the results. `SubscriptionHandlers` is a refinement layer, not a result: the closure as the source writes it, each
  handler proved to change its variables as the function in `Delivery` says.
* **Transcript.** Raw events become coalesced model cards (`ModelCards`), steps (`Narrative`, `NarrativeBuilder`,
  `NarrativeLaws`), turns (`Turns`), file changes (`FileChanges`) and diff scopes (`Scopes`); `Pipeline` joins them.
  The loops run on heap objects that alias each other, as in the source, and are proved equal to functions on values.
  Steps and turns are both greedy partitions (`Partitions`), whose uniqueness is proved once for both.
  `NarrativeReading` and `FileReading` say what steps, status and file lists hold in terms of the transcript alone.
  `Braces` is the string-aware brace scanner and the removal of serialized payloads, `Liveness` the verdict whether a
  session is active.
* **Plans.** `ModelPlan` normalises the dependencies of a plan a model proposed; `RequirementPlan` slices
  requirements and chains the tasks. `Graphs` has the graph theory.
* **Ledgers.** `Acceptance` is one invocation of the real-model acceptance script, from selection to the file it
  leaves behind; `History` the append-only history and its deltas; `Ratchet` the type-debt baseline.

`Events`, `Sequences`, `Strings` and `Text` hold shared vocabulary.

Several results are of the form *the code does X exactly when C*. Where C is not always true, the source or its
documentation promises more than the code keeps:

* a stream line can be lost, because the server takes the snapshot it replays before it registers the client for
  broadcasts (studio/server.mjs:341-346), or because it does not parse. Delivery stays a prefix of the log exactly as
  long as no line gets through beyond the first event not yet delivered: a poll or a reconnect in between makes up for
  the loss, and a gap once made is permanent (`Protocol.DeliveryIsPrefixIff`, with a run of each kind in
  `Protocol.LosingRunLeavesGap` and `Protocol.HealedRunLeavesNone`);
* prose is kept exactly where no brace opens a span with a marker; a stray unclosed brace takes everything after it
  along once a marker follows (`Braces.UntouchedIff`, `Braces.StrayBraceSwallows`);
* the diff view shows the planned files of a failed call when the failure is reported outside the turn's middle steps,
  in its own error step for instance (`Pipeline.TurnFilesErase`, `Pipeline.FailureInResponseIsMissed`);
* an acceptance run that raises before its first result writes nothing and removes nothing, so a file that said
  `validation_ready` goes on saying so (`Acceptance.LeftReadyIff`, `Acceptance.SeriesReadyIff`,
  `Acceptance.StaleReadySurvives`);
* a history line that is JSON but no summary makes every later run that reaches the history fail, and nothing is
  recorded from then on (`History.OffendingLineIsForGood`);
* slicing a requirement by artifact drops criteria in excess of the artifacts
  (`RequirementPlan.SplitConservesIff`, `RequirementPlan.ArtifactsCanDropACriterion`);
* a path whose *last* component is a nested `.asteria` is not treated as internal (`FileChanges.RuntimeInternalIff`,
  `FileChanges.NestedRootIsNotInternal`);
* "only ever let this file shrink" is not enforced by the ratchet's update (`Ratchet.NeverGrowsIff`,
  `Ratchet.UpdateCanGrow`).

## Model

| member | source | states |
|---|---|---|
| Protocol.EveryRunIsSafe | studio/src/api.ts:243-360 | in every run of appends, stream lines, lost and repeated lines, native retries replaying an old cursor, closes, timers, polls answered late or failing, and unsubscribing: while the lines arrive in time the whole invariant holds (delivery is a prefix, no request is ahead of it, one way of reaching SSE, delays and status as below); once one has not, delivery has a gap, for good |
| Protocol.DeliveryIsPrefixIff | studio/src/api.ts:251-323 | over every run, the batches handed to onEvents, concatenated, are a prefix of the server's log exactly when each line that got through was at or before the first event not yet delivered; and then the cursor is the number of the last event delivered |
| Protocol.LosslessRunIsInTime | studio/server.mjs:341-346 | a run in which no line is lost, repeated lines and replays included, is in time throughout |
| Protocol.EveryRunIsControlled | studio/src/api.ts:257-360 | in every reachable state, lines lost or not: exactly one of stream and reconnect timer while subscribed, the delays armed are the capped backoff, the last status reported is the true one and none repeats |
| Protocol.StatusTellsTheRun | studio/src/api.ts:257-300 | over every run, read off its actions: while subscribed and once anything was reported, the last status is "live" exactly when the stream's latest sign is one of life (opened, or a line written, repeated or garbled) and not a retry or close; otherwise "offline" exactly when two polls failed with none answered since, and "reconnecting" in the rest |
| Protocol.ReportsOnceTold | studio/src/api.ts:257-270 | something has been reported exactly when the stream or a poll had anything to tell |
| Protocol.VariablesTell | studio/src/api.ts:247-325 | the two variables the status is computed from, read off the run in the same way |
| Protocol.GapStays | studio/src/api.ts:272-281 | no step fills a gap |
| Protocol.LateLineLeavesGap | studio/src/api.ts:316-323 | a line beyond the first undelivered event leaves a gap |
| Protocol.LosingRunLeavesGap | studio/server.mjs:341-346 | a reachable run with one line lost and the next one delivered, whose delivery is not a prefix |
| Protocol.HealedRunLeavesNone | studio/src/api.ts:292-293 | the same run with a poll answered in between delivers everything |
| Protocol.UnparsedLineIsSafeIff | studio/src/api.ts:319-322 | from any safe state, a line the empty catch swallows directly followed by a good one leaves a prefix exactly when the bad line was a replay |
| Protocol.PollDelivers | studio/src/api.ts:285-296 | a poll answered from a log of length n, however late, leaves exactly the first max(n, already delivered) events delivered |
| Protocol.LineDelivers | studio/src/api.ts:316-323 | a stream line in time, news, replay or repeat, leaves the client exactly past that line |
| Protocol.EventsKeep | studio/src/api.ts:272-301 | each single step whose line is in time keeps delivery a prefix with every request behind it, and never takes anything back |
| Protocol.ControlKeeps | studio/src/api.ts:303-360 | each single step keeps "stream or reconnect timer, not both", the armed delays, and the honest unrepeated status |
| Protocol.StepKeeps | studio/src/api.ts:243-360 | each single step whose line is in time keeps the whole invariant |
| Protocol.StartsSafe | studio/src/api.ts:345-353 | subscribing establishes the invariant, with and without EventSource |
| Protocol.AfterIsSuffix | studio/lib/event-cursor.mjs:19-22 | on a numbered log, the events the server finds newer than a cursor are exactly the suffix past the cursor's position |
| Protocol.AddSlice | studio/src/api.ts:272-281 | any stretch of the log starting no later than the delivered prefix extends that prefix to its end and adds nothing twice |
| Protocol.QuietAfterUnsubscribe | studio/src/api.ts:258-261 | once stopped, no run of steps reports another status, in-flight polls included |
| Protocol.ReconnectsBackOff | studio/src/api.ts:334-340 | in every reachable state the delays armed since the last open are nondecreasing within 1000..30000 ms and any n >= 5 consecutive ones total at least 31000 + 30000(n - 5) ms |
| Protocol.DelaysDouble | studio/src/api.ts:334-340 | in every reachable state, the first delay armed since the last open is 1000 ms and each next one twice the one before, up to 30000 ms |
| Protocol.NoEmptyBatch | studio/src/api.ts:272-281 | no run ever calls onEvents with an empty batch |
| ModelCards.ToNarrativeEvents | studio/src/narrative.ts:13-71 | the aliasing loop computes the cards and writes to no input event: it modifies nothing that existed, and returns only new objects or input objects |
| ModelCards.TakeEvent | studio/src/narrative.ts:16-69 | one turn of the loop writes only to the open card it holds an alias of |
| ModelCards.ChunkingInsensitive | studio/src/narrative.ts:22-37 | one model fragment, or two whose texts concatenate to it, gives the same transcript whatever precedes or follows |
| ModelCards.AppendIsLocal | studio/src/narrative.ts:13-71 | one more input event adds at most one output event and otherwise touches at most the last, and that only when it is the card still open and of the same model, to extend or close it |
| ModelCards.CoalescingConserves | studio/src/narrative.ts:13-71 | all model text survives in order, and everything that is not model traffic survives unchanged in order |
| ModelCards.CardsHoldTheirFragments | studio/src/narrative.ts:17-37 | each card's text is exactly the concatenation of the fragments that went into it |
| ModelCards.CardsDoNotMix | studio/src/narrative.ts:22-35 | every fragment goes into a card of its own phase and provider |
| ModelCards.CardsRead | studio/src/narrative.ts:16-50 | a card is its first fragment except: status, time and telemetry are those of the last fragment and the closing marker ("completed" once closed), the summary the last non-empty one, or the waiting text if opened by a start and none came; at most one start, first, and one end, last |
| ModelCards.OnlyCardsAndPlain | studio/src/narrative.ts:17-50 | no start or end marker is left in the output |
| Braces.MatchBrace | studio/src/narrative.ts:442-466 | the loop computes the scan |
| Braces.MatchBraceIsFirstReturn | studio/src/narrative.ts:439-466 | from an opening brace the result is -1 exactly when string-aware depth, read one character at a time, never returns to zero, and otherwise the first position where it does |
| Braces.JsonIsSteady | studio/src/narrative.ts:439-441 | every JSON text (RFC 8259, sections 2 to 7) is balanced for the scanner, whatever braces, quotes or backslashes its strings hold |
| Braces.MatchBraceSpansObject | studio/src/narrative.ts:439-466 | at the opening brace of any printed JSON object, whatever precedes and follows it, the result is the index just past that object |
| Braces.TruncatedObjectNeverCloses | studio/src/narrative.ts:440-441 | any proper prefix of a printed object never closes |
| Braces.StripSerializedPayloads | studio/src/narrative.ts:472-488 | terminates and returns the kept text of the decomposition |
| Braces.SpansDecompose | studio/src/narrative.ts:468-488 | every removed span starts at a brace, carries a marker, and is what that brace closes or a never-closed tail; the span of every kept brace carries none |
| Braces.DecompositionIsUnique | studio/src/narrative.ts:468-488 | no other decomposition obeys that rule |
| Braces.UntouchedIff | studio/src/narrative.ts:468-471 | a text passes through untouched exactly when no brace in it opens a span with a marker |
| Braces.StripsPrintedPayload | studio/src/narrative.ts:468-471 | brace-free prose around a printed payload object comes back as just the prose |
| Braces.StrayBraceSwallows | studio/src/narrative.ts:476-481 | with a stray unclosed brace before it, prose and payload and all that follows are removed |
| Braces.StripsTruncatedPayload | studio/src/narrative.ts:440-441 | so does prose before a payload the stream cut short after its marker arrived |
| NarrativeBuilder.BuildRunNarrative | studio/src/narrative.ts:313-376 | the imperative builder, updating step objects in place through whatever reference finds them, shows exactly the functional narrative and its run status |
| NarrativeBuilder.GroupEvents | studio/src/narrative.ts:315-348 | the filtering and grouping loop |
| NarrativeBuilder.TakeEvent | studio/src/narrative.ts:327-347 | one event either grows the last step object or pushes a new one, touching nothing else |
| NarrativeBuilder.AutoOpen | studio/src/narrative.ts:349-362 | opens the last running or waiting step; without one and without a final step, the last failed one |
| NarrativeBuilder.SettleAll | studio/src/narrative.ts:369-376 | rewrites every step and event that is still running or queued |
| Partitions.PartitionIsUnique | studio/src/narrative.ts:328-335 | for any belonging test, a partition in which every element belongs with its group's first and no group's first with the group before is the one the grouping loop finds |
| NarrativeLaws.GroupsFlattenBack | studio/src/narrative.ts:329-347 | the steps' events, flattened, are exactly the kept events in order |
| NarrativeLaws.GroupsAreGreedy | studio/src/narrative.ts:216-261 | every event of a step belongs with its first one, and no step's first event belonged with the step before |
| NarrativeLaws.GreedyIsUnique | studio/src/narrative.ts:328-335 | no other partition has that property, so regrouping any flattened greedy partition gives it back |
| NarrativeLaws.StudioRulesAreSettlingBlind | studio/src/narrative.ts:87-305 | neither what is shown nor the grouping changes when running and queued become completed |
| NarrativeLaws.RegroupingReproducesBoundaries | studio/src/narrative.ts:313-376 | regrouping the rewritten events reproduces the boundaries |
| NarrativeLaws.RebuildingFindsTheSameGroups | studio/src/narrative.ts:313-376 | filtering and grouping the events of a built narrative's own steps finds the same groups, finished or not |
| NarrativeLaws.NarrativeShowsAll | studio/src/narrative.ts:313-376 | the narrative's events are the shown events in order, with the closing rewrite exactly when the run is over |
| NarrativeLaws.StepsAreFaithful | studio/src/narrative.ts:263-272 | a step's status is the order-independent join failed > waiting_user > running > queued > completed of its events' (a lone event keeps its own), and its kind that of its first event |
| NarrativeReading.StatusTellsTheTranscript | studio/src/narrative.ts:364-368 | the run is failed exactly when some error event has no final answer or error after it, completed exactly when some final answer has none, and in progress exactly when there is neither |
| NarrativeReading.StepsRead | studio/src/narrative.ts:327-347 | every step has the kind and caption of its first event and the last non-empty title and summary its events offer, and is open from the start exactly if final or a guardrail |
| NarrativeReading.NarrativeOpens | studio/src/narrative.ts:344-362 | which steps of a narrative stand open: those, the last one running or waiting, or, with none and no final step, the last in trouble, all judged before the closing rewrite |
| NarrativeReading.ShownIff | studio/src/narrative.ts:283-326 | which events of a transcript are in some step, clause by clause |
| NarrativeReading.KindsMean | studio/src/narrative.ts:87-184 | exactly which events are a resume, a held promotion, the model's prose, a guardrail, a pending decision, a subagent, a goal, an error and the final reply, which no diagnostic or final report ever is |
| NarrativeReading.ProcessKindsMean | studio/src/narrative.ts:87-184 | exactly which are a plan, a verification, a repair, an observation and a result; none is context |
| NarrativeReading.ToolCardsAreReal | studio/src/narrative.ts:87-184 | exactly which are tool cards, and which only look like one and are quiet turns |
| NarrativeReading.StepsHoldOneThing | studio/src/narrative.ts:216-261 | every event of a step is the same thing to the reader as its first; goals, finals, errors, holds, resumes and choices stand alone |
| NarrativeReading.NeighboursDiffer | studio/src/narrative.ts:216-261 | neighbouring steps of one kind begin with different things |
| NarrativeLaws.SettlingCommutesWithJoin | studio/src/narrative.ts:369-376 | rewriting the events and rewriting their joined status agree |
| NarrativeLaws.FinishedRunIsSettled | studio/src/narrative.ts:364-376 | in a finished run nothing is running or queued, and no failure or wait of a step or event is lost or invented |
| Liveness.IsSessionLive | studio/src/narrative.ts:592-630 | the loop returns whether the deciding event is active: the decisive event of greatest (time, seq or index), latest arrival among equals |
| Liveness.LiveIff | studio/src/narrative.ts:592-630 | on the whole transcript, decisive events numbered: the session is live exactly when some active event past the last final answer or error (past nothing, without one or at time 0) is outranked by no decisive event past it, by time, number and then arrival |
| Liveness.LaterActiveRevives | studio/src/narrative.ts:592-630 | an active event later than everything before it makes the session live, whatever ended earlier |
| Liveness.OneDecides | studio/src/narrative.ts:607-628 | at most one event decides |
| Liveness.TerminalEventEnds | studio/src/narrative.ts:592-630 | appending a non-active terminal event that nothing outranks ends the session |
| Liveness.VerdictIgnoresArrivalOrder | studio/src/narrative.ts:607-628 | without final or error events, and with decisive events distinct in (time, seq), the verdict is invariant under permutation |
| FileChanges.ExtractFileChangesFromEvents | studio/src/fileChanges.ts:22-79 | both loops together compute the extraction, including the TypeError of a `file_changed` event without data |
| FileChanges.CollectFailedCalls | studio/src/fileChanges.ts:33-40 | the skip of known calls loses no failed call |
| FileChanges.PushOne | studio/src/fileChanges.ts:42-60 | the closure keeps its seen set equal to the listed paths |
| FileChanges.FailureErases | studio/src/fileChanges.ts:26-40 | extraction equals extraction from the transcript with every event of every failed call deleted |
| FileChanges.LateFailureTakesBack | studio/src/fileChanges.ts:26-40 | a failure reported at the very end takes back everything its call had announced |
| FileChanges.PushedInFirstSeenOrder | studio/src/fileChanges.ts:42-60 | each listed change is the record that first named its path, in first-named order, paths distinct and reviewable, and every reviewable path named is listed |
| FileChanges.FirstWithIsFirst | studio/src/fileChanges.ts:42-50 | what "first named" means |
| FileReading.ListedIff | studio/src/fileChanges.ts:22-79 | a path is listed exactly when it is reviewable and some event names it whose call, if it has one, is reported failed nowhere |
| FileReading.ThrowsIff | studio/src/fileChanges.ts:26-79 | extraction throws exactly when some `file_changed` event, of no failed call, has no data |
| FileReading.RecordReads | studio/src/fileChanges.ts:42-60 | a change has the path of its record, the operation or else the event type, and the counts |
| FileReading.OffersInOrder | studio/src/fileChanges.ts:62-79 | an event offers its listed changes first, then its own data, then its references |
| FileReading.InternalInAnyCase | studio/src/fileChanges.ts:81-84 | the internal-path test looks at neither letter case nor slash direction |
| FileChanges.RuntimeInternalIff | studio/src/fileChanges.ts:81-84 | the substring test holds exactly for `.asteria` itself and for paths with a component other than the last so named, in any ASCII case and with either slash |
| FileChanges.NestedRootIsNotInternal | studio/src/fileChanges.ts:81-84 | `src/.asteria` is not treated as internal |
| Turns.SplitIntoTurns | studio/src/turnDiff.ts:15-40 | the three-variable loop computes the turns |
| Turns.TurnsFlattenBack | studio/src/turnDiff.ts:15-40 | the turns, flattened, are the steps in order |
| Turns.TurnsAreSplit | studio/src/turnDiff.ts:18-36 | no turn is empty, a goal is only ever at a turn's head, and every turn but the first has one |
| Turns.TurnSplitIsUnique | studio/src/turnDiff.ts:15-40 | no other partition does that |
| Turns.TurnsAreCounted | studio/src/turnDiff.ts:18-38 | one turn per goal, plus one for a goal-less lead |
| Turns.MiddleIs | studio/src/turnDiff.ts:42-51 | the middle of a turn is everything but its first step and the last response after it |
| Turns.MiddleWithoutResponse | studio/src/turnDiff.ts:42-51 | and everything but its first step when there is no response |
| Scopes.BuildScopes | studio/src/turnDiff.ts:69-98 | scopes pushed, filtered, reversed and relabelled through shared references come out as the specified list |
| Scopes.PushScopes | studio/src/turnDiff.ts:69-90 | the pushing loop skips turns without files and stops at a thrown TypeError |
| Scopes.RelabelThrough | studio/src/turnDiff.ts:92-96 | writing through the reversed list relabels the list it came from |
| Scopes.ChronologyIsFaithful | studio/src/turnDiff.ts:78-90 | the scopes stand for exactly the turns with changed files, in order, each with its turn's index and files |
| Scopes.ScopesAreNamedFromNewest | studio/src/turnDiff.ts:92-98 | after "current" the list stays chronological while k turn scopes are named T1..Tk bijectively with the newest as T1, names and ids distinct |
| Pipeline.BuildTurnDiffScopes | studio/src/turnDiff.ts:63-99 | the whole composition, on the heap |
| Pipeline.TurnsConserveTheTranscript | studio/src/turnDiff.ts:63-68 | every shown event ends up once, in order, in one step of one turn, and nothing else does |
| Pipeline.TurnFilesAreFirstNamed | studio/src/turnDiff.ts:42-51 | a turn's files are those first named by its middle steps, calls failed there excluded |
| Pipeline.TurnFilesErase | studio/src/fileChanges.ts:26-32 | a turn's middle steps drop exactly the events of calls that failed anywhere in the transcript if and only if they hold a failure of each such call themselves; its files are then those left when all failures have been erased |
| Pipeline.FailureInResponseIsMissed | studio/src/turnDiff.ts:42-51 | a call announced in a middle step and reported failed by the turn's error step still counts as a change |
| FileChanges.PartErasesIff | studio/src/fileChanges.ts:26-40 | the same for any part of a transcript |
| ModelPlan.FinalizeModelTasks | src/asteria_runtime/agents/planner.py:175-239 | the nested loops compute ids, dependencies, dropped names and status |
| ModelPlan.AliasTable | src/asteria_runtime/agents/planner.py:175-180 | the first task of a name gets it, and an empty name is nobody's |
| ModelPlan.PlanIsTheProposal | src/asteria_runtime/agents/planner.py:208-239 | for every proposal: task i depends on task j exactly when j is another task that i's proposal names; none is listed twice, each is a task of the plan, and a task is ready exactly when it has none |
| ModelPlan.RenamingIsIsomorphism | src/asteria_runtime/agents/planner.py:175-219 | with distinct non-empty ids the plan's graph is the one the ids draw, without self-loops |
| ModelPlan.PlanIsAcyclicIff | src/asteria_runtime/agents/planner.py:208-219 | the plan is acyclic exactly when the proposal has no cycle but self-loops; an acyclic proposal stays acyclic |
| ModelPlan.AcyclicPlanHasReadyTask | src/asteria_runtime/agents/planner.py:239 | every non-empty acyclic plan has a ready task |
| ModelPlan.CanonicalReads | src/asteria_runtime/agents/planner.py:175-180 | ids read as the position from 1, with four digits or more |
| ModelPlan.FirstNamedFirst | src/asteria_runtime/agents/planner.py:210-219 | dependencies stand in the order in which the proposal first names them |
| ModelPlan.DroppedGrows | src/asteria_runtime/agents/planner.py:210-219 | exactly the names nobody bears are reported as dropped, each time, in order |
| RequirementPlan.BuildTaskPlan | src/asteria_runtime/agents/planner.py:56-142 | the requirement branch computes the specified plan, fallback included |
| RequirementPlan.ChainUp | src/asteria_runtime/agents/planner.py:63-102 | each appended task depends on the task appended last |
| RequirementPlan.SplitRequirementIfNeeded | src/asteria_runtime/agents/planner.py:1451-1466 | which split is chosen, or none |
| RequirementPlan.SplitByArtifact | src/asteria_runtime/agents/planner.py:1468-1486 | the loop over artifacts |
| RequirementPlan.SplitByAcceptance | src/asteria_runtime/agents/planner.py:1488-1511 | the loop over chunks of three |
| RequirementPlan.AcceptanceSlicesConserve | src/asteria_runtime/agents/planner.py:1488-1511 | slices by acceptance concatenate back to the criteria, one to three a slice |
| RequirementPlan.ArtifactSlicesCover | src/asteria_runtime/agents/planner.py:1468-1486 | slices by artifact name each artifact once, in order, with one criterion each; all criteria are kept exactly when there are no more of them than artifacts |
| RequirementPlan.SplitConservesIff | src/asteria_runtime/agents/planner.py:1451-1511 | splitting keeps exactly the criteria if and only if it is not by artifact or has one criterion per artifact |
| RequirementPlan.ArtifactsCanDropACriterion | src/asteria_runtime/agents/planner.py:1475-1486 | with four artifacts and five criteria the fifth criterion is in no slice |
| RequirementPlan.SlicingConservesCriteria | src/asteria_runtime/agents/planner.py:56-61 | so does slicing all requirements when each keeps its own |
| RequirementPlan.PlanCarriesCriteria | src/asteria_runtime/agents/planner.py:56-102 | when some requirement is planned for, there is one task per slice with that slice's criteria, and, as long as each planned requirement keeps its own, the tasks carry all criteria of all of them, in order |
| RequirementPlan.FallbackCarries | src/asteria_runtime/agents/planner.py:104-142 | when none is, the single task carries the first three items of the definition of done, or "Goal is clarified" |
| RequirementPlan.NothingSliced | src/asteria_runtime/agents/planner.py:56-72 | nothing is planned exactly when every requirement is a "wont" |
| RequirementPlan.SplitShape | src/asteria_runtime/agents/planner.py:1451-1511 | up to four criteria and three artifacts there is no split; beyond three artifacts one slice for each; else one for every three criteria begun |
| RequirementPlan.SlicesNameTheirOrigin | src/asteria_runtime/agents/planner.py:1468-1511 | slices carry their origin's id, priority and description, and distinct ids of their own |
| RequirementPlan.AcceptanceSlicesExpectAll | src/asteria_runtime/agents/planner.py:1488-1511 | slices by acceptance all carry the expected artifacts |
| RequirementPlan.ArtifactsAskToBeMade | src/asteria_runtime/agents/planner.py:1468-1486 | an artifact beyond the criteria gets "is created or updated" |
| RequirementPlan.TasksAreSmall | src/asteria_runtime/agents/planner.py:1451-1466 | every planned task carries at most four non-blank acceptance criteria |
| RequirementPlan.TasksFormOneChain | src/asteria_runtime/agents/planner.py:63-102 | task i depends on task j exactly when i = j + 1, each task but the first lists the one before it and nothing else, only the first is ready, and the plan is acyclic |
| Acceptance.StatusTable.AddStatus | src/asteria_runtime/real_model_acceptance.py:1252-1259 | the incremental update of one row |
| Acceptance.AggregateResults | src/asteria_runtime/real_model_acceptance.py:1079-1131 | the loop over two mutable tables and the counters computes the aggregate |
| Acceptance.AggregateRouteEvidence | src/asteria_runtime/real_model_acceptance.py:1177-1207 | the three lists, the providers collected by tier, and the two flags |
| Acceptance.ProvidersByTierIff | src/asteria_runtime/real_model_acceptance.py:1177-1198 | a tier is in the collected table exactly when some evidence names it, and holds exactly the providers some evidence lists under it |
| Acceptance.SortedProvidersIff | src/asteria_runtime/real_model_acceptance.py:1199-1207 | the summary lists them under each tier once each, in ascending order |
| Strings.SortedSetIs | src/asteria_runtime/real_model_acceptance.py:1199-1207 | sorting a set lists each member once, ascending |
| Acceptance.TallyCounts | src/asteria_runtime/real_model_acceptance.py:1252-1259 | every row counts exactly the results under its key, is ok exactly when all of them passed, and exists exactly when there are any |
| Acceptance.NoneIsLost | src/asteria_runtime/real_model_acceptance.py:1091-1093 | passed and failed add up to all results |
| Acceptance.MetricsAdd | src/asteria_runtime/real_model_acceptance.py:1090-1131 | the figures of a run are the sums of those of its parts, wherever it is cut |
| Acceptance.FiguresOfOneRun | src/asteria_runtime/real_model_acceptance.py:1090-1131 | the figures of a single result are its own verdict, duration and six counters, zero without diagnostics |
| Acceptance.FiguresAddUp | src/asteria_runtime/real_model_acceptance.py:1090-1131 | and over a run each of the nine figures is the sum of the results' own of that name |
| Acceptance.ListsGrow | src/asteria_runtime/real_model_acceptance.py:1177-1198 | a further result extends the list of failures, of route evidence, of a missing strong and of a missing medium tier exactly when it should, by its name |
| Acceptance.ListsBegin | src/asteria_runtime/real_model_acceptance.py:1177-1198 | all four are empty to begin with |
| Acceptance.TablesCount | src/asteria_runtime/real_model_acceptance.py:1083-1115 | the capability table counts by capability and the tier table by tier |
| Acceptance.LabelsRead | src/asteria_runtime/real_model_acceptance.py:1083-1115 | a result's label is its own, else that of the last selected scenario of its name, else "unknown" |
| Acceptance.RouteIff | src/asteria_runtime/real_model_acceptance.py:1177-1207 | both flags hold exactly when some result has evidence and every one that has it used both tiers |
| Acceptance.ReadyIff | src/asteria_runtime/real_model_acceptance.py:585-616 | when one summary says `validation_ready`: exactly complete, validation suite, covered, all results ok, routes shown |
| Acceptance.BuildAcceptanceSummary | src/asteria_runtime/real_model_acceptance.py:585-616 | computes the summary |
| Acceptance.RunScenarios | src/asteria_runtime/real_model_acceptance.py:475-486 | the loop writes one incomplete summary per result and stops at the first exception |
| Acceptance.CompleteRun | src/asteria_runtime/real_model_acceptance.py:487-494 | the complete summary is compared with the history before it is appended to it; if the history raises, neither happens |
| Acceptance.FinishRun | src/asteria_runtime/real_model_acceptance.py:487-517 | a failed scenario or an exception is followed by one more, incomplete, summary, unless there are no results, and makes the run fail |
| Acceptance.RunFromArgs | src/asteria_runtime/real_model_acceptance.py:468-517 | an invocation writes exactly the specified sequence of summaries and adds exactly the specified history record, and fails (exit status 1) exactly when the selection, a scenario or the history raised or some result is not ok |
| Acceptance.PartialsAt | src/asteria_runtime/real_model_acceptance.py:475-486 | after the k-th result the file reports exactly the first k outcomes |
| Acceptance.WrittenClaims | src/asteria_runtime/real_model_acceptance.py:475-515 | of all summaries written, only the last can be ok, and only an ok one ready |
| Acceptance.LastWrittenReadyIff | src/asteria_runtime/real_model_acceptance.py:468-515 | the last summary an invocation writes is `validation_ready` exactly when the whole suite was selected, every scenario ran and passed, some result has route evidence, every one that has it used the strong and the medium tier, and the history did not raise |
| Acceptance.WritesNothingIff | src/asteria_runtime/real_model_acceptance.py:502-514 | an invocation writes nothing exactly when the selection raises, or the first scenario does, or there is none to run and the history raises |
| Acceptance.LeftReadyIff | src/asteria_runtime/real_model_acceptance.py:502-514 | the file an invocation leaves behind is `validation_ready` exactly when it wrote and the suite stands as above, or it wrote nothing and found the file ready |
| Acceptance.LastWrittenOkIff | src/asteria_runtime/real_model_acceptance.py:468-517 | the last summary written is ok exactly when the invocation does not fail |
| Acceptance.RaisedRunReports | src/asteria_runtime/real_model_acceptance.py:502-514 | when a scenario raises after some results, the last summary holds exactly the results before it, and its message |
| Acceptance.FailedRunReports | src/asteria_runtime/real_model_acceptance.py:487-514 | when all scenarios finish and the run fails all the same, the last summary holds all results and says why: the history's message, or the scenarios that failed |
| Acceptance.RecordedIsWritten | src/asteria_runtime/real_model_acceptance.py:487-495 | what an invocation records in the history is about the run some summary it writes is about |
| Acceptance.SelectionRaisesIff | src/asteria_runtime/real_model_acceptance.py:566-582 | the selection raises exactly when there is no such suite, fake providers exclude everything, or a name left is in no catalogue |
| Acceptance.SelectionIs | src/asteria_runtime/real_model_acceptance.py:566-582 | otherwise it is the catalogue's entries for the names asked for and not excluded, in order |
| Acceptance.SeriesReadyIff | src/asteria_runtime/real_model_acceptance.py:468-515 | over any series of invocations with one file, the file is `validation_ready` exactly when the last of them to write anything showed the suite to stand, whatever happened since |
| Acceptance.StaleReadySurvives | src/asteria_runtime/real_model_acceptance.py:502-514 | a ready file stays ready after a failed invocation of the same suite whose first scenario raised |
| Acceptance.CoverageIff | src/asteria_runtime/real_model_acceptance.py:566-582 | an invocation covers its suite exactly when it names no scenario or all of the suite's, and fake providers, if allowed, exclude none |
| History.HistoryFile.AttachHistory | src/asteria_runtime/real_model_acceptance.py:1262-1270 | appends the summary and gives its change against the latest earlier one of its key, or raises and appends nothing |
| History.HistoryFile.LatestHistoryEntry | src/asteria_runtime/real_model_acceptance.py:1273-1298 | the last summary of the key, skipping blank lines and lines that are not JSON; raises on the first line that is JSON but no summary |
| History.LatestIs | src/asteria_runtime/real_model_acceptance.py:1273-1287 | what is found is the summary on the last line that has one of the key |
| History.RaisesIff | src/asteria_runtime/real_model_acceptance.py:1273-1298 | a look-up raises exactly when some line does, with the first one's message |
| History.DeltasRead | src/asteria_runtime/real_model_acceptance.py:1301-1335 | a summary gets deltas exactly when there is an earlier one of its key, and they are, figure by figure, what it has over the last of them |
| History.OffendingLineIsForGood | src/asteria_runtime/real_model_acceptance.py:1273-1298 | recording neither makes nor mends a line that raises: from the first one on, no summary is ever recorded again |
| History.DeltasTelescope | src/asteria_runtime/real_model_acceptance.py:1262-1335 | however runs of other keys are interleaved, the deltas recorded for a key add up to its latest figures less its first |
| History.DeltasByFigure | src/asteria_runtime/real_model_acceptance.py:1301-1335 | so for each figure: the baseline's plus the sum of the deltas is the latest's |
| History.BaselineIs | src/asteria_runtime/real_model_acceptance.py:1262-1287 | without an earlier summary of the key the baseline is the first one recorded |
| History.KeyIgnoresOrder | src/asteria_runtime/real_model_acceptance.py:1290-1298 | keys are equal exactly when the suites are and the named scenarios agree up to order |
| Strings.SortedEqualIff | src/asteria_runtime/real_model_acceptance.py:1298 | sorting gives the same list exactly for reorderings |
| Strings.LeIff | src/asteria_runtime/real_model_acceptance.py:1298 | the order sorted by: a prefix first, else the smaller character at the first difference |
| Text.TrimIs | src/asteria_runtime/agents/planner.py:210-219 | trimming takes whitespace off both ends, all of it, and nothing else |
| Ratchet.Parse | scripts/mypy_ratchet.py:60-69 | the counting loop, paths normalised to forward slashes |
| Ratchet.ParsedIgnoresOrder | scripts/mypy_ratchet.py:60-69 | the count does not depend on the order of mypy's lines |
| Ratchet.ParsedCounts | scripts/mypy_ratchet.py:60-69 | an error is counted once for every line that reports it |
| Ratchet.SortedItems | scripts/mypy_ratchet.py:84-88 | the entries written are strictly sorted, none zero, and load back as the same multiset |
| Ratchet.FileIsCanonical | scripts/mypy_ratchet.py:72-88 | equal debts are recorded by equal files |
| Ratchet.LoadedIs | scripts/mypy_ratchet.py:72-81 | a file gives each error the count of its last entry for it |
| Ratchet.ListedByFile | scripts/mypy_ratchet.py:84-88 | entries are ordered by file, then code, then message |
| Ratchet.BaselineFile.Run | scripts/mypy_ratchet.py:108-138 | an update makes the file load as what was found; a check leaves it alone, reports what is new and fixed, and exits 0 exactly when found is a sub-multiset of the baseline |
| Ratchet.PassesIff | scripts/mypy_ratchet.py:119-128 | nothing is new exactly when found is a sub-multiset of the baseline |
| Ratchet.DebtIsConserved | scripts/mypy_ratchet.py:119-121 | found and fixed together are exactly the baseline and the new, and number as many; new and fixed have nothing in common, and no two other counts do both |
| Ratchet.NeverGrowsIff | scripts/mypy_ratchet.py:113-138 | over any run of invocations the baseline only shrinks exactly when every update would have passed as a check |
| Ratchet.UpdateCanGrow | scripts/mypy_ratchet.py:115-118 | an update alone can grow it |
| Ratchet.CheckedUpdatesShrink | scripts/mypy_ratchet.py:113-138 | when each update follows a passing check of the same errors the baseline only shrinks, and no later check passes on debt an earlier baseline did not have |
| SubscriptionHandlers.Subscription.constructor | studio/src/api.ts:243-353 | refinement: the closure starts in the state the transition system starts from |
| SubscriptionHandlers.Subscription.SetStatus | studio/src/api.ts:257-261 | refinement of `Delivery.SetStatus` |
| SubscriptionHandlers.Subscription.ComputeStatus | studio/src/api.ts:266-270 | refinement of `Delivery.ComputeStatus` |
| SubscriptionHandlers.Subscription.AddFresh | studio/src/api.ts:272-281 | refinement of `Delivery.AddFresh` by three loops: the events handed on are those unseen before the batch, and the cursor advances over all of it |
| SubscriptionHandlers.Subscription.StartPoll | studio/src/api.ts:283-301 | refinement of `Delivery.StartPoll` |
| SubscriptionHandlers.Subscription.OpenStream | studio/src/api.ts:303-310 | refinement of `Delivery.OpenStream` |
| SubscriptionHandlers.Subscription.OnOpen | studio/src/api.ts:311-315 | refinement of `Delivery.OnOpen` |
| SubscriptionHandlers.Subscription.OnMessage | studio/src/api.ts:316-323 | refinement of `Delivery.OnMessage` |
| SubscriptionHandlers.Subscription.OnError | studio/src/api.ts:324-342 | refinement of `Delivery.OnError` |
| SubscriptionHandlers.Subscription.OnReconnectTimer | studio/src/api.ts:337-340 | refinement of `Delivery.OnReconnectTimer` |
| SubscriptionHandlers.Subscription.OnPollTick | studio/src/api.ts:285-292 | a tick sends the cursor of that moment, or stops the timer once stopped |
| SubscriptionHandlers.Subscription.OnPollAnswer | studio/src/api.ts:292-295 | refinement of `Delivery.OnPollAnswer` |
| SubscriptionHandlers.Subscription.OnPollFailure | studio/src/api.ts:296-299 | refinement of `Delivery.OnPollFailure` |
| SubscriptionHandlers.Subscription.Unsubscribe | studio/src/api.ts:355-360 | refinement of `Delivery.Unsubscribe` |

## Left out

* Delivery assumes of the server: a log numbered strictly upwards with ids never reused, each poll answered with the
  whole suffix of the log as it stood at some moment after the request, and stream lines in log order from the cursor,
  except that any line may be skipped or arrive unreadable and the last one may be repeated. The server's dropping
  of resolved permission requests from a poll and its forwarding of runtime files are not modelled, nor is an
  `onEvents` that throws. Nothing is claimed about delivery after unsubscribing: a poll in flight still delivers.
* Text is Dafny characters, not UTF-16 units; lower-casing is ASCII only; `eventTime`, the PAYLOAD_KEY expression,
  mypy's line expression and the title, summary and label tables are parameters.
* `Narrative.Build`: step ids, the report's counters and texts are not modelled; a step's caption is whatever the
  label table says.
* `cleanReasoning`, `splitToolCluster`, `dedupeAdjacentToolSteps`, `aggregateFileChangeStats` and `turnUserPreview`
  would add only members without state across calls.
* `FileChanges`: path fields that are not strings, alternative names of the count fields and their numeric conversion.
* `Turns.MiddleSteps`: a goal-less lead loses its first step, as in the source.
* `Liveness`: `seq` values that are not integers. A cutoff time of 0 cuts nothing off, as in the source.
* The planner's other branches, task fields other than id, status, dependencies, acceptance and artifacts, quality
  assessment and the unknown-priority KeyError; requirement refinement and expected artifacts are parameters.
* `Acceptance`: scenario execution is an arbitrary outcome per scenario; metadata kinds,
  timestamps, paths, clean-up and failures of writing files are not modelled. Durations are thousandths of a second,
  to which the source rounds them, so float error is not. The files an invocation writes to are alike, so one is
  modelled, and one that holds no summary claims nothing; a history that does not exist is an empty one.
* `Ratchet`: running mypy, malformed or negative baseline entries, the file's comment and total.
* String order is by Dafny character.
