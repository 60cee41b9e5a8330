# Verified model of Personal Agent Gateway

The gateway runs teams of agents in cycles, streams model runs from a remote service, and keeps
jobs, chat sessions and an archive of documents in one SQLite database. This project models the
parts of it whose correctness depends on several methods at once, and proves what they promise.

- **Cycle requests and AUTO series** (`CycleTables`, `CycleSteps`, `CycleInvariant`, `CycleRuns`,
  `CycleAccounting`, `CycleTimer`, `CycleCancel`, `CycleQueue`, `CycleReconcile`,
  `CycleOutcomes`, `ReconcileOutcomes`, `CycleService`). Each service method runs in one `begin immediate` transaction, so each is a
  function from the tables before to an error or to the tables after. Users, workers, the timer,
  settlement observers, startup reconcile and an environment that changes the status of cycles,
  runs and operations interleave freely. The invariant `Inv` says how a series is coupled to its
  requests; every step keeps it.
  `CycleClock` relates the timer to the stored texts; `CycleExamples` holds histories that end where
  a promise fails.
- **The dispatcher** (`Dispatcher`, `DispatcherOutcomes`, `DispatcherService`): any number of workers over one queue, with
  actors that change the tables first and enqueue the run afterwards, if nothing stops them in
  between. `Delegation` is one such actor; `DispatcherExamples` holds executions that lose a wake-up.
- **The streaming run protocol** (`EventStream`, `EventStreamSpec`, `EventStreamTheorems`,
  `EventStreamOutcomes`, `RemoteModelClient`): the line reader as a state machine, a declarative meaning of a stream, and
  the agreement of the two. The dialect is stricter than sections 9.2.5 and 9.2.6 of the WHATWG HTML
  Living Standard.
- **Knowledge requests** (`KnowledgeAttempts`, `KnowledgeRequests`, `KnowledgeOutcomes`,
  `KnowledgeExamples`), **stored instants** (`Timestamps`) and **source ids** (`SourceIds`).
- **Keyset paging** (`Paging`, `Cursors`, `CursorTexts`, `SessionActivity`, `JobPages`), **peer notes**
  (`PeerNotes`, `PeerNotesTheorems`, `PeerNotesOutcomes`, `PeerNotesService`), **the archive**
  (`Archive`, `ArchiveTheorems`, `ArchiveOutcomes`, `ArchiveSchedules`, `ArchiveService`),
  **generated-file merges** (`ReportIndexMerge`, `RegistryMerge`, `MergeOutcomes`), **the chat-session registry** (`SessionRegistry`) and **the event bus**
  (`EventBus`).

A method that updates state in place is a method of a class with the same fields; its `ensures`
equates the new state with a specification function, or with the old state when it refuses. The
theorems are about those functions and about whole histories of them. The modules named `...Outcomes`
say what each operation accepts, answers and writes in terms of rows, texts and statuses alone, without
the functions that compute it.

Rows are never removed from the cycle tables, so a row's position is both its insertion order and its
fresh id. Instants are integers in the cycle model; `Timestamps` shows that comparing the stored texts
is comparing instants.

What the proofs found in the code, each with its exact condition and a concrete input:

- An owner who delegates a knowledge request with an unknown, blank or repeated artifact id is refused
  after the request has been enqueued and before the dispatcher is told: the request stays queued, and
  nothing claims it until the run is woken by something else or the process restarts
  (`Dispatcher.BrokenPromiseWakesIff`, `Delegation.DelegationWakesIff`,
  `DispatcherExamples.RefusedDelegationIsForgotten`). The same holds of every actor that stops between
  its transaction and `enqueue_run`, such as a hook run that cannot be linked to its request
  (hook_runner.py:209-225).
- When `create_cycle` fails the claim is requeued and nobody is woken
  (`Dispatcher.CreateFailureWakesIff`, `DispatcherExamples.CreateFailureIsForgotten`); reopening a
  canceled run that still has queued work wakes nobody either (`Dispatcher.ReopenWakesIff`,
  `DispatcherExamples.ReopenedIsForgotten`). `mark_request_settled`, which nothing calls at present,
  would not wake the request behind the one it settles (`Dispatcher.SettledByHandWakesIff`,
  `DispatcherExamples.SettledByHandIsForgotten`).
- `cancel_run` leaves a cycle in status `paused` unfinished (`CycleCancel.CancelFinishesCyclesIff`,
  `CycleExamples.PausedCycleOutlivesCancel`).
- A series paused on a `blocked` cycle cannot be retried, only continued (`CycleCancel.AfterFailure`,
  `CycleExamples.BlockedCannotRetry`).
- `mark_request_settled` breaks the coupling of a live AUTO request
  (`CycleInvariant.MarkSettledKeepsInvIff`, `CycleExamples.MarkSettledUncouples`).
- A tick trusts that nobody else used the slot's source id (`CycleTimer.TickCouplesIffNameFree`,
  `CycleExamples.TakenNameUncouples`); only a direct caller of `enqueue_request` can.
- Knowledge ids that differ only in ASCII case share their later attempts, because SQLite's LIKE
  ignores that case (`KnowledgeRequests.SelectedIsOwnIff`, `KnowledgeRequests.ForeignIffCaseVariant`,
  `KnowledgeExamples.CaseVariantsInterfere`). The program itself asks only for generated hexadecimal
  ids that it first finds by exact equality (api/archive.py:110-131), so only a direct caller of the
  service can meet this.
- A failed or aborted run reports only the partial text of its terminal event and drops what the deltas
  had accumulated when that event leaves it out (`EventStreamTheorems.FailureKeepsPartialIff`,
  `EventStreamTheorems.FailureLosesPartial`).
- A cursor longer than 512 characters is emitted and then refused (`CursorTexts.CursorAcceptedIff`).
  The cursors of jobs and of activity always fit; that of a team's documents holds a path, and a
  path of sixty Hangul syllables is too long (`CursorTexts.LongNameStallsPaging`).
- A published team note can be rewritten by the team, although the archive policy text calls published
  entries user-authored (`ArchiveTheorems.TeamRewritesPublished`, `ArchiveTheorems.OnlyTeamsRewrite`,
  `ArchiveSchedules.NoteIsRewritten`).
- The check and the write of a request's status are separate statements, so a publication between them
  is partly undone (`ArchiveSchedules.WrittenKeepsOkIff`,
  `ArchiveSchedules.DismissalCrossesPublication`).
- A `Last-Event-ID` of an older stream is taken as one of the present stream
  (api/chat_sessions.py:207-216): unless it lies below the oldest kept event, the subscriber misses
  kept events (`EventBus.ForeignIdMissesNothingIff`, `EventBus.ForeignIdWitness`).
- At most one series of a run is active, although migration 36 dropped the index that enforced it; the
  proof uses the code alone.

## Model

| member | source | states |
|---|---|---|
| CycleInvariant.EnqueueKeepsInv | src/personal_agent_gateway/team_cycles.py:1357-1523 | inserting a request, with all its guards, keeps the coupling between every series and its requests |
| CycleInvariant.InsertGuards | src/personal_agent_gateway/team_cycles.py:1391-1467 | when no guard refuses, the series has no live request in the way and the slot is its next one |
| CycleInvariant.InitializeKeepsInv | src/personal_agent_gateway/team_cycles.py:392-477 | a new series keeps the invariant: its first slot is queued, and no other series of the run is active |
| CycleInvariant.ClaimKeepsInv | src/personal_agent_gateway/team_cycles.py:479-517 | a claim keeps the invariant: at most one request of a run is dispatching |
| CycleInvariant.SettleKeepsInv | src/personal_agent_gateway/team_cycles.py:519-615 | a settlement keeps the invariant whatever status the environment gave the cycle |
| CycleInvariant.PauseByIdKeepsInv | src/personal_agent_gateway/team_cycles.py:1525-1589 | pausing for the user or an interruption keeps the invariant |
| CycleInvariant.ContinueKeepsInv | src/personal_agent_gateway/team_cycles.py:617-632 | continuing after a failure keeps the invariant |
| CycleInvariant.RetryKeepsInv | src/personal_agent_gateway/team_cycles.py:634-681 | a retry keeps the invariant and its attempt number is free |
| CycleInvariant.TickKeepsInv | src/personal_agent_gateway/team_cycles.py:852-936 | a whole timer transaction keeps the invariant |
| CycleInvariant.WaitingSlotIsFree | src/personal_agent_gateway/team_cycles.py:915-935 | a waiting series has no request in its next slot, so the tick never meets an occupied slot |
| CycleInvariant.RequeueKeepsInv | src/personal_agent_gateway/team_cycles.py:1119-1138 | requeueing a claim keeps the invariant |
| CycleInvariant.CancelKeepsInv | src/personal_agent_gateway/team_cycles.py:1177-1355 | cancellation keeps the invariant |
| CycleInvariant.MarkSettledKeepsInvIff | src/personal_agent_gateway/team_cycles.py:997-1017 | marking a request settled keeps the coupling exactly when the request is not a live request of a series |
| CycleExamples.MarkSettledUncouples | src/personal_agent_gateway/team_cycles.py:997-1017 | a history from empty tables in which it breaks the coupling |
| CycleInvariant.DispatchingHoldsNextSlot | src/personal_agent_gateway/team_cycles.py:562-615 | a dispatching request of a series holds slot settled_slots + 1 of a running or paused series |
| CycleRuns.StepKeepsInv | src/personal_agent_gateway/team_cycles.py:392-1621 | every step of every actor, the environment included, keeps the invariant |
| CycleRuns.CoupledInEveryHistory | src/personal_agent_gateway/team_cycles.py:392-1621 | in every reachable state: running has exactly one live request, at slot settled_slots + 1; paused_user and paused_interrupted exactly one, dispatching; the others none; no request lies beyond settled_slots + 1; at most one series of a run is active and it has the highest number |
| CycleTables.NextQueued | src/personal_agent_gateway/team_cycles.py:500-507 | the next request of a run is its queued request that is first by created_at and rowid |
| CycleTables.LatestSeries | src/personal_agent_gateway/team_cycles.py:788-803 | the series of the run with the highest series number |
| CycleTables.LatestFinal | src/personal_agent_gateway/team_cycles.py:717-731 | the last final cycle of the run |
| CycleAccounting.StepTransition | src/personal_agent_gateway/team_cycles.py:392-1621 | how any single step can move a series: settle a slot, change class, or add a retry |
| CycleAccounting.SettledSlotsCount | src/personal_agent_gateway/team_cycles.py:1591-1621 | settled_slots equals the number of first settlements of successful cycles plus the number of continues, and never exceeds target_slots |
| CycleAccounting.SettlingAgainDoesNothing | src/personal_agent_gateway/team_cycles.py:562-570 | settling a settled cycle again changes nothing and reports no transition |
| CycleAccounting.RequestsOfSeriesBounded | src/personal_agent_gateway/team_cycles.py:1357-1523 | a series with r retries has at most target_slots + r requests |
| CycleAccounting.AutoRequestsHoldDistinctSlots | src/personal_agent_gateway/team_cycles.py:1456-1467 | the automatic requests of a series hold distinct slots |
| CycleTimer.SeriesTerminates | src/personal_agent_gateway/team_cycles.py:519-681 | a measure falls with every move of a series and rises by one only with a retry, so a series with r retries moves at most 3 * target_slots + 2 + r times |
| CycleTimer.TickOneOutcome | src/personal_agent_gateway/team_cycles.py:873-935 | on a due series the timer queues the next slot, ends the series, or fails for want of an objective; nothing else can go wrong |
| CycleTimer.TickChoosesInstruction | src/personal_agent_gateway/team_cycles.py:873-995 | on a due series the tick ends the series when the last cycle proposed nothing, and otherwise queues the next slot with the lead's proposal or the objective, continuing from the last final cycle |
| CycleTimer.SettlementDecides | src/personal_agent_gateway/team_cycles.py:562-615 | a first settlement: the request follows the cycle; the series counts the slot and completes exactly at its target, or pauses on the failed cycle, or is canceled |
| CycleTimer.TickOutcome | src/personal_agent_gateway/team_cycles.py:852-936 | a tick fails, and rolls everything back, exactly when a due series has no objective to fall back on; otherwise it handles each due series once |
| CycleTimer.TickCouplesIffNameFree | src/personal_agent_gateway/team_cycles.py:915-935 | the tick sets a series running with a request to run exactly when nobody had taken the slot's source id |
| CycleTimer.WaitingSince | src/personal_agent_gateway/team_cycles.py:1591-1621 | a waiting series is unchanged since the step that settled its last slot and set its alarm one interval ahead |
| CycleTimer.SlotsKeepTheirDistance | src/personal_agent_gateway/team_cycles.py:862-872 | the timer never starts a slot earlier than interval_seconds after the previous slot was settled |
| CycleClock.SlotsKeepTheirDistanceInText | src/personal_agent_gateway/team_cycles.py:852-872 | the same for the select as it is written, which compares the stored texts with the text of the present |
| CycleClock.DueByTextIsDue | src/personal_agent_gateway/team_cycles.py:862-872 | comparing the texts selects exactly the series whose instant has come |
| CycleExamples.TakenNameUncouples | src/personal_agent_gateway/team_cycles.py:915-935 | a history of a caller that names a slot-2 request after slot 3: the tick leaves the series running with no live request |
| CycleCancel.CancelCloses | src/personal_agent_gateway/team_cycles.py:1177-1355 | after cancel_run the run has no live request, no active series, no open operation and no open hook run |
| CycleCancel.CancelFinishesCyclesIff | src/personal_agent_gateway/team_cycles.py:1196-1208 | every linked cycle is finished exactly when none was paused, a status the cancellation leaves out |
| CycleExamples.PausedCycleOutlivesCancel | src/personal_agent_gateway/team_cycles.py:1196-1208 | a history from empty tables whose paused cycle outlives the cancellation of its run |
| CycleCancel.CancelTwice | src/personal_agent_gateway/team_cycles.py:1177-1355 | a second cancellation changes nothing |
| CycleCancel.ChangedFlagIsExact | src/personal_agent_gateway/team_cycles.py:1282-1355 | the changed flag is true exactly when the cancellation changed a row |
| CycleCancel.CanceledForever | src/personal_agent_gateway/team_cycles.py:479-936 | once the run is canceled, no claim, enqueue, settle, retry, continue, restart or tick revives a request or series of it, until a user reopens the run |
| CycleCancel.ClosedForever | src/personal_agent_gateway/team_cycles.py:392-1621 | once the run is canceled and closed, no step of the service, of another cancellation or of a worker ever gives it a live request, an active series, a cancelable cycle, an open operation or an open hook run, as long as the environment itself does not reopen one |
| CycleCancel.StepKeepsClosedIff | src/personal_agent_gateway/team_cycles.py:1177-1355 | in one step: a closed run stays closed exactly when the step is not one by which the environment itself reopens the run or a cycle, operation or hook run of it |
| CycleCancel.NoCycleForDead | src/personal_agent_gateway/team_cycles.py:1119-1138 | a dead run gets no cycle: creating one for a request of it changes nothing |
| CycleCancel.AfterFailure | src/personal_agent_gateway/team_cycles.py:617-681 | a series paused on a failure can be retried exactly when its cycle is still failed, not blocked; continuing works for both |
| CycleExamples.BlockedCannotRetry | src/personal_agent_gateway/team_cycles.py:634-681 | a history from empty tables that ends with a series paused on a blocked cycle, whose retry is refused |
| CycleCancel.RetryRepeatsFailed | src/personal_agent_gateway/team_cycles.py:634-681 | a retry repeats the slot, instruction and context of the failed request, linked to it and numbered after every request of the slot |
| CycleCancel.RestartRepeatsLatest | src/personal_agent_gateway/team_cycles.py:683-715 | a restarted series repeats the target and interval of the latest one, which must be completed, under the next number; its first request is the subject of RestartSeriesIff |
| CycleOutcomes.TriggeredAcceptedIff | src/personal_agent_gateway/team_cycles.py:1357-1523 | a manual, hook, knowledge or contest request with a new source is accepted exactly on a continuous TRIGGERED run that is not canceled, with a source id, without AUTO lineage and on a final context; one queued row with what the caller gave is added and nothing else changes |
| CycleOutcomes.AutoAcceptedIff | src/personal_agent_gateway/team_cycles.py:1357-1523 | an automatic request with a new source is accepted exactly at the empty next slot of a series of the run that is running or waiting, and sets that series running |
| CycleOutcomes.RetryAcceptedIff | src/personal_agent_gateway/team_cycles.py:1357-1523 | a retry with a new source is accepted exactly for the settled request of the failed cycle on which its series is paused, and sets that series running |
| CycleOutcomes.SeenIsReturned | src/personal_agent_gateway/team_cycles.py:1376-1390 | a source that the run already has gives that request back and changes nothing |
| CycleOutcomes.RefusalsAreTruthful | src/personal_agent_gateway/team_cycles.py:1357-1523 | every refusal of an insertion names something that is the case |
| CycleOutcomes.CreateSeriesIff | src/personal_agent_gateway/team_cycles.py:358-477 | a series is created exactly on a continuous run that is not canceled, with at least one slot, no negative interval, no active series and something to tell the team; its first request carries the first instruction given, or else the objective of the run, and NoObjective comes back exactly when there is neither |
| CycleOutcomes.RestartSeriesIff | src/personal_agent_gateway/team_cycles.py:683-715 | a restart is accepted exactly on an AUTO run whose latest series is completed, for as many slots and the same interval; its first request carries the objective of the run |
| CycleOutcomes.ClaimTakes | src/personal_agent_gateway/team_cycles.py:479-517 | a claim takes the head of the run's queue and writes its status and claimed_at; it takes nothing while a request is dispatching or none is queued |
| CycleOutcomes.RequeueReturns | src/personal_agent_gateway/team_cycles.py:1119-1138 | a claim goes back exactly when it is dispatching without a cycle, and then the row is as before the claim |
| CycleOutcomes.PauseByIdIff | src/personal_agent_gateway/team_cycles.py:1525-1589 | a pause is refused unless the cycle has the expected status and its request is dispatching; it writes status, reason and cycle to the series, and reports a transition exactly when that changed something |
| CycleOutcomes.SettleDecides | src/personal_agent_gateway/team_cycles.py:519-570 | what a settlement does in each status of the cycle |
| CycleOutcomes.FirstSettlement | src/personal_agent_gateway/team_cycles.py:562-615 | a first settlement, row by row: the request closes as the cycle ended, its series counts the slot, pauses with the error of the cycle, or is canceled; whether work waits is reported |
| CycleOutcomes.RetryIsNumbered | src/personal_agent_gateway/team_cycles.py:634-681 | a retry is numbered after every request its slot has had |
| CycleOutcomes.ContinueIff | src/personal_agent_gateway/team_cycles.py:617-632 | continuing is accepted exactly for a series of the run paused after a failure, and counts the failed slot |
| CycleOutcomes.MarkSettledIff | src/personal_agent_gateway/team_cycles.py:997-1017 | marking a request settled closes a live one, leaves a settled one alone and refuses a canceled one |
| CycleOutcomes.CancelIff | src/personal_agent_gateway/team_cycles.py:1177-1355 | a cancellation row by row: which rows of each table are closed, with which reason and time, and that every other row stays |
| CycleOutcomes.TickDecides | src/personal_agent_gateway/team_cycles.py:852-936 | a tick row by row: it adds the next slot of each due series that goes on, in order, completes the others, and leaves every other row |
| ReconcileOutcomes.ClaimAfterReconcile | src/personal_agent_gateway/team_cycles.py:1090-1106 | after a successful reconcile, for every dispatching request with a cycle: an interrupted cycle has its series paused_interrupted on it for the reason "interrupted", one waiting for the user paused_user likewise, a finished one has closed its request and settled its series, and any other leaves both as they were |
| ReconcileOutcomes.ClaimWithoutCycle | src/personal_agent_gateway/team_cycles.py:1090-1106 | a dispatching request without a cycle is queued again, otherwise unchanged |
| ReconcileOutcomes.ReconcileDecides | src/personal_agent_gateway/team_cycles.py:1090-1106 | the whole reconcile: each leftover claim is handled by its cycle, every other row is as before until one tick over the series due by then, and the runnable runs are listed |
| CycleQueue.FirstIsNext | src/personal_agent_gateway/team_cycles.py:1064-1088 | position 1 is exactly the request the next claim takes |
| CycleQueue.TakenByItsClaim | src/personal_agent_gateway/team_cycles.py:479-517 | a request at queue position k is taken by exactly the k-th successful claim |
| CycleQueue.RequeueRestoresPlaces | src/personal_agent_gateway/team_cycles.py:1119-1138 | requeueing a claim restores the place of every queued request, whatever joined the queue since |
| CycleReconcile.ReconcileConverges | src/personal_agent_gateway/team_cycles.py:1090-1106 | after reconcile every dispatching request has a non-terminal cycle, no series is due, and exactly the runs with claimable work are listed; it fails only for want of an objective |
| CycleReconcile.ReconcileTwice | src/personal_agent_gateway/team_cycles.py:1090-1106 | a second reconcile at the same instant changes nothing and lists the same runs |
| CycleReconcile.DispatchingList | src/personal_agent_gateway/team_cycles.py:1108-1117 | lists exactly the dispatching requests, each once |
| CycleReconcile.RunnableRuns | src/personal_agent_gateway/team_cycles.py:1156-1175 | lists exactly the runs with claimable work, each once |
| CycleReconcile.DueSeries | src/personal_agent_gateway/team_cycles.py:862-872 | selects exactly the due series, each once |
| CycleService.TeamCycleService.EnqueueRow | src/personal_agent_gateway/team_cycles.py:1357-1523 | the row-by-row insertion leaves the tables of the specification, or leaves them unchanged with its error |
| CycleService.TeamCycleService.InitializeAutoSeries | src/personal_agent_gateway/team_cycles.py:392-477 | creates the series row and its first request, or rolls back |
| CycleService.TeamCycleService.CreateAutoSeries | src/personal_agent_gateway/team_cycles.py:358-390 | checks the run, then initializes the series |
| CycleService.TeamCycleService.RestartAutoSeries | src/personal_agent_gateway/team_cycles.py:683-715 | starts a new series with the latest one's target and interval, if that one is completed |
| CycleService.TeamCycleService.ClaimNext | src/personal_agent_gateway/team_cycles.py:479-517 | claims the first queued request of the run, or none |
| CycleService.TeamCycleService.SettleCycle | src/personal_agent_gateway/team_cycles.py:519-615 | settles or pauses by the cycle's status, with the settlement the specification returns |
| CycleService.TeamCycleService.SettleAutoSlot | src/personal_agent_gateway/team_cycles.py:1591-1621 | counts the slot and completes the series or sets its alarm |
| CycleService.TeamCycleService.PauseCycle | src/personal_agent_gateway/team_cycles.py:1561-1589 | pauses the series of a dispatching request; the transition flag says whether anything changed |
| CycleService.TeamCycleService.PauseCycleById | src/personal_agent_gateway/team_cycles.py:1525-1559 | pauses a cycle only in the expected status |
| CycleService.TeamCycleService.ContinueAfterFailure | src/personal_agent_gateway/team_cycles.py:617-632 | settles the failed slot and frees the next |
| CycleService.TeamCycleService.RetryAfterFailure | src/personal_agent_gateway/team_cycles.py:634-681 | queues a retry with the number of requests already in the slot plus one |
| CycleService.TeamCycleService.TickSeries | src/personal_agent_gateway/team_cycles.py:873-935 | one due series: queue the next slot or complete the series |
| CycleService.TeamCycleService.TickSelected | src/personal_agent_gateway/team_cycles.py:873-936 | the loop over the selected series; an error rolls all of it back |
| CycleService.TeamCycleService.EnqueueDueAutoRequests | src/personal_agent_gateway/team_cycles.py:852-936 | selects the due series in order and handles them in one transaction |
| CycleService.TeamCycleService.CancelRun | src/personal_agent_gateway/team_cycles.py:1177-1355 | every update of a cancellation, and the changed flag |
| CycleService.TeamCycleService.MarkRequestSettled | src/personal_agent_gateway/team_cycles.py:997-1017 | settles a live request, refuses a canceled one |
| CycleService.TeamCycleService.RequeueClaim | src/personal_agent_gateway/team_cycles.py:1119-1138 | puts a claim without a cycle back in the queue |
| CycleService.TeamCycleService.ReconcileStartup | src/personal_agent_gateway/team_cycles.py:1090-1106 | the loop over leftover claims, the tick and the list |
| SourceIds.SlotSourcesAreDistinct | src/personal_agent_gateway/team_cycles.py:1710-1711 | series, slot and attempt can be read off a source id, for series ids without a colon |
| Timestamps.TextOrderIsTimeOrder | src/personal_agent_gateway/team_cycles.py:1703-1707 | for all timezone-aware values, with or without a fraction, text order is instant order and equal texts are equal instants |
| Timestamps.FieldsOfInstant | src/personal_agent_gateway/team_cycles.py:1703-1707 | every instant in range is written by valid UTC fields that denote it |
| Timestamps.IsoOrder | src/personal_agent_gateway/team_cycles.py:1703-1707 | the printed texts of two valid dates and times compare as their fields, the missing fraction first |
| Timestamps.DaysInClosedForm | src/personal_agent_gateway/team_cycles.py:1703-1707 | the days before a year are those of the Gregorian calendar in closed form |
| KnowledgeAttempts.SourceRecovers | src/personal_agent_gateway/team_cycles.py:49-53 | the id and the attempt number are recovered from every source id |
| KnowledgeAttempts.LikePrefix | src/personal_agent_gateway/team_cycles.py:235-247 | a LIKE pattern without wildcards but the final one matches exactly the texts with that prefix up to ASCII case |
| KnowledgeAttempts.MatchesIffSameFolded | src/personal_agent_gateway/team_cycles.py:235-247 | an id selects the later attempts of exactly the ids equal to it up to ASCII case |
| KnowledgeRequests.SelectedIsOwn | src/personal_agent_gateway/team_cycles.py:235-247 | for ids that stay apart the select finds exactly the rows of its id |
| KnowledgeRequests.KnowledgeStep | src/personal_agent_gateway/team_cycles.py:223-277 | a knowledge request returns a live request of its own id: the one already there, or a new attempt numbered one higher |
| KnowledgeRequests.NewAttemptIsUnknown | src/personal_agent_gateway/team_cycles.py:255-277 | a new attempt never collides with an old row |
| KnowledgeRequests.AttemptsInEveryHistory | src/personal_agent_gateway/team_cycles.py:223-277 | over every history the attempts of every id are numbered 1..n without gaps and at most the last is live |
| KnowledgeRequests.LatestIsHighest | src/personal_agent_gateway/team_cycles.py:752-773 | the latest attempt looked up is the highest numbered one |
| KnowledgeOutcomes.AskingDecides | src/personal_agent_gateway/team_cycles.py:223-277 | asking for an id returns its live attempt and changes nothing when there is one; otherwise it queues attempt n + 1 after n earlier ones, under the stored name, with the instruction and context asked for, exactly when the run takes such requests |
| KnowledgeRequests.SelectedIsOwnIff | src/personal_agent_gateway/team_cycles.py:235-247 | on any tables, the select of an id without wildcards finds exactly the rows of that id if and only if it returns no row from which another id is recovered |
| KnowledgeRequests.ForeignIffCaseVariant | src/personal_agent_gateway/team_cycles.py:235-254 | among the source ids of plain ids, the foreign rows it returns are exactly the later attempts of ids equal up to ASCII case |
| KnowledgeExamples.CaseVariantsInterfere | src/personal_agent_gateway/team_cycles.py:235-254 | a history from empty tables: after two attempts of one id, asking for the other-case id hands back the second of them |
| Delegation.AttachedIff | src/personal_agent_gateway/team_cycles.py:279-324 | a request without artifacts yet takes exactly ids that are distinct, not blank, known, and whose files are there |
| Delegation.AttachDecides | src/personal_agent_gateway/team_cycles.py:279-324 | artifacts are set once, to the trimmed ids; later only the same list is accepted; a blank or repeated id, or the first one unknown or without a file, refuses them |
| Dispatcher.LostWakeUpHasCulprit | src/personal_agent_gateway/team_cycle_dispatcher.py:152-310 | over every interleaving: if a run has claimable work that nobody is going to look at, some earlier action left it so, and it is an actor that stopped between its transaction and enqueue_run, a failed create_cycle, a reopening of the canceled run, or a request of it settled by hand |
| Dispatcher.NoLostWakeUp | src/personal_agent_gateway/team_cycle_dispatcher.py:152-310 | a run that none of these four touches is never forgotten: with claimable work its id is in the queue, or with an actor about to enqueue or to claim it |
| Dispatcher.OkInEveryExecution | src/personal_agent_gateway/team_cycle_dispatcher.py:152-310 | every interleaving keeps the coupling, at most one request of a run is dispatching, and a worker's claim is a request of the run it took |
| Dispatcher.BrokenPromiseWakesIff | src/personal_agent_gateway/team_cycle_dispatcher.py:128-129 | an actor that stops after its transaction loses the wake-up exactly when the run has claimable work and neither the queue, nor a worker, nor a second promise knows of it |
| Dispatcher.SettledByHandWakesIff | src/personal_agent_gateway/team_cycle_dispatcher.py:152-165 | marking a request settled past the observers loses the wake-up exactly when it was the one being dispatched, another request waits behind it, and nobody is about to look |
| Dispatcher.RunnableOnlyIfWoken | src/personal_agent_gateway/team_cycle_dispatcher.py:259-310 | apart from reopenings and requests settled by hand, a run becomes runnable only by a step whose actor goes on to enqueue it |
| Dispatcher.ClaimLeavesNothingRunnable | src/personal_agent_gateway/team_cycle_dispatcher.py:152-165 | after a worker's claim attempt the run is not runnable |
| Dispatcher.CreateFailureWakesIff | src/personal_agent_gateway/team_cycle_dispatcher.py:160-167 | when creating the cycle fails, the run stays noticed exactly when the claim can no longer be requeued, the run was canceled meanwhile, or somebody else is already about to look at it |
| DispatcherExamples.CreateFailureIsForgotten | src/personal_agent_gateway/team_cycle_dispatcher.py:160-167 | an execution from empty tables in which the only worker's create_cycle fails and the request is forgotten |
| DispatcherExamples.SettledByHandIsForgotten | src/personal_agent_gateway/team_cycle_dispatcher.py:152-165 | an execution from empty tables in which the request behind one settled by hand is forgotten |
| Dispatcher.NeverQueuedAgain | src/personal_agent_gateway/team_cycle_dispatcher.py:152-257 | a request that has a cycle is never queued again |
| Dispatcher.RestartIsAwake | src/personal_agent_gateway/team_cycle_dispatcher.py:331-347 | after a restart the listed runs cover everything claimable |
| DispatcherOutcomes.QueueIsFifo | src/personal_agent_gateway/team_cycle_dispatcher.py:128-129 | over every stretch of steps without an emergency stop or restart, the runs taken and then those still queued are those queued before and those pushed since, in order |
| DispatcherOutcomes.OnlyOwnTurns | src/personal_agent_gateway/team_cycle_dispatcher.py:448-460 | a worker changes in its own turns only; a stop or a restart frees all of them and empties the queue |
| DispatcherOutcomes.ClaimTurn | src/personal_agent_gateway/team_cycle_dispatcher.py:152-158 | a worker goes on with the head of its run's queue, or is free and has changed nothing when there is nothing to claim |
| DispatcherOutcomes.CreateTurn | src/personal_agent_gateway/team_cycle_dispatcher.py:160-190 | a worker drives the cycle its request has, or a new queued one of it |
| DispatcherOutcomes.FailTurn | src/personal_agent_gateway/team_cycle_dispatcher.py:160-167 | when the cycle cannot be created the worker is free, and a claim without a cycle is back in the queue |
| DispatcherOutcomes.SettlementWakesIff | src/personal_agent_gateway/team_cycle_dispatcher.py:259-310 | an observer wakes the run of a cycle exactly when it settles the cycle first and work of the run waits behind it |
| DispatcherService.TeamCycleDispatcher.EnqueueRun | src/personal_agent_gateway/team_cycle_dispatcher.py:128-129 | puts a run id at the end of the queue |
| DispatcherService.TeamCycleDispatcher.TakeRun | src/personal_agent_gateway/team_cycle_dispatcher.py:448-460 | a free worker takes the first run id |
| DispatcherService.TeamCycleDispatcher.RunOneClaim | src/personal_agent_gateway/team_cycle_dispatcher.py:152-165 | claims for the held run, or lets the worker go |
| DispatcherService.TeamCycleDispatcher.RunOneCreate | src/personal_agent_gateway/team_cycle_dispatcher.py:160-190 | creates the cycle; if that fails for whatever reason, requeues the claim when it still can be, and lets the worker go without waking anyone |
| DispatcherService.TeamCycleDispatcher.OnTeamRunSettled | src/personal_agent_gateway/team_cycle_dispatcher.py:259-310 | settles the cycle and enqueues the run exactly when the settlement leaves claimable work |
| DispatcherService.TeamCycleDispatcher.DiscardPending | src/personal_agent_gateway/team_cycle_dispatcher.py:117-123 | empties the queue |
| DispatcherService.TeamCycleDispatcher.Tick | src/personal_agent_gateway/team_cycle_loop.py:34-53 | runs the timer transaction, then promises the run of each created request |
| DispatcherOutcomes.TimerWakesIff | src/personal_agent_gateway/team_cycle_loop.py:34-53 | the timer wakes exactly the runs of the requests it has queued |
| Dispatcher.ReopenWakesIff | src/personal_agent_gateway/api/team_runs.py:1319-1360 | reopening a canceled run keeps it noticed exactly when it has nothing to claim or somebody is about to look at it anyway |
| DispatcherExamples.ReopenedIsForgotten | src/personal_agent_gateway/api/team_runs.py:1319-1360 | an execution from empty tables in which a reopened run with a queued request is forgotten |
| CursorTexts.LongNameStallsPaging | src/personal_agent_gateway/api/team_runs.py:1474-1505 | two documents, one with sixty Hangul syllables in its name: the first page of one hands out a cursor that the next fetch refuses |
| Delegation.DelegationWakesIff | src/personal_agent_gateway/api/archive.py:100-154 | a delegation whose request is accepted leaves the run noticed exactly when its artifacts and its team are accepted too, or there is nothing to claim, or somebody was about to look anyway |
| Delegation.PromisedIsStep | src/personal_agent_gateway/api/archive.py:118-131 | the first transaction is the enqueueing of a new attempt, or, when the id already has a live request, a promise to enqueue the run alone |
| DispatcherExamples.RefusedDelegationIsForgotten | src/personal_agent_gateway/api/archive.py:100-154 | an execution from empty tables: an owner delegates with the artifact id "nope", is refused, and the request stays queued with nobody to look at it |
| CycleOutcomes.CreateCycleIff | src/personal_agent_gateway/teams.py:471-572 | a cycle is created for a dispatching request, queued and linked to it; a request that has one gets that one back, and nothing changes |
| CycleOutcomes.PublishStopsForUser | src/personal_agent_gateway/teams.py:2991-3110 | a published decision stops its cycle and its series for the user, exactly while the cycle runs under a dispatching request of an open series |
| CycleOutcomes.AnswerResumes | src/personal_agent_gateway/teams.py:3112-3200 | an answer sets both running again |
| Dispatcher.CancelAllClosesAll | src/personal_agent_gateway/team_cycles.py:1031-1062 | it leaves no run with claimable work |
| DispatcherOutcomes.CancelAllDecides | src/personal_agent_gateway/team_cycles.py:1031-1062 | every continuous run with a queued or dispatching request, or a series that is neither completed nor canceled, has all its rows canceled and nothing of it is left open; every row of every other run is as before |
| EventStreamSpec.ReadTakesEvents | src/personal_agent_gateway/remote_model_client.py:173-350 | reading meets no fault exactly when the lines up to the first terminal frame decode to events that can all be taken |
| EventStreamSpec.TakenIffConforms | src/personal_agent_gateway/remote_model_client.py:191-229 | the events can be taken exactly when they conform: one start, first; nothing after a terminal; one run id; one upstream session |
| EventStreamSpec.FrameTakesMeaning | src/personal_agent_gateway/remote_model_client.py:173-190 | a frame is refused exactly when its block means no event |
| EventStreamTheorems.OutcomeOfStream | src/personal_agent_gateway/remote_model_client.py:173-350 | a stream that is one well-formed run gives the result of its terminal event; every other stream is a protocol error |
| EventStreamTheorems.StateOfStream | src/personal_agent_gateway/remote_model_client.py:173-229 | without a fault the callback saw exactly the non-terminal events in order, and partial_content, the session and the kept session are those of the events |
| EventStreamTheorems.ResponseIff | src/personal_agent_gateway/remote_model_client.py:173-424 | a response comes back exactly when the stream is one well-formed run ending in run.completed with valid tool calls; its content, its session and its calls, one for one and each under the name of the tool it was offered as, are those of that run |
| EventStreamTheorems.ResponseOfTerminal | src/personal_agent_gateway/remote_model_client.py:406-424 | a terminal event gives a response exactly when it is run.completed with valid tool calls |
| EventStreamTheorems.FailureOfTerminal | src/personal_agent_gateway/remote_model_client.py:426-451 | a failure may leave its code out but not invent one, an abort must name a known one, and neither turns into the other or into a response |
| EventStreamTheorems.FailureKeepsPartialIff | src/personal_agent_gateway/remote_model_client.py:426-451 | a failed or aborted run keeps the accumulated partial text exactly when its terminal event repeats it or there was none |
| EventStreamTheorems.FailureLosesPartial | src/personal_agent_gateway/remote_model_client.py:426-451 | a stream that says "hi" and then fails without repeating it: the failure reports no text |
| EventStreamTheorems.DecodedIsEvent | src/personal_agent_gateway/remote_model_client.py:353-376 | what the decoder accepts is an event of the named kind with well-shaped fields |
| EventStreamTheorems.CallsOfAll | src/personal_agent_gateway/remote_model_client.py:584-604 | tool calls are parsed all or nothing, in order, each under the name of the tool offered under its wire name, or under its own |
| EventStreamTheorems.LaterLinesIgnored | src/personal_agent_gateway/remote_model_client.py:273-292 | no line after the first terminal frame affects the outcome |
| EventStreamTheorems.NeverAfterTerminal | src/personal_agent_gateway/remote_model_client.py:206-209 | the duplicate_terminal and event_after_terminal refusals are unreachable |
| EventStreamTheorems.CommentsIgnored | src/personal_agent_gateway/remote_model_client.py:279-280 | inserting a comment line anywhere changes nothing |
| EventStreamTheorems.ExtraBlankLines | src/personal_agent_gateway/remote_model_client.py:274-278 | extra blank lines between frames change nothing |
| EventStreamTheorems.PrintedIsDelivered | src/personal_agent_gateway/remote_model_client.py:273-292 | events printed as frames are decoded back, up to the first terminal one |
| EventStreamTheorems.PrintedRunIsReadBack | src/personal_agent_gateway/remote_model_client.py:173-350 | any conforming run printed as frames is accepted and its non-terminal events reach the callback in order |
| EventStreamTheorems.PartialSinceSnapshot | src/personal_agent_gateway/remote_model_client.py:218-221 | after a snapshot only its own text and the later deltas count |
| EventStreamTheorems.KeptSession | src/personal_agent_gateway/remote_model_client.py:211-217 | the session kept for later is the earlier one or this run's; an existing session never changes |
| EventStreamTheorems.NamesComeBackIff | src/personal_agent_gateway/remote_model_client.py:572-604 | an offered tool goes out with its dot as an underscore and comes back as itself; any name comes back as it went out exactly when it is not the wire name of a tool |
| EventStreamOutcomes.OutcomeDecided | src/personal_agent_gateway/remote_model_client.py:131-350 | the outcome of every stream: what its terminal event says when its events conform and that event is sound, and otherwise the fault of the first flaw, with code, diagnostic, text and session |
| EventStreamOutcomes.FaultOfStream | src/personal_agent_gateway/remote_model_client.py:173-350 | a fault comes from the first block that is refused after events that were all taken, names the first flaw of that block, and the client has seen just those events |
| EventStreamOutcomes.TerminalDecides | src/personal_agent_gateway/remote_model_client.py:387-451 | which terminal events are sound, what each says, with default codes and reasons, token counts and calls, and why the others are refused |
| EventStreamOutcomes.DecodedIff | src/personal_agent_gateway/remote_model_client.py:353-376 | a text is an event of the named kind exactly when it is an object of one of thirteen kinds with a run id and well-typed fields; otherwise the first thing wrong is named |
| EventStreamOutcomes.FrameIff | src/personal_agent_gateway/remote_model_client.py:173-190 | a block delivers an event exactly when it has one event line, and its data lines, trimmed and joined, are that event |
| EventStreamOutcomes.BlocksAreTheLines | src/personal_agent_gateway/remote_model_client.py:273-278 | a stream is cut into blocks at its blank lines and at no other line |
| EventStreamOutcomes.TextOfRun | src/personal_agent_gateway/remote_model_client.py:218-224 | the text of a run is the partial text of its terminal event, or else the last snapshot and the deltas since, or all deltas |
| EventStreamOutcomes.SessionOfRun | src/personal_agent_gateway/remote_model_client.py:211-215 | the session of a run is the one its events name, or else the one known before |
| EventStreamOutcomes.KeptOfRun | src/personal_agent_gateway/remote_model_client.py:216-217 | it is kept for later runs exactly when an event updated it |
| RemoteModelClient.HttpModelClient.TakeEvent | src/personal_agent_gateway/remote_model_client.py:191-229 | the checks and updates for one event have the specified result, and a refusal leaves what was observed |
| RemoteModelClient.HttpModelClient.BeginEvent | src/personal_agent_gateway/remote_model_client.py:192-204 | the first event must start the run, no other may, and all name the same run |
| RemoteModelClient.HttpModelClient.UpdatePartial | src/personal_agent_gateway/remote_model_client.py:218-224 | deltas append, snapshots replace, and a terminal partial_content overrides |
| RemoteModelClient.HttpModelClient.UpdateSession | src/personal_agent_gateway/remote_model_client.py:211-217 | only session.updated changes the session kept for later runs |
| RemoteModelClient.HttpModelClient.HandleFrame | src/personal_agent_gateway/remote_model_client.py:173-190 | a frame is processed as specified |
| RemoteModelClient.HttpModelClient.HandleLine | src/personal_agent_gateway/remote_model_client.py:273-291 | one line is processed as specified |
| RemoteModelClient.HttpModelClient.ReadLines | src/personal_agent_gateway/remote_model_client.py:273-292 | the line loop, its early exit and the trailing frame compute the specified reading |
| RemoteModelClient.HttpModelClient.CompleteOperation | src/personal_agent_gateway/remote_model_client.py:131-350 | the outcome, the delivered events and the kept session are those of the lines read |
| RemoteModelClient.ParseToolCalls | src/personal_agent_gateway/remote_model_client.py:584-604 | the loop computes the specified calls or the first refusal |
| Paging.WalkListsAll | src/personal_agent_gateway/session_activity.py:100-129 | following the cursors to the end gives the rows listed at the first fetch, once each and in order, for any limit and whatever is added above meanwhile; every page but the last has the size asked for, brought into 1..cap, and none is empty unless nothing is listed |
| Paging.WalkEnds | src/personal_agent_gateway/session_activity.py:100-129 | following the cursors ends |
| Paging.ListingBelow | src/personal_agent_gateway/session_activity.py:103-120 | below the key of a row lies exactly the rest of the listing |
| SessionActivity.TextPagesAreTheList | src/personal_agent_gateway/session_activity.py:100-129 | the same by the cursor texts that each page hands out and takes back |
| SessionActivity.PagesAreTheList | src/personal_agent_gateway/session_activity.py:87-129 | paging back while more is recorded, the pages put together are the list at the first fetch |
| SessionActivity.ListingIsReverse | src/personal_agent_gateway/session_activity.py:87-98 | the descending select is the session's events reversed |
| SessionActivity.SessionActivityService.Record | src/personal_agent_gateway/session_activity.py:34-85 | the new event continues its session's numbers and the others are untouched |
| SessionActivity.SessionActivityService.DeleteSession | src/personal_agent_gateway/session_activity.py:131-135 | removes exactly the session's events |
| SessionActivity.SessionActivityService.FetchPage | src/personal_agent_gateway/session_activity.py:100-129 | one page oldest first with its cursor text; an undecodable cursor is refused |
| JobPages.JobPagesAreTheList | src/personal_agent_gateway/jobs.py:126-203 | following the cursors of a filtered job list gives every passing job once, newest first, ties included |
| JobPages.EventPagesAreTheList | src/personal_agent_gateway/jobs.py:205-240 | the pages of a job's events give every event once, in order |
| JobPages.JobTextPagesAreTheList | src/personal_agent_gateway/jobs.py:158-203 | following the cursor texts of a filtered job list gives every passing job once, newest first, ties included |
| JobPages.JobTextWalkEnds | src/personal_agent_gateway/jobs.py:158-203 | with printable instants and ids of at most 32 characters that walk is never refused and ends |
| Cursors.BytesRoundTrip | src/personal_agent_gateway/pagination.py:6-8 | base64url without padding recovers every byte string, four characters for three bytes |
| Cursors.SextetsAreBits | src/personal_agent_gateway/pagination.py:6-8 | character k of a cursor stands for the k-th six bits of its bytes |
| CursorTexts.DumpedStamp | src/personal_agent_gateway/pagination.py:6-8 | the text inside a cursor of a printable instant and id is the two in quotes, with a comma between and no blanks |
| Cursors.CursorRoundTripIff | src/personal_agent_gateway/pagination.py:6-21 | an emitted cursor decodes back to its key exactly when its JSON text has at most 384 bytes |
| CursorTexts.CursorAcceptedIff | src/personal_agent_gateway/pagination.py:6-21 | the same for the text as json.dumps writes it, with every character outside printable ASCII escaped |
| CursorTexts.NextFetchIff | src/personal_agent_gateway/pagination.py:6-21 | the fetch after a page is refused exactly when the key of the page's last row does not fit |
| CursorTexts.TextWalkListsAll | src/personal_agent_gateway/pagination.py:6-21 | handing each cursor text back until none is returned gives the rows listed at the first fetch, once each and in order, whatever is added above meanwhile |
| CursorTexts.TextWalkEnds | src/personal_agent_gateway/pagination.py:6-21 | when every key fits, following the texts is never refused and ends |
| CursorTexts.PrintableKeysFit | src/personal_agent_gateway/pagination.py:6-21 | a printable created_at and id fit exactly when they have at most 377 characters together |
| PeerNotes.LabelsNameAgents | src/personal_agent_gateway/team_collaboration_service.py:29-39 | a label names an agent of the run that has it |
| PeerNotes.WorkersHaveLabels | src/personal_agent_gateway/team_collaboration_service.py:29-39 | every worker has the label of its place, and no other agent takes it |
| PeerNotesTheorems.RecordAllOrNone | src/personal_agent_gateway/team_collaboration_service.py:41-89 | record_mentions stores all notes, each addressed to another agent of the run and waiting for it, or none |
| PeerNotesTheorems.ResolvedInOrder | src/personal_agent_gateway/team_collaboration_service.py:60-74 | resolving the labels is all or nothing and in order, and reports the first refusal |
| PeerNotesTheorems.RecordedWhileOthersAct | src/personal_agent_gateway/team_collaboration_service.py:41-89 | with every note a commit of its own and any steps of others in between, each note stored so far is there at any later moment, addressed as its label said when the recording began, and listed until an operation carrying it is applied |
| PeerNotesTheorems.UndeliveredIff | src/personal_agent_gateway/team_collaboration_service.py:91-112 | a note is undelivered exactly when no applied operation carries it |
| PeerNotesTheorems.OpenedHoldsExactly | src/personal_agent_gateway/team_collaboration_service.py:136-174 | a new delivery holds exactly the notes it was opened with |
| PeerNotesTheorems.DeliveryNeverChanges | src/personal_agent_gateway/team_collaboration_service.py:136-196 | an operation key, once opened, carries the same notes in the same order for good |
| PeerNotesTheorems.NoteLeavesOnlyApplied | src/personal_agent_gateway/team_collaboration_service.py:91-112 | a note leaves undelivered only when an operation whose delivery carries it is applied, or is carried by an operation already applied |
| PeerNotesTheorems.NoNoteIsLost | src/personal_agent_gateway/team_collaboration_service.py:41-112 | at every later moment a stored note is listed for its agent or carried by an applied operation |
| PeerNotesTheorems.CountIsSumOverAgents | src/personal_agent_gateway/team_collaboration_service.py:198-210 | the run-wide count is the sum over its agents |
| PeerNotesOutcomes.RecipientIff | src/personal_agent_gateway/team_collaboration_service.py:29-74 | a mention goes to the last agent of the run called so, LEAD or W- and the two-digit number of the worker; it is refused when that is the sender or nobody is called so |
| PeerNotesOutcomes.ListedOldestFirst | src/personal_agent_gateway/team_collaboration_service.py:91-134 | waiting notes and the notes of a delivery are listed once each, by created_at and then id |
| PeerNotesOutcomes.OpenIff | src/personal_agent_gateway/team_collaboration_service.py:136-174 | a key that has a delivery gives it back unchanged; otherwise one delivery row and an item per note, in order, are added, unless a note is named twice |
| PeerNotesOutcomes.ApplyingDelivers | src/personal_agent_gateway/team_collaboration_service.py:91-112 | applying an operation delivers exactly the notes its delivery holds, besides those delivered before |
| PeerNotesService.TeamCollaborationService.LabelsForRun | src/personal_agent_gateway/team_collaboration_service.py:29-39 | the loop fills the specified labels |
| PeerNotesService.TeamCollaborationService.RecordMentions | src/personal_agent_gateway/team_collaboration_service.py:41-89 | resolves every label before it stores anything, then stores note by note |
| PeerNotesService.TeamCollaborationService.StoreNote | src/personal_agent_gateway/team_collaboration_service.py:76-89 | stores one note |
| PeerNotesService.TeamCollaborationService.OpenDeliveryRow | src/personal_agent_gateway/team_collaboration_service.py:136-174 | keeps an existing delivery; a repeated item rolls everything back |
| ArchiveTheorems.StepKeepsShelfOk | src/personal_agent_gateway/archive.py:208-983 | every whole call keeps: revisions exactly 1..current_revision with the highest equal to the entry, one index row per published entry and every index row current, requests fulfilled exactly when they point at an entry, and published text outside team notes written by the user |
| ArchiveTheorems.ShelfInEveryHistory | src/personal_agent_gateway/archive.py:208-983 | the same after any sequence of calls that do not overlap |
| ArchiveSchedules.BrokenShelfHasLateWrite | src/personal_agent_gateway/archive.py:208-983 | with overlapping calls, where a status change, a recorded failure, an assignment and archiving check first and write in a statement of their own: an inconsistent state always has an earlier write, on a consistent one, to a request fulfilled since its check |
| ArchiveSchedules.OkInEverySchedule | src/personal_agent_gateway/archive.py:208-983 | so without such a late write every reachable state of every schedule is consistent |
| ArchiveSchedules.WrittenKeepsOkIff | src/personal_agent_gateway/archive.py:755-983 | such a write keeps the archive consistent exactly when the request is not fulfilled by then |
| ArchiveSchedules.CheckedThenWritten | src/personal_agent_gateway/archive.py:755-983 | with nothing in between, check and write are the one step of the archive |
| ArchiveSchedules.DismissalCrossesPublication | src/personal_agent_gateway/archive.py:885-895 | a schedule from the empty archive: a request is dismissed while an entry is published for it, and ends dismissed but pointing at that entry |
| ArchiveTheorems.PublishKeepsOk | src/personal_agent_gateway/archive.py:208-313 | a publication is published with the validated text and fulfils its request |
| ArchiveTheorems.ValidatedIsBounded | src/personal_agent_gateway/archive.py:1184-1204 | stored text is within its limits; tags and links are distinct and within theirs |
| ArchiveTheorems.DraftTwice | src/personal_agent_gateway/archive.py:315-429 | saving a draft again for the same source returns the first one and changes nothing |
| ArchiveTheorems.DeletionRemovesRows | src/personal_agent_gateway/archive.py:600-650 | deletion removes every row of the entry and leaves the others alone |
| ArchiveTheorems.DeletionReopens | src/personal_agent_gateway/archive.py:600-650 | deletion reopens the requests the entry fulfilled and the one in progress that it came from, and no other |
| ArchiveTheorems.TeamRewritesPublished | src/personal_agent_gateway/archive.py:517-545 | a team note that was published stays published when the team rewrites it |
| ArchiveTheorems.OnlyTeamsRewrite | src/personal_agent_gateway/archive.py:208-650 | an entry last written by the user stops being so in exactly the steps in which a team saves it as its note |
| ArchiveSchedules.NoteIsRewritten | src/personal_agent_gateway/archive.py:517-545 | a schedule from the empty archive: saved by the team, published by the user, saved again by the team |
| ArchiveOutcomes.ValidatedIff | src/personal_agent_gateway/archive.py:1184-1204 | a document is stored trimmed and cut, with its lists deduplicated in order, exactly when its kind is known and its title and content fit; otherwise the first thing wrong is named |
| ArchiveOutcomes.PublishDecides | src/personal_agent_gateway/archive.py:208-313 | when a publication is accepted, and every row it writes: entry, revision, search row, bindings and request, all others unchanged |
| ArchiveOutcomes.SaveDraftDecides | src/personal_agent_gateway/archive.py:315-429 | a draft of a source that has one is that one, unchanged; a new source gets a new draft with one revision, bindings and origin |
| ArchiveOutcomes.SaveNoteDecides | src/personal_agent_gateway/archive.py:431-575 | the first note of a team is a new searchable draft, the next ones rewrite that entry in its status |
| ArchiveOutcomes.DeleteDecides | src/personal_agent_gateway/archive.py:600-650 | a deletion keeps all other rows in order and says what becomes of every request |
| ArchiveOutcomes.AssignTeamDecides | src/personal_agent_gateway/archive.py:952-983 | a team takes a request that waits, or that it already has; that clears the failure |
| ArchiveService.ArchiveService.PublishEntry | src/personal_agent_gateway/archive.py:208-313 | writes entry, revision, bindings, index row and request, or nothing |
| ArchiveService.ArchiveService.SaveDraftEntry | src/personal_agent_gateway/archive.py:315-429 | writes a new draft and its origin, or returns the existing one |
| ArchiveService.ArchiveService.SaveNote | src/personal_agent_gateway/archive.py:431-575 | creates or rewrites the one note of a team |
| ArchiveService.ArchiveService.RemoveEntry | src/personal_agent_gateway/archive.py:600-650 | reopens requests, then removes every row of the entry |
| ArchiveService.ArchiveService.ReplaceBindings | src/personal_agent_gateway/archive.py:1112-1134 | replaces the bindings of an entry by its personas, or by the global one |
| ArchiveService.ArchiveService.IndexEntry | src/personal_agent_gateway/archive.py:1137-1159 | replaces the index row of an entry |
| ReportIndexMerge.MergeGives | src/personal_agent_gateway/team_delivery.py:515-530 | when the target has a bullet, the merge holds every bullet of both sides once, newest first, between the target's lines before its first and after its last bullet |
| ReportIndexMerge.BulletsCommute | src/personal_agent_gateway/team_delivery.py:515-530 | the bullet list does not depend on side order |
| ReportIndexMerge.MergeTwice | src/personal_agent_gateway/team_delivery.py:515-530 | the merge is idempotent |
| ReportIndexMerge.MergeOrderIrrelevant | src/personal_agent_gateway/team_delivery.py:515-530 | two sides can be merged into the target in either order |
| ReportIndexMerge.FileMerge | src/personal_agent_gateway/team_delivery.py:515-530 | the same for whole files: the merged file splits into the merged lines, and merging again changes nothing |
| RegistryMerge.MergeGives | src/personal_agent_gateway/team_delivery.py:538-574 | the merged registry lists one document per path of either side, the target's where it has one, in path order, with document_count their number and every other field the target's |
| RegistryMerge.MergesIff | src/personal_agent_gateway/team_delivery.py:543-561 | registries merge exactly when both are objects with lists of documents that have a path |
| RegistryMerge.MergeTwice | src/personal_agent_gateway/team_delivery.py:538-574 | the registry merge is idempotent |
| RegistryMerge.CollectByPath | src/personal_agent_gateway/team_delivery.py:555-562 | the loop collects the last document of each path, or gives up at the first that is not one |
| MergeOutcomes.IndexMerged | src/personal_agent_gateway/team_delivery.py:515-535 | the merged index is the target with its stretch of bullets replaced by the bullets of both sides, each once, newest first by the first date and time after an em dash, then in descending text order |
| MergeOutcomes.StampOfLine | src/personal_agent_gateway/team_delivery.py:534-535 | a report line is keyed by the first date and time that follows an em dash |
| MergeOutcomes.SplitAreLines | src/personal_agent_gateway/team_delivery.py:516-519 | the lines of a file, put together with the boundaries they were split at, are the file |
| MergeOutcomes.RegistryMerged | src/personal_agent_gateway/team_delivery.py:538-574 | for every path of either side, in ascending order, the last document of the target or else of the team is listed, the report index with a fresh excerpt |
| SessionRegistry.StepKeepsWorldOk | src/personal_agent_gateway/run_state.py:22-106 | with the lock sections as steps: running and deleting stay disjoint, and every attached task belongs to the current request of a running session |
| SessionRegistry.OkInEverySchedule | src/personal_agent_gateway/run_state.py:22-106 | the same in every schedule of any number of actors |
| SessionRegistry.NoRunDuringDelete | src/personal_agent_gateway/run_state.py:97-106 | from the step that begins a deletion to the one that ends it, in every schedule, the session does not run |
| SessionRegistry.RemovedByOwnFinish | src/personal_agent_gateway/run_state.py:52-60 | a run that left the registry or was replaced was finished under its own request or under none in between |
| SessionRegistry.LookedUpAfterStart | src/personal_agent_gateway/run_state.py:68-91 | whatever a cancel_all or an interrupt still has to do to a run, it decided after that run was started |
| SessionRegistry.RunDecides | src/personal_agent_gateway/run_state.py:29-60 | in any step, a session runs afterwards exactly when the step starts it while it is idle, or it ran and the step does not finish it |
| SessionRegistry.TaskDecides | src/personal_agent_gateway/run_state.py:52-66 | its task is the last one attached to the run it has |
| SessionRegistry.CancelDecides | src/personal_agent_gateway/run_state.py:68-91 | a task is canceled by an interrupt that looked it up, or by a cancel_all while it is attached |
| SessionRegistry.SessionRunRegistry.StartRun | src/personal_agent_gateway/run_state.py:29-37 | starts a run unless the session is running or being deleted |
| SessionRegistry.SessionRunRegistry.FinishRun | src/personal_agent_gateway/run_state.py:52-60 | removes the run and its task unless another request runs |
| SessionRegistry.SessionRunRegistry.AttachTask | src/personal_agent_gateway/run_state.py:62-66 | attaches a task to the current request only |
| SessionRegistry.SessionRunRegistry.FinishAll | src/personal_agent_gateway/run_state.py:76-91 | the last part of cancel_all removes exactly the runs of its snapshot that are still current |
| SessionRegistry.SessionRunRegistry.BeginDeletion | src/personal_agent_gateway/run_state.py:97-101 | marks the session as being deleted unless it is busy |
| EventBus.ResumeMissesOnlyEvicted | src/personal_agent_gateway/events.py:14-62 | a subscriber resuming after id n has been sent exactly the ids from max(n + 1, oldest kept) on, in order, once each |
| EventBus.SentSinceJoining | src/personal_agent_gateway/events.py:14-62 | whatever id a subscriber names, it has been sent an unbroken stretch of ids up to the newest, from the first kept id above the one it named |
| EventBus.ForeignIdMissesNothingIff | src/personal_agent_gateway/events.py:52-59 | a subscriber naming an id of an older stream has been sent everything kept exactly when the id is below the oldest kept one or nothing was kept |
| EventBus.ForeignIdWitness | src/personal_agent_gateway/events.py:52-59 | three kept events and two older ids: one hides two of them, the other all three |
| EventBus.OkInEveryHistory | src/personal_agent_gateway/events.py:14-62 | in every history the kept events and every queue are unbroken stretches of ids up to the newest |
| EventBus.DeliversInEveryHistory | src/personal_agent_gateway/events.py:14-62 | in every history the bus keeps the newest events published, with their payloads; a queue is live exactly from its subscription on and has been sent everything published since, after the kept events it asked for |
| EventBus.NothingIsMadeUp | src/personal_agent_gateway/events.py:14-59 | every event in a queue or in the history was published: its payload at the step that gave out its id |
| EventBus.EventBus.PublishEvent | src/personal_agent_gateway/events.py:14-46 | numbers the event, bounds the history and reaches every queue |
| EventBus.EventBus.SubscribeQueue | src/personal_agent_gateway/events.py:52-59 | replays the events above the resume id into the new queue |

## Left out

- CycleRuns.StepKeepsInv: assumes that callers of `enqueue_request` do not invent AUTO or retry source ids (`Canonical`), because the tick would then find the name taken; `CycleTimer.TickCouplesIffNameFree` gives the exact condition. It also leaves `mark_request_settled` to requests that are not live requests of a series, the exact condition of `CycleInvariant.MarkSettledKeepsInvIff`.
- Dispatcher.NoLostWakeUp: does not cover a run that an actor fails to enqueue after its transaction, whose create_cycle fails, that is reopened, or of which a request is settled by hand, because the wake-up can be lost then; the exact conditions are `Dispatcher.BrokenPromiseWakesIff`, `Dispatcher.CreateFailureWakesIff`, `Dispatcher.ReopenWakesIff` and `Dispatcher.SettledByHandWakesIff`.
- CycleCancel.ClosedForever: leaves to the environment whether it sets a cycle, an operation or a hook run of the run back to an open status; `set_cycle_status` (teams.py:1313-1346) would write it. `CycleCancel.StepKeepsClosedIff` gives the exact condition.
- ArchiveTheorems.ShelfInEveryHistory: takes each call as one step; `ArchiveSchedules.OkInEverySchedule` has the calls overlap.
- ArchiveSchedules.OkInEverySchedule: takes publishing, drafts, notes and deletions as single steps, although their first selects come before their first write; a second writer in that gap is stopped by the unique revision numbers, sources and foreign keys of the tables, which are not modelled.
- KnowledgeRequests.AttemptsInEveryHistory: is for ids without LIKE wildcards and separator of which no two differ only in ASCII case, because the select confuses the others (`KnowledgeAttempts.MatchesIffSameFolded`); Unicode digits in an attempt suffix are not modelled.
- Cursors.CursorRoundTripIff: decodes only characters of the base64url alphabet; the lenient skipping of others by the library is not modelled.
- CycleTables.NextQueued: an instant is an integer; `Timestamps.TextOrderIsTimeOrder` relates it to the stored text.
- Columns that decide nothing: `updated_at`, `started_at`, `completed_at`, the text of the previous summary, the hashes of input artifacts, the id lists in the result of `cancel_run`, and its updates of tasks, agents and decision rows.
- Deleting a run, freezing a run's policy and the cycle preparers of the dispatcher.
- `cancel_waiting_decision` (teams.py:3323-3421): the API calls it only for runs that are not continuous, which have no cycle requests.
- The repair in `reconcile_lifecycle` that forces a series to `paused_user` (teams.py:2597-2612).
- Publishing and answering decisions are modelled by their effect on cycle and series only.
- Due series with the same alarm are taken in row order; the order of their ids is not modelled, and no result depends on it.
- HTTP, retries, timeouts and exceptions raised by the event callback; reading JSON text is a parameter, as is the text of an excerpt.
- `consumer_run_id`, which is copied into every error of a run.
- Job status transitions and approvals: one-branch checks before one update.
- `list_jobs` and `list_events` order by `created_at` alone; the pages are compared with every order they may return.
- `browser_page` in artifacts.py.
- Full-text ranking, prompts, team note limits beyond length, personas beyond their existence, and the fields of an origin other than its source and request.
- `create_knowledge_request` returning an existing active request with the same title.
- Delivery sessions, worktrees and conflicts in team_delivery.py; digits other than ASCII in a report's time stamp.
- Whether a delivered note was displayed: a prompt shows at most ten.
- `TeamRunRegistry` and `EventScope`.
- Provider validation, configuration, authentication, backup and redaction.
