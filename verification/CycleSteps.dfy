/**
  One function per transaction of the cycle service: the tables before, the arguments, and
  either an error (the transaction rolls back) or the tables after with the value returned.
*/
module CycleSteps {
  import opened Outcomes
  import opened CycleTables

  datatype CycleError =
    | RunNotFound | RunIsCanceled | RunNotContinuous | WrongPolicy | UnsupportedSource | BlankSource
    | AutoNeedsSeries | TriggeredHasSeries | RetryNeedsLineage | LineageOnNonRetry | PreviousNotFinal
    | SeriesNotFound | SeriesOfOtherRun | SlotMissing | SeriesNotActive | SlotOutsideSeries | AutoLineageOnNonAuto
    | RequestNotFound | LineageMismatch | NotThePausedFailure | SeriesNotReady | SlotOccupied
    | CycleNotFound | CycleNotLinked | CycleNotReady | RequestNotDispatching | RequestHasCycle
    | SeriesNotPausedAfterFailure | NoFailedRequest | BadRepeatCount | NegativeInterval | AlreadyActiveSeries
    | NoObjective | SeriesNotCompleted | WrongCycleStatus | CanceledRequest

  datatype NewRequest = NewRequest(
    source: SourceType, sourceId: SourceId, instruction: string, previous: Option<CycleId>,
    keepPrevious: bool, series: Option<SeriesId>, slot: Option<int>, retryOf: Option<RequestId>)

  // ---- enqueueing ----

  function RunGate(db: Db, r: RunId): Option<CycleError> {
    if r >= |db.runs| then Some(RunNotFound)
    else if db.runs[r].status == RunCanceled then Some(RunIsCanceled)
    else if !db.runs[r].continuous then Some(RunNotContinuous)
    else None
  }

  function PolicyGate(db: Db, r: RunId, policy: Policy): Option<CycleError> {
    var gate := RunGate(db, r);
    if gate.Some? then gate else if db.runs[r].policy != policy then Some(WrongPolicy) else None
  }

  function SourceGate(db: Db, r: RunId, n: NewRequest): Option<CycleError> {
    if n.sourceId == Text("") then Some(BlankSource)
    else if TriggeredSource(n.source) then PolicyGate(db, r, TriggeredPolicy)
    else if n.source in {Auto, Retry} then RunGate(db, r)
    else Some(UnsupportedSource)
  }

  function LineageGate(n: NewRequest): Option<CycleError> {
    if n.source in {Auto, Retry} && n.series.None? then Some(AutoNeedsSeries)
    else if TriggeredSource(n.source) && n.series.Some? then Some(TriggeredHasSeries)
    else if n.source == Retry && n.retryOf.None? then Some(RetryNeedsLineage)
    else if n.source != Retry && n.retryOf.Some? then Some(LineageOnNonRetry)
    else None
  }

  // A request takes its context from the caller's snapshot or from a final cycle of its run.
  function PreviousGate(db: Db, r: RunId, n: NewRequest): Option<CycleError> {
    if n.keepPrevious || n.previous.None? then None
    else if n.previous.value >= |db.cycles| || !IsFinalOf(db.cycles[n.previous.value], r) then Some(PreviousNotFinal)
    else None
  }

  function SeriesGate(db: Db, r: RunId, n: NewRequest): Option<CycleError> {
    if n.series.None? then
      if n.slot.Some? || n.retryOf.Some? then Some(AutoLineageOnNonAuto) else None
    else if n.series.value >= |db.series| then Some(SeriesNotFound)
    else
      var series := db.series[n.series.value];
      if series.run != r then Some(SeriesOfOtherRun)
      else if n.slot.None? then Some(SlotMissing)
      else if !ActiveSeries(series.status) then Some(SeriesNotActive)
      else if n.slot.value < 1 || n.slot.value > series.target || n.slot.value != series.settled + 1 then
        Some(SlotOutsideSeries)
      else None
  }

  predicate PausedOnFailure(db: Db, s: SeriesId, q: RequestId)
    requires s < |db.series| && q < |db.requests|
  {
    var cycle := CycleOf(db.cycles, q);
    && db.series[s].status == PausedFailure
    && db.requests[q].status == ReqSettled
    && cycle.Some?
    && db.cycles[cycle.value].status == Failed
    && db.series[s].pausedCycle == cycle
  }

  function SlotGate(db: Db, r: RunId, n: NewRequest): Option<CycleError>
    requires n.series.Some? ==> n.series.value < |db.series| && n.slot.Some?
    requires n.retryOf.Some? ==> n.series.Some?
  {
    if n.retryOf.Some? then
      if n.retryOf.value >= |db.requests| then Some(RequestNotFound)
      else
        var retried := db.requests[n.retryOf.value];
        if retried.run != r || retried.series != n.series || retried.slot != n.slot then Some(LineageMismatch)
        else if !PausedOnFailure(db, n.series.value, n.retryOf.value) then Some(NotThePausedFailure)
        else None
    else if n.series.Some? then
      if db.series[n.series.value].status !in {Running, WaitingInterval} then Some(SeriesNotReady)
      else if SlotHolder(db.requests, n.series.value, n.slot.value).Some? then Some(SlotOccupied)
      else None
    else None
  }

  // The first refusal of a new request, once no row with its source exists.
  function InsertGate(db: Db, r: RunId, n: NewRequest): Option<CycleError> {
    var lineage := LineageGate(n);
    var previous := PreviousGate(db, r, n);
    var series := SeriesGate(db, r, n);
    if lineage.Some? then lineage
    else if previous.Some? then previous
    else if series.Some? then series
    else SlotGate(db, r, n)
  }

  function NewRow(r: RunId, n: NewRequest, now: int): Request {
    Request(r, n.series, n.slot, n.source, n.sourceId, Queued, n.instruction, n.previous, n.retryOf, now, None, None)
  }

  function Insert(db: Db, r: RunId, n: NewRequest, now: int): Db
    requires n.series.Some? ==> n.series.value < |db.series|
  {
    var inserted := db.(requests := db.requests + [NewRow(r, n, now)]);
    if n.series.None? then inserted
    else
      var s := n.series.value;
      if n.source == Retry then
        inserted.(series := db.series[s := db.series[s].(
          status := Running, nextRunAt := None, pauseReason := None, pausedCycle := None)])
      else if n.source == Auto && db.series[s].status == WaitingInterval then
        inserted.(series := db.series[s := db.series[s].(status := Running, nextRunAt := None)])
      else inserted
  }

  function Enqueue(db: Db, r: RunId, n: NewRequest, now: int): Result<(Db, RequestId), CycleError> {
    var gate := SourceGate(db, r, n);
    var existing := FindSource(db.requests, r, n.source, n.sourceId);
    if gate.Some? then Err(gate.value)
    else if existing.Some? then Ok((db, existing.value))
    else
      var refusal := InsertGate(db, r, n);
      if refusal.Some? then Err(refusal.value) else Ok((Insert(db, r, n, now), |db.requests|))
  }

  // ---- AUTO series ----

  // None: the lead proposed nothing, so the series ends.
  function AutoInstruction(
    runs: seq<Run>, cycles: seq<Cycle>, r: RunId, previous: Option<CycleId>
  ): Result<Option<string>, CycleError> {
    if previous.Some? && previous.value < |cycles| && cycles[previous.value].proposal.Some? then
      Ok(cycles[previous.value].proposal)
    else if previous.Some? && !(previous.value < |cycles| && cycles[previous.value].status in {Failed, Blocked}) then
      Ok(None)
    else if r >= |runs| then Err(RunNotFound)
    else if runs[r].objective == "" then Err(NoObjective)
    else Ok(Some(runs[r].objective))
  }

  function FirstSlot(s: SeriesId, instruction: string): NewRequest {
    NewRequest(Auto, SlotSource(s, 1, 1), instruction, None, false, Some(s), Some(1), None)
  }

  function InitializeSeries(
    db: Db, r: RunId, target: int, interval: int, now: int, first: Option<string>
  ): Result<(Db, SeriesId, RequestId), CycleError> {
    if target < 1 then Err(BadRepeatCount)
    else if interval < 0 then Err(NegativeInterval)
    else if ActiveSeriesOf(db.series, r).Some? then Err(AlreadyActiveSeries)
    else
      var s := |db.series|;
      var row := Series(r, NextNumber(db.series, r), Running, target, 0, interval, None, None, None);
      var added := db.(series := db.series + [row]);
      var instruction := if first.Some? then Ok(first) else AutoInstruction(db.runs, db.cycles, r, None);
      if instruction.Err? then Err(instruction.error)
      else
        var enqueued := Enqueue(added, r, FirstSlot(s, instruction.value.value), now);
        if enqueued.Err? then Err(enqueued.error) else Ok((enqueued.value.0, s, enqueued.value.1))
  }

  function CreateSeries(
    db: Db, r: RunId, target: int, interval: int, now: int, first: Option<string>
  ): Result<(Db, SeriesId, RequestId), CycleError> {
    var gate := RunGate(db, r);
    if gate.Some? then Err(gate.value) else InitializeSeries(db, r, target, interval, now, first)
  }

  function RestartSeries(db: Db, r: RunId, now: int): Result<(Db, SeriesId, RequestId), CycleError> {
    var gate := PolicyGate(db, r, AutoPolicy);
    var latest := LatestSeries(db.series, r);
    if gate.Some? then Err(gate.value)
    else if latest.None? then Err(SeriesNotFound)
    else if db.series[latest.value].status != AutoCompleted then Err(SeriesNotCompleted)
    else InitializeSeries(db, r, db.series[latest.value].target, db.series[latest.value].interval, now, None)
  }

  function SettledSlot(s: Series, now: int): Series {
    if s.settled + 1 >= s.target then
      s.(status := AutoCompleted, settled := s.settled + 1, nextRunAt := None, pauseReason := None, pausedCycle := None)
    else
      s.(status := WaitingInterval, settled := s.settled + 1, nextRunAt := Some(now + s.interval),
         pauseReason := None, pausedCycle := None)
  }

  function ContinueFailed(db: Db, r: RunId, s: SeriesId, now: int): Result<Db, CycleError> {
    if s >= |db.series| then Err(SeriesNotFound)
    else if db.series[s].run != r then Err(SeriesOfOtherRun)
    else if db.series[s].status != PausedFailure then Err(SeriesNotPausedAfterFailure)
    else Ok(db.(series := db.series[s := SettledSlot(db.series[s], now)]))
  }

  function RetryRow(db: Db, s: SeriesId, q: RequestId): NewRequest
    requires q < |db.requests|
  {
    var failed := db.requests[q];
    var slot := if failed.slot.Some? then failed.slot.value else 0;
    NewRequest(Retry, SlotSource(s, slot, CountSlot(db.requests, s, slot) + 1), failed.instruction,
               failed.previous, true, Some(s), failed.slot, Some(q))
  }

  function RetryFailed(db: Db, r: RunId, s: SeriesId, now: int): Result<(Db, RequestId), CycleError> {
    if s >= |db.series| then Err(SeriesNotFound)
    else if db.series[s].run != r then Err(SeriesOfOtherRun)
    else if db.series[s].status != PausedFailure then Err(SeriesNotPausedAfterFailure)
    else
      var cycle := db.series[s].pausedCycle;
      if cycle.None? || cycle.value >= |db.cycles| || db.cycles[cycle.value].request.None?
        || db.cycles[cycle.value].request.value >= |db.requests|
        || db.requests[db.cycles[cycle.value].request.value].series != Some(s)
      then Err(NoFailedRequest)
      else Enqueue(db, r, RetryRow(db, s, db.cycles[cycle.value].request.value), now)
  }

  // ---- the timer ----

  predicate Due(db: Db, s: SeriesId, now: int)
    requires s < |db.series|
  {
    var row := db.series[s];
    && row.status == WaitingInterval && row.nextRunAt.Some? && row.nextRunAt.value <= now
    && row.run < |db.runs| && db.runs[row.run].status != RunCanceled
  }

  function NextSlot(db: Db, s: SeriesId, previous: Option<CycleId>, instruction: string): NewRequest
    requires s < |db.series|
  {
    var slot := db.series[s].settled + 1;
    NewRequest(Auto, SlotSource(s, slot, 1), instruction, previous, false, Some(s), Some(slot), None)
  }

  datatype TickResult = TickResult(created: seq<RequestId>, completed: seq<SeriesId>)

  // The timer's work on one series it selected as due.
  function TickOne(db: Db, s: SeriesId, now: int): Result<(Db, TickResult), CycleError>
    requires s < |db.series|
  {
    var row := db.series[s];
    var previous := LatestFinal(db.cycles, row.run);
    var instruction := AutoInstruction(db.runs, db.cycles, row.run, previous);
    if instruction.Err? then Err(instruction.error)
    else if instruction.value.None? then
      if row.status == WaitingInterval then
        Ok((db.(series := db.series[s := row.(
              status := AutoCompleted, nextRunAt := None,
              pauseReason := Some("lead_proposed_no_next_cycle"), pausedCycle := None)]),
            TickResult([], [s])))
      else Ok((db, TickResult([], [])))
    else
      var enqueued := Enqueue(db, row.run, NextSlot(db, s, previous, instruction.value.value), now);
      if enqueued.Err? then Err(enqueued.error)
      else
        var after := enqueued.value.0;
        // The status is set again here, guarded by waiting_interval.
        if s < |after.series| && after.series[s].status == WaitingInterval then
          Ok((after.(series := after.series[s := after.series[s].(status := Running, nextRunAt := None)]),
              TickResult([enqueued.value.1], [])))
        else Ok((after, TickResult([enqueued.value.1], [])))
  }

  // One timer transaction over the selected series, in order; an error rolls all of it back.
  function Tick(db: Db, due: seq<SeriesId>, now: int): Result<(Db, TickResult), CycleError>
    decreases |due|
  {
    if due == [] then Ok((db, TickResult([], [])))
    else if due[0] >= |db.series| then Err(SeriesNotFound)
    else
      var one := TickOne(db, due[0], now);
      if one.Err? then Err(one.error)
      else
        var rest := Tick(one.value.0, due[1..], now);
        if rest.Err? then Err(rest.error)
        else Ok((rest.value.0, TickResult(one.value.1.created + rest.value.1.created,
                                          one.value.1.completed + rest.value.1.completed)))
  }

  // ---- claims and settlement ----

  function Claim(db: Db, r: RunId, now: int): Result<(Db, Option<RequestId>), CycleError> {
    if r >= |db.runs| then Err(RunNotFound)
    else if db.runs[r].status == RunCanceled then Err(RunIsCanceled)
    else if DispatchingOf(db.requests, r).Some? then Ok((db, None))
    else
      var next := NextQueued(db.requests, r);
      if next.None? then Ok((db, None))
      else Ok((db.(requests := db.requests[next.value :=
                 db.requests[next.value].(status := Dispatching, claimedAt := Some(now))]), next))
  }

  function Requeue(db: Db, q: RequestId): Result<Db, CycleError> {
    if q >= |db.requests| then Err(RequestNotFound)
    else if db.requests[q].status != Dispatching then Err(RequestNotDispatching)
    else if CycleOf(db.cycles, q).Some? then Err(RequestHasCycle)
    else Ok(db.(requests := db.requests[q := db.requests[q].(status := Queued, claimedAt := None)]))
  }

  datatype Settlement = Settlement(request: RequestId, series: Option<SeriesId>, queueReady: bool, transitioned: bool)

  predicate QueueReady(requests: seq<Request>, r: RunId) {
    NextQueued(requests, r).Some? && DispatchingOf(requests, r).None?
  }

  function Pause(
    db: Db, c: CycleId, q: RequestId, status: SeriesStatus, reason: string
  ): Result<(Db, Settlement), CycleError>
    requires q < |db.requests|
    requires db.requests[q].series.Some? ==> db.requests[q].series.value < |db.series|
  {
    if db.requests[q].status != Dispatching then Err(RequestNotDispatching)
    else if db.requests[q].series.None? then Ok((db, Settlement(q, None, false, false)))
    else
      var s := db.requests[q].series.value;
      var row := db.series[s];
      var transitioned := row.status != status || row.pauseReason != Some(reason) || row.pausedCycle != Some(c);
      Ok((db.(series := db.series[s := row.(
            status := status, nextRunAt := None, pauseReason := Some(reason), pausedCycle := Some(c))]),
          Settlement(q, Some(s), false, transitioned)))
  }

  function SettledSeries(row: Series, c: CycleId, cycle: Cycle, now: int): Series {
    if SuccessfulCycle(cycle.status) then SettledSlot(row, now)
    else if cycle.status in {Blocked, Failed} then
      row.(status := PausedFailure, nextRunAt := None, pausedCycle := Some(c),
           pauseReason := Some(if cycle.error == "" then "Cycle failed" else cycle.error))
    else
      row.(status := SeriesCanceled, nextRunAt := None, pauseReason := Some("canceled"), pausedCycle := Some(c))
  }

  function Settle(db: Db, c: CycleId, now: int): Result<(Db, Settlement), CycleError> {
    if c >= |db.cycles| then Err(CycleNotFound)
    else
      var cycle := db.cycles[c];
      if cycle.request.None? then Err(CycleNotLinked)
      else if cycle.request.value >= |db.requests| then Err(RequestNotFound)
      else
        var q := cycle.request.value;
        var request := db.requests[q];
        if request.series.Some? && request.series.value >= |db.series| then Err(SeriesNotFound)
        else if cycle.status == WaitingForUser then Pause(db, c, q, PausedUser, "waiting_for_user")
        else if cycle.status == Interrupted then Pause(db, c, q, PausedInterrupted, "interrupted")
        else if !TerminalCycle(cycle.status) then Err(CycleNotReady)
        else if request.status in {ReqSettled, ReqCanceled} then
          Ok((db, Settlement(q, request.series, false, false)))
        else if request.status != Dispatching then Err(RequestNotDispatching)
        else
          var status := if cycle.status == CycleCanceled then ReqCanceled else ReqSettled;
          var requests := db.requests[q := request.(status := status, settledAt := Some(now))];
          var series := if request.series.None? then db.series
                        else db.series[request.series.value :=
                               SettledSeries(db.series[request.series.value], c, cycle, now)];
          Ok((db.(requests := requests, series := series),
              Settlement(q, request.series, QueueReady(requests, request.run), true)))
  }

  function PauseById(
    db: Db, c: CycleId, expected: CycleStatus, status: SeriesStatus, reason: string
  ): Result<(Db, Settlement), CycleError> {
    if c >= |db.cycles| then Err(CycleNotFound)
    else if db.cycles[c].status != expected then Err(WrongCycleStatus)
    else if db.cycles[c].request.None? then Err(CycleNotLinked)
    else if db.cycles[c].request.value >= |db.requests| then Err(RequestNotFound)
    else
      var q := db.cycles[c].request.value;
      if db.requests[q].series.Some? && db.requests[q].series.value >= |db.series| then Err(SeriesNotFound)
      else Pause(db, c, q, status, reason)
  }

  function MarkSettled(db: Db, q: RequestId, now: int): Result<Db, CycleError> {
    if q >= |db.requests| then Err(RequestNotFound)
    else if db.requests[q].status == ReqCanceled then Err(CanceledRequest)
    else if db.requests[q].status == ReqSettled then Ok(db)
    else Ok(db.(requests := db.requests[q := db.requests[q].(status := ReqSettled, settledAt := Some(now))]))
  }

  // ---- cancellation ----

  predicate LinkedTo(db: Db, c: Cycle, r: RunId) {
    c.request.Some? && c.request.value < |db.requests| && db.requests[c.request.value].run == r
  }

  predicate HookOf(db: Db, h: HookRun, r: RunId) {
    h.request.Some? && h.request.value < |db.requests| && db.requests[h.request.value].run == r
  }

  predicate FinishedRun(s: RunStatus) {
    s in {RunCompleted, RunCompletedWithFailures, RunFailed, RunCanceled}
  }

  function CanceledOperation(o: Operation, r: RunId): Operation {
    if o.run == r && OpenOperation(o.status) then o.(status := OpCanceled) else o
  }

  function CanceledCycle(db: Db, c: Cycle, r: RunId, reason: string): Cycle {
    if LinkedTo(db, c, r) && CancelableCycle(c.status) then c.(status := CycleCanceled, error := reason) else c
  }

  function CanceledRequestRow(q: Request, r: RunId, now: int): Request {
    if q.run == r && Live(q.status) then q.(status := ReqCanceled, settledAt := Some(now)) else q
  }

  function CanceledSeriesRow(s: Series, r: RunId, reason: string): Series {
    if s.run == r && ActiveSeries(s.status) then
      s.(status := SeriesCanceled, nextRunAt := None, pauseReason := Some(reason))
    else s
  }

  function CanceledHook(db: Db, h: HookRun, r: RunId): HookRun {
    if HookOf(db, h, r) && OpenHook(h.status) then h.(status := HookCanceled) else h
  }

  function CanceledRun(run: Run): Run {
    if FinishedRun(run.status) then run else run.(status := RunCanceled)
  }

  // Every update statement of one cancellation.
  function CanceledTables(db: Db, r: RunId, reason: string, now: int): Db
    requires r < |db.runs|
  {
    Db(db.runs[r := CanceledRun(db.runs[r])],
       seq(|db.requests|, i requires 0 <= i < |db.requests| => CanceledRequestRow(db.requests[i], r, now)),
       seq(|db.series|, i requires 0 <= i < |db.series| => CanceledSeriesRow(db.series[i], r, reason)),
       seq(|db.cycles|, i requires 0 <= i < |db.cycles| => CanceledCycle(db, db.cycles[i], r, reason)),
       seq(|db.operations|, i requires 0 <= i < |db.operations| => CanceledOperation(db.operations[i], r)),
       seq(|db.hooks|, i requires 0 <= i < |db.hooks| => CanceledHook(db, db.hooks[i], r)))
  }

  // The changed flag, computed from the selects before the updates.
  predicate HasSomethingToCancel(db: Db, r: RunId)
    requires r < |db.runs|
  {
    || (exists i :: 0 <= i < |db.requests| && db.requests[i].run == r && Live(db.requests[i].status))
    || (exists i :: 0 <= i < |db.cycles| && LinkedTo(db, db.cycles[i], r) && CancelableCycle(db.cycles[i].status))
    || (exists i :: 0 <= i < |db.hooks| && HookOf(db, db.hooks[i], r) && OpenHook(db.hooks[i].status))
    || (LatestSeries(db.series, r).Some? && ActiveSeries(db.series[LatestSeries(db.series, r).value].status))
    || (exists i :: 0 <= i < |db.operations| && db.operations[i].run == r && OpenOperation(db.operations[i].status))
    || !FinishedRun(db.runs[r].status)
  }

  function Cancel(db: Db, r: RunId, reason: string, now: int): Result<Db, CycleError> {
    if r >= |db.runs| then Err(RunNotFound)
    else if !db.runs[r].continuous then Err(RunNotContinuous)
    else Ok(CanceledTables(db, r, reason, now))
  }

  // ---- steps of TeamRunService and of the orchestrator ----

  function CreateCycle(db: Db, q: RequestId): Result<(Db, CycleId), CycleError> {
    if q >= |db.requests| then Err(RequestNotFound)
    else
      var existing := CycleOf(db.cycles, q);
      if existing.Some? then Ok((db, existing.value))
      else if db.requests[q].status != Dispatching then Err(RequestNotDispatching)
      else Ok((db.(cycles := db.cycles + [Cycle(db.requests[q].run, Some(q), CycleQueued, "", None)]), |db.cycles|))
  }

  // The series of a cycle whose request is being dispatched.
  predicate DecisionOn(db: Db, c: CycleId, cycleStatus: CycleStatus, seriesStatuses: set<SeriesStatus>) {
    && c < |db.cycles| && db.cycles[c].status == cycleStatus
    && db.cycles[c].request.Some? && db.cycles[c].request.value < |db.requests|
    && var q := db.requests[db.cycles[c].request.value];
    && q.status == Dispatching
    && q.series.Some? && q.series.value < |db.series|
    && db.series[q.series.value].status in seriesStatuses
  }

  // publish_decision_request: the cycle and its series wait for the user.
  function PublishDecision(db: Db, c: CycleId): Db {
    if !DecisionOn(db, c, CycleRunning, {Running, WaitingInterval, PausedUser}) then db
    else
      var s := db.requests[db.cycles[c].request.value].series.value;
      db.(cycles := db.cycles[c := db.cycles[c].(status := WaitingForUser, error := "")],
          series := db.series[s := db.series[s].(
            status := PausedUser, nextRunAt := None, pauseReason := Some("waiting_for_user"), pausedCycle := Some(c))])
  }

  // answer_decision_request: both run again.
  function AnswerDecision(db: Db, c: CycleId): Db {
    if !DecisionOn(db, c, WaitingForUser, {PausedUser}) then db
    else
      var s := db.requests[db.cycles[c].request.value].series.value;
      db.(cycles := db.cycles[c := db.cycles[c].(status := CycleRunning, error := "")],
          series := db.series[s := db.series[s].(
            status := Running, nextRunAt := None, pauseReason := None, pausedCycle := None)])
  }
}
