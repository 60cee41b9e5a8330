/**
  The tables the cycle protocol works on, and the select statements it asks of them.

  A table is a sequence of rows. Rows are only appended and updated, so the position of
  a row is both its insertion order (SQLite's rowid) and its fresh identifier. Instants
  are integers; module Timestamps shows that the stored text orders the same way.
*/
module CycleTables {
  import opened Outcomes

  type RunId = nat
  type RequestId = nat
  type SeriesId = nat
  type CycleId = nat

  datatype RunStatus =
    | Draft | Planning | Executing | Summarizing | RunCompleted | RunCompletedWithFailures
    | RunBlocked | RunFailed | RunCanceled | RunInterrupted | RunPaused
    | RunWaitingForUser | RunWaitingForProvider

  datatype Policy = AutoPolicy | TriggeredPolicy

  // The objective is the run's goal with surrounding white space removed.
  datatype Run = Run(status: RunStatus, continuous: bool, policy: Policy, objective: string)

  datatype CycleStatus =
    | CycleQueued | CycleRunning | WaitingForProvider | WaitingForUser | Interrupted | CyclePaused
    | Completed | CompletedWithFailures | Blocked | Failed | CycleCanceled

  // The proposal is the non-blank next_cycle text of the last applied synthesis, if any.
  datatype Cycle = Cycle(
    run: RunId, request: Option<RequestId>, status: CycleStatus, error: string, proposal: Option<string>)

  datatype SeriesStatus =
    | Running | WaitingInterval | PausedFailure | PausedUser | PausedInterrupted
    | AutoCompleted | SeriesCanceled

  datatype Series = Series(
    run: RunId, number: nat, status: SeriesStatus, target: int, settled: nat, interval: int,
    nextRunAt: Option<int>, pauseReason: Option<string>, pausedCycle: Option<CycleId>)

  datatype RequestStatus = Queued | Dispatching | ReqSettled | ReqCanceled

  datatype SourceType = Manual | Hook | Knowledge | Contest | Auto | Retry | Unsupported

  // A stripped source id: caller's text, or "series:slot:attempt" (see SourceIds).
  datatype SourceId = Text(text: string) | SlotSource(series: SeriesId, slot: int, attempt: nat)

  datatype Request = Request(
    run: RunId, series: Option<SeriesId>, slot: Option<int>, source: SourceType, sourceId: SourceId,
    status: RequestStatus, instruction: string, previous: Option<CycleId>, retryOf: Option<RequestId>,
    createdAt: int, claimedAt: Option<int>, settledAt: Option<int>)

  datatype OperationStatus =
    | Prepared | Invoking | OpCompleted | Applied | OpWaiting | Ambiguous | OpFailed | OpCanceled

  datatype Operation = Operation(run: RunId, status: OperationStatus)

  datatype HookStatus = HookQueued | HookRunning | HookWaiting | HookInterrupted | HookFinished | HookCanceled

  datatype HookRun = HookRun(request: Option<RequestId>, status: HookStatus)

  datatype Db = Db(
    runs: seq<Run>, requests: seq<Request>, series: seq<Series>, cycles: seq<Cycle>,
    operations: seq<Operation>, hooks: seq<HookRun>)

  // ---- status sets ----

  predicate TerminalCycle(s: CycleStatus) {
    s in {Completed, CompletedWithFailures, Blocked, Failed, CycleCanceled}
  }

  predicate SuccessfulCycle(s: CycleStatus) {
    s in {Completed, CompletedWithFailures}
  }

  // The statuses cancel_run closes; a paused cycle is not among them.
  predicate CancelableCycle(s: CycleStatus) {
    s in {CycleQueued, CycleRunning, WaitingForUser, WaitingForProvider, Interrupted}
  }

  predicate ActiveSeries(s: SeriesStatus) {
    s in {Running, WaitingInterval, PausedFailure, PausedUser, PausedInterrupted}
  }

  predicate Live(s: RequestStatus) {
    s in {Queued, Dispatching}
  }

  predicate OpenOperation(s: OperationStatus) {
    s in {Prepared, Invoking, OpCompleted, OpWaiting, Ambiguous}
  }

  predicate OpenHook(s: HookStatus) {
    s in {HookQueued, HookRunning, HookWaiting, HookInterrupted}
  }

  predicate TriggeredSource(s: SourceType) {
    s in {Manual, Hook, Knowledge, Contest}
  }

  // ---- selects ----

  predicate IsDispatching(q: Request, r: RunId) {
    q.run == r && q.status == Dispatching
  }

  predicate IsQueued(q: Request, r: RunId) {
    q.run == r && q.status == Queued
  }

  function DispatchingOf(requests: seq<Request>, r: RunId): (found: Option<RequestId>)
    ensures found.Some? ==> found.value < |requests| && IsDispatching(requests[found.value], r)
    ensures found.None? ==> forall i :: 0 <= i < |requests| ==> !IsDispatching(requests[i], r)
  {
    if requests == [] then None
    else
      var last := |requests| - 1;
      if IsDispatching(requests[last], r) then Some(last) else DispatchingOf(requests[..last], r)
  }

  // Queue order: created_at, then rowid.
  predicate Earlier(requests: seq<Request>, i: RequestId, j: RequestId)
    requires i < |requests| && j < |requests|
  {
    requests[i].createdAt < requests[j].createdAt || (requests[i].createdAt == requests[j].createdAt && i < j)
  }

  predicate FirstQueued(requests: seq<Request>, r: RunId, q: RequestId)
    requires q < |requests|
  {
    forall j {:trigger requests[j]} :: 0 <= j < |requests| && IsQueued(requests[j], r) && j != q ==>
        Earlier(requests, q, j)
  }

  function NextQueued(requests: seq<Request>, r: RunId): (found: Option<RequestId>)
    ensures found.Some? ==> found.value < |requests| && IsQueued(requests[found.value], r)
    ensures found.Some? ==> FirstQueued(requests, r, found.value)
    ensures found.None? ==> forall i :: 0 <= i < |requests| ==> !IsQueued(requests[i], r)
  {
    if requests == [] then None
    else
      var last := |requests| - 1;
      var rest := NextQueued(requests[..last], r);
      if !IsQueued(requests[last], r) then rest
      else if rest.Some? && requests[rest.value].createdAt <= requests[last].createdAt then rest
      else Some(last)
  }

  predicate HasSource(q: Request, r: RunId, source: SourceType, id: SourceId) {
    q.run == r && q.source == source && q.sourceId == id
  }

  function FindSource(requests: seq<Request>, r: RunId, source: SourceType, id: SourceId): (found: Option<RequestId>)
    ensures found.Some? ==> found.value < |requests| && HasSource(requests[found.value], r, source, id)
    ensures found.None? ==> forall i :: 0 <= i < |requests| ==> !HasSource(requests[i], r, source, id)
  {
    if requests == [] then None
    else
      var last := |requests| - 1;
      if HasSource(requests[last], r, source, id) then Some(last) else FindSource(requests[..last], r, source, id)
  }

  predicate InSlot(q: Request, s: SeriesId, slot: int) {
    q.series == Some(s) && q.slot == Some(slot)
  }

  function CountSlot(requests: seq<Request>, s: SeriesId, slot: int): nat {
    if requests == [] then 0
    else
      var last := |requests| - 1;
      CountSlot(requests[..last], s, slot) + if InSlot(requests[last], s, slot) then 1 else 0
  }

  function SlotHolder(requests: seq<Request>, s: SeriesId, slot: int): (found: Option<RequestId>)
    ensures found.Some? ==> found.value < |requests| && InSlot(requests[found.value], s, slot)
    ensures found.None? ==> forall i :: 0 <= i < |requests| ==> !InSlot(requests[i], s, slot)
  {
    if requests == [] then None
    else
      var last := |requests| - 1;
      if InSlot(requests[last], s, slot) then Some(last) else SlotHolder(requests[..last], s, slot)
  }

  function CycleOf(cycles: seq<Cycle>, q: RequestId): (found: Option<CycleId>)
    ensures found.Some? ==> found.value < |cycles| && cycles[found.value].request == Some(q)
    ensures found.None? ==> forall i :: 0 <= i < |cycles| ==> cycles[i].request != Some(q)
  {
    if cycles == [] then None
    else
      var last := |cycles| - 1;
      if cycles[last].request == Some(q) then Some(last) else CycleOf(cycles[..last], q)
  }

  predicate IsFinalOf(c: Cycle, r: RunId) {
    c.run == r && TerminalCycle(c.status)
  }

  // A run's cycles are numbered in creation order, so the last row has the highest sequence.
  function LatestFinal(cycles: seq<Cycle>, r: RunId): (found: Option<CycleId>)
    ensures found.Some? ==> found.value < |cycles| && IsFinalOf(cycles[found.value], r)
    ensures found.Some? ==> forall i :: found.value < i < |cycles| ==> !IsFinalOf(cycles[i], r)
    ensures found.None? ==> forall i :: 0 <= i < |cycles| ==> !IsFinalOf(cycles[i], r)
  {
    if cycles == [] then None
    else
      var last := |cycles| - 1;
      if IsFinalOf(cycles[last], r) then Some(last) else LatestFinal(cycles[..last], r)
  }

  predicate IsActiveOf(s: Series, r: RunId) {
    s.run == r && ActiveSeries(s.status)
  }

  function ActiveSeriesOf(series: seq<Series>, r: RunId): (found: Option<SeriesId>)
    ensures found.Some? ==> found.value < |series| && IsActiveOf(series[found.value], r)
    ensures found.None? ==> forall i :: 0 <= i < |series| ==> !IsActiveOf(series[i], r)
  {
    if series == [] then None
    else
      var last := |series| - 1;
      if IsActiveOf(series[last], r) then Some(last) else ActiveSeriesOf(series[..last], r)
  }

  // The run's series with the highest series_number.
  function LatestSeries(series: seq<Series>, r: RunId): (found: Option<SeriesId>)
    ensures found.Some? ==> found.value < |series| && series[found.value].run == r
    ensures found.Some? ==> forall i :: 0 <= i < |series| && series[i].run == r ==>
        series[i].number <= series[found.value].number
    ensures found.None? ==> forall i :: 0 <= i < |series| ==> series[i].run != r
  {
    if series == [] then None
    else
      var last := |series| - 1;
      var rest := LatestSeries(series[..last], r);
      if series[last].run == r && (rest.None? || series[rest.value].number <= series[last].number)
      then Some(last) else rest
  }

  function NextNumber(series: seq<Series>, r: RunId): nat {
    var latest := LatestSeries(series, r);
    if latest.Some? then series[latest.value].number + 1 else 1
  }
}
