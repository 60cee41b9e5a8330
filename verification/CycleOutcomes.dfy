/**
  What each transaction of the cycle service answers and writes, row by row and status by status:
  when it accepts, what the new or changed row holds, and that no other row is touched.
*/
module CycleOutcomes {
  import opened Outcomes
  import opened CycleTables
  import opened CycleSteps
  import opened CycleInvariant
  import opened CycleRuns
  import opened CycleTimer

  // ---- the status sets, from the other side ----

  lemma {:induction false} RequestAndSeriesStatuses(q: RequestStatus, s: SeriesStatus)
    ensures Live(q) <==> q != ReqSettled && q != ReqCanceled
    ensures ActiveSeries(s) <==> s != AutoCompleted && s != SeriesCanceled
  {
  }

  lemma {:induction false} CycleStatuses(c: CycleStatus)
    ensures SuccessfulCycle(c) <==> c == Completed || c == CompletedWithFailures
    ensures TerminalCycle(c) <==> SuccessfulCycle(c) || c == Blocked || c == Failed || c == CycleCanceled
    ensures CancelableCycle(c) <==> !TerminalCycle(c) && c != CyclePaused
  {
  }

  lemma {:induction false} OtherStatuses(o: OperationStatus, h: HookStatus, r: RunStatus, t: SourceType)
    ensures OpenOperation(o) <==> o != Applied && o != OpFailed && o != OpCanceled
    ensures OpenHook(h) <==> h != HookFinished && h != HookCanceled
    ensures FinishedRun(r) <==> r == RunCompleted || r == RunCompletedWithFailures || r == RunFailed || r == RunCanceled
    ensures TriggeredSource(t) <==> t != Auto && t != Retry && t != Unsupported
  {
  }

  // ---- enqueueing ----

  // The run takes requests.
  predicate Takes(db: Db, r: RunId) {
    r < |db.runs| && db.runs[r].status != RunCanceled && db.runs[r].continuous
  }

  // The caller's snapshot, no context, or a final cycle of the run.
  predicate GoodContext(db: Db, r: RunId, n: NewRequest) {
    || n.keepPrevious || n.previous.None?
    || (n.previous.value < |db.cycles| && db.cycles[n.previous.value].run == r
        && db.cycles[n.previous.value].status in {Completed, CompletedWithFailures, Failed, Blocked, CycleCanceled})
  }

  // No request of the run has this source.
  ghost predicate Unseen(db: Db, r: RunId, n: NewRequest) {
    forall i :: 0 <= i < |db.requests| ==>
      db.requests[i].run != r || db.requests[i].source != n.source || db.requests[i].sourceId != n.sourceId
  }

  // The row is queued now, for what the caller asked.
  predicate IsRowOf(row: Request, r: RunId, n: NewRequest, now: int) {
    && row.run == r && row.series == n.series && row.slot == n.slot && row.source == n.source && row.sourceId == n.sourceId
    && row.status == Queued && row.instruction == n.instruction && row.previous == n.previous && row.retryOf == n.retryOf
    && row.createdAt == now && row.claimedAt.None? && row.settledAt.None?
  }

  // One queued row more; at most one series row differs.
  predicate Adds(db: Db, after: Db, r: RunId, n: NewRequest, now: int) {
    && |after.requests| == |db.requests| + 1 && after.requests[..|db.requests|] == db.requests
    && IsRowOf(after.requests[|db.requests|], r, n, now)
    && after == db.(requests := after.requests, series := after.series)
  }

  lemma {:induction false} UnseenIsNotFound(db: Db, r: RunId, n: NewRequest)
    ensures Unseen(db, r, n) <==> FindSource(db.requests, r, n.source, n.sourceId).None?
  {
    var found := FindSource(db.requests, r, n.source, n.sourceId);
    if found.Some? { assert HasSource(db.requests[found.value], r, n.source, n.sourceId); }
    if found.None? {
      forall i | 0 <= i < |db.requests|
        ensures db.requests[i].run != r || db.requests[i].source != n.source || db.requests[i].sourceId != n.sourceId
      {
        assert !HasSource(db.requests[i], r, n.source, n.sourceId);
      }
    }
  }

  /**
    A manual, hook, knowledge or contest request is accepted exactly on a continuous TRIGGERED run
    that is not canceled, under a source id, without AUTO lineage, on a context that is final.
  */
  lemma {:induction false} TriggeredAcceptedIff(db: Db, r: RunId, n: NewRequest, now: int)
    requires n.source in {Manual, Hook, Knowledge, Contest} && Unseen(db, r, n)
    ensures var e := Enqueue(db, r, n, now);
      && (e.Ok? <==>
           && n.sourceId != Text("") && Takes(db, r) && db.runs[r].policy == TriggeredPolicy
           && n.series.None? && n.slot.None? && n.retryOf.None? && GoodContext(db, r, n))
      && (e.Ok? ==> e.value.1 == |db.requests| && Adds(db, e.value.0, r, n, now) && e.value.0.series == db.series)
  {
    UnseenIsNotFound(db, r, n);
  }

  // A slot of a series.
  predicate AtNextSlot(db: Db, r: RunId, n: NewRequest) {
    && n.series.Some? && n.series.value < |db.series|
    && var s := db.series[n.series.value];
       s.run == r && n.slot == Some(s.settled + 1) && s.settled + 1 <= s.target
  }

  ghost predicate SlotEmpty(db: Db, n: NewRequest) {
    forall i :: 0 <= i < |db.requests| ==> db.requests[i].series != n.series || db.requests[i].slot != n.slot
  }

  lemma {:induction false} EmptySlotHasNoHolder(db: Db, n: NewRequest)
    requires n.series.Some? && n.slot.Some?
    ensures SlotEmpty(db, n) <==> SlotHolder(db.requests, n.series.value, n.slot.value).None?
  {
    var held := SlotHolder(db.requests, n.series.value, n.slot.value);
    if held.Some? { assert InSlot(db.requests[held.value], n.series.value, n.slot.value); }
    if held.None? {
      forall i | 0 <= i < |db.requests| ensures db.requests[i].series != n.series || db.requests[i].slot != n.slot {
        assert !InSlot(db.requests[i], n.series.value, n.slot.value);
      }
    }
  }

  /**
    An automatic request is accepted exactly for the empty next slot of a running or waiting series
    of the run; a waiting series then runs, without an alarm.
  */
  lemma {:induction false} AutoAcceptedIff(db: Db, r: RunId, n: NewRequest, now: int)
    requires n.source == Auto && Unseen(db, r, n)
    ensures var e := Enqueue(db, r, n, now);
      && (e.Ok? <==>
           && n.sourceId != Text("") && Takes(db, r) && AtNextSlot(db, r, n) && n.retryOf.None? && GoodContext(db, r, n)
           && db.series[n.series.value].status in {Running, WaitingInterval} && SlotEmpty(db, n))
      && (e.Ok? ==>
           && e.value.1 == |db.requests| && Adds(db, e.value.0, r, n, now)
           && var s, row := n.series.value, db.series[n.series.value];
              e.value.0.series ==
                if row.status == Running then db.series
                else db.series[s := Series(row.run, row.number, Running, row.target, row.settled, row.interval,
                                           None, row.pauseReason, row.pausedCycle)])
  {
    UnseenIsNotFound(db, r, n);
    if n.series.Some? && n.slot.Some? { EmptySlotHasNoHolder(db, n); }
    var e := Enqueue(db, r, n, now);
    if e.Ok? {
      var s, row := n.series.value, db.series[n.series.value];
      assert db.series[s := row] == db.series;
    }
  }

  // The request settled on the failed cycle that the series is paused on.
  ghost predicate IsThePausedFailure(db: Db, n: NewRequest) {
    && n.retryOf.Some? && n.retryOf.value < |db.requests| && n.series.Some? && n.series.value < |db.series|
    && var q, s := db.requests[n.retryOf.value], db.series[n.series.value];
       && q.run == s.run && q.series == n.series && q.slot == n.slot && q.status == ReqSettled
       && s.status == PausedFailure && s.pausedCycle.Some? && s.pausedCycle.value < |db.cycles|
       && db.cycles[s.pausedCycle.value].request == n.retryOf && db.cycles[s.pausedCycle.value].status == Failed
  }

  lemma {:induction false} PausedFailureIsFound(db: Db, n: NewRequest)
    requires OneCyclePerRequest(db)
    ensures IsThePausedFailure(db, n) ==> CycleOf(db.cycles, n.retryOf.value) == db.series[n.series.value].pausedCycle
  {
  }

  /**
    A retry is accepted exactly for the failed request its series is paused on; the series then
    runs with nothing left of the pause.
  */
  lemma {:induction false} RetryAcceptedIff(db: Db, r: RunId, n: NewRequest, now: int)
    requires OneCyclePerRequest(db) && n.source == Retry && Unseen(db, r, n)
    ensures var e := Enqueue(db, r, n, now);
      && (e.Ok? <==>
           && n.sourceId != Text("") && Takes(db, r) && AtNextSlot(db, r, n) && GoodContext(db, r, n)
           && IsThePausedFailure(db, n))
      && (e.Ok? ==>
           && e.value.1 == |db.requests| && Adds(db, e.value.0, r, n, now)
           && var s, row := n.series.value, db.series[n.series.value];
              e.value.0.series == db.series[s := Series(
                row.run, row.number, Running, row.target, row.settled, row.interval, None, None, None)])
  {
    UnseenIsNotFound(db, r, n);
    PausedFailureIsFound(db, n);
  }

  /** A source seen before gives its row back and writes nothing, if the run still takes requests of the kind. */
  lemma {:induction false} SeenIsReturned(db: Db, r: RunId, n: NewRequest, now: int)
    requires !Unseen(db, r, n)
    ensures var e := Enqueue(db, r, n, now);
      && (e.Ok? <==>
           && n.sourceId != Text("") && Takes(db, r) && n.source != Unsupported
           && (n.source in {Manual, Hook, Knowledge, Contest} ==> db.runs[r].policy == TriggeredPolicy))
      && (e.Ok? ==>
           && e.value.0 == db && e.value.1 < |db.requests|
           && var row := db.requests[e.value.1]; row.run == r && row.source == n.source && row.sourceId == n.sourceId)
  {
    UnseenIsNotFound(db, r, n);
  }

  // Each refusal names something that is the case.
  ghost predicate Truthful(db: Db, r: RunId, n: NewRequest, error: CycleError) {
    var series := if n.series.Some? && n.series.value < |db.series| then Some(db.series[n.series.value]) else None;
    match error
    case BlankSource => n.sourceId == Text("")
    case UnsupportedSource => n.source == Unsupported
    case RunNotFound => r >= |db.runs|
    case RunIsCanceled => r < |db.runs| && db.runs[r].status == RunCanceled
    case RunNotContinuous => r < |db.runs| && !db.runs[r].continuous
    case WrongPolicy => r < |db.runs| && n.source !in {Auto, Retry} && db.runs[r].policy == AutoPolicy
    case AutoNeedsSeries => n.source in {Auto, Retry} && n.series.None?
    case TriggeredHasSeries => n.source !in {Auto, Retry} && n.series.Some?
    case RetryNeedsLineage => n.source == Retry && n.retryOf.None?
    case LineageOnNonRetry => n.source != Retry && n.retryOf.Some?
    case PreviousNotFinal => !GoodContext(db, r, n)
    case SeriesNotFound => n.series.Some? && n.series.value >= |db.series|
    case SeriesOfOtherRun => series.Some? && series.value.run != r
    case SlotMissing => n.series.Some? && n.slot.None?
    case SeriesNotActive => series.Some? && (series.value.status == AutoCompleted || series.value.status == SeriesCanceled)
    case SlotOutsideSeries => series.Some? && n.slot.Some? && !AtNextSlot(db, r, n)
    case AutoLineageOnNonAuto => n.series.None? && n.slot.Some?
    case RequestNotFound => n.retryOf.Some? && n.retryOf.value >= |db.requests|
    case LineageMismatch => n.retryOf.Some? && n.retryOf.value < |db.requests|
      && (db.requests[n.retryOf.value].run != r || db.requests[n.retryOf.value].series != n.series
          || db.requests[n.retryOf.value].slot != n.slot)
    case NotThePausedFailure => n.source == Retry && !IsThePausedFailure(db, n)
    case SeriesNotReady => series.Some? && series.value.status in {PausedFailure, PausedUser, PausedInterrupted}
    case SlotOccupied => n.series.Some? && n.slot.Some? && !SlotEmpty(db, n)
    case _ => false
  }

  lemma {:induction false} SourceRefusal(db: Db, r: RunId, n: NewRequest)
    requires SourceGate(db, r, n).Some?
    ensures Truthful(db, r, n, SourceGate(db, r, n).value)
  {
  }

  lemma {:induction false} LineageRefusal(db: Db, r: RunId, n: NewRequest)
    requires n.source != Unsupported && LineageGate(n).Some?
    ensures Truthful(db, r, n, LineageGate(n).value)
  {
  }

  lemma {:induction false} SeriesRefusal(db: Db, r: RunId, n: NewRequest)
    requires n.source != Unsupported && LineageGate(n).None? && SeriesGate(db, r, n).Some?
    ensures Truthful(db, r, n, SeriesGate(db, r, n).value)
  {
  }

  lemma {:induction false} SlotRefusal(db: Db, r: RunId, n: NewRequest)
    requires OneCyclePerRequest(db) && n.source != Unsupported
    requires LineageGate(n).None? && SeriesGate(db, r, n).None? && SlotGate(db, r, n).Some?
    ensures Truthful(db, r, n, SlotGate(db, r, n).value)
  {
    if n.series.Some? && n.slot.Some? { EmptySlotHasNoHolder(db, n); }
    PausedFailureIsFound(db, n);
  }

  lemma {:induction false} RefusalsAreTruthful(db: Db, r: RunId, n: NewRequest, now: int)
    requires OneCyclePerRequest(db) && Enqueue(db, r, n, now).Err?
    ensures Truthful(db, r, n, Enqueue(db, r, n, now).error)
  {
    if SourceGate(db, r, n).Some? {
      SourceRefusal(db, r, n);
    } else if LineageGate(n).Some? {
      LineageRefusal(db, r, n);
    } else if PreviousGate(db, r, n).Some? {
      assert !GoodContext(db, r, n);
    } else if SeriesGate(db, r, n).Some? {
      SeriesRefusal(db, r, n);
    } else {
      SlotRefusal(db, r, n);
    }
  }

  // ---- starting a series ----

  // No series of the run is in an active status.
  ghost predicate NoneActive(db: Db, r: RunId) {
    forall s :: 0 <= s < |db.series| && db.series[s].run == r ==>
      db.series[s].status == AutoCompleted || db.series[s].status == SeriesCanceled
  }

  // One more than the highest number of the run's series, or one.
  ghost predicate FollowsNumbers(db: Db, r: RunId, number: nat) {
    && (forall s :: 0 <= s < |db.series| && db.series[s].run == r ==> db.series[s].number < number)
    && (number == 1 || exists s :: 0 <= s < |db.series| && db.series[s].run == r && db.series[s].number == number - 1)
  }

  // The series and the queued request of its first slot, with this instruction.
  ghost predicate Starts(db: Db, after: Db, r: RunId, target: int, interval: int, now: int, instruction: string) {
    && |after.series| == |db.series| + 1 && after.series[..|db.series|] == db.series
    && FollowsNumbers(db, r, after.series[|db.series|].number)
    && after.series[|db.series|] ==
       Series(r, after.series[|db.series|].number, Running, target, 0, interval, None, None, None)
    && |after.requests| == |db.requests| + 1 && after.requests[..|db.requests|] == db.requests
    && after.requests[|db.requests|] == Request(
         r, Some(|db.series|), Some(1), Auto, SlotSource(|db.series|, 1, 1), Queued, instruction, None, None, now, None, None)
    && after == db.(requests := after.requests, series := after.series)
  }

  // The caller's instruction, or else the run's objective.
  function Opening(db: Db, r: RunId, first: Option<string>): string
    requires r < |db.runs|
  {
    if first.Some? then first.value else db.runs[r].objective
  }

  lemma {:induction false} NoneActiveIsNotFound(db: Db, r: RunId)
    ensures NoneActive(db, r) <==> ActiveSeriesOf(db.series, r).None?
  {
    var found := ActiveSeriesOf(db.series, r);
    if found.Some? { assert IsActiveOf(db.series[found.value], r); }
    if found.None? {
      forall s | 0 <= s < |db.series| && db.series[s].run == r
        ensures db.series[s].status == AutoCompleted || db.series[s].status == SeriesCanceled
      {
        assert !IsActiveOf(db.series[s], r);
      }
    }
  }

  lemma {:induction false} NextNumberFollows(db: Db, r: RunId)
    ensures FollowsNumbers(db, r, NextNumber(db.series, r))
  {
    var latest := LatestSeries(db.series, r);
    if latest.Some? { assert db.series[latest.value].number == NextNumber(db.series, r) - 1; }
  }

  ghost function StartRefusal(db: Db, r: RunId, target: int, interval: int): CycleError {
    if target < 1 then BadRepeatCount
    else if interval < 0 then NegativeInterval
    else if !NoneActive(db, r) then AlreadyActiveSeries
    else NoObjective
  }

  // Inside the caller's transaction, on a run that takes requests.
  lemma {:induction false} InitializesIff(db: Db, r: RunId, target: int, interval: int, now: int, first: Option<string>)
    requires Inv(db) && Takes(db, r)
    ensures var made := InitializeSeries(db, r, target, interval, now, first);
      && (made.Ok? <==> target >= 1 && interval >= 0 && NoneActive(db, r) && (first.Some? || db.runs[r].objective != ""))
      && (made.Ok? ==>
           && made.value.1 == |db.series| && made.value.2 == |db.requests|
           && Starts(db, made.value.0, r, target, interval, now, Opening(db, r, first)))
      && (made.Err? ==> made.error == StartRefusal(db, r, target, interval))
  {
    NoneActiveIsNotFound(db, r);
    NextNumberFollows(db, r);
    if target >= 1 && interval >= 0 && NoneActive(db, r) && (first.Some? || db.runs[r].objective != "") {
      var number := NextNumber(db.series, r);
      var added := db.(series := db.series + [Series(r, number, Running, target, 0, interval, None, None, None)]);
      FirstSlotIsAccepted(db, added, r, Opening(db, r, first), now);
    }
  }

  lemma {:induction false} FirstSlotIsAccepted(db: Db, added: Db, r: RunId, instruction: string, now: int)
    requires Inv(db) && Takes(db, r) && |added.series| == |db.series| + 1 && added == db.(series := added.series)
    requires var row := added.series[|db.series|]; row.run == r && row.status == Running && row.settled == 0 && row.target >= 1
    ensures var n := FirstSlot(|db.series|, instruction); var e := Enqueue(added, r, n, now);
      e.Ok? && e.value.1 == |db.requests| && Adds(added, e.value.0, r, n, now) && e.value.0.series == added.series
  {
    var n := FirstSlot(|db.series|, instruction);
    forall i | 0 <= i < |db.requests|
      ensures db.requests[i].series != n.series && (db.requests[i].source != Auto || db.requests[i].sourceId != n.sourceId)
    {
      assert RequestOk(db, i);
    }
    assert Unseen(added, r, n);
    assert SlotEmpty(added, n);
    AutoAcceptedIff(added, r, n, now);
  }

  /**
    A new series is accepted exactly on a run that takes requests, has no active series, and has an
    instruction to start with: the caller's, or an objective. Its first slot is queued with it.
  */
  lemma {:induction false} CreateSeriesIff(db: Db, r: RunId, target: int, interval: int, now: int, first: Option<string>)
    requires Inv(db)
    ensures var made := CreateSeries(db, r, target, interval, now, first);
      && (made.Ok? <==>
           && Takes(db, r) && target >= 1 && interval >= 0 && NoneActive(db, r)
           && (first.Some? || db.runs[r].objective != ""))
      && (made.Ok? ==>
           && made.value.1 == |db.series| && made.value.2 == |db.requests|
           && Starts(db, made.value.0, r, target, interval, now, Opening(db, r, first)))
      && (made.Err? && made.error == NoObjective <==>
           && Takes(db, r) && target >= 1 && interval >= 0 && NoneActive(db, r)
           && first.None? && db.runs[r].objective == "")
  {
    if Takes(db, r) { InitializesIff(db, r, target, interval, now, first); }
  }

  // The run's series with the highest number.
  ghost predicate IsLatest(db: Db, r: RunId, s: SeriesId) {
    && s < |db.series| && db.series[s].run == r
    && forall t :: 0 <= t < |db.series| && db.series[t].run == r ==> db.series[t].number <= db.series[s].number
  }

  /**
    A restart is accepted exactly on an AUTO run with an objective whose latest series is completed;
    it starts a series of the same length and interval with the objective.
  */
  lemma {:induction false} RestartSeriesIff(db: Db, r: RunId, now: int, s: SeriesId)
    requires Inv(db) && IsLatest(db, r, s)
    ensures var made := RestartSeries(db, r, now);
      && (made.Ok? <==>
           && Takes(db, r) && db.runs[r].policy == AutoPolicy && db.series[s].status == AutoCompleted
           && db.series[s].target >= 1 && db.runs[r].objective != "")
      && (made.Ok? ==>
           && made.value.1 == |db.series| && made.value.2 == |db.requests|
           && Starts(db, made.value.0, r, db.series[s].target, db.series[s].interval, now, db.runs[r].objective))
      && (made.Err? && made.error == NoObjective <==>
           && Takes(db, r) && db.runs[r].policy == AutoPolicy && db.series[s].status == AutoCompleted
           && db.series[s].target >= 1 && db.runs[r].objective == "")
  {
    LatestIsUnique(db, r, s);
    if Takes(db, r) {
      InitializesIff(db, r, db.series[s].target, db.series[s].interval, now, None);
      assert SeriesOk(db, s);
      if db.series[s].status == AutoCompleted { LatestCompletedMeansNoneActive(db, r, s); }
    }
  }

  lemma {:induction false} LowerIsOlder(db: Db, s: SeriesId, t: SeriesId)
    requires OneActive(db) && s < |db.series| && t < |db.series| && db.series[s].run == db.series[t].run
    requires db.series[s].number <= db.series[t].number
    ensures s <= t
  {
  }

  lemma {:induction false} LatestIsUnique(db: Db, r: RunId, s: SeriesId)
    requires OneActive(db) && IsLatest(db, r, s)
    ensures LatestSeries(db.series, r) == Some(s)
  {
    var t := LatestSeries(db.series, r).value;
    LowerIsOlder(db, s, t);
    LowerIsOlder(db, t, s);
  }

  lemma {:induction false} LatestCompletedMeansNoneActive(db: Db, r: RunId, s: SeriesId)
    requires OneActive(db) && IsLatest(db, r, s) && db.series[s].status == AutoCompleted
    ensures NoneActive(db, r)
  {
    forall t | 0 <= t < |db.series| && db.series[t].run == r
      ensures db.series[t].status == AutoCompleted || db.series[t].status == SeriesCanceled
    {
      LowerIsOlder(db, t, s);
      if t < s { assert !ActiveSeries(db.series[t].status); }
    }
  }

  // ---- claims ----

  ghost predicate BeingDispatched(db: Db, r: RunId) {
    exists i :: 0 <= i < |db.requests| && db.requests[i].run == r && db.requests[i].status == Dispatching
  }

  // Queued, and before every other queued request of its run by creation time, then by row.
  ghost predicate HeadOfQueue(db: Db, q: RequestId) {
    && q < |db.requests| && db.requests[q].status == Queued
    && forall i :: 0 <= i < |db.requests| && db.requests[i].run == db.requests[q].run && db.requests[i].status == Queued ==>
         db.requests[q].createdAt < db.requests[i].createdAt
         || (db.requests[q].createdAt == db.requests[i].createdAt && q <= i)
  }

  /**
    A claim is refused on an unknown or canceled run; otherwise it takes the head of the run's queue,
    or nothing when a request is being dispatched or none is queued.
  */
  lemma {:induction false} ClaimTakes(db: Db, r: RunId, now: int)
    ensures var claimed := Claim(db, r, now);
      && (claimed.Err? <==> r >= |db.runs| || db.runs[r].status == RunCanceled)
      && (claimed.Err? ==> claimed.error == if r >= |db.runs| then RunNotFound else RunIsCanceled)
      && (claimed.Ok? && claimed.value.1.None? ==>
           && claimed.value.0 == db
           && (BeingDispatched(db, r) || forall i :: 0 <= i < |db.requests| ==> !IsQueued(db.requests[i], r)))
      && (claimed.Ok? && claimed.value.1.Some? ==>
           var q := claimed.value.1.value;
           && HeadOfQueue(db, q) && db.requests[q].run == r && !BeingDispatched(db, r)
           && claimed.value.0 == db.(requests := db.requests[q :=
                db.requests[q].(status := Dispatching, claimedAt := Some(now))]))
  {
    if r < |db.runs| {
      var dispatching, next := DispatchingOf(db.requests, r), NextQueued(db.requests, r);
      if dispatching.Some? { assert IsDispatching(db.requests[dispatching.value], r); }
      if dispatching.None? {
        forall i | 0 <= i < |db.requests| ensures !(db.requests[i].run == r && db.requests[i].status == Dispatching) {
          assert !IsDispatching(db.requests[i], r);
        }
      }
      if next.Some? { FirstIsHead(db, r, next.value); }
    }
  }

  lemma {:induction false} FirstIsHead(db: Db, r: RunId, q: RequestId)
    requires q < |db.requests| && IsQueued(db.requests[q], r) && FirstQueued(db.requests, r, q)
    ensures HeadOfQueue(db, q)
  {
    forall i | 0 <= i < |db.requests| && db.requests[i].run == r && db.requests[i].status == Queued
      ensures db.requests[q].createdAt < db.requests[i].createdAt
        || (db.requests[q].createdAt == db.requests[i].createdAt && q <= i)
    {
      assert IsQueued(db.requests[i], r);
    }
  }

  ghost predicate HasCycle(db: Db, q: RequestId) {
    exists c :: 0 <= c < |db.cycles| && db.cycles[c].request == Some(q)
  }

  lemma {:induction false} HasCycleIsFound(db: Db, q: RequestId)
    ensures HasCycle(db, q) <==> CycleOf(db.cycles, q).Some?
  {
    var found := CycleOf(db.cycles, q);
    if found.Some? { assert db.cycles[found.value].request == Some(q); }
  }

  /** A claim goes back exactly when it is being dispatched without a cycle; the row is as before the claim. */
  lemma {:induction false} RequeueReturns(db: Db, q: RequestId)
    ensures var requeued := Requeue(db, q);
      && (requeued.Ok? <==> q < |db.requests| && db.requests[q].status == Dispatching && !HasCycle(db, q))
      && (requeued.Ok? ==> requeued.value == db.(requests := db.requests[q :=
           db.requests[q].(status := Queued, claimedAt := None)]))
      && (requeued.Err? ==> (
           requeued.error ==
           if q >= |db.requests| then RequestNotFound
           else if db.requests[q].status != Dispatching then RequestNotDispatching
           else RequestHasCycle))
  {
    HasCycleIsFound(db, q);
  }

  // ---- settlement ----

  // The series of the request, as the pause of the cycle leaves it; without a series nothing is written.
  predicate Pauses(db: Db, after: Db, c: CycleId, q: RequestId, status: SeriesStatus, reason: string)
    requires q < |db.requests|
  {
    if db.requests[q].series.None? then after == db
    else
      var s := db.requests[q].series.value;
      && s < |db.series| == |after.series|
      && after == db.(series := db.series[s := after.series[s]])
      && var row := db.series[s];
         after.series[s] == Series(
           row.run, row.number, status, row.target, row.settled, row.interval, None, Some(reason), Some(c))
  }

  // Nobody is told; the transition is reported when the series row has changed.
  predicate PauseReport(db: Db, after: Db, q: RequestId, report: Settlement)
    requires q < |db.requests|
  {
    && report.request == q && report.series == db.requests[q].series && !report.queueReady
    && (report.transitioned <==> after != db)
  }

  // On coupled tables the flag and the written row agree.
  lemma {:induction false} PauseWrites(db: Db, c: CycleId, q: RequestId, status: SeriesStatus, reason: string)
    requires Inv(db) && q < |db.requests| && status != WaitingInterval
    requires db.requests[q].series.Some? ==> db.requests[q].series.value < |db.series|
    ensures var paused := Pause(db, c, q, status, reason);
      && (paused.Ok? <==> db.requests[q].status == Dispatching)
      && (paused.Err? ==> paused.error == RequestNotDispatching)
      && (paused.Ok? ==>
           && Pauses(db, paused.value.0, c, q, status, reason)
           && PauseReport(db, paused.value.0, q, paused.value.1))
  {
    if db.requests[q].status == Dispatching && db.requests[q].series.Some? {
      var s := db.requests[q].series.value;
      assert SeriesOk(db, s);
      var after := Pause(db, c, q, status, reason).value.0;
      assert after.series[s] == db.series[s] <==> after.series == db.series;
    }
  }

  // The cycle's request, which the coupling says exists.
  predicate Linked(db: Db, c: CycleId) { c < |db.cycles| && db.cycles[c].request.Some? }

  lemma {:induction false} LinkedRequest(db: Db, c: CycleId)
    requires Inv(db) && Linked(db, c)
    ensures var q := db.cycles[c].request.value;
      && q < |db.requests| && (db.requests[q].series.Some? ==> db.requests[q].series.value < |db.series|)
  {
    assert CycleOk(db, c) && RequestOk(db, db.cycles[c].request.value);
  }

  /** Pausing is refused in any other status of the cycle and for a request that is not being dispatched. */
  lemma {:induction false} PauseByIdIff(db: Db, c: CycleId, expected: CycleStatus, status: SeriesStatus, reason: string)
    requires Inv(db) && status != WaitingInterval
    ensures var paused := PauseById(db, c, expected, status, reason);
      && (paused.Ok? <==>
           && Linked(db, c) && db.cycles[c].status == expected
           && var q := db.cycles[c].request.value; q < |db.requests| && db.requests[q].status == Dispatching)
      && (paused.Err? ==> (
           paused.error ==
           if c >= |db.cycles| then CycleNotFound
           else if db.cycles[c].status != expected then WrongCycleStatus
           else if db.cycles[c].request.None? then CycleNotLinked
           else RequestNotDispatching))
      && (paused.Ok? ==>
           && Pauses(db, paused.value.0, c, db.cycles[c].request.value, status, reason)
           && PauseReport(db, paused.value.0, db.cycles[c].request.value, paused.value.1))
  {
    if Linked(db, c) {
      LinkedRequest(db, c);
      PauseWrites(db, c, db.cycles[c].request.value, status, reason);
    }
  }

  /**
    What a settlement does in each status of the cycle: it pauses for the user or an interruption,
    refuses an unfinished cycle, leaves a closed request alone, and closes the one being dispatched.
  */
  lemma {:induction false} SettleDecides(db: Db, c: CycleId, now: int)
    requires Inv(db) && Linked(db, c)
    ensures var q := db.cycles[c].request.value; q < |db.requests|
    ensures var settled, status, q := Settle(db, c, now), db.cycles[c].status, db.cycles[c].request.value;
      match status
      case WaitingForUser => settled == PauseById(db, c, WaitingForUser, PausedUser, "waiting_for_user")
      case Interrupted => settled == PauseById(db, c, Interrupted, PausedInterrupted, "interrupted")
      case CycleQueued => settled == Err(CycleNotReady)
      case CycleRunning => settled == Err(CycleNotReady)
      case WaitingForProvider => settled == Err(CycleNotReady)
      case CyclePaused => settled == Err(CycleNotReady)
      case _ =>
        if db.requests[q].status == Dispatching then
          settled.Ok? && settled.value.1.transitioned
        else settled == Ok((db, Settlement(q, db.requests[q].series, false, false)))
  {
    LinkedRequest(db, c);
    assert CycleOk(db, c);
  }

  // The series row after its slot has been settled or passed over at `now`.
  predicate SlotCounted(before: Series, after: Series, now: int) {
    after ==
      if before.settled + 1 >= before.target then
        Series(before.run, before.number, AutoCompleted, before.target, before.settled + 1, before.interval, None, None, None)
      else
        Series(before.run, before.number, WaitingInterval, before.target, before.settled + 1, before.interval,
               Some(now + before.interval), None, None)
  }

  // The series row after a first settlement of its cycle.
  predicate SeriesSettled(before: Series, after: Series, c: CycleId, cycle: Cycle, now: int) {
    match cycle.status
    case Completed => SlotCounted(before, after, now)
    case CompletedWithFailures => SlotCounted(before, after, now)
    case CycleCanceled => after == Series(
      before.run, before.number, SeriesCanceled, before.target, before.settled, before.interval, None, Some("canceled"), Some(c))
    case _ => after == Series(
      before.run, before.number, PausedFailure, before.target, before.settled, before.interval, None,
      Some(if cycle.error == "" then "Cycle failed" else cycle.error), Some(c))
  }

  // Another request of the run can be claimed.
  ghost predicate WorkWaits(db: Db, r: RunId) {
    !BeingDispatched(db, r) && exists i :: 0 <= i < |db.requests| && db.requests[i].run == r && db.requests[i].status == Queued
  }

  lemma {:induction false} QueueReadyIff(db: Db, r: RunId)
    ensures QueueReady(db.requests, r) <==> WorkWaits(db, r)
  {
    var dispatching, next := DispatchingOf(db.requests, r), NextQueued(db.requests, r);
    if dispatching.Some? { assert IsDispatching(db.requests[dispatching.value], r); }
    if next.Some? { assert IsQueued(db.requests[next.value], r); }
    if BeingDispatched(db, r) {
      var i :| 0 <= i < |db.requests| && db.requests[i].run == r && db.requests[i].status == Dispatching;
      assert IsDispatching(db.requests[i], r);
    }
    if WorkWaits(db, r) {
      var i :| 0 <= i < |db.requests| && db.requests[i].run == r && db.requests[i].status == Queued;
      assert IsQueued(db.requests[i], r);
    }
  }

  /** A first settlement, row by row, and what it reports. */
  lemma {:induction false} FirstSettlement(db: Db, c: CycleId, now: int)
    requires Inv(db) && Linked(db, c) && Settle(db, c, now).Ok? && Settle(db, c, now).value.1.transitioned
    requires db.cycles[c].status !in {WaitingForUser, Interrupted}
    ensures var q := db.cycles[c].request.value;
      && q < |db.requests| && db.requests[q].status == Dispatching
      && (db.requests[q].series.Some? ==> db.requests[q].series.value < |db.series|)
      && var (after, report) := Settle(db, c, now).value;
         && after == db.(requests := after.requests, series := after.series)
         && after.requests == db.requests[q := db.requests[q].(
              status := if db.cycles[c].status == CycleCanceled then ReqCanceled else ReqSettled, settledAt := Some(now))]
         && (db.requests[q].series.None? ==> after.series == db.series)
         && (db.requests[q].series.Some? ==>
              var s := db.requests[q].series.value;
              && |after.series| == |db.series| && after.series == db.series[s := after.series[s]]
              && SeriesSettled(db.series[s], after.series[s], c, db.cycles[c], now))
         && report.request == q && report.series == db.requests[q].series
         && (report.queueReady <==> WorkWaits(after, db.requests[q].run))
  {
    LinkedRequest(db, c);
    QueueReadyIff(Settle(db, c, now).value.0, db.requests[db.cycles[c].request.value].run);
  }

  // The requests that a slot has had.
  ghost function RequestsIn(requests: seq<Request>, s: SeriesId, slot: int): set<RequestId> {
    set q: RequestId | 0 <= q < |requests| && requests[q].series == Some(s) && requests[q].slot == Some(slot)
  }

  lemma {:induction false} OneMoreRequest(init: seq<Request>, last: Request, s: SeriesId, slot: int)
    ensures RequestsIn(init + [last], s, slot) == RequestsIn(init, s, slot)
        + if last.series == Some(s) && last.slot == Some(slot) then {|init|} else {}
  {
    var requests := init + [last];
    assert forall q :: 0 <= q < |init| ==> requests[q] == init[q];
  }

  /** A retry is numbered after every request its slot has had: their number is what it counts. */
  lemma {:induction false} RetryIsNumbered(requests: seq<Request>, s: SeriesId, slot: int)
    ensures CountSlot(requests, s, slot) == |RequestsIn(requests, s, slot)|
  {
    if requests != [] {
      var init, last := requests[..|requests| - 1], requests[|requests| - 1];
      RetryIsNumbered(init, s, slot);
      OneMoreRequest(init, last, s, slot);
      assert requests == init + [last];
    }
  }

  /** Continuing counts the failed slot; it is accepted exactly for a series of the run paused after a failure. */
  lemma {:induction false} ContinueIff(db: Db, r: RunId, s: SeriesId, now: int)
    ensures var continued := ContinueFailed(db, r, s, now);
      && (continued.Ok? <==> s < |db.series| && db.series[s].run == r && db.series[s].status == PausedFailure)
      && (continued.Ok? ==>
           && |continued.value.series| == |db.series|
           && continued.value == db.(series := db.series[s := continued.value.series[s]])
           && SlotCounted(db.series[s], continued.value.series[s], now))
      && (continued.Err? ==> (
           continued.error ==
           if s >= |db.series| then SeriesNotFound
           else if db.series[s].run != r then SeriesOfOtherRun
           else SeriesNotPausedAfterFailure))
  {
  }

  /** Marking settled closes any request but a canceled one; a settled one stays as it is. */
  lemma {:induction false} MarkSettledIff(db: Db, q: RequestId, now: int)
    ensures var marked := MarkSettled(db, q, now);
      && (marked.Ok? <==> q < |db.requests| && db.requests[q].status != ReqCanceled)
      && (marked.Ok? ==> (
           marked.value ==
           if db.requests[q].status == ReqSettled then db
           else db.(requests := db.requests[q := db.requests[q].(status := ReqSettled, settledAt := Some(now))])))
      && (marked.Err? ==> marked.error == if q >= |db.requests| then RequestNotFound else CanceledRequest)
  {
  }

  // ---- cancellation ----

  predicate RequestOf(db: Db, request: Option<RequestId>, r: RunId) {
    request.Some? && request.value < |db.requests| && db.requests[request.value].run == r
  }

  // What cancelling run r does to every row of every table.
  ghost predicate Cancels(db: Db, after: Db, r: RunId, reason: string, now: int) {
    && |after.runs| == |db.runs| && |after.requests| == |db.requests| && |after.series| == |db.series|
    && |after.cycles| == |db.cycles| && |after.operations| == |db.operations| && |after.hooks| == |db.hooks|
    && (forall i :: 0 <= i < |db.runs| ==>
         after.runs[i] ==
           if i == r && db.runs[i].status !in {RunCompleted, RunCompletedWithFailures, RunFailed}
           then db.runs[i].(status := RunCanceled) else db.runs[i])
    && (forall i :: 0 <= i < |db.requests| ==>
         after.requests[i] ==
           if db.requests[i].run == r && db.requests[i].status in {Queued, Dispatching}
           then db.requests[i].(status := ReqCanceled, settledAt := Some(now)) else db.requests[i])
    && (forall i :: 0 <= i < |db.series| ==>
         after.series[i] ==
           if db.series[i].run == r
              && db.series[i].status in {Running, WaitingInterval, PausedFailure, PausedUser, PausedInterrupted}
           then db.series[i].(status := SeriesCanceled, nextRunAt := None, pauseReason := Some(reason)) else db.series[i])
    && (forall i :: 0 <= i < |db.cycles| ==>
         after.cycles[i] ==
           if RequestOf(db, db.cycles[i].request, r)
              && db.cycles[i].status in {CycleQueued, CycleRunning, WaitingForUser, WaitingForProvider, Interrupted}
           then db.cycles[i].(status := CycleCanceled, error := reason) else db.cycles[i])
    && (forall i :: 0 <= i < |db.operations| ==>
         after.operations[i] ==
           if db.operations[i].run == r
              && db.operations[i].status in {Prepared, Invoking, OpCompleted, OpWaiting, Ambiguous}
           then db.operations[i].(status := OpCanceled) else db.operations[i])
    && (forall i :: 0 <= i < |db.hooks| ==>
         after.hooks[i] ==
           if RequestOf(db, db.hooks[i].request, r)
              && db.hooks[i].status in {HookQueued, HookRunning, HookWaiting, HookInterrupted}
           then db.hooks[i].(status := HookCanceled) else db.hooks[i])
  }

  /** Cancellation is for continuous runs, and writes exactly these rows. */
  lemma {:induction false} CancelIff(db: Db, r: RunId, reason: string, now: int)
    ensures var canceled := Cancel(db, r, reason, now);
      && (canceled.Ok? <==> r < |db.runs| && db.runs[r].continuous)
      && (canceled.Ok? ==> Cancels(db, canceled.value, r, reason, now))
      && (canceled.Err? ==> canceled.error == if r >= |db.runs| then RunNotFound else RunNotContinuous)
  {
    if r < |db.runs| { CanceledRunRow(db.runs[r]); }
  }

  lemma {:induction false} CanceledRunRow(run: Run)
    ensures CanceledRun(run) ==
      if run.status !in {RunCompleted, RunCompletedWithFailures, RunFailed} then run.(status := RunCanceled) else run
  {
  }

  // ---- cycles ----

  /**
    A cycle is created for a request being dispatched, queued and empty, of the request's run; a
    request that has one gets that one back.
  */
  lemma {:induction false} CreateCycleIff(db: Db, q: RequestId)
    ensures var created := CreateCycle(db, q);
      && (created.Ok? <==> q < |db.requests| && (HasCycle(db, q) || db.requests[q].status == Dispatching))
      && (created.Ok? ==> (
           var (after, c) := created.value;
           && (HasCycle(db, q) ==> after == db && c < |db.cycles| && db.cycles[c].request == Some(q))
           && (!HasCycle(db, q) ==>
                && c == |db.cycles|
                && after == db.(cycles := db.cycles + [Cycle(db.requests[q].run, Some(q), CycleQueued, "", None)]))))
      && (created.Err? ==> created.error == if q >= |db.requests| then RequestNotFound else RequestNotDispatching)
  {
    HasCycleIsFound(db, q);
  }

  // The series of the request that the cycle is working on.
  predicate WorksFor(db: Db, c: CycleId, s: SeriesId) {
    && c < |db.cycles| && db.cycles[c].request.Some? && db.cycles[c].request.value < |db.requests| && s < |db.series|
    && db.requests[db.cycles[c].request.value].status == Dispatching
    && db.requests[db.cycles[c].request.value].series == Some(s)
  }

  /** A published decision stops a running cycle and its series for the user; anything else is left alone. */
  lemma {:induction false} PublishStopsForUser(db: Db, c: CycleId)
    ensures var after := PublishDecision(db, c);
      (forall s: SeriesId ::
         WorksFor(db, c, s) && db.cycles[c].status == CycleRunning
         && db.series[s].status in {Running, WaitingInterval, PausedUser} ==>
           var row := db.series[s];
           after == db.(
             cycles := db.cycles[c := db.cycles[c].(status := WaitingForUser, error := "")],
             series := db.series[s := Series(row.run, row.number, PausedUser, row.target, row.settled, row.interval,
                                             None, Some("waiting_for_user"), Some(c))]))
      && (after != db ==>
           exists s: SeriesId :: WorksFor(db, c, s) && db.cycles[c].status == CycleRunning
             && db.series[s].status in {Running, WaitingInterval, PausedUser})
  {
    var after := PublishDecision(db, c);
    if after != db {
      var s := db.requests[db.cycles[c].request.value].series.value;
      assert WorksFor(db, c, s);
    }
  }

  /** An answer lets both run again. */
  lemma {:induction false} AnswerResumes(db: Db, c: CycleId)
    ensures var after := AnswerDecision(db, c);
      (forall s: SeriesId ::
         WorksFor(db, c, s) && db.cycles[c].status == WaitingForUser && db.series[s].status == PausedUser ==>
           var row := db.series[s];
           after == db.(
             cycles := db.cycles[c := db.cycles[c].(status := CycleRunning, error := "")],
             series := db.series[s := Series(row.run, row.number, Running, row.target, row.settled, row.interval,
                                             None, None, None)]))
      && (after != db ==>
           exists s: SeriesId :: WorksFor(db, c, s) && db.cycles[c].status == WaitingForUser
             && db.series[s].status == PausedUser)
  {
    var after := AnswerDecision(db, c);
    if after != db {
      var s := db.requests[db.cycles[c].request.value].series.value;
      assert WorksFor(db, c, s);
    }
  }

  // ---- the timer ----

  // Nothing to tell the team: no proposal to follow, no way but the objective, and the objective is empty.
  predicate WantsObjective(db: Db, r: RunId) {
    var latest := LatestFinal(db.cycles, r);
    && (latest.None? || (db.cycles[latest.value].proposal.None? && db.cycles[latest.value].status in {Failed, Blocked}))
    && r < |db.runs| && db.runs[r].objective == ""
  }

  // The due series ends because the lead proposed nothing.
  predicate EndsSeries(before: Series, after: Series) {
    after == Series(before.run, before.number, AutoCompleted, before.target, before.settled, before.interval,
                    None, Some("lead_proposed_no_next_cycle"), None)
  }

  // The due series runs again, without its alarm.
  predicate WakesSeries(before: Series, after: Series) {
    after == Series(before.run, before.number, Running, before.target, before.settled, before.interval,
                    None, before.pauseReason, before.pausedCycle)
  }

  // The request of the series' next slot.
  ghost predicate IsNextSlot(db: Db, s: SeriesId, row: Request, now: int)
    requires s < |db.series| && db.series[s].run < |db.runs|
  {
    && row == Request(db.series[s].run, Some(s), Some(db.series[s].settled + 1), Auto,
                      SlotSource(s, db.series[s].settled + 1, 1), Queued, row.instruction,
                      LatestFinal(db.cycles, db.series[s].run), None, now, None, None)
    && Instructs(db, db.series[s].run, row.instruction)
  }

  /** The timer on one due series: every row and what it reports. */
  lemma {:induction false} TickOneDecides(db: Db, s: SeriesId, now: int)
    requires Inv(db) && s < |db.series| && Due(db, s, now)
    ensures var one, r := TickOne(db, s, now), db.series[s].run;
      && (one.Err? <==> WantsObjective(db, r)) && (one.Err? ==> one.error == NoObjective)
      && (one.Ok? ==> (
           var (after, result) := one.value;
           && |after.series| == |db.series| && after.series == db.series[s := after.series[s]]
           && after == db.(requests := after.requests, series := after.series)
           && (NothingProposed(db, r) ==>
                EndsSeries(db.series[s], after.series[s]) && after.requests == db.requests && result == TickResult([], [s]))
           && (!NothingProposed(db, r) ==>
                && WakesSeries(db.series[s], after.series[s]) && result == TickResult([|db.requests|], [])
                && |after.requests| == |db.requests| + 1 && after.requests[..|db.requests|] == db.requests
                && IsNextSlot(db, s, after.requests[|db.requests|], now))))
  {
    TickOneOutcome(db, s, now);
    assert SeriesOk(db, s);
    var run := db.series[s].run;
    var previous := LatestFinal(db.cycles, run);
    var instruction := AutoInstruction(db.runs, db.cycles, run, previous);
    if instruction.Ok? && instruction.value.Some? {
      WaitingSlotIsFree(db, s, previous, instruction.value.value);
    }
  }

  // The series the tick went through are as it leaves them, and the others untouched.
  ghost predicate SeriesTicked(db: Db, after: Db, due: seq<SeriesId>) {
    && |after.series| == |db.series| && (forall k :: 0 <= k < |due| ==> due[k] < |db.series|)
    && (forall s :: 0 <= s < |db.series| && s !in due ==> after.series[s] == db.series[s])
    && (forall k :: 0 <= k < |due| ==> SeriesLeft(db, after, due[k]))
  }

  predicate SeriesLeft(db: Db, after: Db, s: SeriesId)
    requires s < |db.series| == |after.series|
  {
    if NothingProposed(db, db.series[s].run) then EndsSeries(db.series[s], after.series[s])
    else WakesSeries(db.series[s], after.series[s])
  }

  // The old requests are untouched; the new ones are the next slots of the series that go on, in order.
  ghost predicate RowsTicked(db: Db, after: Db, due: seq<SeriesId>, created: seq<RequestId>, now: int) {
    && |after.requests| == |db.requests| + |created| && after.requests[..|db.requests|] == db.requests
    && (forall j :: 0 <= j < |created| ==> created[j] == |db.requests| + j)
    && SeriesOf(after.requests[|db.requests|..]) == Woken(db, due)
    && (forall j :: |db.requests| <= j < |after.requests| ==> IsSlotRow(db, after.requests[j], now))
  }

  ghost predicate Ticked(db: Db, after: Db, due: seq<SeriesId>, result: TickResult, now: int) {
    && after == db.(requests := after.requests, series := after.series)
    && SeriesTicked(db, after, due) && RowsTicked(db, after, due, result.created, now)
    && result.completed == Ended(db, due)
  }

  // A new row is the next slot of its series.
  ghost predicate IsSlotRow(db: Db, row: Request, now: int) {
    && row.series.Some? && row.series.value < |db.series| && db.series[row.series.value].run < |db.runs|
    && IsNextSlot(db, row.series.value, row, now)
  }

  function SeriesOf(rows: seq<Request>): seq<SeriesId> {
    seq(|rows|, i requires 0 <= i < |rows| => if rows[i].series.Some? then rows[i].series.value else 0)
  }

  // The due series whose run has something to do next, and those that end, in the order of the list.
  function Woken(db: Db, due: seq<SeriesId>): seq<SeriesId> {
    if due == [] then []
    else
      (if due[0] < |db.series| && !NothingProposed(db, db.series[due[0]].run) then [due[0]] else []) + Woken(db, due[1..])
  }

  function Ended(db: Db, due: seq<SeriesId>): seq<SeriesId> {
    if due == [] then []
    else
      (if due[0] < |db.series| && NothingProposed(db, db.series[due[0]].run) then [due[0]] else []) + Ended(db, due[1..])
  }

  // Only the runs and the cycles and the rows of the listed series matter.
  lemma {:induction false} SameProspects(db: Db, mid: Db, due: seq<SeriesId>)
    requires mid.runs == db.runs && mid.cycles == db.cycles && |mid.series| == |db.series|
    requires forall k :: 0 <= k < |due| ==> due[k] < |db.series| && mid.series[due[k]] == db.series[due[k]]
    ensures Woken(mid, due) == Woken(db, due) && Ended(mid, due) == Ended(db, due)
  {
    if due != [] {
      assert forall k :: 0 <= k < |due[1..]| ==> due[1..][k] == due[k + 1];
      SameProspects(db, mid, due[1..]);
    }
  }

  // The whole tick is the step for its first series, then the tick over the others.
  lemma {:induction false} TickUnfolds(db: Db, due: seq<SeriesId>, now: int)
    requires due != [] && due[0] < |db.series|
    ensures var tick, one := Tick(db, due, now), TickOne(db, due[0], now);
      && (one.Err? ==> tick == Err(one.error))
      && (one.Ok? ==>
           var rest := Tick(one.value.0, due[1..], now);
           && (tick.Ok? <==> rest.Ok?) && (rest.Err? ==> tick == Err(rest.error)))
  {
  }

  // One of the due series has nothing to tell its team.
  ghost predicate SomeWantsObjective(db: Db, due: seq<SeriesId>) {
    exists k :: 0 <= k < |due| && due[k] < |db.series| && WantsObjective(db, db.series[due[k]].run)
  }

  /** A whole tick over the due series: every row of every table, and what it reports, in order. */
  lemma {:induction false} TickDecides(db: Db, due: seq<SeriesId>, now: int)
    requires Inv(db) && DueList(db, due, now)
    ensures var tick := Tick(db, due, now);
      && (tick.Err? <==> SomeWantsObjective(db, due)) && (tick.Err? ==> tick.error == NoObjective)
      && (tick.Ok? ==> Ticked(db, tick.value.0, due, tick.value.1, now))
    decreases |due|
  {
    if due != [] {
      TickOneDecides(db, due[0], now);
      TickUnfolds(db, due, now);
      if TickOne(db, due[0], now).Ok? {
        var (mid, first) := TickOne(db, due[0], now).value;
        TailStaysDue(db, due, now);
        TickDecides(mid, due[1..], now);
        TickGoesOn(db, mid, due, now);
        if Tick(mid, due[1..], now).Ok? { TickedJoins(db, mid, due, first, now); }
      }
    }
  }

  lemma {:induction false} TickGoesOn(db: Db, mid: Db, due: seq<SeriesId>, now: int)
    requires due != [] && DueList(db, due, now) && due[0] !in due[1..] && !WantsObjective(db, db.series[due[0]].run)
    requires mid.runs == db.runs && mid.cycles == db.cycles && |mid.series| == |db.series|
    requires forall s :: 0 <= s < |db.series| && s != due[0] ==> mid.series[s] == db.series[s]
    ensures Woken(mid, due[1..]) == Woken(db, due[1..]) && Ended(mid, due[1..]) == Ended(db, due[1..])
    ensures SomeWantsObjective(db, due) <==> SomeWantsObjective(mid, due[1..])
  {
    var rest := due[1..];
    assert forall k :: 0 <= k < |rest| ==> rest[k] == due[k + 1] && rest[k] != due[0] && rest[k] in rest;
    SameProspects(db, mid, rest);
    TickErrsLater(db, mid, due);
  }

  lemma {:induction false} TickErrsLater(db: Db, mid: Db, due: seq<SeriesId>)
    requires due != [] && mid.runs == db.runs && mid.cycles == db.cycles && |mid.series| == |db.series|
    requires forall k :: 1 <= k < |due| ==> due[k] < |db.series| && mid.series[due[k]].run == db.series[due[k]].run
    requires due[0] < |db.series| && !WantsObjective(db, db.series[due[0]].run)
    ensures SomeWantsObjective(db, due) <==> SomeWantsObjective(mid, due[1..])
  {
    if k :| 0 <= k < |due| && due[k] < |db.series| && WantsObjective(db, db.series[due[k]].run) {
      assert due[1..][k - 1] == due[k] && WantsObjective(mid, mid.series[due[1..][k - 1]].run);
    }
    if k :| 0 <= k < |due[1..]| && due[1..][k] < |mid.series| && WantsObjective(mid, mid.series[due[1..][k]].run) {
      assert due[1..][k] == due[k + 1] && WantsObjective(db, db.series[due[k + 1]].run);
    }
  }

  lemma {:induction false} SeriesJoin(db: Db, mid: Db, after: Db, due: seq<SeriesId>)
    requires due != [] && due[0] < |db.series| == |mid.series| && due[0] !in due[1..]
    requires mid.runs == db.runs && mid.cycles == db.cycles && mid.series == db.series[due[0] := mid.series[due[0]]]
    requires SeriesLeft(db, mid, due[0]) && SeriesTicked(mid, after, due[1..])
    ensures SeriesTicked(db, after, due)
  {
    var rest := due[1..];
    assert forall k :: 0 <= k < |rest| ==> rest[k] == due[k + 1] && rest[k] in rest;
    forall k | 0 <= k < |due| ensures due[k] < |db.series| && SeriesLeft(db, after, due[k]) {
      if k > 0 {
        assert rest[k - 1] == due[k];
        assert SeriesLeft(mid, after, rest[k - 1]);
      }
    }
    forall s | 0 <= s < |db.series| && s !in due ensures after.series[s] == db.series[s] {
      assert s !in rest && s != due[0];
    }
  }

  lemma {:induction false} SlotRowJoins(db: Db, mid: Db, s: SeriesId, row: Request, now: int)
    requires s < |db.series| == |mid.series| && mid.runs == db.runs && mid.cycles == db.cycles
    requires mid.series == db.series[s := mid.series[s]]
    requires mid.series[s].run == db.series[s].run && mid.series[s].settled == db.series[s].settled
    requires IsSlotRow(mid, row, now)
    ensures IsSlotRow(db, row, now)
  {
    assert mid.series[row.series.value].run == db.series[row.series.value].run;
  }

  // A series that ends adds no row.
  lemma {:induction false} RowsJoinEnded(db: Db, mid: Db, after: Db, due: seq<SeriesId>, later: seq<RequestId>, now: int)
    requires due != [] && due[0] < |db.series| == |mid.series| && mid.runs == db.runs && mid.cycles == db.cycles
    requires mid.series == db.series[due[0] := mid.series[due[0]]] && mid.requests == db.requests
    requires mid.series[due[0]].run == db.series[due[0]].run && mid.series[due[0]].settled == db.series[due[0]].settled
    requires NothingProposed(db, db.series[due[0]].run) && Woken(mid, due[1..]) == Woken(db, due[1..])
    requires RowsTicked(mid, after, due[1..], later, now)
    ensures RowsTicked(db, after, due, later, now)
  {
    forall j | |db.requests| <= j < |after.requests| ensures IsSlotRow(db, after.requests[j], now) {
      SlotRowJoins(db, mid, due[0], after.requests[j], now);
    }
  }

  // One that goes on adds its row first.
  lemma {:induction false} RowsJoinWoken(db: Db, mid: Db, after: Db, due: seq<SeriesId>, later: seq<RequestId>, now: int)
    requires due != [] && due[0] < |db.series| == |mid.series| && mid.runs == db.runs && mid.cycles == db.cycles
    requires mid.series == db.series[due[0] := mid.series[due[0]]]
    requires mid.series[due[0]].run == db.series[due[0]].run && mid.series[due[0]].settled == db.series[due[0]].settled
    requires !NothingProposed(db, db.series[due[0]].run) && Woken(mid, due[1..]) == Woken(db, due[1..])
    requires |mid.requests| == |db.requests| + 1 && mid.requests[..|db.requests|] == db.requests
    requires IsSlotRow(db, mid.requests[|db.requests|], now) && mid.requests[|db.requests|].series == Some(due[0])
    requires RowsTicked(mid, after, due[1..], later, now)
    ensures RowsTicked(db, after, due, [|db.requests|] + later, now)
  {
    var n, row := |db.requests|, mid.requests[|db.requests|];
    assert after.requests[n] == after.requests[..n + 1][n] == row;
    assert after.requests[..n] == after.requests[..n + 1][..n];
    assert after.requests[n..] == [row] + after.requests[n + 1..];
    assert SeriesOf([row] + after.requests[n + 1..]) == [due[0]] + SeriesOf(after.requests[n + 1..]);
    forall j | n <= j < |after.requests| ensures IsSlotRow(db, after.requests[j], now) {
      if j > n { SlotRowJoins(db, mid, due[0], after.requests[j], now); }
    }
  }

  lemma {:induction false} TickedJoins(db: Db, mid: Db, due: seq<SeriesId>, first: TickResult, now: int)
    requires Inv(db) && DueList(db, due, now) && due != [] && TickOne(db, due[0], now) == Ok((mid, first))
    requires Tick(mid, due[1..], now).Ok? && Tick(db, due, now).Ok?
    requires Ticked(mid, Tick(mid, due[1..], now).value.0, due[1..], Tick(mid, due[1..], now).value.1, now)
    requires Woken(mid, due[1..]) == Woken(db, due[1..]) && Ended(mid, due[1..]) == Ended(db, due[1..])
    ensures Ticked(db, Tick(db, due, now).value.0, due, Tick(db, due, now).value.1, now)
  {
    TickOneDecides(db, due[0], now);
    TailStaysDue(db, due, now);
    var (after, later) := Tick(mid, due[1..], now).value;
    assert Tick(db, due, now).value == (after, TickResult(first.created + later.created, first.completed + later.completed));
    SeriesJoin(db, mid, after, due);
    if NothingProposed(db, db.series[due[0]].run) {
      RowsJoinEnded(db, mid, after, due, later.created, now);
    } else {
      assert SeriesOk(db, due[0]);
      RowsJoinWoken(db, mid, after, due, later.created, now);
    }
  }

  // ---- transactions as steps ----

  // What is left of a transaction: its tables, or those before when it was refused.
  function Left<T>(db: Db, e: Result<(Db, T), CycleError>): Db { if e.Ok? then e.value.0 else db }

  function LeftBy(db: Db, e: Result<Db, CycleError>): Db { if e.Ok? then e.value else db }

  // A step of a history is the whole transaction of its operation, or nothing.
  lemma {:induction false} StepsAreTransactions(db: Db, op: Op)
    ensures match op
      case EnqueueOp(r, row, now) => Apply(db, op) == Left(db, Enqueue(db, r, row, now))
      case ClaimOp(r, now) => Apply(db, op) == Left(db, Claim(db, r, now))
      case RequeueOp(q) => Apply(db, op) == LeftBy(db, Requeue(db, q))
      case SettleOp(c, now) => Apply(db, op) == Left(db, Settle(db, c, now))
      case ContinueOp(r, s, now) => Apply(db, op) == LeftBy(db, ContinueFailed(db, r, s, now))
      case RetryOp(r, s, now) => Apply(db, op) == Left(db, RetryFailed(db, r, s, now))
      case TickOp(due, now) => Apply(db, op) == Left(db, Tick(db, due, now))
      case CancelOp(r, reason, now) => Apply(db, op) == LeftBy(db, Cancel(db, r, reason, now))
      case MarkSettledOp(q, now) => Apply(db, op) == LeftBy(db, MarkSettled(db, q, now))
      case CreateCycleOp(q) => Apply(db, op) == Left(db, CreateCycle(db, q))
      case _ => true
  {
  }
}
