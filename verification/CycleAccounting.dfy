/**
  Slot accounting, termination and the timer: what each step may do to a series, and what
  that adds up to over a history.
*/
module CycleAccounting {
  import opened Outcomes
  import opened CycleTables
  import opened CycleSteps
  import opened CycleInvariant
  import opened CycleRuns

  // ---- what a step does to one existing series ----

  // The step settles a slot of s: a successful cycle settles for the first time, or the user continues past a failure.
  predicate SettlesSlot(db: Db, op: Op, s: SeriesId) {
    match op
    case SettleOp(c, now) =>
      && Settle(db, c, now).Ok?
      && Settle(db, c, now).value.1.transitioned
      && SuccessfulCycle(db.cycles[c].status)
      && Settle(db, c, now).value.1.series == Some(s)
    case ContinueOp(r, t, now) => t == s && ContinueFailed(db, r, t, now).Ok?
    case _ => false
  }

  // The step queues a new retry for s.
  predicate AddsRetry(before: Db, op: Op, after: Db, s: SeriesId) {
    && (op.RetryOp? || op.EnqueueOp?)
    && |after.requests| == |before.requests| + 1
    && after.requests[|before.requests|].source == Retry
    && after.requests[|before.requests|].series == Some(s)
  }

  // Running and waiting for the user are the same class: one request is out.
  datatype Class = Waiting | Out | Failing | Over

  function ClassOf(status: SeriesStatus): Class {
    match status
    case WaitingInterval => Waiting
    case Running => Out
    case PausedUser => Out
    case PausedInterrupted => Out
    case PausedFailure => Failing
    case AutoCompleted => Over
    case SeriesCanceled => Over
  }

  // How far a series is from its end.
  function Measure(s: Series): int {
    match ClassOf(s.status)
    case Waiting => 3 * (s.target - s.settled) + 2
    case Out => 3 * (s.target - s.settled) + 1
    case Failing => 3 * (s.target - s.settled)
    case Over => 0
  }

  predicate Moved(before: Series, after: Series) {
    before.settled != after.settled || ClassOf(before.status) != ClassOf(after.status)
  }

  // How any step may change a series row.
  predicate Transition(before: Series, after: Series, settles: bool, retries: bool) {
    && after.run == before.run && after.number == before.number
    && after.target == before.target && after.interval == before.interval
    && after.settled == before.settled + (if settles then 1 else 0)
    && (ClassOf(before.status) == Over ==> !Moved(before, after) && !settles && !retries)
    && (retries ==> ClassOf(before.status) == Failing && ClassOf(after.status) == Out && !settles)
    && (!retries && Moved(before, after) ==> Measure(after) < Measure(before))
    && (after.status == WaitingInterval && !settles ==> after == before)
  }

  lemma InsertTransition(db: Db, r: RunId, n: NewRequest, now: int, s: SeriesId)
    requires Inv(db) && Canonical(db, n) && s < |db.series|
    requires SourceGate(db, r, n).None? && InsertGate(db, r, n).None?
    ensures n.series.Some? ==> n.series.value < |db.series|
    ensures Insert(db, r, n, now).series[s].settled == db.series[s].settled
    ensures Transition(db.series[s], Insert(db, r, n, now).series[s], false, n.source == Retry && n.series == Some(s))
  {
    InsertGuards(db, r, n);
    assert SeriesOk(db, s);
  }

  lemma EnqueueTransition(db: Db, r: RunId, n: NewRequest, now: int, s: SeriesId)
    requires Inv(db) && Canonical(db, n) && s < |db.series|
    requires Enqueue(db, r, n, now).Ok?
    ensures var after := Enqueue(db, r, n, now).value.0;
      && |after.series| == |db.series|
      && Transition(db.series[s], after.series[s], false,
                    |after.requests| == |db.requests| + 1 && n.source == Retry && n.series == Some(s))
      && (|after.requests| == |db.requests| + 1 ==> after.requests[|db.requests|] == NewRow(r, n, now))
  {
    if FindSource(db.requests, r, n.source, n.sourceId).None? {
      InsertTransition(db, r, n, now, s);
    }
  }

  lemma TickOneTransition(db: Db, s: SeriesId, now: int, t: SeriesId)
    requires Inv(db) && s < |db.series| && t < |db.series| && TickOne(db, s, now).Ok?
    ensures |TickOne(db, s, now).value.0.series| == |db.series|
    ensures Transition(db.series[t], TickOne(db, s, now).value.0.series[t], false, false)
  {
    TickOneKeepsInv(db, s, now);
    assert SeriesOk(db, s) && SeriesOk(db, t);
    var row := db.series[s];
    var previous := LatestFinal(db.cycles, row.run);
    var instruction := AutoInstruction(db.runs, db.cycles, row.run, previous);
    if instruction.value.Some? {
      var n := NextSlot(db, s, previous, instruction.value.value);
      EnqueueTransition(db, row.run, n, now, t);
      if row.status == WaitingInterval { WaitingSlotIsFree(db, s, previous, instruction.value.value); }
    }
  }

  lemma TransitionsCompose(a: Series, b: Series, c: Series)
    requires Transition(a, b, false, false) && Transition(b, c, false, false)
    requires 0 <= a.settled <= a.target
    ensures Transition(a, c, false, false)
  {
  }

  lemma {:induction false} TickTransition(db: Db, due: seq<SeriesId>, now: int, t: SeriesId)
    requires Inv(db) && t < |db.series| && Tick(db, due, now).Ok?
    ensures |Tick(db, due, now).value.0.series| == |db.series|
    ensures Transition(db.series[t], Tick(db, due, now).value.0.series[t], false, false)
    decreases |due|
  {
    if due != [] {
      TickOneKeepsInv(db, due[0], now);
      TickOneTransition(db, due[0], now, t);
      var mid := TickOne(db, due[0], now).value.0;
      TickTransition(mid, due[1..], now, t);
      assert SeriesOk(db, t);
      TransitionsCompose(db.series[t], mid.series[t], Tick(mid, due[1..], now).value.0.series[t]);
    }
  }

  lemma InitializeTransition(db: Db, r: RunId, target: int, interval: int, now: int, first: Option<string>, s: SeriesId)
    requires Inv(db) && s < |db.series| && InitializeSeries(db, r, target, interval, now, first).Ok?
    ensures var after := InitializeSeries(db, r, target, interval, now, first).value.0;
      |after.series| == |db.series| + 1 && after.series[s] == db.series[s]
  {
    InitializeResult(db, r, target, interval, now, first);
  }

  lemma SettleTransition(db: Db, c: CycleId, now: int, s: SeriesId)
    requires Inv(db) && s < |db.series| && Settle(db, c, now).Ok?
    ensures |Settle(db, c, now).value.0.series| == |db.series|
    ensures Transition(db.series[s], Settle(db, c, now).value.0.series[s], SettlesSlot(db, SettleOp(c, now), s), false)
  {
    var q := db.cycles[c].request.value;
    if db.requests[q].status == Dispatching && db.requests[q].series.Some? {
      DispatchingHoldsNextSlot(db, q);
    }
    assert SeriesOk(db, s);
  }

  lemma PauseByIdTransition(db: Db, c: CycleId, expected: CycleStatus, status: SeriesStatus, reason: string,
      s: SeriesId)
    requires Inv(db) && s < |db.series| && PauseById(db, c, expected, status, reason).Ok?
    requires status in {PausedUser, PausedInterrupted}
    ensures |PauseById(db, c, expected, status, reason).value.0.series| == |db.series|
    ensures Transition(db.series[s], PauseById(db, c, expected, status, reason).value.0.series[s], false, false)
  {
    var q := db.cycles[c].request.value;
    if db.requests[q].series.Some? {
      DispatchingHoldsNextSlot(db, q);
    }
  }

  lemma PublishTransition(db: Db, c: CycleId, s: SeriesId)
    requires Inv(db) && s < |db.series|
    ensures |PublishDecision(db, c).series| == |db.series|
    ensures Transition(db.series[s], PublishDecision(db, c).series[s], false, false)
  {
    if DecisionOn(db, c, CycleRunning, {Running, WaitingInterval, PausedUser}) {
      DispatchingHoldsNextSlot(db, db.cycles[c].request.value);
    }
  }

  lemma RetryTransition(db: Db, r: RunId, t: SeriesId, now: int, s: SeriesId)
    requires Inv(db) && s < |db.series| && RetryFailed(db, r, t, now).Ok?
    ensures |RetryFailed(db, r, t, now).value.0.series| == |db.series|
    ensures Transition(db.series[s], RetryFailed(db, r, t, now).value.0.series[s], false,
        AddsRetry(db, RetryOp(r, t, now), RetryFailed(db, r, t, now).value.0, s))
  {
    EnqueueTransition(db, r, RetryRow(db, t, db.cycles[db.series[t].pausedCycle.value].request.value), now, s);
  }

  lemma RestartTransition(db: Db, r: RunId, now: int, s: SeriesId)
    requires Inv(db) && s < |db.series| && RestartSeries(db, r, now).Ok?
    ensures var after := RestartSeries(db, r, now).value.0;
      |after.series| == |db.series| + 1 && after.series[s] == db.series[s]
  {
    var latest := LatestSeries(db.series, r).value;
    InitializeTransition(db, r, db.series[latest].target, db.series[latest].interval, now, None, s);
  }

  // The steps that may change a series row.
  lemma SeriesStepTransition(db: Db, op: Op, s: SeriesId)
    requires Inv(db) && Allowed(db, op) && s < |db.series|
    requires op.SettleOp? || op.PauseForUserOp? || op.PauseInterruptedOp? || op.ContinueOp? || op.TickOp?
        || op.PublishOp?
      || op.AnswerOp? || op.CancelOp?
    ensures |db.series| <= |Apply(db, op).series|
    ensures Transition(db.series[s], Apply(db, op).series[s], SettlesSlot(db, op, s), false)
  {
    assert SeriesOk(db, s);
    match op
    case SettleOp(c, now) => if Settle(db, c, now).Ok? { SettleTransition(db, c, now, s); }
    case PauseForUserOp(c) =>
      if PauseById(db, c, WaitingForUser, PausedUser, "waiting_for_user").Ok? {
        PauseByIdTransition(db, c, WaitingForUser, PausedUser, "waiting_for_user", s);
      }
    case PauseInterruptedOp(c) =>
      if PauseById(db, c, Interrupted, PausedInterrupted, "interrupted").Ok? {
        PauseByIdTransition(db, c, Interrupted, PausedInterrupted, "interrupted", s);
      }
    case TickOp(due, now) => if Tick(db, due, now).Ok? { TickTransition(db, due, now, s); }
    case PublishOp(c) => PublishTransition(db, c, s);
    case _ =>
  }

  // Every step, on every series that already exists.
  lemma StepTransition(db: Db, op: Op, s: SeriesId)
    requires Inv(db) && Allowed(db, op) && s < |db.series|
    ensures |db.series| <= |Apply(db, op).series|
    ensures Transition(db.series[s], Apply(db, op).series[s], SettlesSlot(db, op, s),
        AddsRetry(db, op, Apply(db, op), s))
  {
    match op
    case EnqueueOp(r, row, now) => if Enqueue(db, r, row, now).Ok? { EnqueueTransition(db, r, row, now, s); }
    case CreateSeriesOp(r, target, interval, first, now) =>
      if CreateSeries(db, r, target, interval, now, first).Ok? {
        InitializeTransition(db, r, target, interval, now, first, s);
      }
    case RestartOp(r, now) => if RestartSeries(db, r, now).Ok? { RestartTransition(db, r, now, s); }
    case RetryOp(r, t, now) => if RetryFailed(db, r, t, now).Ok? { RetryTransition(db, r, t, now, s); }
    case SettleOp(_, _) => SeriesStepTransition(db, op, s);
    case PauseForUserOp(_) => SeriesStepTransition(db, op, s);
    case PauseInterruptedOp(_) => SeriesStepTransition(db, op, s);
    case ContinueOp(_, _, _) => SeriesStepTransition(db, op, s);
    case TickOp(_, _) => SeriesStepTransition(db, op, s);
    case PublishOp(_) => SeriesStepTransition(db, op, s);
    case AnswerOp(_) => SeriesStepTransition(db, op, s);
    case CancelOp(_, _, _) => SeriesStepTransition(db, op, s);
    case _ =>
  }

  // ---- slot accounting over a history ----

  // The number of steps before k that settled a slot of s.
  function SlotsSettled(states: seq<Db>, ops: seq<Op>, s: SeriesId, k: nat): nat
    requires |states| == |ops| + 1 && k <= |ops|
  {
    if k == 0 then 0
    else SlotsSettled(states, ops, s, k - 1) + if SettlesSlot(states[k - 1], ops[k - 1], s) then 1 else 0
  }

  // Only a new or restarted series adds a row; it starts with nothing settled.
  lemma {:induction false} TickAddsNoSeries(db: Db, due: seq<SeriesId>, now: int)
    requires Inv(db) && Tick(db, due, now).Ok?
    ensures |Tick(db, due, now).value.0.series| == |db.series|
    decreases |due|
  {
    if due != [] {
      TickOneKeepsInv(db, due[0], now);
      TickAddsNoSeries(TickOne(db, due[0], now).value.0, due[1..], now);
    }
  }

  // The steps that never add a series.
  lemma NoNewSeries(db: Db, op: Op)
    requires Inv(db) && Allowed(db, op) && !op.CreateSeriesOp? && !op.RestartOp?
    ensures |Apply(db, op).series| == |db.series|
  {
    if op.TickOp? {
      if Tick(db, op.due, op.now).Ok? { TickAddsNoSeries(db, op.due, op.now); }
    } else if op.EnqueueOp? || op.RetryOp? {
      EnqueueAddsNoSeries(db, op);
    } else if op.SettleOp? || op.PauseForUserOp? || op.PauseInterruptedOp? {
      SettlingAddsNoSeries(db, op);
    }
  }

  lemma EnqueueAddsNoSeries(db: Db, op: Op)
    requires op.EnqueueOp? || op.RetryOp?
    ensures |Apply(db, op).series| == |db.series|
  {
  }

  lemma SettlingAddsNoSeries(db: Db, op: Op)
    requires op.SettleOp? || op.PauseForUserOp? || op.PauseInterruptedOp?
    ensures |Apply(db, op).series| == |db.series|
  {
  }

  lemma NewSeriesIsEmpty(db: Db, op: Op, s: SeriesId)
    requires Inv(db) && Allowed(db, op) && |db.series| <= s
    ensures s < |Apply(db, op).series| ==>
      Apply(db, op).series[s].settled == 0 && Apply(db, op).series[s].status == Running
  {
    match op
    case CreateSeriesOp(r, target, interval, first, now) =>
      if CreateSeries(db, r, target, interval, now, first).Ok? {
        InitializeResult(db, r, target, interval, now, first);
      }
    case RestartOp(r, now) =>
      if RestartSeries(db, r, now).Ok? {
        var latest := LatestSeries(db.series, r).value;
        InitializeResult(db, r, db.series[latest].target, db.series[latest].interval, now, None);
      }
    case _ => NoNewSeries(db, op);
  }

  lemma SettlesOnlyExisting(db: Db, op: Op, s: SeriesId)
    requires |db.series| <= s
    ensures !SettlesSlot(db, op, s)
  {
  }

  function SettledOf(db: Db, s: SeriesId): int {
    if s < |db.series| then db.series[s].settled else 0
  }

  // One step raises the counter by one exactly when it settles a slot.
  lemma SettledSlotsStep(db: Db, op: Op, s: SeriesId)
    requires Inv(db) && Allowed(db, op)
    ensures SettledOf(Apply(db, op), s) == SettledOf(db, s) + if SettlesSlot(db, op, s) then 1 else 0
  {
    if s < |db.series| {
      StepTransition(db, op, s);
    } else {
      NewSeriesIsEmpty(db, op, s);
      SettlesOnlyExisting(db, op, s);
    }
  }

  /**
    The counter of settled slots is exactly the number of first settlements of successful
    cycles plus the number of continues, however the steps interleave or repeat.
  */
  lemma {:induction false} SettledSlotsCount(states: seq<Db>, ops: seq<Op>, s: SeriesId, k: nat)
    requires History(states, ops) && k <= |ops|
    ensures SettledOf(states[k], s) == SlotsSettled(states, ops, s, k)
    ensures s < |states[k].series| ==> SlotsSettled(states, ops, s, k) <= states[k].series[s].target
  {
    assert Inv(EMPTY);
    StepsKeepInv(states, ops, k);
    assert s < |states[k].series| ==> SeriesOk(states[k], s);
    if k > 0 {
      SettledSlotsCount(states, ops, s, k - 1);
      StepsKeepInv(states, ops, k - 1);
      assert StepAt(states, ops, k - 1);
      SettledSlotsStep(states[k - 1], ops[k - 1], s);
    }
  }

  /** Settling again, at any time, changes nothing and reports no transition. */
  lemma SettlingAgainDoesNothing(db: Db, c: CycleId, now: int, later: int)
    requires Inv(db) && Settle(db, c, now).Ok? && TerminalCycle(db.cycles[c].status)
    ensures var (after, first) := Settle(db, c, now).value;
      Settle(after, c, later) == Ok((after, Settlement(first.request, first.series, false, false)))
  {
    var (after, first) := Settle(db, c, now).value;
    assert RequestOk(db, first.request);
  }

  // ---- how many requests a series makes ----

  predicate IsOf(q: Request, s: SeriesId) {
    q.series == Some(s)
  }

  function CountRequests(requests: seq<Request>, s: SeriesId): nat {
    if requests == [] then 0
    else CountRequests(requests[..|requests| - 1], s) + if IsOf(requests[|requests| - 1], s) then 1 else 0
  }

  function CountRetries(requests: seq<Request>, s: SeriesId): nat {
    if requests == [] then 0
    else
      var last := requests[|requests| - 1];
      CountRetries(requests[..|requests| - 1], s) + if IsOf(last, s) && last.source == Retry then 1 else 0
  }

  function AutoSlots(requests: seq<Request>, s: SeriesId): set<int> {
    set i | 0 <= i < |requests| && IsOf(requests[i], s) && requests[i].source == Auto && requests[i].slot.Some?
      :: requests[i].slot.value
  }

  lemma AutoSlotsOfLast(requests: seq<Request>, s: SeriesId)
    requires requests != []
    ensures var init, last := requests[..|requests| - 1], requests[|requests| - 1];
      AutoSlots(requests, s) ==
        AutoSlots(init, s) + if IsOf(last, s) && last.source == Auto && last.slot.Some? then {last.slot.value} else {}
  {
    var n := |requests| - 1;
    var init := requests[..n];
    forall x | x in AutoSlots(requests, s)
      ensures x in AutoSlots(init, s)
          || (IsOf(requests[n], s) && requests[n].source == Auto && requests[n].slot == Some(x))
    {
      var i :| 0 <= i < |requests| && IsOf(requests[i], s) && requests[i].source == Auto && requests[i].slot == Some(x);
      assert i < n ==> init[i] == requests[i];
    }
    forall x | x in AutoSlots(init, s) ensures x in AutoSlots(requests, s) {
      var i :| 0 <= i < n && IsOf(init[i], s) && init[i].source == Auto && init[i].slot == Some(x);
      assert init[i] == requests[i];
    }
  }

  // Requests that are not retries hold distinct slots.
  lemma {:induction false} AutoRequestsHoldDistinctSlots(requests: seq<Request>, s: SeriesId)
    requires forall i :: 0 <= i < |requests| && IsOf(requests[i], s) ==>
        requests[i].slot.Some? && requests[i].source in {Auto, Retry}
    requires forall i, j ::
      (0 <= i < j < |requests| && IsOf(requests[i], s) && IsOf(requests[j], s)
       && requests[i].source == Auto && requests[j].source == Auto) ==> requests[i].slot != requests[j].slot
    ensures CountRequests(requests, s) == |AutoSlots(requests, s)| + CountRetries(requests, s)
  {
    if requests != [] {
      var n := |requests| - 1;
      AutoRequestsHoldDistinctSlots(requests[..n], s);
      AutoSlotsOfLast(requests, s);
    }
  }

  lemma {:induction false} SlotsFit(slots: set<int>, n: nat)
    requires forall x :: x in slots ==> 1 <= x <= n
    ensures |slots| <= n
    decreases n
  {
    if n == 0 {
      assert forall x :: x in slots ==> 1 <= x <= 0;
      assert slots == {};
    } else {
      SlotsFit(slots - {n}, n - 1);
      assert |slots| <= |slots - {n}| + 1;
    }
  }

  /** A series with r retries makes at most target_slots + r requests. */
  lemma RequestsOfSeriesBounded(db: Db, s: SeriesId)
    requires Inv(db) && s < |db.series|
    ensures CountRequests(db.requests, s) <= db.series[s].target + CountRetries(db.requests, s)
  {
    assert SeriesOk(db, s);
    forall i | 0 <= i < |db.requests| && IsOf(db.requests[i], s)
      ensures db.requests[i].slot.Some? && db.requests[i].source in {Auto, Retry}
      ensures 1 <= db.requests[i].slot.value <= db.series[s].target
    {
      assert RequestOk(db, i);
    }
    AutoRequestsHoldDistinctSlots(db.requests, s);
    SlotsFit(AutoSlots(db.requests, s), db.series[s].target);
  }
}
