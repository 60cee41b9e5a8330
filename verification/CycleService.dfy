/**
  The cycle service as an object over its tables: each method performs the statements of one
  transaction in order and is proved to be the step of the same name, or to roll back.
*/
module CycleService {
  import opened Outcomes
  import opened CycleTables
  import opened CycleSteps
  import opened CycleRuns
  import opened CycleReconcile

  class TeamCycleService {
    var runs: seq<Run>
    var requests: seq<Request>
    var series: seq<Series>
    var cycles: seq<Cycle>
    var operations: seq<Operation>
    var hooks: seq<HookRun>

    constructor ()
      ensures State() == EMPTY
    {
      runs, requests, series, cycles, operations, hooks := [], [], [], [], [], [];
    }

    function State(): Db
      reads this
    {
      Db(runs, requests, series, cycles, operations, hooks)
    }

    method Rollback(saved: Db)
      modifies this
      ensures State() == saved
    {
      runs, requests, series := saved.runs, saved.requests, saved.series;
      cycles, operations, hooks := saved.cycles, saved.operations, saved.hooks;
    }

    // _enqueue_request: every refusal comes before the first write.
    method EnqueueRow(r: RunId, n: NewRequest, now: int) returns (result: Result<RequestId, CycleError>)
      modifies this`requests, this`series
      ensures var e := Enqueue(old(State()), r, n, now);
        if e.Ok? then State() == e.value.0 && result == Ok(e.value.1)
            else State() == old(State()) && result == Err(e.error)
    {
      var gate := SourceGate(State(), r, n);
      if gate.Some? { return Err(gate.value); }
      var existing := FindSource(requests, r, n.source, n.sourceId);
      if existing.Some? { return Ok(existing.value); }
      var refusal := InsertGate(State(), r, n);
      if refusal.Some? { return Err(refusal.value); }
      var id := |requests|;
      requests := requests + [NewRow(r, n, now)];
      if n.source == Retry {
        series := series[n.series.value := series[n.series.value].(
          status := Running, nextRunAt := None, pauseReason := None, pausedCycle := None)];
      } else if n.source == Auto && series[n.series.value].status == WaitingInterval {
        series := series[n.series.value := series[n.series.value].(status := Running, nextRunAt := None)];
      }
      return Ok(id);
    }

    // initialize_auto_series, inside the caller's transaction.
    method InitializeAutoSeries(r: RunId, target: int, interval: int, now: int, first: Option<string>)
      returns (result: Result<(SeriesId, RequestId), CycleError>)
      modifies this`requests, this`series
      ensures var e := InitializeSeries(old(State()), r, target, interval, now, first);
        if e.Ok? then State() == e.value.0 && result == Ok((e.value.1, e.value.2)) else result == Err(e.error)
    {
      if target < 1 { return Err(BadRepeatCount); }
      if interval < 0 { return Err(NegativeInterval); }
      var active := ActiveSeriesOf(series, r);
      if active.Some? { return Err(AlreadyActiveSeries); }
      var id := |series|;
      series := series + [Series(r, NextNumber(series, r), Running, target, 0, interval, None, None, None)];
      var instruction := first;
      if first.None? {
        var goal := AutoInstruction(runs, cycles, r, None);
        if goal.Err? { return Err(goal.error); }
        instruction := goal.value;
      }
      var request := EnqueueRow(r, FirstSlot(id, instruction.value), now);
      if request.Err? { return Err(request.error); }
      return Ok((id, request.value));
    }

    method CreateAutoSeries(r: RunId, target: int, interval: int, now: int, first: Option<string>)
      returns (result: Result<(SeriesId, RequestId), CycleError>)
      modifies this
      ensures var e := CreateSeries(old(State()), r, target, interval, now, first);
        if e.Ok? then State() == e.value.0 && result == Ok((e.value.1, e.value.2))
        else State() == old(State()) && result == Err(e.error)
    {
      var saved := State();
      var gate := RunGate(State(), r);
      if gate.Some? { return Err(gate.value); }
      result := InitializeAutoSeries(r, target, interval, now, first);
      if result.Err? { Rollback(saved); }
    }

    method RestartAutoSeries(r: RunId, now: int) returns (result: Result<(SeriesId, RequestId), CycleError>)
      modifies this
      ensures var e := RestartSeries(old(State()), r, now);
        if e.Ok? then State() == e.value.0 && result == Ok((e.value.1, e.value.2))
        else State() == old(State()) && result == Err(e.error)
    {
      var saved := State();
      var gate := PolicyGate(State(), r, AutoPolicy);
      if gate.Some? { return Err(gate.value); }
      var latest := LatestSeries(series, r);
      if latest.None? { return Err(SeriesNotFound); }
      var row := series[latest.value];
      if row.status != AutoCompleted { return Err(SeriesNotCompleted); }
      result := InitializeAutoSeries(r, row.target, row.interval, now, None);
      if result.Err? { Rollback(saved); }
    }

    method ClaimNext(r: RunId, now: int) returns (result: Result<Option<RequestId>, CycleError>)
      modifies this`requests
      ensures var e := Claim(old(State()), r, now);
        if e.Ok? then State() == e.value.0 && result == Ok(e.value.1)
            else State() == old(State()) && result == Err(e.error)
    {
      if r >= |runs| { return Err(RunNotFound); }
      if runs[r].status == RunCanceled { return Err(RunIsCanceled); }
      var active := DispatchingOf(requests, r);
      if active.Some? { return Ok(None); }
      var row := NextQueued(requests, r);
      if row.None? { return Ok(None); }
      var q := row.value;
      requests := requests[q := requests[q].(status := Dispatching, claimedAt := Some(now))];
      return Ok(Some(q));
    }

    method RequeueClaim(q: RequestId) returns (result: Result<(), CycleError>)
      modifies this`requests
      ensures var e := Requeue(old(State()), q);
        if e.Ok? then State() == e.value && result == Ok(()) else State() == old(State()) && result == Err(e.error)
    {
      if q >= |requests| { return Err(RequestNotFound); }
      if requests[q].status != Dispatching { return Err(RequestNotDispatching); }
      var cycle := CycleOf(cycles, q);
      if cycle.Some? { return Err(RequestHasCycle); }
      requests := requests[q := requests[q].(status := Queued, claimedAt := None)];
      return Ok(());
    }

    // _settle_auto_slot
    method SettleAutoSlot(s: SeriesId, now: int)
      requires s < |series|
      modifies this`series
      ensures series == old(series)[s := SettledSlot(old(series)[s], now)]
    {
      var settled := series[s].settled + 1;
      if settled >= series[s].target {
        series := series[s := series[s].(
          status := AutoCompleted, settled := settled, nextRunAt := None, pauseReason := None, pausedCycle := None)];
        return;
      }
      var nextRunAt := now + series[s].interval;
      series := series[s := series[s].(
        status := WaitingInterval, settled := settled, nextRunAt := Some(nextRunAt), pauseReason := None,
            pausedCycle := None)];
    }

    // _pause_cycle
    method PauseCycle(c: CycleId, q: RequestId, status: SeriesStatus, reason: string)
      returns (result: Result<Settlement, CycleError>)
      requires q < |requests|
      requires requests[q].series.Some? ==> requests[q].series.value < |series|
      modifies this`series
      ensures var e := Pause(old(State()), c, q, status, reason);
        if e.Ok? then State() == e.value.0 && result == Ok(e.value.1)
            else State() == old(State()) && result == Err(e.error)
    {
      if requests[q].status != Dispatching { return Err(RequestNotDispatching); }
      var transitioned := false;
      if requests[q].series.Some? {
        var s := requests[q].series.value;
        transitioned := series[s].status != status || series[s].pauseReason != Some(reason)
            || series[s].pausedCycle != Some(c);
        series := series[s := series[s].(
          status := status, nextRunAt := None, pauseReason := Some(reason), pausedCycle := Some(c))];
      }
      return Ok(Settlement(q, requests[q].series, false, transitioned));
    }

    // pause_for_user and pause_interrupted
    method PauseCycleById(c: CycleId, expected: CycleStatus, status: SeriesStatus, reason: string)
      returns (result: Result<Settlement, CycleError>)
      modifies this`series
      ensures var e := PauseById(old(State()), c, expected, status, reason);
        if e.Ok? then State() == e.value.0 && result == Ok(e.value.1)
            else State() == old(State()) && result == Err(e.error)
    {
      if c >= |cycles| { return Err(CycleNotFound); }
      if cycles[c].status != expected { return Err(WrongCycleStatus); }
      if cycles[c].request.None? { return Err(CycleNotLinked); }
      var q := cycles[c].request.value;
      if q >= |requests| { return Err(RequestNotFound); }
      if requests[q].series.Some? && requests[q].series.value >= |series| { return Err(SeriesNotFound); }
      result := PauseCycle(c, q, status, reason);
    }

    method SettleCycle(c: CycleId, now: int) returns (result: Result<Settlement, CycleError>)
      modifies this`requests, this`series
      ensures var e := Settle(old(State()), c, now);
        if e.Ok? then State() == e.value.0 && result == Ok(e.value.1)
            else State() == old(State()) && result == Err(e.error)
    {
      if c >= |cycles| { return Err(CycleNotFound); }
      var cycle := cycles[c];
      if cycle.request.None? { return Err(CycleNotLinked); }
      var q := cycle.request.value;
      if q >= |requests| { return Err(RequestNotFound); }
      var request := requests[q];
      if request.series.Some? && request.series.value >= |series| { return Err(SeriesNotFound); }
      if cycle.status == WaitingForUser {
        result := PauseCycle(c, q, PausedUser, "waiting_for_user");
        return;
      }
      if cycle.status == Interrupted {
        result := PauseCycle(c, q, PausedInterrupted, "interrupted");
        return;
      }
      if !TerminalCycle(cycle.status) { return Err(CycleNotReady); }
      if request.status in {ReqSettled, ReqCanceled} { return Ok(Settlement(q, request.series, false, false)); }
      if request.status != Dispatching { return Err(RequestNotDispatching); }
      requests := requests[q := request.(
        status := if cycle.status == CycleCanceled then ReqCanceled else ReqSettled, settledAt := Some(now))];
      if request.series.Some? {
        var s := request.series.value;
        if SuccessfulCycle(cycle.status) {
          SettleAutoSlot(s, now);
        } else if cycle.status in {Blocked, Failed} {
          var reason := if cycle.error == "" then "Cycle failed" else cycle.error;
          series := series[s := series[s].(
            status := PausedFailure, nextRunAt := None, pauseReason := Some(reason), pausedCycle := Some(c))];
        } else {
          series := series[s := series[s].(
            status := SeriesCanceled, nextRunAt := None, pauseReason := Some("canceled"), pausedCycle := Some(c))];
        }
      }
      var ready := QueueReady(requests, request.run);
      return Ok(Settlement(q, request.series, ready, true));
    }

    method ContinueAfterFailure(r: RunId, s: SeriesId, now: int) returns (result: Result<(), CycleError>)
      modifies this`series
      ensures var e := ContinueFailed(old(State()), r, s, now);
        if e.Ok? then State() == e.value && result == Ok(()) else State() == old(State()) && result == Err(e.error)
    {
      if s >= |series| { return Err(SeriesNotFound); }
      if series[s].run != r { return Err(SeriesOfOtherRun); }
      if series[s].status != PausedFailure { return Err(SeriesNotPausedAfterFailure); }
      SettleAutoSlot(s, now);
      return Ok(());
    }

    method RetryAfterFailure(r: RunId, s: SeriesId, now: int) returns (result: Result<RequestId, CycleError>)
      modifies this`requests, this`series
      ensures var e := RetryFailed(old(State()), r, s, now);
        if e.Ok? then State() == e.value.0 && result == Ok(e.value.1)
            else State() == old(State()) && result == Err(e.error)
    {
      if s >= |series| { return Err(SeriesNotFound); }
      if series[s].run != r { return Err(SeriesOfOtherRun); }
      if series[s].status != PausedFailure { return Err(SeriesNotPausedAfterFailure); }
      var cycle := series[s].pausedCycle;
      if cycle.None? || cycle.value >= |cycles| || cycles[cycle.value].request.None? { return Err(NoFailedRequest); }
      var q := cycles[cycle.value].request.value;
      if q >= |requests| || requests[q].series != Some(s) { return Err(NoFailedRequest); }
      result := EnqueueRow(r, RetryRow(State(), s, q), now);
    }

    // The body of the timer's loop.
    method TickSeries(s: SeriesId, now: int) returns (result: Result<TickResult, CycleError>)
      requires s < |series|
      modifies this`requests, this`series
      ensures var e := TickOne(old(State()), s, now);
        if e.Ok? then State() == e.value.0 && result == Ok(e.value.1) else result == Err(e.error)
      ensures |series| == |old(series)|
    {
      var row := series[s];
      var previous := LatestFinal(cycles, row.run);
      var instruction := AutoInstruction(runs, cycles, row.run, previous);
      if instruction.Err? { return Err(instruction.error); }
      if instruction.value.None? {
        if series[s].status == WaitingInterval {
          series := series[s := series[s].(
            status := AutoCompleted, nextRunAt := None, pauseReason := Some("lead_proposed_no_next_cycle"),
                pausedCycle := None)];
          return Ok(TickResult([], [s]));
        }
        return Ok(TickResult([], []));
      }
      var request := EnqueueRow(row.run, NextSlot(State(), s, previous, instruction.value.value), now);
      if request.Err? { return Err(request.error); }
      if series[s].status == WaitingInterval {
        series := series[s := series[s].(status := Running, nextRunAt := None)];
      }
      return Ok(TickResult([request.value], []));
    }

    // The timer's loop over the series it selected.
    method TickSelected(due: seq<SeriesId>, now: int) returns (result: Result<TickResult, CycleError>)
      requires forall k :: 0 <= k < |due| ==> due[k] < |series|
      modifies this`requests, this`series
      ensures var e := Tick(old(State()), due, now);
        if e.Ok? then State() == e.value.0 && result == Ok(e.value.1) else result == Err(e.error)
    {
      ghost var start := State();
      var done := TickResult([], []);
      var k := 0;
      assert due[0..] == due;
      while k < |due|
        invariant 0 <= k <= |due| && |series| == |start.series|
        invariant TickPrefix(start, State(), done, due, k, now)
      {
        ghost var before := State();
        var one := TickSeries(due[k], now);
        TickPrefixStep(start, before, done, due, k, now);
        if one.Err? { return Err(one.error); }
        done := TickResult(done.created + one.value.created, done.completed + one.value.completed);
        k := k + 1;
      }
      TickPrefixEnd(start, State(), done, due, now);
      return Ok(done);
    }

    method EnqueueDueAutoRequests(now: int) returns (result: Result<TickResult, CycleError>)
      modifies this
      ensures var e := Tick(old(State()), DueSeries(old(State()), now), now);
        if e.Ok? then State() == e.value.0 && result == Ok(e.value.1)
            else State() == old(State()) && result == Err(e.error)
    {
      var saved := State();
      var due := DueSeries(saved, now);
      result := TickSelected(due, now);
      if result.Err? { Rollback(saved); }
    }

    method CancelRun(r: RunId, reason: string, now: int) returns (result: Result<bool, CycleError>)
      modifies this
      ensures var e := Cancel(old(State()), r, reason, now);
        if e.Ok? then State() == e.value && result == Ok(HasSomethingToCancel(old(State()), r))
        else State() == old(State()) && result == Err(e.error)
    {
      if r >= |runs| { return Err(RunNotFound); }
      if !runs[r].continuous { return Err(RunNotContinuous); }
      var before := State();
      var changed := HasSomethingToCancel(before, r);
      operations := seq(|operations|,
          i requires 0 <= i < |before.operations| => CanceledOperation(before.operations[i], r));
      cycles := seq(|cycles|,
          i requires 0 <= i < |before.cycles| => CanceledCycle(before, before.cycles[i], r, reason));
      requests := seq(|requests|,
          i requires 0 <= i < |before.requests| => CanceledRequestRow(before.requests[i], r, now));
      series := seq(|series|, i requires 0 <= i < |before.series| => CanceledSeriesRow(before.series[i], r, reason));
      hooks := seq(|hooks|, i requires 0 <= i < |before.hooks| => CanceledHook(before, before.hooks[i], r));
      runs := runs[r := CanceledRun(runs[r])];
      var after := CanceledTables(before, r, reason, now);
      assert operations == after.operations && cycles == after.cycles && requests == after.requests;
      assert series == after.series && hooks == after.hooks;
      return Ok(changed);
    }

    method MarkRequestSettled(q: RequestId, now: int) returns (result: Result<(), CycleError>)
      modifies this`requests
      ensures var e := MarkSettled(old(State()), q, now);
        if e.Ok? then State() == e.value && result == Ok(()) else State() == old(State()) && result == Err(e.error)
    {
      if q >= |requests| { return Err(RequestNotFound); }
      if requests[q].status == ReqCanceled { return Err(CanceledRequest); }
      if requests[q].status != ReqSettled {
        requests := requests[q := requests[q].(status := ReqSettled, settledAt := Some(now))];
      }
      return Ok(());
    }

    // One pass of reconcile's loop.
    method ReconcileClaim(q: RequestId, now: int) returns (result: Result<(), CycleError>)
      modifies this`requests, this`series
      ensures var e := ReconcileOne(old(State()), q, now);
        if e.Ok? then State() == e.value && result == Ok(()) else State() == old(State()) && result == Err(e.error)
    {
      var cycle := CycleOf(cycles, q);
      if cycle.None? {
        result := RequeueClaim(q);
        return;
      }
      var done: Result<Settlement, CycleError> := Ok(Settlement(q, None, false, false));
      if TerminalCycle(cycles[cycle.value].status) {
        done := SettleCycle(cycle.value, now);
      } else if cycles[cycle.value].status == Interrupted {
        done := PauseCycleById(cycle.value, Interrupted, PausedInterrupted, "interrupted");
      } else if cycles[cycle.value].status == WaitingForUser {
        done := PauseCycleById(cycle.value, WaitingForUser, PausedUser, "waiting_for_user");
      }
      return if done.Ok? then Ok(()) else Err(done.error);
    }

    // Each claim is reconciled in transactions of its own, so a failure keeps the earlier ones.
    method ReconcileStartup(now: int) returns (result: Result<seq<RunId>, CycleError>)
      modifies this
      ensures var e := Reconcile(old(State()), now);
        if e.Ok? then State() == e.value.0 && result == Ok(e.value.1) else result == Err(e.error)
    {
      var start := State();
      var claims := DispatchingList(start);
      var k := 0;
      while k < |claims|
        invariant 0 <= k <= |claims|
        invariant ReconcileClaims(start, claims, now) == ReconcileClaims(State(), claims[k..], now)
      {
        var one := ReconcileClaim(claims[k], now);
        assert claims[k..][1..] == claims[k + 1..];
        if one.Err? { return Err(one.error); }
        k := k + 1;
      }
      var ticked := EnqueueDueAutoRequests(now);
      if ticked.Err? { return Err(ticked.error); }
      return Ok(RunnableRuns(State()));
    }
  }

  // What remains of a tick after its first k series.
  ghost predicate TickPrefix(start: Db, here: Db, done: TickResult, due: seq<SeriesId>, k: nat, now: int)
    requires k <= |due|
  {
    var whole := Tick(start, due, now);
    var rest := Tick(here, due[k..], now);
    && (whole.Ok? <==> rest.Ok?)
    && (whole.Err? ==> whole.error == rest.error)
    && (whole.Ok? ==>
      && whole.value.0 == rest.value.0
      && whole.value.1.created == done.created + rest.value.1.created
      && whole.value.1.completed == done.completed + rest.value.1.completed)
  }

  lemma TickPrefixEnd(start: Db, here: Db, done: TickResult, due: seq<SeriesId>, now: int)
    requires TickPrefix(start, here, done, due, |due|, now)
    ensures Tick(start, due, now) == Ok((here, done))
  {
    assert due[|due|..] == [];
    assert done.created + [] == done.created && done.completed + [] == done.completed;
  }

  lemma TickPrefixStep(start: Db, here: Db, done: TickResult, due: seq<SeriesId>, k: nat, now: int)
    requires k < |due| && due[k] < |here.series| && TickPrefix(start, here, done, due, k, now)
    ensures var one := TickOne(here, due[k], now);
      if one.Err? then Tick(start, due, now) == Err(one.error)
      else TickPrefix(start, one.value.0,
        TickResult(done.created + one.value.1.created, done.completed + one.value.1.completed), due, k + 1, now)
  {
    assert due[k..][1..] == due[k + 1..];
    var one := TickOne(here, due[k], now);
    if one.Ok? {
      var rest := Tick(one.value.0, due[k + 1..], now);
      if rest.Ok? {
        assert done.created + (one.value.1.created + rest.value.1.created)
          == (done.created + one.value.1.created) + rest.value.1.created;
        assert done.completed + (one.value.1.completed + rest.value.1.completed)
          == (done.completed + one.value.1.completed) + rest.value.1.completed;
      }
    }
  }
}
