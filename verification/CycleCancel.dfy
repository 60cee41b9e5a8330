/**
  Cancelling a run closes what it owns, a second cancellation is a no-op, and a canceled
  run stays closed whatever follows. Also here: retrying or continuing after a failure.
*/
module CycleCancel {
  import opened Outcomes
  import opened CycleTables
  import opened CycleSteps
  import opened CycleInvariant
  import opened CycleRuns

  // No request of the run is live and none of its series is active.
  ghost predicate Dead(db: Db, r: RunId) {
    && (forall i :: 0 <= i < |db.requests| && db.requests[i].run == r ==> !Live(db.requests[i].status))
    && (forall s :: 0 <= s < |db.series| && db.series[s].run == r ==> !ActiveSeries(db.series[s].status))
  }

  ghost predicate NoCancelableCycle(db: Db, r: RunId) {
    forall c :: 0 <= c < |db.cycles| && LinkedTo(db, db.cycles[c], r) ==> !CancelableCycle(db.cycles[c].status)
  }

  ghost predicate NoOpenOperation(db: Db, r: RunId) {
    forall o :: 0 <= o < |db.operations| && db.operations[o].run == r ==> !OpenOperation(db.operations[o].status)
  }

  ghost predicate NoOpenHook(db: Db, r: RunId) {
    forall h :: 0 <= h < |db.hooks| && HookOf(db, db.hooks[h], r) ==> !OpenHook(db.hooks[h].status)
  }

  // A cycle of the run that is not in a final status.
  ghost predicate HasUnfinishedCycle(db: Db, r: RunId) {
    exists c :: 0 <= c < |db.cycles| && LinkedTo(db, db.cycles[c], r) && !TerminalCycle(db.cycles[c].status)
  }

  ghost predicate HasPausedCycle(db: Db, r: RunId) {
    exists c :: 0 <= c < |db.cycles| && LinkedTo(db, db.cycles[c], r) && db.cycles[c].status == CyclePaused
  }

  lemma LinksSurviveCancel(db: Db, r: RunId, reason: string, now: int)
    requires r < |db.runs|
    ensures var after := CanceledTables(db, r, reason, now);
      && (forall i :: 0 <= i < |db.requests| ==> after.requests[i].run == db.requests[i].run)
      && (forall c :: 0 <= c < |db.cycles| ==> LinkedTo(after, after.cycles[c], r) == LinkedTo(db, db.cycles[c], r))
      && (forall h :: 0 <= h < |db.hooks| ==> HookOf(after, after.hooks[h], r) == HookOf(db, db.hooks[h], r))
  {
  }

  /** After a cancellation the run owns nothing that is still open. */
  lemma CancelCloses(db: Db, r: RunId, reason: string, now: int)
    requires Inv(db) && Cancel(db, r, reason, now).Ok?
    ensures var after := Cancel(db, r, reason, now).value;
      && Dead(after, r) && NoCancelableCycle(after, r) && NoOpenOperation(after, r) && NoOpenHook(after, r)
      && FinishedRun(after.runs[r].status)
  {
    LinksSurviveCancel(db, r, reason, now);
  }

  /**
    The cancellation reports cycles in five statuses as unfinished; a paused cycle is not one
    of them. So every cycle of the run is final afterwards exactly when none was paused.
  */
  lemma CancelFinishesCyclesIff(db: Db, r: RunId, reason: string, now: int)
    requires Inv(db) && Cancel(db, r, reason, now).Ok?
    ensures !HasUnfinishedCycle(Cancel(db, r, reason, now).value, r) <==> !HasPausedCycle(db, r)
  {
    var after := Cancel(db, r, reason, now).value;
    LinksSurviveCancel(db, r, reason, now);
    if HasPausedCycle(db, r) {
      var c :| 0 <= c < |db.cycles| && LinkedTo(db, db.cycles[c], r) && db.cycles[c].status == CyclePaused;
      assert LinkedTo(after, after.cycles[c], r) && after.cycles[c].status == CyclePaused;
    }
  }

  lemma FullyCanceledIsFixed(db: Db, r: RunId, reason: string, now: int)
    requires r < |db.runs| && FinishedRun(db.runs[r].status)
    requires Dead(db, r) && NoCancelableCycle(db, r) && NoOpenOperation(db, r) && NoOpenHook(db, r)
    ensures CanceledTables(db, r, reason, now) == db
    ensures !HasSomethingToCancel(db, r)
  {
    var after := CanceledTables(db, r, reason, now);
    assert after.requests == db.requests;
    assert after.series == db.series;
    assert after.cycles == db.cycles;
    assert after.operations == db.operations;
    assert after.hooks == db.hooks;
  }

  /** Cancelling twice is cancelling once: the second call changes no row and reports changed = False. */
  lemma CancelTwice(db: Db, r: RunId, reason: string, now: int, again: string, later: int)
    requires Inv(db) && Cancel(db, r, reason, now).Ok?
    ensures var after := Cancel(db, r, reason, now).value;
      Cancel(after, r, again, later) == Ok(after) && !HasSomethingToCancel(after, r)
  {
    CancelCloses(db, r, reason, now);
    FullyCanceledIsFixed(Cancel(db, r, reason, now).value, r, again, later);
  }

  /**
    With the run's series coupled, the changed flag says exactly whether the cancellation
    changes a row of its tables, although it looks at the latest series only.
  */
  lemma ChangedFlagIsExact(db: Db, r: RunId, reason: string, now: int)
    requires Inv(db) && Cancel(db, r, reason, now).Ok?
    ensures HasSomethingToCancel(db, r) <==> Cancel(db, r, reason, now).value != db
  {
    var after := Cancel(db, r, reason, now).value;
    if !HasSomethingToCancel(db, r) {
      forall s | 0 <= s < |db.series| && db.series[s].run == r ensures !ActiveSeries(db.series[s].status) {
        if ActiveSeries(db.series[s].status) { InvImpliesStatement(db, s); assert false; }
      }
      FullyCanceledIsFixed(db, r, reason, now);
    } else {
      CancelCloses(db, r, reason, now);
      if after == db {
        FullyCanceledIsFixed(db, r, reason, now);
        assert false;
      }
    }
  }

  // ---- a canceled run stays dead ----

  predicate CanceledAt(db: Db, r: RunId) {
    r < |db.runs| && db.runs[r].status == RunCanceled
  }

  lemma EnqueueKeepsDead(db: Db, r: RunId, q: RunId, n: NewRequest, now: int)
    requires Inv(db) && Canonical(db, n) && CanceledAt(db, r) && Dead(db, r) && Enqueue(db, q, n, now).Ok?
    ensures var after := Enqueue(db, q, n, now).value.0;
      Dead(after, r) && after.runs == db.runs
  {
    if FindSource(db.requests, q, n.source, n.sourceId).None? {
      InsertGuards(db, q, n);
    }
  }

  lemma {:induction false} TickKeepsDead(db: Db, r: RunId, due: seq<SeriesId>, now: int)
    requires Inv(db) && CanceledAt(db, r) && Dead(db, r) && Tick(db, due, now).Ok?
    ensures Dead(Tick(db, due, now).value.0, r) && Tick(db, due, now).value.0.runs == db.runs
    decreases |due|
  {
    if due != [] {
      var row := db.series[due[0]];
      var previous := LatestFinal(db.cycles, row.run);
      var instruction := AutoInstruction(db.runs, db.cycles, row.run, previous);
      if instruction.value.Some? {
        EnqueueKeepsDead(db, r, row.run, NextSlot(db, due[0], previous, instruction.value.value), now);
      }
      TickOneKeepsInv(db, due[0], now);
      TickKeepsDead(TickOne(db, due[0], now).value.0, r, due[1..], now);
    }
  }

  lemma SettleKeepsDead(db: Db, r: RunId, c: CycleId, now: int)
    requires Inv(db) && Dead(db, r) && Settle(db, c, now).Ok?
    ensures Dead(Settle(db, c, now).value.0, r) && Settle(db, c, now).value.0.runs == db.runs
  {
    var q := db.cycles[c].request.value;
    assert RequestOk(db, q);
  }

  lemma PauseByIdKeepsDead(db: Db, r: RunId, c: CycleId, expected: CycleStatus, status: SeriesStatus, reason: string)
    requires Inv(db) && Dead(db, r) && PauseById(db, c, expected, status, reason).Ok?
    ensures Dead(PauseById(db, c, expected, status, reason).value.0, r)
    ensures PauseById(db, c, expected, status, reason).value.0.runs == db.runs
  {
    assert RequestOk(db, db.cycles[c].request.value);
  }

  lemma NewSeriesKeepsDead(db: Db, r: RunId, q: RunId, target: int, interval: int, now: int, first: Option<string>)
    requires Inv(db) && CanceledAt(db, r) && Dead(db, r) && InitializeSeries(db, q, target, interval, now, first).Ok?
    ensures var after := InitializeSeries(db, q, target, interval, now, first).value.0;
      Dead(after, r) && after.runs == db.runs
  {
    InitializeResult(db, q, target, interval, now, first);
    var after := InitializeSeries(db, q, target, interval, now, first).value.0;
    forall i | 0 <= i < |after.requests| && after.requests[i].run == r ensures !Live(after.requests[i].status) {
      assert after.requests[i] == after.requests[..|db.requests|][i];
    }
  }

  lemma DecisionKeepsDead(db: Db, r: RunId, c: CycleId)
    requires Inv(db) && Dead(db, r)
    ensures Dead(PublishDecision(db, c), r) && PublishDecision(db, c).runs == db.runs
    ensures Dead(AnswerDecision(db, c), r) && AnswerDecision(db, c).runs == db.runs
  {
    if c < |db.cycles| && db.cycles[c].request.Some? && db.cycles[c].request.value < |db.requests| {
      assert RequestOk(db, db.cycles[c].request.value);
    }
  }

  // The steps that may queue a request.
  lemma QueueingStepKeepsDead(db: Db, op: Op, r: RunId)
    requires Inv(db) && Allowed(db, op) && CanceledAt(db, r) && Dead(db, r)
    requires op.EnqueueOp? || op.CreateSeriesOp? || op.RestartOp? || op.RetryOp? || op.TickOp?
    ensures CanceledAt(Apply(db, op), r) && Dead(Apply(db, op), r)
  {
    match op
    case EnqueueOp(q, row, now) => if Enqueue(db, q, row, now).Ok? { EnqueueKeepsDead(db, r, q, row, now); }
    case CreateSeriesOp(q, target, interval, first, now) =>
      if CreateSeries(db, q, target, interval, now, first).Ok? {
        NewSeriesKeepsDead(db, r, q, target, interval, now, first);
      }
    case RestartOp(q, now) =>
      if RestartSeries(db, q, now).Ok? {
        var latest := LatestSeries(db.series, q).value;
        NewSeriesKeepsDead(db, r, q, db.series[latest].target, db.series[latest].interval, now, None);
      }
    case RetryOp(q, s, now) =>
      if RetryFailed(db, q, s, now).Ok? {
        EnqueueKeepsDead(db, r, q, RetryRow(db, s, db.cycles[db.series[s].pausedCycle.value].request.value), now);
      }
    case TickOp(due, now) => if Tick(db, due, now).Ok? { TickKeepsDead(db, r, due, now); }
  }

  lemma CycleStepKeepsDead(db: Db, op: Op, r: RunId)
    requires Inv(db) && Allowed(db, op) && CanceledAt(db, r) && Dead(db, r)
    requires op.SettleOp? || op.PauseForUserOp? || op.PauseInterruptedOp? || op.PublishOp? || op.AnswerOp?
    ensures CanceledAt(Apply(db, op), r) && Dead(Apply(db, op), r)
  {
    match op
    case SettleOp(c, now) => if Settle(db, c, now).Ok? { SettleKeepsDead(db, r, c, now); }
    case PauseForUserOp(c) =>
      if PauseById(db, c, WaitingForUser, PausedUser, "waiting_for_user").Ok? {
        PauseByIdKeepsDead(db, r, c, WaitingForUser, PausedUser, "waiting_for_user");
      }
    case PauseInterruptedOp(c) =>
      if PauseById(db, c, Interrupted, PausedInterrupted, "interrupted").Ok? {
        PauseByIdKeepsDead(db, r, c, Interrupted, PausedInterrupted, "interrupted");
      }
    case PublishOp(c) => DecisionKeepsDead(db, r, c);
    case AnswerOp(c) => DecisionKeepsDead(db, r, c);
  }

  lemma StepKeepsDead(db: Db, op: Op, r: RunId)
    requires Inv(db) && Allowed(db, op) && CanceledAt(db, r) && Dead(db, r) && !Reopens(db, op, r)
    ensures CanceledAt(Apply(db, op), r) && Dead(Apply(db, op), r)
  {
    if op.EnqueueOp? || op.CreateSeriesOp? || op.RestartOp? || op.RetryOp? || op.TickOp? {
      QueueingStepKeepsDead(db, op, r);
    } else if op.SettleOp? || op.PauseForUserOp? || op.PauseInterruptedOp? || op.PublishOp? || op.AnswerOp? {
      CycleStepKeepsDead(db, op, r);
    }
  }

  /** Cancellation is absorbing: until a user reopens the run,
      no step of any actor revives a request or a series of it. */
  lemma {:induction false} CanceledForever(states: seq<Db>, ops: seq<Op>, r: RunId, k: nat, n: nat)
    requires History(states, ops) && k <= n <= |ops|
    requires CanceledAt(states[k], r) && Dead(states[k], r)
    requires forall i :: k <= i < n ==> !Reopens(states[i], ops[i], r)
    ensures CanceledAt(states[n], r) && Dead(states[n], r)
    decreases n
  {
    if k < n {
      CanceledForever(states, ops, r, k, n - 1);
      assert Inv(EMPTY);
      StepsKeepInv(states, ops, n - 1);
      assert StepAt(states, ops, n - 1);
      StepKeepsDead(states[n - 1], ops[n - 1], r);
    }
  }

  predicate ServiceOp(op: Op) {
    op.EnqueueOp? || op.CreateSeriesOp? || op.RestartOp? || op.ClaimOp? || op.RequeueOp? || op.SettleOp?
    || op.PauseForUserOp? || op.PauseInterruptedOp? || op.ContinueOp? || op.RetryOp? || op.TickOp? || op.MarkSettledOp?
  }

  // The step writes requests and series only, and no request changes its run.
  ghost predicate OnlyRequestsAndSeries(db: Db, after: Db) {
    && after.cycles == db.cycles && after.operations == db.operations && after.hooks == db.hooks
    && |db.requests| <= |after.requests|
    && (forall i :: 0 <= i < |db.requests| ==> after.requests[i].run == db.requests[i].run)
  }

  lemma TickOneLeavesCycles(db: Db, s: SeriesId, now: int)
    requires s < |db.series| && TickOne(db, s, now).Ok?
    ensures OnlyRequestsAndSeries(db, TickOne(db, s, now).value.0)
  {
  }

  lemma {:induction false} TickLeavesCycles(db: Db, due: seq<SeriesId>, now: int)
    requires Inv(db) && Tick(db, due, now).Ok?
    ensures OnlyRequestsAndSeries(db, Tick(db, due, now).value.0)
    decreases |due|
  {
    if due != [] {
      TickOneKeepsInv(db, due[0], now);
      TickOneLeavesCycles(db, due[0], now);
      TickLeavesCycles(TickOne(db, due[0], now).value.0, due[1..], now);
    }
  }

  lemma NewSeriesLeavesCycles(db: Db, r: RunId, target: int, interval: int, now: int, first: Option<string>)
    requires Inv(db) && InitializeSeries(db, r, target, interval, now, first).Ok?
    ensures OnlyRequestsAndSeries(db, InitializeSeries(db, r, target, interval, now, first).value.0)
  {
    InitializeResult(db, r, target, interval, now, first);
    var after := InitializeSeries(db, r, target, interval, now, first).value.0;
    assert forall i :: 0 <= i < |db.requests| ==> after.requests[i] == after.requests[..|db.requests|][i];
  }

  lemma SettlingLeavesCycles(db: Db, op: Op)
    requires op.SettleOp? || op.PauseForUserOp? || op.PauseInterruptedOp? || op.ContinueOp? || op.MarkSettledOp?
    ensures OnlyRequestsAndSeries(db, Apply(db, op))
  {
  }

  lemma ServiceLeavesCycles(db: Db, op: Op)
    requires Inv(db) && Allowed(db, op) && ServiceOp(op)
    ensures OnlyRequestsAndSeries(db, Apply(db, op))
  {
    match op
    case CreateSeriesOp(r, target, interval, first, now) =>
      if CreateSeries(db, r, target, interval, now, first).Ok? {
        NewSeriesLeavesCycles(db, r, target, interval, now, first);
      }
    case RestartOp(r, now) =>
      if RestartSeries(db, r, now).Ok? {
        var latest := LatestSeries(db.series, r).value;
        NewSeriesLeavesCycles(db, r, db.series[latest].target, db.series[latest].interval, now, None);
      }
    case TickOp(due, now) => if Tick(db, due, now).Ok? { TickLeavesCycles(db, due, now); }
    case _ =>
      if op.SettleOp? || op.PauseForUserOp? || op.PauseInterruptedOp? || op.ContinueOp? || op.MarkSettledOp? {
        SettlingLeavesCycles(db, op);
      } else {
        OtherServiceLeavesCycles(db, op);
      }
  }

  lemma OtherServiceLeavesCycles(db: Db, op: Op)
    requires op.EnqueueOp? || op.RetryOp? || op.ClaimOp? || op.RequeueOp?
    ensures OnlyRequestsAndSeries(db, Apply(db, op))
  {
  }

  // ---- everything a canceled run owns stays closed ----

  // What CancelCloses establishes, on a run that is canceled.
  ghost predicate Closed(db: Db, r: RunId) {
    && CanceledAt(db, r) && Dead(db, r)
    && NoCancelableCycle(db, r) && NoOpenOperation(db, r) && NoOpenHook(db, r)
  }

  // The environment itself does not reopen the run or a cycle, an operation or a hook run of it.
  predicate LeavesClosed(db: Db, op: Op, r: RunId) {
    match op
    case SetCycleOp(c, status, _, _) =>
      c < |db.cycles| && LinkedTo(db, db.cycles[c], r) ==> !CancelableCycle(status)
    case OperationsOp(operations) =>
      forall o :: 0 <= o < |operations| && operations[o].run == r ==> !OpenOperation(operations[o].status)
    case HooksOp(hooks) => forall h :: 0 <= h < |hooks| && HookOf(db, hooks[h], r) ==> !OpenHook(hooks[h].status)
    case _ => !Reopens(db, op, r)
  }

  lemma ClosedFrame(db: Db, after: Db, r: RunId)
    requires RowsOk(db) && OnlyRequestsAndSeries(db, after) && HooksLinked(db.hooks, |db.requests|)
    requires NoCancelableCycle(db, r) && NoOpenOperation(db, r) && NoOpenHook(db, r)
    ensures NoCancelableCycle(after, r) && NoOpenOperation(after, r) && NoOpenHook(after, r)
  {
    forall c | 0 <= c < |db.cycles| ensures LinkedTo(after, after.cycles[c], r) == LinkedTo(db, db.cycles[c], r) {
      assert CycleOk(db, c);
    }
  }

  // A dead run gets no cycle: a cycle is created only for a request being dispatched.
  lemma NoCycleForDead(db: Db, q: RequestId, r: RunId)
    requires Inv(db) && Closed(db, r)
    ensures NoCancelableCycle(Apply(db, CreateCycleOp(q)), r)
    ensures q < |db.requests| && db.requests[q].run == r ==> Apply(db, CreateCycleOp(q)) == db
  {
    var after := Apply(db, CreateCycleOp(q));
    forall c | 0 <= c < |after.cycles| && LinkedTo(after, after.cycles[c], r)
      ensures !CancelableCycle(after.cycles[c].status)
    {
      if c < |db.cycles| { assert LinkedTo(db, db.cycles[c], r); }
    }
  }

  lemma DecisionKeepsClosed(db: Db, c: CycleId, r: RunId)
    requires Inv(db) && Closed(db, r)
    ensures NoCancelableCycle(PublishDecision(db, c), r) && NoCancelableCycle(AnswerDecision(db, c), r)
  {
    var published, answered := PublishDecision(db, c), AnswerDecision(db, c);
    forall i | 0 <= i < |db.cycles| && LinkedTo(db, db.cycles[i], r)
      ensures published.cycles[i] == db.cycles[i] && answered.cycles[i] == db.cycles[i]
    {
    }
    forall i | 0 <= i < |db.cycles|
      ensures LinkedTo(published, published.cycles[i], r) == LinkedTo(db, db.cycles[i], r)
      ensures LinkedTo(answered, answered.cycles[i], r) == LinkedTo(db, db.cycles[i], r)
    {
    }
  }

  lemma CancelKeepsClosed(db: Db, q: RunId, reason: string, now: int, r: RunId)
    requires Inv(db) && Closed(db, r) && Cancel(db, q, reason, now).Ok?
    ensures var after := Cancel(db, q, reason, now).value;
      NoCancelableCycle(after, r) && NoOpenOperation(after, r) && NoOpenHook(after, r)
  {
    LinksSurviveCancel(db, q, reason, now);
    var after := Cancel(db, q, reason, now).value;
    forall c | 0 <= c < |db.cycles| ensures LinkedTo(after, after.cycles[c], r) == LinkedTo(db, db.cycles[c], r) {
    }
    forall h | 0 <= h < |db.hooks| ensures HookOf(after, after.hooks[h], r) == HookOf(db, db.hooks[h], r) {
    }
  }

  lemma {:induction false} EnvironmentKeepsClosed(db: Db, op: Op, r: RunId)
    requires Inv(db) && Allowed(db, op) && Closed(db, r) && LeavesClosed(db, op, r)
    requires op.AddRunOp? || op.SetRunOp? || op.AddUnlinkedCycleOp? || op.SetCycleOp? || op.OperationsOp? || op.HooksOp?
    ensures var after := Apply(db, op); NoCancelableCycle(after, r) && NoOpenOperation(after, r) && NoOpenHook(after, r)
  {
    var after := Apply(db, op);
    forall c | 0 <= c < |after.cycles| && LinkedTo(after, after.cycles[c], r)
      ensures !CancelableCycle(after.cycles[c].status)
    {
      if c < |db.cycles| { assert LinkedTo(db, db.cycles[c], r); }
    }
    forall h | 0 <= h < |after.hooks| && HookOf(after, after.hooks[h], r) ensures !OpenHook(after.hooks[h].status) {
      assert HookOf(db, after.hooks[h], r);
    }
  }

  lemma {:induction false} OtherStepKeepsClosed(db: Db, op: Op, r: RunId)
    requires Inv(db) && Allowed(db, op) && Closed(db, r) && LeavesClosed(db, op, r) && !ServiceOp(op)
    ensures var after := Apply(db, op); NoCancelableCycle(after, r) && NoOpenOperation(after, r) && NoOpenHook(after, r)
  {
    match op
    case CancelOp(q, reason, now) => if Cancel(db, q, reason, now).Ok? { CancelKeepsClosed(db, q, reason, now, r); }
    case CreateCycleOp(q) => NoCycleForDead(db, q, r);
    case PublishOp(c) => DecisionKeepsClosed(db, c, r);
    case AnswerOp(c) => DecisionKeepsClosed(db, c, r);
    case _ => EnvironmentKeepsClosed(db, op, r);
  }

  lemma {:induction false} StepKeepsClosed(db: Db, op: Op, r: RunId)
    requires Inv(db) && Allowed(db, op) && HooksLinked(db.hooks, |db.requests|)
    requires Closed(db, r) && LeavesClosed(db, op, r)
    ensures Closed(Apply(db, op), r)
  {
    StepKeepsDead(db, op, r);
    if ServiceOp(op) {
      ServiceLeavesCycles(db, op);
      ClosedFrame(db, Apply(db, op), r);
    } else {
      OtherStepKeepsClosed(db, op, r);
    }
  }

  // The condition on the environment is exact: any other step of it reopens something.
  lemma {:induction false} StepKeepsClosedIff(db: Db, op: Op, r: RunId)
    requires Inv(db) && Allowed(db, op) && HooksLinked(db.hooks, |db.requests|) && Closed(db, r)
    ensures Closed(Apply(db, op), r) <==> LeavesClosed(db, op, r)
  {
    if LeavesClosed(db, op, r) {
      StepKeepsClosed(db, op, r);
    } else if op.SetCycleOp? {
      assert LinkedTo(Apply(db, op), Apply(db, op).cycles[op.cycle], r);
    } else if op.OperationsOp? {
      var o :| 0 <= o < |op.operations| && op.operations[o].run == r && OpenOperation(op.operations[o].status);
      assert Apply(db, op).operations[o] == op.operations[o];
    } else if op.HooksOp? {
      var h :| 0 <= h < |op.hooks| && HookOf(db, op.hooks[h], r) && OpenHook(op.hooks[h].status);
      assert HookOf(Apply(db, op), Apply(db, op).hooks[h], r);
    }
  }

  lemma StepKeepsHooksLinked(db: Db, op: Op)
    requires Inv(db) && Allowed(db, op) && HooksLinked(db.hooks, |db.requests|)
    ensures HooksLinked(Apply(db, op).hooks, |Apply(db, op).requests|)
  {
    if ServiceOp(op) { ServiceLeavesCycles(db, op); }
  }

  lemma {:induction false} HooksLinkedInEveryHistory(states: seq<Db>, ops: seq<Op>, k: nat)
    requires History(states, ops) && k <= |ops|
    ensures Inv(states[k]) && HooksLinked(states[k].hooks, |states[k].requests|)
  {
    assert Inv(EMPTY);
    StepsKeepInv(states, ops, k);
    if k > 0 {
      HooksLinkedInEveryHistory(states, ops, k - 1);
      assert StepAt(states, ops, k - 1);
      StepKeepsHooksLinked(states[k - 1], ops[k - 1]);
    }
  }

  /**
    And so does everything else the run owns: as long as the environment itself does not reopen
    it, no step of the service, of another cancellation or of a worker gives the run a live
    request, an active series, a cancelable cycle, an open model operation or an open hook run.
  */
  lemma {:induction false} ClosedForever(states: seq<Db>, ops: seq<Op>, r: RunId, k: nat, n: nat)
    requires History(states, ops) && k <= n <= |ops| && Closed(states[k], r)
    requires forall i :: k <= i < n ==> LeavesClosed(states[i], ops[i], r)
    ensures Closed(states[n], r)
    decreases n
  {
    if k < n {
      ClosedForever(states, ops, r, k, n - 1);
      HooksLinkedInEveryHistory(states, ops, n - 1);
      assert StepAt(states, ops, n - 1);
      StepKeepsClosed(states[n - 1], ops[n - 1], r);
    }
  }

  // ---- after a failure ----

  // The cycle on which a series is paused.
  function PausedCycleStatus(db: Db, s: SeriesId): CycleStatus
    requires Inv(db) && s < |db.series| && db.series[s].status == PausedFailure
  {
    assert Coupled(db, s);
    db.cycles[db.series[s].pausedCycle.value].status
  }

  // Nothing stands in the way of the retry's row, and its cycle is the one the series paused on.
  lemma RetryIsFree(db: Db, s: SeriesId, c: CycleId, q: RequestId)
    requires Inv(db) && s < |db.series| && PausedOn(db, s, ReqSettled)
    requires db.series[s].pausedCycle == Some(c) && db.cycles[c].request == Some(q)
    ensures FindSource(db.requests, db.series[s].run, Retry, RetryRow(db, s, q).sourceId).None?
    ensures CycleOf(db.cycles, q) == Some(c)
  {
    var found := FindSource(db.requests, db.series[s].run, Retry, RetryRow(db, s, q).sourceId);
    assert RequestOk(db, q);
    assert found.Some? ==> RetryNumbered(db.requests, db.requests[found.value]) && RequestOk(db, found.value);
    var d := CycleOf(db.cycles, q).value;
    assert d == c;
  }

  /**
    A series paused on a failure can be retried exactly when its cycle is still failed; a
    blocked one is refused. Continuing works for both, and frees the next slot or ends the series.
  */
  lemma AfterFailure(db: Db, s: SeriesId, now: int)
    requires Inv(db) && s < |db.series| && db.series[s].status == PausedFailure
    requires RunGate(db, db.series[s].run).None?
    ensures var retried := RetryFailed(db, db.series[s].run, s, now);
      && (retried.Ok? <==> PausedCycleStatus(db, s) == Failed)
      && (retried.Err? ==> retried.error == NotThePausedFailure)
      && (retried.Ok? ==>
        && retried.value.1 == |db.requests|
        && retried.value.0.series[s].status == Running
        && retried.value.0.requests[|db.requests|].slot == Some(db.series[s].settled + 1))
    ensures ContinueFailed(db, db.series[s].run, s, now).Ok?
  {
    assert Coupled(db, s) && SeriesOk(db, s);
    var c := db.series[s].pausedCycle.value;
    RetryIsFree(db, s, c, db.cycles[c].request.value);
    assert RequestOk(db, db.cycles[c].request.value);
  }

  /**
    A retry repeats the failed request: same slot, instruction and context, linked to it, and
    numbered after every request of the slot.
  */
  lemma RetryRepeatsFailed(db: Db, s: SeriesId, now: int)
    requires Inv(db) && s < |db.series| && db.series[s].status == PausedFailure
    requires RetryFailed(db, db.series[s].run, s, now).Ok?
    ensures db.series[s].pausedCycle.Some? && db.series[s].pausedCycle.value < |db.cycles|
    ensures db.cycles[db.series[s].pausedCycle.value].request.Some?
    ensures var q := db.cycles[db.series[s].pausedCycle.value].request.value;
      var after := RetryFailed(db, db.series[s].run, s, now).value.0;
      && q < |db.requests| && |after.requests| == |db.requests| + 1 && after.requests[..|db.requests|] == db.requests
      && var failed, row := db.requests[q], after.requests[|db.requests|];
         && row.run == failed.run && row.series == Some(s) && row.slot == failed.slot
         && row.instruction == failed.instruction && row.previous == failed.previous
         && row.source == Retry && row.retryOf == Some(q) && row.status == Queued
         && row.sourceId
             == SlotSource(s, db.series[s].settled + 1, CountSlot(db.requests, s, db.series[s].settled + 1) + 1)
  {
    assert Coupled(db, s) && SeriesOk(db, s);
    AfterFailure(db, s, now);
  }

  // A restarted series repeats the latest one's target and interval under the next number.
  lemma RestartRepeatsLatest(db: Db, r: RunId, now: int)
    requires Inv(db) && RestartSeries(db, r, now).Ok?
    ensures LatestSeries(db.series, r).Some?
    ensures var latest := db.series[LatestSeries(db.series, r).value];
      var after := RestartSeries(db, r, now).value.0;
      && latest.status == AutoCompleted && |after.series| == |db.series| + 1
      && var row := after.series[|db.series|];
         && row.run == r && row.target == latest.target && row.interval == latest.interval
         && row.number == latest.number + 1 && row.settled == 0 && row.status == Running
  {
    var latest := db.series[LatestSeries(db.series, r).value];
    InitializeResult(db, r, latest.target, latest.interval, now, None);
  }
}
