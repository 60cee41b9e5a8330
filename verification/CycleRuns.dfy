/**
  Whole runs of the protocol: any number of users, workers, timers and observers, each
  contributing atomic steps in any order, with an environment that changes the status of
  cycles, runs, operations and hook runs as it likes.
*/
module CycleRuns {
  import opened Outcomes
  import opened CycleTables
  import opened CycleSteps
  import opened CycleInvariant

  datatype Op =
    // the cycle service
    | EnqueueOp(run: RunId, row: NewRequest, now: int)
    | CreateSeriesOp(run: RunId, target: int, interval: int, first: Option<string>, now: int)
    | RestartOp(run: RunId, now: int)
    | ClaimOp(run: RunId, now: int)
    | RequeueOp(request: RequestId)
    | SettleOp(cycle: CycleId, now: int)
    | PauseForUserOp(cycle: CycleId)
    | PauseInterruptedOp(cycle: CycleId)
    | ContinueOp(run: RunId, series: SeriesId, now: int)
    | RetryOp(run: RunId, series: SeriesId, now: int)
    | TickOp(due: seq<SeriesId>, now: int)
    | CancelOp(run: RunId, reason: string, now: int)
    | MarkSettledOp(request: RequestId, now: int)
    // TeamRunService, the orchestrator and the model operations
    | AddRunOp(added: Run)
    | SetRunOp(run: RunId, runStatus: RunStatus)
    | CreateCycleOp(request: RequestId)
    | AddUnlinkedCycleOp(run: RunId, status: CycleStatus)
    | SetCycleOp(cycle: CycleId, status: CycleStatus, error: string, proposal: Option<string>)
    | PublishOp(cycle: CycleId)
    | AnswerOp(cycle: CycleId)
    | OperationsOp(operations: seq<Operation>)
    | HooksOp(hooks: seq<HookRun>)

  // A hook run names a request that exists, or none: a foreign key.
  ghost predicate HooksLinked(hooks: seq<HookRun>, requests: nat) {
    forall h :: 0 <= h < |hooks| && hooks[h].request.Some? ==> hooks[h].request.value < requests
  }

  // What each caller may do; the service's own guards are in Apply.
  ghost predicate Allowed(db: Db, op: Op) {
    match op
    case EnqueueOp(_, row, _) => Canonical(db, row)
    case MarkSettledOp(q, _) => q < |db.requests| ==> db.requests[q].series.None? || !Live(db.requests[q].status)
    case SetRunOp(r, _) => r < |db.runs|
    case AddUnlinkedCycleOp(r, _) => r < |db.runs|
    case SetCycleOp(c, _, _, _) => c < |db.cycles|
    case HooksOp(hooks) => HooksLinked(hooks, |db.requests|)
    case _ => true
  }

  // A user brings a canceled run back.
  predicate Reopens(db: Db, op: Op, r: RunId) {
    op.SetRunOp? && op.run == r && r < |db.runs| && db.runs[r].status == RunCanceled && op.runStatus != RunCanceled
  }

  // The tables after a step; a refused step leaves them as they are.
  function Apply(db: Db, op: Op): Db {
    match op
    case EnqueueOp(r, row, now) => var e := Enqueue(db, r, row, now); if e.Ok? then e.value.0 else db
    case CreateSeriesOp(r, target, interval, first, now) =>
      var e := CreateSeries(db, r, target, interval, now, first); if e.Ok? then e.value.0 else db
    case RestartOp(r, now) => var e := RestartSeries(db, r, now); if e.Ok? then e.value.0 else db
    case ClaimOp(r, now) => var e := Claim(db, r, now); if e.Ok? then e.value.0 else db
    case RequeueOp(q) => var e := Requeue(db, q); if e.Ok? then e.value else db
    case SettleOp(c, now) => var e := Settle(db, c, now); if e.Ok? then e.value.0 else db
    case PauseForUserOp(c) =>
      var e := PauseById(db, c, WaitingForUser, PausedUser, "waiting_for_user"); if e.Ok? then e.value.0 else db
    case PauseInterruptedOp(c) =>
      var e := PauseById(db, c, Interrupted, PausedInterrupted, "interrupted"); if e.Ok? then e.value.0 else db
    case ContinueOp(r, s, now) => var e := ContinueFailed(db, r, s, now); if e.Ok? then e.value else db
    case RetryOp(r, s, now) => var e := RetryFailed(db, r, s, now); if e.Ok? then e.value.0 else db
    case TickOp(due, now) => var e := Tick(db, due, now); if e.Ok? then e.value.0 else db
    case CancelOp(r, reason, now) => var e := Cancel(db, r, reason, now); if e.Ok? then e.value else db
    case MarkSettledOp(q, now) => var e := MarkSettled(db, q, now); if e.Ok? then e.value else db
    case AddRunOp(row) => db.(runs := db.runs + [row])
    case SetRunOp(r, status) =>
      if r < |db.runs| then db.(runs := db.runs[r := db.runs[r].(status := status)]) else db
    case CreateCycleOp(q) => var e := CreateCycle(db, q); if e.Ok? then e.value.0 else db
    case AddUnlinkedCycleOp(r, status) => db.(cycles := db.cycles + [Cycle(r, None, status, "", None)])
    case SetCycleOp(c, status, error, proposal) =>
      if c < |db.cycles| then
        db.(cycles := db.cycles[c := db.cycles[c].(status := status, error := error, proposal := proposal)])
      else db
    case PublishOp(c) => PublishDecision(db, c)
    case AnswerOp(c) => AnswerDecision(db, c)
    case OperationsOp(operations) => db.(operations := operations)
    case HooksOp(hooks) => db.(hooks := hooks)
  }

  const EMPTY := Db([], [], [], [], [], [])

  // states[k + 1] follows from states[k] by ops[k].
  ghost predicate StepAt(states: seq<Db>, ops: seq<Op>, k: nat)
    requires |states| == |ops| + 1 && k < |ops|
  {
    Allowed(states[k], ops[k]) && states[k + 1] == Apply(states[k], ops[k])
  }

  ghost predicate Steps(states: seq<Db>, ops: seq<Op>) {
    |states| == |ops| + 1 && forall k :: 0 <= k < |ops| ==> StepAt(states, ops, k)
  }

  ghost predicate History(states: seq<Db>, ops: seq<Op>) {
    Steps(states, ops) && states[0] == EMPTY
  }

  // ---- every step keeps the invariant ----

  lemma ServiceStepKeepsInv(db: Db, op: Op)
    requires Inv(db) && Allowed(db, op)
    requires op.EnqueueOp? || op.CreateSeriesOp? || op.RestartOp? || op.ClaimOp? || op.RequeueOp? || op.SettleOp?
      || op.PauseForUserOp? || op.PauseInterruptedOp? || op.ContinueOp? || op.RetryOp? || op.TickOp? || op.CancelOp?
      || op.MarkSettledOp?
    ensures Inv(Apply(db, op))
  {
    match op
    case EnqueueOp(r, row, now) => if Enqueue(db, r, row, now).Ok? { EnqueueKeepsInv(db, r, row, now); }
    case CreateSeriesOp(r, target, interval, first, now) =>
      if CreateSeries(db, r, target, interval, now, first).Ok? {
        InitializeKeepsInv(db, r, target, interval, now, first);
      }
    case RestartOp(r, now) =>
      if RestartSeries(db, r, now).Ok? {
        var latest := LatestSeries(db.series, r).value;
        InitializeKeepsInv(db, r, db.series[latest].target, db.series[latest].interval, now, None);
      }
    case ClaimOp(r, now) => if Claim(db, r, now).Ok? { ClaimKeepsInv(db, r, now); }
    case RequeueOp(q) => if Requeue(db, q).Ok? { RequeueKeepsInv(db, q); }
    case SettleOp(c, now) => if Settle(db, c, now).Ok? { SettleKeepsInv(db, c, now); }
    case PauseForUserOp(c) =>
      if PauseById(db, c, WaitingForUser, PausedUser, "waiting_for_user").Ok? {
        PauseByIdKeepsInv(db, c, WaitingForUser, PausedUser, "waiting_for_user");
      }
    case PauseInterruptedOp(c) =>
      if PauseById(db, c, Interrupted, PausedInterrupted, "interrupted").Ok? {
        PauseByIdKeepsInv(db, c, Interrupted, PausedInterrupted, "interrupted");
      }
    case ContinueOp(r, s, now) => if ContinueFailed(db, r, s, now).Ok? { ContinueKeepsInv(db, r, s, now); }
    case RetryOp(r, s, now) => if RetryFailed(db, r, s, now).Ok? { RetryKeepsInv(db, r, s, now); }
    case TickOp(due, now) => if Tick(db, due, now).Ok? { TickKeepsInv(db, due, now); }
    case CancelOp(r, reason, now) => if Cancel(db, r, reason, now).Ok? { CancelKeepsInv(db, r, reason, now); }
    case MarkSettledOp(q, now) => if MarkSettled(db, q, now).Ok? { MarkSettledKeepsInvIff(db, q, now); }
  }

  lemma StepKeepsInv(db: Db, op: Op)
    requires Inv(db) && Allowed(db, op)
    ensures Inv(Apply(db, op))
  {
    match op
    case AddRunOp(_) => CyclesFrame(db, Apply(db, op));
    case SetRunOp(_, _) => CyclesFrame(db, Apply(db, op));
    case CreateCycleOp(q) => if CreateCycle(db, q).Ok? { CreateCycleKeepsInv(db, q); }
    case AddUnlinkedCycleOp(_, _) => CyclesFrame(db, Apply(db, op));
    case SetCycleOp(c, status, error, proposal) => CycleUpdateKeepsInv(db, c, status, error, proposal);
    case PublishOp(c) => PublishKeepsInv(db, c);
    case AnswerOp(c) => AnswerKeepsInv(db, c);
    case OperationsOp(_) => CyclesFrame(db, Apply(db, op));
    case HooksOp(_) => CyclesFrame(db, Apply(db, op));
    case _ => ServiceStepKeepsInv(db, op);
  }

  lemma {:induction false} StepsKeepInv(states: seq<Db>, ops: seq<Op>, k: nat)
    requires Steps(states, ops) && Inv(states[0]) && k < |states|
    ensures Inv(states[k])
  {
    if k > 0 {
      StepsKeepInv(states, ops, k - 1);
      assert StepAt(states, ops, k - 1);
      StepKeepsInv(states[k - 1], ops[k - 1]);
    }
  }

  // What the coupling says, read off without the auxiliary predicates.
  ghost predicate SeriesStatement(db: Db, s: SeriesId)
    requires s < |db.series|
  {
    var row := db.series[s];
    var slot := Some(row.settled + 1);
    && (row.status == Running ==>
      exists i :: 0 <= i < |db.requests| && db.requests[i].series == Some(s) && Live(db.requests[i].status)
          && db.requests[i].slot == slot)
    && (row.status in {PausedUser, PausedInterrupted} ==>
      exists i :: 0 <= i < |db.requests| && db.requests[i].series == Some(s) && db.requests[i].status == Dispatching
          && db.requests[i].slot == slot)
    && (forall i, j ::
      (0 <= i < j < |db.requests| && db.requests[i].series == Some(s) && db.requests[j].series == Some(s)) ==>
      !Live(db.requests[i].status) || !Live(db.requests[j].status))
    && (row.status !in {Running, PausedUser, PausedInterrupted} ==>
      forall i :: 0 <= i < |db.requests| && db.requests[i].series == Some(s) ==> !Live(db.requests[i].status))
    && (forall i :: 0 <= i < |db.requests| && db.requests[i].series == Some(s) ==>
      db.requests[i].slot.Some? && 1 <= db.requests[i].slot.value <= row.settled + 1)
    && (ActiveSeries(row.status) ==> row.settled < row.target && LatestSeries(db.series, row.run) == Some(s))
    && (forall t :: 0 <= t < |db.series| && t != s && db.series[t].run == row.run ==>
      !(ActiveSeries(row.status) && ActiveSeries(db.series[t].status)))
  }

  lemma InvImpliesStatement(db: Db, s: SeriesId)
    requires Inv(db) && s < |db.series|
    ensures SeriesStatement(db, s)
  {
    assert Coupled(db, s) && SeriesOk(db, s);
    forall i | 0 <= i < |db.requests| && db.requests[i].series == Some(s)
      ensures db.requests[i].slot.Some? && 1 <= db.requests[i].slot.value <= db.series[s].settled + 1
      ensures Live(db.requests[i].status) ==> LiveFor(db, i, s)
    {
      assert RequestOk(db, i);
    }
    if ActiveSeries(db.series[s].status) {
      var latest := LatestSeries(db.series, db.series[s].run);
      assert latest.Some? && latest.value == s;
    }
  }

  /** Every state of every history couples each series to its requests. */
  lemma CoupledInEveryHistory(states: seq<Db>, ops: seq<Op>, k: nat, s: SeriesId)
    requires History(states, ops) && k < |states| && s < |states[k].series|
    ensures SeriesStatement(states[k], s)
  {
    assert Inv(EMPTY);
    StepsKeepInv(states, ops, k);
    InvImpliesStatement(states[k], s);
  }
}
