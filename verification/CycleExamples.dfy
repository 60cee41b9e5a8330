/**
  Concrete histories that end where a promise of the cycle service fails: a paused cycle
  outlives its run's cancellation, a blocked cycle cannot be retried, a request settled past its
  series uncouples it, and a slot's name taken beforehand leaves a series running with nothing
  to run.
*/
module CycleExamples {
  import opened Outcomes
  import opened CycleTables
  import opened CycleSteps
  import opened CycleInvariant
  import opened CycleRuns
  import opened CycleTimer
  import opened CycleCancel

  ghost predicate Reached(db: Db) {
    exists states, ops :: History(states, ops) && states[|ops|] == db
  }

  lemma ReachedStep(db: Db, op: Op)
    requires Reached(db) && Allowed(db, op)
    ensures Reached(Apply(db, op))
  {
    var states, ops :| History(states, ops) && states[|ops|] == db;
    var states', ops' := states + [Apply(db, op)], ops + [op];
    forall k | 0 <= k < |ops'| ensures StepAt(states', ops', k) {
      if k < |ops| { assert StepAt(states, ops, k); }
    }
    assert History(states', ops') && states'[|ops'|] == Apply(db, op);
  }

  lemma ReachedStart()
    ensures Reached(EMPTY)
  {
    var states, ops: seq<Op> := [EMPTY], [];
    assert History(states, ops) && states[|ops|] == EMPTY;
  }

  // ---- one AUTO team up to the end of its first cycle ----

  const LEAD := Run(Executing, true, AutoPolicy, "goal")

  function Tables(requests: seq<Request>, series: seq<Series>, cycles: seq<Cycle>): Db {
    Db([LEAD], requests, series, cycles, [], [])
  }

  function Slot(slot: int, named: int, status: RequestStatus): Request {
    Request(0, Some(0), Some(slot), Auto, SlotSource(0, named, 1), status, "go", None, None, 0,
            if status == Queued then None else Some(0), if Live(status) then None else Some(0))
  }

  function Plan(target: int, status: SeriesStatus, settled: nat, next: Option<int>): Series {
    Series(0, 1, status, target, settled, 0, next, None, None)
  }

  function Work(request: RequestId, status: CycleStatus, proposal: Option<string>): Cycle {
    Cycle(0, Some(request), status, "", proposal)
  }

  function QueuedTeam(target: int): Db { Tables([Slot(1, 1, Queued)], [Plan(target, Running, 0, None)], []) }

  function CycleTeam(target: int, status: CycleStatus, proposal: Option<string>): Db {
    Tables([Slot(1, 1, Dispatching)], [Plan(target, Running, 0, None)], [Work(0, status, proposal)])
  }

  lemma TeamStarts(db: Db, target: int)
    requires db == Tables([], [], []) && target >= 1
    ensures Apply(db, CreateSeriesOp(0, target, 0, Some("go"), 0)) == QueuedTeam(target)
  {
    var added := db.(series := db.series + [Plan(target, Running, 0, None)]);
    assert added.series == [Plan(target, Running, 0, None)];
    var row := FirstSlot(0, "go");
    assert FindSource(added.requests, 0, Auto, row.sourceId).None?;
    assert SlotHolder(added.requests, 0, 1).None?;
    assert Insert(added, 0, row, 0).requests == [Slot(1, 1, Queued)];
    assert ActiveSeriesOf(db.series, 0).None? && LatestSeries(db.series, 0).None?;
    assert InitializeSeries(db, 0, target, 0, 0, Some("go")) == Ok((QueuedTeam(target), 0, 0));
  }

  lemma QueuedTeamReached(target: int)
    requires target >= 1
    ensures Reached(QueuedTeam(target))
  {
    ReachedStart();
    ReachedStep(EMPTY, AddRunOp(LEAD));
    assert EMPTY.runs + [LEAD] == [LEAD];
    TeamStarts(Tables([], [], []), target);
    ReachedStep(Tables([], [], []), CreateSeriesOp(0, target, 0, Some("go"), 0));
  }

  lemma TeamClaims(db: Db, target: int)
    requires db == QueuedTeam(target)
    ensures Apply(db, ClaimOp(0, 0)) == Tables([Slot(1, 1, Dispatching)], [Plan(target, Running, 0, None)], [])
  {
    assert IsQueued(db.requests[0], 0);
    assert NextQueued(db.requests, 0) == Some(0) && DispatchingOf(db.requests, 0).None?;
  }

  lemma TeamCreatesCycle(db: Db, target: int)
    requires db == Tables([Slot(1, 1, Dispatching)], [Plan(target, Running, 0, None)], [])
    ensures Apply(db, CreateCycleOp(0)) == CycleTeam(target, CycleQueued, None)
  {
    assert CycleOf(db.cycles, 0).None?;
    assert db.cycles + [Work(0, CycleQueued, None)] == [Work(0, CycleQueued, None)];
  }

  lemma {:induction false} CycleTeamReached(target: int, status: CycleStatus, proposal: Option<string>)
    requires target >= 1
    ensures Reached(CycleTeam(target, status, proposal))
  {
    QueuedTeamReached(target);
    TeamClaims(QueuedTeam(target), target);
    ReachedStep(QueuedTeam(target), ClaimOp(0, 0));
    var claimed := Tables([Slot(1, 1, Dispatching)], [Plan(target, Running, 0, None)], []);
    TeamCreatesCycle(claimed, target);
    ReachedStep(claimed, CreateCycleOp(0));
    var db := CycleTeam(target, CycleQueued, None);
    ReachedStep(db, SetCycleOp(0, status, "", proposal));
    assert db.cycles[0 := Work(0, status, proposal)] == [Work(0, status, proposal)];
    assert Apply(db, SetCycleOp(0, status, "", proposal)) == CycleTeam(target, status, proposal);
  }

  /** The team's cycle is paused and the run then canceled: the cycle is still not in a final status. */
  lemma PausedCycleOutlivesCancel(reason: string, now: int)
    ensures var db := CycleTeam(1, CyclePaused, None);
      && Reached(db) && Cancel(db, 0, reason, now).Ok?
      && HasPausedCycle(db, 0) && HasUnfinishedCycle(Cancel(db, 0, reason, now).value, 0)
  {
    CycleTeamReached(1, CyclePaused, None);
    var db := CycleTeam(1, CyclePaused, None);
    var after := Cancel(db, 0, reason, now).value;
    assert LinkedTo(db, db.cycles[0], 0) && LinkedTo(after, after.cycles[0], 0);
  }

  /** The first slot of a series is marked settled while queued: the series runs on with no request. */
  lemma MarkSettledUncouples(now: int)
    ensures var db := QueuedTeam(1);
      Reached(db) && MarkSettled(db, 0, now).Ok? && !Inv(MarkSettled(db, 0, now).value)
  {
    QueuedTeamReached(1);
    var after := MarkSettled(QueuedTeam(1), 0, now).value;
    assert !Coupled(after, 0);
  }

  // ---- a blocked cycle ----

  function BlockedTeam(): Db {
    Tables([Slot(1, 1, ReqSettled)],
           [Series(0, 1, PausedFailure, 1, 0, 0, None, Some("Cycle failed"), Some(0))], [Work(0, Blocked, None)])
  }

  lemma BlockedTeamReached(db: Db)
    requires db == CycleTeam(1, Blocked, None)
    ensures Reached(BlockedTeam())
  {
    CycleTeamReached(1, Blocked, None);
    ReachedStep(db, SettleOp(0, 0));
    assert Apply(db, SettleOp(0, 0)) == BlockedTeam();
  }

  /** A series paused on a blocked cycle offers a retry, which is refused. */
  lemma BlockedCannotRetry(now: int)
    ensures Reached(BlockedTeam()) && RetryFailed(BlockedTeam(), 0, 0, now) == Err(NotThePausedFailure)
  {
    BlockedTeamReached(CycleTeam(1, Blocked, None));
    ReachedIsOk(BlockedTeam());
    AfterFailure(BlockedTeam(), 0, now);
  }

  lemma ReachedIsOk(db: Db)
    requires Reached(db)
    ensures Inv(db)
  {
    var states, ops :| History(states, ops) && states[|ops|] == db;
    assert Inv(EMPTY);
    StepsKeepInv(states, ops, |ops|);
  }

  // ---- a slot's name taken by another request ----

  // The same, by a caller that chooses source ids as it likes.
  ghost predicate ReachedFreely(db: Db) {
    exists states, ops :: FreeHistory(states, ops) && states[|ops|] == db
  }

  ghost predicate FreeHistory(states: seq<Db>, ops: seq<Op>) {
    && |states| == |ops| + 1 && states[0] == EMPTY
    && forall k :: 0 <= k < |ops| ==> FollowsBy(states, ops, k)
  }

  ghost predicate FollowsBy(states: seq<Db>, ops: seq<Op>, k: nat)
    requires |states| == |ops| + 1 && k < |ops|
  {
    states[k + 1] == Apply(states[k], ops[k])
  }

  lemma ReachedFreelyStep(db: Db, op: Op)
    requires ReachedFreely(db)
    ensures ReachedFreely(Apply(db, op))
  {
    var states, ops :| FreeHistory(states, ops) && states[|ops|] == db;
    var states', ops' := states + [Apply(db, op)], ops + [op];
    forall k | 0 <= k < |ops'| ensures FollowsBy(states', ops', k) {
      if k < |ops| { assert FollowsBy(states, ops, k); }
    }
    assert FreeHistory(states', ops') && states'[|ops'|] == Apply(db, op);
  }

  lemma ReachedIsFree(db: Db)
    requires Reached(db)
    ensures ReachedFreely(db)
  {
    var states, ops :| History(states, ops) && states[|ops|] == db;
    forall k | 0 <= k < |ops| ensures FollowsBy(states, ops, k) { assert StepAt(states, ops, k); }
    assert FreeHistory(states, ops);
  }

  const NEXT := Some("next")

  // One slot of three is settled.
  function OneSettled(): Db {
    Tables([Slot(1, 1, ReqSettled)], [Plan(3, WaitingInterval, 1, Some(0))], [Work(0, Completed, NEXT)])
  }

  // The second slot is there, under the name of the third.
  function Misnamed(status: RequestStatus, cycles: seq<Cycle>): Db {
    Tables([Slot(1, 1, ReqSettled), Slot(2, 3, status)], [Plan(3, Running, 1, None)],
        [Work(0, Completed, NEXT)] + cycles)
  }

  // It is settled too, so the third slot is due.
  function TwoSettled(): Db {
    Tables([Slot(1, 1, ReqSettled), Slot(2, 3, ReqSettled)], [Plan(3, WaitingInterval, 2, Some(0))],
           [Work(0, Completed, NEXT), Work(1, Completed, NEXT)])
  }

  function MisnamedRow(): NewRequest { NewRequest(Auto, SlotSource(0, 3, 1), "go", None, false, Some(0), Some(2),
      None) }

  lemma OneSettledReached(db: Db)
    requires db == CycleTeam(3, Completed, NEXT)
    ensures Reached(OneSettled())
  {
    CycleTeamReached(3, Completed, NEXT);
    ReachedStep(db, SettleOp(0, 0));
    assert Apply(db, SettleOp(0, 0)) == OneSettled();
  }

  lemma MisnamedIsAccepted(db: Db)
    requires db == OneSettled()
    ensures Apply(db, EnqueueOp(0, MisnamedRow(), 0)) == Misnamed(Queued, [])
  {
    var row := MisnamedRow();
    assert FindSource(db.requests, 0, Auto, row.sourceId).None? && SlotHolder(db.requests, 0, 2).None?;
    assert InsertGate(db, 0, row).None?;
    assert Insert(db, 0, row, 0).requests == [Slot(1, 1, ReqSettled), Slot(2, 3, Queued)];
    assert Enqueue(db, 0, row, 0).value.0 == Insert(db, 0, row, 0);
  }

  lemma {:induction false} MisnamedIsClaimed(db: Db)
    requires db == Misnamed(Queued, [])
    ensures Apply(db, ClaimOp(0, 0)) == Misnamed(Dispatching, [])
  {
    assert IsQueued(db.requests[1], 0);
    assert NextQueued(db.requests, 0) == Some(1) && DispatchingOf(db.requests, 0).None?;
  }

  lemma {:induction false} MisnamedGetsCycle(db: Db)
    requires db == Misnamed(Dispatching, [])
    ensures Apply(db, CreateCycleOp(1)) == Misnamed(Dispatching, [Work(1, CycleQueued, None)])
  {
    assert CycleOf(db.cycles, 1).None?;
  }

  lemma {:induction false} MisnamedCompletes(db: Db)
    requires db == Misnamed(Dispatching, [Work(1, CycleQueued, None)])
    ensures Apply(db, SetCycleOp(1, Completed, "", NEXT)) == Misnamed(Dispatching, [Work(1, Completed, NEXT)])
  {
  }

  lemma MisnamedSettles(db: Db)
    requires db == Misnamed(Dispatching, [Work(1, Completed, NEXT)])
    ensures Apply(db, SettleOp(1, 0)) == TwoSettled()
  {
    assert Apply(db, SettleOp(1, 0)).requests == [Slot(1, 1, ReqSettled), Slot(2, 3, ReqSettled)];
  }

  lemma TwoSettledReached()
    ensures ReachedFreely(TwoSettled())
  {
    OneSettledReached(CycleTeam(3, Completed, NEXT));
    ReachedIsFree(OneSettled());
    MisnamedIsAccepted(OneSettled());
    ReachedFreelyStep(OneSettled(), EnqueueOp(0, MisnamedRow(), 0));
    var claimed, created := Misnamed(Dispatching, []), Misnamed(Dispatching, [Work(1, CycleQueued, None)]);
    MisnamedIsClaimed(Misnamed(Queued, []));
    MisnamedGetsCycle(claimed);
    MisnamedCompletes(created);
    ReachedFreelyStep(Misnamed(Queued, []), ClaimOp(0, 0));
    ReachedFreelyStep(claimed, CreateCycleOp(1));
    ReachedFreelyStep(created, SetCycleOp(1, Completed, "", NEXT));
    MisnamedSettles(Misnamed(Dispatching, [Work(1, Completed, NEXT)]));
    ReachedFreelyStep(Misnamed(Dispatching, [Work(1, Completed, NEXT)]), SettleOp(1, 0));
  }

  lemma NothingLive(db: Db)
    requires db == TwoSettled()
    ensures !HasLive(db, 0) && Due(db, 0, 0) && LatestFinal(db.cycles, 0) == Some(1)
    ensures FindSource(db.requests, 0, Auto, SlotSource(0, 3, 1)).Some?
  {
    assert IsFinalOf(db.cycles[1], 0);
    assert HasSource(db.requests[1], 0, Auto, SlotSource(0, 3, 1));
  }

  /**
    A caller of enqueue_request names its slot-2 request after slot 3. When slot 3 falls due, the
    tick hands back that settled request: the series is running and has no live request.
  */
  lemma TakenNameUncouples()
    ensures ReachedFreely(TwoSettled()) && Due(TwoSettled(), 0, 0) && TickOne(TwoSettled(), 0, 0).Ok?
    ensures var after := TickOne(TwoSettled(), 0, 0).value.0; after.series[0].status == Running && !HasLive(after, 0)
  {
    TwoSettledReached();
    NothingLive(TwoSettled());
    TickCouplesIffNameFree(TwoSettled(), 0, 0);
  }
}
