/**
  The timer, termination, and the time between slots.
*/
module CycleTimer {
  import opened Outcomes
  import opened CycleTables
  import opened CycleSteps
  import opened CycleInvariant
  import opened CycleRuns
  import opened CycleAccounting

  // ---- the only way a tick fails ----

  // The next instruction of a run cannot be formed.
  predicate Lacks(runs: seq<Run>, cycles: seq<Cycle>, r: RunId) {
    AutoInstruction(runs, cycles, r, LatestFinal(cycles, r)).Err?
  }

  predicate NoInstruction(db: Db, s: SeriesId)
    requires s < |db.series|
  {
    Lacks(db.runs, db.cycles, db.series[s].run)
  }

  ghost predicate DueList(db: Db, due: seq<SeriesId>, now: int) {
    && (forall k :: 0 <= k < |due| ==> due[k] < |db.series| && Due(db, due[k], now))
    && (forall j, k :: 0 <= j < k < |due| ==> due[j] != due[k])
  }

  // On a due series the timer queues the next slot, ends the series, or lacks an objective.
  lemma TickOneOutcome(db: Db, s: SeriesId, now: int)
    requires Inv(db) && s < |db.series| && Due(db, s, now)
    ensures var one := TickOne(db, s, now);
      && (one.Err? <==> NoInstruction(db, s))
      && (one.Err? ==> one.error == NoObjective)
      && (one.Ok? ==>
        && |one.value.1.created| + |one.value.1.completed| == 1
        && one.value.0.runs == db.runs && one.value.0.cycles == db.cycles
        && |one.value.0.series| == |db.series| && one.value.0.series[s].status in {Running, AutoCompleted}
        && one.value.0.series == db.series[s := one.value.0.series[s]])
  {
    var row := db.series[s];
    assert SeriesOk(db, s) && Coupled(db, s);
    var previous := LatestFinal(db.cycles, row.run);
    var instruction := AutoInstruction(db.runs, db.cycles, row.run, previous);
    if instruction.Ok? && instruction.value.Some? {
      WaitingSlotIsFree(db, s, previous, instruction.value.value);
    }
  }

  // The lead's proposal, if the last final cycle left one; the objective after a failure or at the start.
  ghost predicate Instructs(db: Db, r: RunId, instruction: string)
    requires r < |db.runs|
  {
    var latest := LatestFinal(db.cycles, r);
    if latest.Some? && db.cycles[latest.value].proposal.Some? then db.cycles[latest.value].proposal == Some(instruction)
    else (latest.Some? ==> db.cycles[latest.value].status in {Failed, Blocked}) && instruction == db.runs[r].objective && instruction != ""
  }

  // The last cycle succeeded or was canceled and proposed nothing.
  predicate NothingProposed(db: Db, r: RunId) {
    var latest := LatestFinal(db.cycles, r);
    latest.Some? && db.cycles[latest.value].proposal.None? && db.cycles[latest.value].status !in {Failed, Blocked}
  }

  /**
    What the timer does on a due series: it ends the series when the last cycle proposed nothing,
    and otherwise queues the next slot with the lead's proposal or the objective, continuing from
    the last final cycle.
  */
  lemma TickChoosesInstruction(db: Db, s: SeriesId, now: int)
    requires Inv(db) && s < |db.series| && Due(db, s, now) && TickOne(db, s, now).Ok?
    ensures var (after, result) := TickOne(db, s, now).value;
      && (result.completed == [s] <==> NothingProposed(db, db.series[s].run))
      && (NothingProposed(db, db.series[s].run) ==>
          after.requests == db.requests && after.series[s].status == AutoCompleted)
      && (result.completed == [] ==>
        && result.created == [|db.requests|] && |after.requests| == |db.requests| + 1
            && after.requests[..|db.requests|] == db.requests
        && var row := after.requests[|db.requests|];
           && row.run == db.series[s].run && row.series == Some(s) && row.slot == Some(db.series[s].settled + 1)
           && row.source == Auto && row.status == Queued && row.retryOf.None? && row.createdAt == now
           && row.previous == LatestFinal(db.cycles, row.run) && Instructs(db, row.run, row.instruction))
  {
    TickOneOutcome(db, s, now);
    var run := db.series[s].run;
    var previous := LatestFinal(db.cycles, run);
    var instruction := AutoInstruction(db.runs, db.cycles, run, previous);
    if instruction.value.Some? {
      WaitingSlotIsFree(db, s, previous, instruction.value.value);
    }
  }

  ghost predicate HasLive(db: Db, s: SeriesId) {
    exists i :: 0 <= i < |db.requests| && LiveFor(db, i, s)
  }

  /**
    Why callers must not use the names of slots: a tick that starts a slot leaves its series
    running, and there is a request to run exactly when nobody had taken the slot's source id.
    Otherwise it hands back the foreign row and the series waits for nothing.
  */
  lemma TickCouplesIffNameFree(db: Db, s: SeriesId, now: int)
    requires s < |db.series| && Due(db, s, now) && !HasLive(db, s)
    requires TickOne(db, s, now).Ok? && TickOne(db, s, now).value.1.created != []
    ensures var after := TickOne(db, s, now).value.0;
      && s < |after.series| && after.series[s].status == Running
      && (HasLive(after, s) <==>
          FindSource(db.requests, db.series[s].run, Auto, SlotSource(s, db.series[s].settled + 1, 1)).None?)
  {
    var after := TickOne(db, s, now).value.0;
    if FindSource(db.requests, db.series[s].run, Auto, SlotSource(s, db.series[s].settled + 1, 1)).None? {
      assert LiveFor(after, |db.requests|, s);
    } else {
      assert after.requests == db.requests;
      assert forall i :: 0 <= i < |db.requests| ==> LiveFor(after, i, s) == LiveFor(db, i, s);
    }
  }

  ghost predicate SomeLacks(db: Db, due: seq<SeriesId>)
    requires forall k :: 0 <= k < |due| ==> due[k] < |db.series|
  {
    exists k :: 0 <= k < |due| && NoInstruction(db, due[k])
  }

  // Whether an instruction can be formed depends only on the runs and the cycles.
  lemma LackSplits(db: Db, mid: Db, due: seq<SeriesId>)
    requires due != [] && |mid.series| == |db.series| && mid.runs == db.runs && mid.cycles == db.cycles
    requires forall k :: 0 <= k < |due| ==> due[k] < |db.series| && mid.series[due[k]].run == db.series[due[k]].run
    ensures forall k :: 0 <= k < |due[1..]| ==> due[1..][k] < |mid.series|
    ensures SomeLacks(db, due) <==> NoInstruction(db, due[0]) || SomeLacks(mid, due[1..])
  {
    assert forall k :: 0 <= k < |due[1..]| ==> due[1..][k] == due[k + 1];
    if SomeLacks(db, due) && !NoInstruction(db, due[0]) {
      var k :| 0 <= k < |due| && NoInstruction(db, due[k]);
      assert NoInstruction(mid, due[1..][k - 1]);
    }
    if SomeLacks(mid, due[1..]) {
      var j :| 0 <= j < |due[1..]| && NoInstruction(mid, due[1..][j]);
      assert NoInstruction(db, due[j + 1]);
    }
  }

  lemma TailStaysDue(db: Db, due: seq<SeriesId>, now: int)
    requires Inv(db) && DueList(db, due, now) && due != [] && TickOne(db, due[0], now).Ok?
    ensures var mid := TickOne(db, due[0], now).value.0;
      && Inv(mid) && DueList(mid, due[1..], now) && due[0] !in due[1..]
      && mid.runs == db.runs && mid.cycles == db.cycles && |mid.series| == |db.series|
      && mid.series[due[0]].status in {Running, AutoCompleted} && mid.series[due[0]].run == db.series[due[0]].run
      && (forall s :: 0 <= s < |db.series| && s != due[0] ==> mid.series[s] == db.series[s])
  {
    TickOneOutcome(db, due[0], now);
    TickOneKeepsInv(db, due[0], now);
    TickOneTransition(db, due[0], now, due[0]);
    forall k | 0 <= k < |due[1..]| ensures due[1..][k] == due[k + 1] && due[k + 1] != due[0] {
    }
  }

  /**
    A tick over the due series fails only when one of them has no objective to fall back on;
    in particular it never meets an occupied slot. Otherwise it handles each of them once.
  */
  lemma {:induction false} TickOutcome(db: Db, due: seq<SeriesId>, now: int)
    requires Inv(db) && DueList(db, due, now)
    ensures Tick(db, due, now).Err? <==> SomeLacks(db, due)
    ensures Tick(db, due, now).Err? ==> Tick(db, due, now).error == NoObjective
    ensures Tick(db, due, now).Ok? ==>
      var (after, result) := Tick(db, due, now).value;
      && |result.created| + |result.completed| == |due|
      && after.runs == db.runs && after.cycles == db.cycles && |after.series| == |db.series|
      && (forall k :: 0 <= k < |due| ==> after.series[due[k]].status in {Running, AutoCompleted})
      && (forall s :: 0 <= s < |db.series| && s !in due ==> after.series[s] == db.series[s])
    decreases |due|
  {
    if due != [] {
      TickOneOutcome(db, due[0], now);
      if TickOne(db, due[0], now).Err? {
        assert NoInstruction(db, due[0]);
      } else {
        var mid := TickOne(db, due[0], now).value.0;
        TailStaysDue(db, due, now);
        LackSplits(db, mid, due);
        TickOutcome(mid, due[1..], now);
        assert forall k :: 1 <= k < |due| ==> due[k] == due[1..][k - 1];
      }
    }
  }

  // ---- termination ----

  // Steps in which the series settled a slot or changed class, other than by a retry.
  function Moves(states: seq<Db>, ops: seq<Op>, s: SeriesId, k: nat, n: nat): nat
    requires |states| == |ops| + 1 && k <= n <= |ops|
    requires forall i :: k <= i <= n ==> s < |states[i].series|
    decreases n
  {
    if n == k then 0
    else
      Moves(states, ops, s, k, n - 1)
      + if !AddsRetry(states[n - 1], ops[n - 1], states[n], s)
          && Moved(states[n - 1].series[s], states[n].series[s]) then 1 else 0
  }

  function RetriesAdded(states: seq<Db>, ops: seq<Op>, s: SeriesId, k: nat, n: nat): nat
    requires |states| == |ops| + 1 && k <= n <= |ops|
    decreases n
  {
    if n == k then 0
    else RetriesAdded(states, ops, s, k, n - 1) + if AddsRetry(states[n - 1], ops[n - 1], states[n], s) then 1 else 0
  }

  // Series are never removed, and keep their run, number, target and interval.
  lemma {:induction false} SeriesPersist(states: seq<Db>, ops: seq<Op>, s: SeriesId, k: nat, n: nat)
    requires History(states, ops) && k <= n <= |ops| && s < |states[k].series|
    ensures s < |states[n].series| && states[n].series[s].target == states[k].series[s].target
    ensures states[n].series[s].run == states[k].series[s].run
        && states[n].series[s].interval == states[k].series[s].interval
    decreases n
  {
    assert Inv(EMPTY);
    if k < n {
      SeriesPersist(states, ops, s, k, n - 1);
      StepsKeepInv(states, ops, n - 1);
      assert StepAt(states, ops, n - 1);
      StepTransition(states[n - 1], ops[n - 1], s);
    }
  }

  lemma MeasureStep(states: seq<Db>, ops: seq<Op>, s: SeriesId, k: nat)
    requires History(states, ops) && k < |ops| && s < |states[k].series| && s < |states[k + 1].series|
    ensures var before, after := states[k].series[s], states[k + 1].series[s];
      if AddsRetry(states[k], ops[k], states[k + 1], s) then Measure(after) == Measure(before) + 1
      else Measure(after) + (if Moved(before, after) then 1 else 0) <= Measure(before)
  {
    assert Inv(EMPTY);
    StepsKeepInv(states, ops, k);
    assert StepAt(states, ops, k);
    StepTransition(states[k], ops[k], s);
  }

  lemma MeasureRange(states: seq<Db>, ops: seq<Op>, s: SeriesId, k: nat)
    requires History(states, ops) && k <= |ops| && s < |states[k].series|
    ensures 0 <= Measure(states[k].series[s]) <= 3 * states[k].series[s].target + 2
  {
    assert Inv(EMPTY);
    StepsKeepInv(states, ops, k);
    assert SeriesOk(states[k], s);
  }

  /**
    The measure falls with every move and rises by one only with a retry: a series with r
    retries moves at most 3 * target_slots + 2 + r times, whatever the other actors do.
  */
  lemma {:induction false} SeriesTerminates(states: seq<Db>, ops: seq<Op>, s: SeriesId, k: nat, n: nat)
    requires History(states, ops) && k <= n <= |ops| && s < |states[k].series|
    ensures forall i :: k <= i <= n ==> s < |states[i].series|
    ensures Moves(states, ops, s, k, n) + Measure(states[n].series[s])
      <= Measure(states[k].series[s]) + RetriesAdded(states, ops, s, k, n)
    ensures Moves(states, ops, s, k, n) <= 3 * states[k].series[s].target + 2 + RetriesAdded(states, ops, s, k, n)
    decreases n
  {
    forall i | k <= i <= n ensures s < |states[i].series| { SeriesPersist(states, ops, s, k, i); }
    MeasureRange(states, ops, s, k);
    MeasureRange(states, ops, s, n);
    if k < n {
      SeriesTerminates(states, ops, s, k, n - 1);
      MeasureStep(states, ops, s, n - 1);
    }
  }

  // ---- the time between slots ----

  function TimeOf(op: Op): int {
    match op
    case SettleOp(_, now) => now
    case ContinueOp(_, _, now) => now
    case _ => 0
  }

  // A settled slot that leaves the series waiting sets its alarm one interval ahead.
  lemma SettlingSetsAlarm(db: Db, op: Op, s: SeriesId)
    requires Inv(db) && Allowed(db, op) && s < |db.series| && SettlesSlot(db, op, s)
    ensures s < |Apply(db, op).series|
    ensures Apply(db, op).series[s].status == WaitingInterval ==>
      Apply(db, op).series[s].nextRunAt == Some(TimeOf(op) + db.series[s].interval)
  {
    match op
    case SettleOp(c, now) => DispatchingHoldsNextSlot(db, db.cycles[c].request.value);
    case ContinueOp(_, _, _) =>
  }

  /**
    What a first settlement decides: the request follows the cycle, and its series counts the slot
    and completes exactly at its target, or pauses on the failed cycle, or is canceled.
  */
  lemma SettlementDecides(db: Db, c: CycleId, now: int)
    requires Inv(db) && Settle(db, c, now).Ok? && Settle(db, c, now).value.1.transitioned
    requires TerminalCycle(db.cycles[c].status)
    ensures var (after, settlement) := Settle(db, c, now).value;
      var cycle, q := db.cycles[c], settlement.request;
      && cycle.request == Some(q) && q < |db.requests|
      && after.requests == db.requests[q := db.requests[q].(
           status := if cycle.status == CycleCanceled then ReqCanceled else ReqSettled, settledAt := Some(now))]
      && (db.requests[q].series.None? ==> after.series == db.series)
      && (db.requests[q].series.Some? ==>
        && var s := db.requests[q].series.value;
           && s < |db.series| && after.series == db.series[s := after.series[s]]
           && var before, row := db.series[s], after.series[s];
              && row.settled == before.settled + (if SuccessfulCycle(cycle.status) then 1 else 0)
              && (row.status == AutoCompleted <==> SuccessfulCycle(cycle.status) && before.settled + 1 == before.target)
              && (row.status == WaitingInterval ==> row.nextRunAt == Some(now + before.interval))
              && (row.status == WaitingInterval <==>
                  SuccessfulCycle(cycle.status) && before.settled + 1 < before.target)
              && (row.status == PausedFailure <==> cycle.status in {Failed, Blocked})
              && (row.status == PausedFailure ==> row.pausedCycle == Some(c))
              && (row.status == SeriesCanceled <==> cycle.status == CycleCanceled))
  {
    var q := db.cycles[c].request.value;
    if db.requests[q].series.Some? {
      DispatchingHoldsNextSlot(db, q);
      assert SeriesOk(db, db.requests[q].series.value);
    }
  }

  // A waiting series has been waiting, unchanged, since the step that settled its last slot.
  lemma {:induction false} WaitingSince(states: seq<Db>, ops: seq<Op>, s: SeriesId, k: nat) returns (j: nat)
    requires History(states, ops) && k <= |ops|
    requires s < |states[k].series| && states[k].series[s].status == WaitingInterval
    ensures j < k && SettlesSlot(states[j], ops[j], s)
    ensures states[k].series[s].nextRunAt == Some(TimeOf(ops[j]) + states[k].series[s].interval)
    ensures forall i :: j < i <= k ==> s < |states[i].series| && states[i].series[s] == states[k].series[s]
    decreases k
  {
    assert Inv(EMPTY);
    var db, op := states[k - 1], ops[k - 1];
    StepsKeepInv(states, ops, k - 1);
    assert StepAt(states, ops, k - 1);
    if s < |db.series| {
      StepTransition(db, op, s);
      if SettlesSlot(db, op, s) {
        SettlingSetsAlarm(db, op, s);
        j := k - 1;
      } else {
        j := WaitingSince(states, ops, s, k - 1);
      }
    } else {
      NewSeriesIsEmpty(db, op, s);
      assert false;
    }
  }

  /**
    The timer never starts a slot earlier than one interval after the step that settled the
    slot before it.
  */
  lemma SlotsKeepTheirDistance(states: seq<Db>, ops: seq<Op>, s: SeriesId, k: nat, now: int)
    requires History(states, ops) && k <= |ops| && s < |states[k].series| && Due(states[k], s, now)
    ensures exists j ::
      0 <= j < k && SettlesSlot(states[j], ops[j], s) && TimeOf(ops[j]) + states[k].series[s].interval <= now
  {
    var j := WaitingSince(states, ops, s, k);
  }
}
