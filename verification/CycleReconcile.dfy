/**
  Startup reconcile: every claim left over from the previous process is requeued, settled or
  paused, the timer runs once, and the runs with claimable work are listed.
*/
module CycleReconcile {
  import opened Outcomes
  import opened CycleTables
  import opened CycleSteps
  import opened CycleInvariant
  import opened CycleTimer
  import opened CycleQueue
  import opened Ordering

  // By the key, and by the id among equal keys.
  predicate Comes(keyed: (int, nat), other: (int, nat)) {
    keyed.0 < other.0 || (keyed.0 == other.0 && keyed.1 < other.1)
  }

  // list_dispatching_requests: order by created_at, rowid.
  function DispatchingList(db: Db): (list: seq<RequestId>)
    ensures forall q: nat :: q in list <==> q < |db.requests| && db.requests[q].status == Dispatching
    ensures Distinct(list) && forall k :: 0 <= k < |list| ==> list[k] < |db.requests|
    ensures forall i, j :: 0 <= i < j < |list| ==>
      Comes((db.requests[list[i]].createdAt, list[i]), (db.requests[list[j]].createdAt, list[j]))
  {
    Select(seq(|db.requests|, i requires 0 <= i < |db.requests| => db.requests[i].createdAt),
           seq(|db.requests|, i requires 0 <= i < |db.requests| => db.requests[i].status == Dispatching), |db.requests|)
  }

  function AlarmOf(db: Db, s: SeriesId): int
    requires s < |db.series|
  {
    if db.series[s].nextRunAt.Some? then db.series[s].nextRunAt.value else 0
  }

  // The due series: order by next_run_at, id.
  function DueSeries(db: Db, now: int): (list: seq<SeriesId>)
    ensures forall s: nat :: s in list <==> s < |db.series| && Due(db, s, now)
    ensures DueList(db, list, now)
    ensures forall i, j :: 0 <= i < j < |list| ==>
      Comes((AlarmOf(db, list[i]), list[i]), (AlarmOf(db, list[j]), list[j]))
    ensures (forall s :: 0 <= s < |db.series| ==> !Due(db, s, now)) ==> list == []
  {
    var list := Select(
      seq(|db.series|, s requires 0 <= s < |db.series| => AlarmOf(db, s)),
      seq(|db.series|, s requires 0 <= s < |db.series| => Due(db, s, now)), |db.series|);
    assert forall k :: 0 <= k < |list| ==> list[k] in list;
    assert list != [] ==> Due(db, list[0], now);
    list
  }

  // The run has a queued request, none is being dispatched, and it is not canceled.
  predicate Runnable(db: Db, r: RunId) {
    r < |db.runs| && db.runs[r].status != RunCanceled && QueueReady(db.requests, r)
  }

  // When the run's first queued request was created.
  function FirstCreated(db: Db, r: RunId): int {
    var next := NextQueued(db.requests, r);
    if next.Some? then db.requests[next.value].createdAt else 0
  }

  // list_runnable_team_run_ids: order by the first queued request's created_at, run id.
  function RunnableRuns(db: Db): (list: seq<RunId>)
    ensures forall r: nat :: r in list <==> Runnable(db, r)
    ensures Distinct(list)
    ensures forall i, j :: 0 <= i < j < |list| ==>
      Comes((FirstCreated(db, list[i]), list[i]), (FirstCreated(db, list[j]), list[j]))
  {
    Select(
      seq(|db.runs|, r requires 0 <= r < |db.runs| => FirstCreated(db, r)),
      seq(|db.runs|, r requires 0 <= r < |db.runs| => Runnable(db, r)), |db.runs|)
  }

  // One leftover claim, in transactions of its own.
  function ReconcileOne(db: Db, q: RequestId, now: int): Result<Db, CycleError> {
    var cycle := CycleOf(db.cycles, q);
    if cycle.None? then Requeue(db, q)
    else
      var c := cycle.value;
      var status := db.cycles[c].status;
      if TerminalCycle(status) then
        var settled := Settle(db, c, now);
        if settled.Ok? then Ok(settled.value.0) else Err(settled.error)
      else if status == Interrupted then
        var paused := PauseById(db, c, Interrupted, PausedInterrupted, "interrupted");
        if paused.Ok? then Ok(paused.value.0) else Err(paused.error)
      else if status == WaitingForUser then
        var paused := PauseById(db, c, WaitingForUser, PausedUser, "waiting_for_user");
        if paused.Ok? then Ok(paused.value.0) else Err(paused.error)
      else Ok(db)
  }

  function ReconcileClaims(db: Db, claims: seq<RequestId>, now: int): Result<Db, CycleError>
    decreases |claims|
  {
    if claims == [] then Ok(db)
    else
      var one := ReconcileOne(db, claims[0], now);
      if one.Err? then one else ReconcileClaims(one.value, claims[1..], now)
  }

  function Reconcile(db: Db, now: int): Result<(Db, seq<RunId>), CycleError> {
    var claims := ReconcileClaims(db, DispatchingList(db), now);
    if claims.Err? then Err(claims.error)
    else
      var ticked := Tick(claims.value, DueSeries(claims.value, now), now);
      if ticked.Err? then Err(ticked.error) else Ok((ticked.value.0, RunnableRuns(ticked.value.0)))
  }

  // Nothing is left to do for this request.
  predicate Quiet(db: Db, q: RequestId, now: int) {
    q < |db.requests| && (db.requests[q].status == Dispatching ==> ReconcileOne(db, q, now) == Ok(db))
  }

  // The step changes nothing but request q and its series.
  ghost predicate OnlyTouches(db: Db, after: Db, q: RequestId) {
    && q < |db.requests| && |after.requests| == |db.requests|
    && after.runs == db.runs && after.cycles == db.cycles
    && (forall i :: 0 <= i < |db.requests| && i != q ==> after.requests[i] == db.requests[i])
    && after.requests[q].series == db.requests[q].series
    && |after.series| == |db.series|
    && (forall s :: 0 <= s < |db.series| && db.requests[q].series != Some(s) ==> after.series[s] == db.series[s])
  }

  // Pausing again what is already paused writes the same row.
  lemma PauseIsIdentity(db: Db, c: CycleId, q: RequestId, status: SeriesStatus, reason: string)
    requires q < |db.requests| && db.requests[q].status == Dispatching
    requires db.requests[q].series.Some? ==>
      && db.requests[q].series.value < |db.series|
      && var row := db.series[db.requests[q].series.value];
         row.status == status && row.nextRunAt == None && row.pauseReason == Some(reason) && row.pausedCycle == Some(c)
    ensures Pause(db, c, q, status, reason).Ok? && Pause(db, c, q, status, reason).value.0 == db
  {
    if db.requests[q].series.Some? {
      var s := db.requests[q].series.value;
      assert db.series[s := db.series[s]] == db.series;
    }
  }

  // Reconciling a claim never fails and leaves it quiet.
  lemma ReconcileOneOutcome(db: Db, q: RequestId, now: int)
    requires Inv(db) && q < |db.requests| && db.requests[q].status == Dispatching
    ensures ReconcileOne(db, q, now).Ok?
    ensures var after := ReconcileOne(db, q, now).value;
      Inv(after) && OnlyTouches(db, after, q) && Quiet(after, q, now)
  {
    assert RequestOk(db, q);
    var cycle := CycleOf(db.cycles, q);
    if cycle.None? {
      RequeueKeepsInv(db, q);
    } else {
      var c := cycle.value;
      var status := db.cycles[c].status;
      if TerminalCycle(status) {
        SettleKeepsInv(db, c, now);
      } else if status == Interrupted {
        PauseByIdKeepsInv(db, c, Interrupted, PausedInterrupted, "interrupted");
        PauseIsIdentity(ReconcileOne(db, q, now).value, c, q, PausedInterrupted, "interrupted");
      } else if status == WaitingForUser {
        PauseByIdKeepsInv(db, c, WaitingForUser, PausedUser, "waiting_for_user");
        PauseIsIdentity(ReconcileOne(db, q, now).value, c, q, PausedUser, "waiting_for_user");
      }
    }
  }

  // Work on one claim does not disturb another: they never share a series.
  lemma QuietSurvives(db: Db, after: Db, q: RequestId, p: RequestId, now: int)
    requires Inv(db) && OnlyTouches(db, after, p) && p != q && db.requests[p].status == Dispatching
    requires Quiet(db, q, now)
    ensures Quiet(after, q, now)
  {
    if db.requests[q].status == Dispatching {
      assert RequestOk(db, q);
      if db.requests[q].series.Some? {
        var s := db.requests[q].series.value;
        DispatchingHoldsNextSlot(db, q);
        assert db.requests[p].series == Some(s) ==> LiveFor(db, p, s);
      }
      QuietDependsOn(db, after, q, now);
    }
  }

  lemma QuietDependsOn(db: Db, after: Db, q: RequestId, now: int)
    requires q < |db.requests| <= |after.requests| && after.requests[q] == db.requests[q]
    requires db.requests[q].status == Dispatching && after.cycles == db.cycles
    requires |after.series| == |db.series|
    requires db.requests[q].series.Some? ==>
      db.requests[q].series.value < |db.series|
          && after.series[db.requests[q].series.value] == db.series[db.requests[q].series.value]
    requires Quiet(db, q, now)
    ensures Quiet(after, q, now)
  {
    var cycle := CycleOf(db.cycles, q);
    if cycle.Some? {
      var c := cycle.value;
      if db.cycles[c].status == Interrupted {
        PausedAlready(db, c, q, PausedInterrupted, "interrupted");
        PauseIsIdentity(after, c, q, PausedInterrupted, "interrupted");
      } else if db.cycles[c].status == WaitingForUser {
        PausedAlready(db, c, q, PausedUser, "waiting_for_user");
        PauseIsIdentity(after, c, q, PausedUser, "waiting_for_user");
      }
    }
  }

  lemma PausedAlready(db: Db, c: CycleId, q: RequestId, status: SeriesStatus, reason: string)
    requires q < |db.requests| && db.requests[q].status == Dispatching
    requires db.requests[q].series.Some? ==> db.requests[q].series.value < |db.series|
    requires Pause(db, c, q, status, reason).value.0 == db
    ensures db.requests[q].series.Some? ==>
      var row := db.series[db.requests[q].series.value];
      row.status == status && row.nextRunAt == None && row.pauseReason == Some(reason) && row.pausedCycle == Some(c)
  {
    if db.requests[q].series.Some? {
      var s := db.requests[q].series.value;
      assert Pause(db, c, q, status, reason).value.0.series[s] == db.series[s];
    }
  }

  lemma {:induction false} ReconcileClaimsOutcome(db: Db, claims: seq<RequestId>, now: int)
    requires Inv(db) && Distinct(claims)
    requires forall k :: 0 <= k < |claims| ==> claims[k] < |db.requests| && db.requests[claims[k]].status == Dispatching
    requires forall q :: 0 <= q < |db.requests| && q !in claims ==> Quiet(db, q, now)
    ensures ReconcileClaims(db, claims, now).Ok?
    ensures var after := ReconcileClaims(db, claims, now).value;
      && Inv(after) && after.runs == db.runs && after.cycles == db.cycles && |after.requests| == |db.requests|
      && (forall q :: 0 <= q < |after.requests| ==> Quiet(after, q, now))
    decreases |claims|
  {
    if claims != [] {
      var q := claims[0];
      ReconcileOneOutcome(db, q, now);
      var after := ReconcileOne(db, q, now).value;
      var rest := claims[1..];
      forall k | 0 <= k < |rest| ensures rest[k] < |after.requests| && after.requests[rest[k]].status == Dispatching {
        assert rest[k] == claims[k + 1] && claims[k + 1] != q;
      }
      forall p | 0 <= p < |after.requests| && p !in rest ensures Quiet(after, p, now) {
        if p != q {
          assert p !in claims by { assert claims == [q] + rest; }
          QuietSurvives(db, after, p, q, now);
        }
      }
      ReconcileClaimsOutcome(after, rest, now);
    }
  }

  lemma {:induction false} QuietClaimsChangeNothing(db: Db, claims: seq<RequestId>, now: int)
    requires forall k :: 0 <= k < |claims| ==> Quiet(db, claims[k], now) && db.requests[claims[k]].status == Dispatching
    ensures ReconcileClaims(db, claims, now) == Ok(db)
    decreases |claims|
  {
    if claims != [] {
      assert Quiet(db, claims[0], now);
      forall k | 0 <= k < |claims[1..]|
        ensures Quiet(db, claims[1..][k], now) && db.requests[claims[1..][k]].status == Dispatching
      {
        assert claims[1..][k] == claims[k + 1];
      }
      QuietClaimsChangeNothing(db, claims[1..], now);
    }
  }

  // The timer touches only waiting series and new rows, so claims stay quiet.
  lemma QuietAfterTick(db: Db, due: seq<SeriesId>, now: int, q: RequestId)
    requires Inv(db) && DueList(db, due, now) && Tick(db, due, now).Ok?
    requires forall p :: 0 <= p < |db.requests| ==> Quiet(db, p, now)
    requires q < |Tick(db, due, now).value.0.requests|
    ensures Quiet(Tick(db, due, now).value.0, q, now)
  {
    TickOutcome(db, due, now);
    TickAppends(db, due, now);
    var after := Tick(db, due, now).value.0;
    if q < |db.requests| {
      if db.requests[q].status == Dispatching {
        if db.requests[q].series.Some? {
          DispatchingHoldsNextSlot(db, q);
        }
        QuietDependsOn(db, after, q, now);
      }
    } else {
      TickQueuesNewRows(db, due, now, q);
    }
  }

  lemma {:induction false} TickQueuesNewRows(db: Db, due: seq<SeriesId>, now: int, q: RequestId)
    requires Tick(db, due, now).Ok? && |db.requests| <= q < |Tick(db, due, now).value.0.requests|
    ensures Tick(db, due, now).value.0.requests[q].status == Queued
    decreases |due|
  {
    if due != [] {
      var mid := TickOne(db, due[0], now).value.0;
      TickAppends(mid, due[1..], now);
      if q >= |mid.requests| { TickQueuesNewRows(mid, due[1..], now, q); }
    }
  }

  // The state after a successful reconcile.
  ghost predicate Reconciled(db: Db, list: seq<RunId>, now: int) {
    && Inv(db)
    && (forall q :: 0 <= q < |db.requests| ==> Quiet(db, q, now))
    && (forall s :: 0 <= s < |db.series| ==> !Due(db, s, now))
    && list == RunnableRuns(db)
  }

  /**
    Reconcile fails only on a due series without an objective, and otherwise reaches a state
    where no series is due, every claim has an unfinished cycle, and the runs with claimable
    work are exactly those listed.
  */
  lemma ReconcileConverges(db: Db, now: int)
    requires Inv(db)
    ensures ReconcileClaims(db, DispatchingList(db), now).Ok?
    ensures var mid := ReconcileClaims(db, DispatchingList(db), now).value;
      Reconcile(db, now).Err? <==> SomeLacks(mid, DueSeries(mid, now))
    ensures Reconcile(db, now).Ok? ==>
      var (after, list) := Reconcile(db, now).value;
      && Reconciled(after, list, now)
      && (forall q :: 0 <= q < |after.requests| && after.requests[q].status == Dispatching ==>
        CycleOf(after.cycles, q).Some? && !TerminalCycle(after.cycles[CycleOf(after.cycles, q).value].status))
      && (forall r: nat :: r in list <==> Runnable(after, r))
  {
    var claims := DispatchingList(db);
    assert forall k :: 0 <= k < |claims| ==> claims[k] in claims;
    ReconcileClaimsOutcome(db, claims, now);
    var mid := ReconcileClaims(db, claims, now).value;
    var due := DueSeries(mid, now);
    TickOutcome(mid, due, now);
    if Tick(mid, due, now).Ok? {
      var after := Tick(mid, due, now).value.0;
      TickKeepsInv(mid, due, now);
      forall q | 0 <= q < |after.requests| ensures Quiet(after, q, now) { QuietAfterTick(mid, due, now, q); }
      forall s | 0 <= s < |after.series| ensures !Due(after, s, now) {
        if s in due {
          var k :| 0 <= k < |due| && due[k] == s;
          assert after.series[due[k]].status in {Running, AutoCompleted};
        }
      }
      forall q | 0 <= q < |after.requests| && after.requests[q].status == Dispatching
        ensures CycleOf(after.cycles, q).Some? && !TerminalCycle(after.cycles[CycleOf(after.cycles, q).value].status)
      {
        QuietClaimIsUnfinished(after, q, now);
      }
    }
  }

  lemma LeftoverChanges(db: Db, q: RequestId, now: int)
    requires Inv(db) && q < |db.requests| && db.requests[q].status == Dispatching
    ensures CycleOf(db.cycles, q).None? || TerminalCycle(db.cycles[CycleOf(db.cycles, q).value].status) ==>
      ReconcileOne(db, q, now).Ok? && ReconcileOne(db, q, now).value.requests[q].status != Dispatching
  {
    assert RequestOk(db, q);
  }

  lemma QuietClaimIsUnfinished(db: Db, q: RequestId, now: int)
    requires Inv(db) && q < |db.requests| && db.requests[q].status == Dispatching && Quiet(db, q, now)
    ensures CycleOf(db.cycles, q).Some? && !TerminalCycle(db.cycles[CycleOf(db.cycles, q).value].status)
  {
    LeftoverChanges(db, q, now);
  }

  /** A second reconcile at the same instant changes nothing and lists the same runs. */
  lemma ReconcileTwice(db: Db, now: int)
    requires Inv(db) && Reconcile(db, now).Ok?
    ensures var (after, list) := Reconcile(db, now).value; Reconcile(after, now) == Ok((after, list))
  {
    ReconcileConverges(db, now);
    var (after, list) := Reconcile(db, now).value;
    var claims := DispatchingList(after);
    forall k | 0 <= k < |claims|
      ensures Quiet(after, claims[k], now) && after.requests[claims[k]].status == Dispatching
    {
      assert claims[k] in claims;
    }
    QuietClaimsChangeNothing(after, claims, now);
    var due := DueSeries(after, now);
  }
}
