/**
  The dispatcher seen from outside: what cancel_all_active stops and what it leaves alone, that the
  queue is first-in first-out, what a worker's turn leaves behind, and who is woken by what.
*/
module DispatcherOutcomes {
  import opened Outcomes
  import opened CycleTables
  import opened CycleSteps
  import opened CycleInvariant
  import opened CycleRuns
  import opened CycleTimer
  import opened CycleCancel
  import opened CycleReconcile
  import opened CycleOutcomes
  import opened Dispatcher

  // ---- cancel_all_active ----

  // A continuous run with a request or a series that is not over.
  ghost predicate Selected(db: Db, r: RunId) {
    && r < |db.runs| && db.runs[r].continuous
    && (|| (exists i :: 0 <= i < |db.requests| && db.requests[i].run == r && db.requests[i].status in {Queued, Dispatching})
        || (exists s :: 0 <= s < |db.series| && db.series[s].run == r
             && db.series[s].status in {Running, WaitingInterval, PausedFailure, PausedUser, PausedInterrupted}))
  }

  // No row is added, and every row stays with its run.
  ghost predicate SameShape(db: Db, after: Db) {
    && |after.runs| == |db.runs| && |after.requests| == |db.requests| && |after.series| == |db.series|
    && |after.cycles| == |db.cycles| && |after.operations| == |db.operations| && |after.hooks| == |db.hooks|
    && (forall i :: 0 <= i < |db.runs| ==> after.runs[i].continuous == db.runs[i].continuous)
    && (forall i :: 0 <= i < |db.requests| ==> after.requests[i].run == db.requests[i].run)
    && (forall i :: 0 <= i < |db.series| ==> after.series[i].run == db.series[i].run)
    && (forall i :: 0 <= i < |db.cycles| ==> after.cycles[i].request == db.cycles[i].request)
    && (forall i :: 0 <= i < |db.operations| ==> after.operations[i].run == db.operations[i].run)
    && (forall i :: 0 <= i < |db.hooks| ==> after.hooks[i].request == db.hooks[i].request)
  }

  // The rows of run r, canceled.
  ghost predicate RowsCanceled(db: Db, after: Db, r: RunId, reason: string, now: int)
    requires SameShape(db, after)
  {
    && (r < |db.runs| ==>
         after.runs[r] ==
           if db.runs[r].status in {RunCompleted, RunCompletedWithFailures, RunFailed} then db.runs[r]
           else db.runs[r].(status := RunCanceled))
    && (forall i :: 0 <= i < |db.requests| && db.requests[i].run == r ==>
         after.requests[i] ==
           if db.requests[i].status in {Queued, Dispatching}
           then db.requests[i].(status := ReqCanceled, settledAt := Some(now)) else db.requests[i])
    && (forall i :: 0 <= i < |db.series| && db.series[i].run == r ==>
         after.series[i] ==
           if db.series[i].status in {Running, WaitingInterval, PausedFailure, PausedUser, PausedInterrupted}
           then db.series[i].(status := SeriesCanceled, nextRunAt := None, pauseReason := Some(reason)) else db.series[i])
    && (forall i :: 0 <= i < |db.cycles| && RequestOf(db, db.cycles[i].request, r) ==>
         after.cycles[i] ==
           if db.cycles[i].status in {CycleQueued, CycleRunning, WaitingForUser, WaitingForProvider, Interrupted}
           then db.cycles[i].(status := CycleCanceled, error := reason) else db.cycles[i])
    && (forall i :: 0 <= i < |db.operations| && db.operations[i].run == r ==>
         after.operations[i] ==
           if db.operations[i].status in {Prepared, Invoking, OpCompleted, OpWaiting, Ambiguous}
           then db.operations[i].(status := OpCanceled) else db.operations[i])
    && (forall i :: 0 <= i < |db.hooks| && RequestOf(db, db.hooks[i].request, r) ==>
         after.hooks[i] ==
           if db.hooks[i].status in {HookQueued, HookRunning, HookWaiting, HookInterrupted}
           then db.hooks[i].(status := HookCanceled) else db.hooks[i])
  }

  // The rows of run r, as they were.
  ghost predicate RowsKept(db: Db, after: Db, r: RunId)
    requires SameShape(db, after)
  {
    && (r < |db.runs| ==> after.runs[r] == db.runs[r])
    && (forall i :: 0 <= i < |db.requests| && db.requests[i].run == r ==> after.requests[i] == db.requests[i])
    && (forall i :: 0 <= i < |db.series| && db.series[i].run == r ==> after.series[i] == db.series[i])
    && (forall i :: 0 <= i < |db.cycles| && RequestOf(db, db.cycles[i].request, r) ==> after.cycles[i] == db.cycles[i])
    && (forall i :: 0 <= i < |db.operations| && db.operations[i].run == r ==> after.operations[i] == db.operations[i])
    && (forall i :: 0 <= i < |db.hooks| && RequestOf(db, db.hooks[i].request, r) ==> after.hooks[i] == db.hooks[i])
  }

  // The rows that belong to no run.
  ghost predicate LooseKept(db: Db, after: Db)
    requires SameShape(db, after)
  {
    && (forall i :: 0 <= i < |db.cycles| && !HasRequest(db, db.cycles[i].request) ==> after.cycles[i] == db.cycles[i])
    && (forall i :: 0 <= i < |db.hooks| && !HasRequest(db, db.hooks[i].request) ==> after.hooks[i] == db.hooks[i])
  }

  predicate HasRequest(db: Db, request: Option<RequestId>) { request.Some? && request.value < |db.requests| }

  // Exactly the selected runs below n are canceled.
  ghost predicate StopsBelow(db: Db, after: Db, n: nat, reason: string, now: int) {
    && SameShape(db, after) && LooseKept(db, after)
    && (forall r: nat :: r < n && Selected(db, r) ==> RowsCanceled(db, after, r, reason, now))
    && (forall r: nat :: !(r < n && Selected(db, r)) ==> RowsKept(db, after, r))
  }

  lemma {:induction false} CancelIsShaped(db: Db, after: Db, q: RunId, reason: string, now: int)
    requires Cancels(db, after, q, reason, now)
    ensures SameShape(db, after) && LooseKept(db, after) && RowsCanceled(db, after, q, reason, now)
    ensures forall r: nat :: r != q ==> RowsKept(db, after, r)
  {
  }

  lemma {:induction false} ShapesCompose(db: Db, mid: Db, after: Db)
    requires SameShape(db, mid) && SameShape(mid, after)
    ensures SameShape(db, after)
  {
  }

  lemma {:induction false} KeptThenCanceled(db: Db, mid: Db, after: Db, r: RunId, reason: string, now: int)
    requires SameShape(db, mid) && SameShape(mid, after) && SameShape(db, after)
    requires RowsKept(db, mid, r) && RowsCanceled(mid, after, r, reason, now)
    ensures RowsCanceled(db, after, r, reason, now)
  {
    SameRequests(db, mid, r);
  }

  lemma {:induction false} SameRequests(db: Db, mid: Db, r: RunId)
    requires SameShape(db, mid)
    ensures forall q: Option<RequestId> :: RequestOf(mid, q, r) <==> RequestOf(db, q, r)
    ensures forall q: Option<RequestId> :: HasRequest(mid, q) <==> HasRequest(db, q)
  {
  }

  lemma {:induction false} CanceledThenKept(db: Db, mid: Db, after: Db, r: RunId, reason: string, now: int)
    requires SameShape(db, mid) && SameShape(mid, after) && SameShape(db, after)
    requires RowsCanceled(db, mid, r, reason, now) && RowsKept(mid, after, r)
    ensures RowsCanceled(db, after, r, reason, now)
  {
    SameRequests(db, mid, r);
  }

  lemma {:induction false} KeptThenKept(db: Db, mid: Db, after: Db, r: RunId)
    requires SameShape(db, mid) && SameShape(mid, after) && SameShape(db, after)
    requires RowsKept(db, mid, r) && RowsKept(mid, after, r)
    ensures RowsKept(db, after, r)
  {
    SameRequests(db, mid, r);
  }

  lemma {:induction false} LooseCompose(db: Db, mid: Db, after: Db)
    requires SameShape(db, mid) && SameShape(mid, after) && SameShape(db, after)
    requires LooseKept(db, mid) && LooseKept(mid, after)
    ensures LooseKept(db, after)
  {
    SameRequests(db, mid, 0);
  }

  lemma {:induction false} SelectedHasWork(db: Db, r: RunId)
    requires r < |db.runs|
    ensures Selected(db, r) <==> db.runs[r].continuous && HasWork(db, r)
  {
  }

  lemma {:induction false} StopsOneMore(db: Db, mid: Db, n: nat, reason: string, now: int)
    requires n < |db.runs| && StopsBelow(db, mid, n, reason, now)
    ensures StopsBelow(db, CancelNext(db, mid, n, reason, now), n + 1, reason, now)
  {
    var after := CancelNext(db, mid, n, reason, now);
    SelectedHasWork(db, n);
    CancelIff(mid, n, reason, now);
    if Selected(db, n) {
      CancelIsShaped(mid, after, n, reason, now);
      ShapesCompose(db, mid, after);
      LooseCompose(db, mid, after);
      forall r: nat
        ensures r < n + 1 && Selected(db, r) ==> RowsCanceled(db, after, r, reason, now)
        ensures !(r < n + 1 && Selected(db, r)) ==> RowsKept(db, after, r)
      {
        if r == n {
          KeptThenCanceled(db, mid, after, r, reason, now);
        } else if r < n && Selected(db, r) {
          CanceledThenKept(db, mid, after, r, reason, now);
        } else {
          KeptThenKept(db, mid, after, r);
        }
      }
    }
  }

  lemma {:induction false} StopsAllBelow(db: Db, n: nat, reason: string, now: int)
    requires n <= |db.runs|
    ensures StopsBelow(db, CancelAll(db, n, reason, now), n, reason, now)
  {
    if n > 0 {
      StopsAllBelow(db, n - 1, reason, now);
      StopsOneMore(db, CancelAll(db, n - 1, reason, now), n - 1, reason, now);
    }
  }

  // Nothing of the run is left alive.
  ghost predicate Stopped(db: Db, r: RunId) {
    && r < |db.runs| && Dead(db, r) && NoCancelableCycle(db, r) && NoOpenOperation(db, r) && NoOpenHook(db, r)
    && db.runs[r].status in {RunCompleted, RunCompletedWithFailures, RunFailed, RunCanceled}
  }

  lemma {:induction false} CanceledIsStopped(db: Db, after: Db, r: RunId, reason: string, now: int)
    requires SameShape(db, after) && RowsCanceled(db, after, r, reason, now) && r < |db.runs|
    ensures Stopped(after, r)
  {
    SameRequests(db, after, r);
    forall i | 0 <= i < |after.cycles| && LinkedTo(after, after.cycles[i], r) ensures !CancelableCycle(after.cycles[i].status) {
      assert RequestOf(db, db.cycles[i].request, r);
    }
    forall i | 0 <= i < |after.hooks| && HookOf(after, after.hooks[i], r) ensures !OpenHook(after.hooks[i].status) {
      assert RequestOf(db, db.hooks[i].request, r);
    }
  }

  /**
    cancel_all_active stops every continuous run that has a request or a series which is not over,
    whatever its status, and leaves every row of every other run as it was.
  */
  lemma {:induction false} CancelAllDecides(db: Db, reason: string, now: int, r: RunId)
    ensures var after := CancelAll(db, |db.runs|, reason, now);
      && SameShape(db, after) && LooseKept(db, after)
      && (Selected(db, r) ==> RowsCanceled(db, after, r, reason, now) && Stopped(after, r))
      && (!Selected(db, r) ==> RowsKept(db, after, r))
  {
    StopsAllBelow(db, |db.runs|, reason, now);
    var after := CancelAll(db, |db.runs|, reason, now);
    if Selected(db, r) { CanceledIsStopped(db, after, r, reason, now); }
  }

  // ---- what can be claimed ----

  /** A run is runnable when it is not canceled and a request of it is queued and none dispatching. */
  lemma {:induction false} RunnableIff(db: Db, r: RunId)
    ensures Runnable(db, r) <==> r < |db.runs| && db.runs[r].status != RunCanceled && WorkWaits(db, r)
  {
    QueueReadyIff(db, r);
  }

  // ---- the queue ----

  // The runs put in the queue by these actions, and taken out of it, in order.
  function PushedBy(actions: seq<Action>): seq<RunId> {
    if actions == [] then []
    else
      var last := actions[|actions| - 1];
      PushedBy(actions[..|actions| - 1]) + if last.Push? then [last.run] else []
  }

  function TakenBy(systems: seq<System>, actions: seq<Action>): seq<RunId>
    requires |systems| == |actions| + 1
  {
    if actions == [] then []
    else
      var n := |actions| - 1;
      TakenBy(systems[..n + 1], actions[..n]) + if actions[n].Pop? then [TakenNow(systems[n + 1], actions[n].worker)] else []
  }

  // The run the worker holds.
  function TakenNow(d: System, w: nat): RunId {
    if w < |d.workers| && d.workers[w].Holding? then d.workers[w].run else 0
  }

  predicate Discards(a: Action) { a.EmergencyStop? || a.Restart? }

  // Consecutive steps from any state.
  ghost predicate Stretch(systems: seq<System>, actions: seq<Action>) {
    |systems| == |actions| + 1 && forall k :: 0 <= k < |actions| ==> ActionAt(systems, actions, k)
  }

  /**
    The queue is first-in first-out, whatever else happens: between two emergency stops or restarts
    the runs taken, and then those still in the queue, are those that were in it and those pushed since.
  */
  lemma {:induction false} QueueIsFifo(systems: seq<System>, actions: seq<Action>)
    requires Stretch(systems, actions) && forall k :: 0 <= k < |actions| ==> !Discards(actions[k])
    ensures systems[0].queue + PushedBy(actions) == TakenBy(systems, actions) + systems[|actions|].queue
    decreases |actions|
  {
    if actions != [] {
      var n := |actions| - 1;
      StretchInit(systems, actions);
      QueueIsFifo(systems[..n + 1], actions[..n]);
      assert ActionAt(systems, actions, n);
      QueueStep(systems[n], actions[n]);
      QueuesJoin(systems[0].queue, PushedBy(actions[..n]), TakenBy(systems[..n + 1], actions[..n]), systems[n].queue,
                 systems[n + 1].queue, if actions[n].Push? then [actions[n].run] else [],
                 if actions[n].Pop? then [TakenNow(systems[n + 1], actions[n].worker)] else []);
    }
  }

  lemma StretchInit(systems: seq<System>, actions: seq<Action>)
    requires Stretch(systems, actions) && actions != []
    ensures var n := |actions| - 1; Stretch(systems[..n + 1], actions[..n])
  {
    var n := |actions| - 1;
    var earlier, steps := systems[..n + 1], actions[..n];
    forall k | 0 <= k < n ensures ActionAt(earlier, steps, k) {
      assert ActionAt(systems, actions, k);
    }
  }

  lemma {:induction false} QueueStep(d: System, a: Action)
    requires Enabled(d, a) && !Discards(a)
    ensures d.queue + (if a.Push? then [a.run] else [])
      == (if a.Pop? then [TakenNow(Next(d, a), a.worker)] else []) + Next(d, a).queue
  {
  }

  lemma QueuesJoin(first: seq<RunId>, pushed: seq<RunId>, taken: seq<RunId>, before: seq<RunId>, after: seq<RunId>,
      push: seq<RunId>, take: seq<RunId>)
    requires first + pushed == taken + before && before + push == take + after
    ensures first + (pushed + push) == (taken + take) + after
  {
    assert first + (pushed + push) == (first + pushed) + push;
    assert (taken + before) + push == taken + (before + push);
    assert taken + (take + after) == (taken + take) + after;
  }

  // ---- the workers ----

  // The worker whose turn it is.
  predicate TurnOf(a: Action, w: nat) {
    match a
    case Pop(v) => v == w
    case ClaimHeld(v, _) => v == w
    case CreateHeld(v) => v == w
    case CreateFails(v) => v == w
    case Finish(v) => v == w
    case _ => false
  }

  /** A worker changes in its own turns only, except that a stop or a restart sends all of them back. */
  lemma {:induction false} OnlyOwnTurns(d: System, a: Action, w: nat)
    requires Enabled(d, a) && w < |d.workers|
    ensures var after := Next(d, a);
      && |after.workers| == |d.workers|
      && (!TurnOf(a, w) ==> after.workers[w] == if Discards(a) then Idle else d.workers[w])
      && (Discards(a) ==> after.queue == [] && (a.Restart? || after.waking == d.waking))
  {
  }

  /** A claim: the worker goes on with the head of its run's queue, or is free when there is none. */
  lemma {:induction false} ClaimTurn(d: System, w: nat, now: int)
    requires Enabled(d, ClaimHeld(w, now))
    ensures var after, r := Next(d, ClaimHeld(w, now)), d.workers[w].run;
      if Runnable(d.db, r) then
        && after.workers[w].Claimed? && after.workers[w].run == r
        && var q := after.workers[w].request;
           && HeadOfQueue(d.db, q) && d.db.requests[q].run == r
           && after.db == d.db.(requests := d.db.requests[q := d.db.requests[q].(status := Dispatching, claimedAt := Some(now))])
      else after.workers[w] == Idle && after.db == d.db
  {
    ClaimTakes(d.db, d.workers[w].run, now);
    RunnableIff(d.db, d.workers[w].run);
    WaitingIsQueued(d.db, d.workers[w].run);
  }

  lemma {:induction false} WaitingIsQueued(db: Db, r: RunId)
    ensures WorkWaits(db, r) ==> exists i :: 0 <= i < |db.requests| && IsQueued(db.requests[i], r)
    ensures !WorkWaits(db, r) ==>
        BeingDispatched(db, r) || forall i :: 0 <= i < |db.requests| ==> !IsQueued(db.requests[i], r)
  {
    if WorkWaits(db, r) {
      var i :| 0 <= i < |db.requests| && db.requests[i].run == r && db.requests[i].status == Queued;
      assert IsQueued(db.requests[i], r);
    }
  }

  /** A cycle: the one the claimed request has, or a new one of it, which the worker then drives. */
  lemma {:induction false} CreateTurn(d: System, w: nat)
    requires Enabled(d, CreateHeld(w))
    ensures var after, q := Next(d, CreateHeld(w)), d.workers[w].request;
      && after.workers[w].Driving? && after.workers[w].run == d.workers[w].run
      && var c := after.workers[w].cycle;
         && c < |after.db.cycles| && after.db.cycles[c].request == Some(q)
         && (HasCycle(d.db, q) ==> after.db == d.db)
         && (!HasCycle(d.db, q) && q < |d.db.requests| ==>
              after.db == d.db.(cycles := d.db.cycles + [Cycle(d.db.requests[q].run, Some(q), CycleQueued, "", None)]))
  {
    CreateCycleIff(d.db, d.workers[w].request);
  }

  /** A cycle that cannot be created: the worker is free, and a claim without a cycle is back in the queue of its run. */
  lemma {:induction false} FailTurn(d: System, w: nat)
    requires Enabled(d, CreateFails(w))
    ensures var after, q := Next(d, CreateFails(w)), d.workers[w].request;
      && after.workers[w] == Idle
      && after.db == if q < |d.db.requests| && d.db.requests[q].status == Dispatching && !HasCycle(d.db, q) then
             d.db.(requests := d.db.requests[q := d.db.requests[q].(status := Queued, claimedAt := None)])
           else d.db
  {
    RequeueReturns(d.db, d.workers[w].request);
  }

  /** The other turns change no table: a worker takes a run, or is done with its cycle. */
  lemma {:induction false} OtherTurns(d: System, a: Action)
    requires Enabled(d, a) && (a.Pop? || a.Finish? || a.Push? || a.Promise? || a.BreakPromise?)
    ensures Next(d, a).db == d.db
    ensures a.Pop? ==> Next(d, a).workers[a.worker] == Holding(d.queue[0])
    ensures a.Finish? ==> Next(d, a).workers[a.worker] == Idle
    ensures Next(d, a).waking ==
        if a.Promise? then d.waking + multiset{a.run}
        else if a.Push? || a.BreakPromise? then d.waking - multiset{a.run} else d.waking
  {
  }

  // ---- who is woken ----

  // The first settlement of the cycle's request, by the status the cycle has ended in.
  predicate SettlesNow(db: Db, c: CycleId) {
    && Linked(db, c) && db.cycles[c].request.value < |db.requests|
    && db.requests[db.cycles[c].request.value].status == Dispatching
    && db.cycles[c].status in {Completed, CompletedWithFailures, Failed, Blocked, CycleCanceled}
  }

  /** An observer wakes the run of a cycle exactly when it settles it first and work of the run waits behind it. */
  lemma {:induction false} SettlementWakesIff(db: Db, c: CycleId, now: int, r: RunId)
    requires Inv(db)
    ensures r in Wakes(db, SettleOp(c, now)) <==>
        SettlesNow(db, c) && db.requests[db.cycles[c].request.value].run == r && WorkWaits(Apply(db, SettleOp(c, now)), r)
  {
    if Linked(db, c) {
      LinkedRequest(db, c);
      if SettlesNow(db, c) {
        SettleDecides(db, c, now);
        FirstSettlement(db, c, now);
      } else {
        NobodyIsTold(db, c, now);
      }
    }
  }

  // A settlement that is not the first, or a pause, tells nobody.
  lemma {:induction false} NobodyIsTold(db: Db, c: CycleId, now: int)
    requires Inv(db) && Linked(db, c) && !SettlesNow(db, c)
    ensures var settled := Settle(db, c, now); settled.Ok? ==> !settled.value.1.queueReady
  {
    LinkedRequest(db, c);
    SettleDecides(db, c, now);
    PauseByIdIff(db, c, WaitingForUser, PausedUser, "waiting_for_user");
    PauseByIdIff(db, c, Interrupted, PausedInterrupted, "interrupted");
  }

  lemma {:induction false} WokenAreNew(requests: seq<Request>, created: seq<RequestId>, n: nat, r: RunId)
    requires n <= |requests| && |created| == |requests| - n && forall j :: 0 <= j < |created| ==> created[j] == n + j
    ensures r in RunsOf(requests, created) <==> exists i :: n <= i < |requests| && requests[i].run == r
  {
    var woken := RunsOf(requests, created);
    assert forall j :: 0 <= j < |created| ==> woken[j] == requests[created[j]].run;
    if exists i :: n <= i < |requests| && requests[i].run == r {
      var i :| n <= i < |requests| && requests[i].run == r;
      assert woken[i - n] == r;
    }
  }

  lemma {:induction false} TickedRows(db: Db, due: seq<SeriesId>, now: int)
    requires Inv(db) && DueList(db, due, now) && Tick(db, due, now).Ok?
    ensures var (after, result) := Tick(db, due, now).value;
      && |db.requests| <= |after.requests| && |result.created| == |after.requests| - |db.requests|
      && forall j :: 0 <= j < |result.created| ==> result.created[j] == |db.requests| + j
  {
    TickDecides(db, due, now);
    assert RowsTicked(db, Tick(db, due, now).value.0, due, Tick(db, due, now).value.1.created, now);
  }

  /** The timer wakes the runs of the requests it has queued. */
  lemma {:induction false} TimerWakesIff(db: Db, due: seq<SeriesId>, now: int, r: RunId)
    requires Inv(db) && DueList(db, due, now)
    ensures var after := Apply(db, TickOp(due, now));
      r in Wakes(db, TickOp(due, now)) <==> exists i :: |db.requests| <= i < |after.requests| && after.requests[i].run == r
  {
    var tick := Tick(db, due, now);
    if tick.Ok? {
      TickedRows(db, due, now);
      WokenAreNew(tick.value.0.requests, tick.value.1.created, |db.requests|, r);
    }
  }
}
