/**
  The dispatcher: any number of workers take run ids from a shared queue, while users, the
  timer and settlement observers change the tables first and put a run id in the queue later.
*/
module Dispatcher {
  import opened Outcomes
  import opened CycleTables
  import opened CycleSteps
  import opened CycleInvariant
  import opened CycleRuns
  import opened CycleCancel
  import opened CycleQueue
  import opened CycleReconcile

  // Where a worker is in run_one.
  datatype Worker =
    | Idle
    | Holding(run: RunId)                      // took a run id, has not claimed yet
    | Claimed(run: RunId, request: RequestId)  // claimed, has not created the cycle yet
    | Driving(run: RunId, cycle: CycleId)      // the orchestrator has the cycle

  // waking: run ids that actors have promised to enqueue and not enqueued yet.
  datatype System = System(db: Db, queue: seq<RunId>, workers: seq<Worker>, waking: multiset<RunId>)

  datatype Action =
    | TableStep(op: Op)                  // a user, the timer, an observer or the environment
    | Promise(run: RunId)                // an actor that changed nothing will enqueue the run all the same
    | Push(run: RunId)                   // an actor keeps its promise
    | BreakPromise(run: RunId)           // an actor stops, or is refused, after its transaction
    | Pop(worker: nat)
    | ClaimHeld(worker: nat, now: int)
    | CreateHeld(worker: nat)
    | CreateFails(worker: nat)           // create_cycle raised: the claim is requeued if it still can be
    | Finish(worker: nat)
    | EmergencyStop(reason: string, now: int)
    | Restart(now: int)                  // a new process: memory is lost, then reconcile

  // The runs an actor goes on to enqueue after its transaction.
  function Wakes(db: Db, op: Op): seq<RunId> {
    match op
    case EnqueueOp(r, row, now) => if Enqueue(db, r, row, now).Ok? then [r] else []
    case CreateSeriesOp(r, target, interval, first, now) =>
      if CreateSeries(db, r, target, interval, now, first).Ok? then [r] else []
    case RestartOp(r, now) => if RestartSeries(db, r, now).Ok? then [r] else []
    case RetryOp(r, s, now) => if RetryFailed(db, r, s, now).Ok? then [r] else []
    case TickOp(due, now) =>
      var e := Tick(db, due, now);
      if e.Ok? then RunsOf(e.value.0.requests, e.value.1.created) else []
    case SettleOp(c, now) =>
      var e := Settle(db, c, now);
      if e.Ok? && e.value.1.transitioned && e.value.1.queueReady then [db.requests[e.value.1.request].run] else []
    case _ => []
  }

  function RunsOf(requests: seq<Request>, ids: seq<RequestId>): seq<RunId> {
    seq(|ids|, k requires 0 <= k < |ids| => if ids[k] < |requests| then requests[ids[k]].run else 0)
  }

  // The steps taken outside the workers.
  predicate OutsideWorkers(op: Op) { !op.ClaimOp? && !op.RequeueOp? && !op.CreateCycleOp? }

  ghost predicate Enabled(d: System, a: Action) {
    match a
    case TableStep(op) => OutsideWorkers(op) && Allowed(d.db, op)
    case Promise(_) => true
    case Push(r) => r in d.waking
    case BreakPromise(r) => r in d.waking
    case Pop(w) => w < |d.workers| && d.workers[w].Idle? && d.queue != []
    case ClaimHeld(w, _) => w < |d.workers| && d.workers[w].Holding?
    case CreateHeld(w) => w < |d.workers| && d.workers[w].Claimed? && CreateCycle(d.db, d.workers[w].request).Ok?
    case CreateFails(w) => w < |d.workers| && d.workers[w].Claimed?
    case Finish(w) => w < |d.workers| && d.workers[w].Driving?
    case EmergencyStop(_, _) => true
    case Restart(now) => Reconcile(d.db, now).Ok?
  }

  // The runs cancel_all_active selects, besides being continuous.
  predicate HasWork(db: Db, r: RunId) {
    || (exists i :: 0 <= i < |db.requests| && db.requests[i].run == r && Live(db.requests[i].status))
    || (exists s :: 0 <= s < |db.series| && db.series[s].run == r && ActiveSeries(db.series[s].status))
  }

  // One selected run, inside the transaction.
  function CancelNext(db: Db, before: Db, q: RunId, reason: string, now: int): Db {
    var canceled := Cancel(before, q, reason, now);
    if HasWork(db, q) && canceled.Ok? then canceled.value else before
  }

  // cancel_all_active, over the first n runs.
  function CancelAll(db: Db, n: nat, reason: string, now: int): Db {
    if n == 0 then db else CancelNext(db, CancelAll(db, n - 1, reason, now), n - 1, reason, now)
  }

  function Next(d: System, a: Action): System {
    match a
    case TableStep(op) => d.(db := Apply(d.db, op), waking := d.waking + multiset(Wakes(d.db, op)))
    case Promise(r) => d.(waking := d.waking + multiset{r})
    case Push(r) => d.(queue := d.queue + [r], waking := d.waking - multiset{r})
    case BreakPromise(r) => d.(waking := d.waking - multiset{r})
    case Pop(w) =>
      if w < |d.workers| && d.queue != [] then
        d.(queue := d.queue[1..], workers := d.workers[w := Holding(d.queue[0])])
      else d
    case ClaimHeld(w, now) =>
      if w < |d.workers| && d.workers[w].Holding? then
        var claimed := Claim(d.db, d.workers[w].run, now);
        if claimed.Ok? && claimed.value.1.Some? then
          d.(db := claimed.value.0, workers := d.workers[w := Claimed(d.workers[w].run, claimed.value.1.value)])
        else d.(workers := d.workers[w := Idle])
      else d
    case CreateHeld(w) =>
      if w < |d.workers| && d.workers[w].Claimed? && CreateCycle(d.db, d.workers[w].request).Ok? then
        var created := CreateCycle(d.db, d.workers[w].request).value;
        d.(db := created.0, workers := d.workers[w := Driving(d.workers[w].run, created.1)])
      else d
    case CreateFails(w) =>
      if w < |d.workers| && d.workers[w].Claimed? then
        var requeued := Requeue(d.db, d.workers[w].request);
        d.(db := if requeued.Ok? then requeued.value else d.db, workers := d.workers[w := Idle])
      else d
    case Finish(w) => if w < |d.workers| then d.(workers := d.workers[w := Idle]) else d
    case EmergencyStop(reason, now) =>
      d.(db := CancelAll(d.db, |d.db.runs|, reason, now), queue := [],
         workers := seq(|d.workers|, i requires 0 <= i < |d.workers| => Idle))
    case Restart(now) =>
      if Reconcile(d.db, now).Ok? then
        var (db, list) := Reconcile(d.db, now).value;
        System(db, [], seq(|d.workers|, i requires 0 <= i < |d.workers| => Idle), multiset(list))
      else d
  }

  // ---- no lost wake-up ----

  // A worker is about to claim for the run.
  ghost predicate Held(d: System, r: RunId) {
    exists w :: 0 <= w < |d.workers| && d.workers[w] == Holding(r)
  }

  // Someone will look at the run's queue.
  ghost predicate Noticed(d: System, r: RunId) { r in d.queue || r in d.waking || Held(d, r) }

  ghost predicate AwakeAt(d: System, r: RunId) { Runnable(d.db, r) ==> Noticed(d, r) }

  // A worker's claim is a request of the run it took.
  ghost predicate Coherent(d: System) {
    forall w :: 0 <= w < |d.workers| && d.workers[w].Claimed? ==>
      && d.workers[w].request < |d.db.requests|
      && d.db.requests[d.workers[w].request].run == d.workers[w].run
  }

  ghost predicate SystemOk(d: System) { Inv(d.db) && Coherent(d) }

  // The four ways to leave work of the run without anybody to look at it.
  predicate Forgets(d: System, a: Action, r: RunId) {
    match a
    case BreakPromise(q) => q == r
    case CreateFails(w) => w < |d.workers| && d.workers[w].Claimed? && d.workers[w].run == r
    case TableStep(op) => ForgetsInTables(d.db, op, r)
    case _ => false
  }

  // A user reopens the run, or a request of it is marked settled past the observers.
  predicate ForgetsInTables(db: Db, op: Op, r: RunId) {
    || Reopens(db, op, r)
    || (op.MarkSettledOp? && op.request < |db.requests| && db.requests[op.request].run == r)
  }

  // Whether a run is runnable depends on its own requests and its status.
  ghost predicate SameQueue(db: Db, after: Db, r: RunId) {
    && (r < |after.runs| && after.runs[r].status != RunCanceled ==> r < |db.runs| && db.runs[r].status != RunCanceled)
    && |db.requests| <= |after.requests|
    && (forall i :: 0 <= i < |db.requests| ==>
      (IsQueued(after.requests[i], r) <==> IsQueued(db.requests[i], r))
      && (IsDispatching(after.requests[i], r) <==> IsDispatching(db.requests[i], r)))
    && (forall i :: |db.requests| <= i < |after.requests| ==> after.requests[i].run != r)
  }

  lemma SameQueueSameRunnable(db: Db, after: Db, r: RunId)
    requires SameQueue(db, after, r) && Runnable(after, r)
    ensures Runnable(db, r)
  {
    var next := NextQueued(after.requests, r).value;
    assert IsQueued(after.requests[next], r);
    assert IsQueued(db.requests[next], r);
    forall i | 0 <= i < |db.requests| ensures !IsDispatching(db.requests[i], r) {
      assert !IsDispatching(after.requests[i], r);
    }
  }

  lemma TickOneReportsItsRow(db: Db, s: SeriesId, now: int)
    requires s < |db.series| && TickOne(db, s, now).Ok?
    ensures var (after, result) := TickOne(db, s, now).value;
      |after.requests| == |db.requests| || (|after.requests| == |db.requests| + 1 && |db.requests| in result.created)
  {
  }

  // Every row a tick adds is among those it reports.
  lemma {:induction false} TickReportsItsRows(db: Db, due: seq<SeriesId>, now: int, i: nat)
    requires Tick(db, due, now).Ok? && |db.requests| <= i < |Tick(db, due, now).value.0.requests|
    ensures i in Tick(db, due, now).value.1.created
    decreases |due|
  {
    if due != [] {
      var one := TickOne(db, due[0], now).value;
      TickOneReportsItsRow(db, due[0], now);
      var rest := Tick(one.0, due[1..], now).value;
      assert Tick(db, due, now).value
          == (rest.0, TickResult(one.1.created + rest.1.created, one.1.completed + rest.1.completed));
      if i >= |one.0.requests| { TickReportsItsRows(one.0, due[1..], now, i); }
    }
  }

  lemma ReportedRuns(requests: seq<Request>, created: seq<RequestId>, i: nat, r: RunId)
    requires i < |requests| && i in created && r !in RunsOf(requests, created)
    ensures requests[i].run != r
  {
    var k :| 0 <= k < |created| && created[k] == i;
    assert RunsOf(requests, created)[k] == requests[i].run;
  }

  lemma {:induction false} TickAddsForOthers(db: Db, due: seq<SeriesId>, now: int, r: RunId, i: nat)
    requires Tick(db, due, now).Ok? && |db.requests| <= i < |Tick(db, due, now).value.0.requests|
    requires var (after, result) := Tick(db, due, now).value; r !in RunsOf(after.requests, result.created)
    ensures Tick(db, due, now).value.0.requests[i].run != r
  {
    TickReportsItsRows(db, due, now, i);
    ReportedRuns(Tick(db, due, now).value.0.requests, Tick(db, due, now).value.1.created, i, r);
  }

  lemma {:induction false} TickLeavesRuns(db: Db, due: seq<SeriesId>, now: int)
    requires Tick(db, due, now).Ok?
    ensures Tick(db, due, now).value.0.runs == db.runs
    decreases |due|
  {
    if due != [] {
      TickLeavesRuns(TickOne(db, due[0], now).value.0, due[1..], now);
    }
  }

  // Rows kept, and new ones for other runs: the queue of the run is as it was.
  lemma {:induction false} AppendedForOthers(db: Db, after: Db, r: RunId)
    requires after.runs == db.runs && |db.requests| <= |after.requests|
    requires forall i :: 0 <= i < |db.requests| ==> after.requests[i] == db.requests[i]
    requires forall i :: |db.requests| <= i < |after.requests| ==> after.requests[i].run != r
    ensures SameQueue(db, after, r)
  {
  }

  lemma {:induction false} TickWakes(db: Db, due: seq<SeriesId>, now: int, r: RunId)
    requires Inv(db) && Tick(db, due, now).Ok? && r !in Wakes(db, TickOp(due, now))
    ensures SameQueue(db, Tick(db, due, now).value.0, r)
  {
    TickAppends(db, due, now);
    TickLeavesRuns(db, due, now);
    var after := Tick(db, due, now).value.0;
    forall i | |db.requests| <= i < |after.requests| ensures after.requests[i].run != r {
      TickAddsForOthers(db, due, now, r, i);
    }
    AppendedForOthers(db, after, r);
  }

  // A settlement that leaves its run runnable says so.
  lemma SettleWakes(db: Db, c: CycleId, now: int, r: RunId)
    requires Inv(db) && Settle(db, c, now).Ok? && r !in Wakes(db, SettleOp(c, now))
    ensures Runnable(Settle(db, c, now).value.0, r) ==> Runnable(db, r)
  {
    var (after, settlement) := Settle(db, c, now).value;
    var q := settlement.request;
    if db.requests[q].run != r || after.requests == db.requests {
      assert SameQueue(db, after, r);
      if Runnable(after, r) { SameQueueSameRunnable(db, after, r); }
    } else {
      assert settlement.transitioned && after.requests[q].run == r;
    }
  }

  lemma NewSeriesWakes(db: Db, q: RunId, target: int, interval: int, now: int, first: Option<string>, r: RunId)
    requires Inv(db) && InitializeSeries(db, q, target, interval, now, first).Ok? && r != q
    ensures SameQueue(db, InitializeSeries(db, q, target, interval, now, first).value.0, r)
  {
    InitializeResult(db, q, target, interval, now, first);
    NewSeriesAppends(db, q, target, interval, now, first);
  }

  lemma DeadIsNotRunnable(db: Db, r: RunId)
    requires Dead(db, r)
    ensures !Runnable(db, r)
  {
  }

  lemma CancelWakes(db: Db, q: RunId, reason: string, now: int, r: RunId)
    requires Inv(db) && Cancel(db, q, reason, now).Ok?
    ensures Runnable(Cancel(db, q, reason, now).value, r) ==> Runnable(db, r) && r != q
  {
    var after := Cancel(db, q, reason, now).value;
    CancelCloses(db, q, reason, now);
    DeadIsNotRunnable(after, q);
    if Runnable(after, r) {
      assert SameQueue(db, after, r);
      SameQueueSameRunnable(db, after, r);
    }
  }

  // The steps that start a series or a slot.
  lemma {:induction false} SeriesStepWakes(db: Db, op: Op, r: RunId)
    requires Inv(db) && r !in Wakes(db, op) && (op.CreateSeriesOp? || op.RestartOp? || op.TickOp?)
    ensures SameQueue(db, Apply(db, op), r)
  {
    match op
    case CreateSeriesOp(q, target, interval, first, now) =>
      if CreateSeries(db, q, target, interval, now, first).Ok? {
        NewSeriesWakes(db, q, target, interval, now, first, r);
      }
    case RestartOp(q, now) =>
      if RestartSeries(db, q, now).Ok? {
        var latest := LatestSeries(db.series, q).value;
        NewSeriesWakes(db, q, db.series[latest].target, db.series[latest].interval, now, None, r);
      }
    case TickOp(due, now) => if Tick(db, due, now).Ok? { TickWakes(db, due, now, r); }
  }

  lemma {:induction false} SettledElsewhere(db: Db, q: RequestId, now: int, r: RunId)
    requires !(q < |db.requests| && db.requests[q].run == r)
    ensures SameQueue(db, Apply(db, MarkSettledOp(q, now)), r)
  {
  }

  // A run becomes runnable only by a step whose actor goes on to enqueue it.
  lemma {:induction false} RunnableOnlyIfWoken(db: Db, op: Op, r: RunId)
    requires Inv(db) && Allowed(db, op) && OutsideWorkers(op)
    requires Runnable(Apply(db, op), r) && r !in Wakes(db, op) && !ForgetsInTables(db, op, r)
    ensures Runnable(db, r)
  {
    match op
    case SettleOp(c, now) => if Settle(db, c, now).Ok? { SettleWakes(db, c, now, r); }
    case CancelOp(q, reason, now) => if Cancel(db, q, reason, now).Ok? { CancelWakes(db, q, reason, now, r); }
    case AddRunOp(_) => NoRequestsOfNewRun(db, r);
    case MarkSettledOp(q, now) =>
      SettledElsewhere(db, q, now, r);
      SameQueueSameRunnable(db, Apply(db, op), r);
    case CreateSeriesOp(_, _, _, _, _) => SeriesStepOnlyIfWoken(db, op, r);
    case RestartOp(_, _) => SeriesStepOnlyIfWoken(db, op, r);
    case TickOp(_, _) => SeriesStepOnlyIfWoken(db, op, r);
    case _ => OtherStepKeepsQueue(db, op, r);
  }

  lemma {:induction false} SeriesStepOnlyIfWoken(db: Db, op: Op, r: RunId)
    requires Inv(db) && r !in Wakes(db, op) && (op.CreateSeriesOp? || op.RestartOp? || op.TickOp?)
    requires Runnable(Apply(db, op), r)
    ensures Runnable(db, r)
  {
    SeriesStepWakes(db, op, r);
    SameQueueSameRunnable(db, Apply(db, op), r);
  }

  lemma NoRequestsOfNewRun(db: Db, r: RunId)
    requires Inv(db)
    ensures QueueReady(db.requests, r) ==> r < |db.runs|
  {
    var next := NextQueued(db.requests, r);
    assert next.Some? ==> RequestOk(db, next.value);
  }

  lemma EnqueueingKeepsOtherQueues(db: Db, op: Op, r: RunId)
    requires (op.EnqueueOp? || op.RetryOp?) && r !in Wakes(db, op)
    ensures SameQueue(db, Apply(db, op), r)
  {
  }

  lemma OtherStepKeepsQueue(db: Db, op: Op, r: RunId)
    requires Inv(db) && Allowed(db, op) && OutsideWorkers(op) && r !in Wakes(db, op)
    requires !op.CreateSeriesOp? && !op.RestartOp? && !op.TickOp? && !op.SettleOp? && !op.CancelOp? && !op.AddRunOp?
    requires !op.MarkSettledOp? && Runnable(Apply(db, op), r) && !ForgetsInTables(db, op, r)
    ensures Runnable(db, r)
  {
    if op.EnqueueOp? || op.RetryOp? {
      EnqueueingKeepsOtherQueues(db, op, r);
      SameQueueSameRunnable(db, Apply(db, op), r);
    } else {
      assert Apply(db, op).requests == db.requests;
    }
  }

  // ---- the workers ----

  lemma ClaimLeavesNothingRunnable(db: Db, r: RunId, now: int)
    requires Inv(db)
    ensures var claimed := Claim(db, r, now);
      var after := if claimed.Ok? then claimed.value.0 else db;
      && !Runnable(after, r)
      && (forall q: nat :: q != r && Runnable(after, q) ==> Runnable(db, q))
  {
    NoRequestsOfNewRun(db, r);
    var claimed := Claim(db, r, now);
    if claimed.Ok? && claimed.value.1.Some? {
      var after := claimed.value.0;
      assert IsDispatching(after.requests[claimed.value.1.value], r);
      forall q: nat | q != r && Runnable(after, q) ensures Runnable(db, q) {
        assert SameQueue(db, after, q);
        SameQueueSameRunnable(db, after, q);
      }
    }
  }

  // A run with claimable work is one that cancel_all_active selects and can cancel.
  lemma RunnableIsCanceled(db: Db, before: Db, r: RunId, reason: string, now: int)
    requires Inv(before) && Runnable(before, r) && Runnable(db, r)
    ensures HasWork(db, r) && Cancel(before, r, reason, now).Ok?
  {
    assert RequestOk(before, NextQueued(before.requests, r).value);
    var i := NextQueued(db.requests, r).value;
    assert db.requests[i].run == r && Live(db.requests[i].status);
  }

  // What cancel_all_active keeps while it goes through the runs.
  ghost predicate StopsFirst(db: Db, after: Db, n: nat) {
    Inv(after) && forall r: nat :: Runnable(after, r) ==> Runnable(db, r) && n <= r
  }

  lemma {:induction false} CancelNextStopsOne(db: Db, before: Db, q: RunId, reason: string, now: int)
    requires StopsFirst(db, before, q)
    ensures StopsFirst(db, CancelNext(db, before, q, reason, now), q + 1)
  {
    var after := CancelNext(db, before, q, reason, now);
    if HasWork(db, q) && Cancel(before, q, reason, now).Ok? { CancelKeepsInv(before, q, reason, now); }
    forall r: nat | Runnable(after, r) ensures Runnable(db, r) && q + 1 <= r {
      if HasWork(db, q) && Cancel(before, q, reason, now).Ok? {
        CancelWakes(before, q, reason, now, r);
      } else if r == q {
        RunnableIsCanceled(db, before, q, reason, now);
      }
    }
  }

  lemma {:induction false} CancelAllStopsAll(db: Db, n: nat, reason: string, now: int)
    requires StopsFirst(db, db, 0)
    ensures StopsFirst(db, CancelAll(db, n, reason, now), n)
  {
    if n > 0 {
      CancelAllStopsAll(db, n - 1, reason, now);
      CancelNextStopsOne(db, CancelAll(db, n - 1, reason, now), n - 1, reason, now);
    }
  }

  /** After cancel_all_active no run has claimable work, although it selects only some of the runs. */
  lemma {:induction false} CancelAllClosesAll(db: Db, reason: string, now: int)
    requires Inv(db)
    ensures var after := CancelAll(db, |db.runs|, reason, now); Inv(after) && forall r: nat :: !Runnable(after, r)
  {
    CancelAllStopsAll(db, |db.runs|, reason, now);
    forall r: nat | Runnable(db, r) ensures r < |db.runs| { }
  }

  lemma NoticedAfterPop(d: System, w: nat, r: RunId)
    requires Enabled(d, Pop(w)) && Noticed(d, r)
    ensures Noticed(Next(d, Pop(w)), r)
  {
    var after := Next(d, Pop(w));
    assert after.workers[w] == Holding(d.queue[0]);
    if r in d.queue {
      if r != d.queue[0] { assert d.queue == [d.queue[0]] + d.queue[1..]; }
    } else if r !in d.waking {
      var v :| 0 <= v < |d.workers| && d.workers[v] == Holding(r);
      assert after.workers[v] == Holding(r);
    }
  }

  lemma NoticedAfterWorker(d: System, after: System, w: nat, r: RunId)
    requires w < |d.workers| && d.workers[w] != Holding(r) && Noticed(d, r)
    requires after.queue == d.queue && after.waking == d.waking && |after.workers| == |d.workers|
    requires forall v :: 0 <= v < |d.workers| && v != w ==> after.workers[v] == d.workers[v]
    ensures Noticed(after, r)
  {
    if r !in d.queue && r !in d.waking {
      var v :| 0 <= v < |d.workers| && d.workers[v] == Holding(r);
      assert after.workers[v] == Holding(r);
    }
  }

  // The actors' own steps on the queue and the promises.
  lemma NoticedAfterPromise(d: System, after: System, r: RunId)
    requires Noticed(d, r) && after.workers == d.workers
    requires (r in d.queue ==> r in after.queue) && (r in d.waking ==> r in after.waking || r in after.queue)
    ensures Noticed(after, r)
  {
    if Held(d, r) { assert Held(after, r); }
  }

  lemma WorkerStepKeepsAwake(d: System, a: Action, r: RunId)
    requires SystemOk(d) && AwakeAt(d, r) && Enabled(d, a)
    requires a.Pop? || a.ClaimHeld? || a.CreateHeld? || a.Finish?
    ensures AwakeAt(Next(d, a), r)
  {
    var after := Next(d, a);
    if Runnable(after.db, r) {
      match a
      case Pop(w) => NoticedAfterPop(d, w, r);
      case ClaimHeld(w, now) =>
        ClaimLeavesNothingRunnable(d.db, d.workers[w].run, now);
        NoticedAfterWorker(d, after, w, r);
      case CreateHeld(w) => NoticedAfterWorker(d, after, w, r);
      case Finish(w) => NoticedAfterWorker(d, after, w, r);
    }
  }

  // A requeued claim is work of its own run only.
  lemma RequeueWakesOwn(db: Db, q: RequestId, r: RunId)
    requires Inv(db) && Requeue(db, q).Ok? && Runnable(Requeue(db, q).value, r) && r != db.requests[q].run
    ensures Runnable(db, r)
  {
    assert SameQueue(db, Requeue(db, q).value, r);
    SameQueueSameRunnable(db, Requeue(db, q).value, r);
  }

  lemma CreateFailureKeepsOthersAwake(d: System, w: nat, r: RunId)
    requires SystemOk(d) && AwakeAt(d, r) && Enabled(d, CreateFails(w)) && r != d.workers[w].run
    ensures AwakeAt(Next(d, CreateFails(w)), r)
  {
    var after := Next(d, CreateFails(w));
    if Runnable(after.db, r) {
      if Requeue(d.db, d.workers[w].request).Ok? { RequeueWakesOwn(d.db, d.workers[w].request, r); }
      NoticedAfterWorker(d, after, w, r);
    }
  }

  lemma TableStepKeepsAwake(d: System, op: Op, r: RunId)
    requires SystemOk(d) && AwakeAt(d, r) && OutsideWorkers(op) && Allowed(d.db, op) && !ForgetsInTables(d.db, op, r)
    ensures AwakeAt(Next(d, TableStep(op)), r)
  {
    var after := Next(d, TableStep(op));
    if Runnable(after.db, r) {
      if r in Wakes(d.db, op) {
        assert r in multiset(Wakes(d.db, op));
      } else {
        RunnableOnlyIfWoken(d.db, op, r);
        NoticedAfterPromise(d, after, r);
      }
    }
  }

  lemma RestartIsAwake(d: System, now: int)
    requires Inv(d.db) && Enabled(d, Restart(now))
    ensures Inv(Next(d, Restart(now)).db)
    ensures forall r: nat :: AwakeAt(Next(d, Restart(now)), r)
  {
    ReconcileConverges(d.db, now);
    var list := Reconcile(d.db, now).value.1;
    forall r: nat | Runnable(Next(d, Restart(now)).db, r) ensures Noticed(Next(d, Restart(now)), r) {
      assert r in list && r in multiset(list);
    }
  }

  lemma ActionKeepsAwake(d: System, a: Action, r: RunId)
    requires SystemOk(d) && AwakeAt(d, r) && Enabled(d, a) && !Forgets(d, a, r)
    ensures AwakeAt(Next(d, a), r)
  {
    var after := Next(d, a);
    match a
    case TableStep(op) => TableStepKeepsAwake(d, op, r);
    case Promise(_) =>
      if Noticed(d, r) { NoticedAfterPromise(d, after, r); }
    case Push(q) =>
      assert after.queue[|d.queue|] == q;
      if Noticed(d, r) { NoticedAfterPromise(d, after, r); }
    case BreakPromise(_) => if Noticed(d, r) { NoticedAfterPromise(d, after, r); }
    case CreateFails(w) => CreateFailureKeepsOthersAwake(d, w, r);
    case EmergencyStop(reason, now) => CancelAllClosesAll(d.db, reason, now);
    case Restart(now) => RestartIsAwake(d, now);
    case _ => WorkerStepKeepsAwake(d, a, r);
  }

  // ---- every action keeps the tables and the workers in step ----

  ghost predicate RunsKept(before: seq<Request>, after: seq<Request>) {
    |before| <= |after| && forall i :: 0 <= i < |before| ==> after[i].run == before[i].run
  }

  lemma RunsKeptByStep(db: Db, op: Op)
    requires Inv(db) && Allowed(db, op)
    ensures RunsKept(db.requests, Apply(db, op).requests)
  {
    if ServiceOp(op) { ServiceLeavesCycles(db, op); }
  }

  // A step of the tables that leaves a worker's claim where it is.
  lemma {:induction false} CoherentFrame(d: System, after: System)
    requires Coherent(d) && RunsKept(d.db.requests, after.db.requests) && |after.workers| == |d.workers|
    requires forall w :: 0 <= w < |d.workers| && after.workers[w].Claimed? ==> after.workers[w] == d.workers[w]
    ensures Coherent(after)
  {
  }

  lemma {:induction false} TableStepKeepsOk(d: System, op: Op)
    requires SystemOk(d) && Allowed(d.db, op)
    ensures SystemOk(Next(d, TableStep(op)))
  {
    StepKeepsInv(d.db, op);
    RunsKeptByStep(d.db, op);
    CoherentFrame(d, Next(d, TableStep(op)));
  }

  lemma {:induction false} ClaimKeepsOk(d: System, w: nat, now: int)
    requires SystemOk(d) && Enabled(d, ClaimHeld(w, now))
    ensures SystemOk(Next(d, ClaimHeld(w, now)))
  {
    if Claim(d.db, d.workers[w].run, now).Ok? { ClaimKeepsInv(d.db, d.workers[w].run, now); }
  }

  lemma {:induction false} CreateKeepsOk(d: System, a: Action)
    requires SystemOk(d) && Enabled(d, a) && (a.CreateHeld? || a.CreateFails?)
    ensures SystemOk(Next(d, a))
  {
    var q := d.workers[a.worker].request;
    if a.CreateHeld? { CreateCycleKeepsInv(d.db, q); } else if Requeue(d.db, q).Ok? { RequeueKeepsInv(d.db, q); }
    CoherentFrame(d, Next(d, a));
  }

  lemma {:induction false} ActionKeepsOk(d: System, a: Action)
    requires SystemOk(d) && Enabled(d, a)
    ensures SystemOk(Next(d, a))
  {
    match a
    case TableStep(op) => TableStepKeepsOk(d, op);
    case ClaimHeld(w, now) => ClaimKeepsOk(d, w, now);
    case CreateHeld(_) => CreateKeepsOk(d, a);
    case CreateFails(_) => CreateKeepsOk(d, a);
    case EmergencyStop(reason, now) => CancelAllClosesAll(d.db, reason, now);
    case Restart(now) => RestartIsAwake(d, now);
    case _ => CoherentFrame(d, Next(d, a));
  }

  // ---- whole executions ----

  ghost predicate Execution(systems: seq<System>, actions: seq<Action>) {
    && |systems| == |actions| + 1
    && Starts(systems[0])
    && forall k :: 0 <= k < |actions| ==> ActionAt(systems, actions, k)
  }

  // Empty tables and workers that have taken nothing.
  ghost predicate Starts(d: System) {
    d.db == EMPTY && forall w :: 0 <= w < |d.workers| ==> d.workers[w].Idle?
  }

  ghost predicate ActionAt(systems: seq<System>, actions: seq<Action>, k: nat)
    requires |systems| == |actions| + 1 && k < |actions|
  {
    Enabled(systems[k], actions[k]) && systems[k + 1] == Next(systems[k], actions[k])
  }

  /** Every interleaving keeps the invariant of the tables, and a worker's claim is a request of its run. */
  lemma {:induction false} OkInEveryExecution(systems: seq<System>, actions: seq<Action>, k: nat)
    requires Execution(systems, actions) && k < |systems|
    ensures SystemOk(systems[k]) && OneDispatching(systems[k].db)
  {
    if k == 0 {
      assert Inv(EMPTY);
    } else {
      OkInEveryExecution(systems, actions, k - 1);
      assert ActionAt(systems, actions, k - 1);
      ActionKeepsOk(systems[k - 1], actions[k - 1]);
    }
  }

  // The action that lost the wake-up: noticed until then, and never again up to k.
  ghost predicate LostAt(systems: seq<System>, actions: seq<Action>, i: nat, k: nat, r: RunId)
    requires i < |actions| && k < |systems|
  {
    && i < k && i < |systems| && Forgets(systems[i], actions[i], r) && AwakeAt(systems[i], r)
    && forall j :: i < j <= k ==> !AwakeAt(systems[j], r)
  }

  /**
    No wake-up is lost without a culprit: if a run has claimable work that nobody is going to
    look at, then in every interleaving there is an action that left it so, and it is a broken
    promise, a failed create_cycle, a reopening or a request settled by hand, of this very run.
    A restart of the process repairs all of them.
  */
  lemma {:induction false} LostWakeUpHasCulprit(systems: seq<System>, actions: seq<Action>, k: nat, r: RunId)
    requires Execution(systems, actions) && k < |systems| && !AwakeAt(systems[k], r)
    ensures exists i :: 0 <= i < |actions| && LostAt(systems, actions, i, k, r)
  {
    if k > 0 {
      OkInEveryExecution(systems, actions, k - 1);
      assert ActionAt(systems, actions, k - 1);
      if AwakeAt(systems[k - 1], r) {
        if !Forgets(systems[k - 1], actions[k - 1], r) { ActionKeepsAwake(systems[k - 1], actions[k - 1], r); }
        assert LostAt(systems, actions, k - 1, k, r);
      } else {
        LostWakeUpHasCulprit(systems, actions, k - 1, r);
        var i :| 0 <= i < |actions| && LostAt(systems, actions, i, k - 1, r);
        assert LostAt(systems, actions, i, k, r);
      }
    }
  }

  /**
    So a run that no such action touches is never forgotten: whenever it has claimable work, it
    is in the queue, or with an actor about to enqueue or to claim it.
  */
  lemma NoLostWakeUp(systems: seq<System>, actions: seq<Action>, k: nat, r: RunId)
    requires Execution(systems, actions) && k < |systems|
    requires forall i :: 0 <= i < k ==> !Forgets(systems[i], actions[i], r)
    ensures AwakeAt(systems[k], r)
  {
    if !AwakeAt(systems[k], r) { LostWakeUpHasCulprit(systems, actions, k, r); }
  }

  // ---- when each of the four does lose a wake-up ----

  /**
    An actor that stops after its transaction loses the wake-up exactly when the run has claimable
    work and neither the queue nor a worker nor a second promise knows of it.
  */
  lemma BrokenPromiseWakesIff(d: System, r: RunId)
    requires r in d.waking
    ensures AwakeAt(Next(d, BreakPromise(r)), r) <==>
      !Runnable(d.db, r) || r in d.queue || d.waking[r] >= 2 || Held(d, r)
  {
    var after := Next(d, BreakPromise(r));
    assert Held(after, r) <==> Held(d, r);
    assert r in after.waking <==> d.waking[r] >= 2;
  }

  lemma RequeuedIsRunnable(db: Db, q: RequestId)
    requires Inv(db) && Requeue(db, q).Ok?
    ensures var r := db.requests[q].run;
      r < |db.runs| && !Runnable(db, r) && (Runnable(Requeue(db, q).value, r) <==> db.runs[r].status != RunCanceled)
  {
    var r, after := db.requests[q].run, Requeue(db, q).value;
    assert RequestOk(db, q) && IsDispatching(db.requests[q], r);
    assert IsQueued(after.requests[q], r);
    assert forall i :: 0 <= i < |after.requests| ==> !IsDispatching(after.requests[i], r);
  }

  /**
    When creating the cycle fails the claim goes back without a wake-up: the run stays noticed
    exactly when the claim is no longer one to give back, the run has been canceled meanwhile,
    or somebody else is already about to look at it.
  */
  lemma CreateFailureWakesIff(d: System, w: nat)
    requires SystemOk(d) && Enabled(d, CreateFails(w)) && AwakeAt(d, d.workers[w].run)
    ensures var r := d.workers[w].run;
      r < |d.db.runs| && (AwakeAt(Next(d, CreateFails(w)), r) <==>
        Requeue(d.db, d.workers[w].request).Err? || d.db.runs[r].status == RunCanceled || Noticed(d, r))
  {
    var q, r := d.workers[w].request, d.workers[w].run;
    var after := Next(d, CreateFails(w));
    assert RequestOk(d.db, q);
    if Noticed(d, r) { NoticedAfterWorker(d, after, w, r); }
    if Held(after, r) {
      var v :| 0 <= v < |after.workers| && after.workers[v] == Holding(r);
      assert d.workers[v] == Holding(r);
    }
    if Requeue(d.db, q).Ok? { RequeuedIsRunnable(d.db, q); }
  }

  /**
    Reopening a canceled run keeps it noticed exactly when it has nothing to claim, as after
    cancel_run, or somebody is about to look at it anyway.
  */
  lemma ReopenWakesIff(d: System, r: RunId, status: RunStatus)
    requires Reopens(d.db, SetRunOp(r, status), r)
    ensures AwakeAt(Next(d, TableStep(SetRunOp(r, status))), r) <==> !QueueReady(d.db.requests, r) || Noticed(d, r)
  {
    var after := Next(d, TableStep(SetRunOp(r, status)));
    assert after.waking == d.waking && (Held(after, r) <==> Held(d, r));
    assert Runnable(after.db, r) <==> QueueReady(d.db.requests, r);
  }

  /**
    Marking a request settled by hand loses the wake-up exactly when it was the one being
    dispatched, another request of the run waits behind it, and nobody is about to look.
  */
  lemma SettledByHandWakesIff(d: System, q: RequestId, now: int)
    requires SystemOk(d) && q < |d.db.requests| && AwakeAt(d, d.db.requests[q].run)
    ensures var r := d.db.requests[q].run;
      r < |d.db.runs| && (AwakeAt(Next(d, TableStep(MarkSettledOp(q, now))), r) <==>
        || d.db.requests[q].status != Dispatching || d.db.runs[r].status == RunCanceled
        || NextQueued(d.db.requests, r).None? || Noticed(d, r))
  {
    var r := d.db.requests[q].run;
    var after := Next(d, TableStep(MarkSettledOp(q, now)));
    assert RequestOk(d.db, q);
    assert after.waking == d.waking && (Held(after, r) <==> Held(d, r));
    SettledByHand(d.db, q, now);
  }

  lemma {:induction false} SettledByHand(db: Db, q: RequestId, now: int)
    requires Inv(db) && q < |db.requests|
    ensures var r, after := db.requests[q].run, Apply(db, MarkSettledOp(q, now));
      && r < |db.runs|
      && (db.requests[q].status != Dispatching ==> (Runnable(after, r) ==> Runnable(db, r)))
      && (db.requests[q].status == Dispatching ==>
           (Runnable(after, r) <==> db.runs[r].status != RunCanceled && NextQueued(db.requests, r).Some?))
  {
    var r, after := db.requests[q].run, Apply(db, MarkSettledOp(q, now));
    assert RequestOk(db, q);
    if db.requests[q].status == Dispatching {
      assert IsDispatching(db.requests[q], r);
      assert forall i :: 0 <= i < |db.requests| ==> !IsDispatching(after.requests[i], r);
      assert forall i :: 0 <= i < |db.requests| ==> (IsQueued(after.requests[i], r) <==> IsQueued(db.requests[i], r));
    } else if Runnable(after, r) {
      var next := NextQueued(after.requests, r).value;
      assert IsQueued(db.requests[next], r);
      forall i | 0 <= i < |db.requests| ensures !IsDispatching(db.requests[i], r) {
        assert !IsDispatching(after.requests[i], r);
      }
    }
  }

  /** A request that has a cycle is never queued again. */
  lemma {:induction false} NeverQueuedAgain(states: seq<Db>, ops: seq<Op>, q: RequestId, c: CycleId, k: nat, n: nat)
    requires History(states, ops) && k <= n <= |ops|
    requires q < |states[k].requests| && c < |states[k].cycles| && states[k].cycles[c].request == Some(q)
    ensures q < |states[n].requests| && c < |states[n].cycles| && states[n].cycles[c].request == Some(q)
    ensures states[n].requests[q].status != Queued
    decreases n
  {
    assert Inv(EMPTY);
    StepsKeepInv(states, ops, n);
    if k < n {
      NeverQueuedAgain(states, ops, q, c, k, n - 1);
      assert StepAt(states, ops, n - 1);
      StepsKeepInv(states, ops, n - 1);
      CyclesPersist(states[n - 1], ops[n - 1], c);
    }
    assert CycleOk(states[n], c);
  }

  lemma CyclesPersist(db: Db, op: Op, c: CycleId)
    requires Inv(db) && Allowed(db, op) && c < |db.cycles|
    ensures c < |Apply(db, op).cycles| && Apply(db, op).cycles[c].request == db.cycles[c].request
  {
    if ServiceOp(op) {
      ServiceLeavesCycles(db, op);
    }
  }
}
