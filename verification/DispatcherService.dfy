/** The dispatcher as an object: its queue and workers, over the cycle service's tables. */
module DispatcherService {
  import opened Outcomes
  import opened CycleTables
  import opened CycleSteps
  import opened CycleRuns
  import opened CycleReconcile
  import opened CycleService
  import opened Dispatcher

  class TeamCycleDispatcher {
    const cycles: TeamCycleService
    var queue: seq<RunId>
    var workers: seq<Worker>
    var waking: multiset<RunId>

    // A concurrency below one is refused with an error.
    constructor (cycles: TeamCycleService, concurrency: nat)
      requires concurrency >= 1
      ensures this.cycles == cycles
      ensures View() == System(cycles.State(), [], seq(concurrency, i => Idle), multiset{})
    {
      this.cycles := cycles;
      queue, workers, waking := [], seq(concurrency, i => Idle), multiset{};
    }

    function View(): System
      reads this, cycles
    {
      System(cycles.State(), queue, workers, waking)
    }

    // enqueue_run, by an actor that promised it.
    method EnqueueRun(r: RunId)
      requires r in waking
      modifies this
      ensures View() == Next(old(View()), Push(r))
    {
      queue := queue + [r];
      waking := waking - multiset{r};
    }

    // _worker_loop: the worker waits until the queue has an id.
    method TakeRun(w: nat)
      requires w < |workers| && workers[w].Idle? && queue != []
      modifies this
      ensures View() == Next(old(View()), Pop(w))
    {
      var r := queue[0];
      queue := queue[1..];
      workers := workers[w := Holding(r)];
    }

    // run_one up to the claim: a canceled run or an empty claim ends the worker's turn.
    method RunOneClaim(w: nat, now: int)
      requires w < |workers| && workers[w].Holding?
      modifies this, cycles
      ensures View() == Next(old(View()), ClaimHeld(w, now))
    {
      var r := workers[w].run;
      var claimed := cycles.ClaimNext(r, now);
      if claimed.Err? || claimed.value.None? {
        workers := workers[w := Idle];
        return;
      }
      workers := workers[w := Claimed(r, claimed.value.value)];
    }

    // run_one after the claim: create_cycle, which also fails for reasons of its own. On any failure
    // the claim is requeued, if it still can be, and the worker gives up either way.
    method RunOneCreate(w: nat, fails: bool)
      requires w < |workers| && workers[w].Claimed?
      modifies this, cycles
      ensures View() == Next(old(View()),
        if fails || CreateCycle(old(cycles.State()), old(workers[w].request)).Err? then CreateFails(w)
            else CreateHeld(w))
    {
      var q := workers[w].request;
      var created := CreateCycle(cycles.State(), q);
      if fails || created.Err? {
        var requeued := cycles.RequeueClaim(q);
        workers := workers[w := Idle];
        return;
      }
      cycles.cycles := created.value.0.cycles;
      assert cycles.State() == created.value.0;
      workers := workers[w := Driving(workers[w].run, created.value.1)];
    }

    // on_team_run_settled: a first settlement that leaves work promises to enqueue the run.
    method OnTeamRunSettled(c: CycleId, now: int) returns (result: Result<Settlement, CycleError>)
      modifies this, cycles
      ensures View() == Next(old(View()), TableStep(SettleOp(c, now)))
    {
      var requests := cycles.requests;
      ghost var before := cycles.State();
      result := cycles.SettleCycle(c, now);
      assert cycles.State() == Apply(before, SettleOp(c, now));
      assert Wakes(before, SettleOp(c, now)) ==
        if result.Ok? && result.value.transitioned && result.value.queueReady then [requests[result.value.request].run]
            else [];
      if result.Ok? && result.value.transitioned && result.value.queueReady {
        waking := waking + multiset{requests[result.value.request].run};
      }
    }

    method PromiseEach(runs: seq<RunId>)
      modifies this`waking
      ensures waking == old(waking) + multiset(runs)
    {
      var k := 0;
      while k < |runs|
        invariant 0 <= k <= |runs|
        invariant waking == old(waking) + multiset(runs[..k])
      {
        assert runs[..k + 1] == runs[..k] + [runs[k]];
        waking := waking + multiset{runs[k]};
        k := k + 1;
      }
      assert runs[..|runs|] == runs;
    }

    // The timer transaction, and the runs of the requests it created.
    method TickTables(now: int) returns (runs: seq<RunId>)
      modifies cycles
      ensures var op := TickOp(DueSeries(old(cycles.State()), now), now);
        cycles.State() == Apply(old(cycles.State()), op) && runs == Wakes(old(cycles.State()), op)
    {
      var ticked := cycles.EnqueueDueAutoRequests(now);
      runs := if ticked.Ok? then RunsOf(cycles.requests, ticked.value.created) else [];
    }

    // TeamCycleLoop.tick: every created request's run is enqueued afterwards, one by one.
    method Tick(now: int)
      modifies this, cycles
      ensures View() == Next(old(View()), TableStep(TickOp(DueSeries(old(cycles.State()), now), now)))
    {
      var runs := TickTables(now);
      PromiseEach(runs);
    }

    method DiscardPending()
      modifies this`queue
      ensures queue == []
    {
      while queue != []
        decreases |queue|
      {
        queue := queue[1..];
      }
    }
  }
}
