/**
  Executions from empty tables in which a wake-up is lost, one for each way: a refused
  delegation, a failed create_cycle, a reopened run and a request settled by hand. Each ends with
  a claimable request that no queue, worker or actor knows of.
*/
module DispatcherExamples {
  import opened Outcomes
  import opened Strings
  import opened CycleTables
  import opened CycleSteps
  import opened CycleRuns
  import opened CycleReconcile
  import opened KnowledgeRequests
  import opened Dispatcher
  import opened Delegation

  ghost predicate ReachedSystem(d: System) {
    exists systems, actions :: Execution(systems, actions) && systems[|actions|] == d
  }

  lemma ReachedStart()
    ensures ReachedSystem(System(EMPTY, [], [Idle], multiset{}))
  {
    var systems, actions: seq<Action> := [System(EMPTY, [], [Idle], multiset{})], [];
    assert Execution(systems, actions) && systems[|actions|] == System(EMPTY, [], [Idle], multiset{});
  }

  lemma {:induction false} ReachedAction(d: System, a: Action)
    requires ReachedSystem(d) && Enabled(d, a)
    ensures ReachedSystem(Next(d, a))
  {
    var systems, actions :| Execution(systems, actions) && systems[|actions|] == d;
    var systems', actions' := systems + [Next(d, a)], actions + [a];
    forall k | 0 <= k < |actions'| ensures ActionAt(systems', actions', k) {
      if k < |actions| { assert ActionAt(systems, actions, k); }
    }
    assert Execution(systems', actions') && systems'[|actions'|] == Next(d, a);
  }

  // ---- one TRIGGERED team, one worker ----

  const TEAM := Run(Executing, true, TriggeredPolicy, "goal")

  function Team(status: RunStatus, requests: seq<Request>, cycles: seq<Cycle>): Db {
    Db([TEAM.(status := status)], requests, [], cycles, [], [])
  }

  function Asked(source: string, status: RequestStatus): Request {
    Request(0, None, None, Knowledge, Text(source), status, "Prepare", None, None, 5,
            if status == Queued then None else Some(5), if Live(status) then None else Some(5))
  }

  const FRESH := System(Team(Executing, [], []), [], [Idle], multiset{})

  // The request is queued, and nobody will look at it.
  const FORGOTTEN := System(Team(Executing, [Asked("k", Queued)], []), [], [Idle], multiset{})

  lemma FreshReached()
    ensures ReachedSystem(FRESH)
  {
    ReachedStart();
    var start := System(EMPTY, [], [Idle], multiset{});
    ReachedAction(start, TableStep(AddRunOp(TEAM)));
    assert start.db.runs + [TEAM] == [TEAM];
    assert Next(start, TableStep(AddRunOp(TEAM))) == FRESH;
  }

  lemma AskingEnqueues(db: Db, before: seq<Request>, cycles: seq<Cycle>, source: string)
    requires db == Team(Executing, before, cycles) && source != ""
    requires forall i :: 0 <= i < |before| ==> before[i].sourceId != Text(source)
    ensures Enqueue(db, 0, KnowledgeOf(source, "Prepare", None), 5)
      == Ok((Team(Executing, before + [Asked(source, Queued)], cycles), |before|))
  {
    var row := KnowledgeOf(source, "Prepare", None);
    assert SourceGate(db, 0, row).None?;
    assert FindSource(db.requests, 0, Knowledge, Text(source)).None?;
    assert InsertGate(db, 0, row).None?;
  }

  lemma AskingPromises(d: System, before: seq<Request>, cycles: seq<Cycle>, source: string)
    requires d == System(Team(Executing, before, cycles), [], [Idle], multiset{}) && source != ""
    requires forall i :: 0 <= i < |before| ==> before[i].sourceId != Text(source)
    ensures var a := TableStep(EnqueueOp(0, KnowledgeOf(source, "Prepare", None), 5));
      && Enabled(d, a)
      && Next(d, a) == System(Team(Executing, before + [Asked(source, Queued)], cycles), [], [Idle], multiset{0})
  {
    AskingEnqueues(d.db, before, cycles, source);
    assert multiset([0]) == multiset{0};
  }

  lemma PromisedReached()
    ensures ReachedSystem(FORGOTTEN.(waking := multiset{0}))
  {
    FreshReached();
    AskingPromises(FRESH, [], [], "k");
    assert [] + [Asked("k", Queued)] == [Asked("k", Queued)];
    ReachedAction(FRESH, TableStep(EnqueueOp(0, KnowledgeOf("k", "Prepare", None), 5)));
  }

  lemma PushedIsQueued(d: System)
    requires d.queue == [] && d.waking == multiset{0}
    ensures Next(d, Push(0)) == d.(queue := [0], waking := multiset{})
  {
  }

  lemma PushedReached()
    ensures ReachedSystem(FORGOTTEN.(queue := [0]))
  {
    PromisedReached();
    PushedIsQueued(FORGOTTEN.(waking := multiset{0}));
    ReachedAction(FORGOTTEN.(waking := multiset{0}), Push(0));
  }

  lemma OneQueuedIsRunnable(db: Db, q: RequestId)
    requires |db.runs| == 1 && db.runs[0].status != RunCanceled
    requires q < |db.requests| && IsQueued(db.requests[q], 0)
    requires forall i :: 0 <= i < |db.requests| ==> !IsDispatching(db.requests[i], 0)
    ensures Runnable(db, 0)
  {
    assert NextQueued(db.requests, 0).Some? && DispatchingOf(db.requests, 0).None?;
  }

  lemma ForgottenIsNotAwake()
    ensures !AwakeAt(FORGOTTEN, 0)
  {
    OneQueuedIsRunnable(FORGOTTEN.db, 0);
  }

  // ---- a refused delegation ----

  lemma NothingAttached()
    ensures Attach([], map[], ["nope"]) == Err(UnknownArtifact)
  {
    assert Strip("nope") == "nope";
    assert Stripped(["nope"]) == ["nope"];
  }

  lemma RequestIsPromised(d: System)
    requires d == FRESH
    ensures Promised(d, 0, "k", "Prepare", None, 5) == Ok(FORGOTTEN.(waking := multiset{0}))
  {
    assert Strip("k") == "k";
    var rows := Selected(d.db.requests, 0, "k");
    assert rows == [];
    SelectedRows(d.db.requests, 0, "k");
    assert FirstLive(d.db.requests, rows).None?;
    AskingEnqueues(d.db, [], [], "k");
    assert [] + [Asked("k", Queued)] == [Asked("k", Queued)];
    assert EnqueueKnowledge(d.db, 0, "k", "Prepare", None, 5) == Ok((FORGOTTEN.db, 0));
    assert d.waking + multiset{0} == multiset{0};
  }

  /** An owner delegates a request to a fresh team with the artifact id "nope". */
  lemma RefusedDelegationIsForgotten()
    ensures ReachedSystem(FRESH)
    ensures Delegated(FRESH, 0, "k", "Prepare", None, 5, [], map[], ["nope"], true) == FORGOTTEN
    ensures ReachedSystem(FORGOTTEN) && !AwakeAt(FORGOTTEN, 0)
  {
    FreshReached();
    NothingAttached();
    RequestIsPromised(FRESH);
    PromisedReached();
    ReachedAction(FORGOTTEN.(waking := multiset{0}), BreakPromise(0));
    ForgottenIsNotAwake();
  }

  // ---- a failed create_cycle ----

  lemma WorkerClaims(d: System)
    requires d == FORGOTTEN.(workers := [Holding(0)])
    ensures Next(d, ClaimHeld(0, 5))
        == System(Team(Executing, [Asked("k", Dispatching)], []), [], [Claimed(0, 0)], multiset{})
  {
    assert IsQueued(d.db.requests[0], 0);
    assert NextQueued(d.db.requests, 0) == Some(0) && DispatchingOf(d.db.requests, 0).None?;
  }

  lemma ClaimedReached()
    ensures ReachedSystem(System(Team(Executing, [Asked("k", Dispatching)], []), [], [Claimed(0, 0)], multiset{}))
  {
    PushedReached();
    var d := FORGOTTEN.(queue := [0]);
    ReachedAction(d, Pop(0));
    assert Next(d, Pop(0)) == FORGOTTEN.(workers := [Holding(0)]);
    WorkerClaims(FORGOTTEN.(workers := [Holding(0)]));
    ReachedAction(FORGOTTEN.(workers := [Holding(0)]), ClaimHeld(0, 5));
  }

  /** The only worker claims the only request, and create_cycle raises. */
  lemma CreateFailureIsForgotten(d: System)
    requires d == System(Team(Executing, [Asked("k", Dispatching)], []), [], [Claimed(0, 0)], multiset{})
    ensures ReachedSystem(d) && Enabled(d, CreateFails(0)) && Next(d, CreateFails(0)) == FORGOTTEN
    ensures !AwakeAt(FORGOTTEN, 0)
  {
    ClaimedReached();
    assert CycleOf(d.db.cycles, 0).None?;
    assert Requeue(d.db, 0).value.requests == [Asked("k", Queued)];
    assert Requeue(d.db, 0).value == FORGOTTEN.db;
    ForgottenIsNotAwake();
  }

  // ---- a reopened run ----

  // The worker took the run id while the run was canceled and let it go.
  const SET_ASIDE := System(Team(RunCanceled, [Asked("k", Queued)], []), [], [Idle], multiset{})

  lemma {:induction false} SetAsideReached()
    ensures ReachedSystem(SET_ASIDE)
  {
    PushedReached();
    var d := FORGOTTEN.(queue := [0]);
    var canceled := SET_ASIDE.(queue := [0]);
    ReachedAction(d, TableStep(SetRunOp(0, RunCanceled)));
    assert d.db.runs[0 := TEAM.(status := RunCanceled)] == canceled.db.runs;
    assert Next(d, TableStep(SetRunOp(0, RunCanceled))) == canceled;
    ReachedAction(canceled, Pop(0));
    assert Next(canceled, Pop(0)) == SET_ASIDE.(workers := [Holding(0)]);
    ReachedAction(SET_ASIDE.(workers := [Holding(0)]), ClaimHeld(0, 5));
    assert Next(SET_ASIDE.(workers := [Holding(0)]), ClaimHeld(0, 5)) == SET_ASIDE;
  }

  /** The run is set canceled with a request still queued, and reopened after a worker passed by. */
  lemma ReopenedIsForgotten()
    ensures ReachedSystem(SET_ASIDE) && Reopens(SET_ASIDE.db, SetRunOp(0, Executing), 0)
    ensures Next(SET_ASIDE, TableStep(SetRunOp(0, Executing))) == FORGOTTEN && !AwakeAt(FORGOTTEN, 0)
  {
    SetAsideReached();
    ForgottenIsNotAwake();
    assert SET_ASIDE.db.runs[0 := TEAM] == FORGOTTEN.db.runs;
  }

  // ---- a request settled by hand ----

  const FIRST := Cycle(0, Some(0), CycleQueued, "", None)

  // The first request is being dispatched, by no worker any more.
  function Paused(requests: seq<Request>): System {
    System(Team(Executing, [Asked("k", Dispatching)] + requests, [FIRST]), [], [Idle], multiset{})
  }

  lemma WorkerCreates(d: System)
    requires d == System(Team(Executing, [Asked("k", Dispatching)], []), [], [Claimed(0, 0)], multiset{})
    ensures Enabled(d, CreateHeld(0))
    ensures Next(d, CreateHeld(0))
        == System(Team(Executing, [Asked("k", Dispatching)], [FIRST]), [], [Driving(0, 0)], multiset{})
  {
    assert CycleOf(d.db.cycles, 0).None?;
    assert d.db.cycles + [FIRST] == [FIRST];
  }

  lemma PausedReached()
    ensures ReachedSystem(Paused([]))
  {
    ClaimedReached();
    var claimed := System(Team(Executing, [Asked("k", Dispatching)], []), [], [Claimed(0, 0)], multiset{});
    WorkerCreates(claimed);
    ReachedAction(claimed, CreateHeld(0));
    ReachedAction(Next(claimed, CreateHeld(0)), Finish(0));
    assert [Asked("k", Dispatching)] + [] == [Asked("k", Dispatching)];
    assert Next(Next(claimed, CreateHeld(0)), Finish(0)) == Paused([]);
  }

  lemma ClaimFindsNothing(d: System)
    requires d == Paused([Asked("m", Queued)]).(workers := [Holding(0)])
    ensures Next(d, ClaimHeld(0, 5)) == Paused([Asked("m", Queued)])
  {
    assert IsDispatching(d.db.requests[0], 0);
  }

  lemma {:induction false} SecondIsPromised(d: System)
    requires d == Paused([])
    ensures var a := TableStep(EnqueueOp(0, KnowledgeOf("m", "Prepare", None), 5));
      Enabled(d, a) && Next(d, a) == Paused([Asked("m", Queued)]).(waking := multiset{0})
  {
    assert [Asked("k", Dispatching)] + [] == [Asked("k", Dispatching)];
    assert "m"[0] != "k"[0];
    AskingPromises(d, [Asked("k", Dispatching)], [FIRST], "m");
  }

  lemma {:induction false} SecondPromisedReached()
    ensures ReachedSystem(Paused([Asked("m", Queued)]).(waking := multiset{0}))
  {
    PausedReached();
    SecondIsPromised(Paused([]));
    ReachedAction(Paused([]), TableStep(EnqueueOp(0, KnowledgeOf("m", "Prepare", None), 5)));
  }

  lemma {:induction false} SecondWaitsReached(d: System)
    requires d == Paused([Asked("m", Queued)])
    ensures ReachedSystem(d)
  {
    SecondPromisedReached();
    PushedIsQueued(d.(waking := multiset{0}));
    ReachedAction(d.(waking := multiset{0}), Push(0));
    ReachedAction(d.(queue := [0]), Pop(0));
    assert Next(d.(queue := [0]), Pop(0)) == d.(workers := [Holding(0)]);
    ClaimFindsNothing(d.(workers := [Holding(0)]));
    ReachedAction(d.(workers := [Holding(0)]), ClaimHeld(0, 5));
  }

  /** The request being dispatched is marked settled: the one behind it is not woken. */
  lemma {:induction false} SettledByHandIsForgotten(d: System)
    requires d == Paused([Asked("m", Queued)])
    ensures ReachedSystem(d) && !AwakeAt(Next(d, TableStep(MarkSettledOp(0, 5))), 0)
  {
    SecondWaitsReached(d);
    var after := Next(d, TableStep(MarkSettledOp(0, 5)));
    assert after.db.requests == [Asked("k", ReqSettled), Asked("m", Queued)];
    OneQueuedIsRunnable(after.db, 1);
  }
}
