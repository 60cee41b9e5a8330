/**
  Two ids that differ only in case, in one team: a history from empty tables in which asking for
  one hands back a live request of the other.
*/
module KnowledgeExamples {
  import opened Outcomes
  import opened Strings
  import opened CycleTables
  import opened CycleSteps
  import opened CycleRuns
  import opened KnowledgeAttempts
  import opened KnowledgeRequests
  import opened DispatcherExamples
  import Delegation

  ghost predicate ReachedByAsking(db: Db) {
    exists states, ops :: KnowledgeSteps(states, ops) && states[|ops|] == db
  }

  predicate KnowledgeUse(op: KnowledgeOp) { op.Other? && op.op.EnqueueOp? ==> op.op.row.source != Knowledge }

  lemma {:induction false} StepsExtend(states: seq<Db>, ops: seq<KnowledgeOp>, op: KnowledgeOp)
    requires KnowledgeSteps(states, ops) && KnowledgeUse(op)
    ensures KnowledgeSteps(states + [ApplyKnowledge(states[|ops|], op)], ops + [op])
  {
    var states', ops' := states + [ApplyKnowledge(states[|ops|], op)], ops + [op];
    forall k | 0 <= k < |ops'| ensures states'[k + 1] == ApplyKnowledge(states'[k], ops'[k]) {
      if k < |ops| { assert states[k + 1] == ApplyKnowledge(states[k], ops[k]); }
    }
  }

  lemma {:induction false} AskingStep(db: Db, op: KnowledgeOp)
    requires ReachedByAsking(db) && KnowledgeUse(op)
    ensures ReachedByAsking(ApplyKnowledge(db, op))
  {
    var states, ops :| KnowledgeSteps(states, ops) && states[|ops|] == db;
    StepsExtend(states, ops, op);
    var states', ops' := states + [ApplyKnowledge(db, op)], ops + [op];
    assert KnowledgeSteps(states', ops') && states'[|ops'|] == ApplyKnowledge(db, op);
  }

  lemma AskingStart()
    ensures ReachedByAsking(EMPTY)
  {
    var states, ops: seq<KnowledgeOp> := [EMPTY], [];
    assert KnowledgeSteps(states, ops) && states[|ops|] == EMPTY;
  }

  const DONE := Cycle(0, Some(0), Completed, "", None)
  const AGAIN := "k#attempt-2"

  lemma IdsArePlain()
    ensures Plain("k") && Plain("K") && AttemptText("k", 2) == AGAIN && SameFolded("K", "k")
  {
    assert |"k"| == 1 && |"K"| == 1;
    assert Decimal(2) == "2";
    assert "k" + SEPARATOR + "2" == AGAIN;
  }

  lemma LettersStrip()
    ensures Strip("k") == "k" && Strip("K") == "K"
  {
    assert LStrip("k") == "k" && LStrip("K") == "K";
  }

  lemma FirstAsked(db: Db)
    requires db == Team(Executing, [], [])
    ensures ApplyKnowledge(db, RequestKnowledge(0, "k", "Prepare", None, 5))
        == Team(Executing, [Asked("k", Queued)], [])
  {
    LettersStrip();
    var rows := Selected(db.requests, 0, "k");
    assert rows == [];
    SelectedRows(db.requests, 0, "k");
    assert FirstLive(db.requests, rows).None?;
    AskingEnqueues(db, [], [], "k");
    assert [] + [Asked("k", Queued)] == [Asked("k", Queued)];
    assert EnqueueKnowledge(db, 0, "k", "Prepare", None, 5) == Ok((Team(Executing, [Asked("k", Queued)], []), 0));
  }

  // The team while its first request is being worked on.
  function Working(cycles: seq<Cycle>): Db { Team(Executing, [Asked("k", Dispatching)], cycles) }

  lemma {:induction false} FirstIsClaimed(db: Db)
    requires db == Team(Executing, [Asked("k", Queued)], [])
    ensures Apply(db, ClaimOp(0, 5)) == Working([])
  {
    assert IsQueued(db.requests[0], 0);
    assert NextQueued(db.requests, 0) == Some(0) && DispatchingOf(db.requests, 0).None?;
  }

  lemma {:induction false} FirstGetsCycle(db: Db)
    requires db == Working([])
    ensures Apply(db, CreateCycleOp(0)) == Working([DONE.(status := CycleQueued)])
  {
    assert CycleOf(db.cycles, 0).None?;
  }

  lemma {:induction false} FirstCompletes(db: Db)
    requires db == Working([DONE.(status := CycleQueued)])
    ensures Apply(db, SetCycleOp(0, Completed, "", None)) == Working([DONE])
  {
  }

  lemma {:induction false} FirstSettles(db: Db)
    requires db == Working([DONE])
    ensures Apply(db, SettleOp(0, 5)) == Team(Executing, [Asked("k", ReqSettled)], [DONE])
  {
  }

  lemma {:induction false} SelectedAmong(requests: seq<Request>, n: nat)
    requires n <= 2 && requests == [Asked("k", ReqSettled), Asked(AGAIN, Queued)][..n]
    ensures Selected(requests, 0, "k") == [0, 1][..n] && Selected(requests, 0, "K") == if n < 2 then [] else [1]
  {
    IdsArePlain();
    if n > 0 {
      var last := requests[n - 1];
      assert requests[..n - 1] == [Asked("k", ReqSettled), Asked(AGAIN, Queued)][..n - 1];
      SelectedAmong(requests[..n - 1], n - 1);
      MatchesIffSameFolded(last.sourceId.text, "k", "k", n);
      MatchesIffSameFolded(last.sourceId.text, "K", "k", n);
      assert "k"[0] != "K"[0];
    }
  }

  // One attempt, and it is over: the next one is named and enqueued.
  lemma {:induction false} NextIsAgain(db: Db)
    requires db == Team(Executing, [Asked("k", ReqSettled)], [DONE])
    ensures EnqueueKnowledge(db, 0, "k", "Prepare", None, 5)
      == Enqueue(db, 0, Delegation.KnowledgeOf(AGAIN, "Prepare", None), 5)
  {
    LettersStrip();
    IdsArePlain();
    SelectedAmong(db.requests, 1);
    var rows := Selected(db.requests, 0, "k");
    assert rows == [0] && FirstLive(db.requests, rows).None?;
    assert rows[..0] == [] && LastAttempt(db.requests, rows, "k") == 1;
  }

  lemma {:induction false} SecondAsked(db: Db)
    requires db == Team(Executing, [Asked("k", ReqSettled)], [DONE])
    ensures ApplyKnowledge(db, RequestKnowledge(0, "k", "Prepare", None, 5))
      == Team(Executing, [Asked("k", ReqSettled), Asked(AGAIN, Queued)], [DONE])
  {
    NextIsAgain(db);
    assert |"k"| != |AGAIN|;
    AskingEnqueues(db, [Asked("k", ReqSettled)], [DONE], AGAIN);
  }

  lemma TwiceAskedReached()
    ensures ReachedByAsking(Team(Executing, [Asked("k", ReqSettled), Asked(AGAIN, Queued)], [DONE]))
  {
    AskingStart();
    AskingStep(EMPTY, Other(AddRunOp(TEAM)));
    assert EMPTY.runs + [TEAM] == [TEAM];
    var start, queued := Team(Executing, [], []), Team(Executing, [Asked("k", Queued)], []);
    assert ApplyKnowledge(EMPTY, Other(AddRunOp(TEAM))) == start;
    FirstAsked(start);
    AskingStep(start, RequestKnowledge(0, "k", "Prepare", None, 5));
    FirstIsClaimed(queued);
    AskingStep(queued, Other(ClaimOp(0, 5)));
    FirstGetsCycle(Working([]));
    AskingStep(Working([]), Other(CreateCycleOp(0)));
    FirstCompletes(Working([DONE.(status := CycleQueued)]));
    AskingStep(Working([DONE.(status := CycleQueued)]), Other(SetCycleOp(0, Completed, "", None)));
    FirstSettles(Working([DONE]));
    AskingStep(Working([DONE]), Other(SettleOp(0, 5)));
    SecondAsked(Team(Executing, [Asked("k", ReqSettled)], [DONE]));
    AskingStep(Team(Executing, [Asked("k", ReqSettled)], [DONE]), RequestKnowledge(0, "k", "Prepare", None, 5));
  }

  lemma OtherIsHandedBack(db: Db)
    requires db == Team(Executing, [Asked("k", ReqSettled), Asked(AGAIN, Queued)], [DONE])
    ensures EnqueueKnowledge(db, 0, "K", "Prepare", None, 6) == Ok((db, 1))
  {
    LettersStrip();
    assert db.requests == [Asked("k", ReqSettled), Asked(AGAIN, Queued)][..2];
    SelectedAmong(db.requests, 2);
    assert FirstLive(db.requests, [1]) == Some(1);
  }

  /**
    After two attempts of "k", the first of them settled, asking for "K" hands back the second
    attempt of "k", although "K" has no request at all.
  */
  lemma CaseVariantsInterfere(db: Db)
    requires db == Team(Executing, [Asked("k", ReqSettled), Asked(AGAIN, Queued)], [DONE])
    ensures ReachedByAsking(db)
    ensures EnqueueKnowledge(db, 0, "K", "Prepare", None, 6) == Ok((db, 1))
    ensures IdFromSource(db.requests[1].sourceId.text) == "k" && SelectsForeign(db.requests, 0, "K")
  {
    TwiceAskedReached();
    OtherIsHandedBack(db);
    IdsArePlain();
    SourceRecovers("k", 2);
    ForeignIffCaseVariant(db.requests, 0, "K", 1, "k", 2);
    assert "k"[0] != "K"[0];
    assert ForeignRow(db.requests, 0, "K", 1);
  }
}
