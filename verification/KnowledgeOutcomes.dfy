/**
  What asking for knowledge answers and writes, in terms of the rows of the table and the names of
  the attempts as they are stored.
*/
module KnowledgeOutcomes {
  import opened Outcomes
  import opened Strings
  import opened CycleTables
  import opened CycleSteps
  import opened CycleOutcomes
  import opened KnowledgeAttempts
  import opened KnowledgeRequests

  // Decimal numbers are written with the highest digit first and no leading zero.
  lemma {:induction false} DecimalDigits(n: nat, d: nat)
    requires d < 10
    ensures Decimal(10 * n + d) == if n == 0 then ["0123456789"[d]] else Decimal(n) + ["0123456789"[d]]
  {
  }

  // The stored name of the k-th attempt.
  function StoredName(id: string, k: nat): string {
    if k == 1 then id else id + "#attempt-" + Decimal(k)
  }

  ghost predicate IsAttempt(q: Request, r: RunId, id: string, k: nat) {
    k >= 1 && q.run == r && q.source == Knowledge && q.sourceId == Text(StoredName(id, k))
  }

  // A row of the run that is some attempt of the id.
  ghost predicate OfId(q: Request, r: RunId, id: string) { exists k: nat :: IsAttempt(q, r, id, k) }

  predicate Waiting(q: Request) { q.status == Queued || q.status == Dispatching }

  ghost predicate LiveAttempt(db: Db, r: RunId, id: string, i: RequestId) {
    i < |db.requests| && OfId(db.requests[i], r, id) && Waiting(db.requests[i])
  }

  ghost predicate AttemptExists(db: Db, r: RunId, id: string, k: nat) {
    exists i :: 0 <= i < |db.requests| && IsAttempt(db.requests[i], r, id, k)
  }

  // The attempts there are, are the first n.
  ghost predicate AttemptsAre(db: Db, r: RunId, id: string, n: nat) {
    forall k: nat :: AttemptExists(db, r, id, k) <==> 1 <= k <= n
  }

  function AskedRow(id: string, k: nat, instruction: string, previous: Option<CycleId>): NewRequest {
    NewRequest(Knowledge, Text(StoredName(id, k)), instruction, previous, false, None, None, None)
  }

  lemma NamesAgree(id: string, k: nat)
    requires k >= 1
    ensures StoredName(id, k) == AttemptText(id, k)
  {
  }

  lemma {:induction false} OwnIsOfId(db: Db, ids: set<string>, r: RunId, id: string, i: RequestId)
    requires Apart(ids) && id in ids && AttemptsOk(db.requests, ids) && i < |db.requests|
    ensures OfId(db.requests[i], r, id) <==>
        exists j :: 0 <= j < |Own(db.requests, r, id)| && Own(db.requests, r, id)[j] == i
  {
    var rows := Own(db.requests, r, id);
    assert Numbered(db.requests, r, id);
    if OfId(db.requests[i], r, id) {
      var k: nat :| IsAttempt(db.requests[i], r, id, k);
      NamesAgree(id, k);
      SourceRecovers(id, k);
      OwnFinds(db.requests, r, id, i);
    }
    if exists j :: 0 <= j < |rows| && rows[j] == i {
      var j :| 0 <= j < |rows| && rows[j] == i;
      NamesAgree(id, j + 1);
      assert IsAttempt(db.requests[i], r, id, j + 1);
    }
  }

  lemma {:induction false} AttemptIsCounted(db: Db, ids: set<string>, r: RunId, id: string, k: nat)
    requires Apart(ids) && id in ids && AttemptsOk(db.requests, ids) && AttemptExists(db, r, id, k)
    ensures 1 <= k <= |Own(db.requests, r, id)|
  {
    var rows := Own(db.requests, r, id);
    var i :| 0 <= i < |db.requests| && IsAttempt(db.requests[i], r, id, k);
    assert OfId(db.requests[i], r, id);
    OwnIsOfId(db, ids, r, id, i);
    var j :| 0 <= j < |rows| && rows[j] == i;
    NameOfOwn(db.requests, ids, r, id, j);
    NameIsItsNumber(db.requests[i].sourceId, id, j + 1, k);
  }

  lemma {:induction false} NameOfOwn(requests: seq<Request>, ids: set<string>, r: RunId, id: string, j: nat)
    requires id in ids && AttemptsOk(requests, ids) && j < |Own(requests, r, id)|
    ensures requests[Own(requests, r, id)[j]].sourceId == Text(AttemptText(id, j + 1))
  {
    assert Numbered(requests, r, id);
  }

  lemma {:induction false} NameIsItsNumber(source: SourceId, id: string, j: nat, k: nat)
    requires Plain(id) && j >= 1 && k >= 1 && source == Text(AttemptText(id, j)) && source == Text(StoredName(id, k))
    ensures j == k
  {
    NamesAgree(id, k);
    AttemptTextsDiffer(id, j, k);
  }

  lemma {:induction false} CountedExists(db: Db, ids: set<string>, r: RunId, id: string, k: nat)
    requires id in ids && AttemptsOk(db.requests, ids) && 1 <= k <= |Own(db.requests, r, id)|
    ensures AttemptExists(db, r, id, k)
  {
    assert Numbered(db.requests, r, id);
    NamesAgree(id, k);
    var i := Own(db.requests, r, id)[k - 1];
    assert db.requests[i].sourceId == Text(AttemptText(id, k - 1 + 1));
    assert IsAttempt(db.requests[i], r, id, k);
  }

  lemma {:induction false} AttemptsAreOwn(db: Db, ids: set<string>, r: RunId, id: string)
    requires Apart(ids) && id in ids && AttemptsOk(db.requests, ids)
    ensures AttemptsAre(db, r, id, |Own(db.requests, r, id)|)
  {
    forall k: nat ensures AttemptExists(db, r, id, k) <==> 1 <= k <= |Own(db.requests, r, id)| {
      if 1 <= k <= |Own(db.requests, r, id)| {
        CountedExists(db, ids, r, id, k);
      }
      if AttemptExists(db, r, id, k) {
        AttemptIsCounted(db, ids, r, id, k);
      }
    }
  }

  lemma {:induction false} CountIsUnique(db: Db, r: RunId, id: string, m: nat, n: nat)
    requires AttemptsAre(db, r, id, m) && AttemptsAre(db, r, id, n)
    ensures m == n
  {
    assert AttemptExists(db, r, id, m) <==> 1 <= m <= n;
    assert AttemptExists(db, r, id, n) <==> 1 <= n <= m;
  }

  /**
    Asking for an id returns its live attempt and changes nothing when there is one. Otherwise it
    queues attempt n + 1 after n earlier ones, with the instruction and context asked for, exactly
    when the run takes such requests.
  */
  lemma {:induction false} AskingDecides(db: Db, ids: set<string>, r: RunId, rawId: string, instruction: string,
      previous: Option<CycleId>, now: int, n: nat)
    requires Apart(ids) && Strip(rawId) in ids && AttemptsOk(db.requests, ids)
    requires AttemptsAre(db, r, Strip(rawId), n)
    ensures var step, id := EnqueueKnowledge(db, r, rawId, instruction, previous, now), Strip(rawId);
      var row := AskedRow(id, n + 1, instruction, previous);
      if exists i :: LiveAttempt(db, r, id, i) then
        step.Ok? && step.value.0 == db && LiveAttempt(db, r, id, step.value.1)
      else
        && (step.Ok? <==> Takes(db, r) && db.runs[r].policy == TriggeredPolicy && GoodContext(db, r, row))
        && (step.Ok? ==>
             && step.value.1 == |db.requests| && Adds(db, step.value.0, r, row, now)
             && step.value.0.series == db.series)
  {
    var id := Strip(rawId);
    SelectedIsOwn(db.requests, ids, r, id);
    LiveIsFound(db, ids, r, id);
    if !exists i :: LiveAttempt(db, r, id, i) {
      AttemptsAreOwn(db, ids, r, id);
      CountIsUnique(db, r, id, n, |Own(db.requests, r, id)|);
      NewAttemptDecides(db, ids, r, rawId, instruction, previous, now, n);
    }
  }

  lemma {:induction false} LiveIsFound(db: Db, ids: set<string>, r: RunId, id: string)
    requires Apart(ids) && id in ids && AttemptsOk(db.requests, ids)
    ensures var found := FirstLive(db.requests, Own(db.requests, r, id));
      if exists i :: LiveAttempt(db, r, id, i) then found.Some? && LiveAttempt(db, r, id, found.value)
      else found.None?
  {
    var rows := Own(db.requests, r, id);
    var found := FirstLive(db.requests, rows);
    if found.Some? {
      var j :| 0 <= j < |rows| && rows[j] == found.value;
      LiveOwnIsAttempt(db, ids, r, id, j);
    } else {
      forall i: RequestId ensures !LiveAttempt(db, r, id, i) { NotLiveAttempt(db, ids, r, id, i); }
    }
  }

  lemma {:induction false} LiveOwnIsAttempt(db: Db, ids: set<string>, r: RunId, id: string, j: nat)
    requires id in ids && AttemptsOk(db.requests, ids) && j < |Own(db.requests, r, id)|
    requires Live(db.requests[Own(db.requests, r, id)[j]].status)
    ensures LiveAttempt(db, r, id, Own(db.requests, r, id)[j])
  {
    NameOfOwn(db.requests, ids, r, id, j);
    NamesAgree(id, j + 1);
    assert IsAttempt(db.requests[Own(db.requests, r, id)[j]], r, id, j + 1);
  }

  lemma {:induction false} NotLiveAttempt(db: Db, ids: set<string>, r: RunId, id: string, i: RequestId)
    requires Apart(ids) && id in ids && AttemptsOk(db.requests, ids)
    requires FirstLive(db.requests, Own(db.requests, r, id)).None?
    ensures !LiveAttempt(db, r, id, i)
  {
    if i < |db.requests| {
      OwnIsOfId(db, ids, r, id, i);
    }
  }

  lemma {:induction false} NewAttemptDecides(db: Db, ids: set<string>, r: RunId, rawId: string, instruction: string,
      previous: Option<CycleId>, now: int, n: nat)
    requires Apart(ids) && Strip(rawId) in ids && AttemptsOk(db.requests, ids)
    requires var rows := Own(db.requests, r, Strip(rawId));
      |rows| == n && Selected(db.requests, r, Strip(rawId)) == rows && FirstLive(db.requests, rows).None?
    ensures var step, row := EnqueueKnowledge(db, r, rawId, instruction, previous, now),
        AskedRow(Strip(rawId), n + 1, instruction, previous);
      && (step.Ok? <==> Takes(db, r) && db.runs[r].policy == TriggeredPolicy && GoodContext(db, r, row))
      && (step.Ok? ==>
           && step.value.1 == |db.requests| && Adds(db, step.value.0, r, row, now)
           && step.value.0.series == db.series)
  {
    var id := Strip(rawId);
    assert Numbered(db.requests, r, id);
    LastAttemptIsCount(db.requests, Own(db.requests, r, id), id);
    NamesAgree(id, n + 1);
    var row := AskedRow(id, n + 1, instruction, previous);
    NewNameIsUnseen(db, ids, r, id, row);
    NotBlank(id, n + 1);
    TriggeredAcceptedIff(db, r, row, now);
    assert EnqueueKnowledge(db, r, rawId, instruction, previous, now) == Enqueue(db, r, row, now);
  }

  lemma NotBlank(id: string, k: nat)
    requires Plain(id)
    ensures StoredName(id, k) != ""
  {
  }

  lemma {:induction false} NewNameIsUnseen(db: Db, ids: set<string>, r: RunId, id: string, row: NewRequest)
    requires Apart(ids) && id in ids && AttemptsOk(db.requests, ids)
    requires row.source == Knowledge && row.sourceId == Text(AttemptText(id, |Own(db.requests, r, id)| + 1))
    ensures Unseen(db, r, row)
  {
    NewAttemptIsUnknown(db.requests, ids, r, id);
    UnseenIsNotFound(db, r, row);
  }

  // A blank id is refused whatever the tables hold, and has no latest attempt.
  lemma {:induction false} BlankIdIsRefused(db: Db, r: RunId, rawId: string, instruction: string,
      previous: Option<CycleId>, now: int)
    requires Strip(rawId) == ""
    ensures EnqueueKnowledge(db, r, rawId, instruction, previous, now) == Err(BlankSource)
    ensures LatestAttempt(db, r, rawId) == None
  {
  }
}
