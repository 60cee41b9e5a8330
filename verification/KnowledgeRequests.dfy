/**
  Knowledge requests over whole histories of the cycle protocol: for ids that stay apart, the
  attempts of an id are numbered 1, 2, 3, ..., only the last can be live, and no attempt meets
  an old row.
*/
module KnowledgeRequests {
  import opened Outcomes
  import opened Strings
  import opened CycleTables
  import opened CycleSteps
  import opened CycleRuns
  import opened KnowledgeAttempts

  // ---- the service ----

  predicate KnowledgeRow(q: Request, r: RunId) {
    q.run == r && q.source == Knowledge && q.sourceId.Text?
  }

  // The rows the select returns, in insertion order.
  function Selected(requests: seq<Request>, r: RunId, id: string): seq<RequestId> {
    if requests == [] then []
    else
      var last := |requests| - 1;
      Selected(requests[..last], r, id)
      + if KnowledgeRow(requests[last], r) && Matches(requests[last].sourceId.text, id) then [last] else []
  }

  ghost predicate RowsIn(requests: seq<Request>, rows: seq<RequestId>) {
    forall j :: 0 <= j < |rows| ==> rows[j] < |requests| && requests[rows[j]].sourceId.Text?
  }

  function FirstLive(requests: seq<Request>, rows: seq<RequestId>): (found: Option<RequestId>)
    requires RowsIn(requests, rows)
    ensures found.Some? ==> found.value in rows && Live(requests[found.value].status)
    ensures found.None? ==> forall j :: 0 <= j < |rows| ==> !Live(requests[rows[j]].status)
  {
    if rows == [] then None
    else if Live(requests[rows[0]].status) then Some(rows[0])
    else
      var rest := FirstLive(requests, rows[1..]);
      assert rest.None? ==> forall j :: 1 <= j < |rows| ==> rows[j] == rows[1..][j - 1];
      rest
  }

  function LastAttempt(requests: seq<Request>, rows: seq<RequestId>, id: string): nat
    requires RowsIn(requests, rows)
  {
    if rows == [] then 0
    else
      var last := |rows| - 1;
      var rest, attempt := LastAttempt(requests, rows[..last], id), Attempt(requests[rows[last]].sourceId.text, id);
      if attempt > rest then attempt else rest
  }

  lemma {:induction false} SelectedRows(requests: seq<Request>, r: RunId, id: string)
    ensures RowsIn(requests, Selected(requests, r, id))
  {
    if requests != [] {
      SelectedRows(requests[..|requests| - 1], r, id);
    }
  }

  function EnqueueKnowledge(
    db: Db, r: RunId, rawId: string, instruction: string, previous: Option<CycleId>, now: int
  ): Result<(Db, RequestId), CycleError> {
    var id := Strip(rawId);
    if id == "" then Err(BlankSource)
    else
      var rows := Selected(db.requests, r, id);
      SelectedRows(db.requests, r, id);
      var active := FirstLive(db.requests, rows);
      if active.Some? then Ok((db, active.value))
      else
        var source := if rows == [] then id else AttemptText(id, LastAttempt(db.requests, rows, id) + 1);
        Enqueue(db, r, NewRequest(Knowledge, Text(source), instruction, previous, false, None, None, None), now)
  }

  // latest_knowledge_request_attempt
  function LatestAttempt(db: Db, r: RunId, rawId: string): Option<RequestId> {
    var rows := Selected(db.requests, r, Strip(rawId));
    if Strip(rawId) == "" || rows == [] then None else Some(rows[|rows| - 1])
  }

  // ---- what holds of the rows ----

  // The rows whose id is recovered as this one.
  function Own(requests: seq<Request>, r: RunId, id: string): (rows: seq<RequestId>)
    ensures RowsIn(requests, rows)
    ensures forall j :: 0 <= j < |rows| ==>
        KnowledgeRow(requests[rows[j]], r) && IdFromSource(requests[rows[j]].sourceId.text) == id
  {
    if requests == [] then []
    else
      var last := |requests| - 1;
      Own(requests[..last], r, id)
      + if KnowledgeRow(requests[last], r) && IdFromSource(requests[last].sourceId.text) == id then [last] else []
  }

  // Attempt j + 1 is the j-th row, and only the last may be live.
  ghost predicate Numbered(requests: seq<Request>, r: RunId, id: string) {
    var rows := Own(requests, r, id);
    && (forall j :: 0 <= j < |rows| ==> requests[rows[j]].sourceId == Text(AttemptText(id, j + 1)))
    && (forall j :: 0 <= j < |rows| - 1 ==> !Live(requests[rows[j]].status))
  }

  ghost predicate Formed(source: SourceId, ids: set<string>) {
    source.Text? && exists id, k: nat :: id in ids && k >= 1 && source.text == AttemptText(id, k)
  }

  ghost predicate AttemptsOk(requests: seq<Request>, ids: set<string>) {
    && (forall i :: 0 <= i < |requests| && requests[i].source == Knowledge ==> Formed(requests[i].sourceId, ids))
    && (forall r: RunId, id :: id in ids ==> Numbered(requests, r, id))
  }

  lemma {:induction false} OwnFinds(requests: seq<Request>, r: RunId, id: string, i: RequestId)
    requires i < |requests| && KnowledgeRow(requests[i], r) && IdFromSource(requests[i].sourceId.text) == id
    ensures exists j :: 0 <= j < |Own(requests, r, id)| && Own(requests, r, id)[j] == i
  {
    var last, rows := |requests| - 1, Own(requests, r, id);
    if i == last {
      assert rows[|rows| - 1] == i;
    } else {
      var init := Own(requests[..last], r, id);
      OwnFinds(requests[..last], r, id, i);
      var j :| 0 <= j < |init| && init[j] == i;
      assert rows[j] == i;
    }
  }

  lemma FormedMatches(source: SourceId, ids: set<string>, id: string)
    requires Apart(ids) && id in ids && Formed(source, ids)
    ensures Matches(source.text, id) <==> IdFromSource(source.text) == id
  {
    var other, k: nat :| other in ids && k >= 1 && source.text == AttemptText(other, k);
    SourceRecovers(other, k);
    MatchesIffSameFolded(source.text, id, other, k);
  }

  // The select finds exactly the rows of its id.
  lemma {:induction false} SelectedIsOwn(requests: seq<Request>, ids: set<string>, r: RunId, id: string)
    requires Apart(ids) && id in ids
    requires forall i :: 0 <= i < |requests| && requests[i].source == Knowledge ==> Formed(requests[i].sourceId, ids)
    ensures Selected(requests, r, id) == Own(requests, r, id)
  {
    if requests != [] {
      var last := |requests| - 1;
      SelectedIsOwn(requests[..last], ids, r, id);
      if KnowledgeRow(requests[last], r) {
        FormedMatches(requests[last].sourceId, ids, id);
      }
    }
  }

  lemma {:induction false} LastAttemptIsCount(requests: seq<Request>, rows: seq<RequestId>, id: string)
    requires Plain(id) && RowsIn(requests, rows)
    requires forall j :: 0 <= j < |rows| ==> requests[rows[j]].sourceId == Text(AttemptText(id, j + 1))
    ensures LastAttempt(requests, rows, id) == |rows|
  {
    if rows != [] {
      LastAttemptIsCount(requests, rows[..|rows| - 1], id);
      SourceRecovers(id, |rows|);
    }
  }

  // ---- steps that queue no knowledge request ----

  ghost predicate Grown(before: seq<Request>, after: seq<Request>) {
    && |before| <= |after|
    && (forall i :: 0 <= i < |before| ==>
          && after[i].run == before[i].run && after[i].source == before[i].source
              && after[i].sourceId == before[i].sourceId
          && (!Live(before[i].status) ==> !Live(after[i].status)))
    && (forall i :: |before| <= i < |after| ==> after[i].source != Knowledge)
  }

  lemma GrownCompose(a: seq<Request>, b: seq<Request>, c: seq<Request>)
    requires Grown(a, b) && Grown(b, c)
    ensures Grown(a, c)
  {
    forall i | |a| <= i < |c| ensures c[i].source != Knowledge {
      assert i < |b| ==> b[i].source != Knowledge;
    }
  }

  lemma EnqueueGrows(db: Db, r: RunId, row: NewRequest, now: int)
    requires row.source != Knowledge
    ensures Enqueue(db, r, row, now).Ok? ==> Grown(db.requests, Enqueue(db, r, row, now).value.0.requests)
  {
  }

  lemma TickOneGrows(db: Db, s: SeriesId, now: int)
    requires s < |db.series|
    ensures TickOne(db, s, now).Ok? ==> Grown(db.requests, TickOne(db, s, now).value.0.requests)
  {
    var previous := LatestFinal(db.cycles, db.series[s].run);
    var instruction := AutoInstruction(db.runs, db.cycles, db.series[s].run, previous);
    if instruction.Ok? && instruction.value.Some? {
      EnqueueGrows(db, db.series[s].run, NextSlot(db, s, previous, instruction.value.value), now);
    }
  }

  lemma {:induction false} TickGrows(db: Db, due: seq<SeriesId>, now: int)
    ensures Tick(db, due, now).Ok? ==> Grown(db.requests, Tick(db, due, now).value.0.requests)
    decreases |due|
  {
    if due != [] && due[0] < |db.series| {
      var one := TickOne(db, due[0], now);
      TickOneGrows(db, due[0], now);
      if one.Ok? {
        TickGrows(one.value.0, due[1..], now);
        if Tick(one.value.0, due[1..], now).Ok? {
          GrownCompose(db.requests, one.value.0.requests, Tick(db, due, now).value.0.requests);
        }
      }
    }
  }

  lemma NewSeriesGrows(db: Db, r: RunId, target: int, interval: int, now: int, first: Option<string>)
    ensures var made := InitializeSeries(db, r, target, interval, now, first); made.Ok? ==>
        Grown(db.requests, made.value.0.requests)
  {
  }

  lemma QueueingStepGrows(db: Db, op: Op)
    requires op.EnqueueOp? || op.CreateSeriesOp? || op.RestartOp? || op.RetryOp? || op.TickOp?
    requires op.EnqueueOp? ==> op.row.source != Knowledge
    ensures Grown(db.requests, Apply(db, op).requests)
  {
    match op
    case CreateSeriesOp(r, target, interval, first, now) => NewSeriesGrows(db, r, target, interval, now, first);
    case RestartOp(r, now) =>
      var latest := LatestSeries(db.series, r);
      if latest.Some? {
        NewSeriesGrows(db, r, db.series[latest.value].target, db.series[latest.value].interval, now, None);
      }
    case TickOp(due, now) => TickGrows(db, due, now);
    case EnqueueOp(_, _, _) =>
    case RetryOp(_, _, _) =>
  }

  lemma OtherStepGrows(db: Db, op: Op)
    requires op.EnqueueOp? ==> op.row.source != Knowledge
    ensures Grown(db.requests, Apply(db, op).requests)
  {
    if op.EnqueueOp? || op.CreateSeriesOp? || op.RestartOp? || op.RetryOp? || op.TickOp? {
      QueueingStepGrows(db, op);
    }
  }

  lemma {:induction false} OwnKept(before: seq<Request>, after: seq<Request>, r: RunId, id: string)
    requires Grown(before, after)
    ensures Own(after, r, id) == Own(before, r, id)
    decreases |after|
  {
    if |after| > |before| {
      OwnKept(before, after[..|after| - 1], r, id);
    } else if after != [] {
      OwnKept(before[..|before| - 1], after[..|after| - 1], r, id);
    }
  }

  lemma GrownKeepsAttempts(before: seq<Request>, after: seq<Request>, ids: set<string>)
    requires Grown(before, after) && AttemptsOk(before, ids)
    ensures AttemptsOk(after, ids)
  {
    forall r: RunId, id | id in ids ensures Numbered(after, r, id) {
      OwnKept(before, after, r, id);
      assert Numbered(before, r, id);
    }
  }

  // ---- the knowledge step ----

  predicate IsNewAttempt(before: seq<Request>, after: seq<Request>, r: RunId, id: string, n: nat) {
    && |after| == |before| + 1 && after[..|before|] == before
    && KnowledgeRow(after[|before|], r) && after[|before|].sourceId == Text(AttemptText(id, n + 1))
    && after[|before|].status == Queued
  }

  lemma AttemptTextsDiffer(id: string, m: nat, n: nat)
    requires Plain(id) && 1 <= m && 1 <= n
    ensures AttemptText(id, m) == AttemptText(id, n) ==> m == n
  {
    SourceRecovers(id, m);
    SourceRecovers(id, n);
  }

  // No row of the id has the name of its next attempt.
  lemma {:induction false} EarlierNames(requests: seq<Request>, rows: seq<RequestId>, id: string, j: nat)
    requires Plain(id) && j < |rows| && rows[j] < |requests|
    requires requests[rows[j]].sourceId == Text(AttemptText(id, j + 1))
    ensures requests[rows[j]].sourceId != Text(AttemptText(id, |rows| + 1))
  {
    AttemptTextsDiffer(id, j + 1, |rows| + 1);
  }

  lemma {:induction false} OwnRowIsEarlier(requests: seq<Request>, r: RunId, id: string, j: nat)
    requires Plain(id) && Numbered(requests, r, id) && j < |Own(requests, r, id)|
    ensures requests[Own(requests, r, id)[j]].sourceId != Text(AttemptText(id, |Own(requests, r, id)| + 1))
  {
    var rows := Own(requests, r, id);
    EarlierNames(requests, rows, id, j);
  }

  // A new attempt never meets an old row.
  lemma NewAttemptIsUnknown(requests: seq<Request>, ids: set<string>, r: RunId, id: string)
    requires Apart(ids) && id in ids && AttemptsOk(requests, ids)
    ensures FindSource(requests, r, Knowledge, Text(AttemptText(id, |Own(requests, r, id)| + 1))).None?
  {
    var text := AttemptText(id, |Own(requests, r, id)| + 1);
    assert IdFromSource(text) == id by { SourceRecovers(id, |Own(requests, r, id)| + 1); }
    var met := FindSource(requests, r, Knowledge, Text(text));
    if met.Some? {
      OwnFinds(requests, r, id, met.value);
      var j :| 0 <= j < |Own(requests, r, id)| && Own(requests, r, id)[j] == met.value;
      OwnRowIsEarlier(requests, r, id, j);
    }
  }

  // It is refused by a gate or inserted.
  lemma NewAttemptIsInserted(db: Db, ids: set<string>, r: RunId, id: string, row: NewRequest, now: int)
    requires Apart(ids) && id in ids && AttemptsOk(db.requests, ids)
    requires row.source == Knowledge && row.series.None?
    requires row.sourceId == Text(AttemptText(id, |Own(db.requests, r, id)| + 1))
    ensures Enqueue(db, r, row, now).Ok? ==>
      && Enqueue(db, r, row, now).value.1 == |db.requests|
      && IsNewAttempt(db.requests, Enqueue(db, r, row, now).value.0.requests, r, id, |Own(db.requests, r, id)|)
  {
    NewAttemptIsUnknown(db.requests, ids, r, id);
  }

  // The rows of an id, with one more that is its next attempt.
  lemma {:induction false} OneMoreAttempt(before: seq<Request>, after: seq<Request>, rows: seq<RequestId>,
      added: seq<RequestId>, id: string)
    requires forall j :: 0 <= j < |rows| ==> rows[j] < |before| && before[rows[j]].sourceId == Text(AttemptText(id, j + 1))
    requires |after| == |before| + 1 && forall i :: 0 <= i < |before| ==> after[i] == before[i]
    requires added == [] || (added == [|before|] && after[|before|].sourceId == Text(AttemptText(id, |rows| + 1)))
    requires forall j :: 0 <= j < |rows| - (if added == [] then 1 else 0) ==> !Live(before[rows[j]].status)
    ensures var grown := rows + added;
      && (forall j :: 0 <= j < |grown| ==>
            grown[j] < |after| && after[grown[j]].sourceId == Text(AttemptText(id, j + 1)))
      && (forall j :: 0 <= j < |grown| - 1 ==> !Live(after[grown[j]].status))
  {
    var grown := rows + added;
    forall j | 0 <= j < |grown|
      ensures grown[j] < |after| && after[grown[j]].sourceId == Text(AttemptText(id, j + 1))
      ensures j < |grown| - 1 ==> !Live(after[grown[j]].status)
    {
      if j < |rows| {
        assert grown[j] == rows[j];
      }
    }
  }

  lemma {:induction false} NewAttemptNumbered(before: seq<Request>, after: seq<Request>, r: RunId, id: string,
      q: RunId, other: string)
    requires Plain(id) && IsNewAttempt(before, after, r, id, |Own(before, r, id)|)
    requires forall j :: 0 <= j < |Own(before, r, id)| ==> !Live(before[Own(before, r, id)[j]].status)
    requires Numbered(before, q, other)
    ensures Numbered(after, q, other)
  {
    var rows := Own(before, q, other);
    OwnWithNew(before, after, r, id, |Own(before, r, id)|, q, other);
    var added: seq<RequestId> := if q == r && other == id then [|before|] else [];
    OneMoreAttempt(before, after, rows, added, other);
    assert Own(after, q, other) == rows + added;
  }

  lemma OwnWithNew(before: seq<Request>, after: seq<Request>, r: RunId, id: string, n: nat, q: RunId, other: string)
    requires Plain(id) && IsNewAttempt(before, after, r, id, n)
    ensures Own(after, q, other) == Own(before, q, other) + if q == r && other == id then [|before|] else []
    ensures forall i :: 0 <= i < |before| ==> after[i] == before[i]
  {
    var last, added := |before|, after[|before|];
    assert |after| - 1 == last && after[..last] == before;
    assert IdFromSource(added.sourceId.text) == id by { SourceRecovers(id, n + 1); }
    assert forall i :: 0 <= i < last ==> after[i] == after[..last][i];
  }

  lemma NewAttemptKeepsAttempts(before: seq<Request>, after: seq<Request>, ids: set<string>, r: RunId, id: string)
    requires Apart(ids) && id in ids && AttemptsOk(before, ids)
    requires IsNewAttempt(before, after, r, id, |Own(before, r, id)|)
    requires forall j :: 0 <= j < |Own(before, r, id)| ==> !Live(before[Own(before, r, id)[j]].status)
    ensures AttemptsOk(after, ids)
  {
    forall q: RunId, other | other in ids ensures Numbered(after, q, other) {
      assert Numbered(before, q, other);
      NewAttemptNumbered(before, after, r, id, q, other);
    }
    forall i | 0 <= i < |after| && after[i].source == Knowledge ensures Formed(after[i].sourceId, ids) {
      if i < |before| {
        assert after[i] == before[i];
      }
    }
  }

  /**
    A knowledge request returns a live request of its own id: the one already there, or a new
    attempt numbered one higher than the attempts so far.
  */
  lemma KnowledgeStep(db: Db, ids: set<string>, r: RunId, rawId: string, instruction: string,
      previous: Option<CycleId>, now: int)
    requires Apart(ids) && Strip(rawId) in ids && AttemptsOk(db.requests, ids)
    ensures var step, id := EnqueueKnowledge(db, r, rawId, instruction, previous, now), Strip(rawId);
      step.Ok? ==>
        var (after, q) := step.value;
        && AttemptsOk(after.requests, ids)
        && q < |after.requests| && KnowledgeRow(after.requests[q], r) && Live(after.requests[q].status)
        && IdFromSource(after.requests[q].sourceId.text) == id
        && (after == db || IsNewAttempt(db.requests, after.requests, r, id, |Own(db.requests, r, id)|))
        && (after != db ==> forall j :: 0 <= j < |Own(db.requests, r, id)| ==>
            !Live(db.requests[Own(db.requests, r, id)[j]].status))
  {
    var id := Strip(rawId);
    var rows := Own(db.requests, r, id);
    SelectedIsOwn(db.requests, ids, r, id);
    assert Numbered(db.requests, r, id);
    if FirstLive(db.requests, rows).None? {
      LastAttemptIsCount(db.requests, rows, id);
      var row := NewRequest(Knowledge, Text(AttemptText(id, |rows| + 1)), instruction, previous, false, None, None,
          None);
      NewAttemptIsInserted(db, ids, r, id, row, now);
      SourceRecovers(id, |rows| + 1);
      if Enqueue(db, r, row, now).Ok? {
        NewAttemptKeepsAttempts(db.requests, Enqueue(db, r, row, now).value.0.requests, ids, r, id);
      }
    }
  }

  // The attempt looked up later is the highest numbered one.
  lemma LatestIsHighest(db: Db, ids: set<string>, r: RunId, rawId: string)
    requires Apart(ids) && Strip(rawId) in ids && AttemptsOk(db.requests, ids)
    ensures var n, latest := |Own(db.requests, r, Strip(rawId))|, LatestAttempt(db, r, rawId);
      && (n == 0 <==> latest.None?)
      && (latest.Some? ==>
          latest.value < |db.requests| && db.requests[latest.value].sourceId == Text(AttemptText(Strip(rawId), n)))
  {
    SelectedIsOwn(db.requests, ids, r, Strip(rawId));
    assert Numbered(db.requests, r, Strip(rawId));
  }

  // ---- histories ----

  datatype KnowledgeOp =
    | RequestKnowledge(run: RunId, rawId: string, instruction: string, previous: Option<CycleId>, now: int)
    | Other(op: Op)

  function ApplyKnowledge(db: Db, op: KnowledgeOp): Db {
    match op
    case RequestKnowledge(r, rawId, instruction, previous, now) =>
      var step := EnqueueKnowledge(db, r, rawId, instruction, previous, now); if step.Ok? then step.value.0 else db
    case Other(other) => Apply(db, other)
  }

  // Knowledge requests go through their own method.
  ghost predicate KnowledgeSteps(states: seq<Db>, ops: seq<KnowledgeOp>) {
    && |states| == |ops| + 1 && states[0] == EMPTY
    && (forall k :: 0 <= k < |ops| ==> states[k + 1] == ApplyKnowledge(states[k], ops[k]))
    && (forall k :: 0 <= k < |ops| ==> ops[k].Other? && ops[k].op.EnqueueOp? ==> ops[k].op.row.source != Knowledge)
  }

  // They name ids from a set that stays apart.
  ghost predicate KnowledgeHistory(states: seq<Db>, ops: seq<KnowledgeOp>, ids: set<string>) {
    && KnowledgeSteps(states, ops) && Apart(ids)
    && (forall k :: 0 <= k < |ops| && ops[k].RequestKnowledge? ==> Strip(ops[k].rawId) in ids)
  }

  lemma KnowledgeOpKeepsAttempts(db: Db, op: KnowledgeOp, ids: set<string>)
    requires Apart(ids) && AttemptsOk(db.requests, ids)
    requires op.RequestKnowledge? ==> Strip(op.rawId) in ids
    requires op.Other? && op.op.EnqueueOp? ==> op.op.row.source != Knowledge
    ensures AttemptsOk(ApplyKnowledge(db, op).requests, ids)
  {
    match op
    case RequestKnowledge(q, rawId, instruction, previous, now) => KnowledgeStep(db, ids, q, rawId, instruction,
        previous, now);
    case Other(other) =>
      OtherStepGrows(db, other);
      GrownKeepsAttempts(db.requests, ApplyKnowledge(db, op).requests, ids);
  }

  lemma {:induction false} AttemptsOkInHistory(states: seq<Db>, ops: seq<KnowledgeOp>, ids: set<string>, k: nat)
    requires KnowledgeHistory(states, ops, ids) && k <= |ops|
    ensures AttemptsOk(states[k].requests, ids)
  {
    if k == 0 {
      assert forall q: RunId, other :: Own([], q, other) == [];
    } else {
      AttemptsOkInHistory(states, ops, ids, k - 1);
      assert states[k - 1 + 1] == ApplyKnowledge(states[k - 1], ops[k - 1]);
      KnowledgeOpKeepsAttempts(states[k - 1], ops[k - 1], ids);
    }
  }

  /**
    In every history the attempts of every id are numbered 1, 2, 3, ... without gaps, at most
    the last is live, and the select of an id finds exactly its attempts.
  */
  lemma AttemptsInEveryHistory(states: seq<Db>, ops: seq<KnowledgeOp>, ids: set<string>, k: nat, r: RunId, id: string)
    requires KnowledgeHistory(states, ops, ids) && k <= |ops| && id in ids
    ensures AttemptsOk(states[k].requests, ids)
    ensures Numbered(states[k].requests, r, id) && Selected(states[k].requests, r, id) == Own(states[k].requests, r, id)
  {
    AttemptsOkInHistory(states, ops, ids, k);
    SelectedIsOwn(states[k].requests, ids, r, id);
  }

  // ---- why the ids must stay apart ----

  // The select of an id returns this row, which is of another id.
  predicate ForeignRow(requests: seq<Request>, r: RunId, id: string, i: RequestId)
    requires i < |requests|
  {
    && KnowledgeRow(requests[i], r)
    && Matches(requests[i].sourceId.text, id) && IdFromSource(requests[i].sourceId.text) != id
  }

  ghost predicate SelectsForeign(requests: seq<Request>, r: RunId, id: string) {
    exists i :: 0 <= i < |requests| && ForeignRow(requests, r, id, i)
  }

  lemma {:induction false} SelectedFinds(requests: seq<Request>, r: RunId, id: string, i: RequestId)
    requires i < |requests| && KnowledgeRow(requests[i], r) && Matches(requests[i].sourceId.text, id)
    ensures i in Selected(requests, r, id)
  {
    if i < |requests| - 1 { SelectedFinds(requests[..|requests| - 1], r, id, i); }
  }

  lemma {:induction false} NothingForeign(requests: seq<Request>, r: RunId, id: string)
    requires NoWildcard(id) && !SelectsForeign(requests, r, id)
    ensures Selected(requests, r, id) == Own(requests, r, id)
  {
    if requests != [] {
      var last := |requests| - 1;
      forall i | 0 <= i < last ensures !ForeignRow(requests[..last], r, id, i) {
        assert !ForeignRow(requests, r, id, i);
      }
      NothingForeign(requests[..last], r, id);
      assert !ForeignRow(requests, r, id, last);
      if KnowledgeRow(requests[last], r) && IdFromSource(requests[last].sourceId.text) == id {
        OwnSourceMatches(requests[last].sourceId.text, id);
      }
    }
  }

  /**
    On any tables whatever, the select of an id without wildcards finds exactly the rows of that
    id if and only if it returns no row from which another id is recovered.
  */
  lemma SelectedIsOwnIff(requests: seq<Request>, r: RunId, id: string)
    requires NoWildcard(id)
    ensures Selected(requests, r, id) == Own(requests, r, id) <==> !SelectsForeign(requests, r, id)
  {
    if SelectsForeign(requests, r, id) {
      var i :| 0 <= i < |requests| && ForeignRow(requests, r, id, i);
      SelectedFinds(requests, r, id, i);
    } else {
      NothingForeign(requests, r, id);
    }
  }

  // Among the sources of plain ids those rows are the later attempts of the ids that differ only in case.
  lemma ForeignIffCaseVariant(
    requests: seq<Request>, r: RunId, id: string, i: RequestId, other: string, attempt: nat
  )
    requires i < |requests| && KnowledgeRow(requests[i], r) && Plain(id) && Plain(other) && attempt >= 1
    requires requests[i].sourceId.text == AttemptText(other, attempt)
    ensures ForeignRow(requests, r, id, i) <==> other != id && attempt >= 2 && SameFolded(id, other)
  {
    SourceRecovers(other, attempt);
    MatchesIffSameFolded(AttemptText(other, attempt), id, other, attempt);
  }
}
