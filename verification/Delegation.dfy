/**
  An owner delegates a knowledge request to a team: the request is enqueued in one transaction,
  its input artifacts and its team are recorded in later ones, and the run is put in the
  dispatcher's queue last. A refusal in between leaves the request queued and the dispatcher
  unaware of it.
*/
module Delegation {
  import opened Outcomes
  import opened Strings
  import opened CycleTables
  import opened CycleSteps
  import opened CycleRuns
  import opened CycleReconcile
  import opened KnowledgeRequests
  import opened Dispatcher

  datatype Refusal = BlankArtifact | RepeatedArtifact | ImmutableArtifacts | UnknownArtifact | MissingFile

  function Stripped(ids: seq<string>): seq<string> { seq(|ids|, k requires 0 <= k < |ids| => Strip(ids[k])) }

  predicate AllDifferent(ids: seq<string>) { forall i, j :: 0 <= i < j < |ids| ==> ids[i] != ids[j] }

  // The artifacts of the library, and whether their files are still there; the first bad id refuses.
  function FirstBad(files: map<string, bool>, ids: seq<string>): (bad: Option<Refusal>)
    ensures bad.None? <==> forall k :: 0 <= k < |ids| ==> ids[k] in files && files[ids[k]]
  {
    if ids == [] then None
    else if ids[0] !in files then Some(UnknownArtifact)
    else if !files[ids[0]] then Some(MissingFile)
    else
      var rest := FirstBad(files, ids[1..]);
      assert forall k :: 1 <= k < |ids| ==> ids[k] == ids[1..][k - 1];
      rest
  }

  // set_request_input_artifacts: the artifacts of the request afterwards.
  function Attach(attached: seq<string>, files: map<string, bool>, ids: seq<string>): Result<seq<string>, Refusal> {
    var normalized := Stripped(ids);
    if exists k :: 0 <= k < |normalized| && normalized[k] == "" then Err(BlankArtifact)
    else if !AllDifferent(normalized) then Err(RepeatedArtifact)
    else if attached != [] then
      if attached != normalized then Err(ImmutableArtifacts) else Ok(attached)
    else
      var bad := FirstBad(files, normalized);
      if bad.Some? then Err(bad.value) else Ok(normalized)
  }

  function KnowledgeOf(source: string, instruction: string, previous: Option<CycleId>): NewRequest {
    NewRequest(Knowledge, Text(source), instruction, previous, false, None, None, None)
  }

  // After the first transaction: the handler owes the dispatcher a wake-up.
  function Promised(
    d: System, r: RunId, rawId: string, instruction: string, previous: Option<CycleId>, now: int
  ): Result<System, CycleError> {
    var step := EnqueueKnowledge(d.db, r, rawId, instruction, previous, now);
    if step.Err? then Err(step.error) else Ok(d.(db := step.value.0, waking := d.waking + multiset{r}))
  }

  // The whole handler; accepted says whether the archive accepts the team.
  function Delegated(
    d: System, r: RunId, rawId: string, instruction: string, previous: Option<CycleId>, now: int,
    attached: seq<string>, files: map<string, bool>, ids: seq<string>, accepted: bool
  ): System {
    var promised := Promised(d, r, rawId, instruction, previous, now);
    if promised.Err? then d
    else Next(promised.value, if Attach(attached, files, ids).Ok? && accepted then Push(r) else BreakPromise(r))
  }

  /** A request without artifacts yet takes exactly the ids that are distinct, known and still on disk. */
  lemma AttachedIff(files: map<string, bool>, ids: seq<string>)
    ensures Attach([], files, ids).Ok? <==>
      && AllDifferent(Stripped(ids))
      && forall k :: 0 <= k < |ids| ==> Strip(ids[k]) != "" && Strip(ids[k]) in files && files[Strip(ids[k])]
  {
    var normalized := Stripped(ids);
    assert forall k :: 0 <= k < |ids| ==> normalized[k] == Strip(ids[k]);
  }

  predicate Good(files: map<string, bool>, id: string) { id in files && files[id] }

  // The first artifact that is not in the library, or whose file is gone.
  ghost predicate FirstRefused(files: map<string, bool>, ids: seq<string>, refusal: Refusal) {
    exists k :: 0 <= k < |ids| && RefusedAt(files, ids, k, refusal)
  }

  predicate RefusedAt(files: map<string, bool>, ids: seq<string>, k: nat, refusal: Refusal)
    requires k < |ids|
  {
    && !Good(files, ids[k]) && refusal == (if ids[k] in files then MissingFile else UnknownArtifact)
    && forall j :: 0 <= j < k ==> Good(files, ids[j])
  }

  lemma {:induction false} FirstBadIsFirst(files: map<string, bool>, ids: seq<string>)
    ensures FirstBad(files, ids).Some? ==> FirstRefused(files, ids, FirstBad(files, ids).value)
  {
    var bad := FirstBad(files, ids);
    if ids != [] && bad.Some? {
      if !Good(files, ids[0]) {
        assert RefusedAt(files, ids, 0, bad.value);
      } else {
        FirstBadIsFirst(files, ids[1..]);
        var k: nat :| k < |ids[1..]| && RefusedAt(files, ids[1..], k, bad.value);
        assert forall j :: 1 <= j <= k ==> ids[j] == ids[1..][j - 1];
        assert ids[k + 1] == ids[1..][k];
        assert RefusedAt(files, ids, k + 1, bad.value);
      }
    }
  }

  predicate AreTrimmed(list: seq<string>, ids: seq<string>) {
    |list| == |ids| && forall k :: 0 <= k < |ids| ==> list[k] == Strip(ids[k])
  }

  /**
    The artifacts of a request are set once: to the trimmed ids, when none is blank or repeated and
    every file is there. Later only the same list is accepted, and nothing changes.
  */
  lemma {:induction false} AttachDecides(attached: seq<string>, files: map<string, bool>, ids: seq<string>,
      list: seq<string>)
    requires AreTrimmed(list, ids)
    ensures var result := Attach(attached, files, ids);
      if exists k :: 0 <= k < |list| && list[k] == "" then result == Err(BlankArtifact)
      else if exists j, k :: 0 <= j < k < |list| && list[j] == list[k] then result == Err(RepeatedArtifact)
      else if attached != [] then result == (if attached == list then Ok(list) else Err(ImmutableArtifacts))
      else if forall k :: 0 <= k < |list| ==> Good(files, list[k]) then result == Ok(list)
      else result.Err? && FirstRefused(files, list, result.error)
  {
    assert list == Stripped(ids);
    FirstBadIsFirst(files, list);
  }

  predicate IsEnqueued(
    d: System, r: RunId, source: string, instruction: string, previous: Option<CycleId>, now: int, after: System
  ) {
    after == Next(d, TableStep(EnqueueOp(r, KnowledgeOf(source, instruction, previous), now)))
  }

  // Enqueued under its id or the name of the next attempt, unless it has a live request.
  lemma {:induction false} EnqueuedOrLive(
    db: Db, r: RunId, rawId: string, instruction: string, previous: Option<CycleId>, now: int
  ) returns (source: string)
    requires EnqueueKnowledge(db, r, rawId, instruction, previous, now).Ok?
    ensures var step := EnqueueKnowledge(db, r, rawId, instruction, previous, now);
      step.value.0 == db || step == Enqueue(db, r, KnowledgeOf(source, instruction, previous), now)
  {
    var id := Strip(rawId);
    var rows := Selected(db.requests, r, id);
    SelectedRows(db.requests, r, id);
    source := if rows == [] then id else KnowledgeAttempts.AttemptText(id, LastAttempt(db.requests, rows, id) + 1);
  }

  lemma {:induction false} EnqueuedIsStep(
    d: System, r: RunId, source: string, instruction: string, previous: Option<CycleId>, now: int
  )
    requires Enqueue(d.db, r, KnowledgeOf(source, instruction, previous), now).Ok?
    ensures var after := Enqueue(d.db, r, KnowledgeOf(source, instruction, previous), now).value.0;
      IsEnqueued(d, r, source, instruction, previous, now, d.(db := after, waking := d.waking + multiset{r}))
  {
    assert multiset([r]) == multiset{r};
  }

  /**
    The first transaction is a step of the dispatcher model: the enqueueing of the new row, or, when
    the id already has a live request, a promise alone.
  */
  lemma {:induction false} PromisedIsStep(
    d: System, r: RunId, rawId: string, instruction: string, previous: Option<CycleId>, now: int
  )
    requires Promised(d, r, rawId, instruction, previous, now).Ok?
    ensures var after := Promised(d, r, rawId, instruction, previous, now).value;
      || after == Next(d, Promise(r))
      || exists source :: IsEnqueued(d, r, source, instruction, previous, now, after)
  {
    var source := EnqueuedOrLive(d.db, r, rawId, instruction, previous, now);
    if EnqueueKnowledge(d.db, r, rawId, instruction, previous, now).value.0 != d.db {
      EnqueuedIsStep(d, r, source, instruction, previous, now);
    }
  }

  /**
    A delegation whose request is accepted leaves the run noticed exactly when its artifacts and
    its team are accepted too, or there is nothing to claim, or somebody was about to look anyway.
  */
  lemma DelegationWakesIff(
    d: System, r: RunId, rawId: string, instruction: string, previous: Option<CycleId>, now: int,
    attached: seq<string>, files: map<string, bool>, ids: seq<string>, accepted: bool
  )
    requires Promised(d, r, rawId, instruction, previous, now).Ok?
    ensures var after := Delegated(d, r, rawId, instruction, previous, now, attached, files, ids, accepted);
      AwakeAt(after, r) <==>
        || (Attach(attached, files, ids).Ok? && accepted)
        || !Runnable(Promised(d, r, rawId, instruction, previous, now).value.db, r)
        || Noticed(d, r)
  {
    var promised := Promised(d, r, rawId, instruction, previous, now).value;
    var after := Delegated(d, r, rawId, instruction, previous, now, attached, files, ids, accepted);
    assert Held(after, r) <==> Held(d, r);
    if Attach(attached, files, ids).Ok? && accepted {
      assert after.queue[|d.queue|] == r;
    } else {
      assert after.waking == d.waking;
    }
  }
}
