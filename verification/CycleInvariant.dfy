/**
  The invariant the cycle service keeps but never states: how a series is coupled to its
  requests, and what the rows say about one another.
*/
module CycleInvariant {
  import opened Outcomes
  import opened CycleTables
  import opened CycleSteps

  predicate LiveFor(db: Db, i: int, s: SeriesId) {
    0 <= i < |db.requests| && db.requests[i].series == Some(s) && Live(db.requests[i].status)
  }

  predicate RequestOk(db: Db, i: RequestId)
    requires i < |db.requests|
  {
    var q := db.requests[i];
    && q.run < |db.runs|
    && db.runs[q.run].continuous
    && (q.source in {Auto, Retry} <==> q.series.Some?)
    && (q.series.None? ==> q.slot.None?)
    && (q.series.Some? ==>
      && q.series.value < |db.series|
      && db.series[q.series.value].run == q.run
      && q.slot.Some?
      && 1 <= q.slot.value <= db.series[q.series.value].settled + 1
      && q.slot.value <= db.series[q.series.value].target
      && (q.source == Auto ==>
        q.sourceId.SlotSource? && q.sourceId.series == q.series.value && q.sourceId.slot == q.slot.value))
  }

  predicate SeriesOk(db: Db, s: SeriesId)
    requires s < |db.series|
  {
    var row := db.series[s];
    && row.run < |db.runs|
    && db.runs[row.run].continuous
    && 1 <= row.number
    && row.settled <= row.target
    && 0 <= row.interval
    && (ActiveSeries(row.status) ==> row.settled < row.target)
    && (row.status == WaitingInterval <==> row.nextRunAt.Some?)
  }

  // The paused cycle belongs to a request of the series' next slot.
  predicate PausedOn(db: Db, s: SeriesId, status: RequestStatus)
    requires s < |db.series|
  {
    var row := db.series[s];
    && row.pausedCycle.Some? && row.pausedCycle.value < |db.cycles|
    && db.cycles[row.pausedCycle.value].request.Some?
    && db.cycles[row.pausedCycle.value].request.value < |db.requests|
    && var q := db.requests[db.cycles[row.pausedCycle.value].request.value];
       q.series == Some(s) && q.slot == Some(row.settled + 1) && q.status == status
  }

  // Which live requests a series has, by its status.
  ghost predicate Coupled(db: Db, s: SeriesId)
    requires s < |db.series|
  {
    var row := db.series[s];
    && (row.status == Running ==>
      exists i :: LiveFor(db, i, s) && db.requests[i].slot == Some(row.settled + 1))
    && (row.status in {PausedUser, PausedInterrupted} ==> PausedOn(db, s, Dispatching))
    && (row.status == PausedFailure ==> PausedOn(db, s, ReqSettled))
    && (row.status !in {Running, PausedUser, PausedInterrupted} ==> forall i :: !LiveFor(db, i, s))
    && (forall i, j :: LiveFor(db, i, s) && LiveFor(db, j, s) ==> i == j)
    && (row.status == WaitingInterval ==>
      forall i {:trigger db.requests[i]} :: 0 <= i < |db.requests| && db.requests[i].series == Some(s) ==>
        db.requests[i].slot != Some(row.settled + 1))
  }

  predicate CycleOk(db: Db, c: CycleId)
    requires c < |db.cycles|
  {
    db.cycles[c].request.Some? ==>
      && db.cycles[c].request.value < |db.requests|
      && db.requests[db.cycles[c].request.value].run == db.cycles[c].run
      && db.requests[db.cycles[c].request.value].status != Queued
  }

  ghost predicate RowsOk(db: Db) {
    && (forall i :: 0 <= i < |db.requests| ==> RequestOk(db, i))
    && (forall s :: 0 <= s < |db.series| ==> SeriesOk(db, s))
    && (forall c :: 0 <= c < |db.cycles| ==> CycleOk(db, c))
  }

  ghost predicate SeriesCoupled(db: Db) {
    forall s :: 0 <= s < |db.series| ==> Coupled(db, s)
  }

  // Series of one run are numbered in creation order, and only the last can be active.
  ghost predicate OneActive(db: Db) {
    forall s, t :: 0 <= s < t < |db.series| && db.series[s].run == db.series[t].run ==>
      db.series[s].number < db.series[t].number && !ActiveSeries(db.series[s].status)
  }

  ghost predicate OneDispatching(db: Db) {
    forall i, j ::
      (0 <= i < j < |db.requests| && db.requests[i].status == Dispatching && db.requests[j].status == Dispatching) ==>
      db.requests[i].run != db.requests[j].run
  }

  ghost predicate OneCyclePerRequest(db: Db) {
    forall c, d :: 0 <= c < d < |db.cycles| && db.cycles[c].request.Some? ==>
        db.cycles[c].request != db.cycles[d].request
  }

  ghost predicate SourcesUnique(db: Db) {
    forall i, j :: 0 <= i < j < |db.requests| ==>
      !HasSource(db.requests[i], db.requests[j].run, db.requests[j].source, db.requests[j].sourceId)
  }

  // A slot gets at most one automatic request; the others in it are retries.
  ghost predicate OneAutoPerSlot(db: Db) {
    forall i, j ::
      (0 <= i < j < |db.requests| && db.requests[i].source == Auto && db.requests[j].source == Auto
       && db.requests[i].series == db.requests[j].series) ==> db.requests[i].slot != db.requests[j].slot
  }

  // A retry is numbered no higher than the requests of its slot, so the next number is free.
  predicate RetryNumbered(requests: seq<Request>, q: Request) {
    q.source == Retry && q.series.Some? && q.slot.Some? ==>
      && q.sourceId.SlotSource? && q.sourceId.series == q.series.value && q.sourceId.slot == q.slot.value
      && q.sourceId.attempt <= CountSlot(requests, q.series.value, q.slot.value)
  }

  ghost predicate RetriesNumbered(db: Db) {
    forall i :: 0 <= i < |db.requests| ==> RetryNumbered(db.requests, db.requests[i])
  }

  ghost predicate Inv(db: Db) {
    && RowsOk(db)
    && SeriesCoupled(db)
    && OneActive(db)
    && OneDispatching(db)
    && OneCyclePerRequest(db)
    && SourcesUnique(db)
    && OneAutoPerSlot(db)
    && RetriesNumbered(db)
  }

  // A series stays coupled while its row and its requests do, whatever else is updated or appended.
  lemma CoupledFrame(db: Db, after: Db, s: SeriesId)
    requires s < |db.series| && Coupled(db, s)
    requires s < |after.series| && after.series[s] == db.series[s]
    requires |db.requests| <= |after.requests| && |db.cycles| <= |after.cycles|
    requires forall i {:trigger after.requests[i]} :: 0 <= i < |db.requests| ==>
      if db.requests[i].series == Some(s) then after.requests[i] == db.requests[i]
          else after.requests[i].series != Some(s)
    requires forall i :: |db.requests| <= i < |after.requests| ==> after.requests[i].series != Some(s)
    requires forall c :: 0 <= c < |db.cycles| ==> after.cycles[c].request == db.cycles[c].request
    ensures Coupled(after, s)
  {
    assert forall i :: LiveFor(after, i, s) <==> LiveFor(db, i, s);
    if db.series[s].status == Running {
      var i :| LiveFor(db, i, s) && db.requests[i].slot == Some(db.series[s].settled + 1);
      assert LiveFor(after, i, s);
    }
  }

  // No step changes what identifies a request.
  predicate SameIdentity(p: Request, q: Request) {
    p.run == q.run && p.source == q.source && p.sourceId == q.sourceId && p.series == q.series && p.slot == q.slot
  }

  lemma {:induction false} CountSlotSame(requests: seq<Request>, after: seq<Request>, s: SeriesId, slot: int)
    requires |after| == |requests|
    requires forall i :: 0 <= i < |requests| ==> SameIdentity(requests[i], after[i])
    ensures CountSlot(after, s, slot) == CountSlot(requests, s, slot)
  {
    if requests != [] {
      CountSlotSame(requests[..|requests| - 1], after[..|after| - 1], s, slot);
    }
  }

  lemma IdentityFrame(db: Db, after: Db)
    requires SourcesUnique(db) && RetriesNumbered(db) && |after.requests| == |db.requests|
    requires forall i :: 0 <= i < |db.requests| ==> SameIdentity(db.requests[i], after.requests[i])
    ensures SourcesUnique(after) && RetriesNumbered(after)
  {
    forall i, j | 0 <= i < j < |after.requests|
      ensures !HasSource(after.requests[i], after.requests[j].run, after.requests[j].source, after.requests[j].sourceId)
    {
      assert !HasSource(db.requests[i], db.requests[j].run, db.requests[j].source, db.requests[j].sourceId);
    }
    forall i | 0 <= i < |after.requests| ensures RetryNumbered(after.requests, after.requests[i]) {
      var q := db.requests[i];
      assert RetryNumbered(db.requests, q);
      if q.series.Some? && q.slot.Some? { CountSlotSame(db.requests, after.requests, q.series.value, q.slot.value); }
    }
  }

  // A row appended with a free source keeps sources unique and retries numbered.
  lemma AppendFrame(db: Db, after: Db, q: Request)
    requires SourcesUnique(db) && RetriesNumbered(db) && after.requests == db.requests + [q]
    requires forall i :: 0 <= i < |db.requests| ==> !HasSource(db.requests[i], q.run, q.source, q.sourceId)
    requires RetryNumbered(after.requests, q)
    ensures SourcesUnique(after) && RetriesNumbered(after)
  {
    var n := |db.requests|;
    assert after.requests[..n] == db.requests && after.requests[n] == q;
    forall i, j | 0 <= i < j < |after.requests|
      ensures !HasSource(after.requests[i], after.requests[j].run, after.requests[j].source, after.requests[j].sourceId)
    {
      if j < n {
        assert !HasSource(db.requests[i], db.requests[j].run, db.requests[j].source, db.requests[j].sourceId);
      }
    }
    forall i | 0 <= i < |after.requests| ensures RetryNumbered(after.requests, after.requests[i]) {
      if i < n { assert RetryNumbered(db.requests, db.requests[i]); }
    }
  }

  // ---- enqueueing ----

  // The source id of an AUTO request names its own series and slot; a retry takes the next number.
  predicate Canonical(db: Db, n: NewRequest) {
    n.source in {Auto, Retry} && n.series.Some? && n.slot.Some? ==>
      && n.sourceId.SlotSource? && n.sourceId.series == n.series.value && n.sourceId.slot == n.slot.value
      && (n.source == Retry ==> n.sourceId.attempt == CountSlot(db.requests, n.series.value, n.slot.value) + 1)
  }

  // The guards say: no live request is in the way, and the slot is the series' next.
  lemma InsertGuards(db: Db, r: RunId, n: NewRequest)
    requires Inv(db) && Canonical(db, n)
    requires SourceGate(db, r, n).None? && InsertGate(db, r, n).None?
    ensures r < |db.runs| && db.runs[r].continuous
    ensures n.source in {Auto, Retry} <==> n.series.Some?
    ensures n.series.None? ==> n.slot.None?
    ensures n.series.Some? ==>
      && n.series.value < |db.series| && db.series[n.series.value].run == r
      && n.slot == Some(db.series[n.series.value].settled + 1)
      && db.series[n.series.value].settled < db.series[n.series.value].target
      && (forall i :: !LiveFor(db, i, n.series.value))
      && db.series[n.series.value].status in {WaitingInterval, PausedFailure}
      && (n.source == Retry <==> db.series[n.series.value].status == PausedFailure)
  {
    if n.series.Some? {
      var s := n.series.value;
      assert SeriesOk(db, s) && Coupled(db, s);
      if n.source == Auto {
        assert db.series[s].status != Running;
      }
    }
  }

  lemma InsertKeepsRows(db: Db, r: RunId, n: NewRequest, now: int)
    requires Inv(db) && Canonical(db, n)
    requires SourceGate(db, r, n).None? && InsertGate(db, r, n).None?
    ensures n.series.Some? ==> n.series.value < |db.series|
    ensures RowsOk(Insert(db, r, n, now))
  {
    InsertGuards(db, r, n);
    var after := Insert(db, r, n, now);
    forall i | 0 <= i < |after.requests| ensures RequestOk(after, i) {
      if i < |db.requests| { assert RequestOk(db, i); }
    }
    forall s | 0 <= s < |after.series| ensures SeriesOk(after, s) { assert SeriesOk(db, s); }
    forall c | 0 <= c < |after.cycles| ensures CycleOk(after, c) { assert CycleOk(db, c); }
  }

  lemma InsertKeepsCoupling(db: Db, r: RunId, n: NewRequest, now: int)
    requires Inv(db) && Canonical(db, n)
    requires SourceGate(db, r, n).None? && InsertGate(db, r, n).None?
    ensures n.series.Some? ==> n.series.value < |db.series|
    ensures SeriesCoupled(Insert(db, r, n, now))
  {
    InsertGuards(db, r, n);
    var after := Insert(db, r, n, now);
    forall s | 0 <= s < |after.series| ensures Coupled(after, s) {
      assert Coupled(db, s);
      if n.series == Some(s) {
        assert LiveFor(after, |db.requests|, s);
        assert forall i :: i < |db.requests| ==> (LiveFor(after, i, s) <==> LiveFor(db, i, s));
      } else {
        CoupledFrame(db, after, s);
      }
    }
  }

  lemma InsertKeepsInv(db: Db, r: RunId, n: NewRequest, now: int)
    requires Inv(db) && Canonical(db, n)
    requires SourceGate(db, r, n).None? && InsertGate(db, r, n).None?
    requires FindSource(db.requests, r, n.source, n.sourceId).None?
    ensures n.series.Some? ==> n.series.value < |db.series|
    ensures Inv(Insert(db, r, n, now))
  {
    InsertGuards(db, r, n);
    InsertKeepsRows(db, r, n, now);
    InsertKeepsCoupling(db, r, n, now);
    var after := Insert(db, r, n, now);
    assert OneActive(after);
    assert OneDispatching(after);
    assert OneCyclePerRequest(after);
    AppendFrame(db, after, NewRow(r, n, now));
    assert OneAutoPerSlot(after) by {
      forall i, j | 0 <= i < j < |after.requests| && after.requests[i].source == Auto
          && after.requests[j].source == Auto
        && after.requests[i].series == after.requests[j].series
        ensures after.requests[i].slot != after.requests[j].slot
      {
        if j == |db.requests| { assert Coupled(db, n.series.value); }
      }
    }
  }

  lemma EnqueueKeepsInv(db: Db, r: RunId, n: NewRequest, now: int)
    requires Inv(db) && Canonical(db, n)
    requires Enqueue(db, r, n, now).Ok?
    ensures Inv(Enqueue(db, r, n, now).value.0)
  {
    if FindSource(db.requests, r, n.source, n.sourceId).None? {
      InsertKeepsInv(db, r, n, now);
    }
  }

  // ---- AUTO series ----

  // A new series takes the next number, and its first slot is queued with it.
  predicate SeriesAdded(db: Db, after: Db, r: RunId, target: int, interval: int, now: int) {
    && ActiveSeriesOf(db.series, r).None? && RunGate(db, r).None? && 1 <= target && 0 <= interval
    && after.series == db.series + [Series(r, NextNumber(db.series, r), Running, target, 0, interval, None, None, None)]
    && |after.requests| == |db.requests| + 1 && after.requests[..|db.requests|] == db.requests
    && after.requests[|db.requests|]
        == NewRow(r, FirstSlot(|db.series|, after.requests[|db.requests|].instruction), now)
    && after == db.(series := after.series, requests := after.requests)
  }

  lemma InitializeResult(db: Db, r: RunId, target: int, interval: int, now: int, first: Option<string>)
    requires Inv(db) && InitializeSeries(db, r, target, interval, now, first).Ok?
    ensures var (after, s, q) := InitializeSeries(db, r, target, interval, now, first).value;
      s == |db.series| && q == |db.requests| && SeriesAdded(db, after, r, target, interval, now)
  {
    var found := FindSource(db.requests, r, Auto, SlotSource(|db.series|, 1, 1));
    assert found.Some? ==> RequestOk(db, found.value);
  }

  lemma SeriesAddedKeepsRows(db: Db, after: Db, r: RunId, target: int, interval: int, now: int)
    requires Inv(db) && SeriesAdded(db, after, r, target, interval, now)
    ensures RowsOk(after)
  {
    var q := |db.requests|;
    forall i | 0 <= i < |after.requests| ensures RequestOk(after, i) {
      assert i < q ==> after.requests[i] == after.requests[..q][i] == db.requests[i] && RequestOk(db, i);
    }
    forall t | 0 <= t < |after.series| ensures SeriesOk(after, t) { assert t < |db.series| ==> SeriesOk(db, t); }
    forall c | 0 <= c < |after.cycles| ensures CycleOk(after, c) {
      assert CycleOk(db, c);
      assert forall i :: 0 <= i < q ==> after.requests[i] == after.requests[..q][i] == db.requests[i];
    }
  }

  lemma SeriesAddedKeepsCoupling(db: Db, after: Db, r: RunId, target: int, interval: int, now: int)
    requires Inv(db) && SeriesAdded(db, after, r, target, interval, now)
    ensures SeriesCoupled(after)
  {
    var s, q := |db.series|, |db.requests|;
    forall i | 0 <= i < q ensures after.requests[i] == db.requests[i] && after.requests[i].series != Some(s) {
      assert after.requests[i] == after.requests[..q][i] && RequestOk(db, i);
    }
    forall t | 0 <= t < s ensures Coupled(after, t) { CoupledFrame(db, after, t); }
    assert LiveFor(after, q, s);
    assert Coupled(after, s);
  }

  lemma SeriesAddedKeepsInv(db: Db, after: Db, r: RunId, target: int, interval: int, now: int)
    requires Inv(db) && SeriesAdded(db, after, r, target, interval, now)
    ensures Inv(after)
  {
    SeriesAddedKeepsRows(db, after, r, target, interval, now);
    SeriesAddedKeepsCoupling(db, after, r, target, interval, now);
    var q := |db.requests|;
    assert forall i :: 0 <= i < q ==> after.requests[i] == after.requests[..q][i];
    assert forall i :: 0 <= i < |db.series| ==> !IsActiveOf(db.series[i], r);
    assert OneActive(after);
    forall i | 0 <= i < q
      ensures !HasSource(after.requests[i], r, Auto, SlotSource(|db.series|, 1, 1))
      ensures after.requests[i].series != Some(|db.series|)
    {
      assert RequestOk(db, i);
    }
    assert after.requests == db.requests + [after.requests[q]];
    AppendFrame(db, after, after.requests[q]);
    assert OneAutoPerSlot(after);
  }

  lemma InitializeKeepsInv(db: Db, r: RunId, target: int, interval: int, now: int, first: Option<string>)
    requires Inv(db) && InitializeSeries(db, r, target, interval, now, first).Ok?
    ensures Inv(InitializeSeries(db, r, target, interval, now, first).value.0)
  {
    InitializeResult(db, r, target, interval, now, first);
    SeriesAddedKeepsInv(db, InitializeSeries(db, r, target, interval, now, first).value.0, r, target, interval, now);
  }

  // A row update that keeps what the other rows rely on.
  lemma SeriesUpdateKeepsRows(db: Db, s: SeriesId, row: Series)
    requires RowsOk(db) && s < |db.series|
    requires row.run == db.series[s].run && row.target == db.series[s].target && db.series[s].settled <= row.settled
    requires SeriesOk(db.(series := db.series[s := row]), s)
    ensures RowsOk(db.(series := db.series[s := row]))
  {
    var after := db.(series := db.series[s := row]);
    forall i | 0 <= i < |after.requests| ensures RequestOk(after, i) { assert RequestOk(db, i); }
    forall t | 0 <= t < |after.series| ensures SeriesOk(after, t) { assert SeriesOk(db, t); }
    forall c | 0 <= c < |after.cycles| ensures CycleOk(after, c) { assert CycleOk(db, c); }
  }

  lemma SeriesUpdateKeepsInv(db: Db, s: SeriesId, row: Series)
    requires Inv(db) && s < |db.series|
    requires row.run == db.series[s].run && row.number == db.series[s].number && row.target == db.series[s].target
    requires db.series[s].settled <= row.settled
    requires ActiveSeries(row.status) ==> ActiveSeries(db.series[s].status)
    requires SeriesOk(db.(series := db.series[s := row]), s)
    requires Coupled(db.(series := db.series[s := row]), s)
    ensures Inv(db.(series := db.series[s := row]))
  {
    SeriesUpdateKeepsRows(db, s, row);
    var after := db.(series := db.series[s := row]);
    forall t | 0 <= t < |after.series| ensures Coupled(after, t) {
      if t != s { assert Coupled(db, t); CoupledFrame(db, after, t); }
    }
  }

  lemma ContinueKeepsInv(db: Db, r: RunId, s: SeriesId, now: int)
    requires Inv(db) && ContinueFailed(db, r, s, now).Ok?
    ensures Inv(ContinueFailed(db, r, s, now).value)
  {
    var row := SettledSlot(db.series[s], now);
    var after := db.(series := db.series[s := row]);
    assert SeriesOk(db, s) && Coupled(db, s);
    assert forall i :: !LiveFor(after, i, s) by { assert forall i :: LiveFor(after, i, s) == LiveFor(db, i, s); }
    assert forall i :: 0 <= i < |db.requests| && db.requests[i].series == Some(s) ==> RequestOk(db, i);
    SeriesUpdateKeepsInv(db, s, row);
  }

  lemma RetryKeepsInv(db: Db, r: RunId, s: SeriesId, now: int)
    requires Inv(db) && RetryFailed(db, r, s, now).Ok?
    ensures Inv(RetryFailed(db, r, s, now).value.0)
  {
    var q := db.cycles[db.series[s].pausedCycle.value].request.value;
    EnqueueKeepsInv(db, r, RetryRow(db, s, q), now);
  }

  // ---- the timer ----

  // A waiting series has no request in its next slot, so the timer never finds one there.
  lemma WaitingSlotIsFree(db: Db, s: SeriesId, previous: Option<CycleId>, instruction: string)
    requires Inv(db) && s < |db.series| && db.series[s].status == WaitingInterval
    ensures var n := NextSlot(db, s, previous, instruction);
      && FindSource(db.requests, db.series[s].run, Auto, n.sourceId).None?
      && SlotHolder(db.requests, s, n.slot.value).None?
  {
    var n := NextSlot(db, s, previous, instruction);
    var found := FindSource(db.requests, db.series[s].run, Auto, n.sourceId);
    assert Coupled(db, s);
    assert found.Some? ==> RequestOk(db, found.value);
  }

  lemma TickOneKeepsInv(db: Db, s: SeriesId, now: int)
    requires Inv(db) && s < |db.series| && TickOne(db, s, now).Ok?
    ensures Inv(TickOne(db, s, now).value.0)
    ensures |TickOne(db, s, now).value.0.series| == |db.series|
  {
    var row := db.series[s];
    var previous := LatestFinal(db.cycles, row.run);
    var instruction := AutoInstruction(db.runs, db.cycles, row.run, previous);
    assert SeriesOk(db, s) && Coupled(db, s);
    if instruction.value.None? {
      if row.status == WaitingInterval {
        var ended := row.(status := AutoCompleted, nextRunAt := None,
                          pauseReason := Some("lead_proposed_no_next_cycle"), pausedCycle := None);
        var after := db.(series := db.series[s := ended]);
        assert forall i :: LiveFor(after, i, s) == LiveFor(db, i, s);
        SeriesUpdateKeepsInv(db, s, ended);
      }
    } else {
      var n := NextSlot(db, s, previous, instruction.value.value);
      EnqueueKeepsInv(db, row.run, n, now);
      if row.status == WaitingInterval {
        WaitingSlotIsFree(db, s, previous, instruction.value.value);
      }
    }
  }

  lemma {:induction false} TickKeepsInv(db: Db, due: seq<SeriesId>, now: int)
    requires Inv(db) && Tick(db, due, now).Ok?
    ensures Inv(Tick(db, due, now).value.0)
    decreases |due|
  {
    if due != [] {
      TickOneKeepsInv(db, due[0], now);
      TickKeepsInv(TickOne(db, due[0], now).value.0, due[1..], now);
    }
  }

  // ---- claims and settlement ----

  // Changing one request's status, with its series' row, keeps the rest.
  lemma RequestUpdateKeepsRows(db: Db, q: RequestId, status: RequestStatus, claimed: Option<int>,
      settledAt: Option<int>)
    requires RowsOk(db) && q < |db.requests|
    requires status == Queued ==> forall c :: 0 <= c < |db.cycles| ==> db.cycles[c].request != Some(q)
    ensures RowsOk(db.(requests := db.requests[q := db.requests[q].(status := status, claimedAt := claimed,
        settledAt := settledAt)]))
  {
    var after := db.(requests := db.requests[q := db.requests[q].(status := status, claimedAt := claimed,
        settledAt := settledAt)]);
    forall i | 0 <= i < |after.requests| ensures RequestOk(after, i) { assert RequestOk(db, i); }
    forall s | 0 <= s < |after.series| ensures SeriesOk(after, s) { assert SeriesOk(db, s); }
    forall c | 0 <= c < |after.cycles| ensures CycleOk(after, c) { assert CycleOk(db, c); }
  }

  lemma ClaimKeepsInv(db: Db, r: RunId, now: int)
    requires Inv(db) && Claim(db, r, now).Ok?
    ensures Inv(Claim(db, r, now).value.0)
  {
    var (after, claimed) := Claim(db, r, now).value;
    if claimed.Some? {
      var q := claimed.value;
      RequestUpdateKeepsRows(db, q, Dispatching, Some(now), db.requests[q].settledAt);
      forall s | 0 <= s < |after.series| ensures Coupled(after, s) {
        assert Coupled(db, s);
        assert forall i :: LiveFor(after, i, s) == LiveFor(db, i, s);
        if db.requests[q].series != Some(s) { CoupledFrame(db, after, s); }
      }
      assert forall i :: 0 <= i < |db.requests| ==> !IsDispatching(db.requests[i], r);
      assert OneDispatching(after);
      IdentityFrame(db, after);
    }
  }

  lemma RequeueKeepsInv(db: Db, q: RequestId)
    requires Inv(db) && Requeue(db, q).Ok?
    ensures Inv(Requeue(db, q).value)
  {
    var after := Requeue(db, q).value;
    RequestUpdateKeepsRows(db, q, Queued, None, db.requests[q].settledAt);
    forall s | 0 <= s < |after.series| ensures Coupled(after, s) {
      assert Coupled(db, s);
      assert forall i :: LiveFor(after, i, s) == LiveFor(db, i, s);
      if db.requests[q].series != Some(s) { CoupledFrame(db, after, s); }
    }
    IdentityFrame(db, after);
  }

  // The dispatching request of a series is its only live one and holds its next slot.
  lemma DispatchingHoldsNextSlot(db: Db, q: RequestId)
    requires Inv(db) && q < |db.requests| && db.requests[q].status == Dispatching && db.requests[q].series.Some?
    ensures var s := db.requests[q].series.value;
      && s < |db.series|
      && db.series[s].status in {Running, PausedUser, PausedInterrupted}
      && db.requests[q].slot == Some(db.series[s].settled + 1)
      && db.series[s].settled < db.series[s].target
      && (forall i :: LiveFor(db, i, s) ==> i == q)
  {
    assert RequestOk(db, q);
    var s := db.requests[q].series.value;
    assert SeriesOk(db, s) && Coupled(db, s);
    assert LiveFor(db, q, s);
    if db.series[s].status == Running {
      var i :| LiveFor(db, i, s) && db.requests[i].slot == Some(db.series[s].settled + 1);
    } else {
      assert LiveFor(db, db.cycles[db.series[s].pausedCycle.value].request.value, s);
    }
  }

  lemma PauseKeepsInv(db: Db, c: CycleId, q: RequestId, status: SeriesStatus, reason: string)
    requires Inv(db) && c < |db.cycles| && db.cycles[c].request == Some(q) && q < |db.requests|
    requires db.requests[q].series.Some? ==> db.requests[q].series.value < |db.series|
    requires status in {PausedUser, PausedInterrupted}
    requires Pause(db, c, q, status, reason).Ok?
    ensures Inv(Pause(db, c, q, status, reason).value.0)
  {
    if db.requests[q].series.Some? {
      DispatchingHoldsNextSlot(db, q);
      var s := db.requests[q].series.value;
      var row := db.series[s].(status := status, nextRunAt := None, pauseReason := Some(reason),
          pausedCycle := Some(c));
      var after := db.(series := db.series[s := row]);
      assert SeriesOk(db, s) && Coupled(db, s);
      assert forall i :: LiveFor(after, i, s) == LiveFor(db, i, s);
      SeriesUpdateKeepsInv(db, s, row);
    }
  }

  // Settling a dispatching request: the series moves with it.
  lemma SettleKeepsInv(db: Db, c: CycleId, now: int)
    requires Inv(db) && Settle(db, c, now).Ok?
    ensures Inv(Settle(db, c, now).value.0)
  {
    var cycle := db.cycles[c];
    var q := cycle.request.value;
    if cycle.status == WaitingForUser {
      PauseKeepsInv(db, c, q, PausedUser, "waiting_for_user");
    } else if cycle.status == Interrupted {
      PauseKeepsInv(db, c, q, PausedInterrupted, "interrupted");
    } else if db.requests[q].status == Dispatching {
      var status := if cycle.status == CycleCanceled then ReqCanceled else ReqSettled;
      RequestUpdateKeepsRows(db, q, status, db.requests[q].claimedAt, Some(now));
      var mid := db.(requests := db.requests[q := db.requests[q].(status := status, settledAt := Some(now))]);
      IdentityFrame(db, mid);
      SettleRequestAndSeries(db, mid, c, q, now);
    }
  }

  lemma SettledSeriesStaysCoupled(db: Db, c: CycleId, q: RequestId, status: RequestStatus, now: int)
    requires Inv(db) && c < |db.cycles| && db.cycles[c].request == Some(q) && TerminalCycle(db.cycles[c].status)
    requires q < |db.requests| && db.requests[q].status == Dispatching && db.requests[q].series.Some?
    requires status == if db.cycles[c].status == CycleCanceled then ReqCanceled else ReqSettled
    ensures var s := db.requests[q].series.value;
      && s < |db.series|
      && var after := db.(requests := db.requests[q := db.requests[q].(status := status, settledAt := Some(now))],
                          series := db.series[s := SettledSeries(db.series[s], c, db.cycles[c], now)]);
         SeriesOk(after, s) && Coupled(after, s)
  {
    DispatchingHoldsNextSlot(db, q);
    var s := db.requests[q].series.value;
    var after := db.(requests := db.requests[q := db.requests[q].(status := status, settledAt := Some(now))],
                     series := db.series[s := SettledSeries(db.series[s], c, db.cycles[c], now)]);
    assert SeriesOk(db, s) && Coupled(db, s);
    assert forall i :: LiveFor(after, i, s) ==> LiveFor(db, i, s) && i != q;
    assert forall i :: 0 <= i < |db.requests| && db.requests[i].series == Some(s) ==> RequestOk(db, i);
  }

  lemma SettleRequestAndSeries(db: Db, mid: Db, c: CycleId, q: RequestId, now: int)
    requires Inv(db) && c < |db.cycles| && db.cycles[c].request == Some(q) && TerminalCycle(db.cycles[c].status)
    requires q < |db.requests| && db.requests[q].status == Dispatching
    requires var status := if db.cycles[c].status == CycleCanceled then ReqCanceled else ReqSettled;
      mid == db.(requests := db.requests[q := db.requests[q].(status := status, settledAt := Some(now))])
    requires RowsOk(mid) && SourcesUnique(mid) && RetriesNumbered(mid)
    ensures db.requests[q].series.Some? ==> db.requests[q].series.value < |db.series|
    ensures var series := if db.requests[q].series.None? then db.series
        else db.series[db.requests[q].series.value := SettledSeries(db.series[db.requests[q].series.value], c,
            db.cycles[c], now)];
      Inv(mid.(series := series))
  {
    if db.requests[q].series.None? {
      forall s | 0 <= s < |mid.series| ensures Coupled(mid, s) { assert Coupled(db, s); CoupledFrame(db, mid, s); }
      assert mid.(series := db.series) == mid;
    } else {
      DispatchingHoldsNextSlot(db, q);
      var s := db.requests[q].series.value;
      var row := SettledSeries(db.series[s], c, db.cycles[c], now);
      var after := mid.(series := mid.series[s := row]);
      SettledSeriesStaysCoupled(db, c, q, mid.requests[q].status, now);
      SeriesUpdateKeepsRows(mid, s, row);
      forall t | 0 <= t < |after.series| ensures Coupled(after, t) {
        if t != s { assert Coupled(db, t); CoupledFrame(db, after, t); }
      }
    }
  }

  lemma PauseByIdKeepsInv(db: Db, c: CycleId, expected: CycleStatus, status: SeriesStatus, reason: string)
    requires Inv(db) && status in {PausedUser, PausedInterrupted}
    requires PauseById(db, c, expected, status, reason).Ok?
    ensures Inv(PauseById(db, c, expected, status, reason).value.0)
  {
    PauseKeepsInv(db, c, db.cycles[c].request.value, status, reason);
  }

  /**
    mark_request_settled never looks at the series: it keeps the coupling exactly when the
    request has no series or was already closed.
  */
  lemma MarkSettledKeepsInvIff(db: Db, q: RequestId, now: int)
    requires Inv(db) && MarkSettled(db, q, now).Ok?
    ensures Inv(MarkSettled(db, q, now).value) <==> db.requests[q].series.None? || !Live(db.requests[q].status)
  {
    var after := MarkSettled(db, q, now).value;
    if Live(db.requests[q].status) {
      if db.requests[q].series.None? {
        RequestUpdateKeepsRows(db, q, ReqSettled, db.requests[q].claimedAt, Some(now));
        IdentityFrame(db, after);
        forall s | 0 <= s < |after.series| ensures Coupled(after, s) {
          assert Coupled(db, s); CoupledFrame(db, after, s);
        }
      } else {
        var s := db.requests[q].series.value;
        assert RequestOk(db, q);
        assert Coupled(db, s);
        assert LiveFor(db, q, s);
        if Coupled(after, s) {
          if db.series[s].status == Running {
            var i :| LiveFor(after, i, s);
            assert LiveFor(db, i, s);
          } else {
            assert LiveFor(db, db.cycles[db.series[s].pausedCycle.value].request.value, s);
          }
          assert false;
        }
      }
    }
  }

  // ---- cancellation ----

  lemma CancelKeepsRows(db: Db, r: RunId, reason: string, now: int)
    requires Inv(db) && r < |db.runs|
    ensures RowsOk(CanceledTables(db, r, reason, now))
  {
    var after := CanceledTables(db, r, reason, now);
    forall i | 0 <= i < |after.requests| ensures RequestOk(after, i) { assert RequestOk(db, i); }
    forall s | 0 <= s < |after.series| ensures SeriesOk(after, s) { assert SeriesOk(db, s); }
    forall c | 0 <= c < |after.cycles| ensures CycleOk(after, c) { assert CycleOk(db, c); }
  }

  lemma CancelKeepsCoupling(db: Db, r: RunId, reason: string, now: int)
    requires Inv(db) && r < |db.runs|
    ensures SeriesCoupled(CanceledTables(db, r, reason, now))
  {
    var after := CanceledTables(db, r, reason, now);
    forall s | 0 <= s < |after.series| ensures Coupled(after, s) {
      assert Coupled(db, s) && SeriesOk(db, s);
      forall i | 0 <= i < |db.requests| && db.requests[i].series == Some(s)
        ensures db.requests[i].run == db.series[s].run
        ensures after.requests[i] == CanceledRequestRow(db.requests[i], r, now)
      {
        assert RequestOk(db, i);
      }
      if db.series[s].run == r {
        assert forall i :: !LiveFor(after, i, s);
      } else {
        CoupledFrame(db, after, s);
      }
    }
  }

  lemma CancelKeepsInv(db: Db, r: RunId, reason: string, now: int)
    requires Inv(db) && Cancel(db, r, reason, now).Ok?
    ensures Inv(Cancel(db, r, reason, now).value)
  {
    CancelKeepsRows(db, r, reason, now);
    CancelKeepsCoupling(db, r, reason, now);
    var after := CanceledTables(db, r, reason, now);
    assert OneActive(after);
    assert OneDispatching(after);
    IdentityFrame(db, after);
  }

  // ---- steps of TeamRunService and of the orchestrator ----

  lemma CreateCycleKeepsInv(db: Db, q: RequestId)
    requires Inv(db) && CreateCycle(db, q).Ok?
    ensures Inv(CreateCycle(db, q).value.0)
  {
    var after := CreateCycle(db, q).value.0;
    CyclesFrame(db, after);
  }

  // Nothing here depends on a cycle's status, error or proposal.
  lemma CyclesFrame(db: Db, after: Db)
    requires Inv(db)
    requires after.requests == db.requests && after.series == db.series
    requires |db.runs| <= |after.runs|
    requires forall r :: 0 <= r < |db.runs| ==> after.runs[r].continuous == db.runs[r].continuous
    requires |db.cycles| <= |after.cycles|
    requires forall c :: 0 <= c < |db.cycles| ==>
      after.cycles[c].request == db.cycles[c].request && after.cycles[c].run == db.cycles[c].run
    requires forall c :: |db.cycles| <= c < |after.cycles| ==> CycleOk(after, c)
    requires OneCyclePerRequest(after)
    ensures Inv(after)
  {
    forall i | 0 <= i < |after.requests| ensures RequestOk(after, i) { assert RequestOk(db, i); }
    forall s | 0 <= s < |after.series| ensures SeriesOk(after, s) && Coupled(after, s) {
      assert SeriesOk(db, s) && Coupled(db, s);
      CoupledFrame(db, after, s);
    }
    forall c | 0 <= c < |after.cycles| ensures CycleOk(after, c) {
      if c < |db.cycles| { assert CycleOk(db, c); }
    }
    IdentityFrame(db, after);
  }

  // A cycle's request and run never change; everything else about it may.
  lemma CycleUpdateKeepsInv(db: Db, c: CycleId, status: CycleStatus, error: string, proposal: Option<string>)
    requires Inv(db) && c < |db.cycles|
    ensures Inv(db.(cycles := db.cycles[c := db.cycles[c].(status := status, error := error, proposal := proposal)]))
  {
    CyclesFrame(db,
        db.(cycles := db.cycles[c := db.cycles[c].(status := status, error := error, proposal := proposal)]));
  }

  lemma PublishKeepsInv(db: Db, c: CycleId)
    requires Inv(db)
    ensures Inv(PublishDecision(db, c))
  {
    if DecisionOn(db, c, CycleRunning, {Running, WaitingInterval, PausedUser}) {
      var q := db.cycles[c].request.value;
      var s := db.requests[q].series.value;
      PauseKeepsInv(db, c, q, PausedUser, "waiting_for_user");
      CycleUpdateKeepsInv(Pause(db, c, q, PausedUser, "waiting_for_user").value.0, c, WaitingForUser, "",
          db.cycles[c].proposal);
    }
  }

  lemma AnswerKeepsInv(db: Db, c: CycleId)
    requires Inv(db)
    ensures Inv(AnswerDecision(db, c))
  {
    if DecisionOn(db, c, WaitingForUser, {PausedUser}) {
      var q := db.cycles[c].request.value;
      var s := db.requests[q].series.value;
      var row := db.series[s].(status := Running, nextRunAt := None, pauseReason := None, pausedCycle := None);
      var mid := db.(series := db.series[s := row]);
      DispatchingHoldsNextSlot(db, q);
      assert SeriesOk(db, s);
      assert LiveFor(mid, q, s);
      assert forall i :: LiveFor(mid, i, s) == LiveFor(db, i, s);
      SeriesUpdateKeepsInv(db, s, row);
      CycleUpdateKeepsInv(mid, c, CycleRunning, "", db.cycles[c].proposal);
    }
  }
}
