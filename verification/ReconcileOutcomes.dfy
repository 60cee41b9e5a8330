/**
  What startup reconcile does to every row: each leftover claim goes back to the queue, is settled
  or is paused, as its cycle says; then the timer runs once.
*/
module ReconcileOutcomes {
  import opened Outcomes
  import opened CycleTables
  import opened CycleSteps
  import opened CycleInvariant
  import opened CycleReconcile
  import opened CycleOutcomes
  import opened Ordering

  // A claim whose cycle has this status.
  function RequestAfter(row: Request, status: CycleStatus, now: int): Request {
    match status
    case Completed => row.(status := ReqSettled, settledAt := Some(now))
    case CompletedWithFailures => row.(status := ReqSettled, settledAt := Some(now))
    case Blocked => row.(status := ReqSettled, settledAt := Some(now))
    case Failed => row.(status := ReqSettled, settledAt := Some(now))
    case CycleCanceled => row.(status := ReqCanceled, settledAt := Some(now))
    case _ => row
  }

  function PausedSeries(row: Series, status: SeriesStatus, reason: string, c: CycleId): Series {
    Series(row.run, row.number, status, row.target, row.settled, row.interval, None, Some(reason), Some(c))
  }

  // The series of such a claim.
  predicate SeriesAfter(before: Series, after: Series, c: CycleId, cycle: Cycle, now: int) {
    match cycle.status
    case Interrupted => after == PausedSeries(before, PausedInterrupted, "interrupted", c)
    case WaitingForUser => after == PausedSeries(before, PausedUser, "waiting_for_user", c)
    case CycleQueued => after == before
    case CycleRunning => after == before
    case WaitingForProvider => after == before
    case CyclePaused => after == before
    case _ => SeriesSettled(before, after, c, cycle, now)
  }

  // A claim without a cycle goes back to the queue; any other follows its cycle.
  ghost predicate RequestHandled(db: Db, q: RequestId, row: Request, now: int)
    requires q < |db.requests|
  {
    && (!HasCycle(db, q) ==> row == db.requests[q].(status := Queued, claimedAt := None))
    && (forall c :: 0 <= c < |db.cycles| && db.cycles[c].request == Some(q) ==>
         row == RequestAfter(db.requests[q], db.cycles[c].status, now))
  }

  ghost predicate SeriesHandled(db: Db, q: RequestId, before: Series, after: Series, now: int) {
    && (!HasCycle(db, q) ==> after == before)
    && (forall c :: 0 <= c < |db.cycles| && db.cycles[c].request == Some(q) ==>
         SeriesAfter(before, after, c, db.cycles[c], now))
  }

  // One claim: its row, the row of its series, and nothing else.
  ghost predicate Handles(db: Db, after: Db, q: RequestId, now: int) {
    && q < |db.requests| == |after.requests| && |after.series| == |db.series|
    && after == db.(requests := db.requests[q := after.requests[q]], series := after.series)
    && RequestHandled(db, q, after.requests[q], now)
    && (db.requests[q].series.None? ==> after.series == db.series)
    && (db.requests[q].series.Some? ==>
         var s := db.requests[q].series.value;
         && s < |db.series| && after.series == db.series[s := after.series[s]]
         && SeriesHandled(db, q, db.series[s], after.series[s], now))
  }

  lemma {:induction false} OnlyCycle(db: Db, q: RequestId, c: CycleId)
    requires OneCyclePerRequest(db) && c < |db.cycles| && db.cycles[c].request == Some(q)
    ensures CycleOf(db.cycles, q) == Some(c)
  {
  }

  lemma {:induction false} SettledClaim(db: Db, q: RequestId, c: CycleId, now: int)
    requires Inv(db) && q < |db.requests| && db.requests[q].status == Dispatching
    requires c < |db.cycles| && db.cycles[c].request == Some(q) && TerminalCycle(db.cycles[c].status)
    ensures Settle(db, c, now).Ok? && Handles(db, Settle(db, c, now).value.0, q, now)
  {
    SettleDecides(db, c, now);
    FirstSettlement(db, c, now);
    var after := Settle(db, c, now).value.0;
    forall d | 0 <= d < |db.cycles| && db.cycles[d].request == Some(q) ensures d == c {
      OnlyCycle(db, q, c);
      OnlyCycle(db, q, d);
    }
    assert HasCycle(db, q);
  }

  lemma {:induction false} PausedClaim(
      db: Db, q: RequestId, c: CycleId, expected: CycleStatus, status: SeriesStatus, reason: string, now: int)
    requires Inv(db) && q < |db.requests| && db.requests[q].status == Dispatching
    requires c < |db.cycles| && db.cycles[c].request == Some(q) && db.cycles[c].status == expected
    requires || (expected == Interrupted && status == PausedInterrupted && reason == "interrupted")
             || (expected == WaitingForUser && status == PausedUser && reason == "waiting_for_user")
    ensures var paused := PauseById(db, c, expected, status, reason); paused.Ok? && Handles(db, paused.value.0, q, now)
  {
    PauseByIdIff(db, c, expected, status, reason);
    forall d | 0 <= d < |db.cycles| && db.cycles[d].request == Some(q) ensures d == c {
      OnlyCycle(db, q, c);
      OnlyCycle(db, q, d);
    }
    assert HasCycle(db, q);
    assert db.requests[q := db.requests[q]] == db.requests;
  }

  lemma {:induction false} UnfinishedClaim(db: Db, q: RequestId, c: CycleId, now: int)
    requires Inv(db) && q < |db.requests| && c < |db.cycles| && db.cycles[c].request == Some(q)
    requires db.cycles[c].status in {CycleQueued, CycleRunning, WaitingForProvider, CyclePaused}
    ensures Handles(db, db, q, now)
  {
    forall d | 0 <= d < |db.cycles| && db.cycles[d].request == Some(q) ensures d == c {
      OnlyCycle(db, q, c);
      OnlyCycle(db, q, d);
    }
    assert HasCycle(db, q) && RequestOk(db, q);
    assert db.requests[q := db.requests[q]] == db.requests;
    if db.requests[q].series.Some? {
      var s := db.requests[q].series.value;
      assert db.series[s := db.series[s]] == db.series;
    }
  }

  lemma {:induction false} ReconcileOneHandles(db: Db, q: RequestId, now: int)
    requires Inv(db) && q < |db.requests| && db.requests[q].status == Dispatching
    ensures ReconcileOne(db, q, now).Ok? && Inv(ReconcileOne(db, q, now).value)
    ensures Handles(db, ReconcileOne(db, q, now).value, q, now)
  {
    ReconcileOneOutcome(db, q, now);
    HasCycleIsFound(db, q);
    var cycle := CycleOf(db.cycles, q);
    if cycle.None? {
      RequeueReturns(db, q);
      assert RequestOk(db, q);
      if db.requests[q].series.Some? {
        var s := db.requests[q].series.value;
        assert db.series[s := db.series[s]] == db.series;
      }
    } else {
      var c := cycle.value;
      var status := db.cycles[c].status;
      if TerminalCycle(status) {
        SettledClaim(db, q, c, now);
      } else if status == Interrupted {
        PausedClaim(db, q, c, Interrupted, PausedInterrupted, "interrupted", now);
      } else if status == WaitingForUser {
        PausedClaim(db, q, c, WaitingForUser, PausedUser, "waiting_for_user", now);
      } else {
        UnfinishedClaim(db, q, c, now);
      }
    }
  }

  // The claims of the list are handled, and nothing else is touched.
  ghost predicate HandlesAll(db: Db, after: Db, claims: seq<RequestId>, now: int) {
    && |after.requests| == |db.requests| && |after.series| == |db.series|
    && after == db.(requests := after.requests, series := after.series)
    && (forall q :: 0 <= q < |db.requests| ==>
         if q in claims then RequestHandled(db, q, after.requests[q], now) else after.requests[q] == db.requests[q])
    && (forall q, s :: 0 <= q < |db.requests| && q in claims && 0 <= s < |db.series| && db.requests[q].series == Some(s) ==>
         SeriesHandled(db, q, db.series[s], after.series[s], now))
    && (forall s :: 0 <= s < |db.series| && NotOf(db, claims, s) ==> after.series[s] == db.series[s])
  }

  // No claim of the list is of this series.
  ghost predicate NotOf(db: Db, claims: seq<RequestId>, s: SeriesId) {
    forall q :: 0 <= q < |db.requests| && q in claims ==> db.requests[q].series != Some(s)
  }

  // Two claims never share a series.
  lemma {:induction false} OwnSeries(db: Db, p: RequestId, q: RequestId)
    requires Inv(db) && p < |db.requests| && q < |db.requests| && p != q
    requires db.requests[p].status == Dispatching && db.requests[q].status == Dispatching && db.requests[q].series.Some?
    ensures db.requests[p].series != db.requests[q].series
  {
    var s := db.requests[q].series.value;
    DispatchingHoldsNextSlot(db, q);
    assert Coupled(db, s) && LiveFor(db, q, s);
    assert db.requests[p].series == Some(s) ==> LiveFor(db, p, s);
  }

  lemma {:induction false} HandlesJoin(db: Db, mid: Db, after: Db, claims: seq<RequestId>, now: int)
    requires Inv(db) && claims != [] && Distinct(claims)
    requires forall k :: 0 <= k < |claims| ==> claims[k] < |db.requests| && db.requests[claims[k]].status == Dispatching
    requires Handles(db, mid, claims[0], now) && HandlesAll(mid, after, claims[1..], now)
    ensures HandlesAll(db, after, claims, now)
  {
    var q, rest := claims[0], claims[1..];
    assert claims == [q] + rest && q !in rest;
    assert forall p :: HasCycle(mid, p) <==> HasCycle(db, p);
    forall p | 0 <= p < |db.requests|
      ensures if p in claims then RequestHandled(db, p, after.requests[p], now) else after.requests[p] == db.requests[p]
    {
      assert p in claims <==> p == q || p in rest;
    }
    forall p, s | 0 <= p < |db.requests| && p in claims && 0 <= s < |db.series| && db.requests[p].series == Some(s)
      ensures SeriesHandled(db, p, db.series[s], after.series[s], now)
    {
      SeriesJoin(db, mid, after, claims, now, p, s);
    }
    forall s | 0 <= s < |db.series| && NotOf(db, claims, s) ensures after.series[s] == db.series[s] {
      assert db.requests[q].series != Some(s);
      forall p | 0 <= p < |mid.requests| && p in rest ensures mid.requests[p].series != Some(s) { assert p in claims; }
      assert NotOf(mid, rest, s);
    }
  }

  lemma {:induction false} SeriesJoin(
      db: Db, mid: Db, after: Db, claims: seq<RequestId>, now: int, p: RequestId, s: SeriesId)
    requires Inv(db) && claims != [] && Distinct(claims)
    requires forall k :: 0 <= k < |claims| ==> claims[k] < |db.requests| && db.requests[claims[k]].status == Dispatching
    requires Handles(db, mid, claims[0], now) && HandlesAll(mid, after, claims[1..], now)
    requires p < |db.requests| && p in claims && s < |db.series| && db.requests[p].series == Some(s)
    ensures SeriesHandled(db, p, db.series[s], after.series[s], now)
  {
    var q, rest := claims[0], claims[1..];
    assert forall c :: HasCycle(mid, c) <==> HasCycle(db, c);
    if p == q {
      forall o | 0 <= o < |mid.requests| && o in rest ensures mid.requests[o].series != Some(s) {
        var k :| 0 <= k < |rest| && rest[k] == o;
        assert claims[k + 1] == o;
        OwnSeries(db, o, q);
      }
      assert NotOf(mid, rest, s);
    } else {
      assert p in rest by { assert claims == [q] + rest; }
      OwnSeries(db, q, p);
    }
  }

  lemma {:induction false} ClaimsHandled(db: Db, claims: seq<RequestId>, now: int)
    requires Inv(db) && Distinct(claims)
    requires forall k :: 0 <= k < |claims| ==> claims[k] < |db.requests| && db.requests[claims[k]].status == Dispatching
    ensures ReconcileClaims(db, claims, now).Ok? && Inv(ReconcileClaims(db, claims, now).value)
    ensures HandlesAll(db, ReconcileClaims(db, claims, now).value, claims, now)
    decreases |claims|
  {
    if claims != [] {
      var q, rest := claims[0], claims[1..];
      ReconcileOneHandles(db, q, now);
      var mid := ReconcileOne(db, q, now).value;
      assert forall k :: 0 <= k < |rest| ==> rest[k] == claims[k + 1] && rest[k] != q;
      ClaimsHandled(mid, rest, now);
      HandlesJoin(db, mid, ReconcileClaims(mid, rest, now).value, claims, now);
    }
  }

  // ---- the whole of it ----

  /**
    The tables after the claims, spelled out: exactly the requests that were being dispatched are
    handled, each by its cycle, with their series; no other row has changed.
  */
  ghost predicate Recovered(db: Db, mid: Db, now: int) {
    && |mid.requests| == |db.requests| && |mid.series| == |db.series|
    && mid == db.(requests := mid.requests, series := mid.series)
    && (forall q :: 0 <= q < |db.requests| ==>
         if db.requests[q].status == Dispatching then RequestHandled(db, q, mid.requests[q], now)
         else mid.requests[q] == db.requests[q])
    && (forall q, s :: 0 <= q < |db.requests| && 0 <= s < |db.series| && IsClaimOf(db.requests[q], s) ==>
         SeriesHandled(db, q, db.series[s], mid.series[s], now))
    && (forall s :: 0 <= s < |db.series| && Unclaimed(db, s) ==> mid.series[s] == db.series[s])
  }

  predicate IsClaimOf(q: Request, s: SeriesId) { q.status == Dispatching && q.series == Some(s) }

  ghost predicate Unclaimed(db: Db, s: SeriesId) {
    forall q :: 0 <= q < |db.requests| ==> !IsClaimOf(db.requests[q], s)
  }

  lemma {:induction false} AllClaimsHandled(db: Db, mid: Db, claims: seq<RequestId>, now: int)
    requires HandlesAll(db, mid, claims, now)
    requires forall q: nat :: q in claims <==> q < |db.requests| && db.requests[q].status == Dispatching
    ensures Recovered(db, mid, now)
  {
    forall s | 0 <= s < |db.series| && Unclaimed(db, s) ensures mid.series[s] == db.series[s] {
      assert NotOf(db, claims, s);
    }
  }

  // Some due series of the tables has no objective to fall back on.
  ghost predicate SomeWants(db: Db, now: int) {
    exists s :: 0 <= s < |db.series| && Due(db, s, now) && WantsObjective(db, db.series[s].run)
  }

  lemma {:induction false} TickOverDue(db: Db, now: int)
    requires Inv(db)
    ensures var tick := Tick(db, DueSeries(db, now), now);
      && (tick.Err? <==> SomeWants(db, now))
      && (tick.Ok? ==> Ticked(db, tick.value.0, DueSeries(db, now), tick.value.1, now))
  {
    var due := DueSeries(db, now);
    TickDecides(db, due, now);
    assert forall k :: 0 <= k < |due| ==> due[k] in due;
    if SomeWants(db, now) {
      var s :| 0 <= s < |db.series| && Due(db, s, now) && WantsObjective(db, db.series[s].run);
      assert s in due;
      var k :| 0 <= k < |due| && due[k] == s;
      assert WantsObjective(db, db.series[due[k]].run);
    }
  }

  // After the tick, which has handled exactly the due series.
  ghost predicate TickedOnce(mid: Db, after: Db, now: int) {
    exists result :: Ticked(mid, after, DueSeries(mid, now), result, now)
  }

  // Reconcile by way of these tables.
  ghost predicate ReconcilesBy(db: Db, mid: Db, now: int) {
    && Recovered(db, mid, now) && Inv(mid)
    && (Reconcile(db, now).Err? <==> SomeWants(mid, now))
    && (Reconcile(db, now).Ok? ==> TickedOnce(mid, Reconcile(db, now).value.0, now))
  }

  /**
    Reconcile handles the claims and then ticks once over the series that are due by then; it fails
    exactly when one of those has no objective to fall back on.
  */
  lemma {:induction false} ReconcileDecides(db: Db, now: int)
    requires Inv(db)
    ensures exists mid :: ReconcilesBy(db, mid, now)
  {
    var claims := DispatchingList(db);
    assert forall k :: 0 <= k < |claims| ==> claims[k] in claims;
    ClaimsHandled(db, claims, now);
    var mid := ReconcileClaims(db, claims, now).value;
    AllClaimsHandled(db, mid, claims, now);
    TickOverDue(mid, now);
    ByWayOf(db, mid, now);
  }

  lemma {:induction false} ByWayOf(db: Db, mid: Db, now: int)
    requires ReconcileClaims(db, DispatchingList(db), now) == Ok(mid) && Recovered(db, mid, now) && Inv(mid)
    requires var tick := Tick(mid, DueSeries(mid, now), now);
      && (tick.Err? <==> SomeWants(mid, now))
      && (tick.Ok? ==> Ticked(mid, tick.value.0, DueSeries(mid, now), tick.value.1, now))
    ensures ReconcilesBy(db, mid, now)
  {
  }

  // What has become of one claim.
  ghost predicate ClaimFollows(db: Db, after: Db, q: RequestId, c: CycleId, now: int)
    requires q < |db.requests| && c < |db.cycles|
  {
    && q < |after.requests| && |after.series| == |db.series|
    && after.requests[q] == RequestAfter(db.requests[q], db.cycles[c].status, now)
    && (forall s :: 0 <= s < |db.series| && db.requests[q].series == Some(s) ==>
         && (db.cycles[c].status == Interrupted ==>
              after.series[s] == PausedSeries(db.series[s], PausedInterrupted, "interrupted", c))
         && (db.cycles[c].status == WaitingForUser ==>
              after.series[s] == PausedSeries(db.series[s], PausedUser, "waiting_for_user", c)))
  }

  /**
    Read off for one claim: an interrupted cycle leaves its series paused_interrupted on that cycle,
    one that waits for the user leaves it paused_user, and a finished cycle has closed its request.
  */
  lemma {:induction false} ClaimAfterReconcile(db: Db, now: int, q: RequestId, c: CycleId)
    requires Inv(db) && Reconcile(db, now).Ok? && q < |db.requests| && db.requests[q].status == Dispatching
    requires c < |db.cycles| && db.cycles[c].request == Some(q)
    ensures ClaimFollows(db, Reconcile(db, now).value.0, q, c, now)
  {
    ReconcileDecides(db, now);
    var mid :| ReconcilesBy(db, mid, now);
    FollowsThrough(db, mid, Reconcile(db, now).value.0, q, c, now);
  }

  lemma {:induction false} FollowsThrough(db: Db, mid: Db, after: Db, q: RequestId, c: CycleId, now: int)
    requires Recovered(db, mid, now) && TickedOnce(mid, after, now)
    requires q < |db.requests| && db.requests[q].status == Dispatching
    requires c < |db.cycles| && db.cycles[c].request == Some(q)
    ensures ClaimFollows(db, after, q, c, now)
  {
    var result :| Ticked(mid, after, DueSeries(mid, now), result, now);
    assert after.requests[q] == after.requests[..|mid.requests|][q];
    assert RequestHandled(db, q, mid.requests[q], now);
    forall s | 0 <= s < |db.series| && db.requests[q].series == Some(s)
      ensures SeriesAfter(db.series[s], mid.series[s], c, db.cycles[c], now)
      ensures mid.series[s].status != WaitingInterval ==> after.series[s] == mid.series[s]
    {
      assert IsClaimOf(db.requests[q], s);
      assert SeriesHandled(db, q, db.series[s], mid.series[s], now);
      if mid.series[s].status != WaitingInterval { assert s !in DueSeries(mid, now); }
    }
  }

  /** A claim whose cycle was never created is queued again, as before it was claimed. */
  lemma {:induction false} ClaimWithoutCycle(db: Db, now: int, q: RequestId)
    requires Inv(db) && Reconcile(db, now).Ok? && q < |db.requests| && db.requests[q].status == Dispatching
    requires forall c :: 0 <= c < |db.cycles| ==> db.cycles[c].request != Some(q)
    ensures var after := Reconcile(db, now).value.0;
      q < |after.requests| && after.requests[q] == db.requests[q].(status := Queued, claimedAt := None)
  {
    ReconcileDecides(db, now);
    var mid :| ReconcilesBy(db, mid, now);
    QueuedAgain(db, mid, Reconcile(db, now).value.0, q, now);
  }

  lemma {:induction false} QueuedAgain(db: Db, mid: Db, after: Db, q: RequestId, now: int)
    requires Recovered(db, mid, now) && TickedOnce(mid, after, now)
    requires q < |db.requests| && db.requests[q].status == Dispatching && !HasCycle(db, q)
    ensures q < |after.requests| && after.requests[q] == db.requests[q].(status := Queued, claimedAt := None)
  {
    var result :| Ticked(mid, after, DueSeries(mid, now), result, now);
    assert after.requests[q] == after.requests[..|mid.requests|][q];
    assert RequestHandled(db, q, mid.requests[q], now);
  }
}
