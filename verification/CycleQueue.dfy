/**
  Claims are first-in first-out: a request's queue position is the number of the successful
  claim that takes it, and putting a claim back restores everyone's place.
*/
module CycleQueue {
  import opened Outcomes
  import opened CycleTables
  import opened CycleSteps
  import opened CycleInvariant
  import opened CycleRuns

  // Rows below n that are queued for q's run no later than q.
  function CountAhead(requests: seq<Request>, q: RequestId, n: nat): nat
    requires q < |requests| && n <= |requests|
  {
    if n == 0 then 0
    else
      CountAhead(requests, q, n - 1)
      + if IsQueued(requests[n - 1], requests[q].run) && (n - 1 == q || Earlier(requests, n - 1, q)) then 1 else 0
  }

  function QueuePosition(requests: seq<Request>, q: RequestId): nat
    requires q < |requests|
  {
    if requests[q].status != Queued then 0 else CountAhead(requests, q, |requests|)
  }

  // The queue of a run is as before, except for rows queued behind it.
  ghost predicate QueueKept(before: seq<Request>, after: seq<Request>, r: RunId) {
    && |before| <= |after|
    && (forall i :: 0 <= i < |before| ==>
      (IsQueued(after[i], r) <==> IsQueued(before[i], r)) && after[i].createdAt == before[i].createdAt
          && after[i].run == before[i].run)
    && (forall i, j :: 0 <= j < |before| <= i < |after| && IsQueued(after[i], r) && IsQueued(before[j], r) ==>
      before[j].createdAt <= after[i].createdAt)
  }

  lemma {:induction false} CountKept(before: seq<Request>, after: seq<Request>, q: RequestId, n: nat)
    requires q < |before| && IsQueued(before[q], before[q].run) && QueueKept(before, after, before[q].run)
        && n <= |after|
    ensures CountAhead(after, q, n) == CountAhead(before, q, if n <= |before| then n else |before|)
  {
    if n > 0 {
      CountKept(before, after, q, n - 1);
    }
  }

  lemma PositionKept(before: seq<Request>, after: seq<Request>, q: RequestId)
    requires q < |before| && before[q].status == Queued && QueueKept(before, after, before[q].run)
    ensures after[q].status == Queued && QueuePosition(after, q) == QueuePosition(before, q)
  {
    assert IsQueued(after[q], before[q].run);
    CountKept(before, after, q, |after|);
  }

  // Taking q0 out of the queue lets exactly those behind it step forward.
  lemma {:induction false} CountAfterTaking(before: seq<Request>, after: seq<Request>, q0: RequestId, q: RequestId,
      n: nat)
    requires q < |before| == |after| && q0 < |before| && q != q0 && n <= |before|
    requires IsQueued(before[q0], before[q].run) && IsQueued(before[q], before[q].run) && Earlier(before, q0, q)
    requires after == before[q0 := after[q0]] && after[q0].status == Dispatching
    ensures CountAhead(before, q, n) == CountAhead(after, q, n) + if q0 < n then 1 else 0
  {
    if n > 0 {
      CountAfterTaking(before, after, q0, q, n - 1);
    }
  }

  lemma {:induction false} CountPositive(requests: seq<Request>, q: RequestId, j: RequestId, n: nat)
    requires q < |requests| && j < n <= |requests|
    requires IsQueued(requests[j], requests[q].run) && (j == q || Earlier(requests, j, q))
    ensures CountAhead(requests, q, n) >= 1
    ensures j != q && q < n && IsQueued(requests[q], requests[q].run) ==> CountAhead(requests, q, n) >= 2
  {
    if n > 1 && j < n - 1 {
      CountPositive(requests, q, j, n - 1);
    } else if j != q && q < n && IsQueued(requests[q], requests[q].run) {
      CountPositive(requests, q, q, n - 1);
    }
  }

  lemma {:induction false} CountOfFirst(requests: seq<Request>, q: RequestId, n: nat)
    requires q < |requests| && n <= |requests|
    requires forall j {:trigger requests[j]} ::
      0 <= j < |requests| && IsQueued(requests[j], requests[q].run) && j != q ==> Earlier(requests, q, j)
    ensures CountAhead(requests, q, n) <= 1
    ensures n <= q ==> CountAhead(requests, q, n) == 0
  {
    if n > 0 {
      CountOfFirst(requests, q, n - 1);
    }
  }

  /** The next claim takes the request at position one, and only that one. */
  lemma FirstIsNext(requests: seq<Request>, q: RequestId)
    requires q < |requests| && requests[q].status == Queued
    ensures QueuePosition(requests, q) >= 1
    ensures QueuePosition(requests, q) == 1 <==> NextQueued(requests, requests[q].run) == Some(q)
  {
    CountPositive(requests, q, q, |requests|);
    var next := NextQueued(requests, requests[q].run).value;
    if next == q {
      CountOfFirst(requests, q, |requests|);
    } else {
      CountPositive(requests, q, next, |requests|);
    }
  }

  // A successful claim: what it takes and what happens to the others' places.
  lemma ClaimStep(db: Db, r: RunId, now: int, q: RequestId)
    requires Claim(db, r, now).Ok? && Claim(db, r, now).value.1.Some?
    requires q < |db.requests| && IsQueued(db.requests[q], r)
    ensures var (after, taken) := Claim(db, r, now).value;
      && (taken == Some(q) <==> QueuePosition(db.requests, q) == 1)
      && (taken != Some(q) ==>
        && after.requests[q] == db.requests[q]
        && QueuePosition(after.requests, q) == QueuePosition(db.requests, q) - 1)
  {
    FirstIsNext(db.requests, q);
    var (after, taken) := Claim(db, r, now).value;
    if taken != Some(q) {
      CountAfterTaking(db.requests, after.requests, taken.value, q, |db.requests|);
    }
  }

  // ---- the other steps leave the queue alone ----

  function OpTime(op: Op): Option<int> {
    match op
    case EnqueueOp(_, _, now) => Some(now)
    case CreateSeriesOp(_, _, _, _, now) => Some(now)
    case RestartOp(_, now) => Some(now)
    case RetryOp(_, _, now) => Some(now)
    case TickOp(_, now) => Some(now)
    case _ => None
  }

  // Requests are queued at times that do not run backwards.
  ghost predicate InOrder(db: Db, op: Op) {
    OpTime(op).Some? ==> forall i :: 0 <= i < |db.requests| ==> db.requests[i].createdAt <= OpTime(op).value
  }

  // The steps that take a queued request away other than by a claim, or put one back.
  predicate Disturbs(db: Db, op: Op, r: RunId) {
    match op
    case CancelOp(q, _, _) => q == r
    case RequeueOp(q) => q < |db.requests| && db.requests[q].run == r
    case MarkSettledOp(q, _) => q < |db.requests| && db.requests[q].run == r
    case _ => false
  }

  predicate Claims(db: Db, op: Op, r: RunId) {
    match op
    case ClaimOp(q, now) => q == r && Claim(db, q, now).Ok? && Claim(db, q, now).value.1.Some?
    case _ => false
  }

  // Rows were only appended, at time now.
  ghost predicate Appended(before: seq<Request>, after: seq<Request>, now: int) {
    && |before| <= |after|
    && (forall i :: 0 <= i < |before| ==> after[i] == before[i])
    && (forall i :: |before| <= i < |after| ==> after[i].createdAt == now)
  }

  lemma AppendedCompose(a: seq<Request>, b: seq<Request>, c: seq<Request>, now: int)
    requires Appended(a, b, now) && Appended(b, c, now)
    ensures Appended(a, c, now)
  {
  }

  lemma TickOneAppends(db: Db, s: SeriesId, now: int)
    requires s < |db.series| && TickOne(db, s, now).Ok?
    ensures Appended(db.requests, TickOne(db, s, now).value.0.requests, now)
  {
  }

  lemma {:induction false} TickAppends(db: Db, due: seq<SeriesId>, now: int)
    requires Tick(db, due, now).Ok?
    ensures Appended(db.requests, Tick(db, due, now).value.0.requests, now)
    decreases |due|
  {
    if due != [] {
      var mid := TickOne(db, due[0], now).value.0;
      TickOneAppends(db, due[0], now);
      TickAppends(mid, due[1..], now);
      AppendedCompose(db.requests, mid.requests, Tick(mid, due[1..], now).value.0.requests, now);
    }
  }

  lemma NewSeriesAppends(db: Db, r: RunId, target: int, interval: int, now: int, first: Option<string>)
    requires Inv(db) && InitializeSeries(db, r, target, interval, now, first).Ok?
    ensures Appended(db.requests, InitializeSeries(db, r, target, interval, now, first).value.0.requests, now)
  {
    InitializeResult(db, r, target, interval, now, first);
    var after := InitializeSeries(db, r, target, interval, now, first).value.0;
    assert forall i :: 0 <= i < |db.requests| ==> after.requests[i] == after.requests[..|db.requests|][i];
  }

  lemma QueueingStepAppends(db: Db, op: Op)
    requires Inv(db) && Allowed(db, op) && OpTime(op).Some?
    ensures Appended(db.requests, Apply(db, op).requests, OpTime(op).value)
  {
    match op
    case CreateSeriesOp(r, target, interval, first, now) =>
      if CreateSeries(db, r, target, interval, now, first).Ok? {
        NewSeriesAppends(db, r, target, interval, now, first);
      }
    case RestartOp(r, now) =>
      if RestartSeries(db, r, now).Ok? {
        var latest := LatestSeries(db.series, r).value;
        NewSeriesAppends(db, r, db.series[latest].target, db.series[latest].interval, now, None);
      }
    case TickOp(due, now) => if Tick(db, due, now).Ok? { TickAppends(db, due, now); }
    case _ =>
  }

  lemma ClosingKeepsQueue(db: Db, op: Op, r: RunId)
    requires Inv(db) && !Disturbs(db, op, r)
    requires op.CancelOp? || op.MarkSettledOp?
    ensures QueueKept(db.requests, Apply(db, op).requests, r)
  {
  }

  lemma SettlingKeepsQueue(db: Db, c: CycleId, now: int, r: RunId)
    requires Inv(db)
    ensures QueueKept(db.requests, Apply(db, SettleOp(c, now)).requests, r)
  {
  }

  lemma ClaimingKeepsQueue(db: Db, op: Op, r: RunId)
    requires Inv(db) && !Disturbs(db, op, r) && !Claims(db, op, r)
    requires op.RequeueOp? || op.ClaimOp?
    ensures QueueKept(db.requests, Apply(db, op).requests, r)
  {
  }

  lemma StepKeepsQueue(db: Db, op: Op, r: RunId)
    requires Inv(db) && Allowed(db, op) && InOrder(db, op) && !Disturbs(db, op, r) && !Claims(db, op, r)
    ensures QueueKept(db.requests, Apply(db, op).requests, r)
  {
    if OpTime(op).Some? {
      QueueingStepAppends(db, op);
    } else if op.SettleOp? {
      SettlingKeepsQueue(db, op.cycle, op.now, r);
    } else if op.CancelOp? || op.MarkSettledOp? {
      ClosingKeepsQueue(db, op, r);
    } else if op.RequeueOp? || op.ClaimOp? {
      ClaimingKeepsQueue(db, op, r);
    } else {
      assert Apply(db, op).requests == db.requests;
    }
  }

  // ---- histories ----

  function ClaimsBetween(states: seq<Db>, ops: seq<Op>, r: RunId, k: nat, n: nat): nat
    requires |states| == |ops| + 1 && k <= n <= |ops|
    decreases n
  {
    if n == k then 0
    else ClaimsBetween(states, ops, r, k, n - 1) + if Claims(states[n - 1], ops[n - 1], r) then 1 else 0
  }

  ghost predicate Undisturbed(states: seq<Db>, ops: seq<Op>, r: RunId, k: nat, n: nat)
    requires |states| == |ops| + 1 && k <= n <= |ops|
  {
    forall i :: k <= i < n ==> InOrder(states[i], ops[i]) && !Disturbs(states[i], ops[i], r)
  }

  // A waiting request moves one place forward with every successful claim and otherwise stays.
  lemma {:induction false} PositionAfterClaims(states: seq<Db>, ops: seq<Op>, q: RequestId, k: nat, n: nat)
    requires History(states, ops) && k <= n <= |ops| && q < |states[k].requests|
        && states[k].requests[q].status == Queued
    requires Undisturbed(states, ops, states[k].requests[q].run, k, n)
    requires ClaimsBetween(states, ops, states[k].requests[q].run, k, n) < QueuePosition(states[k].requests, q)
    ensures q < |states[n].requests| && states[n].requests[q].status == Queued
    ensures states[n].requests[q].run == states[k].requests[q].run
    ensures QueuePosition(states[n].requests, q)
      == QueuePosition(states[k].requests, q) - ClaimsBetween(states, ops, states[k].requests[q].run, k, n)
    decreases n
  {
    if k < n {
      PositionAfterClaims(states, ops, q, k, n - 1);
      assert Inv(EMPTY);
      StepsKeepInv(states, ops, n - 1);
      assert StepAt(states, ops, n - 1);
      var db, op, r := states[n - 1], ops[n - 1], states[k].requests[q].run;
      if Claims(db, op, r) {
        ClaimStep(db, r, op.now, q);
      } else {
        StepKeepsQueue(db, op, r);
        PositionKept(db.requests, states[n].requests, q);
      }
    }
  }

  /** A request at queue position p is taken by exactly the p-th successful claim of its run. */
  lemma TakenByItsClaim(states: seq<Db>, ops: seq<Op>, q: RequestId, k: nat, n: nat)
    requires History(states, ops) && k <= n < |ops| && q < |states[k].requests|
        && states[k].requests[q].status == Queued
    requires var r := states[k].requests[q].run;
      Undisturbed(states, ops, r, k, n) && Claims(states[n], ops[n], r)
    requires ClaimsBetween(states, ops, states[k].requests[q].run, k, n) < QueuePosition(states[k].requests, q)
    ensures Claim(states[n], ops[n].run, ops[n].now).value.1 == Some(q)
      <==> ClaimsBetween(states, ops, states[k].requests[q].run, k, n) == QueuePosition(states[k].requests, q) - 1
  {
    PositionAfterClaims(states, ops, q, k, n);
    ClaimStep(states[n], ops[n].run, ops[n].now, q);
  }

  /** Putting a claim back restores the place of every request that was queued, whatever joined the queue since. */
  lemma RequeueRestoresPlaces(db: Db, r: RunId, now: int, later: Db, q: RequestId)
    requires Claim(db, r, now).Ok? && Claim(db, r, now).value.1.Some?
    requires var (claimed, taken) := Claim(db, r, now).value;
      && QueueKept(claimed.requests, later.requests, r)
      && later.requests[taken.value] == claimed.requests[taken.value]
      && Requeue(later, taken.value).Ok?
      && (forall i :: |db.requests| <= i < |later.requests| ==>
          db.requests[taken.value].createdAt <= later.requests[i].createdAt)
    requires q < |db.requests| && IsQueued(db.requests[q], r)
    ensures var after := Requeue(later, Claim(db, r, now).value.1.value).value;
      && after.requests[q].status == Queued
      && QueuePosition(after.requests, q) == QueuePosition(db.requests, q)
      && NextQueued(after.requests, r) == NextQueued(db.requests, r)
  {
    var taken := Claim(db, r, now).value.1.value;
    var after := Requeue(later, taken).value;
    forall i | 0 <= i < |db.requests|
      ensures (IsQueued(after.requests[i], r) <==> IsQueued(db.requests[i], r))
          && after.requests[i].createdAt == db.requests[i].createdAt
    {
      assert IsQueued(later.requests[i], r) <==> IsQueued(Claim(db, r, now).value.0.requests[i], r);
    }
    assert forall i, j ::
      (0 <= j < |db.requests| <= i < |after.requests| && IsQueued(after.requests[i], r) && IsQueued(db.requests[j], r)
       && j != taken) ==>
      db.requests[j].createdAt <= after.requests[i].createdAt by {
      forall i, j | 0 <= j < |db.requests| <= i < |after.requests| && IsQueued(after.requests[i], r)
          && IsQueued(db.requests[j], r) && j != taken
        ensures db.requests[j].createdAt <= after.requests[i].createdAt
      {
        assert IsQueued(later.requests[i], r) && IsQueued(Claim(db, r, now).value.0.requests[j], r);
      }
    }
    assert QueueKept(db.requests, after.requests, r);
    PositionKept(db.requests, after.requests, q);
    var next := NextQueued(db.requests, r).value;
    PositionKept(db.requests, after.requests, next);
    FirstIsNext(db.requests, next);
    FirstIsNext(after.requests, next);
  }
}
