/**
  The timer's alarm as it is stored and compared: next_run_at is UTC text, and the select of due
  series compares it with the text of the present. Instants are microseconds here.
*/
module CycleClock {
  import opened Outcomes
  import opened CycleTables
  import opened CycleSteps
  import opened CycleRuns
  import opened CycleAccounting
  import opened CycleTimer
  import opened Timestamps

  // What a datetime can hold.
  predicate InRange(t: int) { 0 <= t < EndOfTime() }

  // _timestamp of an instant.
  function TextOf(t: int): string
    requires InRange(t)
  {
    Iso(FieldsOf(t))
  }

  predicate NotLater(a: string, b: string) { !Less(b, a) }

  function Aware(t: int): DateTime
    requires InRange(t)
  {
    DateTime(FieldsOf(t), Some(0))
  }

  lemma AwareInstant(t: int)
    requires InRange(t)
    ensures Instant(Aware(t)) == t && Timestamp(Aware(t)) == Ok(TextOf(t))
  {
    FieldsOfInstant(t);
    var v := Aware(t);
    assert Instant(v) == Micros(v.fields) == t;
  }

  lemma TextsAreOrdered(t: int, u: int)
    requires InRange(t) && InRange(u)
    ensures NotLater(TextOf(t), TextOf(u)) <==> t <= u
  {
    AwareInstant(t);
    AwareInstant(u);
    var v, w := Aware(t), Aware(u);
    TextOrderIsTimeOrder(w, v);
  }

  // The select of enqueue_due_auto_requests, on the stored texts.
  predicate DueByText(db: Db, s: SeriesId, now: string)
    requires s < |db.series| && (db.series[s].nextRunAt.Some? ==> InRange(db.series[s].nextRunAt.value))
  {
    var row := db.series[s];
    && row.status == WaitingInterval && row.nextRunAt.Some? && NotLater(TextOf(row.nextRunAt.value), now)
    && row.run < |db.runs| && db.runs[row.run].status != RunCanceled
  }

  // Comparing the texts selects exactly the series whose instant has come.
  lemma DueByTextIsDue(db: Db, s: SeriesId, now: int)
    requires s < |db.series| && (db.series[s].nextRunAt.Some? ==> InRange(db.series[s].nextRunAt.value)) && InRange(now)
    ensures DueByText(db, s, TextOf(now)) <==> Due(db, s, now)
  {
    if db.series[s].nextRunAt.Some? { TextsAreOrdered(db.series[s].nextRunAt.value, now); }
  }

  /**
    Whenever the select on texts finds a series due, in any history, a whole interval has passed
    since the step that settled its last slot.
  */
  lemma SlotsKeepTheirDistanceInText(states: seq<Db>, ops: seq<Op>, s: SeriesId, k: nat, now: int)
    requires History(states, ops) && k <= |ops| && s < |states[k].series| && InRange(now)
    requires states[k].series[s].nextRunAt.Some? ==> InRange(states[k].series[s].nextRunAt.value)
    requires DueByText(states[k], s, TextOf(now))
    ensures exists j ::
      0 <= j < k && SettlesSlot(states[j], ops[j], s) && TimeOf(ops[j]) + states[k].series[s].interval <= now
  {
    DueByTextIsDue(states[k], s, now);
    SlotsKeepTheirDistance(states, ops, s, k, now);
  }
}
