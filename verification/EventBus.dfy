/**
  The resumable event bus: numbered events, a bounded history, and the queues of its subscribers.
*/
module EventBus {
  import opened Outcomes

  datatype Event = Event(id: int, payload: string)

  // Everything put into a subscriber's queue, in order; `after` is the id it resumed from, and
  // `joined` the next id at the time.
  datatype Subscriber = Subscriber(after: Option<int>, joined: int, put: seq<Event>)

  datatype Bus = Bus(limit: nat, nextId: int, history: seq<Event>, subscribers: map<nat, Subscriber>)

  function Empty(limit: nat): Bus { Bus(limit, 1, [], map[]) }

  // A deque with maxlen drops from the other end.
  function Bounded(history: seq<Event>, limit: nat): seq<Event> {
    if |history| <= limit then history else history[|history| - limit..]
  }

  function Publish(b: Bus, payload: string): Bus {
    var event := Event(b.nextId, payload);
    b.(nextId := b.nextId + 1, history := Bounded(b.history + [event], b.limit),
       subscribers := map q | q in b.subscribers :: b.subscribers[q].(put := b.subscribers[q].put + [event]))
  }

  predicate Wants(after: Option<int>, e: Event) { after.None? || e.id > after.value }

  function Replay(history: seq<Event>, after: Option<int>): seq<Event> {
    if history == [] then []
    else Replay(history[..|history| - 1], after) + if Wants(after, history[|history| - 1]) then
        [history[|history| - 1]] else []
  }

  function Subscribe(b: Bus, q: nat, after: Option<int>): Bus {
    b.(subscribers := b.subscribers[q := Subscriber(after, b.nextId, Replay(b.history, after))])
  }

  function Unsubscribe(b: Bus, q: nat): Bus { b.(subscribers := b.subscribers - {q}) }

  // ---- the invariant ----

  // The events are numbered first, first + 1, ..., next - 1.
  ghost predicate Consecutive(events: seq<Event>, first: int, next: int) {
    |events| == next - first && forall i :: 0 <= i < |events| ==> events[i].id == first + i
  }

  // The oldest id in the history.
  function Oldest(b: Bus): int { b.nextId - |b.history| }

  ghost predicate HistoryOk(b: Bus) {
    && b.nextId >= 1 && Oldest(b) >= 1 && |b.history| <= b.limit && Consecutive(b.history, Oldest(b), b.nextId)
    && (|b.history| < b.limit ==> Oldest(b) == 1)
  }

  // A subscriber holds one unbroken stretch of ids up to the newest event.
  ghost predicate StreamOk(b: Bus, s: Subscriber) {
    && s.joined <= b.nextId && Consecutive(s.put, b.nextId - |s.put|, b.nextId)
    && (s.after.Some? && s.after.value < s.joined ==> b.nextId - |s.put| > s.after.value)
    && b.nextId - |s.put| <= s.joined
  }

  ghost predicate BusOk(b: Bus) {
    HistoryOk(b) && forall q :: q in b.subscribers ==> StreamOk(b, b.subscribers[q])
  }

  lemma PublishKeepsOk(b: Bus, payload: string)
    requires BusOk(b)
    ensures BusOk(Publish(b, payload))
  {
    var after := Publish(b, payload);
    assert HistoryOk(after);
    forall q | q in after.subscribers ensures StreamOk(after, after.subscribers[q]) {
      assert StreamOk(b, b.subscribers[q]);
    }
  }

  // From a consecutive history exactly the ids above the resume point are replayed.
  lemma {:induction false} ReplayIs(history: seq<Event>, first: int, next: int, after: Option<int>)
    requires Consecutive(history, first, next)
    ensures var from := if after.None? || after.value < first then first else if after.value >= next then next
        else after.value + 1;
      Consecutive(Replay(history, after), from, next)
  {
    if history != [] {
      ReplayIs(history[..|history| - 1], first, next - 1, after);
    }
  }

  lemma SubscribeKeepsOk(b: Bus, q: nat, after: Option<int>)
    requires BusOk(b)
    ensures BusOk(Subscribe(b, q, after))
  {
    ReplayIs(b.history, Oldest(b), b.nextId, after);
    var joined := Subscribe(b, q, after);
    forall p | p in joined.subscribers ensures StreamOk(joined, joined.subscribers[p]) {
      assert p != q ==> StreamOk(b, b.subscribers[p]);
    }
  }

  // ---- histories ----

  datatype BusOp = PublishOp(payload: string) | SubscribeOp(queue: nat, after: Option<int>) | UnsubscribeOp(queue: nat)

  function Apply(b: Bus, op: BusOp): Bus {
    match op
    case PublishOp(payload) => Publish(b, payload)
    case SubscribeOp(q, after) => Subscribe(b, q, after)
    case UnsubscribeOp(q) => Unsubscribe(b, q)
  }

  ghost predicate BusHistory(states: seq<Bus>, ops: seq<BusOp>, limit: nat) {
    && |states| == |ops| + 1 && states[0] == Empty(limit)
    && forall k :: 0 <= k < |ops| ==> states[k + 1] == Apply(states[k], ops[k])
  }

  lemma {:induction false} OkInEveryHistory(states: seq<Bus>, ops: seq<BusOp>, limit: nat, k: nat)
    requires BusHistory(states, ops, limit) && k <= |ops|
    ensures BusOk(states[k])
  {
    if k > 0 {
      OkInEveryHistory(states, ops, limit, k - 1);
      var b := states[k - 1];
      assert states[k - 1 + 1] == Apply(b, ops[k - 1]);
      match ops[k - 1]
      case PublishOp(payload) => PublishKeepsOk(b, payload);
      case SubscribeOp(q, after) => SubscribeKeepsOk(b, q, after);
      case UnsubscribeOp(q) =>
        forall p | p in states[k].subscribers ensures StreamOk(states[k], states[k].subscribers[p]) {
          assert StreamOk(b, b.subscribers[p]);
        }
    }
  }

  // The queue keeps its subscriber from step j to step k.
  ghost predicate Stays(states: seq<Bus>, ops: seq<BusOp>, q: nat, j: nat, k: nat)
    requires j <= k <= |ops|
  {
    forall i :: j <= i < k ==> ops[i] != UnsubscribeOp(q) && !(ops[i].SubscribeOp? && ops[i].queue == q)
  }

  lemma {:induction false} StreamSinceJoining(states: seq<Bus>, ops: seq<BusOp>, limit: nat, q: nat,
      after: Option<int>, j: nat, k: nat)
    requires BusHistory(states, ops, limit) && j < k <= |ops| && ops[j] == SubscribeOp(q, after)
        && Stays(states, ops, q, j + 1, k)
    ensures q in states[k].subscribers
    ensures states[k].subscribers[q].after == after
    ensures |states[k].subscribers[q].put| == |Replay(states[j].history, after)| + states[k].nextId - states[j].nextId
    decreases k
  {
    assert states[k - 1 + 1] == Apply(states[k - 1], ops[k - 1]);
    if j + 1 < k {
      StreamSinceJoining(states, ops, limit, q, after, j, k - 1);
    }
  }

  // The first id sent to a subscriber that resumes after id n.
  function SentFrom(b: Bus, n: int): int {
    if n < Oldest(b) then Oldest(b) else if n >= b.nextId then b.nextId else n + 1
  }

  // Whatever id it names, a subscriber has been sent the ids from that one on, in order, once each.
  lemma SentSinceJoining(
      states: seq<Bus>, ops: seq<BusOp>, limit: nat, q: nat, n: int, j: nat, k: nat)
    requires BusHistory(states, ops, limit) && j < k <= |ops|
    requires ops[j] == SubscribeOp(q, Some(n)) && Stays(states, ops, q, j + 1, k)
    ensures q in states[k].subscribers
    ensures Consecutive(states[k].subscribers[q].put, SentFrom(states[j], n), states[k].nextId)
  {
    StreamSinceJoining(states, ops, limit, q, Some(n), j, k);
    OkInEveryHistory(states, ops, limit, j);
    OkInEveryHistory(states, ops, limit, k);
    ReplayIs(states[j].history, Oldest(states[j]), states[j].nextId, Some(n));
    assert StreamOk(states[k], states[k].subscribers[q]);
  }

  /**
    A subscriber that resumes after id n of the current stream has been sent, at every later
    moment, exactly the ids from max(n + 1, oldest kept id) on, in order and once each: nothing is
    missed while the history reaches back to n + 1, and otherwise exactly the evicted ids are.
  */
  lemma ResumeMissesOnlyEvicted(
      states: seq<Bus>, ops: seq<BusOp>, limit: nat, q: nat, n: int, j: nat, k: nat)
    requires BusHistory(states, ops, limit) && j < k <= |ops|
    requires ops[j] == SubscribeOp(q, Some(n)) && Stays(states, ops, q, j + 1, k)
    requires 0 <= n < states[j].nextId
    ensures q in states[k].subscribers
    ensures var from := if n + 1 < Oldest(states[j]) then Oldest(states[j]) else n + 1;
      Consecutive(states[k].subscribers[q].put, from, states[k].nextId)
  {
    SentSinceJoining(states, ops, limit, q, n, j, k);
    OkInEveryHistory(states, ops, limit, j);
  }

  /**
    An id that belongs to an earlier stream says nothing about this one, and the bus does not
    look at the stream: the subscriber is sent everything the history kept exactly when the id is
    below the oldest kept one or nothing was kept. Otherwise it misses the kept events up to the id.
  */
  lemma ForeignIdMissesNothingIff(
      states: seq<Bus>, ops: seq<BusOp>, limit: nat, q: nat, n: int, j: nat, k: nat)
    requires BusHistory(states, ops, limit) && j < k <= |ops|
    requires ops[j] == SubscribeOp(q, Some(n)) && Stays(states, ops, q, j + 1, k)
    ensures q in states[k].subscribers
    ensures Consecutive(states[k].subscribers[q].put, Oldest(states[j]), states[k].nextId)
      <==> n < Oldest(states[j]) || states[j].history == []
  {
    SentSinceJoining(states, ops, limit, q, n, j, k);
    OkInEveryHistory(states, ops, limit, j);
    SameStretch(states[k].subscribers[q].put, SentFrom(states[j], n), Oldest(states[j]), states[k].nextId);
  }

  lemma SameStretch(events: seq<Event>, first: int, other: int, next: int)
    requires Consecutive(events, first, next)
    ensures Consecutive(events, other, next) <==> first == other
  {
  }

  // ---- what is sent, in terms of what was published ----

  // The events that these operations publish: numbered from 1, each with its payload.
  function Published(ops: seq<BusOp>): seq<Event> {
    if ops == [] then []
    else
      var before, last := Published(ops[..|ops| - 1]), ops[|ops| - 1];
      if last.PublishOp? then before + [Event(|before| + 1, last.payload)] else before
  }

  // How many of n published events a history of this length has lost.
  function Lost(n: nat, limit: nat): nat { if n <= limit then 0 else n - limit }

  // How many of n published events a new subscriber is not sent.
  function Skipped(n: nat, limit: nat, after: Option<int>): nat {
    if after.None? || after.value <= Lost(n, limit) then Lost(n, limit) else if after.value >= n then n else after.value
  }

  ghost predicate Joined(ops: seq<BusOp>, q: nat, after: Option<int>, j: nat, k: nat) {
    && j < k <= |ops| && ops[j] == SubscribeOp(q, after)
    && forall i :: j < i < k ==> ops[i] != UnsubscribeOp(q) && !(ops[i].SubscribeOp? && ops[i].queue == q)
  }

  ghost predicate WasJoined(ops: seq<BusOp>, q: nat, k: nat) { exists j, after :: Joined(ops, q, after, j, k) }

  // What a queue that joined at step j has been sent by step k.
  function Sent(ops: seq<BusOp>, limit: nat, after: Option<int>, j: nat, k: nat): seq<Event>
    requires j <= k <= |ops|
  {
    var all, skipped := Published(ops[..k]), Skipped(|Published(ops[..j])|, limit, after);
    if skipped <= |all| then all[skipped..] else []
  }

  ghost predicate Delivers(b: Bus, ops: seq<BusOp>, limit: nat, k: nat)
    requires k <= |ops|
  {
    var all := Published(ops[..k]);
    && b.limit == limit && b.nextId == |all| + 1 && b.history == all[Lost(|all|, limit)..]
    && (forall q :: q in b.subscribers ==> WasJoined(ops, q, k))
    && forall q, after, j :: Joined(ops, q, after, j, k) ==>
         q in b.subscribers && b.subscribers[q].put == Sent(ops, limit, after, j, k)
  }

  lemma {:induction false} PublishedGrows(ops: seq<BusOp>, k: nat)
    requires k < |ops|
    ensures var before := Published(ops[..k]);
      Published(ops[..k + 1]) ==
        if ops[k].PublishOp? then before + [Event(|before| + 1, ops[k].payload)] else before
  {
    assert ops[..k + 1][..k] == ops[..k];
  }

  lemma {:induction false} PublishedOnlyGrows(ops: seq<BusOp>, j: nat, k: nat)
    requires j <= k <= |ops|
    ensures Published(ops[..j]) <= Published(ops[..k])
    decreases k
  {
    if j < k {
      PublishedOnlyGrows(ops, j, k - 1);
      PublishedGrows(ops, k - 1);
    }
  }

  lemma {:induction false} PublishedNumbers(ops: seq<BusOp>)
    ensures forall i :: 0 <= i < |Published(ops)| ==> Published(ops)[i].id == i + 1
  {
    if ops != [] {
      PublishedNumbers(ops[..|ops| - 1]);
    }
  }

  // How many of these events, numbered from first + 1, are not replayed.
  function Passed(first: nat, count: nat, after: Option<int>): (passed: nat)
    ensures passed <= count
  {
    if after.None? || after.value <= first then 0
    else if after.value - first >= count then count
    else after.value - first
  }

  ghost predicate Numbered(events: seq<Event>, first: nat) {
    forall i :: 0 <= i < |events| ==> events[i].id == first + i + 1
  }

  // A replay of numbered events is what is left after the ones not wanted.
  lemma {:induction false} ReplayIsSuffix(history: seq<Event>, first: nat, after: Option<int>)
    requires Numbered(history, first)
    ensures Replay(history, after) == history[Passed(first, |history|, after)..]
    decreases |history|
  {
    if history != [] {
      var init, last := history[..|history| - 1], history[|history| - 1];
      NumberedInit(history, first);
      ReplayIsSuffix(init, first, after);
      ReplayOfLast(init, last, first, after);
    }
  }

  lemma NumberedInit(history: seq<Event>, first: nat)
    requires history != [] && Numbered(history, first)
    ensures var init, last := history[..|history| - 1], history[|history| - 1];
      Numbered(init, first) && last.id == first + |init| + 1 && history == init + [last]
  {
  }

  lemma {:induction false} ReplayOfLast(init: seq<Event>, last: Event, first: nat, after: Option<int>)
    requires last.id == first + |init| + 1
    ensures init[Passed(first, |init|, after)..] + (if Wants(after, last) then [last] else [])
      == (init + [last])[Passed(first, |init| + 1, after)..]
  {
  }

  lemma {:induction false} KeepsNewest(all: seq<Event>, event: Event, limit: nat)
    ensures Bounded(all[Lost(|all|, limit)..] + [event], limit) == (all + [event])[Lost(|all| + 1, limit)..]
  {
  }

  lemma {:induction false} StillJoined(ops: seq<BusOp>, k: nat, q: nat, after: Option<int>, j: nat)
    requires k < |ops|
    ensures Joined(ops, q, after, j, k + 1) <==>
        || (j == k && ops[k] == SubscribeOp(q, after))
        || (j < k && Joined(ops, q, after, j, k) && ops[k] != UnsubscribeOp(q)
            && !(ops[k].SubscribeOp? && ops[k].queue == q))
  {
  }

  lemma {:induction false} SentGrows(ops: seq<BusOp>, limit: nat, after: Option<int>, j: nat, k: nat)
    requires j < k < |ops|
    ensures Sent(ops, limit, after, j, k + 1) == Sent(ops, limit, after, j, k)
        + if ops[k].PublishOp? then [Event(|Published(ops[..k])| + 1, ops[k].payload)] else []
  {
    PublishedGrows(ops, k);
    PublishedOnlyGrows(ops, j, k);
  }

  lemma SuffixOfSuffix(all: seq<Event>, i: nat, j: nat)
    requires i + j <= |all|
    ensures all[i..][j..] == all[i + j..]
  {
  }

  lemma {:induction false} SentAtFirst(b: Bus, ops: seq<BusOp>, limit: nat, after: Option<int>, k: nat)
    requires k < |ops| && !ops[k].PublishOp?
    requires var all := Published(ops[..k]); b.history == all[Lost(|all|, limit)..]
    ensures Replay(b.history, after) == Sent(ops, limit, after, k, k + 1)
  {
    var all := Published(ops[..k]);
    var lost := Lost(|all|, limit);
    PublishedGrows(ops, k);
    PublishedNumbers(ops[..k]);
    ReplayIsSuffix(b.history, lost, after);
    SuffixOfSuffix(all, lost, Passed(lost, |b.history|, after));
  }

  lemma {:induction false} DeliversNext(b: Bus, next: Bus, ops: seq<BusOp>, limit: nat, k: nat)
    requires k < |ops| && Delivers(b, ops, limit, k) && next == Apply(b, ops[k])
    ensures Delivers(next, ops, limit, k + 1)
  {
    var all, op := Published(ops[..k]), ops[k];
    PublishedGrows(ops, k);
    if op.PublishOp? {
      KeepsNewest(all, Event(|all| + 1, op.payload), limit);
    }
    forall q | q in next.subscribers ensures WasJoined(ops, q, k + 1) {
      LiveWasJoined(b, next, ops, limit, k, q);
    }
    var n := k + 1;
    forall q: nat, after, j: nat | Joined(ops, q, after, j, n)
      ensures q in next.subscribers && next.subscribers[q].put == Sent(ops, limit, after, j, n)
    {
      JoinedIsLive(b, next, ops, limit, k, q, after, j);
    }
  }

  lemma {:induction false} LiveWasJoined(b: Bus, next: Bus, ops: seq<BusOp>, limit: nat, k: nat, q: nat)
    requires k < |ops| && Delivers(b, ops, limit, k) && next == Apply(b, ops[k]) && q in next.subscribers
    ensures WasJoined(ops, q, k + 1)
  {
    if ops[k].SubscribeOp? && ops[k].queue == q {
      StillJoined(ops, k, q, ops[k].after, k);
    } else {
      assert q in b.subscribers && WasJoined(ops, q, k);
      var j, after :| Joined(ops, q, after, j, k);
      StillJoined(ops, k, q, after, j);
    }
  }

  lemma {:induction false} JoinedIsLive(b: Bus, next: Bus, ops: seq<BusOp>, limit: nat, k: nat, q: nat,
      after: Option<int>, j: nat)
    requires k < |ops| && Delivers(b, ops, limit, k) && next == Apply(b, ops[k]) && Joined(ops, q, after, j, k + 1)
    ensures q in next.subscribers && next.subscribers[q].put == Sent(ops, limit, after, j, k + 1)
  {
    StillJoined(ops, k, q, after, j);
    if j == k {
      SentAtFirst(b, ops, limit, after, k);
    } else {
      SentGrows(ops, limit, after, j, k);
    }
  }

  /**
    In every history the bus keeps the newest events published, with their payloads, and a queue
    is live exactly from its subscription on; it has been sent everything published since, after
    the kept events it asked for.
  */
  lemma {:induction false} DeliversInEveryHistory(states: seq<Bus>, ops: seq<BusOp>, limit: nat, k: nat)
    requires BusHistory(states, ops, limit) && k <= |ops|
    ensures Delivers(states[k], ops, limit, k)
  {
    if k == 0 {
      assert ops[..0] == [];
    } else {
      DeliversInEveryHistory(states, ops, limit, k - 1);
      DeliversNext(states[k - 1], states[k], ops, limit, k - 1);
    }
  }

  // Everything kept or sent was published at a step that had its payload, under the next id.
  ghost predicate PublishedAt(states: seq<Bus>, ops: seq<BusOp>, e: Event, j: nat)
    requires |states| == |ops| + 1
  {
    j < |ops| && ops[j] == PublishOp(e.payload) && states[j].nextId == e.id
  }

  lemma {:induction false} PublishedHaveSteps(states: seq<Bus>, ops: seq<BusOp>, limit: nat, k: nat, e: Event)
    requires BusHistory(states, ops, limit) && k <= |ops| && e in Published(ops[..k])
    ensures exists j :: 0 <= j < k && PublishedAt(states, ops, e, j)
  {
    assert ops[..0] == [];
    if k > 0 {
      PublishedGrows(ops, k - 1);
      DeliversInEveryHistory(states, ops, limit, k - 1);
      if e in Published(ops[..k - 1]) {
        PublishedHaveSteps(states, ops, limit, k - 1, e);
      } else {
        assert PublishedAt(states, ops, e, k - 1);
      }
    }
  }

  /** Every event in a queue or in the history was published: its payload at the step that gave out its id. */
  lemma {:induction false} NothingIsMadeUp(states: seq<Bus>, ops: seq<BusOp>, limit: nat, k: nat, e: Event)
    requires BusHistory(states, ops, limit) && k <= |ops|
    requires e in states[k].history || exists q :: q in states[k].subscribers && e in states[k].subscribers[q].put
    ensures exists j :: 0 <= j < k && PublishedAt(states, ops, e, j)
  {
    DeliversInEveryHistory(states, ops, limit, k);
    if e !in states[k].history {
      var q :| q in states[k].subscribers && e in states[k].subscribers[q].put;
      assert WasJoined(ops, q, k);
      var j, after :| Joined(ops, q, after, j, k);
      assert e in Sent(ops, limit, after, j, k);
    }
    PublishedHaveSteps(states, ops, limit, k, e);
  }

  // Three kept events, and two ids of an older stream: one hides two of them, one all three.
  lemma ForeignIdWitness(n: int)
    requires n in {2, 10}
    ensures var b := Publish(Publish(Publish(Empty(200), "a"), "b"), "c");
      && BusOk(b) && |b.history| == 3
      && Subscribe(b, 0, Some(n)).subscribers[0].put == (if n == 2 then [Event(3, "c")] else [])
  {
    var one := Publish(Empty(200), "a");
    var two := Publish(one, "b");
    var three := Publish(two, "c");
    PublishKeepsOk(Empty(200), "a");
    PublishKeepsOk(one, "b");
    PublishKeepsOk(two, "c");
    ReplayIs(three.history, 1, 4, Some(n));
    var put := Replay(three.history, Some(n));
    assert three.history == [Event(1, "a"), Event(2, "b"), Event(3, "c")];
    assert three.history[..2] == [Event(1, "a"), Event(2, "b")];
  }

  // ---- the class ----

  class EventBus {
    const limit: nat
    var nextId: int
    var history: seq<Event>
    var subscribers: map<nat, Subscriber>

    constructor (historyLimit: nat)
      ensures State() == Empty(historyLimit)
    {
      limit, nextId, history, subscribers := historyLimit, 1, [], map[];
    }

    function State(): Bus
      reads this
    {
      Bus(limit, nextId, history, subscribers)
    }

    method PublishEvent(payload: string) returns (event: Event)
      modifies this
      ensures State() == Publish(old(State()), payload) && event == Event(old(nextId), payload)
    {
      event := Event(nextId, payload);
      nextId := nextId + 1;
      history := history + [event];
      if |history| > limit {
        history := history[|history| - limit..];
      }
      subscribers := map q | q in subscribers :: subscribers[q].(put := subscribers[q].put + [event]);
    }

    // Replays the history into a new queue, event by event.
    method SubscribeQueue(q: nat, after: Option<int>)
      modifies this`subscribers
      ensures State() == Subscribe(old(State()), q, after)
    {
      var queue: seq<Event> := [];
      for i := 0 to |history|
        invariant queue == Replay(history[..i], after)
      {
        assert history[..i + 1][..i] == history[..i] && history[..i + 1][i] == history[i];
        if after.None? || history[i].id > after.value {
          queue := queue + [history[i]];
        }
      }
      assert history[..|history|] == history;
      subscribers := subscribers[q := Subscriber(after, nextId, queue)];
    }

    method UnsubscribeQueue(q: nat)
      modifies this`subscribers
      ensures State() == Unsubscribe(old(State()), q)
    {
      subscribers := subscribers - {q};
    }
  }
}
