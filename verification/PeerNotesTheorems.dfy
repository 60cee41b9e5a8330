/**
  Over every history: recording is all or nothing, an opened delivery never changes, a note
  stops being undelivered only when an operation that carries it is applied, and the run-wide
  count is the sum over its agents.
*/
module PeerNotesTheorems {
  import opened Outcomes
  import opened Paging
  import opened Sequences
  import opened PeerNotes

  // ---- the selects ----

  lemma MessageKeysDistinct(n: Notes, keep: Message -> bool)
    requires UniqueMessages(n)
    ensures DistinctKeys(n.messages, MessageKey, keep)
  {
  }

  // A note is undelivered exactly when no applied operation carries it.
  lemma UndeliveredIff(n: Notes, run: string, agent: string, m: Message)
    requires UniqueMessages(n)
    ensures m in Undelivered(n, run, agent) <==>
      m in n.messages && m.run == run && m.recipient == Some(agent) && m.kind == "peer_mention" && !Delivered(n, m.id)
  {
    var keep := WaitingFor(n, run, agent);
    MessageKeysDistinct(n, keep);
    ListingIsSorted(n.messages, MessageKey, keep, None);
    ReverseHas(Listing(n.messages, MessageKey, keep, None));
    assert Wanted(m, MessageKey, keep, None) <==> IsWaiting(n, run, m) && m.recipient == Some(agent);
  }

  lemma CarriedIff(n: Notes, key: string, m: Message)
    requires UniqueMessages(n)
    ensures m in DeliveryMessages(n, key) <==> m in n.messages && CarriedBy(n, key)(m)
  {
    var keep := CarriedBy(n, key);
    MessageKeysDistinct(n, keep);
    ListingIsSorted(n.messages, MessageKey, keep, None);
    ReverseHas(Listing(n.messages, MessageKey, keep, None));
    assert Wanted(m, MessageKey, keep, None) <==> keep(m);
  }

  // ---- recording ----

  // The i-th mention is the first one refused.
  ghost predicate RefusedFirst(n: Notes, run: string, sender: string, mentions: seq<Mention>, i: nat,
      error: NoteError) {
    && i < |mentions| && RecipientOf(n, run, sender, mentions[i]) == Err(error)
    && forall j :: 0 <= j < i ==> RecipientOf(n, run, sender, mentions[j]).Ok?
  }

  predicate AreRecipients(n: Notes, run: string, sender: string, mentions: seq<Mention>, recipients: seq<string>) {
    && |recipients| == |mentions|
    && forall i :: 0 <= i < |mentions| ==> RecipientOf(n, run, sender, mentions[i]) == Ok(recipients[i])
  }

  /** Resolving is all or nothing and in order; the first refusal is the one reported. */
  lemma {:induction false} ResolvedInOrder(n: Notes, run: string, sender: string, mentions: seq<Mention>)
    ensures var recipients := Resolve(n, run, sender, mentions);
      && (recipients.Ok? <==> forall i :: 0 <= i < |mentions| ==> RecipientOf(n, run, sender, mentions[i]).Ok?)
      && (recipients.Ok? ==> AreRecipients(n, run, sender, mentions, recipients.value))
      && (recipients.Err? ==> exists i :: RefusedFirst(n, run, sender, mentions, i, recipients.error))
  {
    if mentions != [] {
      var rest := mentions[1..];
      ResolvedInOrder(n, run, sender, rest);
      assert forall i :: 1 <= i < |mentions| ==> mentions[i] == rest[i - 1];
      var first, others := RecipientOf(n, run, sender, mentions[0]), Resolve(n, run, sender, rest);
      if first.Err? {
        assert RefusedFirst(n, run, sender, mentions, 0, first.error);
      } else if others.Err? {
        var i: nat :| RefusedFirst(n, run, sender, rest, i, others.error);
        assert mentions[i + 1] == rest[i];
        assert RefusedFirst(n, run, sender, mentions, i + 1, others.error);
      }
    }
  }

  lemma {:induction false} AgentOfRun(agents: seq<Agent>, run: string, i: nat)
    requires i < |AgentsOf(agents, run)|
    ensures exists a :: 0 <= a < |agents| && agents[a] == AgentsOf(agents, run)[i] && agents[a].run == run
  {
    var last := |agents| - 1;
    if i < |AgentsOf(agents[..last], run)| {
      AgentOfRun(agents[..last], run, i);
      var a :| 0 <= a < last && agents[..last][a] == AgentsOf(agents, run)[i] && agents[..last][a].run == run;
      assert agents[a] == agents[..last][a];
    } else {
      assert agents[last] == AgentsOf(agents, run)[i];
    }
  }

  lemma RecipientIsAgent(n: Notes, run: string, sender: string, m: Mention)
    requires RecipientOf(n, run, sender, m).Ok?
    ensures var r := RecipientOf(n, run, sender, m).value;
      r != sender && exists a :: 0 <= a < |n.agents| && n.agents[a].run == run && n.agents[a].id == r
  {
    var agents := AgentsOf(n.agents, run);
    LabelsNameAgents(agents);
    var i :| 0 <= i < |agents| && LabelAt(agents, i) == m.to && agents[i].id == Labels(agents)[m.to];
    AgentOfRun(n.agents, run, i);
  }

  lemma {:induction false} StoredFirst(
      n: Notes, run: string, sender: string, recipients: seq<string>, mentions: seq<Mention>, ids: seq<string>,
      created: seq<string>, k: nat)
    requires k <= |recipients| == |ids| == |created| == |mentions|
    ensures var after := StoreFirst(n, run, sender, recipients, mentions, ids, created, k);
      && after == n.(messages := after.messages)
      && |after.messages| == |n.messages| + k && after.messages[..|n.messages|] == n.messages
      && forall i :: 0 <= i < k ==>
           after.messages[|n.messages| + i] == Note(run, sender, recipients[i], mentions[i].text, ids[i], created[i])
  {
    if k > 0 {
      StoredFirst(n, run, sender, recipients, mentions, ids, created, k - 1);
      var before := StoreFirst(n, run, sender, recipients, mentions, ids, created, k - 1).messages;
      var last := Note(run, sender, recipients[k - 1], mentions[k - 1].text, ids[k - 1], created[k - 1]);
      assert (before + [last])[..|n.messages|] == before[..|n.messages|];
    }
  }

  // Stored under its id, from the sender to another agent of the run, and not delivered yet.
  ghost predicate IsStoredAs(n: Notes, after: Notes, run: string, sender: string, mention: Mention, id: string,
      created: string, m: Message)
  {
    && m.id == id && m.run == run && m.kind == "peer_mention" && m.created == created && m.content == mention.text
    && m.sender == Some(sender) && m.recipient.Some? && m.recipient.value != sender
    && RecipientOf(n, run, sender, mention) == Ok(m.recipient.value)
    && Addressed(n.agents, m) && !Delivered(after, m.id)
  }

  lemma NoteIsStored(
      n: Notes, after: Notes, run: string, sender: string, mention: Mention, id: string, created: string)
    requires RecipientOf(n, run, sender, mention).Ok?
    requires ItemsLinked(n) && after.items == n.items && !HasMessage(n.messages, id)
    ensures var m := Note(run, sender, RecipientOf(n, run, sender, mention).value, mention.text, id, created);
      IsStoredAs(n, after, run, sender, mention, id, created, m)
  {
    RecipientIsAgent(n, run, sender, mention);
    UnknownIdIsUndelivered(n, after, id);
  }

  /**
    Either some mention is refused and nothing is stored, or every mention is stored, addressed
    to another agent of the run under the label it used, and waits for that agent.
  */
  lemma RecordAllOrNone(
      n: Notes, run: string, sender: string, mentions: seq<Mention>, ids: seq<string>, created: seq<string>)
    requires NotesOk(n) && |ids| == |created| == |mentions| && NewIds(n, ids)
    ensures var after := Recorded(n, run, sender, mentions, ids, created);
      if exists i :: 0 <= i < |mentions| && RecipientOf(n, run, sender, mentions[i]).Err? then after == n
      else
        && |after.messages| == |n.messages| + |mentions| && after.messages[..|n.messages|] == n.messages
        && forall i :: 0 <= i < |mentions| ==>
             IsStoredAs(n, after, run, sender, mentions[i], ids[i], created[i], after.messages[|n.messages| + i])
  {
    ResolvedInOrder(n, run, sender, mentions);
    var recipients := Resolve(n, run, sender, mentions);
    if recipients.Ok? {
      var after := Recorded(n, run, sender, mentions, ids, created);
      StoredFirst(n, run, sender, recipients.value, mentions, ids, created, |mentions|);
      forall i | 0 <= i < |mentions|
        ensures IsStoredAs(n, after, run, sender, mentions[i], ids[i], created[i], after.messages[|n.messages| + i])
      {
        NoteIsStored(n, after, run, sender, mentions[i], ids[i], created[i]);
        assert after.messages[|n.messages| + i]
            == Note(run, sender, recipients.value[i], mentions[i].text, ids[i], created[i]);
      }
    }
  }

  lemma UnknownIdIsUndelivered(n: Notes, after: Notes, id: string)
    requires ItemsLinked(n) && after.items == n.items && !HasMessage(n.messages, id)
    ensures !Delivered(after, id)
  {
  }

  // ---- every step keeps the tables in order ----

  lemma AppendKeepsOk(n: Notes, added: seq<Message>, ids: seq<string>)
    requires NotesOk(n) && NewIds(n, ids) && |ids| == |added|
    requires forall i :: 0 <= i < |added| ==>
        added[i].id == ids[i] && (added[i].kind == PEER ==> Addressed(n.agents, added[i]))
    ensures NotesOk(n.(messages := n.messages + added))
  {
    var after := n.(messages := n.messages + added);
    var k := |n.messages|;
    forall i, j | 0 <= i < j < |after.messages| ensures after.messages[i].id != after.messages[j].id {
      if i < k && j >= k {
        assert !HasMessage(n.messages, ids[j - k]) && n.messages[i].id != ids[j - k];
      } else if i >= k {
        assert ids[i - k] != ids[j - k];
      }
    }
    MessagesGrowKeepsLinks(n, after);
  }

  lemma MessagesGrowKeepsLinks(n: Notes, after: Notes)
    requires ItemsLinked(n) && after.items == n.items && after.deliveries == n.deliveries
    requires |n.messages| <= |after.messages| && forall i :: 0 <= i < |n.messages| ==>
        after.messages[i] == n.messages[i]
    ensures ItemsLinked(after)
  {
    forall i | 0 <= i < |n.items| ensures HasMessage(after.messages, n.items[i].message) {
      var m :| 0 <= m < |n.messages| && n.messages[m].id == n.items[i].message;
      assert after.messages[m].id == n.items[i].message;
    }
  }

  lemma OpenKeepsOk(n: Notes, run: string, agent: string, key: string, ids: seq<string>, id: string)
    requires NotesOk(n) && NewDelivery(n, id) && Stored(n, ids)
    ensures NotesOk(Perform(n, OpenOp(run, agent, key, ids, id)))
  {
    var after := Perform(n, OpenOp(run, agent, key, ids, id));
    if DeliveryFor(n.deliveries, key).None? && Distinct(ids) {
      var k, d := |n.items|, |n.deliveries|;
      assert after.deliveries[d].id == id;
      forall i | 0 <= i < |after.items|
        ensures HasDelivery(after.deliveries, after.items[i].delivery) && HasMessage(n.messages, after.items[i].message)
      {
        if i < k {
          assert HasDelivery(n.deliveries, n.items[i].delivery) && HasMessage(n.messages, n.items[i].message);
          var j :| 0 <= j < d && n.deliveries[j].id == n.items[i].delivery;
          assert after.deliveries[j].id == after.items[i].delivery;
        } else {
          assert after.items[i] == Item(id, ids[i - k]);
        }
      }
      forall j | 0 <= j < d ensures n.deliveries[j].id != id {
        assert HasDelivery(n.deliveries, n.deliveries[j].id);
      }
    }
  }

  lemma OtherStepsKeepOk(n: Notes, op: NoteOp)
    requires NotesOk(n) && Permitted(n, op) && (op.ApplyOp? || op.AgentOp?)
    ensures NotesOk(Perform(n, op))
  {
    var after := Perform(n, op);
    match op
    case ApplyOp(_) =>
    case AgentOp(added) =>
      assert forall a :: 0 <= a < |n.agents| ==> after.agents[a] == n.agents[a];
      forall i | 0 <= i < |n.messages| && n.messages[i].kind == PEER ensures Addressed(after.agents, n.messages[i]) {
        assert Addressed(n.agents, n.messages[i]);
        var a :| 0 <= a < |n.agents| && n.agents[a].run == n.messages[i].run
            && n.agents[a].id == n.messages[i].recipient.value;
        assert after.agents[a] == n.agents[a];
      }
  }

  lemma StepKeepsOk(n: Notes, op: NoteOp)
    requires NotesOk(n) && Permitted(n, op)
    ensures NotesOk(Perform(n, op))
  {
    match op
    case StoreOp(run, sender, recipient, text, id, created) =>
      AppendKeepsOk(n, [Note(run, sender, recipient, text, id, created)], [id]);
    case OtherMessageOp(m) => AppendKeepsOk(n, [m], [m.id]);
    case OpenOp(run, agent, key, ids, id) => OpenKeepsOk(n, run, agent, key, ids, id);
    case _ => OtherStepsKeepOk(n, op);
  }

  // ---- what a step leaves of deliveries and items ----

  // Earlier rows stay; new items belong to new deliveries and new messages are in no item.
  ghost predicate Extends(n: Notes, after: Notes) {
    && n.messages <= after.messages && n.deliveries <= after.deliveries && n.items <= after.items
        && n.applied <= after.applied
    && (forall i :: |n.items| <= i < |after.items| ==> NewDelivery(n, after.items[i].delivery))
    && (forall i, j :: 0 <= i < |n.deliveries| <= j < |after.deliveries| ==>
        n.deliveries[i].key != after.deliveries[j].key)
  }

  lemma StepExtends(n: Notes, op: NoteOp)
    requires NotesOk(n) && Permitted(n, op)
    ensures Extends(n, Perform(n, op))
  {
  }

  // An old delivery carries after the step what it carried before.
  lemma CarriesKept(n: Notes, after: Notes, d: nat, message: string)
    requires Extends(n, after) && d < |n.deliveries|
    ensures Carries(after, after.deliveries[d], message) == Carries(n, n.deliveries[d], message)
  {
    var row := n.deliveries[d];
    assert after.deliveries[d] == row;
    if Carries(n, row, message) {
      var i :| 0 <= i < |n.items| && n.items[i] == Item(row.id, message);
      assert after.items[i] == n.items[i];
    }
    if Carries(after, row, message) {
      var i :| 0 <= i < |after.items| && after.items[i] == Item(row.id, message);
      assert i < |n.items| ==> n.items[i] == after.items[i];
    }
  }

  lemma CarriedKept(n: Notes, after: Notes, key: string, m: Message)
    requires Extends(n, after) && NotesOk(n) && NotesOk(after) && DeliveryFor(n.deliveries, key).Some?
    ensures CarriedBy(after, key)(m) == CarriedBy(n, key)(m)
  {
    var d := DeliveryFor(n.deliveries, key).value;
    assert n.deliveries[d].key == key && after.deliveries[d] == n.deliveries[d];
    CarriesKept(n, after, d, m.id);
    assert forall e :: 0 <= e < |after.deliveries| && after.deliveries[e].key == key ==> e == d;
    assert forall e :: 0 <= e < |n.deliveries| && n.deliveries[e].key == key ==> e == d;
  }

  lemma CarriedIsStored(n: Notes, key: string, m: Message)
    requires NotesOk(n) && CarriedBy(n, key)(m)
    ensures HasMessage(n.messages, m.id)
  {
    var d :| 0 <= d < |n.deliveries| && n.deliveries[d].key == key && Carries(n, n.deliveries[d], m.id);
    var i :| 0 <= i < |n.items| && n.items[i] == Item(n.deliveries[d].id, m.id);
    assert HasMessage(n.messages, n.items[i].message);
  }

  // One step leaves the notes of an opened delivery as they are, in the same order.
  lemma DeliveryKept(n: Notes, after: Notes, key: string)
    requires Extends(n, after) && NotesOk(n) && NotesOk(after) && DeliveryFor(n.deliveries, key).Some?
    ensures DeliveryMessages(after, key) == DeliveryMessages(n, key)
  {
    var before, later := CarriedBy(n, key), CarriedBy(after, key);
    MessageKeysDistinct(n, before);
    MessageKeysDistinct(after, later);
    ListingIsSorted(n.messages, MessageKey, before, None);
    ListingIsSorted(after.messages, MessageKey, later, None);
    var a, b := Listing(after.messages, MessageKey, later, None), Listing(n.messages, MessageKey, before, None);
    forall m: Message ensures m in a <==> m in b {
      CarriedKept(n, after, key, m);
      assert Wanted(m, MessageKey, later, None) <==> later(m);
      assert Wanted(m, MessageKey, before, None) <==> before(m);
      if m in b {
        var i :| 0 <= i < |n.messages| && n.messages[i] == m;
        assert after.messages[i] == m;
      }
      if m in a {
        CarriedIsStored(n, key, m);
        var k :| 0 <= k < |n.messages| && n.messages[k].id == m.id;
        var i :| 0 <= i < |after.messages| && after.messages[i] == m;
        assert after.messages[k] == n.messages[k];
        assert i == k;
      }
    }
    DescendingUnique(a, b, MessageKey);
  }

  // A new delivery holds exactly the notes it was opened with.
  lemma OpenedHoldsExactly(n: Notes, run: string, agent: string, key: string, ids: seq<string>, id: string, m: Message)
    requires NotesOk(n) && NewDelivery(n, id) && Stored(n, ids) && DeliveryFor(n.deliveries, key).None? && Distinct(ids)
    ensures var after := Perform(n, OpenOp(run, agent, key, ids, id));
      m in DeliveryMessages(after, key) <==> m in n.messages && m.id in ids
  {
    var after := Perform(n, OpenOp(run, agent, key, ids, id));
    OpenKeepsOk(n, run, agent, key, ids, id);
    CarriedIff(after, key, m);
    var d := |n.deliveries|;
    var row := after.deliveries[d];
    assert forall e :: 0 <= e < |after.deliveries| && after.deliveries[e].key == key ==> e == d;
    assert forall i :: 0 <= i < |n.items| ==> n.items[i].delivery != id by {
      forall i | 0 <= i < |n.items| ensures n.items[i].delivery != id {
        assert HasDelivery(n.deliveries, n.items[i].delivery);
      }
    }
    assert forall i :: 0 <= i < |ids| ==> after.items[|n.items| + i] == Item(id, ids[i]);
    if m.id in ids {
      var i :| 0 <= i < |ids| && ids[i] == m.id;
      assert after.items[|n.items| + i] == Item(row.id, m.id);
      assert Carries(after, row, m.id);
    }
    if Carries(after, row, m.id) {
      var i :| 0 <= i < |after.items| && after.items[i] == Item(row.id, m.id);
      assert after.items[i] == Item(id, ids[i - |n.items|]);
    }
  }

  // ---- delivery over time ----

  // A delivered note stays delivered.
  lemma DeliveredStays(n: Notes, after: Notes, message: string)
    requires Extends(n, after) && Delivered(n, message)
    ensures Delivered(after, message)
  {
    var d :| 0 <= d < |n.deliveries| && n.deliveries[d].key in n.applied && Carries(n, n.deliveries[d], message);
    CarriesKept(n, after, d, message);
    assert after.deliveries[d].key in after.applied;
  }

  /**
    A note stops being undelivered only in the step that applies an operation whose delivery
    carries it, or, after that operation was already applied, in the step that opens one.
  */
  lemma NoteLeavesOnlyApplied(n: Notes, op: NoteOp, message: string)
    requires NotesOk(n) && Permitted(n, op) && !Delivered(n, message) && Delivered(Perform(n, op), message)
    ensures || (op.ApplyOp? && exists d :: 0 <= d < |n.deliveries| && n.deliveries[d].key == op.key && Carries(n, n.deliveries[d], message))
            || (op.OpenOp? && op.key in n.applied && message in op.ids)
  {
    var after := Perform(n, op);
    StepExtends(n, op);
    var d :| 0 <= d < |after.deliveries| && after.deliveries[d].key in after.applied
        && Carries(after, after.deliveries[d], message);
    if d < |n.deliveries| {
      CarriesKept(n, after, d, message);
      assert after.deliveries[d] == n.deliveries[d];
      assert n.deliveries[d].key !in n.applied;
    } else {
      NewDeliveryCarries(n, op, message);
    }
  }

  lemma NewDeliveryCarries(n: Notes, op: NoteOp, message: string)
    requires NotesOk(n) && Permitted(n, op) && |Perform(n, op).deliveries| > |n.deliveries|
    ensures op.OpenOp? && Perform(n, op).deliveries == n.deliveries + [Delivery(op.id, op.run, op.agent, op.key)]
    ensures Perform(n, op).applied == n.applied
    ensures Carries(Perform(n, op), Perform(n, op).deliveries[|n.deliveries|], message) ==> message in op.ids
  {
    var after := Perform(n, op);
    forall i | |n.items| <= i < |after.items| ensures after.items[i].message in op.ids {
      assert after.items[i] == Item(op.id, op.ids[i - |n.items|]);
    }
    forall i | 0 <= i < |n.items| ensures n.items[i].delivery != op.id {
      assert HasDelivery(n.deliveries, n.items[i].delivery);
    }
    assert forall i :: 0 <= i < |n.items| ==> after.items[i] == n.items[i];
  }

  const NO_NOTES := Notes([], [], [], [], {})

  ghost predicate NoteStep(states: seq<Notes>, ops: seq<NoteOp>, k: nat)
    requires |states| == |ops| + 1 && k < |ops|
  {
    Permitted(states[k], ops[k]) && states[k + 1] == Perform(states[k], ops[k])
  }

  ghost predicate NoteHistory(states: seq<Notes>, ops: seq<NoteOp>) {
    && |states| == |ops| + 1 && states[0] == NO_NOTES
    && forall k :: 0 <= k < |ops| ==> NoteStep(states, ops, k)
  }

  lemma {:induction false} HistoryKeepsOk(states: seq<Notes>, ops: seq<NoteOp>, k: nat)
    requires NoteHistory(states, ops) && k <= |ops|
    ensures NotesOk(states[k])
  {
    if k > 0 {
      HistoryKeepsOk(states, ops, k - 1);
      assert NoteStep(states, ops, k - 1);
      StepKeepsOk(states[k - 1], ops[k - 1]);
    }
  }

  // An operation key, once opened, carries the same notes in the same order for good.
  lemma {:induction false} DeliveryNeverChanges(states: seq<Notes>, ops: seq<NoteOp>, key: string, k: nat, n: nat)
    requires NoteHistory(states, ops) && k <= n <= |ops| && DeliveryFor(states[k].deliveries, key).Some?
    ensures DeliveryFor(states[n].deliveries, key).Some?
        && DeliveryMessages(states[n], key) == DeliveryMessages(states[k], key)
    decreases n
  {
    if k < n {
      DeliveryNeverChanges(states, ops, key, k, n - 1);
      HistoryKeepsOk(states, ops, n - 1);
      HistoryKeepsOk(states, ops, n);
      assert NoteStep(states, ops, n - 1);
      StepExtends(states[n - 1], ops[n - 1]);
      DeliveryKept(states[n - 1], states[n], key);
      var d := DeliveryFor(states[n - 1].deliveries, key).value;
      assert states[n].deliveries[d].key == key;
    }
  }

  /**
    No note is lost: at every later moment a stored note is either still listed for its agent or
    carried by a delivery whose operation was applied.
  */
  lemma {:induction false} NoNoteIsLost(states: seq<Notes>, ops: seq<NoteOp>, m: Message, k: nat, n: nat)
    requires NoteHistory(states, ops) && k <= n <= |ops| && m in states[k].messages && m.kind == PEER
    ensures m in states[n].messages && m.recipient.Some?
    ensures m in Undelivered(states[n], m.run, m.recipient.value) <==> !Delivered(states[n], m.id)
    ensures Delivered(states[k], m.id) ==> Delivered(states[n], m.id)
    decreases n
  {
    HistoryKeepsOk(states, ops, n);
    if k < n {
      NoNoteIsLost(states, ops, m, k, n - 1);
      HistoryKeepsOk(states, ops, n - 1);
      assert NoteStep(states, ops, n - 1);
      StepExtends(states[n - 1], ops[n - 1]);
      var i :| 0 <= i < |states[n - 1].messages| && states[n - 1].messages[i] == m;
      assert states[n].messages[i] == m;
      if Delivered(states[k], m.id) {
        DeliveredStays(states[n - 1], states[n], m.id);
      }
    }
    var i :| 0 <= i < |states[n].messages| && states[n].messages[i] == m;
    assert Addressed(states[n].agents, states[n].messages[i]);
    UndeliveredIff(states[n], m.run, m.recipient.value, m);
  }

  // ---- recording while others act ----

  lemma {:induction false} AgentsStay(states: seq<Notes>, ops: seq<NoteOp>, k: nat, n: nat)
    requires NoteHistory(states, ops) && k <= n <= |ops|
    ensures states[k].agents <= states[n].agents
    decreases n
  {
    if k < n {
      AgentsStay(states, ops, k, n - 1);
      assert NoteStep(states, ops, n - 1);
    }
  }

  // A recipient once resolved can be stored to at any later moment.
  lemma ResolvedStaysAddressed(
      states: seq<Notes>, ops: seq<NoteOp>, run: string, sender: string, mention: Mention, k: nat, n: nat, m: Message)
    requires NoteHistory(states, ops) && k <= n <= |ops| && RecipientOf(states[k], run, sender, mention).Ok?
    requires m.run == run && m.recipient == Some(RecipientOf(states[k], run, sender, mention).value)
    ensures Addressed(states[n].agents, m) && m.recipient != Some(sender)
  {
    RecipientIsAgent(states[k], run, sender, mention);
    AgentsStay(states, ops, k, n);
    var before := states[k].agents;
    var a :| 0 <= a < |before| && before[a].run == run && before[a].id == m.recipient.value;
    assert states[n].agents[a] == before[a];
  }

  /**
    A recording in progress: resolved at state k, and its first notes stored by the steps `at`,
    in order, with any steps of anybody else in between.
  */
  ghost predicate Recording(
    states: seq<Notes>, ops: seq<NoteOp>, k: nat, run: string, sender: string, mentions: seq<Mention>, ids: seq<string>,
    created: seq<string>, at: seq<nat>)
    requires |states| == |ops| + 1 && k <= |ops|
  {
    var recipients := Resolve(states[k], run, sender, mentions);
    && recipients.Ok? && |recipients.value| == |ids| == |created| == |mentions| && |at| <= |mentions|
    && (forall i, j :: 0 <= i < j < |at| ==> at[i] < at[j])
    && (forall j :: 0 <= j < |at| ==>
          k <= at[j] < |ops| && ops[at[j]] == StoreOf(run, sender, recipients.value, mentions, ids, created, j))
  }

  /**
    Whatever happens in between, every note a recording has stored so far is there at any later
    moment, from its sender to the agent its label named when the recording began, and is listed
    for that agent until an operation that carries it is applied.
  */
  lemma RecordedWhileOthersAct(
      states: seq<Notes>, ops: seq<NoteOp>, k: nat, run: string, sender: string, mentions: seq<Mention>,
          ids: seq<string>,
      created: seq<string>, at: seq<nat>, j: nat, n: nat)
    requires NoteHistory(states, ops) && k <= |ops|
        && Recording(states, ops, k, run, sender, mentions, ids, created, at)
    requires j < |at| && at[j] < n <= |ops|
    ensures RecipientOf(states[k], run, sender, mentions[j]).Ok?
    ensures var recipient := RecipientOf(states[k], run, sender, mentions[j]).value;
      var m := Note(run, sender, recipient, mentions[j].text, ids[j], created[j]);
      && recipient != sender && m in states[n].messages && Addressed(states[n].agents, m)
      && (m in Undelivered(states[n], run, recipient) <==> !Delivered(states[n], m.id))
  {
    ResolvedInOrder(states[k], run, sender, mentions);
    var recipient := RecipientOf(states[k], run, sender, mentions[j]).value;
    var m := Note(run, sender, recipient, mentions[j].text, ids[j], created[j]);
    ResolvedStaysAddressed(states, ops, run, sender, mentions[j], k, n, m);
    assert NoteStep(states, ops, at[j]);
    var after := states[at[j] + 1].messages;
    assert after[|after| - 1] == m;
    NoNoteIsLost(states, ops, m, at[j] + 1, n);
  }

  // ---- the run-wide count ----

  function CountFor(messages: seq<Message>, keep: Message -> bool): nat {
    if messages == [] then 0
    else CountFor(messages[..|messages| - 1], keep) + if keep(messages[|messages| - 1]) then 1 else 0
  }

  lemma {:induction false} PlaceAddsOne(m: Message, rows: seq<Message>)
    ensures |Place(m, rows, MessageKey)| == |rows| + 1
  {
    if rows != [] && !KeyLess(MessageKey(rows[0]), MessageKey(m)) {
      PlaceAddsOne(m, rows[1..]);
    }
  }

  lemma {:induction false} ListingCounts(messages: seq<Message>, keep: Message -> bool)
    ensures |Listing(messages, MessageKey, keep, None)| == CountFor(messages, keep)
  {
    if messages != [] {
      var init, last := messages[..|messages| - 1], messages[|messages| - 1];
      ListingCounts(init, keep);
      assert Wanted(last, MessageKey, keep, None) <==> keep(last);
      if keep(last) {
        PlaceAddsOne(last, Listing(init, MessageKey, keep, None));
        assert Listing(messages, MessageKey, keep, None)
            == Place(last, Listing(init, MessageKey, keep, None), MessageKey);
      } else {
        assert Listing(messages, MessageKey, keep, None) == Listing(init, MessageKey, keep, None);
      }
    }
  }

  function SumOver(n: Notes, messages: seq<Message>, run: string, agents: seq<Agent>): nat {
    if agents == [] then 0
    else
      var last := |agents| - 1;
      SumOver(n, messages, run, agents[..last])
      + if agents[last].run == run then CountFor(messages, WaitingFor(n, run, agents[last].id)) else 0
  }

  function UndeliveredSum(n: Notes, run: string, agents: seq<Agent>): nat {
    if agents == [] then 0
    else
      var last := |agents| - 1;
      UndeliveredSum(n, run, agents[..last]) + if agents[last].run == run then |Undelivered(n, run, agents[last].id)|
          else 0
  }

  lemma {:induction false} SumCounts(n: Notes, run: string, agents: seq<Agent>)
    ensures UndeliveredSum(n, run, agents) == SumOver(n, n.messages, run, agents)
  {
    if agents != [] {
      var last := |agents| - 1;
      SumCounts(n, run, agents[..last]);
      var keep := WaitingFor(n, run, agents[last].id);
      ListingCounts(n.messages, keep);
      ReverseHas(Listing(n.messages, MessageKey, keep, None));
    }
  }

  // One more message adds one for each agent row it waits for.
  lemma {:induction false} SumOfLast(n: Notes, messages: seq<Message>, run: string, agents: seq<Agent>)
    requires messages != [] && UniqueAgents(agents)
    ensures var init, last := messages[..|messages| - 1], messages[|messages| - 1];
      SumOver(n, messages, run, agents) == SumOver(n, init, run, agents)
        + if IsWaiting(n, run, last) && Addressed(agents, last) then 1 else 0
  {
    var init, last := messages[..|messages| - 1], messages[|messages| - 1];
    if agents != [] {
      var k := |agents| - 1;
      var fewer := agents[..k];
      SumOfLast(n, messages, run, fewer);
      assert WaitingFor(n, run, agents[k].id)(last) <==>
          IsWaiting(n, run, last) && last.recipient == Some(agents[k].id);
      if IsWaiting(n, run, last) {
        AddressedByOne(agents, last);
      }
    }
  }

  lemma AddressedByOne(agents: seq<Agent>, m: Message)
    requires agents != [] && UniqueAgents(agents)
    ensures var k := |agents| - 1;
      var hit := agents[k].run == m.run && m.recipient == Some(agents[k].id);
      (Addressed(agents, m) <==> hit || Addressed(agents[..k], m)) && !(hit && Addressed(agents[..k], m))
  {
    var k := |agents| - 1;
    assert forall a :: 0 <= a < k ==> agents[..k][a] == agents[a];
    if Addressed(agents, m) {
      var a :| 0 <= a < |agents| && agents[a].run == m.run && agents[a].id == m.recipient.value;
      assert a < k ==> agents[..k][a].id == m.recipient.value;
    }
    if Addressed(agents[..k], m) {
      var a :| 0 <= a < k && agents[..k][a].run == m.run && agents[..k][a].id == m.recipient.value;
      assert agents[a].id == m.recipient.value;
    }
    if agents[k].run == m.run && m.recipient == Some(agents[k].id) {
      assert agents[k].id == m.recipient.value;
    }
  }

  lemma {:induction false} CountIsSumOf(n: Notes, messages: seq<Message>, run: string)
    requires UniqueAgents(n.agents)
    requires forall i :: 0 <= i < |messages| && messages[i].kind == PEER ==> Addressed(n.agents, messages[i])
    ensures UndeliveredCount(n, messages, run) == SumOver(n, messages, run, n.agents)
  {
    if messages == [] {
      NothingSums(n, run, n.agents);
    } else {
      var init := messages[..|messages| - 1];
      assert forall i :: 0 <= i < |init| ==> init[i] == messages[i];
      CountIsSumOf(n, init, run);
      SumOfLast(n, messages, run, n.agents);
    }
  }

  lemma {:induction false} NothingSums(n: Notes, run: string, agents: seq<Agent>)
    ensures SumOver(n, [], run, agents) == 0
  {
    if agents != [] {
      NothingSums(n, run, agents[..|agents| - 1]);
    }
  }

  // The count reported for a run is the sum of what its agents have not received.
  lemma CountIsSumOverAgents(n: Notes, run: string)
    requires NotesOk(n)
    ensures UndeliveredCount(n, n.messages, run) == UndeliveredSum(n, run, n.agents)
  {
    CountIsSumOf(n, n.messages, run);
    SumCounts(n, run, n.agents);
  }
}
