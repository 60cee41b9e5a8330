/** The collaboration service as the program writes it, over tables it updates in place. */
module PeerNotesService {
  import opened Outcomes
  import opened PeerNotes

  class TeamCollaborationService {
    var agents: seq<Agent>
    var messages: seq<Message>
    var deliveries: seq<Delivery>
    var items: seq<Item>
    var applied: set<string>

    constructor ()
      ensures State() == Notes([], [], [], [], {})
    {
      agents, messages, deliveries, items, applied := [], [], [], [], {};
    }

    function State(): Notes
      reads this
    {
      Notes(agents, messages, deliveries, items, applied)
    }

    // Fills the dict agent by agent, counting the workers.
    method LabelsForRun(run: string) returns (labels: map<string, string>)
      ensures labels == Labels(AgentsOf(agents, run))
    {
      var listed := AgentsOf(agents, run);
      var ordinal := 0;
      labels := map[];
      for i := 0 to |listed|
        invariant labels == Labels(listed[..i])
        invariant ordinal == WorkersBefore(listed[..i])
      {
        assert listed[..i + 1][..i] == listed[..i] && listed[..i + 1][i] == listed[i];
        if listed[i].leader {
          labels := labels["LEAD" := listed[i].id];
        } else {
          ordinal := ordinal + 1;
          labels := labels[WorkerLabel(ordinal) := listed[i].id];
        }
      }
      assert listed[..|listed|] == listed;
    }

    // append_message: one note, committed at once.
    method StoreNote(run: string, sender: string, recipient: string, text: string, id: string, created: string)
      modifies this`messages
      ensures State() == Perform(old(State()), StoreOp(run, sender, recipient, text, id, created))
    {
      messages := messages + [Message(id, run, Some(sender), Some(recipient), PEER, text, created)];
    }

    // Resolves every label before it stores anything, then stores note by note.
    method RecordMentions(run: string, sender: string, mentions: seq<Mention>, ids: seq<string>, created: seq<string>)
      returns (refusal: Option<NoteError>)
      requires |ids| == |created| == |mentions|
      modifies this`messages
      ensures var recipients := Resolve(old(State()), run, sender, mentions);
        refusal == if recipients.Err? then Some(recipients.error) else None
      ensures State() == Recorded(old(State()), run, sender, mentions, ids, created)
    {
      var labels := LabelsForRun(run);
      var recipients: seq<string> := [];
      ghost var before := State();
      assert mentions[0..] == mentions;
      JoinedNone(Resolve(before, run, sender, mentions));
      for i := 0 to |mentions|
        invariant |recipients| == i && State() == before
        invariant Resolve(before, run, sender, mentions)
            == Joined(recipients, Resolve(before, run, sender, mentions[i..]))
      {
        assert mentions[i..][0] == mentions[i] && mentions[i..][1..] == mentions[i + 1..];
        if mentions[i].to !in labels {
          return Some(UnknownRecipient);
        }
        if labels[mentions[i].to] == sender {
          return Some(ToSelf);
        }
        JoinedNext(recipients, labels[mentions[i].to], Resolve(before, run, sender, mentions[i + 1..]));
        recipients := recipients + [labels[mentions[i].to]];
      }
      assert recipients + [] == recipients;
      assert Resolve(before, run, sender, mentions) == Ok(recipients);
      for i := 0 to |mentions|
        invariant State() == StoreFirst(before, run, sender, recipients, mentions, ids, created, i)
      {
        StoreNote(run, sender, recipients[i], mentions[i].text, ids[i], created[i]);
      }
      return None;
    }

    // One transaction: the delivery row and then its items; a repeated item rolls all of it back.
    method OpenDeliveryRow(run: string, agent: string, key: string, ids: seq<string>, id: string)
        returns (r: Result<string, NoteError>)
      requires forall i :: 0 <= i < |items| ==> items[i].delivery != id
      modifies this`deliveries, this`items
      ensures var step := OpenDelivery(old(State()), run, agent, key, ids, id);
        if step.Ok? then r == Ok(step.value.1) && State() == step.value.0
            else r == Err(step.error) && State() == old(State())
    {
      var existing := DeliveryFor(deliveries, key);
      if existing.Some? {
        return Ok(deliveries[existing.value].id);
      }
      var savedDeliveries, savedItems := deliveries, items;
      deliveries := deliveries + [Delivery(id, run, agent, key)];
      for i := 0 to |ids|
        invariant deliveries == savedDeliveries + [Delivery(id, run, agent, key)]
        invariant items == savedItems + ItemsOf(id, ids[..i])
        invariant Distinct(ids[..i])
      {
        if Item(id, ids[i]) in items {
          RepeatedItem(savedItems, id, ids, i);
          deliveries, items := savedDeliveries, savedItems;
          return Err(DuplicateItem);
        }
        FirstOccurrence(savedItems, id, ids, i);
        items := items + [Item(id, ids[i])];
        assert ItemsOf(id, ids[..i + 1]) == ItemsOf(id, ids[..i]) + [Item(id, ids[i])];
      }
      assert ids[..|ids|] == ids;
      return Ok(id);
    }
  }

  // Recipients found so far, before those of the rest or its refusal.
  function Joined(found: seq<string>, rest: Result<seq<string>, NoteError>): Result<seq<string>, NoteError> {
    if rest.Err? then rest else Ok(found + rest.value)
  }

  lemma JoinedNone(rest: Result<seq<string>, NoteError>)
    ensures Joined([], rest) == rest
  {
    if rest.Ok? { assert [] + rest.value == rest.value; }
  }

  lemma JoinedNext(found: seq<string>, next: string, rest: Result<seq<string>, NoteError>)
    ensures Joined(found + [next], rest) == Joined(found, Joined([next], rest))
  {
    if rest.Ok? { assert (found + [next]) + rest.value == found + ([next] + rest.value); }
  }

  lemma RepeatedItem(before: seq<Item>, id: string, ids: seq<string>, i: nat)
    requires i < |ids| && (forall k :: 0 <= k < |before| ==> before[k].delivery != id)
    requires Item(id, ids[i]) in before + ItemsOf(id, ids[..i])
    ensures !Distinct(ids)
  {
    var all := before + ItemsOf(id, ids[..i]);
    var k :| 0 <= k < |all| && all[k] == Item(id, ids[i]);
    assert k >= |before| ==> all[k] == Item(id, ids[k - |before|]);
  }

  lemma FirstOccurrence(before: seq<Item>, id: string, ids: seq<string>, i: nat)
    requires i < |ids| && Distinct(ids[..i]) && Item(id, ids[i]) !in before + ItemsOf(id, ids[..i])
    ensures Distinct(ids[..i + 1])
  {
    var all, mine := before + ItemsOf(id, ids[..i]), ItemsOf(id, ids[..i]);
    forall j | 0 <= j < i ensures ids[j] != ids[i] {
      assert all[|before| + j] == mine[j] == Item(id, ids[j]);
    }
    assert forall j :: 0 <= j < i ==> ids[..i][j] == ids[..i + 1][j];
  }
}
