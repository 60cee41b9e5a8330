/**
  Whom a label means, in which order notes are listed, and what opening a delivery writes, in
  terms of the rows of the tables.
*/
module PeerNotesOutcomes {
  import opened Outcomes
  import opened Strings
  import opened Timestamps
  import opened Paging
  import opened Sequences
  import opened PeerNotes
  import opened PeerNotesTheorems

  // ---- labels ----

  function TwoDigits(n: nat): string { if n < 10 then "0" + Decimal(n) else Decimal(n) }

  // The workers of the run among the first k agents.
  function WorkersOf(agents: seq<Agent>, run: string, k: nat): nat
    requires k <= |agents|
  {
    if k == 0 then 0
    else WorkersOf(agents, run, k - 1) + if agents[k - 1].run == run && !agents[k - 1].leader then 1 else 0
  }

  // The i-th agent is of the run and is called this: a leader LEAD, the k-th worker W-k.
  predicate Called(agents: seq<Agent>, run: string, i: nat, name: string)
    requires i < |agents|
  {
    agents[i].run == run
    && name == if agents[i].leader then "LEAD" else "W-" + TwoDigits(WorkersOf(agents, run, i) + 1)
  }

  // The last agent of the run that is called this.
  ghost predicate Means(agents: seq<Agent>, run: string, name: string, i: nat)
    requires i < |agents|
  {
    Called(agents, run, i, name) && forall j :: i < j < |agents| ==> !Called(agents, run, j, name)
  }

  // The agent with this id is the one meant.
  ghost predicate MeansId(agents: seq<Agent>, run: string, name: string, id: string) {
    exists i :: 0 <= i < |agents| && Means(agents, run, name, i) && agents[i].id == id
  }

  lemma {:induction false} WorkersOfPrefix(agents: seq<Agent>, run: string, n: nat, k: nat)
    requires k <= n <= |agents|
    ensures WorkersOf(agents[..n], run, k) == WorkersOf(agents, run, k)
    decreases k
  {
    if k > 0 { WorkersOfPrefix(agents, run, n, k - 1); }
  }

  lemma {:induction false} WorkersAreCounted(agents: seq<Agent>, run: string)
    ensures WorkersBefore(AgentsOf(agents, run)) == WorkersOf(agents, run, |agents|)
  {
    if agents != [] {
      var init, last := agents[..|agents| - 1], agents[|agents| - 1];
      WorkersAreCounted(init, run);
      WorkersOfPrefix(agents, run, |init|, |init|);
      if last.run == run {
        var rows := AgentsOf(agents, run);
        assert rows[..|rows| - 1] == AgentsOf(init, run) && rows[|rows| - 1] == last;
      } else {
        assert AgentsOf(agents, run) == AgentsOf(init, run);
      }
    }
  }

  ghost predicate LabelsAre(agents: seq<Agent>, run: string) {
    var labels := Labels(AgentsOf(agents, run));
    && (forall i, name :: 0 <= i < |agents| && Called(agents, run, i, name) ==> name in labels)
    && forall name :: name in labels ==> MeansId(agents, run, name, labels[name])
  }

  lemma {:induction false} CalledInPrefix(agents: seq<Agent>, run: string, i: nat, name: string)
    requires agents != [] && i < |agents| - 1
    ensures Called(agents[..|agents| - 1], run, i, name) <==> Called(agents, run, i, name)
  {
    WorkersOfPrefix(agents, run, |agents| - 1, i);
  }

  lemma {:induction false} LabelOfLast(agents: seq<Agent>, run: string, name: string)
    requires agents != []
    ensures var n := |agents| - 1; var init := AgentsOf(agents[..n], run);
      Called(agents, run, n, name) <==>
        agents[n].run == run && name == LabelAt(init + [agents[n]], |init|)
  {
    var n := |agents| - 1;
    var init := AgentsOf(agents[..n], run);
    WorkersAreCounted(agents[..n], run);
    WorkersOfPrefix(agents, run, n, n);
    assert (init + [agents[n]])[..|init|] == init;
  }

  lemma {:induction false} LabelsGrow(agents: seq<Agent>, run: string)
    requires agents != []
    ensures var n := |agents| - 1; var init := AgentsOf(agents[..n], run);
      Labels(AgentsOf(agents, run)) ==
        if agents[n].run == run then Labels(init)[LabelAt(init + [agents[n]], |init|) := agents[n].id] else Labels(init)
  {
    var n := |agents| - 1;
    var init := AgentsOf(agents[..n], run);
    if agents[n].run == run {
      var rows := AgentsOf(agents, run);
      assert rows == init + [agents[n]] && rows[..|rows| - 1] == init;
    } else {
      assert AgentsOf(agents, run) == init;
    }
  }

  lemma {:induction false} LabelsAreNames(agents: seq<Agent>, run: string)
    ensures LabelsAre(agents, run)
  {
    if agents != [] {
      var n := |agents| - 1;
      LabelsAreNames(agents[..n], run);
      LabelsGrow(agents, run);
      forall i, name | 0 <= i < |agents| && Called(agents, run, i, name) ensures name in Labels(AgentsOf(agents, run)) {
        LabelOfLast(agents, run, name);
        if i < n { CalledInPrefix(agents, run, i, name); }
      }
      forall name | name in Labels(AgentsOf(agents, run))
        ensures MeansId(agents, run, name, Labels(AgentsOf(agents, run))[name])
      {
        MeaningGrows(agents, run, name);
      }
    }
  }

  lemma {:induction false} MeaningGrows(agents: seq<Agent>, run: string, name: string)
    requires agents != [] && LabelsAre(agents[..|agents| - 1], run) && name in Labels(AgentsOf(agents, run))
    ensures MeansId(agents, run, name, Labels(AgentsOf(agents, run))[name])
  {
    var n := |agents| - 1;
    var init := agents[..n];
    LabelsGrow(agents, run);
    LabelOfLast(agents, run, name);
    if Called(agents, run, n, name) {
      assert Means(agents, run, name, n);
    } else {
      MeaningStays(agents, run, name, Labels(AgentsOf(init, run))[name]);
    }
  }

  lemma {:induction false} MeaningStays(agents: seq<Agent>, run: string, name: string, id: string)
    requires agents != [] && MeansId(agents[..|agents| - 1], run, name, id)
    requires !Called(agents, run, |agents| - 1, name)
    ensures MeansId(agents, run, name, id)
  {
    var n := |agents| - 1;
    var init := agents[..n];
    var i :| 0 <= i < n && Means(init, run, name, i) && init[i].id == id;
    forall j | i < j < n ensures !Called(agents, run, j, name) {
      assert !Called(init, run, j, name);
      CalledInPrefix(agents, run, j, name);
    }
    CalledInPrefix(agents, run, i, name);
    StillMeans(agents, run, name, i, n);
    assert agents[i].id == id;
  }

  lemma {:induction false} StillMeans(agents: seq<Agent>, run: string, name: string, i: nat, n: nat)
    requires i < n == |agents| - 1 && Called(agents, run, i, name) && !Called(agents, run, n, name)
    requires forall j :: i < j < n ==> !Called(agents, run, j, name)
    ensures Means(agents, run, name, i)
  {
  }

  /**
    A mention goes to the last agent of the run called so, unless that is the sender; a label that
    nobody has is unknown.
  */
  lemma {:induction false} RecipientIff(n: Notes, run: string, sender: string, m: Mention)
    ensures match RecipientOf(n, run, sender, m)
      case Ok(id) => id != sender && MeansId(n.agents, run, m.to, id)
      case Err(ToSelf) => MeansId(n.agents, run, m.to, sender)
      case Err(UnknownRecipient) => forall i :: 0 <= i < |n.agents| ==> !Called(n.agents, run, i, m.to)
      case Err(DuplicateItem) => false
  {
    LabelsAreNames(n.agents, run);
  }

  // ---- the order of listed notes ----

  predicate Earlier(a: Message, b: Message) {
    Less(a.created, b.created) || (a.created == b.created && Less(a.id, b.id))
  }

  ghost predicate OldestFirst(rows: seq<Message>) {
    forall i, k :: 0 <= i < k < |rows| ==> Earlier(rows[i], rows[k])
  }

  lemma {:induction false} ReversedListing(n: Notes, keep: Message -> bool)
    requires UniqueMessages(n)
    ensures OldestFirst(Reverse(Listing(n.messages, MessageKey, keep, None)))
  {
    var rows := Listing(n.messages, MessageKey, keep, None);
    MessageKeysDistinct(n, keep);
    ListingIsSorted(n.messages, MessageKey, keep, None);
    forall i, k | 0 <= i < k < |Reverse(rows)| ensures Earlier(Reverse(rows)[i], Reverse(rows)[k]) {
      ReverseHas(rows);
      ReverseAt(rows, i);
      ReverseAt(rows, k);
    }
  }

  /** Waiting notes and the notes of a delivery are listed once each, oldest first. */
  lemma {:induction false} ListedOldestFirst(n: Notes, run: string, agent: string, key: string)
    requires UniqueMessages(n)
    ensures OldestFirst(Undelivered(n, run, agent)) && OldestFirst(DeliveryMessages(n, key))
  {
    ReversedListing(n, WaitingFor(n, run, agent));
    ReversedListing(n, CarriedBy(n, key));
  }

  // ---- deliveries ----

  ghost predicate IsOpen(n: Notes, key: string) { exists d :: 0 <= d < |n.deliveries| && n.deliveries[d].key == key }

  /**
    Opening a delivery under a key that has one returns it and changes nothing; otherwise one row
    is added, and an item for every note, in order, unless a note is named twice.
  */
  lemma {:induction false} OpenIff(n: Notes, run: string, agent: string, key: string, ids: seq<string>, id: string)
    requires UniqueDeliveries(n)
    ensures var delivery := OpenDelivery(n, run, agent, key, ids, id);
      && (forall d :: 0 <= d < |n.deliveries| && n.deliveries[d].key == key ==> delivery == Ok((n, n.deliveries[d].id)))
      && (!IsOpen(n, key) ==>
           && (delivery.Err? <==> exists i, j :: 0 <= i < j < |ids| && ids[i] == ids[j])
           && (delivery.Err? ==> delivery.error == DuplicateItem)
           && (delivery.Ok? ==> delivery.value.1 == id && AddsDelivery(n, delivery.value.0, Delivery(id, run, agent, key), ids)))
  {
  }

  predicate AddsDelivery(n: Notes, after: Notes, row: Delivery, ids: seq<string>) {
    && after == n.(deliveries := n.deliveries + [row], items := after.items)
    && |after.items| == |n.items| + |ids| && after.items[..|n.items|] == n.items
    && forall i :: 0 <= i < |ids| ==> after.items[|n.items| + i] == Item(row.id, ids[i])
  }

  // A delivery under this key holds the note.
  ghost predicate Holds(n: Notes, key: string, message: string) {
    exists d :: 0 <= d < |n.deliveries| && n.deliveries[d].key == key && Carries(n, n.deliveries[d], message)
  }

  /** Applying an operation delivers exactly the notes its delivery holds, besides those delivered before. */
  lemma {:induction false} ApplyingDelivers(n: Notes, key: string, message: string)
    ensures Delivered(Perform(n, ApplyOp(key)), message) <==> Delivered(n, message) || Holds(n, key, message)
  {
    var after := Perform(n, ApplyOp(key));
    assert forall d :: 0 <= d < |n.deliveries| ==>
        Carries(after, after.deliveries[d], message) == Carries(n, n.deliveries[d], message);
  }
}
