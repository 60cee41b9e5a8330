/**
  Notes between the agents of a team run: labels, all-or-nothing recording, deliveries that
  replay identically, and the notes that are still undelivered.
*/
module PeerNotes {
  import opened Outcomes
  import opened Strings
  import opened Paging
  import opened Sequences

  // The agents of all runs, in the order the select lists them; new agents come last.
  datatype Agent = Agent(id: string, run: string, leader: bool)

  datatype Message = Message(
    id: string, run: string, sender: Option<string>, recipient: Option<string>, kind: string, content: string,
        created: string)

  datatype Delivery = Delivery(id: string, run: string, agent: string, key: string)

  datatype Item = Item(delivery: string, message: string)

  datatype Mention = Mention(to: string, text: string)

  // `applied` holds the keys of the model operations that have been applied.
  datatype Notes = Notes(
    agents: seq<Agent>, messages: seq<Message>, deliveries: seq<Delivery>, items: seq<Item>, applied: set<string>)

  datatype NoteError = UnknownRecipient | ToSelf | DuplicateItem

  const PEER := "peer_mention"

  // ---- labels ----

  function WorkerLabel(ordinal: nat): string {
    "W-" + if ordinal < 10 then "0" + Decimal(ordinal) else Decimal(ordinal)
  }

  function AgentsOf(agents: seq<Agent>, run: string): seq<Agent> {
    if agents == [] then []
    else
      var last := agents[|agents| - 1];
      AgentsOf(agents[..|agents| - 1], run) + if last.run == run then [last] else []
  }

  function WorkersBefore(agents: seq<Agent>): nat {
    if agents == [] then 0
    else WorkersBefore(agents[..|agents| - 1]) + if agents[|agents| - 1].leader then 0 else 1
  }

  function LabelAt(agents: seq<Agent>, i: nat): string
    requires i < |agents|
  {
    if agents[i].leader then "LEAD" else WorkerLabel(WorkersBefore(agents[..i]) + 1)
  }

  // A dict filled in order, so a second leader replaces the first.
  function Labels(agents: seq<Agent>): map<string, string> {
    if agents == [] then map[]
    else
      var last := |agents| - 1;
      Labels(agents[..last])[LabelAt(agents, last) := agents[last].id]
  }

  lemma WorkerLabelsDiffer(m: nat, n: nat)
    requires WorkerLabel(m) == WorkerLabel(n)
    ensures m == n
  {
    DecimalReadsBack(m);
    DecimalReadsBack(n);
    var a, b := WorkerLabel(m)[2..], WorkerLabel(n)[2..];
    DigitsOfLabel(m);
    DigitsOfLabel(n);
    assert a == b;
  }

  lemma DigitsOfLabel(n: nat)
    ensures var digits := WorkerLabel(n)[2..]; AllDigits(digits) && Value(digits) == n
    ensures WorkerLabel(n) != "LEAD"
  {
    DecimalReadsBack(n);
    var digits := WorkerLabel(n)[2..];
    if n < 10 {
      assert digits == "0" + Decimal(n) && digits[..1] == "0" && digits[..1][..0] == "";
      assert Value("0") == 0;
    } else {
      assert digits == Decimal(n);
    }
  }

  lemma {:induction false} WorkersGrow(agents: seq<Agent>, i: nat, j: nat)
    requires i < j <= |agents| && !agents[i].leader
    ensures WorkersBefore(agents[..i]) < WorkersBefore(agents[..j])
    decreases j
  {
    assert agents[..j][..j - 1] == agents[..j - 1] && agents[..j][j - 1] == agents[j - 1];
    if i < j - 1 {
      WorkersGrow(agents, i, j - 1);
    }
  }

  lemma LabelsDiffer(agents: seq<Agent>, i: nat, j: nat)
    requires i < j < |agents| && LabelAt(agents, i) == LabelAt(agents, j)
    ensures agents[i].leader && agents[j].leader
  {
    DigitsOfLabel(WorkersBefore(agents[..i]) + 1);
    DigitsOfLabel(WorkersBefore(agents[..j]) + 1);
    if !agents[i].leader && !agents[j].leader {
      WorkerLabelsDiffer(WorkersBefore(agents[..i]) + 1, WorkersBefore(agents[..j]) + 1);
      WorkersGrow(agents, i, j);
    }
  }

  lemma LabelsOfPrefix(agents: seq<Agent>, n: nat, i: nat)
    requires i < n <= |agents|
    ensures LabelAt(agents[..n], i) == LabelAt(agents, i)
  {
    assert agents[..n][..i] == agents[..i];
  }

  ghost predicate Names(agents: seq<Agent>, name: string, id: string) {
    exists i :: 0 <= i < |agents| && LabelAt(agents, i) == name && agents[i].id == id
  }

  // A label names an agent of the run that has it.
  lemma {:induction false} LabelsNameAgents(agents: seq<Agent>)
    ensures forall name :: name in Labels(agents) ==> Names(agents, name, Labels(agents)[name])
  {
    if agents != [] {
      var last := |agents| - 1;
      var init := agents[..last];
      LabelsNameAgents(init);
      assert LabelAt(agents, last) == LabelAt(agents, last);
      forall name | name in Labels(init) ensures Names(agents, name, Labels(init)[name]) {
        NamesGrow(agents, name, Labels(init)[name]);
      }
    }
  }

  lemma NamesGrow(agents: seq<Agent>, name: string, id: string)
    requires agents != [] && Names(agents[..|agents| - 1], name, id)
    ensures Names(agents, name, id)
  {
    var init := agents[..|agents| - 1];
    var i :| 0 <= i < |init| && LabelAt(init, i) == name && init[i].id == id;
    assert init[..i] == agents[..i] && init[i] == agents[i];
    assert LabelAt(agents, i) == LabelAt(init, i);
  }

  predicate HasOwnLabel(agents: seq<Agent>, i: nat)
    requires i < |agents|
  {
    LabelAt(agents, i) in Labels(agents) && Labels(agents)[LabelAt(agents, i)] == agents[i].id
  }

  lemma {:induction false} LabelIsFree(agents: seq<Agent>, i: nat)
    requires i < |agents| - 1 && !agents[i].leader
    ensures LabelAt(agents, i) != LabelAt(agents, |agents| - 1)
  {
    if LabelAt(agents, i) == LabelAt(agents, |agents| - 1) { LabelsDiffer(agents, i, |agents| - 1); }
  }

  lemma {:induction false} OwnLabelStays(agents: seq<Agent>, i: nat)
    requires i < |agents| - 1 && !agents[i].leader && HasOwnLabel(agents[..|agents| - 1], i)
    ensures HasOwnLabel(agents, i)
  {
    LabelsOfPrefix(agents, |agents| - 1, i);
    LabelIsFree(agents, i);
  }

  // Every worker has the label of its place, and no other agent takes it.
  lemma {:induction false} WorkersHaveLabels(agents: seq<Agent>)
    ensures forall i :: 0 <= i < |agents| && !agents[i].leader ==> HasOwnLabel(agents, i)
  {
    if agents != [] {
      var last := |agents| - 1;
      WorkersHaveLabels(agents[..last]);
      forall i | 0 <= i < |agents| && !agents[i].leader ensures HasOwnLabel(agents, i) {
        if i < last {
          assert agents[..last][i] == agents[i];
          OwnLabelStays(agents, i);
        }
      }
    }
  }

  // ---- recording ----

  function RecipientOf(n: Notes, run: string, sender: string, m: Mention): Result<string, NoteError> {
    var labels := Labels(AgentsOf(n.agents, run));
    if m.to !in labels then Err(UnknownRecipient)
    else if labels[m.to] == sender then Err(ToSelf)
    else Ok(labels[m.to])
  }

  // The recipients of all mentions, in order, or the first refusal.
  function Resolve(n: Notes, run: string, sender: string, mentions: seq<Mention>): Result<seq<string>, NoteError> {
    if mentions == [] then Ok([])
    else
      var first := RecipientOf(n, run, sender, mentions[0]);
      if first.Err? then Err(first.error)
      else
        var rest := Resolve(n, run, sender, mentions[1..]);
        if rest.Err? then rest else Ok([first.value] + rest.value)
  }

  function Note(run: string, sender: string, recipient: string, text: string, id: string, created: string): Message {
    Message(id, run, Some(sender), Some(recipient), PEER, text, created)
  }

  // ---- deliveries ----

  function DeliveryFor(deliveries: seq<Delivery>, key: string): (found: Option<nat>)
    ensures found.Some? ==> found.value < |deliveries| && deliveries[found.value].key == key
    ensures found.None? ==> forall i :: 0 <= i < |deliveries| ==> deliveries[i].key != key
  {
    if deliveries == [] then None
    else
      var last := |deliveries| - 1;
      if deliveries[last].key == key then Some(last) else DeliveryFor(deliveries[..last], key)
  }

  predicate Distinct(ids: seq<string>) {
    forall i, j :: 0 <= i < j < |ids| ==> ids[i] != ids[j]
  }

  function ItemsOf(delivery: string, ids: seq<string>): seq<Item> {
    seq(|ids|, i requires 0 <= i < |ids| => Item(delivery, ids[i]))
  }

  // An operation key already opened keeps its items; the rows go in together or not at all.
  function OpenDelivery(n: Notes, run: string, agent: string, key: string, ids: seq<string>,
      id: string): Result<(Notes, string), NoteError> {
    var existing := DeliveryFor(n.deliveries, key);
    if existing.Some? then Ok((n, n.deliveries[existing.value].id))
    else if !Distinct(ids) then Err(DuplicateItem)
    else Ok((n.(deliveries := n.deliveries + [Delivery(id, run, agent, key)], items := n.items + ItemsOf(id, ids)), id))
  }

  predicate Carries(n: Notes, d: Delivery, message: string) {
    exists i :: 0 <= i < |n.items| && n.items[i] == Item(d.id, message)
  }

  // Some delivery holding the note belongs to an applied operation.
  predicate Delivered(n: Notes, message: string) {
    exists d :: 0 <= d < |n.deliveries| && n.deliveries[d].key in n.applied && Carries(n, n.deliveries[d], message)
  }

  function MessageKey(m: Message): Key { Stamp(m.created, m.id) }

  predicate IsWaiting(n: Notes, run: string, m: Message) {
    m.run == run && m.kind == PEER && !Delivered(n, m.id)
  }

  function WaitingFor(n: Notes, run: string, agent: string): Message -> bool {
    (m: Message) => IsWaiting(n, run, m) && m.recipient == Some(agent)
  }

  // The undelivered notes of an agent, by created_at, then id.
  function Undelivered(n: Notes, run: string, agent: string): seq<Message> {
    Reverse(Listing(n.messages, MessageKey, WaitingFor(n, run, agent), None))
  }

  function CarriedBy(n: Notes, key: string): Message -> bool {
    (m: Message) => exists d :: 0 <= d < |n.deliveries| && n.deliveries[d].key == key && Carries(n, n.deliveries[d], m.id)
  }

  function DeliveryMessages(n: Notes, key: string): seq<Message> {
    Reverse(Listing(n.messages, MessageKey, CarriedBy(n, key), None))
  }

  function UndeliveredCount(n: Notes, messages: seq<Message>, run: string): nat {
    if messages == [] then 0
    else UndeliveredCount(n, messages[..|messages| - 1], run) + if IsWaiting(n, run, messages[|messages| - 1]) then 1
        else 0
  }

  // ---- what the tables keep ----

  ghost predicate UniqueMessages(n: Notes) {
    forall i, j :: 0 <= i < j < |n.messages| ==> n.messages[i].id != n.messages[j].id
  }

  ghost predicate UniqueDeliveries(n: Notes) {
    forall i, j :: 0 <= i < j < |n.deliveries| ==>
        n.deliveries[i].id != n.deliveries[j].id && n.deliveries[i].key != n.deliveries[j].key
  }

  ghost predicate HasDelivery(deliveries: seq<Delivery>, id: string) {
    exists d :: 0 <= d < |deliveries| && deliveries[d].id == id
  }

  ghost predicate HasMessage(messages: seq<Message>, id: string) {
    exists m :: 0 <= m < |messages| && messages[m].id == id
  }

  ghost predicate ItemsLinked(n: Notes) {
    forall i :: 0 <= i < |n.items| ==>
        HasDelivery(n.deliveries, n.items[i].delivery) && HasMessage(n.messages, n.items[i].message)
  }

  // Every note was addressed to an agent of its run.
  ghost predicate NotesAddressed(n: Notes) {
    forall i :: 0 <= i < |n.messages| && n.messages[i].kind == PEER ==> Addressed(n.agents, n.messages[i])
  }

  ghost predicate Addressed(agents: seq<Agent>, m: Message) {
    m.recipient.Some? && exists a :: 0 <= a < |agents| && agents[a].run == m.run && agents[a].id == m.recipient.value
  }

  ghost predicate UniqueAgents(agents: seq<Agent>) {
    forall i, j :: 0 <= i < j < |agents| ==> agents[i].id != agents[j].id
  }

  ghost predicate NotesOk(n: Notes) {
    UniqueMessages(n) && UniqueDeliveries(n) && ItemsLinked(n) && NotesAddressed(n) && UniqueAgents(n.agents)
  }

  ghost predicate NewIds(n: Notes, ids: seq<string>) {
    && Distinct(ids)
    && forall i :: 0 <= i < |ids| ==> !HasMessage(n.messages, ids[i])
  }

  ghost predicate NewDelivery(n: Notes, id: string) {
    !HasDelivery(n.deliveries, id)
  }

  // Callers put only stored notes into a delivery.
  ghost predicate Stored(n: Notes, ids: seq<string>) {
    forall i :: 0 <= i < |ids| ==> HasMessage(n.messages, ids[i])
  }

  // ---- histories ----

  datatype NoteOp =
    | StoreOp(run: string, sender: string, recipient: string, text: string, id: string, created: string)
    | OpenOp(run: string, agent: string, key: string, ids: seq<string>, id: string)
    | ApplyOp(key: string)
    | AgentOp(added: Agent)
    | OtherMessageOp(message: Message)

  ghost predicate Permitted(n: Notes, op: NoteOp) {
    match op
    case StoreOp(run, sender, recipient, text, id, created) =>
      NewIds(n, [id]) && Addressed(n.agents, Note(run, sender, recipient, text, id, created))
    case OpenOp(_, _, _, ids, id) => NewDelivery(n, id) && Stored(n, ids)
    case ApplyOp(_) => true
    case AgentOp(added) => forall a :: 0 <= a < |n.agents| ==> n.agents[a].id != added.id
    case OtherMessageOp(m) => m.kind != PEER && NewIds(n, [m.id])
  }

  function Perform(n: Notes, op: NoteOp): Notes {
    match op
    case StoreOp(run, sender, recipient, text, id, created) =>
      n.(messages := n.messages + [Note(run, sender, recipient, text, id, created)])
    case OpenOp(run, agent, key, ids, id) =>
      var outcome := OpenDelivery(n, run, agent, key, ids, id); if outcome.Ok? then outcome.value.0 else n
    case ApplyOp(key) => n.(applied := n.applied + {key})
    case AgentOp(added) => n.(agents := n.agents + [added])
    case OtherMessageOp(m) => n.(messages := n.messages + [m])
  }

  // record_mentions: every label is resolved first, then each note is a commit of its own.
  function StoreOf(run: string, sender: string, recipients: seq<string>, mentions: seq<Mention>, ids: seq<string>,
    created: seq<string>, i: nat): NoteOp
    requires i < |recipients| == |ids| == |created| == |mentions|
  {
    StoreOp(run, sender, recipients[i], mentions[i].text, ids[i], created[i])
  }

  // The first k notes stored, with no other step in between.
  function StoreFirst(n: Notes, run: string, sender: string, recipients: seq<string>, mentions: seq<Mention>,
      ids: seq<string>,
    created: seq<string>, k: nat): Notes
    requires k <= |recipients| == |ids| == |created| == |mentions|
  {
    if k == 0 then n
    else Perform(StoreFirst(n, run, sender, recipients, mentions, ids, created, k - 1),
                 StoreOf(run, sender, recipients, mentions, ids, created, k - 1))
  }

  lemma {:induction false} ResolvedSize(n: Notes, run: string, sender: string, mentions: seq<Mention>)
    ensures Resolve(n, run, sender, mentions).Ok? ==> |Resolve(n, run, sender, mentions).value| == |mentions|
  {
    if mentions != [] { ResolvedSize(n, run, sender, mentions[1..]); }
  }

  function Recorded(n: Notes, run: string, sender: string, mentions: seq<Mention>, ids: seq<string>,
      created: seq<string>): Notes
    requires |ids| == |created| == |mentions|
  {
    var recipients := Resolve(n, run, sender, mentions);
    ResolvedSize(n, run, sender, mentions);
    if recipients.Err? then n else StoreFirst(n, run, sender, recipients.value, mentions, ids, created, |mentions|)
  }
}
