/**
  The archive: entries, their revisions, the search index, and the knowledge requests that
  entries fulfil. One function per transaction, from the tables before to the tables after.
*/
module Archive {
  import opened Outcomes
  import opened Strings
  import opened Sequences

  datatype Doc = Doc(kind: string, title: string, summary: string, content: string, tags: seq<string>,
      urls: seq<string>)

  datatype EntryStatus = Draft | Published | Archived

  datatype Entry = Entry(doc: Doc, status: EntryStatus, revision: nat)

  datatype Revision = Revision(entry: string, number: nat, doc: Doc, byUser: bool)

  datatype IndexRow = IndexRow(entry: string, title: string, summary: string, content: string, tags: string)

  datatype Binding = Binding(entry: string, scope: string, scopeId: string)

  datatype Origin = Origin(entry: string, sourceType: string, sourceId: string, request: Option<string>)

  datatype RequestStatus = Open | InProgress | Deferred | Dismissed | Fulfilled

  datatype KnowledgeRequest = KnowledgeRequest(
    status: RequestStatus, fulfilledBy: Option<string>, team: Option<string>, failure: Option<(string, Option<string>)>)

  datatype Shelf = Shelf(
    entries: map<string, Entry>, revisions: seq<Revision>, index: seq<IndexRow>, bindings: seq<Binding>,
    origins: seq<Origin>, requests: map<string, KnowledgeRequest>)

  datatype ArchiveError =
    | NotTheUser | NotATeam | InvalidKind | MissingText | TextTooLong | UnknownPersona | EntryNotFound | RequestNotFound
    | InvalidSource | InvalidStatus | AlreadyFulfilled | NotActive | AssignedElsewhere

  const KINDS: set<string> := {"procedure", "search_method", "implementation_pattern", "reference", "checklist"}
  const DRAFT_SOURCES: set<string> := {"hook", "knowledge_request", "team_note"}
  const TEAM_NOTE := "team_note"

  // ---- validated content ----

  function Required(value: string, max: nat): Result<string, ArchiveError> {
    var clean := Strip(value);
    if clean == "" then Err(MissingText) else if |clean| > max then Err(TextTooLong) else Ok(clean)
  }

  function Truncated(s: string, max: nat): string { if |s| <= max then s else s[..max] }

  function CleanTexts(values: seq<string>, max: nat): seq<string> {
    if values == [] then []
    else
      var last := Strip(values[|values| - 1]);
      CleanTexts(values[..|values| - 1], max) + if last == "" then [] else [Truncated(last, max)]
  }

  function CleanList(values: seq<string>, items: nat, max: nat): seq<string> {
    Deduped(CleanTexts(if |values| <= items then values else values[..items], max))
  }

  function Validated(raw: Doc): Result<Doc, ArchiveError> {
    if raw.kind !in KINDS then Err(InvalidKind)
    else
      var content, title := Required(raw.content, 100_000), Required(raw.title, 200);
      if content.Err? then Err(content.error)
      else if title.Err? then Err(title.error)
      else Ok(Doc(raw.kind, title.value, Truncated(Strip(raw.summary), 1000), content.value,
                  CleanList(raw.tags, 20, 80), CleanList(raw.urls, 20, 2000)))
  }

  // ---- rows of one entry ----

  function RevisionOf(entry: string): Revision -> bool { (r: Revision) => r.entry == entry }
  function NotRevisionOf(entry: string): Revision -> bool { (r: Revision) => r.entry != entry }
  function IndexOf(entry: string): IndexRow -> bool { (r: IndexRow) => r.entry == entry }
  function NotIndexOf(entry: string): IndexRow -> bool { (r: IndexRow) => r.entry != entry }
  function NotBindingOf(entry: string): Binding -> bool { (b: Binding) => b.entry != entry }
  function NotOriginOf(entry: string): Origin -> bool { (o: Origin) => o.entry != entry }

  function OriginFor(origins: seq<Origin>, sourceType: string, sourceId: string): (found: Option<nat>)
    ensures found.Some? ==> found.value < |origins| && origins[found.value].sourceType == sourceType && origins[found.value].sourceId == sourceId
    ensures found.None? ==> forall i :: 0 <= i < |origins| ==>
        origins[i].sourceType != sourceType || origins[i].sourceId != sourceId
  {
    if origins == [] then None
    else
      var last := |origins| - 1;
      if origins[last].sourceType == sourceType && origins[last].sourceId == sourceId then Some(last)
      else OriginFor(origins[..last], sourceType, sourceId)
  }

  function OriginOf(origins: seq<Origin>, entry: string): (found: Option<nat>)
    ensures found.Some? ==> found.value < |origins| && origins[found.value].entry == entry
    ensures found.None? ==> forall i :: 0 <= i < |origins| ==> origins[i].entry != entry
  {
    if origins == [] then None
    else
      var last := |origins| - 1;
      if origins[last].entry == entry then Some(last) else OriginOf(origins[..last], entry)
  }

  function JoinTags(tags: seq<string>): string {
    if tags == [] then "" else if |tags| == 1 then tags[0] else tags[0] + " " + JoinTags(tags[1..])
  }

  function IndexRowOf(entry: string, doc: Doc): IndexRow {
    IndexRow(entry, doc.title, doc.summary, doc.content, JoinTags(doc.tags))
  }

  function Reindexed(index: seq<IndexRow>, entry: string, doc: Doc): seq<IndexRow> {
    Keep(index, NotIndexOf(entry)) + [IndexRowOf(entry, doc)]
  }

  function PersonaBindings(entry: string, personas: seq<string>): seq<Binding> {
    if personas == [] then [Binding(entry, "global", "")]
    else seq(|personas|, i requires 0 <= i < |personas| => Binding(entry, "persona", personas[i]))
  }

  function Rebound(bindings: seq<Binding>, entry: string, personas: seq<string>): seq<Binding> {
    Keep(bindings, NotBindingOf(entry)) + PersonaBindings(entry, personas)
  }

  // The entry with a new revision, and the revision row.
  function Revised(a: Shelf, id: string, doc: Doc, status: EntryStatus, byUser: bool): Shelf {
    var number := if id in a.entries then a.entries[id].revision + 1 else 1;
    a.(entries := a.entries[id := Entry(doc, status, number)],
        revisions := a.revisions + [Revision(id, number, doc, byUser)])
  }

  // ---- publishing, drafts and notes ----

  predicate AllKnown(personas: seq<string>, known: set<string>) {
    forall i :: 0 <= i < |personas| ==> personas[i] in known
  }

  function PublishGate(
    a: Shelf, byUser: bool, raw: Doc, personas: seq<string>, known: set<string>, entry: Option<string>,
        request: Option<string>
  ): Option<ArchiveError> {
    if !byUser then Some(NotTheUser)
    else if Validated(raw).Err? then Some(Validated(raw).error)
    else if !AllKnown(CleanList(personas, 100, 64), known) then Some(UnknownPersona)
    else if entry.Some? && entry.value !in a.entries then Some(EntryNotFound)
    else if request.Some? && request.value !in a.requests then Some(RequestNotFound)
    else None
  }

  function Fulfilling(requests: map<string, KnowledgeRequest>, request: Option<string>, entry: string): map<string,
      KnowledgeRequest> {
    if request.None? || request.value !in requests then requests
    else requests[request.value := requests[request.value].(status := Fulfilled, fulfilledBy := Some(entry))]
  }

  function PublishedShelf(a: Shelf, id: string, doc: Doc, personas: seq<string>, request: Option<string>): Shelf {
    Revised(a, id, doc, Published, true).(
      bindings := Rebound(a.bindings, id, personas), index := Reindexed(a.index, id, doc),
      requests := Fulfilling(a.requests, request, id))
  }

  // `entry` revises an existing entry; otherwise `newId` names a new one.
  function Publish(
    a: Shelf, byUser: bool, raw: Doc, personas: seq<string>, known: set<string>, entry: Option<string>,
    request: Option<string>, newId: string
  ): Result<(Shelf, string), ArchiveError> {
    var gate := PublishGate(a, byUser, raw, personas, known, entry, request);
    if gate.Some? then Err(gate.value)
    else
      var id := if entry.Some? then entry.value else newId;
      Ok((PublishedShelf(a, id, Validated(raw).value, CleanList(personas, 100, 64), request), id))
  }

  function DraftGate(byTeam: bool, sourceType: string, sourceId: string, raw: Doc): Option<ArchiveError> {
    if !byTeam then Some(NotATeam)
    else if Required(sourceId, 128).Err? then Some(Required(sourceId, 128).error)
    else if Strip(sourceType) !in DRAFT_SOURCES then Some(InvalidSource)
    else if Validated(raw).Err? then Some(Validated(raw).error)
    else None
  }

  function DraftShelf(a: Shelf, doc: Doc, personas: seq<string>, origin: Origin): Shelf {
    Revised(a, origin.entry, doc, Draft, false).(
      bindings := Rebound(a.bindings, origin.entry, personas), origins := a.origins + [origin])
  }

  // A source that already has a draft gets that draft back, unchanged.
  function SaveDraft(
    a: Shelf, byTeam: bool, sourceType: string, sourceId: string, raw: Doc, personas: seq<string>, known: set<string>,
    request: Option<string>, newId: string
  ): Result<(Shelf, string), ArchiveError> {
    var gate := DraftGate(byTeam, sourceType, sourceId, raw);
    if gate.Some? then Err(gate.value)
    else
      var kind, source := Strip(sourceType), Required(sourceId, 128).value;
      var existing := OriginFor(a.origins, kind, source);
      if existing.Some? then Ok((a, a.origins[existing.value].entry))
      else if !AllKnown(CleanList(personas, 100, 64), known) then Err(UnknownPersona)
      else Ok((DraftShelf(a, Validated(raw).value, CleanList(personas, 100, 64), Origin(newId, kind, source, request)),
          newId))
  }

  function NoteGate(byTeam: bool, team: string, raw: Doc): Option<ArchiveError> {
    if !byTeam then Some(NotATeam)
    else if Required(team, 128).Err? then Some(Required(team, 128).error)
    else if |Strip(raw.content)| > 4000 then Some(TextTooLong)
    else if Validated(raw).Err? then Some(Validated(raw).error)
    else None
  }

  function NewNoteShelf(a: Shelf, doc: Doc, id: string, team: string): Shelf {
    Revised(a, id, doc, Draft, false).(
      bindings := a.bindings + [Binding(id, "team", team)], origins := a.origins + [Origin(id, TEAM_NOTE, team, None)],
      index := Reindexed(a.index, id, doc))
  }

  function RevisedNoteShelf(a: Shelf, doc: Doc, id: string): Shelf
    requires id in a.entries
  {
    Revised(a, id, doc, a.entries[id].status, false).(index := Reindexed(a.index, id, doc))
  }

  // The one note of a team: created as a draft, later rewritten whatever its status.
  function SaveTeamNote(a: Shelf, byTeam: bool, team: string, raw: Doc, newId: string): Result<(Shelf, string),
      ArchiveError> {
    var gate := NoteGate(byTeam, team, raw);
    if gate.Some? then Err(gate.value)
    else
      var doc, source := Validated(raw).value, Required(team, 128).value;
      var existing := OriginFor(a.origins, TEAM_NOTE, source);
      if existing.None? then Ok((NewNoteShelf(a, doc, newId, source), newId))
      else
        var id := a.origins[existing.value].entry;
        if id !in a.entries then Err(EntryNotFound) else Ok((RevisedNoteShelf(a, doc, id), id))
  }

  function ArchiveEntry(a: Shelf, id: string): Result<Shelf, ArchiveError> {
    if id !in a.entries then Err(EntryNotFound)
        else Ok(a.(entries := a.entries[id := a.entries[id].(status := Archived)]))
  }

  // What a deletion does to one request.
  function ReopenedRequest(q: KnowledgeRequest, isOrigin: bool, entry: string): KnowledgeRequest {
    var reset := if isOrigin && q.status == InProgress then q.(status := Open, team := None) else q;
    if reset.fulfilledBy == Some(entry) && reset.status == Fulfilled then
        reset.(status := Open, fulfilledBy := None, team := None)
    else if reset.fulfilledBy == Some(entry) then reset.(fulfilledBy := None)
    else reset
  }

  function Reopened(requests: map<string, KnowledgeRequest>, asked: Option<string>, entry: string): map<string,
      KnowledgeRequest> {
    map q | q in requests :: ReopenedRequest(requests[q], asked == Some(q), entry)
  }

  function DeleteEntry(a: Shelf, id: string): Result<(Shelf, EntryStatus), ArchiveError> {
    if id !in a.entries then Err(EntryNotFound)
    else
      var origin := OriginOf(a.origins, id);
      var asked := if origin.None? then None else a.origins[origin.value].request;
      Ok((Shelf(
            a.entries - {id}, Keep(a.revisions, NotRevisionOf(id)), Keep(a.index, NotIndexOf(id)),
            Keep(a.bindings, NotBindingOf(id)), Keep(a.origins, NotOriginOf(id)),
            Reopened(a.requests, asked, id)),
          a.entries[id].status))
  }

  // ---- knowledge requests ----

  function CreateRequest(a: Shelf, newId: string): Shelf {
    a.(requests := a.requests[newId := KnowledgeRequest(Open, None, None, None)])
  }

  function UpdateRequest(a: Shelf, id: string, status: RequestStatus): Result<Shelf, ArchiveError> {
    if status == Fulfilled then Err(InvalidStatus)
    else if id !in a.requests then Err(RequestNotFound)
    else if a.requests[id].status == Fulfilled then Err(AlreadyFulfilled)
    else Ok(a.(requests := a.requests[id := a.requests[id].(status := status)]))
  }

  function RecordFailure(a: Shelf, id: string, code: string, cycle: Option<string>): Result<Shelf, ArchiveError> {
    if id !in a.requests then Err(RequestNotFound)
    else if a.requests[id].status == Fulfilled then Err(AlreadyFulfilled)
    else if a.requests[id].failure == Some((code, cycle)) then Ok(a)
    else Ok(a.(requests := a.requests[id := a.requests[id].(status := Open, failure := Some((code, cycle)))]))
  }

  function ClearFailure(a: Shelf, id: string): Result<Shelf, ArchiveError> {
    if id !in a.requests then Err(RequestNotFound)
    else Ok(a.(requests := a.requests[id := a.requests[id].(failure := None)]))
  }

  function AssignTeam(a: Shelf, id: string, team: string, teams: set<string>): Result<Shelf, ArchiveError> {
    if id !in a.requests then Err(RequestNotFound)
    else
      var q := a.requests[id];
      if q.status !in {Open, InProgress, Deferred} then Err(NotActive)
      else if q.status == InProgress && q.team.Some? && q.team.value != team then Err(AssignedElsewhere)
      else if team !in teams then Err(EntryNotFound)
      else Ok(a.(requests := a.requests[id := q.(status := InProgress, team := Some(team), failure := None)]))
  }
}
