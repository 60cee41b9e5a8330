/** The archive service as the program writes it: row by row on tables it updates in place. */
module ArchiveService {
  import opened Outcomes
  import opened Strings
  import opened Sequences
  import opened Archive

  class ArchiveService {
    var entries: map<string, Entry>
    var revisions: seq<Revision>
    var index: seq<IndexRow>
    var bindings: seq<Binding>
    var origins: seq<Origin>
    var requests: map<string, KnowledgeRequest>

    constructor ()
      ensures State() == Shelf(map[], [], [], [], [], map[])
    {
      entries, revisions, index, bindings, origins, requests := map[], [], [], [], [], map[];
    }

    function State(): Shelf
      reads this
    {
      Shelf(entries, revisions, index, bindings, origins, requests)
    }

    method IndexEntry(id: string, doc: Doc)
      modifies this`index
      ensures index == Reindexed(old(index), id, doc)
    {
      index := Keep(index, NotIndexOf(id));
      index := index + [IndexRowOf(id, doc)];
    }

    method ReplaceBindings(id: string, personas: seq<string>)
      modifies this`bindings
      ensures bindings == Rebound(old(bindings), id, personas)
    {
      ghost var kept := Keep(bindings, NotBindingOf(id));
      bindings := Keep(bindings, NotBindingOf(id));
      if personas == [] {
        bindings := bindings + [Binding(id, "global", "")];
        return;
      }
      for i := 0 to |personas|
        invariant bindings == kept + PersonaBindings(id, personas)[..i]
      {
        bindings := bindings + [Binding(id, "persona", personas[i])];
      }
    }

    // The entry row and its revision row.
    method WriteRevision(id: string, doc: Doc, status: EntryStatus, byUser: bool)
      modifies this`entries, this`revisions
      ensures State() == Revised(old(State()), id, doc, status, byUser)
    {
      var revision := if id in entries then entries[id].revision + 1 else 1;
      entries := entries[id := Entry(doc, status, revision)];
      revisions := revisions + [Revision(id, revision, doc, byUser)];
    }

    method PersonasKnown(personas: seq<string>, known: set<string>) returns (ok: bool)
      ensures ok == AllKnown(personas, known)
    {
      for i := 0 to |personas|
        invariant forall j :: 0 <= j < i ==> personas[j] in known
      {
        if personas[i] !in known {
          return false;
        }
      }
      return true;
    }

    method WritePublished(id: string, doc: Doc, personas: seq<string>, request: Option<string>)
      modifies this
      ensures State() == PublishedShelf(old(State()), id, doc, personas, request)
    {
      WriteRevision(id, doc, Published, true);
      ReplaceBindings(id, personas);
      IndexEntry(id, doc);
      if request.Some? && request.value in requests {
        requests := requests[request.value := requests[request.value].(status := Fulfilled, fulfilledBy := Some(id))];
      }
    }

    method PublishEntry(
        byUser: bool, raw: Doc, personas: seq<string>, known: set<string>, entry: Option<string>,
            request: Option<string>, newId: string
      ) returns (r: Result<string, ArchiveError>)
      modifies this
      ensures var step := Publish(old(State()), byUser, raw, personas, known, entry, request, newId);
        if step.Ok? then r == Ok(step.value.1) && State() == step.value.0
            else r == Err(step.error) && State() == old(State())
    {
      var gate := PublishGate(State(), byUser, raw, personas, known, entry, request);
      if gate.Some? {
        return Err(gate.value);
      }
      var id := if entry.Some? then entry.value else newId;
      WritePublished(id, Validated(raw).value, CleanList(personas, 100, 64), request);
      return Ok(id);
    }

    method SaveDraftEntry(
        byTeam: bool, sourceType: string, sourceId: string, raw: Doc, personas: seq<string>, known: set<string>,
        request: Option<string>, newId: string
      ) returns (r: Result<string, ArchiveError>)
      modifies this
      ensures var step := SaveDraft(old(State()), byTeam, sourceType, sourceId, raw, personas, known, request, newId);
        if step.Ok? then r == Ok(step.value.1) && State() == step.value.0
            else r == Err(step.error) && State() == old(State())
    {
      var gate := DraftGate(byTeam, sourceType, sourceId, raw);
      if gate.Some? {
        return Err(gate.value);
      }
      var kind, source := Strip(sourceType), Required(sourceId, 128).value;
      var existing := OriginFor(origins, kind, source);
      if existing.Some? {
        return Ok(origins[existing.value].entry);
      }
      var cleaned := CleanList(personas, 100, 64);
      var personasKnown := PersonasKnown(cleaned, known);
      if !personasKnown {
        return Err(UnknownPersona);
      }
      WriteDraft(Validated(raw).value, cleaned, Origin(newId, kind, source, request));
      return Ok(newId);
    }

    method WriteDraft(doc: Doc, personas: seq<string>, origin: Origin)
      modifies this
      ensures State() == DraftShelf(old(State()), doc, personas, origin)
    {
      WriteRevision(origin.entry, doc, Draft, false);
      ReplaceBindings(origin.entry, personas);
      origins := origins + [origin];
    }

    method SaveNote(byTeam: bool, team: string, raw: Doc, newId: string) returns (r: Result<string, ArchiveError>)
      modifies this
      ensures var step := SaveTeamNote(old(State()), byTeam, team, raw, newId);
        if step.Ok? then r == Ok(step.value.1) && State() == step.value.0
            else r == Err(step.error) && State() == old(State())
    {
      var gate := NoteGate(byTeam, team, raw);
      if gate.Some? {
        return Err(gate.value);
      }
      var doc, source := Validated(raw).value, Required(team, 128).value;
      var existing := OriginFor(origins, TEAM_NOTE, source);
      if existing.None? {
        WriteNewNote(doc, newId, source);
        return Ok(newId);
      }
      var id := origins[existing.value].entry;
      if id !in entries {
        return Err(EntryNotFound);
      }
      WriteRevision(id, doc, entries[id].status, false);
      IndexEntry(id, doc);
      return Ok(id);
    }

    method WriteNewNote(doc: Doc, id: string, team: string)
      modifies this
      ensures State() == NewNoteShelf(old(State()), doc, id, team)
    {
      WriteRevision(id, doc, Draft, false);
      bindings := bindings + [Binding(id, "team", team)];
      origins := origins + [Origin(id, TEAM_NOTE, team, None)];
      IndexEntry(id, doc);
    }

    // The two updates that reopen requests.
    method ReopenRequests(asked: Option<string>, id: string)
      modifies this`requests
      ensures requests == Reopened(old(requests), asked, id)
    {
      if asked.Some? && asked.value in requests && requests[asked.value].status == InProgress {
        requests := requests[asked.value := requests[asked.value].(status := Open, team := None)];
      }
      requests := map q | q in requests :: ReopenedRequest(requests[q], false, id);
    }

    method RemoveEntry(id: string) returns (r: Result<EntryStatus, ArchiveError>)
      modifies this
      ensures var step := DeleteEntry(old(State()), id);
        if step.Ok? then r == Ok(step.value.1) && State() == step.value.0
            else r == Err(step.error) && State() == old(State())
    {
      if id !in entries {
        return Err(EntryNotFound);
      }
      r := Ok(entries[id].status);
      var origin := OriginOf(origins, id);
      ReopenRequests(if origin.None? then None else origins[origin.value].request, id);
      index := Keep(index, NotIndexOf(id));
      bindings := Keep(bindings, NotBindingOf(id));
      revisions := Keep(revisions, NotRevisionOf(id));
      origins := Keep(origins, NotOriginOf(id));
      entries := entries - {id};
    }
  }
}
