/**
  What each call on the archive answers and writes: the text it stores, the rows it adds, replaces
  or removes, that all other rows stay, and when it is refused.
*/
module ArchiveOutcomes {
  import opened Outcomes
  import opened Strings
  import opened Sequences
  import opened Archive
  import opened ArchiveTheorems

  // ---- stored text ----

  predicate KnownKind(kind: string) {
    || kind == "procedure" || kind == "search_method" || kind == "implementation_pattern" || kind == "reference"
    || kind == "checklist"
  }

  // Not blank, and within the limit once trimmed.
  predicate Fits(text: string, max: nat) { Strip(text) != "" && |Strip(text)| <= max }

  function Cut(text: string, max: nat): string { if |text| <= max then text else text[..max] }

  // The texts that are not blank, trimmed and cut, in order.
  ghost predicate AreTexts(values: seq<string>, max: nat, at: seq<nat>, texts: seq<string>) {
    && |at| == |texts| && (forall j, k :: 0 <= j < k < |at| ==> at[j] < at[k])
    && (forall k :: 0 <= k < |at| ==>
          at[k] < |values| && Strip(values[at[k]]) != "" && texts[k] == Cut(Strip(values[at[k]]), max))
    && (forall i :: 0 <= i < |values| && Strip(values[i]) != "" ==> i in at)
  }

  // The texts without repetitions, each where it came first.
  ghost predicate AreFirsts(texts: seq<string>, at: seq<nat>, firsts: seq<string>) {
    && |at| == |firsts| && (forall j, k :: 0 <= j < k < |at| ==> at[j] < at[k])
    && (forall k :: 0 <= k < |at| ==>
          at[k] < |texts| && texts[at[k]] == firsts[k] && forall i :: 0 <= i < at[k] ==> texts[i] != firsts[k])
    && (forall i :: 0 <= i < |texts| ==> texts[i] in firsts)
  }

  // A list of at most so many texts of at most so many characters, taken from the first ones given.
  ghost predicate IsCleaned(values: seq<string>, items: nat, max: nat, list: seq<string>) {
    exists at, texts, places :: AreTexts(Leading(values, items), max, at, texts) && AreFirsts(texts, places, list)
  }

  function Leading(values: seq<string>, items: nat): seq<string> {
    if |values| <= items then values else values[..items]
  }

  lemma {:induction false} TextsFound(values: seq<string>, max: nat) returns (at: seq<nat>)
    ensures AreTexts(values, max, at, CleanTexts(values, max))
  {
    at := [];
    if values != [] {
      var n := |values| - 1;
      at := TextsFound(values[..n], max);
      TextsGrow(values[..n], values[n], max, at, CleanTexts(values[..n], max));
      assert values == values[..n] + [values[n]];
      at := if Strip(values[n]) == "" then at else at + [n];
    }
  }

  lemma {:induction false} TextsGrow(values: seq<string>, last: string, max: nat, at: seq<nat>, texts: seq<string>)
    requires AreTexts(values, max, at, texts)
    ensures Strip(last) == "" ==> AreTexts(values + [last], max, at, texts)
    ensures Strip(last) != "" ==> AreTexts(values + [last], max, at + [|values|], texts + [Cut(Strip(last), max)])
  {
    var grown, places := values + [last], at + [|values|];
    assert forall i :: 0 <= i < |values| ==> grown[i] == values[i];
    assert places[|at|] == |values| && forall k :: 0 <= k < |at| ==> places[k] == at[k];
    assert forall i: nat :: i in at ==> i in places;
  }

  lemma {:induction false} FirstsFound(texts: seq<string>) returns (at: seq<nat>)
    ensures AreFirsts(texts, at, Deduped(texts))
  {
    at := [];
    if texts != [] {
      var n := |texts| - 1;
      at := FirstsFound(texts[..n]);
      DedupedOnce(texts[..n]);
      FirstsGrow(texts[..n], texts[n], at, Deduped(texts[..n]));
      assert texts == texts[..n] + [texts[n]];
      at := if texts[n] in Deduped(texts[..n]) then at else at + [n];
    }
  }

  lemma {:induction false} FirstsGrow(texts: seq<string>, last: string, at: seq<nat>, firsts: seq<string>)
    requires AreFirsts(texts, at, firsts) && (forall x :: x in firsts <==> x in texts)
    ensures last in firsts ==> AreFirsts(texts + [last], at, firsts)
    ensures last !in firsts ==> AreFirsts(texts + [last], at + [|texts|], firsts + [last])
  {
    var grown, places, more := texts + [last], at + [|texts|], firsts + [last];
    assert forall i :: 0 <= i < |texts| ==> grown[i] == texts[i] && texts[i] in texts;
    assert places[|at|] == |texts| && forall k :: 0 <= k < |at| ==> places[k] == at[k];
    assert more[|firsts|] == last && forall x :: x in firsts ==> x in more;
  }

  lemma {:induction false} CleanedFound(values: seq<string>, items: nat, max: nat)
    ensures IsCleaned(values, items, max, CleanList(values, items, max))
  {
    var first := Leading(values, items);
    var at := TextsFound(first, max);
    var places := FirstsFound(CleanTexts(first, max));
  }

  ghost predicate IsDocOf(doc: Doc, raw: Doc) {
    && doc.kind == raw.kind && doc.title == Strip(raw.title) && doc.content == Strip(raw.content)
    && doc.summary == Cut(Strip(raw.summary), 1000)
    && IsCleaned(raw.tags, 20, 80, doc.tags) && IsCleaned(raw.urls, 20, 2000, doc.urls)
  }

  predicate Storable(raw: Doc) { KnownKind(raw.kind) && Fits(raw.content, 100_000) && Fits(raw.title, 200) }

  // The first thing wrong with a document.
  predicate Unstorable(raw: Doc, error: ArchiveError) {
    if !KnownKind(raw.kind) then error == InvalidKind
    else if !Fits(raw.content, 100_000) then error == (if Strip(raw.content) == "" then MissingText else TextTooLong)
    else !Fits(raw.title, 200) && error == (if Strip(raw.title) == "" then MissingText else TextTooLong)
  }

  /** A document is stored trimmed and cut, exactly when its kind is known and its texts fit. */
  lemma {:induction false} ValidatedIff(raw: Doc)
    ensures var doc := Validated(raw);
      if Storable(raw) then doc.Ok? && IsDocOf(doc.value, raw) else doc.Err? && Unstorable(raw, doc.error)
  {
    assert raw.kind in KINDS <==> KnownKind(raw.kind);
    CleanedFound(raw.tags, 20, 80);
    CleanedFound(raw.urls, 20, 2000);
  }

  // ---- rows ----

  // A new current revision of the entry, and no other entry touched.
  predicate Writes(a: Shelf, after: Shelf, id: string, doc: Doc, status: EntryStatus, byUser: bool) {
    && after.entries.Keys == a.entries.Keys + {id} && after.entries[id].doc == doc && after.entries[id].status == status
    && after.entries[id].revision == (if id in a.entries then a.entries[id].revision + 1 else 1)
    && (forall other :: other in a.entries && other != id ==> after.entries[other] == a.entries[other])
    && after.revisions == a.revisions + [Revision(id, after.entries[id].revision, doc, byUser)]
  }

  // The tags, one blank between two of them.
  lemma {:induction false} TagsJoined(tags: seq<string>, last: string)
    ensures JoinTags([last]) == last
    ensures tags != [] ==> JoinTags(tags + [last]) == JoinTags(tags) + " " + last
  {
    if |tags| == 1 {
      assert (tags + [last])[1..] == [last];
    } else if tags != [] {
      assert (tags + [last])[1..] == tags[1..] + [last];
      TagsJoined(tags[1..], last);
    }
  }

  // The entry's one search row, last; the other rows stay in order.
  ghost predicate Indexes(a: Shelf, after: Shelf, id: string, doc: Doc) {
    && after.index == Keep(a.index, (row: IndexRow) => row.entry != id)
        + [IndexRow(id, doc.title, doc.summary, doc.content, JoinTags(doc.tags))]
  }

  // The entry is bound to these personas, or to everybody when there are none.
  ghost predicate Binds(a: Shelf, after: Shelf, id: string, personas: seq<string>) {
    var others := Keep(a.bindings, (b: Binding) => b.entry != id);
    && |after.bindings| == |others| + (if personas == [] then 1 else |personas|)
    && after.bindings[..|others|] == others
    && (personas == [] ==> after.bindings[|others|] == Binding(id, "global", ""))
    && (forall i :: 0 <= i < |personas| ==> after.bindings[|others| + i] == Binding(id, "persona", personas[i]))
  }

  lemma {:induction false} KeepSame<T>(rows: seq<T>, f: T -> bool, g: T -> bool)
    requires forall x :: x in rows ==> f(x) == g(x)
    ensures Keep(rows, f) == Keep(rows, g)
  {
    if rows != [] {
      KeepSame(rows[..|rows| - 1], f, g);
    }
  }

  lemma {:induction false} ReindexedIndexes(a: Shelf, after: Shelf, id: string, doc: Doc)
    requires after.index == Reindexed(a.index, id, doc)
    ensures Indexes(a, after, id, doc)
  {
    KeepSame(a.index, NotIndexOf(id), (row: IndexRow) => row.entry != id);
  }

  lemma {:induction false} ReboundBinds(a: Shelf, after: Shelf, id: string, personas: seq<string>)
    requires after.bindings == Rebound(a.bindings, id, personas)
    ensures Binds(a, after, id, personas)
  {
    KeepSame(a.bindings, NotBindingOf(id), (b: Binding) => b.entry != id);
  }

  // Only this request changes, to this row.
  predicate ChangesRequest(a: Shelf, after: Shelf, id: string, row: KnowledgeRequest) {
    && id in a.requests && after.requests.Keys == a.requests.Keys && after.requests[id] == row
    && forall other :: other in a.requests && other != id ==> after.requests[other] == a.requests[other]
  }

  // ---- publishing ----

  // The first reason to refuse a publication.
  ghost predicate NotPublished(a: Shelf, byUser: bool, raw: Doc, personas: seq<string>, known: set<string>,
      entry: Option<string>, request: Option<string>, error: ArchiveError)
  {
    if !byUser then error == NotTheUser
    else if !Storable(raw) then Unstorable(raw, error)
    else if exists i :: 0 <= i < |personas| && personas[i] !in known then error == UnknownPersona
    else if entry.Some? && entry.value !in a.entries then error == EntryNotFound
    else request.Some? && request.value !in a.requests && error == RequestNotFound
  }

  predicate MayPublish(a: Shelf, byUser: bool, raw: Doc, personas: seq<string>, known: set<string>,
      entry: Option<string>, request: Option<string>)
  {
    && byUser && Storable(raw) && (forall i :: 0 <= i < |personas| ==> personas[i] in known)
    && (entry.Some? ==> entry.value in a.entries) && (request.Some? ==> request.value in a.requests)
  }

  ghost predicate Publishes(a: Shelf, after: Shelf, id: string, doc: Doc, personas: seq<string>,
      request: Option<string>)
  {
    && Writes(a, after, id, doc, Published, true) && Indexes(a, after, id, doc) && Binds(a, after, id, personas)
    && after.origins == a.origins
    && match request
       case None => after.requests == a.requests
       case Some(q) =>
         ChangesRequest(a, after, q, if q in a.requests then
             a.requests[q].(status := Fulfilled, fulfilledBy := Some(id)) else KnowledgeRequest(Open, None, None, None))
  }

  /** A publication writes one revision, search row and set of bindings, and fulfils its request. */
  lemma {:induction false} PublishDecides(
      a: Shelf, byUser: bool, raw: Doc, personas: seq<string>, known: set<string>, entry: Option<string>,
      request: Option<string>, newId: string, people: seq<string>)
    requires people == CleanList(personas, 100, 64)
    ensures IsCleaned(personas, 100, 64, people)
    ensures var published := Publish(a, byUser, raw, personas, known, entry, request, newId);
      if MayPublish(a, byUser, raw, people, known, entry, request) then
        && published.Ok? && published.value.1 == (if entry.Some? then entry.value else newId)
        && exists doc :: IsDocOf(doc, raw) && Publishes(a, published.value.0, published.value.1, doc, people, request)
      else published.Err? && NotPublished(a, byUser, raw, people, known, entry, request, published.error)
  {
    CleanedFound(personas, 100, 64);
    ValidatedIff(raw);
    var published := Publish(a, byUser, raw, personas, known, entry, request, newId);
    if published.Ok? {
      var doc, id := Validated(raw).value, published.value.1;
      ShelfIsPublished(a, id, doc, people, request);
    }
  }

  lemma {:induction false} ShelfIsPublished(a: Shelf, id: string, doc: Doc, personas: seq<string>,
      request: Option<string>)
    requires request.Some? ==> request.value in a.requests
    ensures Publishes(a, PublishedShelf(a, id, doc, personas, request), id, doc, personas, request)
  {
    var after := PublishedShelf(a, id, doc, personas, request);
    ReindexedIndexes(a, after, id, doc);
    ReboundBinds(a, after, id, personas);
  }

  // ---- drafts and notes ----

  predicate DraftSource(kind: string) { kind == "hook" || kind == "knowledge_request" || kind == "team_note" }

  ghost predicate HasSource(a: Shelf, kind: string, source: string) {
    exists i :: 0 <= i < |a.origins| && IsSource(a.origins[i], kind, source)
  }

  predicate IsSource(o: Origin, kind: string, source: string) { o.sourceType == kind && o.sourceId == source }

  ghost predicate Drafts(a: Shelf, after: Shelf, id: string, doc: Doc, personas: seq<string>, origin: Origin) {
    && Writes(a, after, id, doc, Draft, false) && Binds(a, after, id, personas)
    && after.origins == a.origins + [origin] && after.index == a.index && after.requests == a.requests
  }

  predicate MayDraft(byTeam: bool, sourceType: string, sourceId: string, raw: Doc) {
    byTeam && Fits(sourceId, 128) && DraftSource(Strip(sourceType)) && Storable(raw)
  }

  predicate NotDrafted(byTeam: bool, sourceType: string, sourceId: string, raw: Doc, error: ArchiveError) {
    if !byTeam then error == NotATeam
    else if !Fits(sourceId, 128) then error == (if Strip(sourceId) == "" then MissingText else TextTooLong)
    else if !DraftSource(Strip(sourceType)) then error == InvalidSource
    else Unstorable(raw, error)
  }

  /**
    A draft of a source that has one is that one, unchanged; a new source gets a new draft with one
    revision, its bindings and its origin, and no search row.
  */
  lemma {:induction false} SaveDraftDecides(
      a: Shelf, byTeam: bool, sourceType: string, sourceId: string, raw: Doc, personas: seq<string>, known: set<string>,
      request: Option<string>, newId: string, people: seq<string>)
    requires people == CleanList(personas, 100, 64)
    ensures IsCleaned(personas, 100, 64, people)
    ensures var saved, kind, source :=
        SaveDraft(a, byTeam, sourceType, sourceId, raw, personas, known, request, newId), Strip(sourceType), Strip(sourceId);
      if !MayDraft(byTeam, sourceType, sourceId, raw) then
        saved.Err? && NotDrafted(byTeam, sourceType, sourceId, raw, saved.error)
      else if HasSource(a, kind, source) then
        && saved.Ok? && saved.value.0 == a
        && exists i :: 0 <= i < |a.origins| && IsSource(a.origins[i], kind, source) && saved.value.1 == a.origins[i].entry
      else if forall i :: 0 <= i < |people| ==> people[i] in known then
        && saved.Ok? && saved.value.1 == newId
        && exists doc :: IsDocOf(doc, raw)
             && Drafts(a, saved.value.0, newId, doc, people, Origin(newId, kind, source, request))
      else saved == Err(UnknownPersona)
  {
    CleanedFound(personas, 100, 64);
    DraftGateIff(byTeam, sourceType, sourceId, raw);
    if MayDraft(byTeam, sourceType, sourceId, raw) {
      var kind, source := Strip(sourceType), Strip(sourceId);
      var found := OriginFor(a.origins, kind, source);
      SourceIsFound(a, kind, source);
      if found.Some? {
        assert IsSource(a.origins[found.value], kind, source);
      } else {
        ShelfIsDrafted(a, Validated(raw).value, people, Origin(newId, kind, source, request));
      }
    }
  }

  lemma {:induction false} DraftGateIff(byTeam: bool, sourceType: string, sourceId: string, raw: Doc)
    ensures var gate := DraftGate(byTeam, sourceType, sourceId, raw);
      if MayDraft(byTeam, sourceType, sourceId, raw) then
        gate.None? && Required(sourceId, 128) == Ok(Strip(sourceId)) && Validated(raw).Ok? && IsDocOf(Validated(raw).value, raw)
      else gate.Some? && NotDrafted(byTeam, sourceType, sourceId, raw, gate.value)
  {
    ValidatedIff(raw);
    assert Strip(sourceType) in DRAFT_SOURCES <==> DraftSource(Strip(sourceType));
  }

  lemma {:induction false} SourceIsFound(a: Shelf, kind: string, source: string)
    ensures var found := OriginFor(a.origins, kind, source);
      if HasSource(a, kind, source) then found.Some? && IsSource(a.origins[found.value], kind, source) else found.None?
  {
    var found := OriginFor(a.origins, kind, source);
    if found.Some? { assert IsSource(a.origins[found.value], kind, source); }
  }

  lemma {:induction false} ShelfIsDrafted(a: Shelf, doc: Doc, personas: seq<string>, origin: Origin)
    ensures Drafts(a, DraftShelf(a, doc, personas, origin), origin.entry, doc, personas, origin)
  {
    ReboundBinds(a, DraftShelf(a, doc, personas, origin), origin.entry, personas);
  }

  predicate MayNote(byTeam: bool, team: string, raw: Doc) {
    byTeam && Fits(team, 128) && |Strip(raw.content)| <= 4000 && Storable(raw)
  }

  predicate NotNoted(byTeam: bool, team: string, raw: Doc, error: ArchiveError) {
    if !byTeam then error == NotATeam
    else if !Fits(team, 128) then error == (if Strip(team) == "" then MissingText else TextTooLong)
    else if |Strip(raw.content)| > 4000 then error == TextTooLong
    else Unstorable(raw, error)
  }

  ghost predicate AddsNote(a: Shelf, after: Shelf, id: string, doc: Doc, team: string) {
    && Writes(a, after, id, doc, Draft, false) && Indexes(a, after, id, doc)
    && after.bindings == a.bindings + [Binding(id, "team", team)]
    && after.origins == a.origins + [Origin(id, "team_note", team, None)] && after.requests == a.requests
  }

  ghost predicate RewritesNote(a: Shelf, after: Shelf, id: string, doc: Doc)
    requires id in a.entries
  {
    && Writes(a, after, id, doc, a.entries[id].status, false) && Indexes(a, after, id, doc)
    && after.bindings == a.bindings && after.origins == a.origins && after.requests == a.requests
  }

  /** A team's first note is a new searchable draft; the next ones rewrite that entry in its status. */
  lemma {:induction false} SaveNoteDecides(a: Shelf, byTeam: bool, team: string, raw: Doc, newId: string)
    requires RowsHaveEntries(a)
    ensures var saved, source := SaveTeamNote(a, byTeam, team, raw, newId), Strip(team);
      if !MayNote(byTeam, team, raw) then saved.Err? && NotNoted(byTeam, team, raw, saved.error)
      else
        && saved.Ok?
        && exists doc :: IsDocOf(doc, raw) &&
             if HasSource(a, "team_note", source) then
               && (exists i :: 0 <= i < |a.origins| && IsSource(a.origins[i], "team_note", source)
                    && saved.value.1 == a.origins[i].entry)
               && saved.value.1 in a.entries && RewritesNote(a, saved.value.0, saved.value.1, doc)
             else saved.value.1 == newId && AddsNote(a, saved.value.0, newId, doc, source)
  {
    ValidatedIff(raw);
    if MayNote(byTeam, team, raw) {
      var saved, doc := SaveTeamNote(a, byTeam, team, raw, newId), Validated(raw).value;
      var found := OriginFor(a.origins, "team_note", Strip(team));
      SourceIsFound(a, "team_note", Strip(team));
      if found.Some? {
        assert a.origins[found.value].entry in a.entries;
        NoteIsRewritten(a, doc, a.origins[found.value].entry);
      } else {
        NoteIsAdded(a, doc, newId, Strip(team));
      }
    }
  }

  lemma {:induction false} NoteIsRewritten(a: Shelf, doc: Doc, id: string)
    requires id in a.entries
    ensures RewritesNote(a, RevisedNoteShelf(a, doc, id), id, doc)
  {
    ReindexedIndexes(a, RevisedNoteShelf(a, doc, id), id, doc);
  }

  lemma {:induction false} NoteIsAdded(a: Shelf, doc: Doc, id: string, team: string)
    ensures AddsNote(a, NewNoteShelf(a, doc, id, team), id, doc, team)
  {
    ReindexedIndexes(a, NewNoteShelf(a, doc, id, team), id, doc);
  }

  // ---- archiving and deleting ----

  /** Archiving changes the status of one entry and nothing else. */
  lemma {:induction false} ArchiveDecides(a: Shelf, id: string)
    ensures var archived := ArchiveEntry(a, id);
      if id !in a.entries then archived == Err(EntryNotFound)
      else
        && archived.Ok? && archived.value == a.(entries := archived.value.entries)
        && archived.value.entries.Keys == a.entries.Keys
        && archived.value.entries[id] == Entry(a.entries[id].doc, Archived, a.entries[id].revision)
        && forall other :: other in a.entries && other != id ==> archived.value.entries[other] == a.entries[other]
  {
  }

  // What becomes of a request when the entry is deleted.
  predicate AfterDeletion(a: Shelf, id: string, q: string, row: KnowledgeRequest)
    requires q in a.requests
  {
    var before := a.requests[q];
    if before.fulfilledBy == Some(id) then row == before.(status := Open, fulfilledBy := None, team := None)
    else if before.status == InProgress && CameFrom(a, id, q) then row == before.(status := Open, team := None)
    else row == before
  }

  /** A deletion removes the entry's rows, keeps all others in order, and reopens its requests. */
  lemma {:induction false} DeleteDecides(a: Shelf, id: string, q: string)
    requires RequestsAgree(a) && OriginsUnique(a)
    ensures var deleted := DeleteEntry(a, id);
      if id !in a.entries then deleted == Err(EntryNotFound)
      else
        && deleted.Ok? && deleted.value.1 == a.entries[id].status
        && var after := deleted.value.0;
           && after.entries == a.entries - {id}
           && after.revisions == Keep(a.revisions, (r: Revision) => r.entry != id)
           && after.index == Keep(a.index, (row: IndexRow) => row.entry != id)
           && after.bindings == Keep(a.bindings, (b: Binding) => b.entry != id)
           && after.origins == Keep(a.origins, (o: Origin) => o.entry != id)
           && after.requests.Keys == a.requests.Keys
           && (q in a.requests ==> AfterDeletion(a, id, q, after.requests[q]))
  {
    KeepSame(a.revisions, NotRevisionOf(id), (r: Revision) => r.entry != id);
    KeepSame(a.index, NotIndexOf(id), (row: IndexRow) => row.entry != id);
    KeepSame(a.bindings, NotBindingOf(id), (b: Binding) => b.entry != id);
    KeepSame(a.origins, NotOriginOf(id), (o: Origin) => o.entry != id);
    assert q in a.requests ==> RequestAgrees(a, a.requests[q]);
    OriginIsAsked(a, id, q);
  }

  lemma {:induction false} OriginIsAsked(a: Shelf, id: string, q: string)
    requires OriginsUnique(a)
    ensures var origin := OriginOf(a.origins, id);
      CameFrom(a, id, q) <==> origin.Some? && a.origins[origin.value].request == Some(q)
  {
  }

  // ---- requests ----

  predicate OnlyRequest(a: Shelf, after: Shelf, id: string, row: KnowledgeRequest) {
    after == a.(requests := after.requests) && ChangesRequest(a, after, id, row)
  }

  /** A status is set by hand on any request that is not fulfilled; fulfilled is not set by hand. */
  lemma {:induction false} UpdateRequestDecides(a: Shelf, id: string, status: RequestStatus)
    ensures var updated := UpdateRequest(a, id, status);
      if status == Fulfilled then updated == Err(InvalidStatus)
      else if id !in a.requests then updated == Err(RequestNotFound)
      else if a.requests[id].status == Fulfilled then updated == Err(AlreadyFulfilled)
      else
        var q := a.requests[id];
        updated.Ok? && OnlyRequest(a, updated.value, id, KnowledgeRequest(status, q.fulfilledBy, q.team, q.failure))
  {
  }

  /** A failure opens the request again, once for the same code and cycle. */
  lemma {:induction false} RecordFailureDecides(a: Shelf, id: string, code: string, cycle: Option<string>)
    ensures var recorded := RecordFailure(a, id, code, cycle);
      if id !in a.requests then recorded == Err(RequestNotFound)
      else if a.requests[id].status == Fulfilled then recorded == Err(AlreadyFulfilled)
      else
        && recorded.Ok?
        && var q := a.requests[id];
           if q.failure == Some((code, cycle)) then recorded.value == a
           else OnlyRequest(a, recorded.value, id, KnowledgeRequest(Open, q.fulfilledBy, q.team, Some((code, cycle))))
  {
  }

  lemma {:induction false} ClearFailureDecides(a: Shelf, id: string)
    ensures var cleared := ClearFailure(a, id);
      if id !in a.requests then cleared == Err(RequestNotFound)
      else
        var q := a.requests[id];
        cleared.Ok? && OnlyRequest(a, cleared.value, id, KnowledgeRequest(q.status, q.fulfilledBy, q.team, None))
  {
  }

  /** A team takes a request that waits, or that it already has; that clears the failure. */
  lemma {:induction false} AssignTeamDecides(a: Shelf, id: string, team: string, teams: set<string>)
    ensures var given := AssignTeam(a, id, team, teams);
      if id !in a.requests then given == Err(RequestNotFound)
      else
        var q := a.requests[id];
        if q.status == Dismissed || q.status == Fulfilled then given == Err(NotActive)
        else if q.status == InProgress && q.team != None && q.team != Some(team) then given == Err(AssignedElsewhere)
        else if team !in teams then given == Err(EntryNotFound)
        else
          given.Ok? && OnlyRequest(a, given.value, id, KnowledgeRequest(InProgress, q.fulfilledBy, Some(team), None))
  {
  }

  /** A new request is open, without entry, team or failure. */
  lemma {:induction false} CreateRequestDecides(a: Shelf, newId: string)
    requires newId !in a.requests
    ensures var after := CreateRequest(a, newId);
      && after == a.(requests := after.requests) && after.requests.Keys == a.requests.Keys + {newId}
      && after.requests[newId] == KnowledgeRequest(Open, None, None, None)
      && forall other :: other in a.requests ==> after.requests[other] == a.requests[other]
  {
  }
}
