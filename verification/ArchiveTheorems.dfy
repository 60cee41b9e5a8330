/**
  What the archive keeps across publishing, drafts, notes, archiving, deletion and the request
  transitions: entries agree with their revisions and the search index, and requests are
  fulfilled exactly when they point at an entry.
*/
module ArchiveTheorems {
  import opened Outcomes
  import opened Strings
  import opened Sequences
  import opened Archive

  // ---- the invariant ----

  // The revisions are 1, 2, ..., current; the highest holds the entry's text.
  ghost predicate RevisionsAgree(a: Shelf, id: string)
    requires id in a.entries
  {
    var rows, entry := Keep(a.revisions, RevisionOf(id)), a.entries[id];
    && entry.revision >= 1 && |rows| == entry.revision
    && (forall k :: 0 <= k < |rows| ==> rows[k].number == k + 1)
    && rows[|rows| - 1].doc == entry.doc
  }

  // At most one index row, with the current text; exactly one when published.
  ghost predicate IndexAgrees(a: Shelf, id: string)
    requires id in a.entries
  {
    var rows := Keep(a.index, IndexOf(id));
    && |rows| <= 1 && (a.entries[id].status == Published ==> |rows| == 1)
    && (|rows| == 1 ==> rows[0] == IndexRowOf(id, a.entries[id].doc))
  }

  ghost predicate EntryAgrees(a: Shelf, id: string)
    requires id in a.entries
  {
    RevisionsAgree(a, id) && IndexAgrees(a, id)
  }

  ghost predicate EntriesAgree(a: Shelf) {
    forall id :: id in a.entries ==> EntryAgrees(a, id)
  }

  ghost predicate RowsHaveEntries(a: Shelf) {
    && (forall i :: 0 <= i < |a.revisions| ==> a.revisions[i].entry in a.entries)
    && (forall i :: 0 <= i < |a.index| ==> a.index[i].entry in a.entries)
    && (forall i :: 0 <= i < |a.origins| ==> a.origins[i].entry in a.entries)
  }

  ghost predicate OriginsUnique(a: Shelf) {
    forall i, j :: 0 <= i < j < |a.origins| ==>
      && a.origins[i].entry != a.origins[j].entry
      && (a.origins[i].sourceType != a.origins[j].sourceType || a.origins[i].sourceId != a.origins[j].sourceId)
  }

  predicate RequestAgrees(a: Shelf, q: KnowledgeRequest) {
    && (q.status == Fulfilled <==> q.fulfilledBy.Some?)
    && (q.fulfilledBy.Some? ==> q.fulfilledBy.value in a.entries)
  }

  ghost predicate RequestsAgree(a: Shelf) {
    forall q :: q in a.requests ==> RequestAgrees(a, a.requests[q])
  }

  // A published entry that no team-note source owns was last written by the user.
  ghost predicate UserWritten(a: Shelf) {
    forall id :: id in a.entries && a.entries[id].status == Published && !IsNote(a, id) ==>
      LastByUser(a, id)
  }

  ghost predicate IsNote(a: Shelf, id: string) {
    exists i :: 0 <= i < |a.origins| && a.origins[i].entry == id && a.origins[i].sourceType == TEAM_NOTE
  }

  predicate LastByUser(a: Shelf, id: string) {
    var rows := Keep(a.revisions, RevisionOf(id));
    rows != [] && rows[|rows| - 1].byUser
  }

  ghost predicate ShelfOk(a: Shelf) {
    EntriesAgree(a) && RowsHaveEntries(a) && OriginsUnique(a) && RequestsAgree(a) && UserWritten(a)
  }

  // ---- writing a revision ----

  lemma NoRowsOfUnknown(a: Shelf, id: string)
    requires RowsHaveEntries(a) && id !in a.entries
    ensures Keep(a.revisions, RevisionOf(id)) == [] && Keep(a.index, IndexOf(id)) == []
  {
    KeepNone(a.revisions, RevisionOf(id));
    KeepNone(a.index, IndexOf(id));
  }

  lemma RevisionAdded(a: Shelf, id: string, doc: Doc, status: EntryStatus, byUser: bool, other: string)
    ensures var after := Revised(a, id, doc, status, byUser);
      Keep(after.revisions, RevisionOf(other)) == Keep(a.revisions, RevisionOf(other))
        + if other == id then [Revision(id, after.entries[id].revision, doc, byUser)] else []
  {
    var after := Revised(a, id, doc, status, byUser);
    KeepAppend(a.revisions, after.revisions[|a.revisions|], RevisionOf(other));
  }

  lemma OwnRevisionsGrow(a: Shelf, id: string, doc: Doc, status: EntryStatus, byUser: bool)
    requires if id in a.entries then RevisionsAgree(a, id) else Keep(a.revisions, RevisionOf(id)) == []
    ensures RevisionsAgree(Revised(a, id, doc, status, byUser), id)
  {
    RevisionAdded(a, id, doc, status, byUser, id);
  }

  lemma OtherRevisionsStay(a: Shelf, id: string, doc: Doc, status: EntryStatus, byUser: bool, other: string)
    requires other != id && other in a.entries && RevisionsAgree(a, other)
    ensures RevisionsAgree(Revised(a, id, doc, status, byUser), other)
  {
    RevisionAdded(a, id, doc, status, byUser, other);
  }

  lemma RevisedAgrees(a: Shelf, id: string, doc: Doc, status: EntryStatus, byUser: bool, other: string)
    requires EntriesAgree(a) && RowsHaveEntries(a) && (other in a.entries || other == id)
    ensures RevisionsAgree(Revised(a, id, doc, status, byUser), other)
  {
    if other != id {
      OtherRevisionsStay(a, id, doc, status, byUser, other);
    } else {
      if id !in a.entries {
        NoRowsOfUnknown(a, id);
      }
      OwnRevisionsGrow(a, id, doc, status, byUser);
    }
  }

  lemma ReindexedRows(index: seq<IndexRow>, id: string, doc: Doc, other: string)
    ensures Keep(Reindexed(index, id, doc), IndexOf(other)) == if other == id then [IndexRowOf(id, doc)]
        else Keep(index, IndexOf(other))
    ensures forall row :: row in Reindexed(index, id, doc) ==> row.entry == id || row in index
  {
    var kept := Keep(index, NotIndexOf(id));
    KeepAppend(kept, IndexRowOf(id, doc), IndexOf(other));
    KeepWithin(index, NotIndexOf(id), IndexOf(other));
    KeepHas(index, NotIndexOf(id));
  }

  // A step that writes one entry and leaves or rebuilds its index row.
  ghost predicate Wrote(a: Shelf, after: Shelf, id: string, doc: Doc, status: EntryStatus, byUser: bool) {
    && after.entries == Revised(a, id, doc, status, byUser).entries
    && after.revisions == Revised(a, id, doc, status, byUser).revisions
    && (after.index == Reindexed(a.index, id, doc)
        || (after.index == a.index && id !in a.entries && status != Published))
  }

  lemma WroteKeepsIndex(a: Shelf, after: Shelf, id: string, doc: Doc, status: EntryStatus, byUser: bool, other: string)
    requires RowsHaveEntries(a) && Wrote(a, after, id, doc, status, byUser) && other in after.entries
    requires other in a.entries ==> IndexAgrees(a, other)
    ensures IndexAgrees(after, other)
  {
    ReindexedRows(a.index, id, doc, other);
    if id !in a.entries {
      NoRowsOfUnknown(a, id);
    }
  }

  lemma WroteKeepsRevisions(a: Shelf, after: Shelf, id: string, doc: Doc, status: EntryStatus, byUser: bool,
      other: string)
    requires EntriesAgree(a) && RowsHaveEntries(a) && Wrote(a, after, id, doc, status, byUser) && other in after.entries
    ensures RevisionsAgree(after, other)
  {
    RevisedAgrees(a, id, doc, status, byUser, other);
    SameRevisionsAgree(Revised(a, id, doc, status, byUser), after, other);
  }

  lemma SameRevisionsAgree(a: Shelf, b: Shelf, id: string)
    requires a.entries == b.entries && a.revisions == b.revisions && id in a.entries && RevisionsAgree(a, id)
    ensures RevisionsAgree(b, id)
  {
  }

  lemma WroteKeepsEntry(a: Shelf, after: Shelf, id: string, doc: Doc, status: EntryStatus, byUser: bool, other: string)
    requires EntriesAgree(a) && RowsHaveEntries(a) && Wrote(a, after, id, doc, status, byUser) && other in after.entries
    ensures EntryAgrees(after, other)
  {
    WroteKeepsRevisions(a, after, id, doc, status, byUser, other);
    assert other in a.entries ==> EntryAgrees(a, other);
    WroteKeepsIndex(a, after, id, doc, status, byUser, other);
  }

  lemma WroteKeepsEntries(a: Shelf, after: Shelf, id: string, doc: Doc, status: EntryStatus, byUser: bool)
    requires EntriesAgree(a) && RowsHaveEntries(a) && Wrote(a, after, id, doc, status, byUser)
    ensures EntriesAgree(after)
  {
    forall other | other in after.entries ensures EntryAgrees(after, other) {
      WroteKeepsEntry(a, after, id, doc, status, byUser, other);
    }
  }

  lemma {:induction false} WroteKeepsRows(a: Shelf, after: Shelf, id: string, doc: Doc, status: EntryStatus,
      byUser: bool)
    requires RowsHaveEntries(a) && Wrote(a, after, id, doc, status, byUser)
    requires forall i :: 0 <= i < |after.origins| ==> after.origins[i] in a.origins || after.origins[i].entry == id
    ensures RowsHaveEntries(after)
  {
    ReindexedRows(a.index, id, doc, id);
    forall i | 0 <= i < |after.index| ensures after.index[i].entry in after.entries {
      assert after.index[i] in after.index;
      if after.index[i].entry != id { assert after.index[i] in a.index; }
    }
    forall i | 0 <= i < |after.revisions| ensures after.revisions[i].entry in after.entries {
      assert i < |a.revisions| ==> after.revisions[i] == a.revisions[i];
    }
  }

  // The last writer of an entry after a step that wrote `id`.
  lemma WroteAuthor(a: Shelf, after: Shelf, id: string, doc: Doc, status: EntryStatus, byUser: bool, other: string)
    requires after.revisions == Revised(a, id, doc, status, byUser).revisions
    ensures LastByUser(after, other) <==> if other == id then byUser else LastByUser(a, other)
  {
    RevisionAdded(a, id, doc, status, byUser, other);
  }

  lemma WroteKeepsAuthors(a: Shelf, after: Shelf, id: string, doc: Doc, status: EntryStatus, byUser: bool)
    requires UserWritten(a) && after.entries == Revised(a, id, doc, status, byUser).entries
    requires after.revisions == Revised(a, id, doc, status, byUser).revisions
    requires forall other :: IsNote(a, other) ==> IsNote(after, other)
    requires status != Published || byUser || IsNote(after, id)
    ensures UserWritten(after)
  {
    forall other | other in after.entries && after.entries[other].status == Published && !IsNote(after, other)
      ensures LastByUser(after, other)
    {
      WroteAuthor(a, after, id, doc, status, byUser, other);
    }
  }

  lemma WroteKeepsRequests(a: Shelf, after: Shelf)
    requires RequestsAgree(a) && a.entries.Keys <= after.entries.Keys && after.requests == a.requests
    ensures RequestsAgree(after)
  {
    forall q | q in after.requests ensures RequestAgrees(after, after.requests[q]) {
      assert RequestAgrees(a, a.requests[q]);
    }
  }

  // The entry is published with this text, and the request points at it.
  predicate PublishedAs(a: Shelf, id: string, doc: Doc, request: Option<string>) {
    && id in a.entries && a.entries[id].status == Published && a.entries[id].doc == doc
    && (request.Some? ==> request.value in a.requests && a.requests[request.value].fulfilledBy == Some(id))
  }

  lemma {:induction false} PublishedShelfOk(a: Shelf, id: string, doc: Doc, personas: seq<string>,
      request: Option<string>)
    requires ShelfOk(a)
    ensures ShelfOk(PublishedShelf(a, id, doc, personas, request))
    ensures PublishedAs(PublishedShelf(a, id, doc, personas, request), id, doc, if request.Some?
        && request.value in a.requests then request else None)
  {
    var after := PublishedShelf(a, id, doc, personas, request);
    WroteKeepsEntries(a, after, id, doc, Published, true);
    WroteKeepsRows(a, after, id, doc, Published, true);
    assert after.origins == a.origins && forall other :: IsNote(a, other) ==> IsNote(after, other);
    WroteKeepsAuthors(a, after, id, doc, Published, true);
    FulfilledByEntry(a, after, request, id);
  }

  // A successful publication is published, searchable and fulfils its request.
  lemma PublishKeepsOk(
      a: Shelf, byUser: bool, raw: Doc, personas: seq<string>, known: set<string>, entry: Option<string>,
      request: Option<string>, newId: string)
    requires ShelfOk(a) && Publish(a, byUser, raw, personas, known, entry, request, newId).Ok?
    ensures var (after, id) := Publish(a, byUser, raw, personas, known, entry, request, newId).value;
      ShelfOk(after) && Validated(raw).Ok? && PublishedAs(after, id, Validated(raw).value, request)
  {
    PublishResult(a, byUser, raw, personas, known, entry, request, newId);
    PublishedShelfOk(a, if entry.Some? then entry.value
        else newId, Validated(raw).value, CleanList(personas, 100, 64), request);
  }

  lemma PublishResult(
      a: Shelf, byUser: bool, raw: Doc, personas: seq<string>, known: set<string>, entry: Option<string>,
      request: Option<string>, newId: string)
    requires Publish(a, byUser, raw, personas, known, entry, request, newId).Ok?
    ensures Validated(raw).Ok? && (request.Some? ==> request.value in a.requests)
    ensures var id := if entry.Some? then entry.value else newId;
      Publish(a, byUser, raw, personas, known, entry, request, newId).value
        == (PublishedShelf(a, id, Validated(raw).value, CleanList(personas, 100, 64), request), id)
  {
  }

  lemma FulfilledByEntry(a: Shelf, after: Shelf, request: Option<string>, id: string)
    requires RequestsAgree(a) && a.entries.Keys <= after.entries.Keys && id in after.entries
    requires after.requests == Fulfilling(a.requests, request, id)
    ensures RequestsAgree(after)
  {
    forall q | q in after.requests ensures RequestAgrees(after, after.requests[q]) {
      assert q in a.requests && RequestAgrees(a, a.requests[q]);
    }
  }

  lemma OriginAdded(a: Shelf, added: Origin, other: string)
    ensures IsNote(a, other) ==> IsNote(a.(origins := a.origins + [added]), other)
  {
    var origins := a.origins + [added];
    if IsNote(a, other) {
      var i :| 0 <= i < |a.origins| && a.origins[i].entry == other && a.origins[i].sourceType == TEAM_NOTE;
      assert origins[i] == a.origins[i];
    }
  }

  lemma AddedOriginIsUnique(a: Shelf, after: Shelf, added: Origin)
    requires RowsHaveEntries(a) && OriginsUnique(a) && added.entry !in a.entries
    requires after.origins == a.origins + [added] && OriginFor(a.origins, added.sourceType, added.sourceId).None?
    ensures OriginsUnique(after)
    ensures forall i :: 0 <= i < |after.origins| ==>
        after.origins[i] in a.origins || after.origins[i].entry == added.entry
  {
    forall i, j | 0 <= i < j < |after.origins|
      ensures after.origins[i].entry != after.origins[j].entry
      ensures after.origins[i].sourceType != after.origins[j].sourceType
          || after.origins[i].sourceId != after.origins[j].sourceId
    {
      assert after.origins[i] == a.origins[i] && (j < |a.origins| ==> after.origins[j] == a.origins[j]);
    }
  }

  // A draft of a new source: one more entry with one revision and one origin.
  lemma NewDraftKeepsOk(a: Shelf, after: Shelf, id: string, doc: Doc, added: Origin)
    requires ShelfOk(a) && id !in a.entries && Wrote(a, after, id, doc, Draft, false)
    requires after.origins == a.origins + [added] && added.entry == id && after.requests == a.requests
    requires OriginFor(a.origins, added.sourceType, added.sourceId).None?
    ensures ShelfOk(after)
  {
    WroteKeepsEntries(a, after, id, doc, Draft, false);
    AddedOriginIsUnique(a, after, added);
    WroteKeepsRows(a, after, id, doc, Draft, false);
    forall other | IsNote(a, other) ensures IsNote(after, other) {
      OriginAdded(a, added, other);
    }
    WroteKeepsAuthors(a, after, id, doc, Draft, false);
    WroteKeepsRequests(a, after);
  }

  lemma SaveDraftKeepsOk(
      a: Shelf, byTeam: bool, sourceType: string, sourceId: string, raw: Doc, personas: seq<string>, known: set<string>,
      request: Option<string>, newId: string)
    requires ShelfOk(a) && newId !in a.entries
        && SaveDraft(a, byTeam, sourceType, sourceId, raw, personas, known, request, newId).Ok?
    ensures ShelfOk(SaveDraft(a, byTeam, sourceType, sourceId, raw, personas, known, request, newId).value.0)
  {
    var after := SaveDraft(a, byTeam, sourceType, sourceId, raw, personas, known, request, newId).value.0;
    var kind, source := Strip(sourceType), Required(sourceId, 128).value;
    if OriginFor(a.origins, kind, source).None? {
      NewDraftKeepsOk(a, after, newId, Validated(raw).value, Origin(newId, kind, source, request));
    }
  }

  lemma {:induction false} RevisedNoteOk(a: Shelf, doc: Doc, id: string)
    requires ShelfOk(a) && id in a.entries && IsNote(a, id)
    ensures ShelfOk(RevisedNoteShelf(a, doc, id))
  {
    var after, status := RevisedNoteShelf(a, doc, id), a.entries[id].status;
    WroteKeepsEntries(a, after, id, doc, status, false);
    WroteKeepsRows(a, after, id, doc, status, false);
    assert after.origins == a.origins && forall other :: IsNote(a, other) ==> IsNote(after, other);
    WroteKeepsAuthors(a, after, id, doc, status, false);
    WroteKeepsRequests(a, after);
  }

  lemma SaveTeamNoteKeepsOk(a: Shelf, byTeam: bool, team: string, raw: Doc, newId: string)
    requires ShelfOk(a) && newId !in a.entries && SaveTeamNote(a, byTeam, team, raw, newId).Ok?
    ensures ShelfOk(SaveTeamNote(a, byTeam, team, raw, newId).value.0)
  {
    var doc, source := Validated(raw).value, Required(team, 128).value;
    var existing := OriginFor(a.origins, TEAM_NOTE, source);
    if existing.None? {
      NewDraftKeepsOk(a, NewNoteShelf(a, doc, newId, source), newId, doc, Origin(newId, TEAM_NOTE, source, None));
    } else {
      assert a.origins[existing.value].sourceType == TEAM_NOTE;
      RevisedNoteOk(a, doc, a.origins[existing.value].entry);
    }
  }

  lemma ArchivedEntryAgrees(a: Shelf, id: string, other: string)
    requires id in a.entries && other in a.entries && EntryAgrees(a, other)
    ensures EntryAgrees(a.(entries := a.entries[id := a.entries[id].(status := Archived)]), other)
  {
  }

  lemma {:induction false} ArchiveKeepsOk(a: Shelf, id: string)
    requires ShelfOk(a) && ArchiveEntry(a, id).Ok?
    ensures ShelfOk(ArchiveEntry(a, id).value)
  {
    var after := ArchiveEntry(a, id).value;
    forall other | other in after.entries ensures EntryAgrees(after, other) {
      ArchivedEntryAgrees(a, id, other);
    }
    assert after.origins == a.origins && forall other :: IsNote(a, other) ==> IsNote(after, other);
    WroteKeepsRequests(a, after);
    SameAuthors(a, after);
  }

  lemma SameAuthors(a: Shelf, after: Shelf)
    requires UserWritten(a) && after.revisions == a.revisions
    requires forall other :: IsNote(a, other) ==> IsNote(after, other)
    requires forall other :: other in after.entries && after.entries[other].status == Published ==>
      other in a.entries && a.entries[other].status == Published
    ensures UserWritten(after)
  {
    forall other | other in after.entries && after.entries[other].status == Published && !IsNote(after, other)
      ensures LastByUser(after, other)
    {
      assert LastByUser(a, other);
    }
  }

  // ---- deletion ----

  lemma DeletedRows(a: Shelf, id: string, other: string)
    requires DeleteEntry(a, id).Ok?
    ensures var after := DeleteEntry(a, id).value.0;
      && Keep(after.revisions, RevisionOf(other)) == (if other == id then [] else Keep(a.revisions, RevisionOf(other)))
      && Keep(after.index, IndexOf(other)) == (if other == id then [] else Keep(a.index, IndexOf(other)))
  {
    KeepWithin(a.revisions, NotRevisionOf(id), RevisionOf(other));
    KeepWithin(a.index, NotIndexOf(id), IndexOf(other));
  }

  lemma {:induction false} KeptOriginsUnique(origins: seq<Origin>, id: string)
    requires forall i, j :: 0 <= i < j < |origins| ==>
      && origins[i].entry != origins[j].entry
      && (origins[i].sourceType != origins[j].sourceType || origins[i].sourceId != origins[j].sourceId)
    ensures forall i, j :: 0 <= i < j < |Keep(origins, NotOriginOf(id))| ==>
      var kept := Keep(origins, NotOriginOf(id));
      && kept[i].entry != kept[j].entry
          && (kept[i].sourceType != kept[j].sourceType || kept[i].sourceId != kept[j].sourceId)
  {
    if origins != [] {
      var init, last := origins[..|origins| - 1], origins[|origins| - 1];
      KeptOriginsUnique(init, id);
      KeepHas(init, NotOriginOf(id));
      forall o | o in Keep(init, NotOriginOf(id))
        ensures o.entry != last.entry && (o.sourceType != last.sourceType || o.sourceId != last.sourceId)
      {
        var i :| 0 <= i < |init| && init[i] == o;
        assert origins[i] == o;
      }
    }
  }

  lemma DeleteKeepsEntry(a: Shelf, id: string, other: string)
    requires other in a.entries && other != id && EntryAgrees(a, other) && DeleteEntry(a, id).Ok?
    ensures other in DeleteEntry(a, id).value.0.entries && EntryAgrees(DeleteEntry(a, id).value.0, other)
  {
    DeletedRows(a, id, other);
  }

  lemma DeleteKeepsEntries(a: Shelf, id: string)
    requires EntriesAgree(a) && DeleteEntry(a, id).Ok?
    ensures EntriesAgree(DeleteEntry(a, id).value.0)
  {
    var after := DeleteEntry(a, id).value.0;
    forall other | other in after.entries ensures EntryAgrees(after, other) {
      DeleteKeepsEntry(a, id, other);
    }
  }

  lemma DeleteKeepsRequests(a: Shelf, id: string)
    requires RequestsAgree(a) && DeleteEntry(a, id).Ok?
    ensures RequestsAgree(DeleteEntry(a, id).value.0)
  {
    var after := DeleteEntry(a, id).value.0;
    forall q | q in after.requests ensures RequestAgrees(after, after.requests[q]) {
      assert RequestAgrees(a, a.requests[q]);
    }
  }

  lemma DeleteKeepsOk(a: Shelf, id: string)
    requires ShelfOk(a) && DeleteEntry(a, id).Ok?
    ensures ShelfOk(DeleteEntry(a, id).value.0)
  {
    DeleteKeepsEntries(a, id);
    DeleteKeepsRows(a, id);
    DeleteKeepsRequests(a, id);
    DeleteKeepsAuthors(a, id);
    KeptOriginsUnique(a.origins, id);
  }

  lemma DeleteKeepsRows(a: Shelf, id: string)
    requires RowsHaveEntries(a) && DeleteEntry(a, id).Ok?
    ensures RowsHaveEntries(DeleteEntry(a, id).value.0)
  {
    var after := DeleteEntry(a, id).value.0;
    KeepHas(a.revisions, NotRevisionOf(id));
    KeepHas(a.index, NotIndexOf(id));
    KeepHas(a.origins, NotOriginOf(id));
    assert forall i :: 0 <= i < |after.revisions| ==> after.revisions[i] in after.revisions;
    assert forall i :: 0 <= i < |after.index| ==> after.index[i] in after.index;
    assert forall i :: 0 <= i < |after.origins| ==> after.origins[i] in after.origins;
  }

  lemma NoteSurvivesDelete(a: Shelf, id: string, other: string)
    requires DeleteEntry(a, id).Ok? && other != id && IsNote(a, other)
    ensures IsNote(DeleteEntry(a, id).value.0, other)
  {
    KeepHas(a.origins, NotOriginOf(id));
    var i :| 0 <= i < |a.origins| && a.origins[i].entry == other && a.origins[i].sourceType == TEAM_NOTE;
    assert a.origins[i] in DeleteEntry(a, id).value.0.origins;
  }

  lemma DeleteKeepsAuthors(a: Shelf, id: string)
    requires UserWritten(a) && DeleteEntry(a, id).Ok?
    ensures UserWritten(DeleteEntry(a, id).value.0)
  {
    var after := DeleteEntry(a, id).value.0;
    forall other | other in after.entries && after.entries[other].status == Published && !IsNote(after, other)
      ensures LastByUser(after, other)
    {
      DeletedRows(a, id, other);
      if IsNote(a, other) { NoteSurvivesDelete(a, id, other); }
    }
  }

  // Deleting an entry removes every row of it and leaves the other entries alone.
  lemma DeletionRemovesRows(a: Shelf, id: string, other: string)
    requires DeleteEntry(a, id).Ok?
    ensures var after := DeleteEntry(a, id).value.0;
      && id !in after.entries && (forall r :: r in after.revisions ==> r.entry != id)
          && (forall r :: r in after.index ==> r.entry != id)
      && (forall o :: o in after.origins ==> o.entry != id) && (forall b :: b in after.bindings ==> b.entry != id)
      && (other != id && other in a.entries ==> other in after.entries && after.entries[other] == a.entries[other])
      && (other != id ==> Keep(after.revisions, RevisionOf(other)) == Keep(a.revisions, RevisionOf(other)))
  {
    KeepHas(a.revisions, NotRevisionOf(id));
    KeepHas(a.index, NotIndexOf(id));
    KeepHas(a.origins, NotOriginOf(id));
    KeepHas(a.bindings, NotBindingOf(id));
    DeletedRows(a, id, other);
  }

  /**
    Deleting an entry reopens the requests it fulfilled and the one in progress that it came
    from; every other request is unchanged.
  */
  lemma DeletionReopens(a: Shelf, id: string, q: string)
    requires RequestsAgree(a) && DeleteEntry(a, id).Ok? && q in a.requests
    ensures q in DeleteEntry(a, id).value.0.requests
    ensures var before, after := a.requests[q], DeleteEntry(a, id).value.0.requests[q];
      && after.fulfilledBy != Some(id)
      && (before.fulfilledBy == Some(id) ==> after.status == Open && after.team == None)
      && (before.fulfilledBy != Some(id) && after != before ==>
        before.status == InProgress && after.status == Open && after.team == None && CameFrom(a, id, q))
  {
    assert RequestAgrees(a, a.requests[q]);
    var origin := OriginOf(a.origins, id);
    assert origin.Some? && a.origins[origin.value].request == Some(q) ==> CameFrom(a, id, q);
  }

  // The entry was drafted for the request.
  predicate CameFrom(a: Shelf, id: string, q: string) {
    exists i :: 0 <= i < |a.origins| && a.origins[i].entry == id && a.origins[i].request == Some(q)
  }

  // ---- histories ----

  datatype ShelfOp =
    | PublishOp(byUser: bool, raw: Doc, personas: seq<string>, known: set<string>, entry: Option<string>,
        request: Option<string>, newId: string)
    | DraftOp(byTeam: bool, sourceType: string, sourceId: string, raw: Doc, personas: seq<string>, known: set<string>,
        request: Option<string>, newId: string)
    | NoteOp(byTeam: bool, team: string, raw: Doc, newId: string)
    | ArchiveOp(id: string)
    | DeleteOp(id: string)
    | CreateRequestOp(newId: string)
    | UpdateRequestOp(id: string, status: RequestStatus)
    | FailureOp(id: string, code: string, cycle: Option<string>)
    | ClearOp(id: string)
    | AssignOp(id: string, team: string, teams: set<string>)

  // Generated ids are new.
  predicate NewId(a: Shelf, op: ShelfOp) {
    match op
    case PublishOp(_, _, _, _, _, _, newId) => newId !in a.entries
    case DraftOp(_, _, _, _, _, _, _, newId) => newId !in a.entries
    case NoteOp(_, _, _, newId) => newId !in a.entries
    case CreateRequestOp(newId) => newId !in a.requests
    case _ => true
  }

  function Stored<T>(a: Shelf, r: Result<(Shelf, T), ArchiveError>): Shelf { if r.Ok? then r.value.0 else a }

  function Changed(a: Shelf, r: Result<Shelf, ArchiveError>): Shelf { if r.Ok? then r.value else a }

  function Perform(a: Shelf, op: ShelfOp): Shelf {
    match op
    case PublishOp(byUser, raw, personas, known, entry, request, newId) =>
      Stored(a, Publish(a, byUser, raw, personas, known, entry, request, newId))
    case DraftOp(byTeam, sourceType, sourceId, raw, personas, known, request, newId) =>
      Stored(a, SaveDraft(a, byTeam, sourceType, sourceId, raw, personas, known, request, newId))
    case NoteOp(byTeam, team, raw, newId) => Stored(a, SaveTeamNote(a, byTeam, team, raw, newId))
    case ArchiveOp(id) => Changed(a, ArchiveEntry(a, id))
    case DeleteOp(id) => Stored(a, DeleteEntry(a, id))
    case CreateRequestOp(newId) => CreateRequest(a, newId)
    case UpdateRequestOp(id, status) => Changed(a, UpdateRequest(a, id, status))
    case FailureOp(id, code, cycle) => Changed(a, RecordFailure(a, id, code, cycle))
    case ClearOp(id) => Changed(a, ClearFailure(a, id))
    case AssignOp(id, team, teams) => Changed(a, AssignTeam(a, id, team, teams))
  }

  lemma {:induction false} SameEntryAgrees(a: Shelf, after: Shelf, id: string)
    requires after.entries == a.entries && after.revisions == a.revisions && after.index == a.index
    requires id in a.entries && EntryAgrees(a, id)
    ensures EntryAgrees(after, id)
  {
  }

  lemma {:induction false} OnlyRequestsChanged(a: Shelf, after: Shelf)
    requires ShelfOk(a) && after == a.(requests := after.requests) && RequestsAgree(after)
    ensures ShelfOk(after)
  {
    forall other | other in after.entries ensures EntryAgrees(after, other) { SameEntryAgrees(a, after, other); }
    assert forall other :: IsNote(a, other) ==> IsNote(after, other);
    SameAuthors(a, after);
  }

  predicate RequestOp(op: ShelfOp) {
    op.CreateRequestOp? || op.UpdateRequestOp? || op.FailureOp? || op.ClearOp? || op.AssignOp?
  }

  lemma RequestStepKeepsRequests(a: Shelf, op: ShelfOp)
    requires RequestsAgree(a) && NewId(a, op) && RequestOp(op)
    ensures var after := Perform(a, op); after == a.(requests := after.requests) && RequestsAgree(after)
  {
    var after := Perform(a, op);
    forall q | q in after.requests ensures RequestAgrees(after, after.requests[q]) {
      assert q in a.requests ==> RequestAgrees(a, a.requests[q]);
    }
  }

  /**
    Every step keeps: revisions are exactly 1..current and the highest equals the entry; every
    published entry has exactly one index row and every index row its entry's text; a request is
    fulfilled exactly when it points at an entry; published text outside team notes is the user's.
  */
  lemma StepKeepsShelfOk(a: Shelf, op: ShelfOp)
    requires ShelfOk(a) && NewId(a, op)
    ensures ShelfOk(Perform(a, op))
  {
    match op
    case PublishOp(byUser, raw, personas, known, entry, request, newId) =>
      if Publish(a, byUser, raw, personas, known, entry, request, newId).Ok? {
        PublishKeepsOk(a, byUser, raw, personas, known, entry, request, newId);
      }
    case DraftOp(byTeam, sourceType, sourceId, raw, personas, known, request, newId) =>
      if SaveDraft(a, byTeam, sourceType, sourceId, raw, personas, known, request, newId).Ok? {
        SaveDraftKeepsOk(a, byTeam, sourceType, sourceId, raw, personas, known, request, newId);
      }
    case NoteOp(byTeam, team, raw, newId) =>
      if SaveTeamNote(a, byTeam, team, raw, newId).Ok? { SaveTeamNoteKeepsOk(a, byTeam, team, raw, newId); }
    case ArchiveOp(id) => if ArchiveEntry(a, id).Ok? { ArchiveKeepsOk(a, id); }
    case DeleteOp(id) => if DeleteEntry(a, id).Ok? { DeleteKeepsOk(a, id); }
    case _ =>
      RequestStepKeepsRequests(a, op);
      OnlyRequestsChanged(a, Perform(a, op));
  }

  const EMPTY_SHELF := Shelf(map[], [], [], [], [], map[])

  lemma {:induction false} ShelfInEveryHistory(states: seq<Shelf>, ops: seq<ShelfOp>, k: nat)
    requires |states| == |ops| + 1 && states[0] == EMPTY_SHELF && k <= |ops|
    requires forall i :: 0 <= i < |ops| ==> NewId(states[i], ops[i]) && states[i + 1] == Perform(states[i], ops[i])
    ensures ShelfOk(states[k])
  {
    if k > 0 {
      ShelfInEveryHistory(states, ops, k - 1);
      StepKeepsShelfOk(states[k - 1], ops[k - 1]);
      assert states[k - 1 + 1] == Perform(states[k - 1], ops[k - 1]);
    }
  }

  // Saving a draft again for the same source returns the first one and changes nothing.
  lemma DraftTwice(
      a: Shelf, sourceType: string, sourceId: string, raw: Doc, personas: seq<string>, known: set<string>,
      request: Option<string>, newId: string, raw': Doc, personas': seq<string>, newId': string)
    requires SaveDraft(a, true, sourceType, sourceId, raw, personas, known, request, newId).Ok? && Validated(raw').Ok?
    ensures var (after, id) := SaveDraft(a, true, sourceType, sourceId, raw, personas, known, request, newId).value;
      SaveDraft(after, true, sourceType, sourceId, raw', personas', known, request, newId') == Ok((after, id))
  {
    var after := SaveDraft(a, true, sourceType, sourceId, raw, personas, known, request, newId).value.0;
    var kind, source := Strip(sourceType), Required(sourceId, 128).value;
    if OriginFor(a.origins, kind, source).None? {
      assert after.origins[|a.origins|] == Origin(newId, kind, source, request);
      assert OriginFor(after.origins, kind, source) == Some(|a.origins|);
    }
  }

  // ---- what the archive does not promise ----

  /**
    A team note may be published by the user and then rewritten by the team: it stays published
    and searchable with the team's text.
  */
  lemma TeamRewritesPublished(a: Shelf, team: string, raw: Doc, newId: string, i: nat)
    requires RowsHaveEntries(a) && OriginsUnique(a) && i < |a.origins| && a.origins[i].sourceType == TEAM_NOTE
    requires NoteGate(true, team, raw).None? && Required(team, 128) == Ok(a.origins[i].sourceId)
    requires a.entries[a.origins[i].entry].status == Published
    ensures var id, doc := a.origins[i].entry, Validated(raw).value;
      && SaveTeamNote(a, true, team, raw, newId) == Ok((RevisedNoteShelf(a, doc, id), id))
      && RewrittenByTeam(RevisedNoteShelf(a, doc, id), id, doc)
  {
    OriginIsFound(a, i);
    RevisedNoteIsTeams(a, Validated(raw).value, a.origins[i].entry);
  }

  // Published, but with text the team wrote last.
  predicate RewrittenByTeam(a: Shelf, id: string, doc: Doc) {
    id in a.entries && a.entries[id].status == Published && a.entries[id].doc == doc && !LastByUser(a, id)
  }

  lemma OriginIsFound(a: Shelf, i: nat)
    requires OriginsUnique(a) && i < |a.origins|
    ensures OriginFor(a.origins, a.origins[i].sourceType, a.origins[i].sourceId) == Some(i)
  {
  }

  lemma RevisedNoteIsTeams(a: Shelf, doc: Doc, id: string)
    requires id in a.entries && a.entries[id].status == Published
    ensures RewrittenByTeam(RevisedNoteShelf(a, doc, id), id, doc)
  {
    RevisionAdded(a, id, doc, Published, false, id);
  }

  // A team saves its note, and this entry is that note.
  predicate TeamRewrites(a: Shelf, op: ShelfOp, id: string) {
    && op.NoteOp? && NoteGate(op.byTeam, op.team, op.raw).None?
    && var existing := OriginFor(a.origins, TEAM_NOTE, Required(op.team, 128).value);
       existing.Some? && a.origins[existing.value].entry == id
  }

  lemma PublishAuthor(
      a: Shelf, byUser: bool, raw: Doc, personas: seq<string>, known: set<string>, entry: Option<string>,
      request: Option<string>, newId: string, id: string)
    ensures var after := Perform(a, PublishOp(byUser, raw, personas, known, entry, request, newId));
      LastByUser(a, id) ==> LastByUser(after, id)
  {
    if Publish(a, byUser, raw, personas, known, entry, request, newId).Ok? {
      PublishResult(a, byUser, raw, personas, known, entry, request, newId);
      var own, doc := if entry.Some? then entry.value else newId, Validated(raw).value;
      var after := PublishedShelf(a, own, doc, CleanList(personas, 100, 64), request);
      WroteAuthor(a, after, own, doc, Published, true, id);
    }
  }

  lemma DraftAuthor(a: Shelf, doc: Doc, personas: seq<string>, origin: Origin, id: string)
    requires origin.entry != id
    ensures LastByUser(DraftShelf(a, doc, personas, origin), id) == LastByUser(a, id)
  {
    WroteAuthor(a, DraftShelf(a, doc, personas, origin), origin.entry, doc, Draft, false, id);
  }

  lemma NewNoteAuthor(a: Shelf, doc: Doc, note: string, team: string, id: string)
    requires note != id
    ensures LastByUser(NewNoteShelf(a, doc, note, team), id) == LastByUser(a, id)
  {
    WroteAuthor(a, NewNoteShelf(a, doc, note, team), note, doc, Draft, false, id);
  }

  lemma RevisedNoteAuthor(a: Shelf, doc: Doc, note: string, id: string)
    requires note in a.entries
    ensures LastByUser(RevisedNoteShelf(a, doc, note), id) == (note != id && LastByUser(a, id))
  {
    WroteAuthor(a, RevisedNoteShelf(a, doc, note), note, doc, a.entries[note].status, false, id);
  }

  lemma NoteAuthor(a: Shelf, byTeam: bool, team: string, raw: Doc, newId: string, id: string)
    requires RowsHaveEntries(a) && newId !in a.entries && id in a.entries && LastByUser(a, id)
    ensures var op := NoteOp(byTeam, team, raw, newId); LastByUser(Perform(a, op), id) <==> !TeamRewrites(a, op, id)
  {
    if NoteGate(byTeam, team, raw).None? {
      var doc, source := Validated(raw).value, Required(team, 128).value;
      var existing := OriginFor(a.origins, TEAM_NOTE, source);
      if existing.Some? {
        RevisedNoteAuthor(a, doc, a.origins[existing.value].entry, id);
      } else {
        NewNoteAuthor(a, doc, newId, source, id);
      }
    }
  }

  lemma {:induction false} DraftOpAuthor(
      a: Shelf, byTeam: bool, sourceType: string, sourceId: string, raw: Doc, personas: seq<string>, known: set<string>,
      request: Option<string>, newId: string, id: string)
    requires newId != id
    ensures var after := Stored(a, SaveDraft(a, byTeam, sourceType, sourceId, raw, personas, known, request, newId));
      LastByUser(after, id) == LastByUser(a, id)
  {
    if Validated(raw).Ok? && Required(sourceId, 128).Ok? {
      DraftAuthor(a, Validated(raw).value, CleanList(personas, 100, 64),
                  Origin(newId, Strip(sourceType), Required(sourceId, 128).value, request), id);
    }
  }

  lemma {:induction false} SameRevisionsSameAuthor(a: Shelf, after: Shelf, id: string)
    requires Keep(after.revisions, RevisionOf(id)) == Keep(a.revisions, RevisionOf(id))
    ensures LastByUser(after, id) == LastByUser(a, id)
  {
  }

  lemma {:induction false} DeleteAuthor(a: Shelf, gone: string, id: string)
    requires gone != id
    ensures LastByUser(Stored(a, DeleteEntry(a, gone)), id) == LastByUser(a, id)
  {
    if DeleteEntry(a, gone).Ok? {
      DeletedRows(a, gone, id);
      SameRevisionsSameAuthor(a, DeleteEntry(a, gone).value.0, id);
    }
  }

  lemma {:induction false} RequestsKeepRevisions(a: Shelf, op: ShelfOp)
    requires RequestOp(op) || op.ArchiveOp?
    ensures Perform(a, op).revisions == a.revisions
  {
  }

  /**
    And that is the only way: an entry whose text the user wrote last, as long as it is there,
    stops being so in exactly the steps in which a team saves it as its note.
  */
  lemma {:induction false} OnlyTeamsRewrite(a: Shelf, op: ShelfOp, id: string)
    requires RowsHaveEntries(a) && NewId(a, op) && id in a.entries && LastByUser(a, id) && id in Perform(a, op).entries
    ensures LastByUser(Perform(a, op), id) <==> !TeamRewrites(a, op, id)
  {
    match op
    case PublishOp(byUser, raw, personas, known, entry, request, newId) =>
      PublishAuthor(a, byUser, raw, personas, known, entry, request, newId, id);
    case DraftOp(byTeam, sourceType, sourceId, raw, personas, known, request, newId) =>
      DraftOpAuthor(a, byTeam, sourceType, sourceId, raw, personas, known, request, newId, id);
    case NoteOp(byTeam, team, raw, newId) => NoteAuthor(a, byTeam, team, raw, newId, id);
    case DeleteOp(gone) =>
      if gone != id { DeleteAuthor(a, gone, id); } else { DeletedIsGone(a, id); }
    case _ =>
      RequestsKeepRevisions(a, op);
      SameRevisionsSameAuthor(a, Perform(a, op), id);
  }

  lemma {:induction false} DeletedIsGone(a: Shelf, id: string)
    requires id in a.entries
    ensures id !in Perform(a, DeleteOp(id)).entries
  {
  }

  // ---- what is stored ----

  lemma {:induction false} CleanTextsBounded(values: seq<string>, max: nat)
    requires max > 0
    ensures |CleanTexts(values, max)| <= |values|
    ensures forall i :: 0 <= i < |CleanTexts(values, max)| ==> 0 < |CleanTexts(values, max)[i]| <= max
  {
    if values != [] {
      CleanTextsBounded(values[..|values| - 1], max);
    }
  }

  ghost predicate Bounded(values: seq<string>, items: nat, max: nat) {
    && |values| <= items
    && (forall i :: 0 <= i < |values| ==> 0 < |values[i]| <= max)
    && (forall i, j :: 0 <= i < j < |values| ==> values[i] != values[j])
  }

  lemma CleanListBounded(values: seq<string>, items: nat, max: nat)
    requires max > 0
    ensures Bounded(CleanList(values, items, max), items, max)
  {
    var texts := CleanTexts(if |values| <= items then values else values[..items], max);
    CleanTextsBounded(if |values| <= items then values else values[..items], max);
    DedupedOnce(texts);
    var clean := Deduped(texts);
    forall i | 0 <= i < |clean| ensures 0 < |clean[i]| <= max { assert clean[i] in texts; }
  }

  // Whatever a caller sends, stored text is within its limits, and tags and links are distinct.
  lemma ValidatedIsBounded(raw: Doc)
    ensures Validated(raw).Ok? ==>
      var doc := Validated(raw).value;
      && doc.kind in KINDS && 0 < |doc.title| <= 200 && 0 < |doc.content| <= 100_000 && |doc.summary| <= 1000
      && Bounded(doc.tags, 20, 80) && Bounded(doc.urls, 20, 2000)
  {
    CleanListBounded(raw.tags, 20, 80);
    CleanListBounded(raw.urls, 20, 2000);
  }
}
