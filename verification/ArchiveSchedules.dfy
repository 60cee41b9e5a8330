/**
  The archive with overlapping calls. Publishing, drafts, notes and deletions are transactions;
  a status change, a recorded or cleared failure, an assignment and archiving first check and then
  write in a statement of their own, and any other call may come between the two.
*/
module ArchiveSchedules {
  import opened Outcomes
  import opened Strings
  import opened Archive
  import opened ArchiveTheorems

  // The update statement that follows a passed check.
  datatype Write =
    | StatusWrite(id: string, status: RequestStatus)
    | FailureWrite(id: string, code: string, cycle: Option<string>)
    | ClearWrite(id: string)
    | AssignWrite(id: string, team: string)
    | ArchiveWrite(id: string)

  // An update of a row that is gone changes nothing.
  function Written(a: Shelf, w: Write): Shelf {
    if w.ArchiveWrite? then
      if w.id !in a.entries then a else a.(entries := a.entries[w.id := a.entries[w.id].(status := Archived)])
    else if w.id !in a.requests then a
    else
      var q := a.requests[w.id];
      var after := match w
        case StatusWrite(_, status) => q.(status := status)
        case FailureWrite(_, code, cycle) => q.(status := Open, failure := Some((code, cycle)))
        case ClearWrite(_) => q.(failure := None)
        case AssignWrite(_, team) => q.(status := InProgress, team := Some(team), failure := None)
        case ArchiveWrite(_) => q;
      a.(requests := a.requests[w.id := after])
  }

  predicate TwoSteps(op: ShelfOp) {
    op.UpdateRequestOp? || op.FailureOp? || op.ClearOp? || op.AssignOp? || op.ArchiveOp?
  }

  // The checks, and the write they lead to; a failure already recorded leads to none.
  function Checked(a: Shelf, op: ShelfOp): Result<Option<Write>, ArchiveError>
    requires TwoSteps(op)
  {
    match op
    case ArchiveOp(id) => if id !in a.entries then Err(EntryNotFound) else Ok(Some(ArchiveWrite(id)))
    case UpdateRequestOp(id, status) =>
      if status == Fulfilled then Err(InvalidStatus)
      else if id !in a.requests then Err(RequestNotFound)
      else if a.requests[id].status == Fulfilled then Err(AlreadyFulfilled)
      else Ok(Some(StatusWrite(id, status)))
    case FailureOp(id, code, cycle) =>
      if id !in a.requests then Err(RequestNotFound)
      else if a.requests[id].status == Fulfilled then Err(AlreadyFulfilled)
      else if a.requests[id].failure == Some((code, cycle)) then Ok(None)
      else Ok(Some(FailureWrite(id, code, cycle)))
    case ClearOp(id) => if id !in a.requests then Err(RequestNotFound) else Ok(Some(ClearWrite(id)))
    case AssignOp(id, team, teams) =>
      if id !in a.requests then Err(RequestNotFound)
      else if a.requests[id].status !in {Open, InProgress, Deferred} then Err(NotActive)
      else if a.requests[id].status == InProgress && a.requests[id].team.Some? && a.requests[id].team.value != team then
        Err(AssignedElsewhere)
      else if team !in teams then Err(EntryNotFound)
      else Ok(Some(AssignWrite(id, team)))
  }

  // With nothing in between, check and write are the one step of the archive.
  lemma CheckedThenWritten(a: Shelf, op: ShelfOp)
    requires TwoSteps(op)
    ensures Perform(a, op) ==
      if Checked(a, op).Ok? && Checked(a, op).value.Some? then Written(a, Checked(a, op).value.value) else a
  {
  }

  // ---- schedules ----

  datatype World = World(shelf: Shelf, pending: multiset<Write>)

  datatype Action =
    | Whole(op: ShelfOp)     // a transaction
    | Check(op: ShelfOp)
    | Land(write: Write)     // the write of an earlier check

  predicate Enabled(d: World, a: Action) {
    match a
    case Whole(op) => !TwoSteps(op) && NewId(d.shelf, op)
    case Check(op) => TwoSteps(op)
    case Land(w) => w in d.pending
  }

  function Next(d: World, a: Action): World {
    match a
    case Whole(op) => d.(shelf := Perform(d.shelf, op))
    case Check(op) =>
      if TwoSteps(op) && Checked(d.shelf, op).Ok? && Checked(d.shelf, op).value.Some? then
        d.(pending := d.pending + multiset{Checked(d.shelf, op).value.value})
      else d
    case Land(w) => World(Written(d.shelf, w), d.pending - multiset{w})
  }

  ghost predicate Schedule(worlds: seq<World>, actions: seq<Action>) {
    && |worlds| == |actions| + 1 && worlds[0] == World(EMPTY_SHELF, multiset{})
    && forall k :: 0 <= k < |actions| ==> ActionAt(worlds, actions, k)
  }

  ghost predicate ActionAt(worlds: seq<World>, actions: seq<Action>, k: nat)
    requires |worlds| == |actions| + 1 && k < |actions|
  {
    Enabled(worlds[k], actions[k]) && worlds[k + 1] == Next(worlds[k], actions[k])
  }

  // The write changes the status of a request that was fulfilled since the check.
  predicate Late(a: Shelf, w: Write) {
    (w.StatusWrite? || w.FailureWrite? || w.AssignWrite?) && w.id in a.requests && a.requests[w.id].status == Fulfilled
  }

  // No check lets a status write of `fulfilled` through.
  ghost predicate WritesOk(pending: multiset<Write>) {
    forall w :: w in pending && w.StatusWrite? ==> w.status != Fulfilled
  }

  lemma WrittenRequestAgrees(a: Shelf, w: Write)
    requires RequestsAgree(a) && !w.ArchiveWrite? && w.id in a.requests && (w.StatusWrite? ==> w.status != Fulfilled)
    ensures RequestsAgree(Written(a, w)) <==> !Late(a, w)
  {
    var after := Written(a, w);
    assert RequestAgrees(a, a.requests[w.id]);
    if Late(a, w) {
      assert !RequestAgrees(after, after.requests[w.id]);
    } else {
      forall q | q in after.requests ensures RequestAgrees(after, after.requests[q]) {
        assert RequestAgrees(a, a.requests[q]);
      }
    }
  }

  /** A write keeps the archive consistent exactly when it does not come late. */
  lemma WrittenKeepsOkIff(a: Shelf, w: Write)
    requires ShelfOk(a) && (w.StatusWrite? ==> w.status != Fulfilled)
    ensures ShelfOk(Written(a, w)) <==> !Late(a, w)
  {
    if w.ArchiveWrite? {
      if w.id in a.entries { ArchiveKeepsOk(a, w.id); }
    } else if w.id in a.requests {
      WrittenRequestAgrees(a, w);
      if !Late(a, w) { OnlyRequestsChanged(a, Written(a, w)); }
    }
  }

  lemma ActionKeepsWritesOk(d: World, a: Action)
    requires WritesOk(d.pending) && Enabled(d, a)
    ensures WritesOk(Next(d, a).pending)
  {
  }

  lemma ActionKeepsOkIff(d: World, a: Action)
    requires ShelfOk(d.shelf) && WritesOk(d.pending) && Enabled(d, a)
    ensures ShelfOk(Next(d, a).shelf) <==> !(a.Land? && Late(d.shelf, a.write))
  {
    match a
    case Whole(op) => StepKeepsShelfOk(d.shelf, op);
    case Check(_) =>
    case Land(w) => WrittenKeepsOkIff(d.shelf, w);
  }

  lemma {:induction false} WritesOkInSchedule(worlds: seq<World>, actions: seq<Action>, k: nat)
    requires Schedule(worlds, actions) && k <= |actions|
    ensures WritesOk(worlds[k].pending)
  {
    if k > 0 {
      WritesOkInSchedule(worlds, actions, k - 1);
      assert ActionAt(worlds, actions, k - 1);
      ActionKeepsWritesOk(worlds[k - 1], actions[k - 1]);
    }
  }

  ghost predicate CameLate(worlds: seq<World>, actions: seq<Action>, i: nat)
    requires i < |worlds| && i < |actions|
  {
    actions[i].Land? && Late(worlds[i].shelf, actions[i].write)
  }

  /**
    In every schedule of overlapping calls the archive stays consistent until a write comes late:
    an inconsistent state always has such a write before it, made on a consistent one.
  */
  lemma {:induction false} BrokenShelfHasLateWrite(worlds: seq<World>, actions: seq<Action>, k: nat)
    requires Schedule(worlds, actions) && k <= |actions| && !ShelfOk(worlds[k].shelf)
    ensures exists i :: 0 <= i < k && CameLate(worlds, actions, i) && ShelfOk(worlds[i].shelf)
  {
    if k == 0 {
      assert ShelfOk(EMPTY_SHELF);
    } else if ShelfOk(worlds[k - 1].shelf) {
      WritesOkInSchedule(worlds, actions, k - 1);
      assert ActionAt(worlds, actions, k - 1);
      ActionKeepsOkIff(worlds[k - 1], actions[k - 1]);
      assert CameLate(worlds, actions, k - 1);
    } else {
      BrokenShelfHasLateWrite(worlds, actions, k - 1);
    }
  }

  /** So without a late write every reachable state is consistent. */
  lemma OkInEverySchedule(worlds: seq<World>, actions: seq<Action>, k: nat)
    requires Schedule(worlds, actions) && k <= |actions|
    requires forall i :: 0 <= i < k ==> !CameLate(worlds, actions, i)
    ensures ShelfOk(worlds[k].shelf)
  {
    if !ShelfOk(worlds[k].shelf) { BrokenShelfHasLateWrite(worlds, actions, k); }
  }

  // ---- a dismissal that crosses a publication ----

  const RAW := Doc("reference", "t", "", "c", [], [])
  const ASKED := CreateRequest(EMPTY_SHELF, "q")
  const FULFILLING := PublishOp(true, RAW, [], {}, None, Some("q"), "e")

  lemma ShortTextsStrip()
    ensures Strip("t") == "t" && Strip("c") == "c" && Strip("") == ""
  {
    assert LStrip("t") == "t" && LStrip("c") == "c";
  }

  lemma RawIsValid()
    ensures Validated(RAW).Ok?
  {
    ShortTextsStrip();
    assert "reference" in KINDS;
    assert Required("t", 200).Ok? && Required("c", 100_000).Ok?;
  }

  lemma PublicationFulfills(a: Shelf)
    requires a == ASKED
    ensures var after := Perform(a, FULFILLING); "q" in after.requests && after.requests["q"].status == Fulfilled
  {
    RawIsValid();
    assert CleanList([], 100, 64) == [] by { assert CleanTexts([], 64) == []; }
    assert PublishGate(a, true, RAW, [], {}, None, Some("q")).None?;
  }

  lemma ShelfOkBefore(a: Shelf)
    requires a == ASKED
    ensures ShelfOk(Perform(a, FULFILLING))
  {
    assert ShelfOk(EMPTY_SHELF);
    StepKeepsShelfOk(EMPTY_SHELF, CreateRequestOp("q"));
    StepKeepsShelfOk(a, FULFILLING);
  }

  ghost predicate ReachedWorld(d: World) {
    exists worlds: seq<World>, actions :: Schedule(worlds, actions) && worlds[|actions|] == d
  }

  lemma ReachedAction(d: World, a: Action)
    requires ReachedWorld(d) && Enabled(d, a)
    ensures ReachedWorld(Next(d, a))
  {
    var worlds: seq<World>, actions :| Schedule(worlds, actions) && worlds[|actions|] == d;
    var worlds', actions' := worlds + [Next(d, a)], actions + [a];
    forall k | 0 <= k < |actions'| ensures ActionAt(worlds', actions', k) {
      if k < |actions| { assert ActionAt(worlds, actions, k); }
    }
    assert Schedule(worlds', actions') && worlds'[|actions'|] == Next(d, a);
  }

  lemma AskedReached(a: Shelf)
    requires a == ASKED
    ensures ReachedWorld(World(a, multiset{StatusWrite("q", Dismissed)}))
  {
    var start := World(EMPTY_SHELF, multiset{});
    var worlds: seq<World>, none: seq<Action> := [start], [];
    assert Schedule(worlds, none) && worlds[|none|] == start;
    ReachedAction(start, Whole(CreateRequestOp("q")));
    assert Checked(a, UpdateRequestOp("q", Dismissed)) == Ok(Some(StatusWrite("q", Dismissed)));
    ReachedAction(World(a, multiset{}), Check(UpdateRequestOp("q", Dismissed)));
  }

  lemma PublishedReached(a: Shelf, w: Write)
    requires a == ASKED && w == StatusWrite("q", Dismissed)
    ensures ReachedWorld(World(Perform(a, FULFILLING), multiset{w}))
  {
    AskedReached(a);
    var d := World(a, multiset{w});
    assert !TwoSteps(FULFILLING) && NewId(a, FULFILLING);
    ReachedAction(d, Whole(FULFILLING));
  }

  /**
    A request is being dismissed while an entry is published for it: check, publication, write.
    It ends dismissed and still points at the entry that fulfilled it.
  */
  lemma DismissalCrossesPublication(a: Shelf, w: Write)
    requires a == ASKED && w == StatusWrite("q", Dismissed)
    ensures ReachedWorld(World(Perform(a, FULFILLING), multiset{w}))
    ensures Late(Perform(a, FULFILLING), w) && ShelfOk(Perform(a, FULFILLING))
        && !ShelfOk(Written(Perform(a, FULFILLING), w))
  {
    PublishedReached(a, w);
    PublicationFulfills(a);
    ShelfOkBefore(a);
    WrittenKeepsOkIff(Perform(a, FULFILLING), w);
  }

  // ---- a published note rewritten by its team ----

  const SAVING := NoteOp(true, "t", RAW, "e")
  const PUBLISHING := PublishOp(true, RAW, [], {}, Some("e"), None, "f")

  lemma NoteIsSaved(a: Shelf)
    requires a == Perform(EMPTY_SHELF, SAVING)
    ensures a.origins == [Origin("e", TEAM_NOTE, "t", None)] && "e" in a.entries && ShelfOk(a)
    ensures NoteGate(true, "t", RAW).None? && Required("t", 128) == Ok("t")
  {
    ShortTextsStrip();
    RawIsValid();
    assert ShelfOk(EMPTY_SHELF);
    StepKeepsShelfOk(EMPTY_SHELF, SAVING);
    assert OriginFor([], TEAM_NOTE, "t").None?;
    assert a == NewNoteShelf(EMPTY_SHELF, Validated(RAW).value, "e", "t");
  }

  lemma NoteIsPublished(a: Shelf)
    requires "e" in a.entries
    ensures Validated(RAW).Ok?
    ensures Perform(a, PUBLISHING) == PublishedShelf(a, "e", Validated(RAW).value, CleanList([], 100, 64), None)
  {
    RawIsValid();
    assert CleanList([], 100, 64) == [] by { assert CleanTexts([], 64) == []; }
    assert PublishGate(a, true, RAW, [], {}, Some("e"), None).None?;
    PublishResult(a, true, RAW, [], {}, Some("e"), None, "f");
  }

  lemma PublishedByUser(a: Shelf, doc: Doc, personas: seq<string>, b: Shelf)
    requires ShelfOk(a) && b == PublishedShelf(a, "e", doc, personas, None)
    ensures b.origins == a.origins && "e" in b.entries && b.entries["e"].status == Published && LastByUser(b, "e")
        && ShelfOk(b)
  {
    PublishedShelfOk(a, "e", doc, personas, None);
    WroteAuthor(a, b, "e", doc, Published, true, "e");
  }

  /** A team saves a note, the user publishes it, and the team saves it again: published text the user has not seen. */
  lemma NoteIsRewritten(a: Shelf, b: Shelf)
    requires a == Perform(EMPTY_SHELF, SAVING) && b == Perform(a, PUBLISHING)
    ensures ReachedWorld(World(b, multiset{})) && LastByUser(b, "e")
    ensures Validated(RAW).Ok? && RewrittenByTeam(Perform(b, NoteOp(true, "t", RAW, "g")), "e", Validated(RAW).value)
  {
    NoteIsSaved(a);
    NoteIsPublished(a);
    PublishedByUser(a, Validated(RAW).value, CleanList([], 100, 64), b);
    NoteReached(a);
    Rewrites(b);
  }

  lemma {:induction false} Rewrites(b: Shelf)
    requires RowsHaveEntries(b) && OriginsUnique(b) && b.origins == [Origin("e", TEAM_NOTE, "t", None)]
    requires "e" in b.entries && b.entries["e"].status == Published
    requires NoteGate(true, "t", RAW).None? && Required("t", 128) == Ok("t")
    ensures Validated(RAW).Ok? && RewrittenByTeam(Perform(b, NoteOp(true, "t", RAW, "g")), "e", Validated(RAW).value)
  {
    TeamRewritesPublished(b, "t", RAW, "g", 0);
    var after := RevisedNoteShelf(b, Validated(RAW).value, "e");
    assert SaveTeamNote(b, true, "t", RAW, "g") == Ok((after, "e"));
    assert Perform(b, NoteOp(true, "t", RAW, "g")) == after;
  }

  lemma {:induction false} NoteReached(a: Shelf)
    requires a == Perform(EMPTY_SHELF, SAVING)
    ensures ReachedWorld(World(Perform(a, PUBLISHING), multiset{}))
  {
    var start := World(EMPTY_SHELF, multiset{});
    var worlds: seq<World>, none: seq<Action> := [start], [];
    assert Schedule(worlds, none) && worlds[|none|] == start;
    assert NewId(EMPTY_SHELF, SAVING) && !TwoSteps(SAVING) && !TwoSteps(PUBLISHING);
    ReachedAction(start, Whole(SAVING));
    NoteIsSaved(a);
    OnlyNoteIsThere(a);
    ReachedAction(World(a, multiset{}), Whole(PUBLISHING));
  }

  lemma OnlyNoteIsThere(a: Shelf)
    requires a == Perform(EMPTY_SHELF, SAVING)
    ensures "f" !in a.entries
  {
    assert a == EMPTY_SHELF || a.entries.Keys <= {"e"};
  }
}
