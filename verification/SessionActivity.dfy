/**
  Session activity: events numbered per session, listed in order, paged from the newest back.
*/
module SessionActivity {
  import opened Outcomes
  import opened Paging
  import opened Cursors
  import opened CursorTexts
  import opened Sequences

  datatype Activity = Activity(session: string, number: int, kind: string, payload: string)

  function ActivityKey(a: Activity): Key { Seq(a.number) }

  function InSession(session: string): Activity -> bool { (a: Activity) => a.session == session }

  // The session's events in insertion order.
  function EventsOf(table: seq<Activity>, session: string): seq<Activity> {
    if table == [] then []
    else
      var last := table[|table| - 1];
      EventsOf(table[..|table| - 1], session) + if last.session == session then [last] else []
  }

  function Without(table: seq<Activity>, session: string): seq<Activity> {
    if table == [] then []
    else
      var last := table[|table| - 1];
      Without(table[..|table| - 1], session) + if last.session == session then [] else [last]
  }

  // The k-th event of every session has number k.
  ghost predicate NumberedInOrder(table: seq<Activity>) {
    forall session, k :: 0 <= k < |EventsOf(table, session)| ==> EventsOf(table, session)[k].number == k + 1
  }

  function MaxNumber(table: seq<Activity>, session: string): int {
    if table == [] then 0
    else
      var last, rest := table[|table| - 1], MaxNumber(table[..|table| - 1], session);
      if last.session == session && last.number > rest then last.number else rest
  }

  function ReverseAll<T>(pages: seq<seq<T>>): seq<seq<T>> {
    seq(|pages|, i requires 0 <= i < |pages| => Reverse(pages[i]))
  }

  // ---- numbering ----

  lemma {:induction false} MaxIsCount(table: seq<Activity>, session: string)
    requires forall k :: 0 <= k < |EventsOf(table, session)| ==> EventsOf(table, session)[k].number == k + 1
    ensures MaxNumber(table, session) == |EventsOf(table, session)|
  {
    if table != [] {
      var init, last := table[..|table| - 1], table[|table| - 1];
      var before, after := EventsOf(init, session), EventsOf(table, session);
      assert forall k :: 0 <= k < |before| ==> before[k] == after[k];
      MaxIsCount(init, session);
      if last.session == session {
        assert after[|before|] == last;
      }
    }
  }

  lemma RecordKeepsNumbers(table: seq<Activity>, added: Activity)
    requires NumberedInOrder(table) && added.number == MaxNumber(table, added.session) + 1
    ensures NumberedInOrder(table + [added])
  {
    var after := table + [added];
    assert after[..|after| - 1] == table;
    MaxIsCount(table, added.session);
    forall session ensures EventsOf(after, session) == EventsOf(table, session) + if added.session == session then
        [added] else [] {
    }
  }

  lemma {:induction false} WithoutKeepsOthers(table: seq<Activity>, gone: string, session: string)
    ensures EventsOf(Without(table, gone), session) == if session == gone then [] else EventsOf(table, session)
  {
    if table != [] {
      var init, last := table[..|table| - 1], table[|table| - 1];
      WithoutKeepsOthers(init, gone, session);
      var kept := Without(table, gone);
      if last.session == gone {
        assert kept == Without(init, gone);
      } else {
        assert kept == Without(init, gone) + [last];
        assert kept[..|kept| - 1] == Without(init, gone) && kept[|kept| - 1] == last;
      }
    }
  }

  // ---- numbers as keys ----

  lemma {:induction false} EventIsListed(table: seq<Activity>, session: string, i: nat)
    requires i < |table| && table[i].session == session
    ensures |EventsOf(table[..i], session)| < |EventsOf(table, session)|
    ensures EventsOf(table, session)[|EventsOf(table[..i], session)|] == table[i]
  {
    var last := |table| - 1;
    if i < last {
      EventIsListed(table[..last], session, i);
      assert table[..last][..i] == table[..i];
    }
  }

  lemma {:induction false} CountsGrow(table: seq<Activity>, session: string, i: nat, j: nat)
    requires i < j <= |table| && table[i].session == session
    ensures |EventsOf(table[..i], session)| < |EventsOf(table[..j], session)|
    decreases j
  {
    assert table[..j][..j - 1] == table[..j - 1] && table[..j][j - 1] == table[j - 1];
    if i < j - 1 {
      CountsGrow(table, session, i, j - 1);
    }
  }

  // Later events of a session have higher numbers.
  lemma NumbersAscend(table: seq<Activity>, session: string, i: nat, j: nat)
    requires NumberedInOrder(table) && i < j < |table| && table[i].session == table[j].session == session
    ensures table[i].number < table[j].number
  {
    EventIsListed(table, session, i);
    EventIsListed(table, session, j);
    CountsGrow(table, session, i, j);
  }

  lemma SessionKeysDistinct(table: seq<Activity>, session: string)
    requires NumberedInOrder(table)
    ensures DistinctKeys(table, ActivityKey, InSession(session))
  {
    forall i, j | 0 <= i < j < |table| && table[i].session == session && table[j].session == session
      ensures ActivityKey(table[i]) != ActivityKey(table[j])
    {
      NumbersAscend(table, session, i, j);
    }
  }

  lemma RecordingGrowsAbove(table: seq<Activity>, added: seq<Activity>, session: string)
    requires NumberedInOrder(table + added)
    ensures GrowsAbove(table, table + added, ActivityKey, InSession(session))
  {
    var after := table + added;
    forall i, j | 0 <= i < |table| <= j < |after| && after[i].session == session && after[j].session == session
      ensures KeyLess(ActivityKey(after[i]), ActivityKey(after[j]))
    {
      NumbersAscend(after, session, i, j);
    }
  }

  // ---- the listing backwards ----

  lemma HighestIsPlacedFirst(x: Activity, rows: seq<Activity>)
    requires forall y :: y in rows ==> y.number < x.number
    ensures Place(x, rows, ActivityKey) == [x] + rows
  {
    assert rows != [] ==> rows[0] in rows;
  }

  lemma {:induction false} EventsHaveSession(table: seq<Activity>, session: string, x: Activity)
    requires x in EventsOf(table, session)
    ensures x in table && x.session == session
  {
    if table != [] {
      var init, last := table[..|table| - 1], table[|table| - 1];
      if x in EventsOf(init, session) {
        EventsHaveSession(init, session, x);
      }
    }
  }

  lemma PrefixNumbered(table: seq<Activity>)
    requires NumberedInOrder(table) && table != []
    ensures NumberedInOrder(table[..|table| - 1])
  {
    var init := table[..|table| - 1];
    forall session, k | 0 <= k < |EventsOf(init, session)| ensures EventsOf(init, session)[k].number == k + 1 {
      assert EventsOf(init, session)[k] == EventsOf(table, session)[k];
    }
  }

  // The unbounded select is the session's events, newest first.
  lemma {:induction false} ListingIsReverse(table: seq<Activity>, session: string)
    requires NumberedInOrder(table)
    ensures Listing(table, ActivityKey, InSession(session), None) == Reverse(EventsOf(table, session))
  {
    if table != [] {
      var init, last := table[..|table| - 1], table[|table| - 1];
      PrefixNumbered(table);
      ListingIsReverse(init, session);
      assert Wanted(last, ActivityKey, InSession(session), None) <==> last.session == session;
      if last.session == session {
        var before := EventsOf(init, session);
        ReverseHas(before);
        forall y | y in Reverse(before) ensures y.number < last.number {
          EventsHaveSession(init, session, y);
          var i :| 0 <= i < |init| && init[i] == y;
          assert table[i] == y;
          NumbersAscend(table, session, i, |table| - 1);
        }
        HighestIsPlacedFirst(last, Reverse(before));
        ReverseSnoc(before, last);
        assert EventsOf(table, session) == before + [last];
        assert Listing(table, ActivityKey, InSession(session), None)
            == Place(last, Listing(init, ActivityKey, InSession(session), None), ActivityKey);
      } else {
        assert EventsOf(table, session) == EventsOf(init, session);
        assert Listing(table, ActivityKey, InSession(session), None)
            == Listing(init, ActivityKey, InSession(session), None);
      }
    }
  }

  lemma {:induction false} ConcatSnoc<T>(pages: seq<seq<T>>, page: seq<T>)
    ensures Concat(pages + [page]) == Concat(pages) + page
  {
    if pages == [] {
      assert pages + [page] == [page] && [page][1..] == [];
    } else {
      assert (pages + [page])[0] == pages[0] && (pages + [page])[1..] == pages[1..] + [page];
      ConcatSnoc(pages[1..], page);
    }
  }

  // Pages shown oldest page first, each oldest event first, read as the reversed concatenation.
  lemma {:induction false} PagesReadForwards<T>(pages: seq<seq<T>>)
    ensures Concat(Reverse(ReverseAll(pages))) == Reverse(Concat(pages))
  {
    if pages != [] {
      var shown := ReverseAll(pages);
      PagesReadForwards(pages[1..]);
      assert shown[1..] == ReverseAll(pages[1..]) && shown[0] == Reverse(pages[0]);
      ConcatSnoc(Reverse(shown[1..]), shown[0]);
      ReverseConcat(pages[0], Concat(pages[1..]));
    }
  }

  /**
    Paging back through a session while more is recorded: put together, the pages are exactly
    the events listed at the first fetch, in order, each once.
  */
  lemma PagesAreTheList(tables: seq<seq<Activity>>, session: string, limit: int, pages: seq<seq<Activity>>)
    requires Walk(tables, ActivityKey, InSession(session), None, limit, 500, pages)
    requires forall k :: 0 <= k < |tables| ==> NumberedInOrder(tables[k])
    requires forall k :: 0 <= k < |tables| - 1 ==> tables[k] <= tables[k + 1]
    ensures Concat(Reverse(ReverseAll(pages))) == EventsOf(tables[0], session)
    ensures EventsOf(tables[0], session) != [] ==> forall k :: 0 <= k < |pages| ==> pages[k] != []
  {
    forall k | 0 <= k < |tables| ensures DistinctKeys(tables[k], ActivityKey, InSession(session)) {
      SessionKeysDistinct(tables[k], session);
    }
    forall k | 0 <= k < |tables| - 1 ensures GrowsAbove(tables[k], tables[k + 1], ActivityKey, InSession(session)) {
      assert tables[k + 1] == tables[k] + tables[k + 1][|tables[k]|..];
      RecordingGrowsAbove(tables[k], tables[k + 1][|tables[k]|..], session);
    }
    WalkListsAll(tables, ActivityKey, InSession(session), None, limit, 500, pages);
    ListingIsReverse(tables[0], session);
    PagesReadForwards(pages);
    ReverseTwice(EventsOf(tables[0], session));
  }

  /** The same by the cursor texts that FetchPage hands out and takes back. */
  lemma TextPagesAreTheList(
      loads: Loads, tables: seq<seq<Activity>>, session: string, limit: int, pages: seq<seq<Activity>>)
    requires forall n :: ReadsBack(loads, Seq(n))
    requires TextWalk(loads, tables, ActivityKey, InSession(session), true, "", limit, 500, pages)
    requires forall k :: 0 <= k < |tables| ==> NumberedInOrder(tables[k])
    requires forall k :: 0 <= k < |tables| - 1 ==> tables[k] <= tables[k + 1]
    ensures Concat(Reverse(ReverseAll(pages))) == EventsOf(tables[0], session)
    ensures EventsOf(tables[0], session) != [] ==> forall k :: 0 <= k < |pages| ==> pages[k] != []
  {
    forall k | 0 <= k < |tables|
      ensures DistinctKeys(tables[k], ActivityKey, InSession(session))
      ensures Keyed(loads, tables[k], ActivityKey, InSession(session), true)
    {
      SessionKeysDistinct(tables[k], session);
    }
    TextWalkIsWalk(loads, tables, ActivityKey, InSession(session), true, "", limit, 500, pages, None);
    PagesAreTheList(tables, session, limit, pages);
  }

  // ---- the service ----

  class SessionActivityService {
    var table: seq<Activity>

    ghost predicate Valid()
      reads this
    {
      NumberedInOrder(table)
    }

    constructor ()
      ensures Valid() && table == []
    {
      table := [];
    }

    // The new event continues its session's numbers; the other sessions are untouched.
    method Record(session: string, kind: string, payload: string) returns (event: Activity)
      requires Valid()
      modifies this
      ensures Valid() && table == old(table) + [event]
      ensures event == Activity(session, |EventsOf(old(table), session)| + 1, kind, payload)
    {
      MaxIsCount(table, session);
      event := Activity(session, MaxNumber(table, session) + 1, kind, payload);
      RecordKeepsNumbers(table, event);
      table := table + [event];
    }

    method DeleteSession(session: string)
      requires Valid()
      modifies this
      ensures Valid()
      ensures forall s :: EventsOf(table, s) == if s == session then [] else EventsOf(old(table), s)
    {
      forall s ensures EventsOf(Without(table, session), s) == if s == session then [] else EventsOf(table, s) {
        WithoutKeepsOthers(table, session, s);
      }
      table := Without(table, session);
    }

    // One page, oldest event first, and the cursor text for the page before it.
    method FetchPage(loads: Loads, session: string, limit: int, cursor: string)
      returns (r: Result<(seq<Activity>, Option<string>), CursorError>)
      requires Valid()
      ensures var fetched := FetchText(loads, table, ActivityKey, InSession(session), true, cursor, limit, 500);
        r == if fetched.Err? then Err(fetched.error) else Ok((Reverse(fetched.value.0), fetched.value.1))
    {
      var from := None;
      if cursor != "" {
        var key := NumberKey(loads, cursor);
        if key.Err? {
          return Err(InvalidCursor);
        }
        from := Some(key.value);
      }
      var page := Page(table, ActivityKey, InSession(session), from, limit, 500);
      return Ok((Reverse(page.rows), if page.next.None? then None else Some(CursorOf(page.next.value))));
    }
  }
}
