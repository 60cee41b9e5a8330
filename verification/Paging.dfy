/**
  Keyset paging, as session activity, jobs and job events do it: rows in descending key order,
  strictly below the cursor, one more than the limit, and the last returned key as next cursor.
*/
module Paging {
  import opened Outcomes
  import opened Timestamps

  // A job or job event is keyed by (created_at, id), an activity event by its number.
  datatype Key = Seq(number: int) | Stamp(created: string, id: string)

  predicate KeyLess(a: Key, b: Key) {
    match (a, b)
    case (Seq(m), Seq(n)) => m < n
    case (Stamp(c, i), Stamp(d, j)) => Less(c, d) || (c == d && Less(i, j))
    case (Seq(_), Stamp(_, _)) => true
    case (Stamp(_, _), Seq(_)) => false
  }

  // ---- the order of keys ----

  lemma {:induction false} LessTransitive(a: string, b: string, c: string)
    requires Less(a, b) && Less(b, c)
    ensures Less(a, c)
  {
    if a != "" && a[0] == b[0] && b[0] == c[0] {
      LessTransitive(a[1..], b[1..], c[1..]);
    }
  }

  lemma {:induction false} LessTotal(a: string, b: string)
    ensures a == b || Less(a, b) || Less(b, a)
    ensures !(Less(a, b) && Less(b, a)) && !Less(a, a)
  {
    if a != "" && b != "" && a[0] == b[0] {
      LessTotal(a[1..], b[1..]);
      assert a[1..] == b[1..] ==> a == [a[0]] + a[1..] == [b[0]] + b[1..] == b;
    }
    NotLessItself(a);
  }

  lemma KeyTransitive(a: Key, b: Key, c: Key)
    requires KeyLess(a, b) && KeyLess(b, c)
    ensures KeyLess(a, c)
  {
    if a.Stamp? && b.Stamp? && c.Stamp? {
      if Less(a.created, b.created) && Less(b.created, c.created) {
        LessTransitive(a.created, b.created, c.created);
      } else if a.created == b.created == c.created {
        LessTransitive(a.id, b.id, c.id);
      }
    }
  }

  lemma KeyTotal(a: Key, b: Key)
    ensures a == b || KeyLess(a, b) || KeyLess(b, a)
    ensures !(KeyLess(a, b) && KeyLess(b, a)) && !KeyLess(a, a)
  {
    if a.Stamp? && b.Stamp? {
      LessTotal(a.created, b.created);
      LessTotal(a.id, b.id);
    }
    if a.Stamp? {
      LessTotal(a.created, a.created);
      LessTotal(a.id, a.id);
    }
  }

  // ---- the select ----

  predicate Wanted<T(!new)>(x: T, key: T -> Key, keep: T -> bool, cursor: Option<Key>) {
    keep(x) && (cursor.None? || KeyLess(key(x), cursor.value))
  }

  function Place<T>(x: T, rows: seq<T>, key: T -> Key): seq<T> {
    if rows == [] || KeyLess(key(rows[0]), key(x)) then [x] + rows else [rows[0]] + Place(x, rows[1..], key)
  }

  // The wanted rows, highest key first.
  function Listing<T(!new)>(table: seq<T>, key: T -> Key, keep: T -> bool, cursor: Option<Key>): seq<T> {
    if table == [] then []
    else
      var last := |table| - 1;
      var rest := Listing(table[..last], key, keep, cursor);
      if Wanted(table[last], key, keep, cursor) then Place(table[last], rest, key) else rest
  }

  function First<T>(rows: seq<T>, n: nat): seq<T> {
    if n <= |rows| then rows[..n] else rows
  }

  function Limit(limit: int, cap: int): int {
    if limit < 1 || cap < 1 then 1 else if limit > cap then cap else limit
  }

  // The limit asked for, brought into 1..cap; never less than one row.
  predicate Clamps(n: int, limit: int, cap: int) {
    n >= 1 && (n > cap ==> n == 1) && (n < limit ==> n >= cap) && (n > limit ==> n == 1)
  }

  lemma {:induction false} LimitClamps(limit: int, cap: int, n: int)
    ensures Clamps(n, limit, cap) <==> n == Limit(limit, cap)
  {
  }

  datatype PageResult<T> = PageResult(rows: seq<T>, next: Option<Key>)

  function Page<T(!new)>(
    table: seq<T>, key: T -> Key, keep: T -> bool, cursor: Option<Key>, limit: int, cap: int
  ): PageResult<T> {
    var n := Limit(limit, cap);
    var rows := First(Listing(table, key, keep, cursor), n + 1);
    var selected := First(rows, n);
    PageResult(selected, if |rows| > n && selected != [] then Some(key(selected[|selected| - 1])) else None)
  }

  // ---- the listing is the sorted set of wanted rows ----

  ghost predicate Descending<T(!new)>(rows: seq<T>, key: T -> Key) {
    forall i, j :: 0 <= i < j < |rows| ==> KeyLess(key(rows[j]), key(rows[i]))
  }

  ghost predicate DistinctKeys<T(!new)>(table: seq<T>, key: T -> Key, keep: T -> bool) {
    forall i, j :: 0 <= i < j < |table| && keep(table[i]) && keep(table[j]) ==> key(table[i]) != key(table[j])
  }

  lemma {:induction false} PlaceKeepsOrder<T(!new)>(x: T, rows: seq<T>, key: T -> Key)
    requires Descending(rows, key) && forall y :: y in rows ==> key(y) != key(x)
    ensures Descending(Place(x, rows, key), key)
    ensures forall y :: y in Place(x, rows, key) <==> y == x || y in rows
  {
    if rows != [] {
      var head, tail := rows[0], rows[1..];
      KeyTotal(key(head), key(x));
      assert rows == [head] + tail;
      if KeyLess(key(head), key(x)) {
        forall j | 0 <= j < |rows| ensures KeyLess(key(rows[j]), key(x)) {
          if j > 0 { KeyTransitive(key(rows[j]), key(head), key(x)); }
        }
      } else {
        assert forall j :: 0 <= j < |tail| ==> tail[j] == rows[j + 1];
        PlaceKeepsOrder(x, tail, key);
        var placed := Place(x, tail, key);
        forall j | 0 <= j < |placed| ensures KeyLess(key(placed[j]), key(head)) {
          assert placed[j] in placed;
        }
      }
    }
  }

  lemma {:induction false} ListingIsSorted<T(!new)>(table: seq<T>, key: T -> Key, keep: T -> bool, cursor: Option<Key>)
    requires DistinctKeys(table, key, keep)
    ensures Descending(Listing(table, key, keep, cursor), key)
    ensures forall x :: x in Listing(table, key, keep, cursor) <==> x in table && Wanted(x, key, keep, cursor)
  {
    if table != [] {
      var init, x := table[..|table| - 1], table[|table| - 1];
      var rest := Listing(init, key, keep, cursor);
      ListingIsSorted(init, key, keep, cursor);
      assert table == init + [x];
      if Wanted(x, key, keep, cursor) {
        forall y | y in rest ensures key(y) != key(x) {
          var i :| 0 <= i < |init| && init[i] == y;
          assert table[i] == y;
        }
        PlaceKeepsOrder(x, rest, key);
      }
    }
  }

  // A descending sequence is determined by its elements.
  lemma {:induction false} DescendingUnique<T(!new)>(a: seq<T>, b: seq<T>, key: T -> Key)
    requires Descending(a, key) && Descending(b, key)
    requires forall x :: x in a <==> x in b
    ensures a == b
  {
    assert b == [] || b[0] in b;
    if a != [] {
      assert a[0] in b;
      SameHighest(a, b, key);
      var a', b' := a[1..], b[1..];
      assert a == [a[0]] + a' && b == [b[0]] + b';
      forall x ensures x in a' <==> x in b' {
        HeadNotInTail(a, key);
        HeadNotInTail(b, key);
        assert x in a <==> x in b;
      }
      assert forall i :: 0 <= i < |a'| ==> a'[i] == a[i + 1];
      assert forall i :: 0 <= i < |b'| ==> b'[i] == b[i + 1];
      DescendingUnique(a', b', key);
    }
  }

  lemma HeadNotInTail<T(!new)>(rows: seq<T>, key: T -> Key)
    requires Descending(rows, key) && rows != []
    ensures rows[0] !in rows[1..]
  {
    if rows[0] in rows[1..] {
      var j :| 0 <= j < |rows[1..]| && rows[1..][j] == rows[0];
      assert KeyLess(key(rows[j + 1]), key(rows[0]));
      KeyTotal(key(rows[0]), key(rows[0]));
    }
  }

  lemma SameHighest<T(!new)>(a: seq<T>, b: seq<T>, key: T -> Key)
    requires Descending(a, key) && Descending(b, key) && a != [] && b != []
    requires forall x :: x in a <==> x in b
    ensures a[0] == b[0]
  {
    assert a[0] in b && b[0] in a;
    var j :| 0 <= j < |b| && b[j] == a[0];
    var i :| 0 <= i < |a| && a[i] == b[0];
    if i > 0 && j > 0 {
      KeyTotal(key(a[0]), key(b[0]));
    }
  }

  // Below the key of its k-th row lies exactly the rest of the listing.
  lemma ListingBelow<T(!new)>(table: seq<T>, key: T -> Key, keep: T -> bool, cursor: Option<Key>, k: nat)
    requires DistinctKeys(table, key, keep) && k < |Listing(table, key, keep, cursor)|
    ensures Listing(table, key, keep, Some(key(Listing(table, key, keep, cursor)[k])))
      == Listing(table, key, keep, cursor)[k + 1..]
  {
    var all := Listing(table, key, keep, cursor);
    var below := Some(key(all[k]));
    var rest := Listing(table, key, keep, below);
    ListingIsSorted(table, key, keep, cursor);
    ListingIsSorted(table, key, keep, below);
    var suffix := all[k + 1..];
    assert forall j :: 0 <= j < |suffix| ==> suffix[j] == all[j + k + 1] && all[j + k + 1] in all;
    assert all[k] in all;
    forall x ensures x in rest <==> x in suffix {
      if x in rest {
        if cursor.Some? { KeyTransitive(key(x), below.value, cursor.value); }
        assert x in all;
        var j :| 0 <= j < |all| && all[j] == x;
        KeyTotal(key(x), below.value);
        assert j > k ==> suffix[j - k - 1] == x;
      }
    }
    DescendingUnique(rest, suffix, key);
  }

  // ---- following the cursors ----

  /**
    One fetch after another, each on the table as it is by then, until no cursor is returned.
  */
  ghost predicate Walk<T(!new)>(
    tables: seq<seq<T>>, key: T -> Key, keep: T -> bool, cursor: Option<Key>, limit: int, cap: int, pages: seq<seq<T>>)
    decreases |pages|
  {
    && |tables| == |pages| >= 1
    && var page := Page(tables[0], key, keep, cursor, limit, cap);
      && pages[0] == page.rows
      && (if page.next.None? then |pages| == 1
          else |pages| > 1 && Walk(tables[1..], key, keep, page.next, limit, cap, pages[1..]))
  }

  // Rows are only added, above every wanted row there is.
  ghost predicate GrowsAbove<T(!new)>(before: seq<T>, after: seq<T>, key: T -> Key, keep: T -> bool) {
    && |before| <= |after| && after[..|before|] == before
    && forall i, j :: 0 <= i < |before| <= j < |after| && keep(after[i]) && keep(after[j]) ==>
        KeyLess(key(after[i]), key(after[j]))
  }

  lemma GrowthIsNotListed<T(!new)>(before: seq<T>, after: seq<T>, key: T -> Key, keep: T -> bool, x: T)
    requires DistinctKeys(before, key, keep) && DistinctKeys(after, key, keep) && GrowsAbove(before, after, key, keep)
    requires x in before && keep(x)
    ensures Listing(after, key, keep, Some(key(x))) == Listing(before, key, keep, Some(key(x)))
  {
    var cursor := Some(key(x));
    ListingIsSorted(before, key, keep, cursor);
    ListingIsSorted(after, key, keep, cursor);
    var i :| 0 <= i < |before| && before[i] == x;
    assert forall j :: 0 <= j < |before| ==> after[j] == before[j];
    forall y ensures y in Listing(after, key, keep, cursor) <==> y in Listing(before, key, keep, cursor) {
      if y in after && Wanted(y, key, keep, cursor) {
        var j :| 0 <= j < |after| && after[j] == y;
        KeyTotal(key(x), key(y));
        assert after[i] == x;
        assert j < |before|;
      } else if y in before {
        var j :| 0 <= j < |before| && before[j] == y;
        assert after[j] == y;
      }
    }
    DescendingUnique(Listing(after, key, keep, cursor), Listing(before, key, keep, cursor), key);
  }

  function Concat<T>(pages: seq<seq<T>>): seq<T> {
    if pages == [] then [] else pages[0] + Concat(pages[1..])
  }

  // A page with a cursor holds the first rows of the listing, and the cursor is the last one's key.
  lemma PageIsPrefix<T(!new)>(
      table: seq<T>, key: T -> Key, keep: T -> bool, cursor: Option<Key>, limit: int, cap: int)
    requires Page(table, key, keep, cursor, limit, cap).next.Some?
    ensures var page, all, n := Page(table, key, keep, cursor, limit, cap), Listing(table, key, keep, cursor),
        Limit(limit, cap);
      n < |all| && page.rows == all[..n] && page.next == Some(key(all[n - 1]))
  {
    var all, n := Listing(table, key, keep, cursor), Limit(limit, cap);
    assert First(First(all, n + 1), n) == all[..n];
  }

  // After a page with a cursor, the next fetch lists exactly what is left.
  lemma NextListsRest<T(!new)>(
      table: seq<T>, later: seq<T>, key: T -> Key, keep: T -> bool, cursor: Option<Key>, limit: int, cap: int)
    requires DistinctKeys(table, key, keep) && DistinctKeys(later, key, keep) && GrowsAbove(table, later, key, keep)
    requires Page(table, key, keep, cursor, limit, cap).next.Some?
    ensures var page, all := Page(table, key, keep, cursor, limit, cap), Listing(table, key, keep, cursor);
      page.rows + Listing(later, key, keep, page.next) == all && page.rows != []
  {
    PageIsPrefix(table, key, keep, cursor, limit, cap);
    var all, n := Listing(table, key, keep, cursor), Limit(limit, cap);
    RestAfter(table, later, key, keep, cursor, n);
    assert all == all[..n] + all[n..];
  }

  lemma RestAfter<T(!new)>(
      table: seq<T>, later: seq<T>, key: T -> Key, keep: T -> bool, cursor: Option<Key>, n: nat)
    requires DistinctKeys(table, key, keep) && DistinctKeys(later, key, keep) && GrowsAbove(table, later, key, keep)
    requires 1 <= n <= |Listing(table, key, keep, cursor)|
    ensures Listing(later, key, keep, Some(key(Listing(table, key, keep, cursor)[n - 1])))
        == Listing(table, key, keep, cursor)[n..]
  {
    var x := Listing(table, key, keep, cursor)[n - 1];
    ListingIsSorted(table, key, keep, cursor);
    assert x in Listing(table, key, keep, cursor);
    ListingBelow(table, key, keep, cursor, n - 1);
    GrowthIsNotListed(table, later, key, keep, x);
  }

  /**
    Following the cursors to the end gives the rows listed at the first fetch, each once and in
    order, for any limit and however many rows are added above in between. Every page but the last
    is as long as the limit, brought into 1..cap, and none is empty unless there is nothing to list.
  */
  lemma {:induction false} WalkListsAll<T(!new)>(
      tables: seq<seq<T>>, key: T -> Key, keep: T -> bool, cursor: Option<Key>, limit: int, cap: int,
          pages: seq<seq<T>>)
    requires Walk(tables, key, keep, cursor, limit, cap, pages)
    requires forall k :: 0 <= k < |tables| ==> DistinctKeys(tables[k], key, keep)
    requires forall k :: 0 <= k < |tables| - 1 ==> GrowsAbove(tables[k], tables[k + 1], key, keep)
    ensures Concat(pages) == Listing(tables[0], key, keep, cursor)
    ensures forall k :: 0 <= k < |pages| ==> |pages[k]| <= Limit(limit, cap)
    ensures forall k :: 0 <= k < |pages| - 1 ==> Clamps(|pages[k]|, limit, cap)
    ensures pages[0] == [] ==> |pages| == 1 && Listing(tables[0], key, keep, cursor) == []
    ensures forall k :: 1 <= k < |pages| ==> pages[k] != []
    decreases |pages|
  {
    var page := Page(tables[0], key, keep, cursor, limit, cap);
    LimitClamps(limit, cap, Limit(limit, cap));
    if page.next.None? {
      assert pages[1..] == [];
    } else {
      PageIsPrefix(tables[0], key, keep, cursor, limit, cap);
      assert GrowsAbove(tables[0], tables[0 + 1], key, keep);
      NextListsRest(tables[0], tables[1], key, keep, cursor, limit, cap);
      NextIsNotEmpty(tables[0], tables[1], key, keep, cursor, limit, cap);
      assert forall k :: 0 <= k < |tables[1..]| ==> tables[1..][k] == tables[k + 1];
      WalkListsAll(tables[1..], key, keep, page.next, limit, cap, pages[1..]);
      assert forall k :: 1 <= k < |pages| ==> pages[k] == pages[1..][k - 1];
      assert |pages[0]| == Limit(limit, cap);
    }
  }

  lemma NextIsNotEmpty<T(!new)>(
      table: seq<T>, later: seq<T>, key: T -> Key, keep: T -> bool, cursor: Option<Key>, limit: int, cap: int)
    requires DistinctKeys(table, key, keep) && DistinctKeys(later, key, keep) && GrowsAbove(table, later, key, keep)
    requires Page(table, key, keep, cursor, limit, cap).next.Some?
    ensures Listing(later, key, keep, Page(table, key, keep, cursor, limit, cap).next) != []
  {
    NextListsRest(table, later, key, keep, cursor, limit, cap);
    var page, all := Page(table, key, keep, cursor, limit, cap), Listing(table, key, keep, cursor);
    assert |page.rows| < |all|;
  }

  // Following the cursors ends.
  lemma {:induction false} WalkEnds<T(!new)>(
      table: seq<T>, key: T -> Key, keep: T -> bool, cursor: Option<Key>, limit: int, cap: int
    ) returns (pages: seq<seq<T>>)
    requires DistinctKeys(table, key, keep)
    ensures Walk(seq(|pages|, _ => table), key, keep, cursor, limit, cap, pages)
    decreases |Listing(table, key, keep, cursor)|
  {
    var page := Page(table, key, keep, cursor, limit, cap);
    var n := Limit(limit, cap);
    if page.next.None? {
      pages := [page.rows];
    } else {
      ListingBelow(table, key, keep, cursor, n - 1);
      var rest := WalkEnds(table, key, keep, page.next, limit, cap);
      pages := [page.rows] + rest;
      assert pages[1..] == rest;
      assert seq(|pages|, _ => table)[1..] == seq(|rest|, _ => table);
    }
  }
}
