/**
  Cursors as clients see them: the key of the last row as a JSON list of ASCII text in base64url,
  handed back for the next page. Following the texts is following the keys, as long as each text
  stays within the length the decoder accepts. Reading the JSON back is a parameter.
*/
module CursorTexts {
  import opened Outcomes
  import opened Strings
  import opened Timestamps
  import opened Paging
  import opened Cursors

  // ---- json.dumps with ensure_ascii ----

  predicate Ascii(text: string) { forall i :: 0 <= i < |text| ==> text[i] as int < 128 }

  function HexDigit(n: nat): (c: char)
    requires n < 16
    ensures c as int < 128
  {
    if n < 10 then '0' + n as char else 'a' + (n - 10) as char
  }

  // A UTF-16 code unit, escaped.
  function Unit(n: nat): (text: string)
    requires n < 0x1_0000
    ensures |text| == 6 && Ascii(text)
  {
    ['\\', 'u', HexDigit(n / 4096), HexDigit(n / 256 % 16), HexDigit(n / 16 % 16), HexDigit(n % 16)]
  }

  predicate Printable(c: char) { ' ' <= c <= '~' && c != '"' && c != '\\' }

  function Escaped(c: char): (text: string)
    ensures Ascii(text) && 1 <= |text| <= 12
    ensures Printable(c) ==> |text| == 1
    ensures c > '~' ==> |text| >= 6
  {
    var n := c as int;
    if Printable(c) then [c]
    else if c == '"' || c == '\\' then ['\\', c]
    else if c == '\n' then "\\n"
    else if c == '\r' then "\\r"
    else if c == '\t' then "\\t"
    else if n == 8 then "\\b"
    else if n == 12 then "\\f"
    else if n < 0x1_0000 then Unit(n)
    else Unit(0xd800 + (n - 0x1_0000) / 0x400) + Unit(0xdc00 + (n - 0x1_0000) % 0x400)
  }

  function Escape(w: string): (text: string)
    ensures Ascii(text)
  {
    if w == "" then "" else Escape(w[..|w| - 1]) + Escaped(w[|w| - 1])
  }

  lemma DecimalIsAscii(n: nat)
    ensures Ascii(Decimal(n))
  {
    DecimalReadsBack(n);
  }

  function ScalarText(v: Scalar): (text: string)
    ensures Ascii(text) && text != ""
  {
    match v
    case Number(n) =>
      DecimalIsAscii(if n < 0 then -n else n);
      if n < 0 then "-" + Decimal(-n) else Decimal(n)
    case Words(w) => "\"" + Escape(w) + "\""
    case Neither => "null"
  }

  function ItemsText(values: seq<Scalar>): (text: string)
    ensures Ascii(text)
  {
    if values == [] then ""
    else if |values| == 1 then ScalarText(values[0])
    else ScalarText(values[0]) + "," + ItemsText(values[1..])
  }

  function BytesOf(text: string): (bytes: seq<Byte>)
    requires Ascii(text)
    ensures |bytes| == |text|
  {
    seq(|text|, i requires 0 <= i < |text| => text[i] as int as Byte)
  }

  function Dumps(values: seq<Scalar>): seq<Byte> { BytesOf("[" + ItemsText(values) + "]") }

  predicate AllPrintable(w: string) { forall i :: 0 <= i < |w| ==> Printable(w[i]) }

  lemma {:induction false} PrintableStays(w: string)
    requires AllPrintable(w)
    ensures Escape(w) == w
  {
    if w != "" {
      PrintableStays(w[..|w| - 1]);
    }
  }

  // A cursor holds a list of one number, or of two quoted texts, without blanks.
  lemma {:induction false} DumpedNumber(n: int)
    ensures ItemsText(KeyValues(Seq(n))) == if n < 0 then "-" + Decimal(-n) else Decimal(n)
  {
  }

  lemma {:induction false} DumpedStamp(created: string, id: string)
    requires AllPrintable(created) && AllPrintable(id)
    ensures ItemsText(KeyValues(Stamp(created, id))) == ("\"" + created + "\"") + "," + ("\"" + id + "\"")
  {
    PrintableStays(created);
    PrintableStays(id);
    TwoItems(Words(created), Words(id));
  }

  lemma {:induction false} TwoItems(first: Scalar, second: Scalar)
    ensures ItemsText([first, second]) == ScalarText(first) + "," + ScalarText(second)
  {
    assert [first, second][1..] == [second];
  }

  // Other characters are escaped: by a letter, or as one or two units of four digits.
  lemma {:induction false} EscapedByLetter()
    ensures Escaped('"') == ['\\', '"'] && Escaped('\\') == ['\\', '\\']
    ensures Escaped('\n') == ['\\', 'n'] && Escaped('\r') == ['\\', 'r'] && Escaped('\t') == ['\\', 't']
  {
  }

  lemma {:induction false} EscapedByUnits(c: char)
    requires c > '~'
    ensures c as int < 0x1_0000 ==> Escaped(c) == Unit(c as int)
    ensures c as int >= 0x1_0000 ==>
        Escaped(c) == Unit(0xd800 + (c as int - 0x1_0000) / 0x400) + Unit(0xdc00 + (c as int - 0x1_0000) % 0x400)
  {
  }

  lemma {:induction false} WrittenUnits()
    ensures Unit(0xac00) == "\\uac00" && Unit(0xd83d) == "\\ud83d"
  {
    assert HexDigit(10) == 'a' && HexDigit(12) == 'c' && HexDigit(13) == 'd' && HexDigit(0) == '0'
        && HexDigit(8) == '8' && HexDigit(3) == '3';
    assert 0xac00 / 4096 == 10 && 0xac00 / 256 % 16 == 12 && 0xac00 / 16 % 16 == 0;
    assert 0xd83d / 4096 == 13 && 0xd83d / 256 % 16 == 8 && 0xd83d / 16 % 16 == 3;
  }

  type Loads = seq<Byte> -> Option<seq<Scalar>>

  function CursorOf(key: Key): string { EncodeCursor(Dumps, KeyValues(key)) }

  // The decoder of JSON reads back what was written for this key.
  predicate ReadsBack(loads: Loads, key: Key) { loads(Dumps(KeyValues(key))) == Some(KeyValues(key)) }

  // ---- which cursors are accepted again ----

  // The bytes of a key's JSON text.
  function Size(key: Key): nat {
    match key
    case Seq(n) => 2 + |ScalarText(Number(n))|
    case Stamp(created, id) => 7 + |Escape(created)| + |Escape(id)|
  }

  predicate Fits(key: Key) { Size(key) <= 384 }

  lemma SizeIsDumped(key: Key)
    ensures |Dumps(KeyValues(key))| == Size(key)
  {
    match key
    case Seq(n) => assert ItemsText([Number(n)]) == ScalarText(Number(n));
    case Stamp(created, id) =>
      var values := [Words(created), Words(id)];
      assert values[1..] == [Words(id)];
      assert ItemsText(values) == ScalarText(Words(created)) + "," + ScalarText(Words(id));
  }

  /** A cursor is accepted again exactly when the JSON text of its key has at most 384 bytes. */
  lemma CursorAcceptedIff(loads: Loads, key: Key)
    requires ReadsBack(loads, key)
    ensures CursorOf(key) != ""
    ensures KeyOf(loads, CursorOf(key), key.Seq?) == (if Fits(key) then Ok(key) else Err(InvalidCursor))
  {
    SizeIsDumped(key);
    assert Dumps(KeyValues(key)) != [] by { assert |Dumps(KeyValues(key))| > 0; }
    CursorRoundTripIff(Dumps, loads, key);
  }

  lemma {:induction false} EscapeLast(w: string, c: char)
    ensures Escape(w + [c]) == Escape(w) + Escaped(c)
  {
    assert (w + [c])[..|w|] == w;
  }

  lemma {:induction false} Regroup(a: string, b: string, c: string)
    ensures a + (b + c) == (a + b) + c
  {
  }

  lemma {:induction false} EscapeConcat(a: string, b: string)
    ensures Escape(a + b) == Escape(a) + Escape(b)
  {
    if b == "" {
      assert a + b == a;
    } else {
      var init, last := b[..|b| - 1], [b[|b| - 1]];
      assert b == init + last;
      EscapeConcat(a, init);
      calc {
        Escape(a + b);
        { Regroup(a, init, last); }
        Escape((a + init) + last);
        { EscapeLast(a + init, last[0]); }
        Escape(a + init) + Escaped(last[0]);
        (Escape(a) + Escape(init)) + Escaped(last[0]);
        { Regroup(Escape(a), Escape(init), Escaped(last[0])); }
        Escape(a) + (Escape(init) + Escaped(last[0]));
        { EscapeLast(init, last[0]); }
        Escape(a) + Escape(b);
      }
    }
  }

  lemma {:induction false} EscapeBounds(w: string)
    ensures |w| <= |Escape(w)| <= 12 * |w|
    ensures (forall i :: 0 <= i < |w| ==> Printable(w[i])) ==> |Escape(w)| == |w|
    ensures (forall i :: 0 <= i < |w| ==> w[i] > '~') ==> |Escape(w)| >= 6 * |w|
  {
    if w != "" { EscapeBounds(w[..|w| - 1]); }
  }

  // Printable keys of the usual length fit: a created_at of 32 characters and an id of 32.
  lemma PrintableKeysFit(created: string, id: string)
    requires forall i :: 0 <= i < |created| ==> Printable(created[i])
    requires forall i :: 0 <= i < |id| ==> Printable(id[i])
    ensures Fits(Stamp(created, id)) <==> |created| + |id| <= 377
  {
    EscapeBounds(created);
    EscapeBounds(id);
  }

  lemma NumbersFit(n: int)
    requires -0x8000_0000_0000_0000 <= n < 0x8000_0000_0000_0000
    ensures Fits(Seq(n))
  {
    assert Power(5) == 100_000 && Power(10) == 100_000 * Power(5) && Power(15) == 100_000 * Power(10);
    assert Power(19) == 10_000 * Power(15);
    DigitCount(if n < 0 then -n else n, 19);
  }

  function Power(k: nat): nat { if k == 0 then 1 else 10 * Power(k - 1) }

  lemma {:induction false} DigitCount(n: nat, k: nat)
    requires 1 <= k && n < Power(k)
    ensures |Decimal(n)| <= k
  {
    if n >= 10 { DigitCount(n / 10, k - 1); }
  }

  // ---- following the texts ----

  // One fetch: the rows, and the text for the next one.
  function FetchText<T(!new)>(
    loads: Loads, table: seq<T>, key: T -> Key, keep: T -> bool, numbered: bool, cursor: string, limit: int, cap: int
  ): Result<(seq<T>, Option<string>), CursorError> {
    var from := KeyOf(loads, cursor, numbered);
    if cursor != "" && from.Err? then Err(InvalidCursor)
    else
      var page := Page(table, key, keep, if cursor == "" then None else Some(from.value), limit, cap);
      Ok((page.rows, if page.next.None? then None else Some(CursorOf(page.next.value))))
  }

  ghost predicate TextWalk<T(!new)>(
    loads: Loads, tables: seq<seq<T>>, key: T -> Key, keep: T -> bool, numbered: bool, cursor: string, limit: int,
        cap: int,
    pages: seq<seq<T>>)
    decreases |pages|
  {
    && |tables| == |pages| >= 1
    && var fetched := FetchText(loads, tables[0], key, keep, numbered, cursor, limit, cap);
      && fetched.Ok? && pages[0] == fetched.value.0
      && (if fetched.value.1.None? then |pages| == 1
          else |pages| > 1 && TextWalk(loads, tables[1..], key, keep, numbered, fetched.value.1.value, limit, cap, pages[1..]))
  }

  // Every listed row has a key of the endpoint's kind that the decoder reads back.
  ghost predicate Keyed<T(!new)>(loads: Loads, table: seq<T>, key: T -> Key, keep: T -> bool, numbered: bool) {
    forall x :: x in table && keep(x) ==> key(x).Seq? == numbered && ReadsBack(loads, key(x))
  }

  lemma NextIsListed<T(!new)>(
      table: seq<T>, key: T -> Key, keep: T -> bool, cursor: Option<Key>, limit: int, cap: int) returns (x: T)
    requires DistinctKeys(table, key, keep) && Page(table, key, keep, cursor, limit, cap).next.Some?
    ensures x in table && keep(x) && Page(table, key, keep, cursor, limit, cap).next == Some(key(x))
  {
    PageIsPrefix(table, key, keep, cursor, limit, cap);
    ListingIsSorted(table, key, keep, cursor);
    x := Listing(table, key, keep, cursor)[Limit(limit, cap) - 1];
    assert x in Listing(table, key, keep, cursor);
  }

  /** The next fetch, on whatever table there is by then, is refused exactly when its key does not fit. */
  lemma NextFetchIff<T(!new)>(
      loads: Loads, table: seq<T>, later: seq<T>, key: T -> Key, keep: T -> bool, numbered: bool, cursor: string,
      limit: int, cap: int)
    requires DistinctKeys(table, key, keep) && Keyed(loads, table, key, keep, numbered)
    requires var fetched := FetchText(loads, table, key, keep, numbered, cursor, limit, cap);
      fetched.Ok? && fetched.value.1.Some?
    ensures var fetched := FetchText(loads, table, key, keep, numbered, cursor, limit, cap);
      && fetched.value.0 != []
      && (FetchText(loads, later, key, keep, numbered, fetched.value.1.value, limit, cap).Ok?
          <==> Fits(key(fetched.value.0[|fetched.value.0| - 1])))
  {
    var from := if cursor == "" then None else Some(KeyOf(loads, cursor, numbered).value);
    PageIsPrefix(table, key, keep, from, limit, cap);
    ListingIsSorted(table, key, keep, from);
    var x := Listing(table, key, keep, from)[Limit(limit, cap) - 1];
    assert x in Listing(table, key, keep, from);
    CursorAcceptedIff(loads, key(x));
  }

  lemma {:induction false} TextWalkIsWalk<T(!new)>(
      loads: Loads, tables: seq<seq<T>>, key: T -> Key, keep: T -> bool, numbered: bool, cursor: string, limit: int,
          cap: int,
      pages: seq<seq<T>>, from: Option<Key>)
    requires TextWalk(loads, tables, key, keep, numbered, cursor, limit, cap, pages)
    requires forall k :: 0 <= k < |tables| ==>
        DistinctKeys(tables[k], key, keep) && Keyed(loads, tables[k], key, keep, numbered)
    requires if cursor == "" then from.None?
        else KeyOf(loads, cursor, numbered).Ok? && from == Some(KeyOf(loads, cursor, numbered).value)
    ensures Walk(tables, key, keep, from, limit, cap, pages)
    decreases |pages|
  {
    var page := Page(tables[0], key, keep, from, limit, cap);
    if page.next.Some? {
      var x := NextIsListed(tables[0], key, keep, from, limit, cap);
      CursorAcceptedIff(loads, key(x));
      assert forall k :: 0 <= k < |tables[1..]| ==> tables[1..][k] == tables[k + 1];
      TextWalkIsWalk(loads, tables[1..], key, keep, numbered, CursorOf(key(x)), limit, cap, pages[1..], page.next);
    }
  }

  /**
    Handing each page's cursor text back until none is returned gives the rows listed at the first
    fetch, each once and in order, for any limit and whatever is added above in between.
  */
  lemma TextWalkListsAll<T(!new)>(
      loads: Loads, tables: seq<seq<T>>, key: T -> Key, keep: T -> bool, numbered: bool, limit: int, cap: int,
          pages: seq<seq<T>>)
    requires TextWalk(loads, tables, key, keep, numbered, "", limit, cap, pages)
    requires forall k :: 0 <= k < |tables| ==>
        DistinctKeys(tables[k], key, keep) && Keyed(loads, tables[k], key, keep, numbered)
    requires forall k :: 0 <= k < |tables| - 1 ==> GrowsAbove(tables[k], tables[k + 1], key, keep)
    ensures Concat(pages) == Listing(tables[0], key, keep, None)
    ensures forall k :: 1 <= k < |pages| ==> pages[k] != []
  {
    TextWalkIsWalk(loads, tables, key, keep, numbered, "", limit, cap, pages, None);
    WalkListsAll(tables, key, keep, None, limit, cap, pages);
  }

  // And if every key fits there is such a walk: no fetch is refused.
  lemma TextWalkEnds<T(!new)>(
      loads: Loads, table: seq<T>, key: T -> Key, keep: T -> bool, numbered: bool, limit: int, cap: int)
    requires DistinctKeys(table, key, keep) && Keyed(loads, table, key, keep, numbered)
    requires forall x :: x in table && keep(x) ==> Fits(key(x))
    ensures exists pages: seq<seq<T>> :: TextWalk(loads, seq(|pages|, _ => table), key, keep, numbered, "", limit, cap,
        pages)
  {
    var pages := WalkEnds(table, key, keep, None, limit, cap);
    WalkIsTextWalk(loads, table, seq(|pages|, _ => table), key, keep, numbered, "", limit, cap, pages, None);
  }

  lemma {:induction false} WalkIsTextWalk<T(!new)>(
      loads: Loads, table: seq<T>, tables: seq<seq<T>>, key: T -> Key, keep: T -> bool, numbered: bool, cursor: string,
      limit: int, cap: int, pages: seq<seq<T>>, from: Option<Key>)
    requires Walk(tables, key, keep, from, limit, cap, pages) && forall k :: 0 <= k < |tables| ==> tables[k] == table
    requires DistinctKeys(table, key, keep) && Keyed(loads, table, key, keep, numbered)
    requires forall x :: x in table && keep(x) ==> Fits(key(x))
    requires if cursor == "" then from.None?
        else KeyOf(loads, cursor, numbered).Ok? && from == Some(KeyOf(loads, cursor, numbered).value)
    ensures TextWalk(loads, tables, key, keep, numbered, cursor, limit, cap, pages)
    decreases |pages|
  {
    var page := Page(table, key, keep, from, limit, cap);
    FetchIsPage(loads, table, key, keep, numbered, cursor, limit, cap, from);
    if page.next.Some? {
      var x := NextIsListed(table, key, keep, from, limit, cap);
      CursorAcceptedIff(loads, key(x));
      LaterTables(tables, table);
      WalkIsTextWalk(loads, table, tables[1..], key, keep, numbered, CursorOf(key(x)), limit, cap, pages[1..],
          page.next);
    }
  }

  // A fetch answers with the page and the text of its next key.
  lemma {:induction false} FetchIsPage<T(!new)>(loads: Loads, table: seq<T>, key: T -> Key, keep: T -> bool,
      numbered: bool, cursor: string, limit: int, cap: int, from: Option<Key>)
    requires if cursor == "" then from.None?
        else KeyOf(loads, cursor, numbered).Ok? && from == Some(KeyOf(loads, cursor, numbered).value)
    ensures var page := Page(table, key, keep, from, limit, cap);
      FetchText(loads, table, key, keep, numbered, cursor, limit, cap)
        == Ok((page.rows, if page.next.None? then None else Some(CursorOf(page.next.value))))
  {
  }

  lemma LaterTables<T(!new)>(tables: seq<seq<T>>, table: seq<T>)
    requires tables != [] && forall k :: 0 <= k < |tables| ==> tables[k] == table
    ensures forall k :: 0 <= k < |tables[1..]| ==> tables[1..][k] == table
  {
    assert forall k :: 0 <= k < |tables[1..]| ==> tables[1..][k] == tables[k + 1];
  }

  // ---- the documents of a team: keyed by modification time and path ----

  datatype Document = Document(modified: string, path: string)

  function DocumentKey(d: Document): Key { Stamp(d.modified, d.path) }

  function AnyDocument(d: Document): bool { true }

  // Sixty syllables of Hangul, a file name of 183 bytes in UTF-8.
  function LongName(): string { seq(60, _ => '가') + ".md" }

  lemma {:induction false} LongNameDoesNotFit(modified: string)
    requires |modified| >= 25
    ensures !Fits(Stamp(modified, LongName()))
  {
    EscapeBounds(modified);
    EscapeBounds(seq(60, _ => '가'));
    EscapeBounds(".md");
    EscapeConcat(seq(60, _ => '가'), ".md");
  }

  /**
    Two documents, one of them with the long name: the first page of one is served with a cursor
    text, and handing that text back is refused.
  */
  lemma LongNameStallsPaging(loads: Loads, modified: string, table: seq<Document>)
    requires |modified| >= 25 && table == [Document(modified, "a.md"), Document(modified, LongName())]
    requires Keyed(loads, table, DocumentKey, AnyDocument, false)
    ensures var first := FetchText(loads, table, DocumentKey, AnyDocument, false, "", 1, 500);
      && first.Ok? && first.value.0 == [table[1]] && first.value.1.Some?
      && FetchText(loads, table, DocumentKey, AnyDocument, false, first.value.1.value, 1, 500) == Err(InvalidCursor)
  {
    LongNameComesFirst(modified, table);
    LongNameDoesNotFit(modified);
    NextFetchIff(loads, table, table, DocumentKey, AnyDocument, false, "", 1, 500);
  }

  lemma LongNameComesFirst(modified: string, table: seq<Document>)
    requires table == [Document(modified, "a.md"), Document(modified, LongName())]
    ensures Listing(table, DocumentKey, AnyDocument, None) == [table[1], table[0]]
    ensures DistinctKeys(table, DocumentKey, AnyDocument)
  {
    assert LongName()[0] == '가' && "a.md"[0] == 'a';
    assert table[..1] == [table[0]] && [table[0]][..0] == [];
    assert Listing([table[0]], DocumentKey, AnyDocument, None) == [table[0]];
    assert KeyLess(DocumentKey(table[0]), DocumentKey(table[1])) by { NotLessItself(modified); }
  }
}
