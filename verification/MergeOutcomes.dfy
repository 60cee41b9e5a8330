/**
  What the two merges of generated files write, in terms of the lines and documents of both sides:
  which bullets, in which order and between which lines; which document for each path.
*/
module MergeOutcomes {
  import opened Outcomes
  import opened Strings
  import opened Timestamps
  import opened Paging
  import opened Sequences
  import opened EventStream
  import Report = ReportIndexMerge
  import Registry = RegistryMerge

  // ---- the time stamp of a line ----

  predicate Shaped(text: string, shape: string) {
    && |text| == |shape|
    && forall i :: 0 <= i < |shape| ==> if shape[i] == '0' then '0' <= text[i] <= '9' else text[i] == shape[i]
  }

  // After the em dash at place i, and any space, comes this date and time.
  ghost predicate StampAt(line: string, i: nat, stamp: string)
    requires i < |line|
  {
    && line[i] == '\U{2014}' && Shaped(stamp, "0000-00-00 00:00")
    && Leads(line[i + 1..], stamp)
  }

  // The text begins with the stamp, apart from space.
  ghost predicate Leads(text: string, stamp: string) { exists rest :: CutsLeft(text, rest) && stamp <= rest }

  ghost predicate NoStamp(line: string, n: nat)
    requires n <= |line|
  {
    forall j, stamp :: 0 <= j < n ==> !StampAt(line, j, stamp)
  }

  // The first stamp of the line, or the empty text.
  ghost predicate HasStamp(line: string, stamp: string) {
    || (stamp == "" && NoStamp(line, |line|))
    || (exists i :: 0 <= i < |line| && StampAt(line, i, stamp) && NoStamp(line, i))
  }

  lemma {:induction false} DateTimeShape(text: string)
    ensures Report.IsDateTime(text) <==> Shaped(text, "0000-00-00 00:00")
  {
    var shape := "0000-00-00 00:00";
    assert |shape| == 16;
    assert forall i :: 0 <= i < 16 && i !in {4, 7, 10, 13} ==> shape[i] == '0';
    assert shape[4] == '-' && shape[7] == '-' && shape[10] == ' ' && shape[13] == ':';
  }

  lemma {:induction false} SpaceBefore(s: string, rest: string, k: nat)
    requires CutsLeft(s, rest) && k < |s|
    ensures k < |s| - |rest| ==> IsSpace(s[k])
  {
    if k < |s| - |rest| { assert s[..|s| - |rest|][k] == s[k]; }
  }

  lemma {:induction false} CutsOnce(s: string, a: string, b: string)
    requires CutsLeft(s, a) && CutsLeft(s, b)
    ensures a == b
  {
    if a != "" { SpaceBefore(s, b, |s| - |a|); }
    if b != "" { SpaceBefore(s, a, |s| - |b|); }
  }

  lemma {:induction false} StampAtStart(line: string, stamp: string)
    requires line != ""
    ensures var rest := LStrip(line[1..]);
      StampAt(line, 0, stamp) <==>
        line[0] == '\U{2014}' && |rest| >= 16 && rest[..16] == stamp && Report.IsDateTime(rest[..16])
  {
    var rest := LStrip(line[1..]);
    LStripCuts(line[1..]);
    DateTimeShape(stamp);
    if StampAt(line, 0, stamp) {
      var other :| CutsLeft(line[1..], other) && stamp <= other;
      CutsOnce(line[1..], rest, other);
    }
  }

  lemma {:induction false} StampLater(line: string, i: nat, stamp: string)
    requires 0 < i < |line|
    ensures StampAt(line, i, stamp) <==> StampAt(line[1..], i - 1, stamp)
  {
    assert line[1..][i..] == line[i + 1..];
  }

  lemma {:induction false} NoStampLater(line: string, n: nat)
    requires 0 < n <= |line| && (forall stamp :: !StampAt(line, 0, stamp)) && NoStamp(line[1..], n - 1)
    ensures NoStamp(line, n)
  {
    forall j: nat, stamp | j < n ensures !StampAt(line, j, stamp) {
      if j > 0 {
        StampLater(line, j, stamp);
        assert !StampAt(line[1..], j - 1, stamp);
      }
    }
  }

  /** A report line is keyed by the first date and time that follows an em dash. */
  lemma {:induction false} StampOfLine(line: string)
    ensures HasStamp(line, Report.ReportStamp(line))
  {
    if line != "" {
      var rest, stamp := LStrip(line[1..]), Report.ReportStamp(line);
      if line[0] == '\U{2014}' && |rest| >= 16 && Report.IsDateTime(rest[..16]) {
        StampAtStart(line, stamp);
        assert StampAt(line, 0, stamp) && NoStamp(line, 0);
      } else {
        forall other ensures !StampAt(line, 0, other) { StampAtStart(line, other); }
        StampOfLine(line[1..]);
        if stamp == "" && NoStamp(line[1..], |line[1..]|) {
          NoStampLater(line, |line|);
        } else {
          var i :| 0 <= i < |line[1..]| && StampAt(line[1..], i, stamp) && NoStamp(line[1..], i);
          StampLater(line, i + 1, stamp);
          NoStampLater(line, i + 1);
        }
      }
    }
  }

  // ---- the report index ----

  predicate IsBullet(line: string) { "- [" <= line }

  // Newest first; lines of the same stamp, or of none, in descending text order.
  ghost predicate NewestFirst(lines: seq<string>) {
    forall i, j :: 0 <= i < j < |lines| ==> ComesBefore(lines[i], lines[j])
  }

  ghost predicate ComesBefore(a: string, b: string) {
    exists s, t :: HasStamp(a, s) && HasStamp(b, t) && (Less(t, s) || (s == t && Less(b, a)))
  }

  // The first and last bullet of the lines stand at these places.
  predicate BulletsSpan(lines: seq<string>, first: nat, last: nat) {
    && first <= last < |lines| && IsBullet(lines[first]) && IsBullet(lines[last])
    && (forall i :: 0 <= i < first ==> !IsBullet(lines[i]))
    && (forall i :: last < i < |lines| ==> !IsBullet(lines[i]))
  }

  predicate NoBullets(lines: seq<string>) { forall i :: 0 <= i < |lines| ==> !IsBullet(lines[i]) }

  lemma {:induction false} BulletsKept(lines: seq<string>)
    ensures Keep(lines, Report.Bullet()) == [] <==> NoBullets(lines)
  {
    KeepHas(lines, Report.Bullet());
    var kept := Keep(lines, Report.Bullet());
    if kept == [] {
      forall i | 0 <= i < |lines| ensures !IsBullet(lines[i]) { assert lines[i] in lines; }
    } else {
      assert kept[0] in kept;
    }
  }

  /**
    The merged index is the target with its stretch of bullets replaced by the bullets of both
    sides, each once, newest first; a target without bullets stays as it is.
  */
  lemma {:induction false} IndexMerged(target: seq<string>, team: seq<string>, first: nat, last: nat)
    requires NoBullets(target) || BulletsSpan(target, first, last)
    ensures NoBullets(target) ==> Report.MergeLines(target, team) == target
    ensures BulletsSpan(target, first, last) ==>
        exists bullets :: IsMergeOf(target, team, first, last, bullets, Report.MergeLines(target, team))
  {
    BulletsKept(target);
    if BulletsSpan(target, first, last) {
      Report.BulletsFound(target, first, last + 1);
      Report.MergedBulletsAreAll(target, team);
      var bullets := Report.MergedBullets(target, team);
      KeysAreNewestFirst(bullets);
      assert IsMergeOf(target, team, first, last, bullets, Report.MergeLines(target, team));
    }
  }

  ghost predicate IsMergeOf(target: seq<string>, team: seq<string>, first: nat, last: nat, bullets: seq<string>,
      merged: seq<string>)
    requires first <= last < |target|
  {
    && merged == target[..first] + bullets + target[last + 1..] && NewestFirst(bullets)
    && forall line :: line in bullets <==> IsBullet(line) && (line in target || line in team)
  }

  lemma {:induction false} KeysAreNewestFirst(bullets: seq<string>)
    requires Descending(bullets, Report.LineKey)
    ensures NewestFirst(bullets)
  {
    forall i, j | 0 <= i < j < |bullets| ensures ComesBefore(bullets[i], bullets[j]) {
      StampOfLine(bullets[i]);
      StampOfLine(bullets[j]);
      assert KeyLess(Report.LineKey(bullets[j]), Report.LineKey(bullets[i]));
    }
  }

  // ---- the lines of a file ----

  // One of the boundaries of Python's str.splitlines; a carriage return takes the line feed after it.
  predicate IsBoundary(text: string) {
    || text == "\r\n" || text == "\n" || text == "\r" || text == "\U{b}" || text == "\U{c}" || text == "\U{1c}"
    || text == "\U{1d}" || text == "\U{1e}" || text == "\U{85}" || text == "\U{2028}" || text == "\U{2029}"
  }

  // The lines, each with the boundary that ends it; the last one may have none.
  function Rejoined(lines: seq<string>, ends: seq<string>): string
    requires |lines| == |ends|
  {
    if lines == [] then "" else lines[0] + ends[0] + Rejoined(lines[1..], ends[1..])
  }

  ghost predicate AreLines(text: string, lines: seq<string>, ends: seq<string>) {
    && |lines| == |ends| && text == Rejoined(lines, ends)
    && (forall i :: 0 <= i < |lines| ==> Report.Unbroken(lines[i]))
    && (forall i :: 0 <= i < |lines| ==>
          IsBoundary(ends[i]) || (ends[i] == "" && i == |lines| - 1 && lines[i] != ""))
    && (forall i :: 0 <= i < |lines| - 1 && ends[i] == "\r" && lines[i + 1] == "" ==> ends[i + 1] != "\n")
  }

  lemma {:induction false} BoundaryOfOne(c: char)
    ensures Report.IsBreak(c) <==> IsBoundary([c])
  {
    assert |"\r\n"| == 2;
    assert "\n"[0] as int == 0x0a && "\r"[0] as int == 0x0d && "\U{b}"[0] as int == 0x0b && "\U{c}"[0] as int == 0x0c;
    assert "\U{1c}"[0] as int == 0x1c && "\U{1d}"[0] as int == 0x1d && "\U{1e}"[0] as int == 0x1e;
    assert "\U{85}"[0] as int == 0x85 && "\U{2028}"[0] as int == 0x2028 && "\U{2029}"[0] as int == 0x2029;
    CharOfOne(c);
  }

  lemma {:induction false} CharOfOne(c: char)
    ensures forall d: char :: [c] == [d] <==> c as int == d as int
  {
    forall d: char ensures [c] == [d] <==> c as int == d as int {
      assert [c][0] == c && [d][0] == d;
    }
  }

  lemma {:induction false} NextLine(line: string, end: string, text: string, lines: seq<string>, ends: seq<string>)
    requires Report.Unbroken(line) && IsBoundary(end) && AreLines(text, lines, ends)
    requires end == "\r" ==> !("\n" <= text)
    ensures AreLines(line + end + text, [line] + lines, [end] + ends)
  {
    var all, stops := [line] + lines, [end] + ends;
    assert all[1..] == lines && stops[1..] == ends;
    assert forall i :: 0 < i < |all| ==> all[i] == lines[i - 1] && stops[i] == ends[i - 1];
    assert lines != [] && lines[0] == "" && ends[0] == "\n" ==> text == "" + "\n" + Rejoined(lines[1..], ends[1..]);
  }

  lemma {:induction false} LastLine(line: string)
    requires Report.Unbroken(line)
    ensures line != "" ==> AreLines(line, [line], [""])
    ensures AreLines("", [], [])
  {
    assert [line][1..] == [] && [""][1..] == [];
  }

  /** The lines of a file, put together with the boundaries they were split at, are the file. */
  lemma {:induction false} SplitAreLines(text: string, line: string) returns (ends: seq<string>)
    requires Report.Unbroken(line)
    ensures AreLines(line + text, Report.SplitLines(text, line), ends)
    decreases |text|
  {
    if text == "" {
      LastLine(line);
      assert line + text == line;
      ends := if line == "" then [] else [""];
    } else if !Report.IsBreak(text[0]) {
      ends := SplitAreLines(text[1..], line + [text[0]]);
      assert line + text == line + [text[0]] + text[1..];
    } else {
      BoundaryOfOne(text[0]);
      var end := if text[0] == '\r' && |text| > 1 && text[1] == '\n' then text[..2] else text[..1];
      var rest := text[|end|..];
      var later := SplitAreLines(rest, "");
      assert "" + rest == rest && line + text == line + end + rest;
      assert text[..1] == [text[0]] && (|end| == 2 ==> end == "\r\n");
      assert end == "\r" ==> text[0] == '\r';
      NextLine(line, end, rest, Report.SplitLines(rest, ""), later);
      ends := [end] + later;
    }
  }

  // ---- the registry ----

  function PathOf(d: Json): string
    requires Registry.IsDocument(d)
  {
    d.fields["path"].text
  }

  // A document is an object with a path that is a text and not empty.
  lemma {:induction false} DocumentIff(d: Json)
    ensures Registry.IsDocument(d) <==>
      d.JObject? && "path" in d.fields && d.fields["path"].JString? && d.fields["path"].text != ""
  {
  }

  // The last document of the list with this path.
  ghost predicate IsLast(documents: seq<Json>, path: string, d: Json)
    requires Registry.AllDocuments(documents)
  {
    exists i :: 0 <= i < |documents| && documents[i] == d && LastAt(documents, path, i)
  }

  ghost predicate LastAt(documents: seq<Json>, path: string, i: nat)
    requires Registry.AllDocuments(documents) && i < |documents|
  {
    PathOf(documents[i]) == path && forall j :: i < j < |documents| ==> PathOf(documents[j]) != path
  }

  ghost predicate HasPath(documents: seq<Json>, path: string)
    requires Registry.AllDocuments(documents)
  {
    exists i :: 0 <= i < |documents| && PathOf(documents[i]) == path
  }

  // The target's document for the path, or else the team's.
  ghost predicate Prevails(ours: seq<Json>, theirs: seq<Json>, path: string, d: Json)
    requires Registry.AllDocuments(ours) && Registry.AllDocuments(theirs)
  {
    if HasPath(ours, path) then IsLast(ours, path, d) else IsLast(theirs, path, d)
  }

  // It is listed as it is; the report index with the excerpt of its merged text.
  predicate ShownAs(path: string, d: Json, excerpt: Option<string>, shown: Json) {
    if path == "docs/component-inspector/index.md" && excerpt.Some? then
      d.JObject? && shown == JObject(d.fields["excerpt" := JString(excerpt.value)])
    else shown == d
  }

  lemma {:induction false} ByPathIsLast(documents: seq<Json>, path: string)
    requires Registry.AllDocuments(documents)
    ensures path in Registry.ByPath(documents) <==> HasPath(documents, path)
    ensures path in Registry.ByPath(documents) ==> IsLast(documents, path, Registry.ByPath(documents)[path])
  {
    if documents != [] {
      var n := |documents| - 1;
      var init := documents[..n];
      Registry.AllButLast(documents);
      ByPathIsLast(init, path);
      assert forall i :: 0 <= i < n ==> documents[i] == init[i];
      if PathOf(documents[n]) == path {
        assert LastAt(documents, path, n);
      } else if path in Registry.ByPath(init) {
        var i :| 0 <= i < n && init[i] == Registry.ByPath(init)[path] && LastAt(init, path, i);
        assert LastAt(documents, path, i);
      }
    }
  }

  ghost predicate ListsFor(ours: seq<Json>, theirs: seq<Json>, excerpt: Option<string>, path: string, shown: Json)
    requires Registry.AllDocuments(ours) && Registry.AllDocuments(theirs)
  {
    exists d :: Prevails(ours, theirs, path, d) && ShownAs(path, d, excerpt, shown)
  }

  ghost predicate IsListing(ours: seq<Json>, theirs: seq<Json>, excerpt: Option<string>, paths: seq<string>,
      documents: seq<Json>)
    requires Registry.AllDocuments(ours) && Registry.AllDocuments(theirs)
  {
    && |documents| == |paths| && (forall i, j :: 0 <= i < j < |paths| ==> Less(paths[i], paths[j]))
    && (forall path :: path in paths <==> HasPath(ours, path) || HasPath(theirs, path))
    && (forall i :: 0 <= i < |paths| ==> ListsFor(ours, theirs, excerpt, paths[i], documents[i]))
  }

  /** The merged registry lists the prevailing document of every path of either side, in path order. */
  lemma {:induction false} RegistryMerged(target: Json, team: Json, excerpt: Option<string>)
    requires Registry.MergeRegistry(target, team, excerpt).Some?
    ensures var ours, theirs := Registry.DocumentsOf(target), Registry.DocumentsOf(team);
      && ours.Some? && theirs.Some? && Registry.AllDocuments(ours.value) && Registry.AllDocuments(theirs.value)
      && var documents := Registry.DocumentsOf(Registry.MergeRegistry(target, team, excerpt).value);
         documents.Some? && exists paths :: IsListing(ours.value, theirs.value, excerpt, paths, documents.value)
  {
    Registry.MergesIff(target, team, excerpt);
    Registry.MergeGives(target, team, excerpt);
    var ours, theirs := Registry.DocumentsOf(target).value, Registry.DocumentsOf(team).value;
    Registry.BothAreDocuments(theirs, ours);
    var paths := Registry.SortedPaths(Registry.Paths(theirs + ours));
    var documents := Registry.DocumentsOf(Registry.MergeRegistry(target, team, excerpt).value).value;
    forall i, j | 0 <= i < j < |paths| ensures Less(paths[i], paths[j]) { NotLessItself(""); }
    forall path ensures path in paths <==> HasPath(ours, path) || HasPath(theirs, path) {
      PathListed(ours, theirs, paths, path);
    }
    forall i | 0 <= i < |paths|
      ensures ListsFor(ours, theirs, excerpt, paths[i], documents[i])
    {
      assert paths[i] in paths;
      WinnerPrevails(ours, theirs, paths[i], excerpt);
    }
    assert IsListing(ours, theirs, excerpt, paths, documents);
  }

  lemma {:induction false} PathListed(ours: seq<Json>, theirs: seq<Json>, paths: seq<string>, path: string)
    requires Registry.AllDocuments(ours) && Registry.AllDocuments(theirs)
    requires path in paths <==> path in Registry.Paths(ours) || path in Registry.Paths(theirs)
    ensures path in paths <==> HasPath(ours, path) || HasPath(theirs, path)
  {
    Registry.PathsAreKeys(ours);
    Registry.PathsAreKeys(theirs);
    ByPathIsLast(ours, path);
    ByPathIsLast(theirs, path);
  }

  lemma {:induction false} WinnerPrevails(ours: seq<Json>, theirs: seq<Json>, path: string, excerpt: Option<string>)
    requires Registry.AllDocuments(ours) && Registry.AllDocuments(theirs)
    requires path in Registry.Paths(ours) || path in Registry.Paths(theirs)
    ensures ListsFor(ours, theirs, excerpt, path, Registry.Winner(ours, theirs, path, excerpt))
  {
    Registry.PathsAreKeys(ours);
    Registry.PathsAreKeys(theirs);
    ByPathIsLast(ours, path);
    ByPathIsLast(theirs, path);
    var d := if path in Registry.ByPath(ours) then Registry.ByPath(ours)[path] else Registry.ByPath(theirs)[path];
    assert Prevails(ours, theirs, path, d);
  }
}
