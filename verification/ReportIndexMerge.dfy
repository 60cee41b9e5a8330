/**
  Merging the generated index of component reports: the bullets of both sides, once each, newest
  first, between the target's own opening and closing lines.
*/
module ReportIndexMerge {
  import opened Outcomes
  import opened Strings
  import opened Sequences
  import opened Paging

  // ---- the sort key ----

  predicate IsDateTime(s: string) {
    && |s| == 16
    && s[4] == '-' && s[7] == '-' && s[10] == ' ' && s[13] == ':'
    && forall i :: 0 <= i < 16 && i !in {4, 7, 10, 13} ==> IsDigit(s[i])
  }

  // The date and time after the first em dash that has one, or the empty string.
  function ReportStamp(line: string): string {
    if line == "" then ""
    else
      var rest := LStrip(line[1..]);
      if line[0] == '\U{2014}' && |rest| >= 16 && IsDateTime(rest[..16]) then rest[..16] else ReportStamp(line[1..])
  }

  function LineKey(line: string): Key { Stamp(ReportStamp(line), line) }

  function Bullet(): string -> bool { (line: string) => "- [" <= line }

  function Every(): string -> bool { (line: string) => true }

  // Descending by key; lines are distinct, so the order is total.
  function Sorted(lines: seq<string>): seq<string> { Listing(lines, LineKey, Every(), None) }

  // ---- the merge ----

  function FirstBullet(lines: seq<string>): nat {
    if lines == [] || Bullet()(lines[0]) then 0 else 1 + FirstBullet(lines[1..])
  }

  // One past the last bullet.
  function AfterBullets(lines: seq<string>): nat {
    if lines == [] then 0
    else if Bullet()(lines[|lines| - 1]) then |lines| else AfterBullets(lines[..|lines| - 1])
  }

  function MergedBullets(target: seq<string>, team: seq<string>): seq<string> {
    Sorted(Deduped(Keep(target, Bullet()) + Keep(team, Bullet())))
  }

  lemma BulletBounds(lines: seq<string>)
    ensures FirstBullet(lines) <= |lines| && AfterBullets(lines) <= |lines|
    ensures Keep(lines, Bullet()) != [] ==> FirstBullet(lines) < AfterBullets(lines)
    ensures forall i :: 0 <= i < FirstBullet(lines) ==> !Bullet()(lines[i])
    ensures forall i :: AfterBullets(lines) <= i < |lines| ==> !Bullet()(lines[i])
    ensures Keep(lines, Bullet()) != [] ==>
        Bullet()(lines[FirstBullet(lines)]) && Bullet()(lines[AfterBullets(lines) - 1])
  {
    FirstBulletIs(lines);
    AfterBulletsIs(lines);
    KeepHas(lines, Bullet());
    if Keep(lines, Bullet()) != [] {
      var line := Keep(lines, Bullet())[0];
      assert line in lines;
    }
  }

  lemma {:induction false} FirstBulletIs(lines: seq<string>)
    ensures FirstBullet(lines) <= |lines| && forall i :: 0 <= i < FirstBullet(lines) ==> !Bullet()(lines[i])
    ensures FirstBullet(lines) < |lines| ==> Bullet()(lines[FirstBullet(lines)])
  {
    if lines != [] && !Bullet()(lines[0]) {
      FirstBulletIs(lines[1..]);
      assert forall i :: 1 <= i < |lines| ==> lines[i] == lines[1..][i - 1];
    }
  }

  lemma {:induction false} AfterBulletsIs(lines: seq<string>)
    ensures AfterBullets(lines) <= |lines| && forall i :: AfterBullets(lines) <= i < |lines| ==> !Bullet()(lines[i])
    ensures AfterBullets(lines) > 0 ==> Bullet()(lines[AfterBullets(lines) - 1])
  {
    if lines != [] && !Bullet()(lines[|lines| - 1]) {
      AfterBulletsIs(lines[..|lines| - 1]);
    }
  }

  // The lines before the first bullet.
  function Opening(lines: seq<string>): seq<string> {
    if FirstBullet(lines) <= |lines| then lines[..FirstBullet(lines)] else lines
  }

  // The lines after the last one.
  function Closing(lines: seq<string>): seq<string> {
    if AfterBullets(lines) <= |lines| then lines[AfterBullets(lines)..] else []
  }

  // Without a bullet in the target there is nothing to merge into.
  function MergeLines(target: seq<string>, team: seq<string>): seq<string> {
    if Keep(target, Bullet()) == [] then target
    else Opening(target) + MergedBullets(target, team) + Closing(target)
  }

  // ---- what the merge gives ----

  // The bullets of both sides, each once, in descending key order.
  ghost predicate AllBulletsOnce(bullets: seq<string>, target: seq<string>, team: seq<string>) {
    && (forall line :: line in bullets <==> Bullet()(line) && (line in target || line in team))
    && Descending(bullets, LineKey)
  }

  lemma MergedBulletsAreAll(target: seq<string>, team: seq<string>)
    ensures AllBulletsOnce(MergedBullets(target, team), target, team)
  {
    var both := Keep(target, Bullet()) + Keep(team, Bullet());
    KeepHas(target, Bullet());
    KeepHas(team, Bullet());
    DedupedOnce(both);
    ListingIsSorted(Deduped(both), LineKey, Every(), None);
    assert forall line :: line in both <==> Bullet()(line) && (line in target || line in team);
    assert forall line :: Wanted(line, LineKey, Every(), None);
  }

  lemma KeptPartsHaveNoBullet(lines: seq<string>)
    ensures Keep(Opening(lines), Bullet()) == [] && Keep(Closing(lines), Bullet()) == []
  {
    BulletBounds(lines);
    forall line | line in Opening(lines) ensures !Bullet()(line) {
      var i :| 0 <= i < |Opening(lines)| && Opening(lines)[i] == line;
      assert lines[i] == line;
    }
    forall line | line in Closing(lines) ensures !Bullet()(line) {
      var i :| 0 <= i < |Closing(lines)| && Closing(lines)[i] == line;
      assert lines[AfterBullets(lines) + i] == line;
    }
    KeepNone(Opening(lines), Bullet());
    KeepNone(Closing(lines), Bullet());
  }

  /**
    When the target has a bullet, the merged file holds every bullet of both sides exactly once,
    newest first, and the target's lines before its first and after its last bullet.
  */
  lemma {:induction false} MergeGives(target: seq<string>, team: seq<string>)
    requires Keep(target, Bullet()) != []
    ensures var merged := MergeLines(target, team);
      && Keep(merged, Bullet()) == MergedBullets(target, team) && Keep(merged, Bullet()) != []
      && AllBulletsOnce(Keep(merged, Bullet()), target, team)
      && Opening(merged) == Opening(target) && Closing(merged) == Closing(target)
      && |merged| == |Opening(target)| + |Keep(merged, Bullet())| + |Closing(target)|
  {
    MergedBulletsAreAll(target, team);
    KeptPartsHaveNoBullet(target);
    FirstOfTarget(target, team);
    PutBetween(Opening(target), MergedBullets(target, team), Closing(target));
  }

  lemma {:induction false} FirstOfTarget(target: seq<string>, team: seq<string>)
    requires Keep(target, Bullet()) != [] && AllBulletsOnce(MergedBullets(target, team), target, team)
    ensures MergedBullets(target, team) != []
  {
    var line := Keep(target, Bullet())[0];
    KeepHas(target, Bullet());
    assert line in MergedBullets(target, team);
  }

  lemma {:induction false} PutBetween(opening: seq<string>, bullets: seq<string>, closing: seq<string>)
    requires bullets != [] && Keep(opening, Bullet()) == [] && Keep(closing, Bullet()) == []
    requires forall line :: line in bullets ==> Bullet()(line)
    ensures var merged := opening + bullets + closing;
      && Keep(merged, Bullet()) == bullets && Opening(merged) == opening && Closing(merged) == closing
      && |merged| == |opening| + |bullets| + |closing|
  {
    BulletsBetween(opening, bullets, closing);
    SplitAtBullets(opening, bullets, closing);
  }

  lemma BulletsBetween(opening: seq<string>, bullets: seq<string>, closing: seq<string>)
    requires Keep(opening, Bullet()) == [] && Keep(closing, Bullet()) == []
    requires forall line :: line in bullets ==> Bullet()(line)
    ensures Keep(opening + bullets + closing, Bullet()) == bullets
  {
    KeepConcat(opening + bullets, closing, Bullet());
    KeepConcat(opening, bullets, Bullet());
    assert forall i :: 0 <= i < |bullets| ==> bullets[i] in bullets;
    KeepAll(bullets, Bullet());
  }

  // Bullets between parts without any are found where they are.
  lemma SplitAtBullets(opening: seq<string>, bullets: seq<string>, closing: seq<string>)
    requires bullets != [] && Keep(opening, Bullet()) == [] && Keep(closing, Bullet()) == []
    requires forall line :: line in bullets ==> Bullet()(line)
    ensures var lines := opening + bullets + closing; Opening(lines) == opening && Closing(lines) == closing
  {
    var lines := opening + bullets + closing;
    var first, last := |opening|, |opening| + |bullets|;
    BulletsStand(opening, bullets, closing);
    BulletsFound(lines, first, last);
    assert lines[..first] == opening && lines[last..] == closing;
  }

  lemma {:induction false} BulletsStand(opening: seq<string>, bullets: seq<string>, closing: seq<string>)
    requires bullets != [] && Keep(opening, Bullet()) == [] && Keep(closing, Bullet()) == []
    requires forall line :: line in bullets ==> Bullet()(line)
    ensures var lines, first, last := opening + bullets + closing, |opening|, |opening| + |bullets|;
      && Bullet()(lines[first]) && Bullet()(lines[last - 1])
      && (forall i :: 0 <= i < first ==> !Bullet()(lines[i]))
      && (forall i :: last <= i < |lines| ==> !Bullet()(lines[i]))
  {
    var lines, first, last := opening + bullets + closing, |opening|, |opening| + |bullets|;
    KeepHas(opening, Bullet());
    KeepHas(closing, Bullet());
    assert lines[first] == bullets[0] && bullets[0] in bullets;
    assert lines[last - 1] == bullets[|bullets| - 1] && bullets[|bullets| - 1] in bullets;
    forall i | 0 <= i < first ensures !Bullet()(lines[i]) { assert lines[i] == opening[i] && opening[i] in opening; }
    forall i | last <= i < |lines| ensures !Bullet()(lines[i]) {
      assert lines[i] == closing[i - last] && closing[i - last] in closing;
    }
  }

  lemma BulletsFound(lines: seq<string>, first: nat, last: nat)
    requires first < last <= |lines| && Bullet()(lines[first]) && Bullet()(lines[last - 1])
    requires forall i :: 0 <= i < first ==> !Bullet()(lines[i])
    requires forall i :: last <= i < |lines| ==> !Bullet()(lines[i])
    ensures FirstBullet(lines) == first && AfterBullets(lines) == last
  {
    FirstBulletIs(lines);
    AfterBulletsIs(lines);
  }

  lemma SameBullets(t: seq<string>, m: seq<string>, t': seq<string>, m': seq<string>)
    requires forall line :: Bullet()(line) ==> (line in t || line in m <==> line in t' || line in m')
    ensures MergedBullets(t, m) == MergedBullets(t', m')
  {
    MergedBulletsAreAll(t, m);
    MergedBulletsAreAll(t', m');
    DescendingUnique(MergedBullets(t, m), MergedBullets(t', m'), LineKey);
  }

  // The bullet list does not depend on which side is the target.
  lemma BulletsCommute(target: seq<string>, team: seq<string>)
    ensures MergedBullets(target, team) == MergedBullets(team, target)
  {
    SameBullets(target, team, team, target);
  }

  lemma BulletsOfMerge(target: seq<string>, team: seq<string>, line: string)
    requires Keep(target, Bullet()) != [] && Bullet()(line)
    ensures line in MergeLines(target, team) <==> line in target || line in team
  {
    MergeGives(target, team);
    KeepHas(MergeLines(target, team), Bullet());
  }

  // Merging the same side again changes nothing.
  lemma MergeTwice(target: seq<string>, team: seq<string>)
    ensures MergeLines(MergeLines(target, team), team) == MergeLines(target, team)
  {
    if Keep(target, Bullet()) != [] {
      var merged := MergeLines(target, team);
      MergeGives(target, team);
      forall line | Bullet()(line) ensures line in merged || line in team <==> line in target || line in team {
        BulletsOfMerge(target, team, line);
      }
      SameBullets(merged, team, target, team);
    }
  }

  // Two sides may be merged into the target in either order.
  lemma MergeOrderIrrelevant(target: seq<string>, a: seq<string>, b: seq<string>)
    ensures MergeLines(MergeLines(target, a), b) == MergeLines(MergeLines(target, b), a)
  {
    if Keep(target, Bullet()) != [] {
      var withA, withB := MergeLines(target, a), MergeLines(target, b);
      MergeGives(target, a);
      MergeGives(target, b);
      forall line | Bullet()(line) ensures line in withA || line in b <==> line in withB || line in a {
        BulletsOfMerge(target, a, line);
        BulletsOfMerge(target, b, line);
      }
      SameBullets(withA, b, withB, a);
    }
  }

  // ---- files ----

  // The line boundaries of Python's str.splitlines; a carriage return takes a following line feed.
  predicate IsBreak(c: char) {
    var p := c as int;
    0x0a <= p <= 0x0d || 0x1c <= p <= 0x1e || p in {0x85, 0x2028, 0x2029}
  }

  function SplitLines(text: string, line: string): seq<string>
    decreases |text|
  {
    if text == "" then (if line == "" then [] else [line])
    else if !IsBreak(text[0]) then SplitLines(text[1..], line + [text[0]])
    else if text[0] == '\r' && |text| > 1 && text[1] == '\n' then [line] + SplitLines(text[2..], "")
    else [line] + SplitLines(text[1..], "")
  }

  function Lines(text: string): seq<string> { SplitLines(text, "") }

  function MergeIndex(target: string, team: string): string {
    if Keep(Lines(target), Bullet()) == [] then target else JoinLines(MergeLines(Lines(target), Lines(team))) + "\n"
  }

  predicate Unbroken(line: string) { forall i :: 0 <= i < |line| ==> !IsBreak(line[i]) }

  lemma {:induction false} SplitOneLine(line: string, front: string, rest: string)
    requires Unbroken(line)
    ensures SplitLines(line + "\n" + rest, front) == [front + line] + SplitLines(rest, "")
    decreases |line|
  {
    var text := line + "\n" + rest;
    if line == "" {
      assert text[1..] == rest && front + line == front;
    } else {
      assert text[0] == line[0] && text[1..] == line[1..] + "\n" + rest;
      SplitOneLine(line[1..], front + [line[0]], rest);
      assert front + [line[0]] + line[1..] == front + line;
    }
  }

  lemma {:induction false} SplitJoined(lines: seq<string>)
    requires lines != [] && forall i :: 0 <= i < |lines| ==> Unbroken(lines[i])
    ensures Lines(JoinLines(lines) + "\n") == lines
  {
    if |lines| == 1 {
      SplitOneLine(lines[0], "", "");
      assert JoinLines(lines) + "\n" == lines[0] + "\n" + "";
      assert "" + lines[0] == lines[0];
    } else {
      SplitJoined(lines[1..]);
      SplitOneLine(lines[0], "", JoinLines(lines[1..]) + "\n");
      assert JoinLines(lines) + "\n" == lines[0] + "\n" + (JoinLines(lines[1..]) + "\n");
      assert "" + lines[0] == lines[0];
    }
  }

  lemma {:induction false} LinesAreUnbroken(text: string, line: string)
    requires Unbroken(line)
    ensures forall l :: l in SplitLines(text, line) ==> Unbroken(l)
    decreases |text|
  {
    if text != "" {
      if !IsBreak(text[0]) {
        LinesAreUnbroken(text[1..], line + [text[0]]);
      } else if text[0] == '\r' && |text| > 1 && text[1] == '\n' {
        LinesAreUnbroken(text[2..], "");
      } else {
        LinesAreUnbroken(text[1..], "");
      }
    }
  }

  lemma MergedLinesUnbroken(target: string, team: string)
    ensures forall l :: l in MergeLines(Lines(target), Lines(team)) ==> Unbroken(l)
  {
    var t, m := Lines(target), Lines(team);
    LinesAreUnbroken(target, "");
    LinesAreUnbroken(team, "");
    MergedBulletsAreAll(t, m);
    assert forall l :: l in Opening(t) ==> l in t;
    assert forall l :: l in Closing(t) ==> l in t;
  }

  // The merged file, read back, is the merge of the files' lines; merging it again changes nothing.
  lemma FileMerge(target: string, team: string)
    requires Keep(Lines(target), Bullet()) != []
    ensures Lines(MergeIndex(target, team)) == MergeLines(Lines(target), Lines(team))
    ensures MergeIndex(MergeIndex(target, team), team) == MergeIndex(target, team)
  {
    var merged := MergeLines(Lines(target), Lines(team));
    MergeGives(Lines(target), Lines(team));
    MergedLinesUnbroken(target, team);
    assert forall i :: 0 <= i < |merged| ==> merged[i] in merged;
    SplitJoined(merged);
    MergeTwice(Lines(target), Lines(team));
  }
}
