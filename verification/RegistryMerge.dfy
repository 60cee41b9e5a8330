/**
  Merging the generated document registry: documents keyed by path, the target's winning, in
  path order, under the target's other fields.
*/
module RegistryMerge {
  import opened Outcomes
  import opened EventStream
  import opened Paging
  import opened Sequences

  type Fields = map<string, Json>

  const INDEX_PATH := "docs/component-inspector/index.md"

  // A document is an object with a non-empty path.
  predicate IsDocument(d: Json) { d.JObject? && Field(d.fields, "path") != "" }

  predicate AllDocuments(documents: seq<Json>) { forall i :: 0 <= i < |documents| ==> IsDocument(documents[i]) }

  // The last document of each path.
  function ByPath(documents: seq<Json>): map<string, Json>
    requires AllDocuments(documents)
  {
    if documents == [] then map[]
    else
      var last := documents[|documents| - 1];
      ByPath(documents[..|documents| - 1])[Field(last.fields, "path") := last]
  }

  function Paths(documents: seq<Json>): seq<string>
    requires AllDocuments(documents)
  {
    if documents == [] then []
    else Paths(documents[..|documents| - 1]) + [Field(documents[|documents| - 1].fields, "path")]
  }

  function PathKey(path: string): Key { Stamp(path, "") }

  function Every(): string -> bool { (path: string) => true }

  // Ascending.
  function SortedPaths(paths: seq<string>): seq<string> {
    Reverse(Listing(Deduped(paths), PathKey, Every(), None))
  }

  function DocumentsOf(registry: Json): Option<seq<Json>> {
    if registry.JObject? && "documents" in registry.fields && registry.fields["documents"].JArray?
    then Some(registry.fields["documents"].items)
    else None
  }

  // A merged index report refreshes the excerpt of its own document.
  function WithExcerpt(path: string, d: Json, excerpt: Option<string>): Json
    requires d.JObject?
  {
    if path == INDEX_PATH && excerpt.Some? then JObject(d.fields["excerpt" := JString(excerpt.value)]) else d
  }

  function Listed(byPath: map<string, Json>, paths: seq<string>, excerpt: Option<string>): seq<Json>
    requires forall i :: 0 <= i < |paths| ==> paths[i] in byPath && byPath[paths[i]].JObject?
  {
    seq(|paths|, i requires 0 <= i < |paths| => WithExcerpt(paths[i], byPath[paths[i]], excerpt))
  }

  // `excerpt` is that of the merged index report, when there is one.
  function MergeRegistry(target: Json, team: Json, excerpt: Option<string>): Option<Json> {
    var ours, theirs := DocumentsOf(target), DocumentsOf(team);
    if ours.None? || theirs.None? || !AllDocuments(theirs.value + ours.value) then None
    else
      var all := theirs.value + ours.value;
      PathsAreKeys(all);
      PathsSorted(Paths(all));
      var documents := Listed(ByPath(all), SortedPaths(Paths(all)), excerpt);
      Some(JObject(WithDocuments(target.fields, documents)))
  }

  function WithDocuments(fields: Fields, documents: seq<Json>): Fields {
    fields["document_count" := JInt(|documents|)]["documents" := JArray(documents)]
  }

  // ---- paths and keys ----

  lemma {:induction false} PathsAreKeys(documents: seq<Json>)
    requires AllDocuments(documents)
    ensures forall p :: p in ByPath(documents) <==> p in Paths(documents)
    ensures forall p :: p in ByPath(documents) ==>
      p != "" && ByPath(documents)[p] in documents && IsDocument(ByPath(documents)[p])
          && Field(ByPath(documents)[p].fields, "path") == p
  {
    if documents != [] {
      var init, last := documents[..|documents| - 1], documents[|documents| - 1];
      PathsAreKeys(init);
      assert documents == init + [last];
    }
  }

  ghost predicate Ascending(paths: seq<string>) {
    forall i, j :: 0 <= i < j < |paths| ==> KeyLess(PathKey(paths[i]), PathKey(paths[j]))
  }

  lemma PathsSorted(paths: seq<string>)
    ensures Ascending(SortedPaths(paths))
    ensures forall p :: p in SortedPaths(paths) <==> p in paths
  {
    var listing := Listing(Deduped(paths), PathKey, Every(), None);
    DedupedOnce(paths);
    ListingIsSorted(Deduped(paths), PathKey, Every(), None);
    assert forall p :: Wanted(p, PathKey, Every(), None);
    ReverseHas(listing);
    forall i, j | 0 <= i < j < |SortedPaths(paths)|
      ensures KeyLess(PathKey(SortedPaths(paths)[i]), PathKey(SortedPaths(paths)[j]))
    {
      ReverseAt(listing, i);
      ReverseAt(listing, j);
    }
  }

  lemma SamePathsSortSame(a: seq<string>, b: seq<string>)
    requires forall p :: p in a <==> p in b
    ensures SortedPaths(a) == SortedPaths(b)
  {
    DedupedOnce(a);
    DedupedOnce(b);
    ListingIsSorted(Deduped(a), PathKey, Every(), None);
    ListingIsSorted(Deduped(b), PathKey, Every(), None);
    assert forall p :: Wanted(p, PathKey, Every(), None);
    DescendingUnique(Listing(Deduped(a), PathKey, Every(), None), Listing(Deduped(b), PathKey, Every(), None), PathKey);
  }

  lemma BothAreDocuments(first: seq<Json>, second: seq<Json>)
    ensures AllDocuments(first + second) <==> AllDocuments(first) && AllDocuments(second)
  {
    var all := first + second;
    assert forall i :: 0 <= i < |first| ==> all[i] == first[i];
    assert forall i :: 0 <= i < |second| ==> all[|first| + i] == second[i];
  }

  lemma AllButLast(documents: seq<Json>)
    requires documents != [] && AllDocuments(documents)
    ensures AllDocuments(documents[..|documents| - 1]) && IsDocument(documents[|documents| - 1])
  {
  }

  // In the concatenation the later documents win.
  lemma {:induction false} LaterWins(first: seq<Json>, second: seq<Json>)
    requires AllDocuments(first) && AllDocuments(second)
    ensures AllDocuments(first + second)
    ensures ByPath(first + second) == ByPath(first) + ByPath(second)
    ensures Paths(first + second) == Paths(first) + Paths(second)
    decreases |second|
  {
    BothAreDocuments(first, second);
    if second == [] {
      assert first + second == first;
    } else {
      var init, last := second[..|second| - 1], second[|second| - 1];
      AllButLast(second);
      LaterWins(first, init);
      LastOfBoth(first, second);
    }
  }

  lemma {:induction false} LastOfBoth(first: seq<Json>, second: seq<Json>)
    requires AllDocuments(first) && AllDocuments(second) && second != [] && AllDocuments(first + second)
    requires AllDocuments(second[..|second| - 1]) && AllDocuments(first + second[..|second| - 1])
    requires ByPath(first + second[..|second| - 1]) == ByPath(first) + ByPath(second[..|second| - 1])
    requires Paths(first + second[..|second| - 1]) == Paths(first) + Paths(second[..|second| - 1])
    ensures ByPath(first + second) == ByPath(first) + ByPath(second)
    ensures Paths(first + second) == Paths(first) + Paths(second)
  {
    var init, last, all := second[..|second| - 1], second[|second| - 1], first + second;
    assert all[..|all| - 1] == first + init && all[|all| - 1] == last;
    assert ByPath(all) == ByPath(first + init)[Field(last.fields, "path") := last];
    assert ByPath(second) == ByPath(init)[Field(last.fields, "path") := last];
  }

  // ---- what the merge gives ----

  // The document listed for a path: the target's, or else the team's, with a fresh excerpt.
  function Winner(ours: seq<Json>, theirs: seq<Json>, path: string, excerpt: Option<string>): Json
    requires AllDocuments(ours) && AllDocuments(theirs) && (path in Paths(ours) || path in Paths(theirs))
  {
    PathsAreKeys(ours);
    PathsAreKeys(theirs);
    WithExcerpt(path, if path in ByPath(ours) then ByPath(ours)[path] else ByPath(theirs)[path], excerpt)
  }

  /**
    The merged registry lists, in ascending path order, exactly one document for each path of
    either side, the target's where it has one; document_count is their number, and every other
    field is the target's.
  */
  lemma MergeGives(target: Json, team: Json, excerpt: Option<string>)
    requires MergeRegistry(target, team, excerpt).Some?
    ensures var merged, ours, theirs := MergeRegistry(target, team, excerpt).value, DocumentsOf(target).value,
        DocumentsOf(team).value;
      && merged.JObject? && AllDocuments(ours) && AllDocuments(theirs) && DocumentsOf(merged).Some?
      && var documents, paths := DocumentsOf(merged).value, SortedPaths(Paths(theirs + ours));
         && merged.fields["document_count"] == JInt(|documents|)
         && |documents| == |paths| && Ascending(paths)
         && (forall p :: p in paths <==> p in Paths(ours) || p in Paths(theirs))
         && (forall i :: 0 <= i < |paths| ==> documents[i] == Winner(ours, theirs, paths[i], excerpt))
         && (forall key :: key !in {"document_count", "documents"} ==>
              (key in merged.fields <==> key in target.fields)
                  && (key in target.fields ==> merged.fields[key] == target.fields[key]))
  {
    var ours, theirs := DocumentsOf(target).value, DocumentsOf(team).value;
    var all := theirs + ours;
    BothAreDocuments(theirs, ours);
    LaterWins(theirs, ours);
    PathsAreKeys(all);
    PathsAreKeys(ours);
    PathsAreKeys(theirs);
    PathsSorted(Paths(all));
  }

  // Registries that are not objects with document lists, or that list anything else, do not merge.
  lemma MergesIff(target: Json, team: Json, excerpt: Option<string>)
    ensures MergeRegistry(target, team, excerpt).Some? <==>
      && DocumentsOf(target).Some? && DocumentsOf(team).Some?
      && AllDocuments(DocumentsOf(target).value) && AllDocuments(DocumentsOf(team).value)
  {
    if DocumentsOf(target).Some? && DocumentsOf(team).Some? {
      BothAreDocuments(DocumentsOf(team).value, DocumentsOf(target).value);
    }
  }

  // ---- merging twice ----

  lemma ExcerptKeepsPath(path: string, d: Json, excerpt: Option<string>)
    requires IsDocument(d)
    ensures IsDocument(WithExcerpt(path, d, excerpt))
        && Field(WithExcerpt(path, d, excerpt).fields, "path") == Field(d.fields, "path")
    ensures WithExcerpt(path, WithExcerpt(path, d, excerpt), excerpt) == WithExcerpt(path, d, excerpt)
  {
    if path == INDEX_PATH && excerpt.Some? {
      var fields := d.fields["excerpt" := JString(excerpt.value)];
      assert fields["excerpt" := JString(excerpt.value)] == fields;
    }
  }

  // Each path leads to a document that names it.
  ghost predicate Keyed(byPath: map<string, Json>, paths: seq<string>) {
    && (forall i :: 0 <= i < |paths| ==> paths[i] in byPath && byPath[paths[i]].JObject?)
    && (forall i :: 0 <= i < |paths| ==> Field(byPath[paths[i]].fields, "path") == paths[i] && paths[i] != "")
  }

  lemma ListedAreDocuments(byPath: map<string, Json>, paths: seq<string>, excerpt: Option<string>)
    requires Keyed(byPath, paths)
    ensures var documents := Listed(byPath, paths, excerpt);
      forall i :: 0 <= i < |paths| ==> IsDocument(documents[i]) && Field(documents[i].fields, "path") == paths[i]
  {
    forall i | 0 <= i < |paths|
      ensures IsDocument(Listed(byPath, paths, excerpt)[i])
          && Field(Listed(byPath, paths, excerpt)[i].fields, "path") == paths[i]
    {
      ExcerptKeepsPath(paths[i], byPath[paths[i]], excerpt);
    }
  }

  lemma {:induction false} NamedDocuments(documents: seq<Json>, paths: seq<string>)
    requires |documents| == |paths| && AllDocuments(documents)
    requires forall i :: 0 <= i < |paths| ==> Field(documents[i].fields, "path") == paths[i]
    ensures Paths(documents) == paths
  {
    if paths != [] {
      NamedDocuments(documents[..|paths| - 1], paths[..|paths| - 1]);
      assert paths == paths[..|paths| - 1] + [paths[|paths| - 1]];
    }
  }

  // With distinct paths every document is found again under its own.
  lemma {:induction false} DistinctDocuments(documents: seq<Json>, i: nat)
    requires AllDocuments(documents) && i < |documents|
    requires forall j, k :: 0 <= j < k < |documents| ==>
        Field(documents[j].fields, "path") != Field(documents[k].fields, "path")
    ensures var p := Field(documents[i].fields, "path"); p in ByPath(documents) && ByPath(documents)[p] == documents[i]
  {
    var last := |documents| - 1;
    if i < last {
      DistinctDocuments(documents[..last], i);
    }
  }

  // Reading a listing back gives the listed documents under the same paths.
  lemma ListedReadsBack(byPath: map<string, Json>, paths: seq<string>, excerpt: Option<string>)
    requires Keyed(byPath, paths) && forall i, j :: 0 <= i < j < |paths| ==> paths[i] != paths[j]
    ensures var documents := Listed(byPath, paths, excerpt);
      && AllDocuments(documents) && Paths(documents) == paths
      && (forall i :: 0 <= i < |paths| ==> paths[i] in ByPath(documents) && ByPath(documents)[paths[i]] == WithExcerpt(paths[i], byPath[paths[i]], excerpt))
  {
    var documents := Listed(byPath, paths, excerpt);
    ListedAreDocuments(byPath, paths, excerpt);
    NamedDocuments(documents, paths);
    forall i | 0 <= i < |paths| ensures paths[i] in ByPath(documents) && ByPath(documents)[paths[i]] == documents[i] {
      DistinctDocuments(documents, i);
    }
  }

  lemma AscendingAreDistinct(paths: seq<string>)
    requires Ascending(paths)
    ensures forall i, j :: 0 <= i < j < |paths| ==> paths[i] != paths[j]
  {
    forall i, j | 0 <= i < j < |paths| ensures paths[i] != paths[j] {
      KeyTotal(PathKey(paths[i]), PathKey(paths[j]));
    }
  }

  lemma ListedAgain(byPath: map<string, Json>, again: map<string, Json>, paths: seq<string>, excerpt: Option<string>)
    requires Keyed(byPath, paths)
    requires forall i :: 0 <= i < |paths| ==>
        paths[i] in again && again[paths[i]] == WithExcerpt(paths[i], byPath[paths[i]], excerpt)
    ensures Keyed(again, paths) && Listed(again, paths, excerpt) == Listed(byPath, paths, excerpt)
  {
    forall i | 0 <= i < |paths|
      ensures again[paths[i]].JObject? && Field(again[paths[i]].fields, "path") == paths[i]
      ensures WithExcerpt(paths[i], again[paths[i]], excerpt) == again[paths[i]]
    {
      ExcerptKeepsPath(paths[i], byPath[paths[i]], excerpt);
    }
  }

  lemma DocumentsAreKeyed(all: seq<Json>)
    requires AllDocuments(all)
    ensures Keyed(ByPath(all), SortedPaths(Paths(all)))
  {
    PathsAreKeys(all);
    PathsSorted(Paths(all));
    var paths := SortedPaths(Paths(all));
    assert forall i :: 0 <= i < |paths| ==> paths[i] in paths;
  }

  // The documents of the merged registry, merged with the same side again.
  lemma DocumentsMergeTwice(theirs: seq<Json>, ours: seq<Json>, excerpt: Option<string>)
    requires AllDocuments(theirs) && AllDocuments(ours)
    ensures var all := theirs + ours;
      && AllDocuments(all) && Keyed(ByPath(all), SortedPaths(Paths(all)))
      && var documents := Listed(ByPath(all), SortedPaths(Paths(all)), excerpt);
         && AllDocuments(documents) && AllDocuments(theirs + documents)
         && Keyed(ByPath(theirs + documents), SortedPaths(Paths(theirs + documents)))
         && Listed(ByPath(theirs + documents), SortedPaths(Paths(theirs + documents)), excerpt) == documents
  {
    var all := theirs + ours;
    LaterWins(theirs, ours);
    DocumentsAreKeyed(all);
    var paths := SortedPaths(Paths(all));
    var documents := Listed(ByPath(all), paths, excerpt);
    PathsSorted(Paths(all));
    AscendingAreDistinct(paths);
    ListedReadsBack(ByPath(all), paths, excerpt);
    LaterWins(theirs, documents);
    SamePathsSortSame(Paths(theirs) + paths, Paths(theirs) + Paths(ours));
    assert forall i :: 0 <= i < |paths| ==> paths[i] in paths;
    var again := ByPath(theirs) + ByPath(documents);
    SortedAgain(Paths(all));
    ListedAgain(ByPath(all), again, paths, excerpt);
  }

  lemma SortedAgain(paths: seq<string>)
    ensures SortedPaths(SortedPaths(paths)) == SortedPaths(paths)
  {
    PathsSorted(paths);
    SamePathsSortSame(SortedPaths(paths), paths);
  }

  // Merging the same side into the merged registry changes nothing.
  lemma MergeTwice(target: Json, team: Json, excerpt: Option<string>)
    requires MergeRegistry(target, team, excerpt).Some?
    ensures MergeRegistry(MergeRegistry(target, team, excerpt).value, team, excerpt)
        == MergeRegistry(target, team, excerpt)
  {
    var ours, theirs := DocumentsOf(target).value, DocumentsOf(team).value;
    MergesIff(target, team, excerpt);
    DocumentsMergeTwice(theirs, ours, excerpt);
    var documents := Listed(ByPath(theirs + ours), SortedPaths(Paths(theirs + ours)), excerpt);
    MergedDocuments(target.fields, documents);
  }

  lemma MergedDocuments(fields: Fields, documents: seq<Json>)
    ensures DocumentsOf(JObject(WithDocuments(fields, documents))) == Some(documents)
    ensures WithDocuments(WithDocuments(fields, documents), documents) == WithDocuments(fields, documents)
  {
  }

  // ---- the loop ----

  // Fills the dict document by document, giving up at the first that is not one.
  method CollectByPath(documents: seq<Json>) returns (byPath: Option<map<string, Json>>)
    ensures byPath.Some? <==> AllDocuments(documents)
    ensures byPath.Some? ==> byPath.value == ByPath(documents)
  {
    var collected: map<string, Json> := map[];
    for i := 0 to |documents|
      invariant AllDocuments(documents[..i])
      invariant collected == ByPath(documents[..i])
    {
      if !IsDocument(documents[i]) {
        return None;
      }
      var next := documents[..i + 1];
      assert next[..i] == documents[..i] && next[i] == documents[i];
      assert forall j :: 0 <= j < i ==> next[j] == documents[..i][j];
      collected := collected[Field(documents[i].fields, "path") := documents[i]];
    }
    assert documents[..|documents|] == documents;
    return Some(collected);
  }
}
