/**
  The attempts of a knowledge request: source ids "id", "id#attempt-2", "id#attempt-3", ...,
  selected in SQL with LIKE. They are numbered without gaps and never confused, as long as the
  ids in use hold no LIKE wildcard, no separator, and no two differ only in ASCII case.
*/
module KnowledgeAttempts {
  import opened Strings

  const SEPARATOR := "#attempt-"

  // knowledge_request_id_from_source
  function IdFromSource(source: string): string { Before(source, SEPARATOR) }

  function Attempt(source: string, id: string): nat {
    var suffix := RemovePrefix(source, id + SEPARATOR);
    if source == id then 1 else if AllDigits(suffix) then Value(suffix) else 1
  }

  function AttemptText(id: string, attempt: nat): string {
    if attempt <= 1 then id else id + SEPARATOR + Decimal(attempt)
  }

  // ---- SQL LIKE, which ignores the case of ASCII letters ----

  function Fold(c: char): char {
    if 'A' <= c <= 'Z' then c - 'A' + 'a' else c
  }

  predicate Like(pattern: string, text: string)
    decreases |pattern| + |text|
  {
    if pattern == "" then text == ""
    else if pattern[0] == '%' then Like(pattern[1..], text) || (text != "" && Like(pattern, text[1..]))
    else text != "" && (pattern[0] == '_' || Fold(pattern[0]) == Fold(text[0])) && Like(pattern[1..], text[1..])
  }

  predicate SameFolded(a: string, b: string) {
    |a| == |b| && forall i :: 0 <= i < |a| ==> Fold(a[i]) == Fold(b[i])
  }

  lemma SameFoldedConcat(a: string, b: string, c: string, d: string)
    requires |a| == |c|
    ensures SameFolded(a + b, c + d) <==> SameFolded(a, c) && SameFolded(b, d)
  {
    var x, y := a + b, c + d;
    if SameFolded(x, y) {
      forall i | 0 <= i < |a| ensures Fold(a[i]) == Fold(c[i]) { assert Fold(x[i]) == Fold(y[i]); }
      forall i | 0 <= i < |b| ensures Fold(b[i]) == Fold(d[i]) { assert Fold(x[|a| + i]) == Fold(y[|a| + i]); }
    }
  }

  predicate NoWildcard(s: string) { forall i :: 0 <= i < |s| ==> s[i] != '%' && s[i] != '_' }

  lemma {:induction false} PercentMatchesAll(text: string)
    ensures Like("%", text)
  {
    if text == "" {
      assert Like("%"[1..], text);
    } else {
      PercentMatchesAll(text[1..]);
    }
  }

  lemma {:induction false} LikePrefix(prefix: string, text: string)
    requires NoWildcard(prefix)
    ensures Like(prefix + "%", text) <==> |prefix| <= |text| && SameFolded(prefix, text[..|prefix|])
  {
    if prefix == "" {
      assert prefix + "%" == "%";
      PercentMatchesAll(text);
    } else {
      var pattern := prefix + "%";
      assert pattern[0] == prefix[0] && pattern[1..] == prefix[1..] + "%";
      if text != "" {
        LikePrefix(prefix[1..], text[1..]);
        if |prefix| <= |text| {
          var tail := text[1..][..|prefix| - 1];
          SameFoldedConcat([prefix[0]], prefix[1..], [text[0]], tail);
          assert [prefix[0]] + prefix[1..] == prefix && [text[0]] + tail == text[..|prefix|];
          assert SameFolded([prefix[0]], [text[0]]) <==> Fold(prefix[0]) == Fold(text[0]);
        }
      }
    }
  }

  // ---- ids that stay apart ----

  // The separator starts at p, up to ASCII case.
  predicate SeparatorAt(s: string, p: nat) {
    p + 9 <= |s| && SameFolded(SEPARATOR, s[p..p + 9])
  }

  predicate Plain(id: string) {
    id != "" && NoWildcard(id) && forall p :: 0 <= p < |id| ==> !SeparatorAt(id, p)
  }

  // Ids used together: plain, and no two the same up to ASCII case.
  predicate Apart(ids: set<string>) {
    && (forall id :: id in ids ==> Plain(id))
    && (forall a, b :: a in ids && b in ids && SameFolded(a, b) ==> a == b)
  }

  lemma SeparatorStartsWithHash(s: string, p: nat)
    requires SeparatorAt(s, p)
    ensures s[p] == '#' && forall i :: p < i < p + 9 ==> s[i] != '#'
  {
    var window := s[p..p + 9];
    assert window[0] == s[p];
    assert SEPARATOR == ['#', 'a', 't', 't', 'e', 'm', 'p', 't', '-'];
    forall i | p < i < p + 9 ensures s[i] != '#' {
      assert window[i - p] == s[i] && Fold(SEPARATOR[i - p]) == Fold(window[i - p]);
      assert SEPARATOR[i - p] != '#';
    }
  }

  // In the source of a later attempt the separator starts only where the id ends.
  lemma OnlySeparator(id: string, rest: string, p: nat)
    requires Plain(id) && (forall i :: 0 <= i < |rest| ==> rest[i] != '#')
    ensures SeparatorAt(id + SEPARATOR + rest, p) <==> p == |id|
  {
    var s := id + SEPARATOR + rest;
    assert s[|id|..|id| + 9] == SEPARATOR;
    assert SeparatorAt(s, |id|);
    SeparatorStartsWithHash(s, |id|);
    if SeparatorAt(s, p) {
      SeparatorStartsWithHash(s, p);
      if p + 9 <= |id| {
        assert s[p..p + 9] == id[p..p + 9];
        assert SeparatorAt(id, p);
      }
    }
  }

  lemma LeadingSeparator(s: string, k: nat)
    requires k <= |s|
    ensures SEPARATOR <= s[k..] ==> SeparatorAt(s, k)
  {
    if SEPARATOR <= s[k..] {
      assert s[k..][..9] == s[k..k + 9];
    }
  }

  lemma BeforeSeparator(id: string, rest: string)
    requires Plain(id) && (forall i :: 0 <= i < |rest| ==> rest[i] != '#')
    ensures Before(id + SEPARATOR + rest, SEPARATOR) == id
  {
    BeforeIfOnlyThere(id, id + SEPARATOR + rest, rest, 0);
  }

  lemma {:induction false} BeforeIfOnlyThere(id: string, s: string, rest: string, k: nat)
    requires Plain(id) && s == id + SEPARATOR + rest && (forall i :: 0 <= i < |rest| ==> rest[i] != '#') && k <= |id|
    ensures Before(s[k..], SEPARATOR) == id[k..]
    decreases |id| - k
  {
    OnlySeparator(id, rest, k);
    if k < |id| {
      LeadingSeparator(s, k);
      BeforeIfOnlyThere(id, s, rest, k + 1);
      assert s[k..][1..] == s[k + 1..] && id[k..] == [id[k]] + id[k + 1..];
    } else {
      assert s[k..] == SEPARATOR + rest;
    }
  }

  lemma {:induction false} BeforePlain(id: string, k: nat)
    requires Plain(id) && k <= |id|
    ensures Before(id[k..], SEPARATOR) == id[k..]
    decreases |id| - k
  {
    if k < |id| {
      LeadingSeparator(id, k);
      BeforePlain(id, k + 1);
      assert id[k..][1..] == id[k + 1..];
    }
  }

  // Both the id and the attempt number are recovered from every source id.
  lemma SourceRecovers(id: string, attempt: nat)
    requires Plain(id) && attempt >= 1
    ensures IdFromSource(AttemptText(id, attempt)) == id && Attempt(AttemptText(id, attempt), id) == attempt
  {
    if attempt == 1 {
      BeforePlain(id, 0);
      assert id[0..] == id;
    } else {
      DecimalReadsBack(attempt);
      BeforeSeparator(id, Decimal(attempt));
      assert (id + SEPARATOR + Decimal(attempt))[|id + SEPARATOR|..] == Decimal(attempt);
    }
  }

  // The where clause of the select.
  predicate Matches(source: string, id: string) {
    source == id || Like(id + SEPARATOR + "%", source)
  }

  // An id selects the later attempts of exactly the ids equal to it up to ASCII case.
  lemma MatchesIffSameFolded(source: string, id: string, other: string, attempt: nat)
    requires Plain(id) && Plain(other) && attempt >= 1 && source == AttemptText(other, attempt)
    ensures Matches(source, id) <==> (if attempt == 1 then id == other else SameFolded(id, other))
  {
    var prefix := id + SEPARATOR;
    assert NoWildcard(SEPARATOR) by { assert SEPARATOR == ['#', 'a', 't', 't', 'e', 'm', 'p', 't', '-']; }
    LikePrefix(prefix, source);
    PrefixIsSeparated(prefix, id, source);
    if attempt == 1 {
      assert !SeparatorAt(source, |id|);
    } else {
      DecimalReadsBack(attempt);
      OnlySeparator(other, Decimal(attempt), |id|);
      if |id| == |other| {
        assert source[..|id|] == other;
      }
      OnlySeparator(other, Decimal(attempt), |other|);
      assert SeparatorAt(source, |other|);
    }
  }

  lemma PrefixIsSeparated(prefix: string, id: string, source: string)
    requires prefix == id + SEPARATOR
    ensures |prefix| <= |source| && SameFolded(prefix, source[..|prefix|])
      <==> |id| <= |source| && SameFolded(id, source[..|id|]) && SeparatorAt(source, |id|)
  {
    if |prefix| <= |source| {
      var window := source[|id|..|id| + 9];
      SameFoldedConcat(id, SEPARATOR, source[..|id|], window);
      assert source[..|id|] + window == source[..|prefix|];
    }
  }

  // A text is the part before its separator, or continues with the separator after it.
  lemma {:induction false} BeforeSplits(text: string)
    ensures text == IdFromSource(text) || IdFromSource(text) + SEPARATOR <= text
  {
    if text != "" && !(SEPARATOR <= text) {
      BeforeSplits(text[1..]);
      var rest := IdFromSource(text[1..]);
      assert IdFromSource(text) == [text[0]] + rest && text == [text[0]] + text[1..];
      if rest + SEPARATOR <= text[1..] {
        assert [text[0]] + (rest + SEPARATOR) == [text[0]] + rest + SEPARATOR;
      }
    } else if text != "" {
      assert "" + SEPARATOR == SEPARATOR;
    }
  }

  // The select never misses a row of its own id.
  lemma OwnSourceMatches(source: string, id: string)
    requires NoWildcard(id) && IdFromSource(source) == id
    ensures Matches(source, id)
  {
    BeforeSplits(source);
    if source != id {
      var prefix := id + SEPARATOR;
      assert NoWildcard(SEPARATOR) by { assert SEPARATOR == ['#', 'a', 't', 't', 'e', 'm', 'p', 't', '-']; }
      LikePrefix(prefix, source);
      assert source[..|prefix|] == prefix;
    }
  }
}
