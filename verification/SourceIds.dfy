/** The source id of a slot's request: "series:slot:attempt". */
module SourceIds {
  import opened Strings

  function AutoSourceText(series: string, slot: nat, attempt: nat): string {
    series + ":" + Decimal(slot) + ":" + Decimal(attempt)
  }

  predicate ColonFree(s: string) { forall i :: 0 <= i < |s| ==> s[i] != ':' }

  lemma {:induction false} BeforeColon(a: string, rest: string)
    requires ColonFree(a)
    ensures Before(a + ":" + rest, ":") == a
  {
    var s := a + ":" + rest;
    if a != "" {
      BeforeColon(a[1..], rest);
      assert s[1..] == a[1..] + ":" + rest && s[0] == a[0];
    }
  }

  lemma DigitsAreColonFree(n: nat)
    ensures ColonFree(Decimal(n))
  {
    DecimalReadsBack(n);
  }

  // Series, slot and attempt can be read off the text, so distinct slots never share a source id.
  lemma SlotSourcesAreDistinct(s: string, slot: nat, attempt: nat, s': string, slot': nat, attempt': nat)
    requires ColonFree(s) && ColonFree(s')
    requires AutoSourceText(s, slot, attempt) == AutoSourceText(s', slot', attempt')
    ensures s == s' && slot == slot' && attempt == attempt'
  {
    var tail, tail' := Decimal(slot) + ":" + Decimal(attempt), Decimal(slot') + ":" + Decimal(attempt');
    var text := AutoSourceText(s, slot, attempt);
    assert text == s + ":" + tail && text == s' + ":" + tail';
    BeforeColon(s, tail);
    BeforeColon(s', tail');
    assert tail == text[|s| + 1..] == tail';
    DigitsAreColonFree(slot);
    DigitsAreColonFree(slot');
    BeforeColon(Decimal(slot), Decimal(attempt));
    BeforeColon(Decimal(slot'), Decimal(attempt'));
    assert Decimal(attempt) == tail[|Decimal(slot)| + 1..] == Decimal(attempt');
    DecimalReadsBack(slot);
    DecimalReadsBack(slot');
    DecimalReadsBack(attempt);
    DecimalReadsBack(attempt');
  }

  lemma {:induction false} WrittenSource()
    ensures AutoSourceText("s", 3, 12) == "s:3:12"
  {
    assert Decimal(3) == "3" && Decimal(12) == "12";
  }
}
