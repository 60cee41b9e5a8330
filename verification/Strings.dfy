/** The text operations of the modelled code: trimming, decimal numbers, separators. */
module Strings {

  // The code points that Python's str.strip removes.
  predicate IsSpace(c: char) {
    var p := c as int;
    || 0x09 <= p <= 0x0d || 0x1c <= p <= 0x20 || p in {0x85, 0xa0, 0x1680, 0x2028, 0x2029, 0x202f, 0x205f, 0x3000}
    || 0x2000 <= p <= 0x200a
  }

  function LStrip(s: string): string {
    if s != "" && IsSpace(s[0]) then LStrip(s[1..]) else s
  }

  function RStrip(s: string): string {
    if s != "" && IsSpace(s[|s| - 1]) then RStrip(s[..|s| - 1]) else s
  }

  function Strip(s: string): string { RStrip(LStrip(s)) }

  function JoinLines(parts: seq<string>): string {
    if parts == [] then "" else if |parts| == 1 then parts[0] else parts[0] + "\n" + JoinLines(parts[1..])
  }

  predicate AllSpace(s: string) { forall i :: 0 <= i < |s| ==> IsSpace(s[i]) }

  // What is left of a text when the space before it is cut off.
  ghost predicate CutsLeft(s: string, rest: string) {
    && |rest| <= |s| && s[|s| - |rest|..] == rest && AllSpace(s[..|s| - |rest|])
    && (rest != "" ==> !IsSpace(rest[0]))
  }

  ghost predicate TrimsAt(s: string, rest: string, i: nat) {
    i + |rest| <= |s| && s[i..][..|rest|] == rest && AllSpace(s[..i]) && AllSpace(s[i..][|rest|..])
  }

  // What is left of a text when the space around it is cut off.
  ghost predicate Trims(s: string, rest: string) {
    && (exists i: nat :: TrimsAt(s, rest, i))
    && (rest != "" ==> !IsSpace(rest[0]) && !IsSpace(rest[|rest| - 1]))
  }

  lemma {:induction false} SpaceIsCut(c: char, s: string, rest: string)
    requires IsSpace(c) && CutsLeft(s, rest)
    ensures CutsLeft([c] + s, rest)
  {
    var longer, n := [c] + s, |s| - |rest|;
    assert longer[n + 1..] == s[n..] && longer[..n + 1] == [c] + s[..n];
  }

  lemma {:induction false} LStripCuts(s: string)
    ensures CutsLeft(s, LStrip(s))
  {
    if s != "" && IsSpace(s[0]) {
      LStripCuts(s[1..]);
      SpaceIsCut(s[0], s[1..], LStrip(s[1..]));
      assert s == [s[0]] + s[1..];
    } else {
      NothingIsCut(s);
    }
  }

  lemma {:induction false} NothingIsCut(s: string)
    requires s == "" || !IsSpace(s[0])
    ensures CutsLeft(s, s)
  {
    assert s[0..] == s;
  }

  lemma {:induction false} RStripCuts(s: string)
    ensures var rest := RStrip(s);
      && rest <= s && AllSpace(s[|rest|..]) && (rest != "" ==> !IsSpace(rest[|rest| - 1]))
  {
    if s != "" && IsSpace(s[|s| - 1]) {
      var init, rest := s[..|s| - 1], RStrip(s);
      RStripCuts(init);
      assert s[|rest|..] == init[|rest|..] + [s[|s| - 1]];
    }
  }

  lemma {:induction false} StripTrims(s: string)
    ensures Trims(s, Strip(s))
  {
    LStripCuts(s);
    var left := LStrip(s);
    RStripCuts(left);
    assert TrimsAt(s, Strip(s), |s| - |left|);
  }

  lemma {:induction false} TrimsOnce(s: string, a: string, b: string)
    requires Trims(s, a) && Trims(s, b)
    ensures a == b
  {
    var i: nat :| TrimsAt(s, a, i);
    var j: nat :| TrimsAt(s, b, j);
    assert forall k :: 0 <= k < |a| ==> s[i + k] == a[k];
    assert forall k :: 0 <= k < |b| ==> s[j + k] == b[k];
    assert forall k :: 0 <= k < |s| && (k < i || k >= i + |a|) ==> IsSpace(s[k]) by {
      assert forall k :: 0 <= k < i ==> s[..i][k] == s[k];
      assert forall k :: i + |a| <= k < |s| ==> s[i..][|a|..][k - i - |a|] == s[k];
    }
    assert forall k :: 0 <= k < |s| && (k < j || k >= j + |b|) ==> IsSpace(s[k]) by {
      assert forall k :: 0 <= k < j ==> s[..j][k] == s[k];
      assert forall k :: j + |b| <= k < |s| ==> s[j..][|b|..][k - j - |b|] == s[k];
    }
    if a != "" {
      assert s[i] == a[0] && s[i + |a| - 1] == a[|a| - 1];
    }
    if b != "" {
      assert s[j] == b[0] && s[j + |b| - 1] == b[|b| - 1];
    }
  }

  // A tab, a line end and a blank are space; letters, digits and punctuation are not.
  lemma {:induction false} SpaceOfAscii(c: char)
    requires ' ' <= c <= '~' || c == '\t' || c == '\n' || c == '\r'
    ensures IsSpace(c) <==> !('!' <= c <= '~')
  {
  }

  // The texts one after the other, with a line end between two of them and nowhere else.
  lemma {:induction false} JoinedBy(parts: seq<string>, last: string)
    ensures JoinLines([last]) == last
    ensures parts != [] ==> JoinLines(parts + [last]) == JoinLines(parts) + "\n" + last
  {
    if |parts| == 1 {
      assert (parts + [last])[1..] == [last];
    } else if parts != [] {
      assert (parts + [last])[1..] == parts[1..] + [last];
      JoinedBy(parts[1..], last);
    }
  }

  // ---- decimal numbers ----

  predicate IsDigit(c: char) { '0' <= c <= '9' }

  predicate AllDigits(s: string) { s != "" && forall i :: 0 <= i < |s| ==> IsDigit(s[i]) }

  function DigitOf(n: nat): char
    requires n < 10
  {
    '0' + n as char
  }

  function Decimal(n: nat): string {
    if n < 10 then [DigitOf(n)] else Decimal(n / 10) + [DigitOf(n % 10)]
  }

  function Value(s: string): nat
    requires forall i :: 0 <= i < |s| ==> IsDigit(s[i])
  {
    if s == "" then 0
    else
      assert IsDigit(s[|s| - 1]);
      10 * Value(s[..|s| - 1]) + (s[|s| - 1] as int - '0' as int)
  }

  // A printed number reads back, so different numbers print differently.
  lemma {:induction false} DecimalReadsBack(n: nat)
    ensures AllDigits(Decimal(n)) && Value(Decimal(n)) == n
  {
    if n >= 10 {
      DecimalReadsBack(n / 10);
      var front, text := Decimal(n / 10), Decimal(n);
      assert text[..|text| - 1] == front && text[|text| - 1] == DigitOf(n % 10);
    } else {
      assert Decimal(n)[..0] == "";
    }
  }

  // ---- separators ----

  // The text before the first occurrence of the separator, or all of it.
  function Before(s: string, separator: string): string {
    if s == "" || separator <= s then "" else [s[0]] + Before(s[1..], separator)
  }

  function RemovePrefix(s: string, prefix: string): string {
    if prefix <= s then s[|prefix|..] else s
  }
}
