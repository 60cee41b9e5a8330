/**
  Page cursors: a JSON list in base64url without padding (sections 3.2 and 5 of RFC 4648). The
  JSON text of a list of scalars is a parameter.
*/
module Cursors {
  import opened Outcomes
  import opened Paging

  newtype Byte = x: int | 0 <= x < 256
  newtype Sextet = x: int | 0 <= x < 64

  // ---- base64url ----

  function CharOf(s: Sextet): char {
    var n := s as int;
    if n < 26 then 'A' + n as char
    else if n < 52 then 'a' + (n - 26) as char
    else if n < 62 then '0' + (n - 52) as char
    else if n == 62 then '-' else '_'
  }

  function SextetOf(c: char): Option<Sextet> {
    if 'A' <= c <= 'Z' then Some((c as int - 'A' as int) as Sextet)
    else if 'a' <= c <= 'z' then Some((c as int - 'a' as int + 26) as Sextet)
    else if '0' <= c <= '9' then Some((c as int - '0' as int + 52) as Sextet)
    else if c == '-' then Some(62) else if c == '_' then Some(63) else None
  }

  function Sextets(b: seq<Byte>): seq<Sextet> {
    if |b| == 0 then []
    else if |b| == 1 then [(b[0] / 4) as Sextet, (b[0] % 4 * 16) as Sextet]
    else if |b| == 2 then
      [(b[0] / 4) as Sextet, (b[0] as int % 4 * 16 + b[1] as int / 16) as Sextet, (b[1] as int % 16 * 4) as Sextet]
    else
      [(b[0] / 4) as Sextet, (b[0] as int % 4 * 16 + b[1] as int / 16) as Sextet,
       (b[1] as int % 16 * 4 + b[2] as int / 64) as Sextet, (b[2] % 64) as Sextet] + Sextets(b[3..])
  }

  // A lone trailing character holds no whole byte.
  function Octets(s: seq<Sextet>): Option<seq<Byte>> {
    if |s| == 0 then Some([])
    else if |s| == 1 then None
    else
      var first := (s[0] as int * 4 + s[1] as int / 16) as Byte;
      if |s| == 2 then Some([first])
      else
        var second := (s[1] as int % 16 * 16 + s[2] as int / 4) as Byte;
        if |s| == 3 then Some([first, second])
        else
          var rest := Octets(s[4..]);
          if rest.None? then None else Some([first, second, (s[2] as int % 4 * 64 + s[3] as int) as Byte] + rest.value)
  }

  function EncodeBytes(b: seq<Byte>): string {
    var s := Sextets(b);
    seq(|s|, i requires 0 <= i < |s| => CharOf(s[i]))
  }

  function SextetsOf(text: string): Option<seq<Sextet>> {
    if text == "" then Some([])
    else
      var first, rest := SextetOf(text[0]), SextetsOf(text[1..]);
      if first.None? || rest.None? then None else Some([first.value] + rest.value)
  }

  function DecodeText(text: string): Option<seq<Byte>> {
    var s := SextetsOf(text);
    if s.None? then None else Octets(s.value)
  }

  lemma ThreeBytes(a: Byte, b: Byte, c: Byte)
    ensures var first, second, third :=
      (a as int % 4 * 16 + b as int / 16) as Sextet, (b as int % 16 * 4 + c as int / 64) as Sextet, (c % 64) as Sextet;
      && (a / 4) as int * 4 + first as int / 16 == a as int
      && first as int % 16 * 16 + second as int / 4 == b as int
      && second as int % 4 * 64 + third as int == c as int
  {
  }

  lemma {:induction false} OctetsOfSextets(b: seq<Byte>)
    ensures Octets(Sextets(b)) == Some(b)
    ensures |Sextets(b)| == (4 * |b| + 2) / 3
  {
    if |b| >= 3 {
      OctetsOfSextets(b[3..]);
      ThreeBytes(b[0], b[1], b[2]);
      assert Sextets(b)[4..] == Sextets(b[3..]);
      assert b == [b[0], b[1], b[2]] + b[3..];
    } else if |b| == 2 {
      ThreeBytes(b[0], b[1], 0);
      assert b == [b[0], b[1]];
    } else if |b| == 1 {
      ThreeBytes(b[0], 0, 0);
      assert b == [b[0]];
    }
  }

  lemma {:induction false} SextetsOfChars(s: seq<Sextet>)
    ensures SextetsOf(seq(|s|, i requires 0 <= i < |s| => CharOf(s[i]))) == Some(s)
  {
    var text := seq(|s|, i requires 0 <= i < |s| => CharOf(s[i]));
    if s != [] {
      SextetsOfChars(s[1..]);
      assert text[0] == CharOf(s[0]) && SextetOf(CharOf(s[0])) == Some(s[0]) && s == [s[0]] + s[1..];
      assert text[1..] == seq(|s[1..]|, i requires 0 <= i < |s[1..]| => CharOf(s[1..][i]));
    }
  }

  // Every byte string is recovered, and four characters carry three bytes.
  lemma BytesRoundTrip(b: seq<Byte>)
    ensures DecodeText(EncodeBytes(b)) == Some(b)
    ensures |EncodeBytes(b)| == (4 * |b| + 2) / 3
  {
    OctetsOfSextets(b);
    SextetsOfChars(Sextets(b));
  }

  // The sixty-four characters of section 5 of RFC 4648: A to Z, a to z, 0 to 9, - and _.
  lemma {:induction false} Alphabet(s: Sextet)
    ensures CharOf(0) == 'A' && CharOf(25) == 'Z' && CharOf(26) == 'a' && CharOf(51) == 'z'
    ensures CharOf(52) == '0' && CharOf(61) == '9' && CharOf(62) == '-' && CharOf(63) == '_'
    ensures s < 61 && s != 25 && s != 51 ==> CharOf(s + 1) as int == CharOf(s) as int + 1
  {
  }

  function ByteAt(b: seq<Byte>, i: nat): int { if i < |b| then b[i] as int else 0 }

  // The three bytes of group q as one number of 24 bits; missing bytes are zero.
  function GroupOf(b: seq<Byte>, q: nat): int {
    ByteAt(b, 3 * q) * 0x1_0000 + ByteAt(b, 3 * q + 1) * 0x100 + ByteAt(b, 3 * q + 2)
  }

  // Its k-th six bits, the highest first.
  function SixBits(group: int, k: nat): int {
    if k == 0 then group / 0x4_0000 else if k == 1 then group / 0x1000 % 64
    else if k == 2 then group / 64 % 64 else group % 64
  }

  lemma DigitsOf64(a: int, b: int, c: int, d: int)
    requires 0 <= b < 64 && 0 <= c < 64 && 0 <= d < 64
    ensures var group := 0x4_0000 * a + 0x1000 * b + 64 * c + d;
      SixBits(group, 0) == a && SixBits(group, 1) == b % 64 && SixBits(group, 2) == c && SixBits(group, 3) == d
  {
    var group := 0x4_0000 * a + 0x1000 * b + 64 * c + d;
    assert group / 64 == 0x1000 * a + 64 * b + c;
    assert group / 0x1000 == 64 * a + b;
  }

  lemma {:induction false} BitsOfThree(a: Byte, b: Byte, c: Byte)
    ensures var group := a as int * 0x1_0000 + b as int * 0x100 + c as int;
      && SixBits(group, 0) == (a / 4) as int && SixBits(group, 1) == a as int % 4 * 16 + b as int / 16
      && SixBits(group, 2) == b as int % 16 * 4 + c as int / 64 && SixBits(group, 3) == (c % 64) as int
  {
    BitsOfNumbers(a as int, b as int, c as int);
  }

  lemma BitsOfNumbers(a: int, b: int, c: int)
    requires 0 <= a < 256 && 0 <= b < 256 && 0 <= c < 256
    ensures var group := a * 0x1_0000 + b * 0x100 + c;
      && SixBits(group, 0) == a / 4 && SixBits(group, 1) == a % 4 * 16 + b / 16
      && SixBits(group, 2) == b % 16 * 4 + c / 64 && SixBits(group, 3) == c % 64
  {
    Remainders(a, b, c);
    DigitsOf64(a / 4, a % 4 * 16 + b / 16, b % 16 * 4 + c / 64, c % 64);
  }

  lemma Remainders(a: int, b: int, c: int)
    requires 0 <= a < 256 && 0 <= b < 256 && 0 <= c < 256
    ensures a * 0x1_0000 + b * 0x100 + c
        == 0x4_0000 * (a / 4) + 0x1000 * (a % 4 * 16 + b / 16) + 64 * (b % 16 * 4 + c / 64) + c % 64
    ensures 0 <= a % 4 * 16 + b / 16 < 64 && 0 <= b % 16 * 4 + c / 64 < 64
  {
  }

  /** Character k of the text holds six bits of its group of three bytes (section 4 of RFC 4648). */
  lemma {:induction false} SextetsAreBits(b: seq<Byte>, k: nat)
    requires k < |Sextets(b)|
    ensures Sextets(b)[k] as int == SixBits(GroupOf(b, k / 4), k % 4)
  {
    if |b| >= 3 {
      BitsOfThree(b[0], b[1], b[2]);
      if k >= 4 {
        SextetsAreBits(b[3..], k - 4);
        assert GroupOf(b[3..], (k - 4) / 4) == GroupOf(b, k / 4) && (k - 4) % 4 == k % 4;
      }
    } else if |b| == 2 {
      BitsOfThree(b[0], b[1], 0);
    } else if |b| == 1 {
      BitsOfThree(b[0], 0, 0);
    }
  }

  // ---- cursors ----

  datatype Scalar = Number(n: int) | Words(w: string) | Neither

  function KeyValues(key: Key): seq<Scalar> {
    match key
    case Seq(n) => [Number(n)]
    case Stamp(created, id) => [Words(created), Words(id)]
  }

  function EncodeCursor(dumps: seq<Scalar> -> seq<Byte>, values: seq<Scalar>): string {
    EncodeBytes(dumps(values))
  }

  datatype CursorError = InvalidCursor

  function DecodeCursor(loads: seq<Byte> -> Option<seq<Scalar>>, cursor: string, size: nat): Result<seq<Scalar>,
      CursorError> {
    if cursor == "" || |cursor| > 512 then Err(InvalidCursor)
    else
      var bytes := DecodeText(cursor);
      if bytes.None? then Err(InvalidCursor)
      else
        var values := loads(bytes.value);
        if values.None? || |values.value| != size then Err(InvalidCursor) else Ok(values.value)
  }

  function NumberKey(loads: seq<Byte> -> Option<seq<Scalar>>, cursor: string): Result<Key, CursorError> {
    var values := DecodeCursor(loads, cursor, 1);
    if values.Err? then Err(InvalidCursor)
    else if values.value[0].Number? then Ok(Seq(values.value[0].n)) else Err(InvalidCursor)
  }

  function StampKey(loads: seq<Byte> -> Option<seq<Scalar>>, cursor: string): Result<Key, CursorError> {
    var values := DecodeCursor(loads, cursor, 2);
    if values.Err? then Err(InvalidCursor)
    else if values.value[0].Words? && values.value[1].Words? then Ok(Stamp(values.value[0].w, values.value[1].w))
    else Err(InvalidCursor)
  }

  function KeyOf(loads: seq<Byte> -> Option<seq<Scalar>>, cursor: string, numbered: bool): Result<Key, CursorError> {
    if numbered then NumberKey(loads, cursor) else StampKey(loads, cursor)
  }

  /**
    An emitted cursor decodes back to its key exactly when its JSON text has at most 384 bytes;
    a longer one is emitted all the same and refused by the next fetch.
  */
  lemma CursorRoundTripIff(
      dumps: seq<Scalar> -> seq<Byte>, loads: seq<Byte> -> Option<seq<Scalar>>, key: Key)
    requires loads(dumps(KeyValues(key))) == Some(KeyValues(key)) && dumps(KeyValues(key)) != []
    ensures var cursor := EncodeCursor(dumps, KeyValues(key));
      && cursor != ""
      && (KeyOf(loads, cursor, key.Seq?) == Ok(key) <==> |dumps(KeyValues(key))| <= 384)
      && (KeyOf(loads, cursor, key.Seq?) == Err(InvalidCursor) <==> |dumps(KeyValues(key))| > 384)
  {
    BytesRoundTrip(dumps(KeyValues(key)));
  }
}
