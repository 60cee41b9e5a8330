/** Reversed, filtered and deduplicated sequences. */
module Sequences {

  function Reverse<T>(s: seq<T>): seq<T> {
    if s == [] then [] else Reverse(s[1..]) + [s[0]]
  }

  lemma {:induction false} ReverseSnoc<T>(s: seq<T>, x: T)
    ensures Reverse(s + [x]) == [x] + Reverse(s)
  {
    if s == [] {
      assert s + [x] == [x];
    } else {
      assert (s + [x])[1..] == s[1..] + [x] && (s + [x])[0] == s[0];
      ReverseSnoc(s[1..], x);
    }
  }

  lemma {:induction false} ReverseHas<T>(s: seq<T>)
    ensures |Reverse(s)| == |s| && forall x :: x in Reverse(s) <==> x in s
  {
    if s != [] {
      ReverseHas(s[1..]);
      assert s == [s[0]] + s[1..];
    }
  }

  lemma {:induction false} ReverseConcat<T>(a: seq<T>, b: seq<T>)
    ensures Reverse(a + b) == Reverse(b) + Reverse(a)
  {
    if a == [] {
      assert a + b == b;
    } else {
      assert (a + b)[0] == a[0] && (a + b)[1..] == a[1..] + b;
      ReverseConcat(a[1..], b);
    }
  }

  lemma {:induction false} ReverseTwice<T>(s: seq<T>)
    ensures Reverse(Reverse(s)) == s
  {
    if s != [] {
      ReverseTwice(s[1..]);
      ReverseSnoc(Reverse(s[1..]), s[0]);
    }
  }

  lemma {:induction false} ReverseAt<T>(s: seq<T>, i: nat)
    requires i < |s|
    ensures |Reverse(s)| == |s| && Reverse(s)[i] == s[|s| - 1 - i]
  {
    if |s| > 1 {
      ReverseAt(s[1..], if i < |s| - 1 then i else 0);
    }
  }

  // The rows that satisfy f, in order.
  function Keep<T>(rows: seq<T>, f: T -> bool): seq<T> {
    if rows == [] then []
    else Keep(rows[..|rows| - 1], f) + if f(rows[|rows| - 1]) then [rows[|rows| - 1]] else []
  }

  lemma KeepAppend<T>(rows: seq<T>, x: T, f: T -> bool)
    ensures Keep(rows + [x], f) == Keep(rows, f) + if f(x) then [x] else []
  {
    assert (rows + [x])[..|rows|] == rows;
  }

  lemma {:induction false} KeepHas<T>(rows: seq<T>, f: T -> bool)
    ensures forall x :: x in Keep(rows, f) <==> x in rows && f(x)
  {
    if rows != [] {
      KeepHas(rows[..|rows| - 1], f);
      assert rows == rows[..|rows| - 1] + [rows[|rows| - 1]];
    }
  }

  // Filtering first by f changes nothing that only concerns rows in f, and leaves none outside.
  lemma {:induction false} KeepWithin<T(!new)>(rows: seq<T>, f: T -> bool, g: T -> bool)
    ensures (forall x :: g(x) ==> f(x)) ==> Keep(Keep(rows, f), g) == Keep(rows, g)
    ensures (forall x :: g(x) ==> !f(x)) ==> Keep(Keep(rows, f), g) == []
  {
    if rows != [] {
      var init, last := rows[..|rows| - 1], rows[|rows| - 1];
      KeepWithin(init, f, g);
      KeepAppend(Keep(init, f), last, g);
      if f(last) {
        assert Keep(rows, f) == Keep(init, f) + [last];
      } else {
        assert Keep(rows, f) == Keep(init, f);
      }
    }
  }

  lemma {:induction false} KeepNone<T>(rows: seq<T>, f: T -> bool)
    requires forall x :: x in rows ==> !f(x)
    ensures Keep(rows, f) == []
  {
    if rows != [] {
      KeepNone(rows[..|rows| - 1], f);
    }
  }

  // First occurrences, in order.
  function Deduped<T(==)>(rows: seq<T>): seq<T> {
    if rows == [] then []
    else
      var rest, last := Deduped(rows[..|rows| - 1]), rows[|rows| - 1];
      if last in rest then rest else rest + [last]
  }

  lemma {:induction false} DedupedOnce<T>(rows: seq<T>)
    ensures forall x :: x in Deduped(rows) <==> x in rows
    ensures forall i, j :: 0 <= i < j < |Deduped(rows)| ==> Deduped(rows)[i] != Deduped(rows)[j]
    ensures |Deduped(rows)| <= |rows|
  {
    if rows != [] {
      DedupedOnce(rows[..|rows| - 1]);
      assert rows == rows[..|rows| - 1] + [rows[|rows| - 1]];
    }
  }

  lemma {:induction false} KeepConcat<T>(a: seq<T>, b: seq<T>, f: T -> bool)
    ensures Keep(a + b, f) == Keep(a, f) + Keep(b, f)
    decreases |b|
  {
    if b == [] {
      assert a + b == a;
    } else {
      var init, last := b[..|b| - 1], b[|b| - 1];
      assert a + b == (a + init) + [last];
      KeepAppend(a + init, last, f);
      KeepConcat(a, init, f);
    }
  }

  lemma {:induction false} KeepAll<T>(rows: seq<T>, f: T -> bool)
    requires forall i :: 0 <= i < |rows| ==> f(rows[i])
    ensures Keep(rows, f) == rows
  {
    if rows != [] {
      var init := rows[..|rows| - 1];
      assert forall i :: 0 <= i < |init| ==> init[i] == rows[i];
      KeepAll(init, f);
      assert rows == init + [rows[|rows| - 1]];
    }
  }
}
