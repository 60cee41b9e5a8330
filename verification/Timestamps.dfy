/**
  Stored instants: UTC text as datetime.isoformat prints it, with the fraction left out when it
  is zero. SQLite compares the texts; the comparison is that of the instants.
*/
module Timestamps {
  import opened Outcomes
  import opened Strings

  // ---- the calendar ----

  datatype Fields = Fields(year: nat, month: nat, day: nat, hour: nat, minute: nat, second: nat, micro: nat)

  predicate Leap(y: nat) { y % 4 == 0 && (y % 100 != 0 || y % 400 == 0) }

  function DaysIn(y: nat, m: nat): nat {
    if m == 2 then (if Leap(y) then 29 else 28) else if m in {4, 6, 9, 11} then 30 else 31
  }

  function DaysBeforeMonth(y: nat, m: nat): nat {
    if m <= 1 then 0 else DaysBeforeMonth(y, m - 1) + DaysIn(y, m - 1)
  }

  function DaysBeforeYear(y: nat): nat {
    if y <= 1 then 0 else DaysBeforeYear(y - 1) + (if Leap(y - 1) then 366 else 365)
  }

  const MAX_YEAR := 9999
  const DAY: int := 86_400_000_000

  predicate Valid(f: Fields) {
    && 1 <= f.year <= MAX_YEAR && 1 <= f.month <= 12 && 1 <= f.day <= DaysIn(f.year, f.month)
    && f.hour < 24 && f.minute < 60 && f.second < 60 && f.micro < 1_000_000
  }

  function Date(f: Fields): int {
    DaysBeforeYear(f.year) + DaysBeforeMonth(f.year, f.month) + f.day - 1
  }

  function TimeOfDay(f: Fields): int {
    ((f.hour * 60 + f.minute) * 60 + f.second) * 1_000_000 + f.micro
  }

  // Microseconds since the first instant of year 1.
  function Micros(f: Fields): int { Date(f) * DAY + TimeOfDay(f) }

  // ---- from instants to fields ----

  function YearOf(day: nat, y: nat): nat
    requires y <= MAX_YEAR
    decreases MAX_YEAR - y, day
  {
    if y == MAX_YEAR || day < DaysBeforeYear(y + 1) then y else YearOf(day, y + 1)
  }

  function MonthOf(y: nat, day: nat, m: nat): nat
    requires m <= 12
    decreases 12 - m, day
  {
    if m == 12 || day < DaysBeforeMonth(y, m + 1) then m else MonthOf(y, day, m + 1)
  }

  function FieldsOf(t: nat): Fields {
    var date, time := t / 86_400_000_000, t % 86_400_000_000;
    var y := YearOf(date, 1);
    var day := if DaysBeforeYear(y) <= date then date - DaysBeforeYear(y) else 0;
    var m := MonthOf(y, day, 1);
    Fields(y, m, (if DaysBeforeMonth(y, m) <= day then day - DaysBeforeMonth(y, m) else 0) + 1,
           time / 3_600_000_000, time / 60_000_000 % 60, time / 1_000_000 % 60, time % 1_000_000)
  }

  function EndOfTime(): int { DaysBeforeYear(MAX_YEAR + 1) * DAY }

  lemma {:induction false} YearOfBounds(day: nat, y: nat, end: nat)
    requires end == MAX_YEAR + 1 && 1 <= y <= MAX_YEAR && DaysBeforeYear(y) <= day < DaysBeforeYear(end)
    ensures y <= YearOf(day, y) <= MAX_YEAR
    ensures DaysBeforeYear(YearOf(day, y)) <= day < DaysBeforeYear(YearOf(day, y) + 1)
    decreases MAX_YEAR - y
  {
    if !(y == MAX_YEAR || day < DaysBeforeYear(y + 1)) {
      YearOfBounds(day, y + 1, end);
    }
  }

  lemma {:induction false} MonthOfBounds(y: nat, day: nat, m: nat)
    requires 1 <= m <= 12 && DaysBeforeMonth(y, m) <= day < DaysBeforeMonth(y, 13)
    ensures m <= MonthOf(y, day, m) <= 12
    ensures DaysBeforeMonth(y, MonthOf(y, day, m)) <= day < DaysBeforeMonth(y, MonthOf(y, day, m) + 1)
    decreases 12 - m
  {
    if !(m == 12 || day < DaysBeforeMonth(y, m + 1)) {
      MonthOfBounds(y, day, m + 1);
    }
  }

  lemma MonthsFillYear(y: nat)
    ensures DaysBeforeMonth(y, 13) == if Leap(y) then 366 else 365
  {
    var february := DaysIn(y, 2);
    assert DaysBeforeMonth(y, 2) == 31;
    assert DaysBeforeMonth(y, 3) == 31 + february;
    assert DaysBeforeMonth(y, 5) == 62 + february + 30;
    assert DaysBeforeMonth(y, 7) == 92 + february + 61;
    assert DaysBeforeMonth(y, 9) == 153 + february + 62;
    assert DaysBeforeMonth(y, 11) == 215 + february + 61;
    assert DaysBeforeMonth(y, 13) == 276 + february + 61;
  }

  // The days of the months, and which years are leap years.
  lemma {:induction false} MonthLengths(y: nat)
    ensures DaysIn(y, 1) == DaysIn(y, 3) == DaysIn(y, 5) == DaysIn(y, 7) == DaysIn(y, 8) == DaysIn(y, 10) == 31
    ensures DaysIn(y, 12) == 31 && DaysIn(y, 4) == DaysIn(y, 6) == DaysIn(y, 9) == DaysIn(y, 11) == 30
    ensures DaysIn(y, 2) == (if y % 400 == 0 || (y % 4 == 0 && y % 100 != 0) then 29 else 28)
  {
  }

  lemma LeapsSoFar(y: nat)
    requires y >= 1
    ensures y / 4 - y / 100 + y / 400 == (y - 1) / 4 - (y - 1) / 100 + (y - 1) / 400 + if Leap(y) then 1 else 0
  {
    Quotients(y);
    Multiples(y);
  }

  lemma Multiples(y: nat)
    ensures y % 400 == 0 ==> y % 100 == 0
    ensures y % 100 == 0 ==> y % 4 == 0
  {
    if y % 400 == 0 { RemainderOf(4 * (y / 400), 100); }
    if y % 100 == 0 { RemainderOf(25 * (y / 100), 4); }
  }

  lemma RemainderOf(k: nat, d: nat)
    requires d == 4 || d == 100
    ensures (k * d) % d == 0
  {
  }

  lemma Quotients(y: nat)
    requires y >= 1
    ensures y / 4 == (y - 1) / 4 + if y % 4 == 0 then 1 else 0
    ensures y / 100 == (y - 1) / 100 + if y % 100 == 0 then 1 else 0
    ensures y / 400 == (y - 1) / 400 + if y % 400 == 0 then 1 else 0
  {
  }

  // The days before a year, in closed form.
  lemma {:induction false} DaysInClosedForm(y: nat)
    requires y >= 1
    ensures DaysBeforeYear(y) == 365 * (y - 1) + (y - 1) / 4 - (y - 1) / 100 + (y - 1) / 400
    decreases y
  {
    if y > 1 {
      DaysInClosedForm(y - 1);
      LeapsSoFar(y - 1);
    }
  }

  lemma TimeSplits(time: nat)
    requires time < 86_400_000_000
    ensures time / 3_600_000_000 < 24
    ensures ((time / 3_600_000_000 * 60 + time / 60_000_000 % 60) * 60 + time / 1_000_000 % 60) * 1_000_000 + time % 1_000_000 == time
  {
    var s := time / 1_000_000;
    var m := s / 60;
    assert time / 60_000_000 == m && time / 3_600_000_000 == m / 60;
  }

  // Every instant up to the year 9999 is written by valid fields.
  lemma FieldsOfInstant(t: nat)
    requires t < EndOfTime()
    ensures Valid(FieldsOf(t)) && Micros(FieldsOf(t)) == t
  {
    var date, time := t / 86_400_000_000, t % 86_400_000_000;
    DateOfFields(t);
    TimeSplits(time);
    var f := FieldsOf(t);
    assert Date(f) == date && TimeOfDay(f) == time;
  }

  lemma DateOfFields(t: nat)
    requires t < EndOfTime()
    ensures var f := FieldsOf(t);
      && 1 <= f.year <= MAX_YEAR && 1 <= f.month <= 12 && 1 <= f.day <= DaysIn(f.year, f.month)
      && Date(f) == t / 86_400_000_000
  {
    var date := t / 86_400_000_000;
    DateInRange(t, DaysBeforeYear(MAX_YEAR + 1));
    DateOf(t, date, MAX_YEAR + 1);
  }

  lemma DateInRange(t: nat, days: nat)
    requires t < days * 86_400_000_000
    ensures t / 86_400_000_000 < days
  {
  }

  lemma {:induction false} DateOf(t: nat, date: nat, end: nat)
    requires end == MAX_YEAR + 1 && date == t / 86_400_000_000 && date < DaysBeforeYear(end)
    ensures var f := FieldsOf(t);
      1 <= f.year <= MAX_YEAR && 1 <= f.month <= 12 && 1 <= f.day <= DaysIn(f.year, f.month) && Date(f) == date
  {
    DayOfYear(date, end);
    var y := YearOf(date, 1);
    var day := date - DaysBeforeYear(y);
    MonthAndDay(y, day);
    FieldsHoldDate(t, date, y, MonthOf(y, day, 1));
  }

  lemma {:induction false} FieldsHoldDate(t: nat, date: nat, y: nat, m: nat)
    requires date == t / 86_400_000_000 && y == YearOf(date, 1) && DaysBeforeYear(y) <= date
    requires m == MonthOf(y, date - DaysBeforeYear(y), 1) && DaysBeforeMonth(y, m) <= date - DaysBeforeYear(y)
    ensures var f := FieldsOf(t);
      f.year == y && f.month == m && f.day == date - DaysBeforeYear(y) - DaysBeforeMonth(y, m) + 1
  {
  }

  lemma {:induction false} DayOfYear(date: nat, end: nat)
    requires end == MAX_YEAR + 1 && date < DaysBeforeYear(end)
    ensures var y := YearOf(date, 1);
      1 <= y <= MAX_YEAR && 0 <= date - DaysBeforeYear(y) < DaysBeforeMonth(y, 13)
  {
    YearOfBounds(date, 1, end);
    MonthsFillYear(YearOf(date, 1));
  }

  lemma {:induction false} MonthAndDay(y: nat, day: nat)
    requires day < DaysBeforeMonth(y, 13)
    ensures var m := MonthOf(y, day, 1);
      1 <= m <= 12 && 0 <= day - DaysBeforeMonth(y, m) < DaysIn(y, m)
  {
    MonthOfBounds(y, day, 1);
  }

  // ---- text ----

  function Pad(n: nat, width: nat): string {
    if width == 0 then "" else Pad(n / 10, width - 1) + [DigitOf(n % 10)]
  }

  function Tail(micro: nat): string {
    (if micro == 0 then "" else "." + Pad(micro, 6)) + "+00:00"
  }

  function Iso(f: Fields): string {
    Pad(f.year, 4) + ("-" + (Pad(f.month, 2) + ("-" + (Pad(f.day, 2) + ("T" + (Pad(f.hour, 2) + (":" + (Pad(f.minute, 2)
    + (":" + (Pad(f.second, 2) + Tail(f.micro)))))))))))
  }

  // Text order by code points, a proper prefix first.
  predicate Less(a: string, b: string) {
    b != "" && (a == "" || a[0] < b[0] || (a[0] == b[0] && Less(a[1..], b[1..])))
  }

  // ---- text order is field order ----

  lemma {:induction false} LessConcat(a: string, b: string, c: string, d: string)
    requires |a| == |c|
    ensures Less(a + b, c + d) <==> Less(a, c) || (a == c && Less(b, d))
    ensures a + b == c + d <==> a == c && b == d
  {
    if a == "" {
      assert a + b == b && c + d == d;
    } else {
      var x, y := a + b, c + d;
      assert x[0] == a[0] && y[0] == c[0] && x[1..] == a[1..] + b && y[1..] == c[1..] + d;
      LessConcat(a[1..], b, c[1..], d);
      assert a == [a[0]] + a[1..] && c == [c[0]] + c[1..];
      assert x == [x[0]] + x[1..] && y == [y[0]] + y[1..];
    }
  }

  function Power10(n: nat): nat { if n == 0 then 1 else 10 * Power10(n - 1) }

  lemma {:induction false} PadOrder(m: nat, n: nat, width: nat)
    requires m < Power10(width) && n < Power10(width)
    ensures |Pad(m, width)| == |Pad(n, width)| == width
    ensures (Less(Pad(m, width), Pad(n, width)) <==> m < n) && (Pad(m, width) == Pad(n, width) <==> m == n)
  {
    if width > 0 {
      PadOrder(m / 10, n / 10, width - 1);
      LessConcat(Pad(m / 10, width - 1), [DigitOf(m % 10)], Pad(n / 10, width - 1), [DigitOf(n % 10)]);
      var x, y := [DigitOf(m % 10)], [DigitOf(n % 10)];
      assert Less(x, y) <==> m % 10 < n % 10;
    }
  }

  // A leading number and a constant separator decide before the rest does.
  lemma FieldOrder(m: nat, n: nat, width: nat, separator: string, b: string, d: string)
    requires m < Power10(width) && n < Power10(width)
    ensures Less(Pad(m, width) + (separator + b), Pad(n, width) + (separator + d)) <==> m < n || (m == n && Less(b, d))
    ensures Pad(m, width) + (separator + b) == Pad(n, width) + (separator + d) <==> m == n && b == d
  {
    PadOrder(m, n, width);
    LessConcat(Pad(m, width), separator + b, Pad(n, width), separator + d);
    LessConcat(separator, b, separator, d);
    NotLessItself(separator);
  }

  lemma {:induction false} NotLessItself(s: string)
    ensures !Less(s, s)
  {
    if s != "" {
      NotLessItself(s[1..]);
    }
  }

  // The plus sign sorts before the point, so a missing fraction is the smallest.
  lemma TailOrder(m: nat, n: nat)
    requires m < 1_000_000 && n < 1_000_000
    ensures (Less(Tail(m), Tail(n)) <==> m < n) && (Tail(m) == Tail(n) <==> m == n)
  {
    assert Power10(6) == 1_000_000 by { assert Power10(3) == 1000; }
    NotLessItself("+00:00");
    if m > 0 && n > 0 {
      PadOrder(m, n, 6);
      var x, y := Pad(m, 6), Pad(n, 6);
      assert Tail(m) == "." + (x + "+00:00") && Tail(n) == "." + (y + "+00:00");
      LessConcat(".", x + "+00:00", ".", y + "+00:00");
      LessConcat(x, "+00:00", y, "+00:00");
      NotLessItself(".");
    } else {
      assert m > 0 ==> Tail(m)[0] == '.';
      assert n > 0 ==> Tail(n)[0] == '.';
      assert Tail(0)[0] == '+';
    }
  }

  predicate DateLess(f: Fields, g: Fields) {
    f.year < g.year || (f.year == g.year && (f.month < g.month || (f.month == g.month && f.day < g.day)))
  }

  predicate ClockLess(f: Fields, g: Fields) {
    || f.hour < g.hour
    || (f.hour == g.hour && (f.minute < g.minute || (f.minute == g.minute
        && (f.second < g.second || (f.second == g.second && f.micro < g.micro)))))
  }

  predicate SameDate(f: Fields, g: Fields) { f.year == g.year && f.month == g.month && f.day == g.day }

  function ClockText(f: Fields): string {
    Pad(f.hour, 2) + (":" + (Pad(f.minute, 2) + (":" + (Pad(f.second, 2) + Tail(f.micro)))))
  }

  lemma ClockOrder(f: Fields, g: Fields)
    requires Valid(f) && Valid(g)
    ensures Less(ClockText(f), ClockText(g)) <==> ClockLess(f, g)
    ensures ClockText(f) == ClockText(g) ==> TimeOfDay(f) == TimeOfDay(g)
  {
    assert Power10(2) == 100;
    TailOrder(f.micro, g.micro);
    PadOrder(f.second, g.second, 2);
    LessConcat(Pad(f.second, 2), Tail(f.micro), Pad(g.second, 2), Tail(g.micro));
    var x, y := Pad(f.second, 2) + Tail(f.micro), Pad(g.second, 2) + Tail(g.micro);
    FieldOrder(f.minute, g.minute, 2, ":", x, y);
    FieldOrder(f.hour, g.hour, 2, ":", Pad(f.minute, 2) + (":" + x), Pad(g.minute, 2) + (":" + y));
  }

  lemma IsoOrder(f: Fields, g: Fields)
    requires Valid(f) && Valid(g)
    ensures Less(Iso(f), Iso(g)) <==> DateLess(f, g) || (SameDate(f, g) && ClockLess(f, g))
    ensures Iso(f) == Iso(g) ==> SameDate(f, g) && TimeOfDay(f) == TimeOfDay(g)
  {
    assert Power10(2) == 100 && Power10(4) == 10_000 by { assert Power10(3) == 1000; }
    ClockOrder(f, g);
    assert f.day <= 31 && g.day <= 31;
    var x, y := ClockText(f), ClockText(g);
    FieldOrder(f.day, g.day, 2, "T", x, y);
    var x', y' := Pad(f.day, 2) + ("T" + x), Pad(g.day, 2) + ("T" + y);
    FieldOrder(f.month, g.month, 2, "-", x', y');
    FieldOrder(f.year, g.year, 4, "-", Pad(f.month, 2) + ("-" + x'), Pad(g.month, 2) + ("-" + y'));
  }

  // ---- field order is instant order ----

  lemma {:induction false} YearsAscend(y: nat, z: nat)
    requires 1 <= y <= z
    ensures DaysBeforeYear(y) <= DaysBeforeYear(z)
    decreases z - y
  {
    if y < z { YearsAscend(y, z - 1); }
  }

  lemma {:induction false} MonthsAscend(y: nat, m: nat, n: nat)
    requires 1 <= m <= n
    ensures DaysBeforeMonth(y, m) <= DaysBeforeMonth(y, n)
    decreases n - m
  {
    if m < n { MonthsAscend(y, m, n - 1); }
  }

  lemma DayInsideYear(f: Fields)
    requires Valid(f)
    ensures DaysBeforeYear(f.year) <= Date(f) < DaysBeforeYear(f.year + 1)
  {
    MonthsAscend(f.year, f.month + 1, 13);
    MonthsFillYear(f.year);
  }

  lemma EarlierDate(f: Fields, g: Fields)
    requires Valid(f) && Valid(g) && DateLess(f, g)
    ensures Date(f) < Date(g)
  {
    DayInsideYear(f);
    DayInsideYear(g);
    if f.year < g.year {
      YearsAscend(f.year + 1, g.year);
    } else if f.month < g.month {
      MonthsAscend(f.year, f.month + 1, g.month);
    }
  }

  lemma TimeInsideDay(f: Fields)
    requires Valid(f)
    ensures 0 <= TimeOfDay(f) < DAY
  {
  }

  lemma InstantOrder(f: Fields, g: Fields)
    requires Valid(f) && Valid(g)
    ensures Micros(f) < Micros(g) <==> DateLess(f, g) || (SameDate(f, g) && ClockLess(f, g))
  {
    TimeInsideDay(f);
    TimeInsideDay(g);
    if DateLess(f, g) {
      EarlierDate(f, g);
    } else if DateLess(g, f) {
      EarlierDate(g, f);
    }
  }

  lemma PadTwo(n: nat)
    requires n < 100
    ensures Pad(n, 2) == [DigitOf(n / 10), DigitOf(n % 10)]
  {
    assert Pad(n / 10 / 10, 0) == "" && n / 10 % 10 == n / 10;
    assert Pad(n / 10, 1) == [DigitOf(n / 10)];
  }

  // An instant is written with date and time, the fraction if there is one, and the offset of UTC.
  lemma {:induction false} WrittenSeconds()
    ensures Iso(Fields(2024, 11, 12, 3, 14, 5, 0)) == "2024-11-12T03:14:05+00:00"
  {
    WrittenDay(Fields(2024, 11, 12, 3, 14, 5, 0));
    SecondsText();
    AfterDay("05+00:00");
    WholeSeconds();
  }

  lemma SecondsText()
    ensures Pad(5, 2) + Tail(0) == "05+00:00"
  {
    PadTwo(5);
  }

  lemma WholeSeconds()
    ensures "2024-11-12T03:14:" + "05+00:00" == "2024-11-12T03:14:05+00:00"
  {
  }

  lemma {:induction false} WrittenFraction()
    ensures Iso(Fields(2024, 11, 12, 3, 14, 5, 678)) == "2024-11-12T03:14:05.000678+00:00"
  {
    WrittenDay(Fields(2024, 11, 12, 3, 14, 5, 678));
    FractionText();
    AfterDay("05.000678+00:00");
    WholeText();
  }

  lemma FractionText()
    ensures Pad(5, 2) + Tail(678) == "05.000678+00:00"
  {
    PadTwo(5);
    SixDigits();
    assert Tail(678) == ".000678+00:00";
  }

  lemma WholeText()
    ensures "2024-11-12T03:14:" + "05.000678+00:00" == "2024-11-12T03:14:05.000678+00:00"
  {
  }

  lemma SixDigits()
    ensures Pad(678, 6) == "000678"
  {
    ThreeZeros();
    assert Pad(6, 4) == "000" + "6";
    assert Pad(67, 5) == "0006" + "7";
  }

  lemma ThreeZeros()
    ensures Pad(0, 3) == "000"
  {
    assert Pad(0, 1) == "0" && Pad(0, 2) == "00";
  }

  lemma AfterDay(rest: string)
    ensures "2024-11-12T" + ("03" + (":" + ("14" + (":" + rest)))) == "2024-11-12T03:14:" + rest
  {
    assert "2024-11-12T" + "03" + ":" + "14" + ":" == "2024-11-12T03:14:";
  }

  lemma {:induction false} WrittenDay(f: Fields)
    requires f.year == 2024 && f.month == 11 && f.day == 12 && f.hour == 3 && f.minute == 14
    ensures Pad(f.hour, 2) == "03" && Pad(f.minute, 2) == "14"
    ensures Iso(f) == "2024-11-12T" + ("03" + (":" + ("14" + (":" + (Pad(f.second, 2) + Tail(f.micro))))))
  {
    PadTwo(3);
    PadTwo(11);
    PadTwo(12);
    PadTwo(14);
    FourDigits();
    DayText("03" + (":" + ("14" + (":" + (Pad(f.second, 2) + Tail(f.micro))))));
  }

  lemma FourDigits()
    ensures Pad(2024, 4) == "2024"
  {
    assert Pad(2, 1) == "2" && Pad(20, 2) == "20" && Pad(202, 3) == "202";
  }

  lemma DayText(clock: string)
    ensures "2024" + ("-" + ("11" + ("-" + ("12" + ("T" + clock))))) == "2024-11-12T" + clock
  {
    assert "2024" + "-" + "11" + "-" + "12" + "T" == "2024-11-12T";
  }

  // ---- aware instants ----

  // A datetime with its offset from UTC in microseconds; None for a naive one.
  datatype DateTime = DateTime(fields: Fields, offset: Option<int>)

  datatype TimeError = NotAware | OutOfRange

  function Instant(v: DateTime): int
    requires v.offset.Some?
  {
    Micros(v.fields) - v.offset.value
  }

  function Timestamp(v: DateTime): Result<string, TimeError> {
    if v.offset.None? then Err(NotAware)
    else if Instant(v) < 0 || Instant(v) >= EndOfTime() then Err(OutOfRange)
    else Ok(Iso(FieldsOf(Instant(v))))
  }

  // A time so many hours ahead of UTC is the time that many hours earlier in UTC.
  lemma {:induction false} HoursAhead(f: Fields, hours: nat)
    requires hours <= f.hour
    ensures Timestamp(DateTime(f, Some(3_600_000_000 * hours)))
        == Timestamp(DateTime(f.(hour := f.hour - hours), Some(0)))
  {
    SameInstant(f, hours);
  }

  lemma SameInstant(f: Fields, hours: nat)
    requires hours <= f.hour
    ensures Instant(DateTime(f, Some(3_600_000_000 * hours))) == Instant(DateTime(f.(hour := f.hour - hours), Some(0)))
  {
    var g := f.(hour := f.hour - hours);
    assert Date(g) == Date(f) && TimeOfDay(g) == TimeOfDay(f) - 3_600_000_000 * hours;
  }

  /**
    For all aware values, in any time zones, with or without a fraction: comparing the stored
    texts is comparing the instants, and equal texts are equal instants.
  */
  lemma TextOrderIsTimeOrder(v: DateTime, w: DateTime)
    requires Timestamp(v).Ok? && Timestamp(w).Ok?
    ensures Less(Timestamp(v).value, Timestamp(w).value) <==> Instant(v) < Instant(w)
    ensures Timestamp(v).value == Timestamp(w).value <==> Instant(v) == Instant(w)
  {
    FieldsOfInstant(Instant(v));
    FieldsOfInstant(Instant(w));
    var f, g := FieldsOf(Instant(v)), FieldsOf(Instant(w));
    IsoOrder(f, g);
    InstantOrder(f, g);
  }
}
