/**
 Timestamp text. Rows store `to_iso`, which omits the fraction of an exact second, so text of two widths
 stands in one column; queries compare it after an SQL rewrite with the fixed-width `to_sortable_iso`.
 */
module Timestamps {
  import opened Entities

  // ---------------------------------------------------------------- the proleptic Gregorian calendar

  const MICROS_PER_DAY := 86_400_000_000

  datatype Civil = Civil(year: int, month: int, day: int, hour: int, minute: int, second: int, micro: int)

  predicate IsLeap(year: int) {
    year % 4 == 0 && (year % 100 != 0 || year % 400 == 0)
  }

  function DaysBeforeYear(year: int): int {
    365 * (year - 1) + (year - 1) / 4 - (year - 1) / 100 + (year - 1) / 400
  }

  function DaysInMonth(year: int, month: int): (days: int)
    ensures 28 <= days <= 31
  {
    if month == 2 then (if IsLeap(year) then 29 else 28)
    else if month == 4 || month == 6 || month == 9 || month == 11 then 30
    else 31
  }

  function DaysBeforeMonth(year: int, month: nat): int {
    if month <= 1 then 0 else DaysBeforeMonth(year, month - 1) + DaysInMonth(year, month - 1)
  }

  predicate ValidDate(year: int, month: int, day: int) {
    1 <= year <= 9999 && 1 <= month <= 12 && 1 <= day <= DaysInMonth(year, month)
  }

  predicate ValidTime(hour: int, minute: int, second: int, micro: int) {
    0 <= hour < 24 && 0 <= minute < 60 && 0 <= second < 60 && 0 <= micro < 1_000_000
  }

  predicate ValidCivil(c: Civil) {
    ValidDate(c.year, c.month, c.day) && ValidTime(c.hour, c.minute, c.second, c.micro)
  }

  function DayNumber(year: int, month: nat, day: int): int {
    DaysBeforeYear(year) + DaysBeforeMonth(year, month) + day - 1
  }

  function MicroOfDay(hour: int, minute: int, second: int, micro: int): int {
    ((hour * 60 + minute) * 60 + second) * 1_000_000 + micro
  }

  /** Microseconds since 0001-01-01T00:00:00. */
  function Ticks(c: Civil): int
    requires ValidCivil(c)
  {
    DayNumber(c.year, c.month, c.day) * MICROS_PER_DAY + MicroOfDay(c.hour, c.minute, c.second, c.micro)
  }

  /** One more year crosses a multiple of k exactly when it is one. */
  lemma Crosses(year: int, k: int)
    requires k == 4 || k == 100 || k == 400
    ensures year / k == (year - 1) / k + if year % k == 0 then 1 else 0
  {
  }

  lemma HundredsDivide(year: int)
    ensures year % 400 == 0 ==> year % 100 == 0
  {
    assert year == 100 * (4 * (year / 400)) + year % 400;
  }

  lemma FoursDivide(year: int)
    ensures year % 100 == 0 ==> year % 4 == 0
  {
    assert year == 4 * (25 * (year / 100)) + year % 100;
  }

  lemma MultiplesNest(year: int)
    ensures year % 400 == 0 ==> year % 100 == 0
    ensures year % 100 == 0 ==> year % 4 == 0
  {
    HundredsDivide(year);
    FoursDivide(year);
  }

  lemma YearLength(year: int)
    ensures DaysBeforeYear(year + 1) == DaysBeforeYear(year) + if IsLeap(year) then 366 else 365
  {
    Crosses(year, 4);
    Crosses(year, 100);
    Crosses(year, 400);
    MultiplesNest(year);
  }

  lemma {:induction false} MonthsFillYear(year: int)
    ensures DaysBeforeMonth(year, 13) == if IsLeap(year) then 366 else 365
  {
    assert DaysBeforeMonth(year, 2) == 31;
    assert DaysBeforeMonth(year, 3) == 31 + DaysInMonth(year, 2);
    assert DaysBeforeMonth(year, 5) == DaysBeforeMonth(year, 3) + 61;
    assert DaysBeforeMonth(year, 7) == DaysBeforeMonth(year, 5) + 61;
    assert DaysBeforeMonth(year, 9) == DaysBeforeMonth(year, 7) + 62;
    assert DaysBeforeMonth(year, 11) == DaysBeforeMonth(year, 9) + 61;
  }

  lemma {:induction false} MonthsGrow(year: int, low: nat, high: nat)
    requires 1 <= low <= high
    ensures DaysBeforeMonth(year, low) <= DaysBeforeMonth(year, high)
    ensures low < high ==> DaysBeforeMonth(year, low) + DaysInMonth(year, low) <= DaysBeforeMonth(year, high)
    decreases high
  {
    if low < high {
      MonthsGrow(year, low, high - 1);
    }
  }

  lemma {:induction false} YearsGrow(low: int, high: int)
    requires low <= high
    ensures DaysBeforeYear(low) <= DaysBeforeYear(high)
    ensures low < high ==> DaysBeforeYear(low + 1) <= DaysBeforeYear(high)
    decreases high - low
  {
    if low < high {
      YearLength(high - 1);
      YearsGrow(low, high - 1);
    }
  }

  /** The days of a year lie before the next year. */
  lemma DayWithinYear(year: int, month: int, day: int)
    requires ValidDate(year, month, day)
    ensures DaysBeforeYear(year) <= DayNumber(year, month, day) < DaysBeforeYear(year + 1)
  {
    MonthsGrow(year, 1, month);
    MonthsGrow(year, month, 13);
    MonthsFillYear(year);
    YearLength(year);
  }

  predicate DateBefore(y1: int, m1: int, d1: int, y2: int, m2: int, d2: int) {
    y1 < y2 || (y1 == y2 && (m1 < m2 || (m1 == m2 && d1 < d2)))
  }

  lemma DatesInOrder(y1: int, m1: int, d1: int, y2: int, m2: int, d2: int)
    requires ValidDate(y1, m1, d1) && ValidDate(y2, m2, d2)
    requires DateBefore(y1, m1, d1, y2, m2, d2)
    ensures DayNumber(y1, m1, d1) < DayNumber(y2, m2, d2)
  {
    if y1 < y2 {
      DayWithinYear(y1, m1, d1);
      DayWithinYear(y2, m2, d2);
      YearsGrow(y1, y2);
    } else if m1 < m2 {
      MonthsGrow(y1, m1, m2);
    }
  }

  predicate TimeBefore(h1: int, n1: int, s1: int, u1: int, h2: int, n2: int, s2: int, u2: int) {
    h1 < h2 || (h1 == h2 && (n1 < n2 || (n1 == n2 && (s1 < s2 || (s1 == s2 && u1 < u2)))))
  }

  /** Field by field, the way datetime compares two UTC values. */
  predicate Before(a: Civil, b: Civil) {
    || DateBefore(a.year, a.month, a.day, b.year, b.month, b.day)
    || (a.year == b.year && a.month == b.month && a.day == b.day
        && TimeBefore(a.hour, a.minute, a.second, a.micro, b.hour, b.minute, b.second, b.micro))
  }

  lemma TimesInOrder(h1: int, n1: int, s1: int, u1: int, h2: int, n2: int, s2: int, u2: int)
    requires ValidTime(h1, n1, s1, u1) && ValidTime(h2, n2, s2, u2)
    ensures 0 <= MicroOfDay(h1, n1, s1, u1) < MICROS_PER_DAY
    ensures TimeBefore(h1, n1, s1, u1, h2, n2, s2, u2) ==> MicroOfDay(h1, n1, s1, u1) < MicroOfDay(h2, n2, s2, u2)
  {
  }

  lemma BeforeTicks(a: Civil, b: Civil)
    requires ValidCivil(a) && ValidCivil(b) && Before(a, b)
    ensures Ticks(a) < Ticks(b)
  {
    TimesInOrder(a.hour, a.minute, a.second, a.micro, b.hour, b.minute, b.second, b.micro);
    TimesInOrder(b.hour, b.minute, b.second, b.micro, a.hour, a.minute, a.second, a.micro);
    if DateBefore(a.year, a.month, a.day, b.year, b.month, b.day) {
      DatesInOrder(a.year, a.month, a.day, b.year, b.month, b.day);
    }
  }

  /** Field order is chronological order. */
  lemma FieldOrderIsChronological(a: Civil, b: Civil)
    requires ValidCivil(a) && ValidCivil(b)
    ensures Before(a, b) <==> Ticks(a) < Ticks(b)
    ensures a == b <==> Ticks(a) == Ticks(b)
  {
    if Before(a, b) {
      BeforeTicks(a, b);
    } else if a != b {
      assert Before(b, a);
      BeforeTicks(b, a);
    }
  }

  lemma TicksRange(c: Civil)
    requires ValidCivil(c)
    ensures 0 <= Ticks(c) < INSTANT_LIMIT
  {
    DayWithinYear(c.year, c.month, c.day);
    YearsGrow(1, c.year);
    YearsGrow(c.year + 1, 10000);
    assert DaysBeforeYear(10000) * MICROS_PER_DAY == INSTANT_LIMIT;
    TimesInOrder(c.hour, c.minute, c.second, c.micro, c.hour, c.minute, c.second, c.micro);
  }

  // ---------------------------------------------------------------- fields of an instant

  function YearOf(day: int, from: int): (year: int)
    requires 1 <= from <= 9999 && DaysBeforeYear(from) <= day < DaysBeforeYear(10000)
    ensures from <= year <= 9999 && DaysBeforeYear(year) <= day < DaysBeforeYear(year + 1)
    decreases 9999 - from
  {
    if day < DaysBeforeYear(from + 1) then from else YearOf(day, from + 1)
  }

  function MonthOf(year: int, dayOfYear: int, from: int): (month: int)
    requires 1 <= from <= 12 && DaysBeforeMonth(year, from) <= dayOfYear < DaysBeforeMonth(year, 13)
    ensures from <= month <= 12
    ensures DaysBeforeMonth(year, month) <= dayOfYear < DaysBeforeMonth(year, month + 1)
    decreases 12 - from
  {
    if dayOfYear < DaysBeforeMonth(year, from + 1) then from else MonthOf(year, dayOfYear, from + 1)
  }

  function CivilOf(t: Instant): (c: Civil)
    ensures ValidCivil(c) && Ticks(c) == t
  {
    var day, rest := t / MICROS_PER_DAY, t % MICROS_PER_DAY;
    assert DaysBeforeYear(1) == 0 && DaysBeforeYear(10000) * MICROS_PER_DAY == INSTANT_LIMIT;
    var year := YearOf(day, 1);
    var dayOfYear := day - DaysBeforeYear(year);
    MonthsFillYear(year);
    YearLength(year);
    var month := MonthOf(year, dayOfYear, 1);
    var seconds, micro := rest / 1_000_000, rest % 1_000_000;
    var minutes, second := seconds / 60, seconds % 60;
    Civil(year, month, dayOfYear - DaysBeforeMonth(year, month) + 1, minutes / 60, minutes % 60, second, micro)
  }

  // ---------------------------------------------------------------- text

  predicate TextLess(a: string, b: string)
    decreases a
  {
    if a == [] then b != []
    else if b == [] then false
    else a[0] < b[0] || (a[0] == b[0] && TextLess(a[1..], b[1..]))
  }

  /** The BINARY collation of SQLite. */
  predicate TextLessOrEqual(a: string, b: string) {
    a == b || TextLess(a, b)
  }

  function DigitChar(d: int): char
    requires 0 <= d < 10
  {
    ('0' as int + d) as char
  }

  /** `n` in decimal, zero-padded to `width`. */
  function Digits(n: int, width: nat): (text: string)
    requires n >= 0
    ensures |text| == width
    ensures forall i :: 0 <= i < width ==> '0' <= text[i] <= '9'
  {
    if width == 0 then "" else Digits(n / 10, width - 1) + [DigitChar(n % 10)]
  }

  function TimeText(c: Civil, tail: string): string
    requires ValidCivil(c)
  {
    Digits(c.hour, 2) + (":" + (Digits(c.minute, 2) + (":" + (Digits(c.second, 2) + tail))))
  }

  /** YYYY-MM-DDTHH:MM:SS and what follows it. */
  function DateTimeText(c: Civil, tail: string): string
    requires ValidCivil(c)
  {
    Digits(c.year, 4) + ("-" + (Digits(c.month, 2) + ("-" + (Digits(c.day, 2) + ("T" + TimeText(c, tail))))))
  }

  function FractionText(c: Civil): string
    requires ValidCivil(c)
  {
    "." + (Digits(c.micro, 6) + "Z")
  }

  function ToSortableIso(t: Instant): string {
    DateTimeText(CivilOf(t), FractionText(CivilOf(t)))
  }

  function ToIso(t: Instant): string {
    if CivilOf(t).micro == 0 then DateTimeText(CivilOf(t), "Z") else ToSortableIso(t)
  }

  /** The rewrite of the queries: text without a fraction trades its last character for a zero fraction. */
  function SqlNormalized(text: string): string {
    if '.' !in text then text[..if |text| == 0 then 0 else |text| - 1] + ".000000Z" else text
  }

  lemma ZeroDigits()
    ensures Digits(0, 6) == "000000"
  {
    assert Digits(0, 3) == "000";
  }

  /** The first 19 characters do not depend on the tail, and hold no point. */
  lemma HeadOfText(c: Civil, tail: string)
    requires ValidCivil(c)
    ensures DateTimeText(c, tail) == DateTimeText(c, "") + tail
    ensures |DateTimeText(c, "")| == 19 && '.' !in DateTimeText(c, "")
  {
    assert TimeText(c, tail) == TimeText(c, "") + tail;
    assert '.' !in TimeText(c, "") && |TimeText(c, "")| == 8;
  }

  lemma ZeroFraction(c: Civil)
    requires ValidCivil(c) && c.micro == 0
    ensures FractionText(c) == ".000000Z"
  {
    ZeroDigits();
    hide Digits;
    assert "." + ("000000" + "Z") == ".000000Z";
  }

  /** The SQL rewrite of stored text is the fixed-width text of the same instant. */
  lemma RewriteIsSortable(t: Instant)
    ensures SqlNormalized(ToIso(t)) == ToSortableIso(t)
  {
    var c := CivilOf(t);
    assert FractionText(c)[0] == '.';
    hide DateTimeText, FractionText, CivilOf;
    HeadOfText(c, FractionText(c));
    if c.micro == 0 {
      HeadOfText(c, "Z");
      var text := DateTimeText(c, "Z");
      assert text[..|text| - 1] == DateTimeText(c, "");
      ZeroFraction(c);
    } else {
      assert ToSortableIso(t)[19] == '.';
    }
  }

  lemma {:induction false} TextLessConcat(a: string, b: string, x: string, y: string)
    requires |a| == |b|
    ensures TextLess(a + x, b + y) <==> TextLess(a, b) || (a == b && TextLess(x, y))
    decreases a
  {
    if a == [] {
      assert a + x == x && b + y == y;
    } else {
      assert (a + x)[1..] == a[1..] + x && (b + y)[1..] == b[1..] + y;
      TextLessConcat(a[1..], b[1..], x, y);
      assert a == [a[0]] + a[1..] && b == [b[0]] + b[1..];
    }
  }

  function PowerOfTen(width: nat): int {
    if width == 0 then 1 else 10 * PowerOfTen(width - 1)
  }

  /** Padded decimals compare like the numbers. */
  lemma {:induction false} DigitsInOrder(n: int, m: int, width: nat)
    requires 0 <= n < PowerOfTen(width) && 0 <= m < PowerOfTen(width)
    ensures TextLess(Digits(n, width), Digits(m, width)) <==> n < m
    ensures Digits(n, width) == Digits(m, width) <==> n == m
  {
    if width > 0 {
      DigitsInOrder(n / 10, m / 10, width - 1);
      var a, b := Digits(n / 10, width - 1), Digits(m / 10, width - 1);
      var x, y := [DigitChar(n % 10)], [DigitChar(m % 10)];
      TextLessConcat(a, b, x, y);
      assert TextLess(x, y) <==> n % 10 < m % 10 by {
        assert x[1..] == [] && y[1..] == [];
      }
      assert a + x == b + y <==> a == b && x == y by {
        assert (a + x)[..width - 1] == a && (b + y)[..width - 1] == b;
        assert (a + x)[width - 1] == x[0] && (b + y)[width - 1] == y[0];
      }
    }
  }

  /** One numeric field, its separator, and the rest. */
  lemma {:induction false} FieldInOrder(n: int, m: int, width: nat, x: string, y: string)
    requires 0 <= n < PowerOfTen(width) && 0 <= m < PowerOfTen(width)
    ensures TextLess(Digits(n, width) + x, Digits(m, width) + y) <==> n < m || (n == m && TextLess(x, y))
  {
    DigitsInOrder(n, m, width);
    TextLessConcat(Digits(n, width), Digits(m, width), x, y);
  }

  lemma {:induction false} SeparatorInOrder(c: string, x: string, y: string)
    requires |c| == 1
    ensures TextLess(c + x, c + y) <==> TextLess(x, y)
  {
    TextLessConcat(c, c, x, y);
    assert c[1..] == [];
  }

  lemma Powers()
    ensures PowerOfTen(2) == 100 && PowerOfTen(4) == 10_000 && PowerOfTen(6) == 1_000_000
  {
    assert PowerOfTen(3) == 1000;
    assert PowerOfTen(5) == 100_000;
  }

  lemma {:induction false} TimeTextInOrder(a: Civil, b: Civil, x: string, y: string)
    requires ValidCivil(a) && ValidCivil(b)
    ensures TextLess(TimeText(a, x), TimeText(b, y))
            <==> || TimeBefore(a.hour, a.minute, a.second, 0, b.hour, b.minute, b.second, 0)
                 || (a.hour == b.hour && a.minute == b.minute && a.second == b.second && TextLess(x, y))
  {
    Powers();
    var a2, b2 := Digits(a.second, 2) + x, Digits(b.second, 2) + y;
    FieldInOrder(a.second, b.second, 2, x, y);
    SeparatorInOrder(":", a2, b2);
    var a1, b1 := Digits(a.minute, 2) + (":" + a2), Digits(b.minute, 2) + (":" + b2);
    FieldInOrder(a.minute, b.minute, 2, ":" + a2, ":" + b2);
    SeparatorInOrder(":", a1, b1);
    FieldInOrder(a.hour, b.hour, 2, ":" + a1, ":" + b1);
  }

  lemma DateTimeTextInOrder(a: Civil, b: Civil, x: string, y: string)
    requires ValidCivil(a) && ValidCivil(b)
    ensures TextLess(DateTimeText(a, x), DateTimeText(b, y))
            <==> || DateBefore(a.year, a.month, a.day, b.year, b.month, b.day)
                 || (a.year == b.year && a.month == b.month && a.day == b.day
                     && TextLess(TimeText(a, x), TimeText(b, y)))
  {
    Powers();
    var a3, b3 := TimeText(a, x), TimeText(b, y);
    SeparatorInOrder("T", a3, b3);
    var a2, b2 := Digits(a.day, 2) + ("T" + a3), Digits(b.day, 2) + ("T" + b3);
    FieldInOrder(a.day, b.day, 2, "T" + a3, "T" + b3);
    SeparatorInOrder("-", a2, b2);
    var a1, b1 := Digits(a.month, 2) + ("-" + a2), Digits(b.month, 2) + ("-" + b2);
    FieldInOrder(a.month, b.month, 2, "-" + a2, "-" + b2);
    SeparatorInOrder("-", a1, b1);
    FieldInOrder(a.year, b.year, 4, "-" + a1, "-" + b1);
  }

  lemma FractionInOrder(a: Civil, b: Civil)
    requires ValidCivil(a) && ValidCivil(b)
    ensures TextLess(FractionText(a), FractionText(b)) <==> a.micro < b.micro
  {
    Powers();
    FieldInOrder(a.micro, b.micro, 6, "Z", "Z");
    SeparatorInOrder(".", Digits(a.micro, 6) + "Z", Digits(b.micro, 6) + "Z");
    assert !TextLess("Z", "Z");
  }

  lemma {:induction false} TextLessIrreflexive(a: string)
    ensures !TextLess(a, a)
    decreases a
  {
    if a != [] {
      TextLessIrreflexive(a[1..]);
    }
  }

  /** Text order of the fixed-width form is chronological order, over all instants. */
  lemma SortableTextOrder(t: Instant, u: Instant)
    ensures TextLess(ToSortableIso(t), ToSortableIso(u)) <==> t < u
    ensures TextLessOrEqual(ToSortableIso(t), ToSortableIso(u)) <==> t <= u
  {
    var a, b := CivilOf(t), CivilOf(u);
    DateTimeTextInOrder(a, b, FractionText(a), FractionText(b));
    TimeTextInOrder(a, b, FractionText(a), FractionText(b));
    FractionInOrder(a, b);
    FieldOrderIsChronological(a, b);
    if t > u {
      DateTimeTextInOrder(b, a, FractionText(b), FractionText(a));
      TimeTextInOrder(b, a, FractionText(b), FractionText(a));
      FractionInOrder(b, a);
      FieldOrderIsChronological(b, a);
      TextLessIrreflexive(ToSortableIso(u));
    }
  }

  /** What the claim and purge queries compare: rewritten stored text against a fixed-width parameter. */
  lemma StoredTextOrder(stored: Instant, parameter: Instant)
    ensures TextLessOrEqual(SqlNormalized(ToIso(stored)), ToSortableIso(parameter)) <==> stored <= parameter
    ensures TextLess(SqlNormalized(ToIso(stored)), ToSortableIso(parameter)) <==> stored < parameter
  {
    RewriteIsSortable(stored);
    SortableTextOrder(stored, parameter);
  }

  const MICROS_PER_SECOND := 1_000_000

  lemma MicroOfInstant(t: Instant)
    ensures CivilOf(t).micro == t % MICROS_PER_SECOND
    ensures Ticks(CivilOf(t).(micro := 0)) == t - t % MICROS_PER_SECOND
  {
    var c := CivilOf(t);
    hide CivilOf, DayNumber;
    var seconds := DayNumber(c.year, c.month, c.day) * 86_400 + c.hour * 3600 + c.minute * 60 + c.second;
    assert t == seconds * MICROS_PER_SECOND + c.micro;
    SecondsAndMicros(t, seconds, c.micro);
  }

  lemma SecondsAndMicros(t: int, seconds: int, micro: int)
    requires t == seconds * MICROS_PER_SECOND + micro && 0 <= micro < MICROS_PER_SECOND
    ensures t % MICROS_PER_SECOND == micro && t / MICROS_PER_SECOND == seconds
  {
  }

  /** The first instant is an exact second, and the second lies within that second. */
  predicate FractionOfExactSecond(t: Instant, u: Instant) {
    t % MICROS_PER_SECOND == 0 && t < u < t + MICROS_PER_SECOND
  }

  lemma SameSecond(t: Instant, u: Instant)
    requires t < u
    ensures CivilOf(t).(micro := 0) == CivilOf(u).(micro := 0)
            <==> t / MICROS_PER_SECOND == u / MICROS_PER_SECOND
  {
    MicroOfInstant(t);
    MicroOfInstant(u);
    FieldOrderIsChronological(CivilOf(t).(micro := 0), CivilOf(u).(micro := 0));
  }

  /** The tails of two raw texts: an absent fraction sorts after every fraction. */
  lemma {:induction false} RawTails(a: Civil, b: Civil, x: string, y: string)
    requires ValidCivil(a) && ValidCivil(b)
    requires x == (if a.micro == 0 then "Z" else FractionText(a))
    requires y == (if b.micro == 0 then "Z" else FractionText(b))
    ensures TextLess(x, y) <==> a.micro != 0 && (b.micro == 0 || a.micro < b.micro)
  {
    FractionInOrder(a, b);
    assert !TextLess("Z", "Z");
    assert FractionText(a)[0] == '.' && FractionText(b)[0] == '.';
  }

  lemma RawTextInFields(t: Instant, u: Instant)
    ensures var a, b := CivilOf(t), CivilOf(u);
            TextLess(ToIso(t), ToIso(u))
            <==> || Before(a.(micro := 0), b.(micro := 0))
                 || (a.(micro := 0) == b.(micro := 0) && a.micro != 0 && (b.micro == 0 || a.micro < b.micro))
  {
    var a, b := CivilOf(t), CivilOf(u);
    var x := if a.micro == 0 then "Z" else FractionText(a);
    var y := if b.micro == 0 then "Z" else FractionText(b);
    RawTails(a, b, x, y);
    DateTimeTextInOrder(a, b, x, y);
    TimeTextInOrder(a, b, x, y);
    hide TextLess, FractionText, DateTimeText, TimeText, CivilOf;
  }

  /**
   Unrewritten text orders an earlier instant before a later one unless the earlier is an exact second
   and the later a fraction of that very second; these pairs, and no others, come out reversed.
   */
  lemma RawTextOrdersIff(t: Instant, u: Instant)
    requires t < u
    ensures TextLess(ToIso(t), ToIso(u)) <==> !FractionOfExactSecond(t, u)
    ensures TextLess(ToIso(u), ToIso(t)) <==> FractionOfExactSecond(t, u)
  {
    var a, b := CivilOf(t), CivilOf(u);
    RawTextInFields(t, u);
    RawTextInFields(u, t);
    SameSecond(t, u);
    MicroOfInstant(t);
    MicroOfInstant(u);
    FieldOrderIsChronological(a.(micro := 0), b.(micro := 0));
    FieldOrderIsChronological(b.(micro := 0), a.(micro := 0));
    hide ToIso, TextLess, CivilOf, Before, Ticks;
  }

  /** Such a pair. */
  lemma RawTextMisorders()
    ensures exists t: Instant, u: Instant :: t < u && TextLess(ToIso(u), ToIso(t))
  {
    var t, u: Instant := 0, 500_000;
    RawTextOrdersIff(t, u);
    assert TextLess(ToIso(u), ToIso(t));
  }

  // ---------------------------------------------------------------- reading text back

  predicate IsDigit(c: char) {
    '0' <= c <= '9'
  }

  predicate AllDigits(text: string) {
    forall i :: 0 <= i < |text| ==> IsDigit(text[i])
  }

  function Number(text: string): (n: int)
    requires AllDigits(text)
    ensures n >= 0
  {
    if text == "" then 0
    else 10 * Number(text[..|text| - 1]) + (text[|text| - 1] as int - '0' as int)
  }

  lemma {:induction false} NumberOfDigits(n: int, width: nat)
    requires 0 <= n < PowerOfTen(width)
    ensures Number(Digits(n, width)) == n
  {
    if width > 0 {
      NumberOfDigits(n / 10, width - 1);
      var text := Digits(n, width);
      assert text[..width - 1] == Digits(n / 10, width - 1);
    }
  }

  /** YYYY-MM-DDTHH:MM:SSZ or YYYY-MM-DDTHH:MM:SS.ffffffZ, the two forms the engine writes. */
  predicate WellFormed(text: string) {
    && (|text| == 20 || (|text| == 27 && text[19] == '.' && AllDigits(text[20..26])))
    && text[|text| - 1] == 'Z'
    && text[4] == '-' && text[7] == '-' && text[10] == 'T' && text[13] == ':' && text[16] == ':'
    && AllDigits(text[..4]) && AllDigits(text[5..7]) && AllDigits(text[8..10])
    && AllDigits(text[11..13]) && AllDigits(text[14..16]) && AllDigits(text[17..19])
  }

  function FieldsOf(text: string): Civil
    requires WellFormed(text)
  {
    Civil(Number(text[..4]), Number(text[5..7]), Number(text[8..10]),
          Number(text[11..13]), Number(text[14..16]), Number(text[17..19]),
          if |text| == 20 then 0 else Number(text[20..26]))
  }

  function FromIso(text: string): Option<Instant> {
    if WellFormed(text) && ValidCivil(FieldsOf(text)) then
      TicksRange(FieldsOf(text));
      Some(Ticks(FieldsOf(text)))
    else
      None
  }

  lemma TimeSlices(c: Civil, tail: string)
    requires ValidCivil(c)
    ensures var text := TimeText(c, tail);
            && |text| == 8 + |tail|
            && text[..2] == Digits(c.hour, 2) && text[3..5] == Digits(c.minute, 2) && text[6..8] == Digits(c.second, 2)
            && text[2] == ':' && text[5] == ':' && text[8..] == tail
  {
  }

  lemma Slices(year: string, month: string, day: string, time: string)
    requires |year| == 4 && |month| == 2 && |day| == 2
    ensures var text := year + ("-" + (month + ("-" + (day + ("T" + time)))));
            && |text| == 11 + |time|
            && text[..4] == year && text[5..7] == month && text[8..10] == day
            && text[4] == '-' && text[7] == '-' && text[10] == 'T' && text[11..] == time
  {
  }

  lemma DateSlices(c: Civil, tail: string)
    requires ValidCivil(c)
    ensures var text := DateTimeText(c, tail);
            && |text| == 19 + |tail|
            && text[..4] == Digits(c.year, 4) && text[5..7] == Digits(c.month, 2) && text[8..10] == Digits(c.day, 2)
            && text[4] == '-' && text[7] == '-' && text[10] == 'T' && text[11..] == TimeText(c, tail)
  {
    TimeSlices(c, tail);
    Slices(Digits(c.year, 4), Digits(c.month, 2), Digits(c.day, 2), TimeText(c, tail));
    hide TimeText, Digits;
  }

  lemma WrittenSlices(c: Civil, tail: string)
    requires ValidCivil(c) && |tail| >= 1
    ensures var text := DateTimeText(c, tail);
            && |text| == 19 + |tail|
            && text[11..13] == Digits(c.hour, 2) && text[14..16] == Digits(c.minute, 2)
            && text[17..19] == Digits(c.second, 2)
            && text[13] == ':' && text[16] == ':' && text[19..] == tail
  {
    TimeSlices(c, tail);
    DateSlices(c, tail);
    hide TimeText, DateTimeText;
    var text, time := DateTimeText(c, tail), TimeText(c, tail);
    assert text[11..13] == time[..2] && text[14..16] == time[3..5] && text[17..19] == time[6..8];
    assert text[13] == time[2] && text[16] == time[5] && text[19..] == time[8..];
  }

  lemma WrittenFields(c: Civil, tail: string)
    requires ValidCivil(c) && (tail == "Z" || tail == FractionText(c))
    ensures var text := DateTimeText(c, tail);
            && WellFormed(text)
            && FieldsOf(text) == c.(micro := if tail == "Z" then 0 else c.micro)
  {
    hide TimeText, DateTimeText, Digits, Number, PowerOfTen;
    DateSlices(c, tail);
    WrittenSlices(c, tail);
    var text := DateTimeText(c, tail);
    Powers();
    NumberOfDigits(c.year, 4);
    NumberOfDigits(c.month, 2);
    NumberOfDigits(c.day, 2);
    NumberOfDigits(c.hour, 2);
    NumberOfDigits(c.minute, 2);
    NumberOfDigits(c.second, 2);
    assert text[|text| - 1] == text[19..][|text| - 20];
    if tail != "Z" {
      assert text[20..26] == text[19..][1..7] == Digits(c.micro, 6);
      assert text[19] == text[19..][0];
      NumberOfDigits(c.micro, 6);
    }
  }

  /** from_iso inverts both encodings. */
  lemma FromIsoInverts(t: Instant)
    ensures FromIso(ToIso(t)) == Some(t)
    ensures FromIso(ToSortableIso(t)) == Some(t)
  {
    var c := CivilOf(t);
    WrittenFields(c, "Z");
    WrittenFields(c, FractionText(c));
  }

  // ---------------------------------------------------------------- known times

  lemma {:induction false} LastDigit(n: nat, last: nat, width: nat)
    requires last < 10
    ensures Digits(10 * n + last, width + 1) == Digits(n, width) + [DigitChar(last)]
  {
    assert (10 * n + last) / 10 == n && (10 * n + last) % 10 == last;
  }

  lemma {:induction false} TwoDigits(a: nat, b: nat)
    requires a < 10 && b < 10
    ensures Digits(10 * a + b, 2) == [DigitChar(a), DigitChar(b)]
  {
    LastDigit(a, b, 1);
    LastDigit(0, a, 0);
    assert Digits(0, 0) == "";
    hide Digits, DigitChar;
    assert Digits(a, 1) == [] + [DigitChar(a)];
  }

  lemma {:induction false} FourDigits(a: nat, b: nat, c: nat, d: nat)
    requires a < 10 && b < 10 && c < 10 && d < 10
    ensures Digits(1000 * a + 100 * b + 10 * c + d, 4) == [DigitChar(a), DigitChar(b), DigitChar(c), DigitChar(d)]
  {
    hide Digits, DigitChar;
    TwoDigits(a, b);
    LastDigit(10 * a + b, c, 2);
    LastDigit(100 * a + 10 * b + c, d, 3);
    assert 10 * (10 * a + b) + c == 100 * a + 10 * b + c;
    assert 10 * (100 * a + 10 * b + c) + d == 1000 * a + 100 * b + 10 * c + d;
  }

  lemma CivilAt(t: Instant, c: Civil)
    requires ValidCivil(c) && Ticks(c) == t
    ensures CivilOf(t) == c
  {
    FieldOrderIsChronological(CivilOf(t), c);
  }

  /** A date and time of day in text. */
  lemma TextOf(c: Civil, year: string, month: string, day: string, hour: string, minute: string, second: string,
               tail: string)
    requires ValidCivil(c)
    requires Digits(c.year, 4) == year && Digits(c.month, 2) == month && Digits(c.day, 2) == day
    requires Digits(c.hour, 2) == hour && Digits(c.minute, 2) == minute && Digits(c.second, 2) == second
    ensures DateTimeText(c, tail)
            == year + "-" + month + "-" + day + "T" + hour + ":" + minute + ":" + second + tail
  {
  }

  const EPOCH: Instant := 62_135_596_800_000_000

  lemma EpochCivil()
    ensures CivilOf(EPOCH) == Civil(1970, 1, 1, 0, 0, 0, 0)
  {
    CivilAt(EPOCH, Civil(1970, 1, 1, 0, 0, 0, 0));
  }

  lemma EpochDateTime(tail: string)
    ensures DateTimeText(Civil(1970, 1, 1, 0, 0, 0, 0), tail) == "1970-01-01T00:00:00" + tail
  {
    hide Digits, TimeText, DateTimeText;
    FourDigits(1, 9, 7, 0);
    TwoDigits(0, 1);
    TwoDigits(0, 0);
    TextOf(Civil(1970, 1, 1, 0, 0, 0, 0), "1970", "01", "01", "00", "00", "00", tail);
  }

  /** The Unix epoch, in both encodings. */
  lemma EpochText()
    ensures ToIso(EPOCH) == "1970-01-01T00:00:00" + "Z"
    ensures ToSortableIso(EPOCH) == "1970-01-01T00:00:00" + ".000000Z"
  {
    hide Digits, FractionText, TimeText, DateTimeText, CivilOf;
    EpochCivil();
    EpochDateTime("Z");
    EpochDateTime(".000000Z");
    ZeroFraction(Civil(1970, 1, 1, 0, 0, 0, 0));
  }

  /** The last second of a leap day of a century year. */
  lemma LeapDayText()
    ensures ToIso(63_087_465_599_000_000) == "2000-02-29T23:59:59Z"
  {
    hide Digits, FractionText, TimeText, DateTimeText;
    var c := Civil(2000, 2, 29, 23, 59, 59, 0);
    CivilAt(63_087_465_599_000_000, c);
    FourDigits(2, 0, 0, 0);
    TwoDigits(0, 2);
    TwoDigits(2, 9);
    TwoDigits(2, 3);
    TwoDigits(5, 9);
    TextOf(c, "2000", "02", "29", "23", "59", "59", "Z");
    hide CivilOf;
  }
}
