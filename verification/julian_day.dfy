/** Proleptic Gregorian calendar date -> Julian Day Number, with the
    integer-only formula of the converter. Month and day are plain integers:
    out-of-range values are not rejected, they flow through the formula. */
module JulianDayNumber {
  import opened MayanTables

  /** A calendar date as entered: astronomical year (1 BCE is 0), month, day. */
  datatype CalendarDate = CalendarDate(year: int, month: int, day: int)

  /** The JDN formula. Every division is by a positive constant, so Dafny's
      Euclidean `/` is the floor division the formula calls for. */
  function ToJulianDay(year: int, month: int, day: int): int
  {
    var a := (14 - month) / 12;
    var y := year + 4800 - a;
    var m := month + 12 * a - 3;
    day + (153 * m + 2) / 5 + YearDays(y) - 32045
  }

  /** The year-dependent part of the formula: days in y Gregorian years
      counted from the start of the shifted era (March-based years). */
  function YearDays(y: int): int {
    365 * y + y / 4 - y / 100 + y / 400
  }

  function DateJdn(date: CalendarDate): int {
    ToJulianDay(date.year, date.month, date.day)
  }

  // ---------------------------------------------------------------------
  // The Gregorian calendar the formula is meant to count.

  predicate IsLeapYear(year: int) {
    year % 4 == 0 && (year % 100 != 0 || year % 400 == 0)
  }

  function DaysInMonth(year: int, month: int): (n: int)
    requires 1 <= month <= 12
    ensures 28 <= n <= 31
    ensures month == 2 ==> (n == 29 <==> IsLeapYear(year))
  {
    if month == 2 then (if IsLeapYear(year) then 29 else 28)
    else if month == 4 || month == 6 || month == 9 || month == 11 then 30
    else 31
  }

  predicate ValidDate(date: CalendarDate) {
    1 <= date.month <= 12 && 1 <= date.day <= DaysInMonth(date.year, date.month)
  }

  /** (year, month) of the month after the given one. */
  function NextMonth(year: int, month: int): (r: (int, int))
    requires 1 <= month <= 12
    ensures 1 <= r.1 <= 12
    ensures r.0 * 12 + r.1 == year * 12 + month + 1
  {
    if month == 12 then (year + 1, 1) else (year, month + 1)
  }

  /** Strictly earlier in calendar (lexicographic) order. */
  predicate Before(a: CalendarDate, b: CalendarDate) {
    a.year < b.year
    || (a.year == b.year && a.month < b.month)
    || (a.year == b.year && a.month == b.month && a.day < b.day)
  }

  /** 11 August 3114 BCE, astronomical year -3113. */
  const EpochDate: CalendarDate := CalendarDate(-3113, 8, 11)

  // ---------------------------------------------------------------------
  // Laws of the formula.

  /** The day only ever enters the sum as an additive term, whatever its range. */
  lemma DayShift(year: int, month: int, day: int, k: int)
    ensures ToJulianDay(year, month, day + k) == ToJulianDay(year, month, day) + k
  {
  }

  /** Month 13 of a year is month 1 of the next: out-of-range months wrap. */
  lemma MonthWrap(year: int, month: int, day: int)
    ensures ToJulianDay(year, month + 12, day) == ToJulianDay(year + 1, month, day)
  {
    var a := (14 - month) / 12;
    assert (14 - (month + 12)) / 12 == a - 1;
  }

  /** Stepping the floor of a quotient by one unit of the dividend. */
  lemma FloorStep(x: int, k: int)
    requires k == 4 || k == 100 || k == 400
    ensures (x + 1) / k - x / k == (if (x + 1) % k == 0 then 1 else 0)
  {
    if k == 4 {
      DivUnique4(x);
    } else if k == 100 {
      DivUnique100(x);
    } else {
      DivUnique400(x);
    }
  }

  lemma DivUnique4(x: int)
    ensures (x + 1) / 4 == (if (x + 1) % 4 == 0 then x / 4 + 1 else x / 4)
  {
  }

  lemma DivUnique100(x: int)
    ensures (x + 1) / 100 == (if (x + 1) % 100 == 0 then x / 100 + 1 else x / 100)
  {
  }

  lemma DivUnique400(x: int)
    ensures (x + 1) / 400 == (if (x + 1) % 400 == 0 then x / 400 + 1 else x / 400)
  {
  }

  /** Four hundred Gregorian years hold 146097 days. */
  lemma YearDaysCycle(y: int)
    ensures YearDays(y + 400) == YearDays(y) + 146097
  {
    assert (y + 400) / 4 == y / 4 + 100;
    assert (y + 400) / 100 == y / 100 + 4;
    assert (y + 400) / 400 == y / 400 + 1;
  }

  /** The Gregorian calendar repeats every 400 years, i.e. every 146097 days. */
  lemma FourHundredYearCycle(year: int, month: int, day: int)
    ensures ToJulianDay(year + 400, month, day) == ToJulianDay(year, month, day) + 146097
  {
    var a := (14 - month) / 12;
    YearDaysCycle(year + 4800 - a);
  }

  /** Whether year + 4800 is a leap year agrees with whether year is one. */
  lemma LeapShift(year: int)
    ensures IsLeapYear(year + 4800) == IsLeapYear(year)
  {
    RemainderShift4(year, 1200);
    RemainderShift100(year, 48);
    RemainderShift400(year, 12);
  }

  /** Adding whole multiples of 4, 100 or 400 leaves the remainder alone. */
  lemma RemainderShift4(x: int, q: int)
    ensures (x + q * 4) % 4 == x % 4
  {
    var k, r := x / 4, x % 4;
    assert x + q * 4 == (k + q) * 4 + r;
  }

  lemma RemainderShift100(x: int, q: int)
    ensures (x + q * 100) % 100 == x % 100
  {
    var k, r := x / 100, x % 100;
    assert x + q * 100 == (k + q) * 100 + r;
  }

  lemma RemainderShift400(x: int, q: int)
    ensures (x + q * 400) % 400 == x % 400
  {
    var k, r := x / 400, x % 400;
    assert x + q * 400 == (k + q) * 400 + r;
  }

  /** The day after the last day of a month is the first day of the next month:
      the formula agrees with the Gregorian month lengths and leap-year rule. */
  lemma MonthRollover(year: int, month: int)
    requires 1 <= month <= 12
    ensures ToJulianDay(year, month, DaysInMonth(year, month) + 1)
         == ToJulianDay(NextMonth(year, month).0, NextMonth(year, month).1, 1)
  {
    if month == 1 {
      JanuaryLength(year);
    } else if month == 2 {
      FebruaryLength(year);
    } else if month == 12 {
      DecemberLength(year);
    } else {
      MidYearLength(year, month);
    }
  }

  /** Days from 1 March to the first of the k-th month after March. */
  lemma MarchOffsets(k: int)
    requires 0 <= k < 12
    ensures (153 * k + 2) / 5
         == [0, 31, 61, 92, 122, 153, 184, 214, 245, 275, 306, 337][k]
  {
  }

  /** January and February both count in the shifted year year + 4799. */
  lemma JanuaryLength(year: int)
    ensures ToJulianDay(year, 1, 32) == ToJulianDay(year, 2, 1)
  {
    MarchOffsets(10);
    MarchOffsets(11);
  }

  /** December counts in the shifted year year + 4800, as does the January after it. */
  lemma DecemberLength(year: int)
    ensures ToJulianDay(year, 12, 32) == ToJulianDay(year + 1, 1, 1)
  {
    MarchOffsets(9);
    MarchOffsets(10);
  }

  /** March to November: a = 0 throughout, so only the month term moves. */
  lemma MidYearLength(year: int, month: int)
    requires 3 <= month <= 11
    ensures ToJulianDay(year, month, DaysInMonth(year, month) + 1) == ToJulianDay(year, month + 1, 1)
  {
    assert (14 - month) / 12 == 0 && (14 - (month + 1)) / 12 == 0;
    MarchOffsets(month - 3);
    MarchOffsets(month - 2);
  }

  /** February ends 28 days after its start, 29 in a leap year, because the
      shifted year y + 1 that March opens adds a leap day exactly then. */
  lemma FebruaryLength(year: int)
    ensures ToJulianDay(year, 2, DaysInMonth(year, 2) + 1) == ToJulianDay(year, 3, 1)
  {
    var y := year + 4799;
    var d := DaysInMonth(year, 2);
    assert ToJulianDay(year, 2, d + 1) == d + 1 + 337 + YearDays(y) - 32045 by { MarchOffsets(11); }
    assert ToJulianDay(year, 3, 1) == 1 + YearDays(y + 1) - 32045 by { MarchOffsets(0); }
    assert YearDays(y + 1) - YearDays(y) == d + 337 by {
      YearLength(y);
      LeapShift(year);
    }
  }

  /** The shifted year after y has 366 days exactly when y + 1 is a leap year. */
  lemma YearLength(y: int)
    ensures YearDays(y + 1) - YearDays(y) == (if IsLeapYear(y + 1) then 366 else 365)
  {
    FloorStep(y, 4);
    FloorStep(y, 100);
    FloorStep(y, 400);
    DivisibilityChain(y + 1);
  }

  /** A multiple of 400 is a multiple of 100, and a multiple of 100 one of 4. */
  lemma DivisibilityChain(x: int)
    ensures x % 400 == 0 ==> x % 100 == 0
    ensures x % 100 == 0 ==> x % 4 == 0
  {
    if x % 400 == 0 {
      var q := x / 400;
      assert x == 0 + (4 * q) * 100;
      RemainderShift100(0, 4 * q);
    }
    if x % 100 == 0 {
      var q := x / 100;
      assert x == 0 + (25 * q) * 4;
      RemainderShift4(0, 25 * q);
    }
  }

  /** Every day of a month precedes the first day of the following month. */
  lemma BeforeNextMonth(date: CalendarDate)
    requires ValidDate(date)
    ensures DateJdn(date) < ToJulianDay(NextMonth(date.year, date.month).0, NextMonth(date.year, date.month).1, 1)
  {
    var last := DaysInMonth(date.year, date.month);
    DayShift(date.year, date.month, date.day, last + 1 - date.day);
    MonthRollover(date.year, date.month);
  }

  /** A valid date precedes the first day of every later month. */
  lemma {:induction false} BeforeLaterMonth(date: CalendarDate, year: int, month: int)
    requires ValidDate(date)
    requires 1 <= month <= 12
    requires date.year * 12 + date.month < year * 12 + month
    ensures DateJdn(date) < ToJulianDay(year, month, 1)
    decreases year * 12 + month - (date.year * 12 + date.month)
  {
    var next := NextMonth(date.year, date.month);
    var first := CalendarDate(next.0, next.1, 1);
    assert DateJdn(date) < DateJdn(first) by { BeforeNextMonth(date); }
    if next.0 * 12 + next.1 < year * 12 + month {
      assert ValidDate(first);
      BeforeLaterMonth(first, year, month);
    } else {
      assert next.0 == year && next.1 == month;
    }
  }

  /** The JDN is strictly increasing along the calendar on valid dates. */
  lemma JdnStrictlyIncreasing(a: CalendarDate, b: CalendarDate)
    requires ValidDate(a) && ValidDate(b)
    requires Before(a, b)
    ensures DateJdn(a) < DateJdn(b)
  {
    if a.year == b.year && a.month == b.month {
      DayShift(a.year, a.month, a.day, b.day - a.day);
    } else {
      BeforeLaterMonth(a, b.year, b.month);
      DayShift(b.year, b.month, 1, b.day - 1);
    }
  }

  /** The epoch date has the epoch JDN, and the day before it is one less. */
  lemma EpochJdn()
    ensures DateJdn(EpochDate) == MayanEpochJdn
    ensures ToJulianDay(-3113, 8, 10) == MayanEpochJdn - 1
  {
    // a = 0, so y = 1687 and m = 5.
    assert YearDays(1687) == 616164;
    assert (153 * 5 + 2) / 5 == 153;
    DayShift(-3113, 8, 10, 1);
  }

  /** A valid date reaches the epoch JDN exactly when it is not before the epoch date. */
  lemma NotBeforeEpochIff(date: CalendarDate)
    requires ValidDate(date)
    ensures DateJdn(date) >= MayanEpochJdn <==> !Before(date, EpochDate)
  {
    EpochJdn();
    if Before(date, EpochDate) {
      JdnStrictlyIncreasing(date, EpochDate);
    } else if date != EpochDate {
      assert Before(EpochDate, date);
      JdnStrictlyIncreasing(EpochDate, date);
    }
  }

  /** Non-negative year, month and day components always clear the epoch:
      the formula puts every such date more than a million days after it.
      Month 0 and day 0 are included, since the formula accepts them. */
  lemma GateOpen(year: int, month: int, day: int)
    requires year >= 0 && month >= 0 && day >= 0
    ensures ToJulianDay(year, month, day) >= MayanEpochJdn
  {
    var a := (14 - month) / 12;
    assert 12 * a <= 14 - month < 12 * a + 12;
    var y := year + 4800 - a;
    var m := month + 12 * a - 3;
    assert y >= 4799 && m >= 0;
    assert y / 100 <= y / 4 by {
      assert 100 * (y / 100) <= y < 4 * (y / 4) + 4;
    }
    assert YearDays(y) >= 365 * 4799;
  }
}
