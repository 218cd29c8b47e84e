/** The Haab: a 365-day solar count of eighteen 20-day months followed by
    the five-day Wayebʼ. Days within a month are numbered from 0. */
module HaabCalendar {
  import opened MayanTables

  datatype Haab = Haab(day: int, month: string)

  /** Number of days in the month at index i of HaabMonths. */
  function MonthLength(i: int): int {
    if i == WayebIndex then 5 else 20
  }

  /** A month from the table and a day that month has. */
  predicate WellFormed(h: Haab) {
    && h.month in HaabMonths
    && 0 <= h.day
    && (h.month == HaabMonths[WayebIndex] ==> h.day < 5)
    && (h.month != HaabMonths[WayebIndex] ==> h.day < 20)
  }

  /** The Haab of a non-negative day offset. The constant +348 calibrates
      offset 0 to 8 Kumkʼu; day-of-year 360 and later falls in Wayebʼ. */
  function CalculateHaab(offset: int): (h: Haab)
    requires offset >= 0
    ensures WellFormed(h)
    ensures h.month == HaabMonths[WayebIndex] <==> (offset + 348) % 365 >= 360
  {
    HaabMonthsDistinct();
    var haabDay := (offset + 348) % 365;
    if haabDay >= 360 then
      Haab(haabDay - 360, HaabMonths[WayebIndex])
    else
      Haab(haabDay % 20, HaabMonths[haabDay / 20])
  }

  /** Position of a well-formed Haab's month in the table. */
  ghost function MonthIndex(h: Haab): (i: nat)
    requires WellFormed(h)
    ensures i < 19 && HaabMonths[i] == h.month
  {
    var i :| 0 <= i < 19 && HaabMonths[i] == h.month; i
  }

  /** Day of the Haab year, 0 (0 Pop) to 364 (4 Wayebʼ). */
  ghost function DayOfYear(h: Haab): (n: int)
    requires WellFormed(h)
    ensures 0 <= n < 365
  {
    HaabMonthsDistinct();
    20 * MonthIndex(h) + h.day
  }

  /** The deriver lands on the day of the year its calibrated count names. */
  lemma DayOfYearOfCalculated(offset: int)
    requires offset >= 0
    ensures DayOfYear(CalculateHaab(offset)) == (offset + 348) % 365
  {
    HaabMonthsDistinct();
  }

  /** The day after: the next day of the month, or day 0 of the next month,
      wrapping from 4 Wayebʼ to 0 Pop. */
  ghost function NextHaab(h: Haab): (r: Haab)
    requires WellFormed(h)
    ensures WellFormed(r)
  {
    HaabMonthsDistinct();
    var i := MonthIndex(h);
    if h.day + 1 < MonthLength(i) then Haab(h.day + 1, h.month)
    else if i == WayebIndex then Haab(0, HaabMonths[0])
    else Haab(0, HaabMonths[i + 1])
  }

  /** Each day advances the Haab by one day, carrying into the next month. */
  lemma HaabStep(offset: int)
    requires offset >= 0
    ensures CalculateHaab(offset + 1) == NextHaab(CalculateHaab(offset))
  {
    HaabMonthsDistinct();
    DayOfYearOfCalculated(offset);
    ModSucc365(offset + 348);
  }

  /** The residue modulo 365 of a successor. This is TzolkinCalendar.ModSucc
      for the divisor 365, kept separate so that the divisor stays a literal
      (see TzolkinCalendar.ShiftMod). */
  lemma ModSucc365(x: int)
    ensures (x + 1) % 365 == (if x % 365 == 364 then 0 else x % 365 + 1)
  {
    var q, r := x / 365, x % 365;
    if r == 364 {
      assert x + 1 == (q + 1) * 365;
    } else {
      assert x + 1 == q * 365 + (r + 1);
    }
  }

  /** Calibration points: the creation date is 8 Kumkʼu, the next day
      9 Kumkʼu, offset 12 opens Wayebʼ and offset 17 opens the year at 0 Pop. */
  lemma HaabAtEpoch()
    ensures CalculateHaab(0) == Haab(8, "Kumkʼu")
    ensures CalculateHaab(1) == Haab(9, "Kumkʼu")
    ensures CalculateHaab(12) == Haab(0, "Wayebʼ")
    ensures CalculateHaab(17) == Haab(0, "Pop")
  {
  }

  /** Reference definition: start at 8 Kumkʼu and step offset days forward. */
  ghost function HaabByCounting(offset: nat): (h: Haab)
    ensures WellFormed(h)
  {
    if offset == 0 then Haab(8, "Kumkʼu") else NextHaab(HaabByCounting(offset - 1))
  }

  /** The closed form agrees with stepping day by day from the epoch. */
  lemma HaabMatchesCounting(offset: nat)
    ensures CalculateHaab(offset) == HaabByCounting(offset)
  {
    var k := 0;
    HaabAtEpoch();
    while k < offset
      invariant k <= offset
      invariant CalculateHaab(k) == HaabByCounting(k)
    {
      k := k + 1;
      HaabCountingStep(k);
    }
  }

  /** One step of HaabMatchesCounting. */
  lemma HaabCountingStep(offset: nat)
    requires offset >= 1
    requires CalculateHaab(offset - 1) == HaabByCounting(offset - 1)
    ensures CalculateHaab(offset) == HaabByCounting(offset)
  {
    HaabStep(offset - 1);
  }

  /** The Haab repeats after 365 days. */
  lemma HaabPeriodic(offset: int)
    requires offset >= 0
    ensures CalculateHaab(offset + 365) == CalculateHaab(offset)
  {
    assert (offset + 365 + 348) % 365 == (offset + 348) % 365;
  }

  /** Shifting by any whole number of 365-day years keeps the Haab day; the
      Haab counterpart of TzolkinCalendar.PeriodicBy. */
  lemma HaabPeriodicBy(o1: int, o2: int, n: int)
    requires o1 >= 0 && o2 >= 0
    requires o1 == o2 + 365 * n
    ensures CalculateHaab(o1) == CalculateHaab(o2)
  {
    assert (o1 + 348) % 365 == (o2 + 348) % 365 by {
      var q, r := (o2 + 348) / 365, (o2 + 348) % 365;
      assert o1 + 348 == 365 * (q + n) + r;
    }
  }

  /** Two offsets fall on the same Haab day exactly when they are equal
      modulo 365: 365 is the exact period. */
  lemma HaabSameIff(o1: int, o2: int)
    requires o1 >= 0 && o2 >= 0
    ensures CalculateHaab(o1) == CalculateHaab(o2) <==> o1 % 365 == o2 % 365
  {
    DayOfYearOfCalculated(o1);
    DayOfYearOfCalculated(o2);
    if CalculateHaab(o1) == CalculateHaab(o2) {
      assert (o1 + 348) % 365 == (o2 + 348) % 365;
      SameShiftedResidue(o1, o2);
    } else if o1 % 365 == o2 % 365 {
      SameShiftedResidue(o1, o2);
    }
  }

  /** Shifting both offsets by the calibration constant keeps agreement mod 365. */
  lemma SameShiftedResidue(o1: int, o2: int)
    ensures (o1 + 348) % 365 == (o2 + 348) % 365 <==> o1 % 365 == o2 % 365
  {
    CalibratedResidue(o1);
    CalibratedResidue(o2);
  }

  /** The calibrated day of the year, from the residue of the offset. */
  lemma CalibratedResidue(o: int)
    ensures (o + 348) % 365 == (if o % 365 < 17 then o % 365 + 348 else o % 365 - 17)
  {
    var q, r := o / 365, o % 365;
    if r < 17 {
      assert o + 348 == q * 365 + (r + 348);
    } else {
      assert o + 348 == (q + 1) * 365 + (r - 17);
    }
  }

  /** A well-formed Haab day is fixed by its day of the year. */
  lemma DayOfYearDetermines(a: Haab, b: Haab)
    requires WellFormed(a) && WellFormed(b)
    requires DayOfYear(a) == DayOfYear(b)
    ensures a == b
  {
    HaabMonthsDistinct();
    var i, j := MonthIndex(a), MonthIndex(b);
    assert 20 * i + a.day == 20 * j + b.day;
    assert i == j;
  }

  /** Every well-formed Haab day occurs within the first 365 days. */
  lemma HaabOnto(h: Haab)
    requires WellFormed(h)
    ensures exists o :: 0 <= o < 365 && CalculateHaab(o) == h
  {
    HaabMonthsDistinct();
    var n := DayOfYear(h);
    var o := if n < 348 then n + 17 else n - 348;
    assert (o + 348) % 365 == n by {
      if n < 348 { assert o + 348 == 365 + n; }
    }
    DayOfYearOfCalculated(o);
    DayOfYearDetermines(CalculateHaab(o), h);
  }
}
