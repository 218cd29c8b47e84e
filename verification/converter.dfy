/** The conversion pipeline: parsed date -> JDN -> days since the Mayan epoch
    -> Long Count, Tzolkʼin and Haab. The date-string parser is represented
    by its outcome: None when a year, month or day component is not a number,
    otherwise the three integers. */
module MayanConverter {
  import opened Optional
  import opened MayanTables
  import opened JulianDayNumber
  import opened LongCountCalendar
  import opened TzolkinCalendar
  import opened HaabCalendar

  /** The complete result: all four parts come from one JDN. */
  datatype MayanDate = MayanDate(longCount: LongCount, tzolkin: Tzolkin, haab: Haab, julianDay: int)

  /** The epoch gate: days since 0.0.0.0.0, or None for a JDN before it. */
  function DaysSinceEpoch(jdn: int): (r: Option<nat>)
    ensures r.Some? <==> jdn >= MayanEpochJdn
    ensures r.Some? ==> MayanEpochJdn + r.value == jdn
  {
    var days := jdn - MayanEpochJdn;
    if days < 0 then None else Some(days)
  }

  /** Converts a parsed date. None when parsing failed or the date falls
      before the epoch; otherwise a result whose Long Count counts the days
      from the epoch to the date's JDN and whose Tzolkʼin and Haab are those
      of that same day count. */
  function Convert(parsed: Option<(int, int, int)>): (r: Option<MayanDate>)
    ensures r.None? <==> parsed.None? || ToJulianDay(parsed.value.0, parsed.value.1, parsed.value.2) < MayanEpochJdn
    ensures r.Some? ==>
      && r.value.julianDay == ToJulianDay(parsed.value.0, parsed.value.1, parsed.value.2)
      && LongCountCalendar.WellFormed(r.value.longCount)
      && MayanEpochJdn + Days(r.value.longCount) == r.value.julianDay
      && r.value.tzolkin == CalculateTzolkin(Days(r.value.longCount))
      && r.value.haab == CalculateHaab(Days(r.value.longCount))
  {
    match parsed
    case None => None
    case Some((year, month, day)) =>
      var jdn := ToJulianDay(year, month, day);
      match DaysSinceEpoch(jdn)
      case None => None
      case Some(days) =>
        Some(MayanDate(CalculateLongCount(days), CalculateTzolkin(days), CalculateHaab(days), jdn))
  }

  /** The creation date converts to 0.0.0.0.0 4 Ajaw 8 Kumkʼu at JDN 584283. */
  lemma ConvertEpoch()
    ensures Convert(Some((-3113, 8, 11))).Some?
    ensures Convert(Some((-3113, 8, 11))).value.julianDay == 584283
    ensures Convert(Some((-3113, 8, 11))).value.longCount == LongCount(0, 0, 0, 0, 0)
    ensures Convert(Some((-3113, 8, 11))).value.tzolkin == Tzolkin(4, "Ajaw")
    ensures Convert(Some((-3113, 8, 11))).value.haab == Haab(8, "Kumkʼu")
  {
    ConvertEpochDate();
    LongCountAtEpoch();
    TzolkinAtEpoch();
    HaabAtEpoch();
  }

  /** The epoch date reaches the derivers with day count 0. */
  lemma ConvertEpochDate()
    ensures Convert(Some((-3113, 8, 11)))
         == Some(MayanDate(CalculateLongCount(0), CalculateTzolkin(0), CalculateHaab(0), MayanEpochJdn))
  {
    EpochJdn();
  }

  /** The day before the creation date has no conversion. */
  lemma ConvertBeforeEpoch()
    ensures Convert(Some((-3113, 8, 10))) == None
  {
    EpochJdn();
  }

  /** Components without a sign always convert: the day-count check only
      turns away parse outcomes with a negative field. */
  lemma ConvertNonNegativeFields(year: int, month: int, day: int)
    requires year >= 0 && month >= 0 && day >= 0
    ensures Convert(Some((year, month, day))).Some?
  {
    GateOpen(year, month, day);
  }

  /** A valid calendar date converts exactly when it is not before
      11 August 3114 BCE. */
  lemma ConvertValidDateIff(date: CalendarDate)
    requires ValidDate(date)
    ensures Convert(Some((date.year, date.month, date.day))).Some? <==> !Before(date, EpochDate)
  {
    NotBeforeEpochIff(date);
  }

  /** For a date that converts, advancing the day argument by one
      advances every part by one day: the JDN by one, the Long Count by one
      kin with carries, and the Tzolkʼin and Haab by one step of their cycles. */
  lemma ConvertNextDay(year: int, month: int, day: int)
    requires Convert(Some((year, month, day))).Some?
    ensures Convert(Some((year, month, day + 1))).Some?
    ensures var r, r' := Convert(Some((year, month, day))).value, Convert(Some((year, month, day + 1))).value;
      && r'.julianDay == r.julianDay + 1
      && r'.longCount == NextLongCount(r.longCount)
      && r'.tzolkin == NextTzolkin(r.tzolkin)
      && r'.haab == NextHaab(r.haab)
  {
    DayShift(year, month, day, 1);
    var days := ToJulianDay(year, month, day) - MayanEpochJdn;
    LongCountStep(days);
    TzolkinStep(days);
    HaabStep(days);
  }

  /** Day counts that differ by a whole number of Calendar Rounds (18980
      days, the least common multiple of 260 and 365) share their Tzolkʼin
      and Haab. */
  lemma CalendarRound(later: int, offset: int, n: int)
    requires later >= 0 && offset >= 0
    requires later == offset + 18980 * n
    ensures CalculateTzolkin(later) == CalculateTzolkin(offset)
    ensures CalculateHaab(later) == CalculateHaab(offset)
  {
    PeriodicBy(later, offset, 73 * n);
    HaabPeriodicBy(later, offset, 52 * n);
  }
}
