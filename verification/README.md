# Mayan calendar converter — a Dafny model

This project models the conversion core of the "Calendario Maya" page
(`src/pages/index.tsx`). A Gregorian date typed by the user becomes three
Mayan calendar readings.

1. `toJulianDay` turns year, month and day into a Julian Day Number (JDN).
   It uses the integer-only Gregorian formula.
2. `useMayanDate` subtracts the JDN of the creation date 0.0.0.0.0
   (`MAYAN_EPOCH_JDN` = 584283, 11 August 3114 BCE). It rejects dates before
   that day.
3. The day count since the epoch then feeds three derivers.
   - `calculateLongCount` gives the mixed-radix Long Count. Its place values
     are 144000, 7200, 360, 20 and 1 days.
   - `calculateTzolkin` gives the 260-day ritual count: a number 1..13 paired
     with one of twenty day names.
   - `calculateHaab` gives the 365-day solar count: eighteen 20-day months
     followed by the five-day Wayebʼ.
4. `formatLongCount` renders a Long Count as `b.k.t.u.k`.

Modules, one per concern:

| file | module | contents |
|---|---|---|
| `option.dfy` | `Optional` | `Option`, standing for the page's `null` results |
| `tables.dfy` | `MayanTables` | the epoch JDN and the two name tables. The apostrophe-like letter is U+02BC, spelled as in the source; the Haab month at index 6 is "Yaxkʼinʼ", with a trailing U+02BC, exactly as in the source table |
| `julian_day.dfy` | `JulianDayNumber` | the JDN formula, and a reference Gregorian calendar it is checked against |
| `long_count.dfy` | `LongCountCalendar` | Long Count digits, the decomposition, and its inverse |
| `tzolkin.dfy` | `TzolkinCalendar` | the Tzolkʼin deriver and its cycle |
| `haab.dfy` | `HaabCalendar` | the Haab deriver and its cycle |
| `format.dfy` | `LongCountFormat` | dotted decimal rendering, and a parser that inverts it |
| `converter.dfy` | `MayanConverter` | the null/offset gate that wires the parts together |

Each deriver has an independent partner.
- The Long Count's partner is its inverse, `Days`.
- Each of the three counts also has a day-by-day reference definition (`…ByCounting`). It starts at the epoch reading (0.0.0.0.0, 4 Ajaw, 8 Kumkʼu) and steps one day at a time. Lemmas prove that the closed forms agree with these references for every offset.
- The JDN formula has a reference Gregorian calendar: month lengths and the leap-year rule. The model proves that the formula increases by exactly one across every month boundary, and that it is strictly increasing along valid dates.

The date-string parser is represented by its outcome: `None` when a
component is not a number, otherwise the three integers. Years use
astronomical numbering, so 3114 BCE is year -3113. Splitting at '-' never
yields a negative field, and `GateOpen` proves that non-negative fields
always pass the day-count check. So the lemmas about dates before the
epoch, or at it, speak about parse outcomes that no date string produces.

## Model

| member | source | states |
|---|---|---|
| MayanTables.TzolkinNamesDistinct | src/pages/index.tsx:23-44 | the Tzolkʼin table has 20 entries, no two alike, so a name determines its position in the cycle |
| MayanTables.HaabMonthsDistinct | src/pages/index.tsx:46-66 | the Haab table has 19 entries, no two alike, and entry 18 is Wayebʼ |
| JulianDayNumber.DayShift | src/pages/index.tsx:85-93 | the JDN is additive in the day argument: adding k to the day adds k to the JDN, for any k |
| JulianDayNumber.MonthWrap | src/pages/index.tsx:81-83 | month m + 12 of a year gives the same JDN as month m of the next year |
| JulianDayNumber.FourHundredYearCycle | src/pages/index.tsx:81-93 | moving a date 400 years later adds exactly 146097 days |
| JulianDayNumber.YearLength | src/pages/index.tsx:88-91 | the year terms grow by 366 from one shifted year to the next exactly when that next year is a Gregorian leap year, and by 365 otherwise |
| JulianDayNumber.FebruaryLength | src/pages/index.tsx:81-93 | 1 March is 28 days after 1 February, or 29 days in a leap year |
| JulianDayNumber.MonthRollover | src/pages/index.tsx:81-93 | the day after a month's last day has the same JDN as the 1st of the next month, for every month, including February in leap and common years and December into January |
| JulianDayNumber.JdnStrictlyIncreasing | src/pages/index.tsx:81-93 | on valid dates the JDN is strictly increasing in calendar order |
| JulianDayNumber.EpochJdn | src/pages/index.tsx:22 | 11 August 3114 BCE has JDN 584283, the epoch constant, and the day before has 584282 |
| JulianDayNumber.GateOpen | src/pages/index.tsx:81-93 | any year, month and day that are all non-negative give a JDN of at least 584283 |
| JulianDayNumber.NotBeforeEpochIff | src/pages/index.tsx:132-135 | a valid date passes the day-count check exactly when it is not before 11 August 3114 BCE |
| LongCountCalendar.CalculateLongCount | src/pages/index.tsx:96-104 | for a non-negative day count, katun and tun are below 20, uinal below 18, kin below 20 and baktun non-negative, and the digits weighted by their place values add back to the count |
| LongCountCalendar.DecomposeDays | src/pages/index.tsx:96-104 | every Long Count with in-range digits is what its own day count decomposes into, so the decomposition is a bijection |
| LongCountCalendar.LongCountInjective | src/pages/index.tsx:96-104 | two day counts have the same Long Count exactly when they are equal |
| LongCountCalendar.NextLongCountSound | src/pages/index.tsx:227-228 | adding one kin with carries keeps the digits in range and adds exactly one day |
| LongCountCalendar.LongCountStep | src/pages/index.tsx:96-104 | the next day's Long Count is this day's plus one kin, with carries through uinal, tun and katun into baktun |
| LongCountCalendar.LongCountAtEpoch | src/pages/index.tsx:96-104 | day count 0 is 0.0.0.0.0 and day count 1 is 0.0.0.0.1 |
| LongCountCalendar.LongCountMatchesCounting | src/pages/index.tsx:96-104 | the closed form equals counting days one by one from 0.0.0.0.0 |
| TzolkinCalendar.CalculateTzolkin | src/pages/index.tsx:106-110 | the number is in 1..13 and the name comes from the Tzolkʼin table |
| TzolkinCalendar.TzolkinAtEpoch | src/pages/index.tsx:106-110 | day count 0 is 4 Ajaw and day count 1 is 5 Imix |
| TzolkinCalendar.TzolkinStep | src/pages/index.tsx:106-110 | each day the number advances by one, wrapping 13 to 1, and the name moves to the next table entry, wrapping Ajaw to Imix |
| TzolkinCalendar.TzolkinMatchesCounting | src/pages/index.tsx:106-110 | the closed form equals stepping day by day from 4 Ajaw |
| TzolkinCalendar.TzolkinComponentPeriods | src/pages/index.tsx:106-110 | the number repeats after 13 days and the name after 20 days, each on its own |
| TzolkinCalendar.TzolkinPeriodic | src/pages/index.tsx:106-110 | the Tzolkʼin repeats after 260 days |
| TzolkinCalendar.TzolkinSameIff | src/pages/index.tsx:106-110 | two day counts share a Tzolkʼin exactly when they are equal modulo 260, so 260 is the exact period |
| TzolkinCalendar.TzolkinOnto | src/pages/index.tsx:299-300 | every number/name pair occurs within the first 260 days |
| HaabCalendar.CalculateHaab | src/pages/index.tsx:112-122 | the month comes from the table, with day 0..19 (0..4 in Wayebʼ); the month is Wayebʼ exactly when the calibrated day of the year is 360 or more |
| HaabCalendar.DayOfYearOfCalculated | src/pages/index.tsx:112-122 | the result sits at day of the year (count + 348) mod 365, counting 20 days per earlier month |
| HaabCalendar.HaabAtEpoch | src/pages/index.tsx:112-122 | day counts 0, 1, 12 and 17 are 8 Kumkʼu, 9 Kumkʼu, 0 Wayebʼ and 0 Pop |
| HaabCalendar.HaabStep | src/pages/index.tsx:112-122 | each day advances the day of the month, carrying into the next month after day 19 (after day 4 of Wayebʼ, into 0 Pop) |
| HaabCalendar.HaabMatchesCounting | src/pages/index.tsx:112-122 | the closed form equals stepping day by day from 8 Kumkʼu |
| HaabCalendar.HaabPeriodic | src/pages/index.tsx:112-122 | the Haab repeats after 365 days |
| HaabCalendar.HaabSameIff | src/pages/index.tsx:112-122 | two day counts share a Haab exactly when they are equal modulo 365 |
| HaabCalendar.HaabOnto | src/pages/index.tsx:112-122 | every valid Haab day occurs within the first 365 days |
| LongCountFormat.NatToString | src/pages/index.tsx:68-69 | a number renders as at least one decimal digit, with no leading zero except for 0 itself |
| LongCountFormat.NatRoundTrip | src/pages/index.tsx:68-69 | reading back the decimal rendering of a number gives the number |
| LongCountFormat.FormatRoundTrip | src/pages/index.tsx:68-69 | splitting the dotted rendering of a Long Count at the dots and reading the five parts gives the Long Count back |
| LongCountFormat.FormatInjective | src/pages/index.tsx:68-69 | two Long Counts render to the same text exactly when they are equal |
| LongCountFormat.FormatAtEpoch | src/pages/index.tsx:68-69 | 0.0.0.0.0 renders as "0.0.0.0.0" |
| MayanConverter.DaysSinceEpoch | src/pages/index.tsx:132-135 | a day count exists exactly when the JDN is at least 584283, and adding it to 584283 gives the JDN back |
| MayanConverter.Convert | src/pages/index.tsx:124-144 | the result is null exactly when parsing failed or the JDN is before the epoch; otherwise it carries the JDN, a Long Count with in-range digits denoting JDN - 584283, and the Tzolkʼin and Haab of that same day count |
| MayanConverter.ConvertEpoch | src/pages/index.tsx:124-144 | 11 August 3114 BCE converts to 0.0.0.0.0, 4 Ajaw, 8 Kumkʼu at JDN 584283 |
| MayanConverter.ConvertBeforeEpoch | src/pages/index.tsx:132-135 | 10 August 3114 BCE has no conversion |
| MayanConverter.ConvertNonNegativeFields | src/pages/index.tsx:124-144 | a parse outcome with no negative field always converts; the null branch at 132-135 needs a negative field |
| MayanConverter.ConvertValidDateIff | src/pages/index.tsx:124-144 | a valid date converts exactly when it is not before 11 August 3114 BCE |
| MayanConverter.ConvertNextDay | src/pages/index.tsx:124-144 | the next day's result steps each part: JDN +1, Long Count +1 kin, and the Tzolkʼin and Haab by one day |
| MayanConverter.CalendarRound | src/pages/index.tsx:106-122 | day counts 18980·n days apart share both their Tzolkʼin and their Haab; 18980 is lcm(260, 365) |

## Left out

- Parsing in `toJulianDay` (src/pages/index.tsx:72-79) is left out. The model takes the parse outcome as `Option<(int, int, int)>`. The string split and JavaScript `Number` conversion are not modelled, and neither is the input they return.
  - An empty component converts to 0 rather than NaN.
  - Components like "1.5" or "1e3" give non-integers.
  - A year written with a leading '-' moves every field one place along in the split.
  - The model only covers parse outcomes that are integers or failure.
- Floating point is left out. The model works with unbounded integers and exact floor division. The source works with IEEE doubles, which lose exactness beyond 2^53; no date a browser date input can produce comes near that.
- The derivers (`CalculateLongCount`, `CalculateTzolkin`, `CalculateHaab`) require a non-negative day count. That is the only way the source calls them, behind the check at src/pages/index.tsx:132-135. For negative counts, JavaScript's truncating `%` would give negative indices.
- The page component is left out (src/pages/index.tsx:146-324): React state, `useMemo` caching, the `new Date()` default for today, and the rendering. None of it affects the values computed.
- The before-epoch branch of the day-count check (src/pages/index.tsx:132-135) is not reachable from a date string. Splitting at '-' leaves no sign in any field, and `GateOpen` shows that non-negative fields clear the epoch. `ConvertEpoch`, `ConvertBeforeEpoch` and the "before the epoch" half of `ConvertValidDateIff` describe parse outcomes with a negative year. The page never produces those: a year typed with a leading '-' shifts the fields instead, as noted above.
