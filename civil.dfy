/** Timestamps as pandas holds them (nanoseconds since 1970-01-01, within
    the int64 range) and the proleptic Gregorian calendar attributes that
    the calendar dimension derives from a day number: day, month, year,
    English day and month names, quarter, ISO 8601 week number, the
    "YYYY-MM" label and the "HH:MM:SS" time of day. */
module Civil {
  import opened Text
  import opened Nullable

  const NanosPerSecond: int := 1_000_000_000
  const SecondsPerDay: int := 86_400
  const NanosPerDay: int := 86_400_000_000_000

  /** pandas.Timestamp.min and .max, in nanoseconds since the epoch
      (the int64 range less the value reserved for NaT). */
  const MinNanos: int := -9_223_372_036_854_775_807
  const MaxNanos: int := 9_223_372_036_854_775_807

  /** The day numbers (days since 1970-01-01) that a timestamp can fall on. */
  const MinDay: int := -106_752
  const MaxDay: int := 106_751

  /** A point in time: the day number and the nanoseconds elapsed since midnight. */
  datatype Instant = Instant(day: int, nanoOfDay: int)

  function EpochNanos(t: Instant): int { t.day * NanosPerDay + t.nanoOfDay }

  predicate ValidInstant(t: Instant)
  {
    0 <= t.nanoOfDay < NanosPerDay && MinNanos <= EpochNanos(t) <= MaxNanos
  }

  /** A non-null pandas Timestamp (datetime64[ns], no time zone). */
  type Timestamp = t: Instant | ValidInstant(t) witness Instant(0, 0)

  lemma TimestampDayInRange(t: Timestamp)
    ensures MinDay <= t.day <= MaxDay
  {
  }

  /** The whole seconds elapsed since midnight (what %H:%M:%S shows). */
  function SecondOfDay(t: Timestamp): (s: int)
    ensures 0 <= s < SecondsPerDay
    ensures s * NanosPerSecond <= t.nanoOfDay < (s + 1) * NanosPerSecond
  {
    t.nanoOfDay / NanosPerSecond
  }

  // ---------------------------------------------------------------------
  // Gregorian calendar

  datatype CivilDate = CivilDate(year: int, month: int, day: int)

  predicate IsLeapYear(y: int) { y % 4 == 0 && (y % 100 != 0 || y % 400 == 0) }

  function DaysInMonth(y: int, m: int): (n: int)
    requires 1 <= m <= 12
    ensures 28 <= n <= 31
    ensures n == 29 <==> m == 2 && IsLeapYear(y)
  {
    if m == 2 then (if IsLeapYear(y) then 29 else 28)
    else if m == 4 || m == 6 || m == 9 || m == 11 then 30
    else 31
  }

  predicate ValidDate(c: CivilDate)
  {
    1 <= c.month <= 12 && 1 <= c.day <= DaysInMonth(c.year, c.month)
  }

  /* The conversion counts years from 1 March, so that the leap day is the
     last day of its year, and 400-year eras of 146097 days from
     0000-03-01, which is 719468 days before 1970-01-01. */
  const EpochOffset: int := 719_468
  const DaysPerEra: int := 146_097

  /** Days from the start of an era to the start of its March-based year `yoe`. */
  function YearStart(yoe: int): int { 365 * yoe + yoe / 4 - yoe / 100 }

  /** Days from 1 March to the first day of March-based month `mp`
      (0 = March, ..., 9 = December, 10 = January, 11 = February). */
  function MonthStart(mp: int): int { (153 * mp + 2) / 5 }

  /** A day number split into era, March-based year of era and day of that year. */
  datatype EraDay = EraDay(era: int, yoe: int, doy: int)

  /** Splits a day of a 400-year era into the March-based year of era and the
      day within that year: centuries of 36524 days (the last one 36525),
      four-year groups of 1461 days (the last of a century one day shorter
      unless the century closes the era) and years of 365 days (the last of a
      group 366). */
  function SplitDayOfEra(doe: int): (s: EraDay)
    requires 0 <= doe < DaysPerEra
    ensures s.era == 0 && CanonicalSplit(s)
    ensures doe == YearStart(s.yoe) + s.doy
  {
    var c := if doe / 36524 < 3 then doe / 36524 else 3;
    var r1 := doe - 36524 * c;
    var q := r1 / 1461;
    var r2 := r1 - 1461 * q;
    var y1 := if r2 / 365 < 3 then r2 / 365 else 3;
    var doy := r2 - 365 * y1;
    var yoe := 100 * c + 4 * q + y1;
    assert 0 <= c <= 3 && 0 <= q <= 24 && 0 <= y1 <= 3;
    assert yoe / 4 == 25 * c + q;
    assert yoe / 100 == c;
    EraDay(0, yoe, doy)
  }

  /** A day number split into era, March-based year of era and day of that year. */
  function SplitDays(z: int): (s: EraDay)
    ensures CanonicalSplit(s)
    ensures z + EpochOffset == DaysPerEra * s.era + YearStart(s.yoe) + s.doy
  {
    var n := z + EpochOffset;
    var y := SplitDayOfEra(n % DaysPerEra);
    EraDay(n / DaysPerEra, y.yoe, y.doy)
  }

  // Adding a multiple of the modulus leaves the remainder unchanged.
  lemma Mod4Shift(a: int, k: int) ensures (4 * a + k) % 4 == k % 4 { }
  lemma Mod100Shift(a: int, k: int) ensures (100 * a + k) % 100 == k % 100 { }
  lemma Mod400Shift(a: int, k: int) ensures (400 * a + k) % 400 == k % 400 { }

  lemma LeapYearShift(era: int, k: int)
    ensures IsLeapYear(400 * era + k) == IsLeapYear(k)
  {
    Mod4Shift(100 * era, k);
    Mod100Shift(4 * era, k);
    Mod400Shift(era, k);
  }

  /** The calendar date of a day number (days since 1970-01-01). */
  function CivilFromDays(z: int): (c: CivilDate)
    ensures ValidDate(c)
  {
    CivilOfSplit(SplitDays(z))
  }

  /** The calendar date of a canonical split: the March-based month is read
      off the day of year, and January and February move to the next year. */
  function CivilOfSplit(s: EraDay): (c: CivilDate)
    requires CanonicalSplit(s)
    ensures ValidDate(c)
  {
    var mp := (5 * s.doy + 2) / 153;
    var m := if mp < 10 then mp + 3 else mp - 9;
    var y := 400 * s.era + s.yoe + (if m <= 2 then 1 else 0);
    var c := CivilDate(y, m, s.doy - MonthStart(mp) + 1);
    assert 0 <= mp <= 11;
    assert MonthStart(mp) <= s.doy < MonthStart(mp + 1);
    assert s.doy == 365 ==> IsLeapYear(y) by {
      if s.doy == 365 { LeapYearShift(s.era, s.yoe + 1); }
    }
    c
  }

  /** The day number of a calendar date. */
  function DaysFromCivil(c: CivilDate): int
  {
    var e := SplitDate(c);
    DaysPerEra * e.era + YearStart(e.yoe) + e.doy - EpochOffset
  }

  /** The era, March-based year of era and day of that year of a date. */
  function SplitDate(c: CivilDate): EraDay
  {
    var y := if c.month <= 2 then c.year - 1 else c.year;
    var mp := if c.month > 2 then c.month - 3 else c.month + 9;
    EraDay(y / 400, y % 400, MonthStart(mp) + c.day - 1)
  }

  lemma DivModOfEra(era: int, yoe: int)
    requires 0 <= yoe < 400
    ensures (400 * era + yoe) / 400 == era && (400 * era + yoe) % 400 == yoe
  {
  }

  /** Converting a day number to a calendar date and back gives the same day number. */
  lemma DaysFromCivilRoundTrip(z: int)
    ensures DaysFromCivil(CivilFromDays(z)) == z
  {
    var s := SplitDays(z);
    var mp := (5 * s.doy + 2) / 153;
    var c := CivilFromDays(z);
    assert c.month == (if mp < 10 then mp + 3 else mp - 9);
    assert c.day == s.doy - MonthStart(mp) + 1;
    assert (if c.month <= 2 then c.year - 1 else c.year) == 400 * s.era + s.yoe;
    assert (if c.month > 2 then c.month - 3 else c.month + 9) == mp;
    DivModOfEra(s.era, s.yoe);
  }

  /** The splits SplitDays can return: a March-based year of an era and a day
      within it, day 365 existing only in the years that end with a 29 February. */
  predicate CanonicalSplit(e: EraDay)
  {
    0 <= e.yoe < 400 && 0 <= e.doy <= 365
    && (e.doy == 365 ==> (e.yoe + 1) % 4 == 0 && ((e.yoe + 1) % 100 != 0 || e.yoe == 399))
  }

  lemma CenturySplit(yoe: int)
    requires 0 <= yoe < 400
    ensures var c, q, y1 := yoe / 100, (yoe % 100) / 4, yoe % 4;
            0 <= c <= 3 && 0 <= q <= 24 && 0 <= y1 <= 3
            && yoe == 100 * c + 4 * q + y1
            && YearStart(yoe) == 36524 * c + 1461 * q + 365 * y1
  {
  }

  lemma LeapDayPosition(yoe: int)
    requires 0 <= yoe < 400
    requires (yoe + 1) % 4 == 0 && ((yoe + 1) % 100 != 0 || yoe == 399)
    ensures yoe % 4 == 3 && ((yoe % 100) / 4 < 24 || yoe / 100 == 3)
  {
  }

  /** The decomposition SplitDays performs, from the day of the era onwards. */
  lemma EraDayOfDoe(doe: int, c: int, q: int, y1: int, doy: int)
    requires 0 <= c <= 3 && 0 <= q <= 24 && 0 <= y1 <= 3 && 0 <= doy <= 365
    requires doe == 36524 * c + 1461 * q + 365 * y1 + doy
    requires doy == 365 ==> y1 == 3 && (q < 24 || c == 3)
    ensures 0 <= doe < DaysPerEra
    ensures SplitDayOfEra(doe) == EraDay(0, 100 * c + 4 * q + y1, doy)
  {
    var r1 := 1461 * q + 365 * y1 + doy;
    assert c < 3 ==> r1 < 36524;
    assert (if doe / 36524 < 3 then doe / 36524 else 3) == c;
    assert r1 / 1461 == q;
  }

  lemma SplitDayOfEraRecovers(yoe: int, doy: int)
    requires CanonicalSplit(EraDay(0, yoe, doy))
    ensures 0 <= YearStart(yoe) + doy < DaysPerEra
    ensures SplitDayOfEra(YearStart(yoe) + doy) == EraDay(0, yoe, doy)
  {
    var c, q, y1 := yoe / 100, (yoe % 100) / 4, yoe % 4;
    CenturySplit(yoe);
    if doy == 365 { LeapDayPosition(yoe); }
    EraDayOfDoe(36524 * c + 1461 * q + 365 * y1 + doy, c, q, y1, doy);
  }

  /** SplitDays recovers any canonical split from the day number it denotes. */
  lemma SplitDaysRecovers(e: EraDay)
    requires CanonicalSplit(e)
    ensures SplitDays(DaysPerEra * e.era + YearStart(e.yoe) + e.doy - EpochOffset) == e
  {
    SplitDayOfEraRecovers(e.yoe, e.doy);
    EraDivMod(e.era, YearStart(e.yoe) + e.doy);
  }

  lemma EraDivMod(era: int, doe: int)
    requires 0 <= doe < DaysPerEra
    ensures (DaysPerEra * era + doe) / DaysPerEra == era && (DaysPerEra * era + doe) % DaysPerEra == doe
  {
  }

  /** The month of a March-based day of year: MonthStart brackets it. */
  lemma MonthOfDayOfYear(mp: int, d: int)
    requires 0 <= mp <= 11 && MonthStart(mp) <= d < MonthStart(mp + 1)
    ensures (5 * d + 2) / 153 == mp
  {
  }

  /** The split of a valid date is canonical. */
  lemma SplitOfDate(c: CivilDate)
    requires ValidDate(c)
    ensures CanonicalSplit(SplitDate(c))
  {
    var y := if c.month <= 2 then c.year - 1 else c.year;
    var mp := if c.month > 2 then c.month - 3 else c.month + 9;
    var e := SplitDate(c);
    assert MonthStart(mp) <= e.doy < MonthStart(mp + 1);
    if e.doy == 365 {
      assert c.month == 2 && c.day == 29;
      LeapYearShift(e.era, e.yoe + 1);
    }
  }

  /** The date of the split of a valid date is that date. */
  lemma CivilOfSplitOfDate(c: CivilDate)
    requires ValidDate(c)
    ensures CanonicalSplit(SplitDate(c)) && CivilOfSplit(SplitDate(c)) == c
  {
    var y := if c.month <= 2 then c.year - 1 else c.year;
    var mp := if c.month > 2 then c.month - 3 else c.month + 9;
    SplitOfDate(c);
    MonthOfDayOfYear(mp, SplitDate(c).doy);
  }

  /** Converting a valid calendar date to its day number and back gives the same date. */
  lemma CivilFromDaysRoundTrip(c: CivilDate)
    requires ValidDate(c)
    ensures CivilFromDays(DaysFromCivil(c)) == c
  {
    CivilOfSplitOfDate(c);
    SplitDaysOfDate(c);
  }

  /** SplitDays of a valid date's day number is the date's own split. */
  lemma SplitDaysOfDate(c: CivilDate)
    requires ValidDate(c)
    ensures SplitDays(DaysFromCivil(c)) == SplitDate(c)
  {
    SplitOfDate(c);
    SplitDaysRecovers(SplitDate(c));
  }

  // ---------------------------------------------------------------------
  // Derived attributes

  /** ISO weekday: Monday = 1 ... Sunday = 7. Day 0 (1970-01-01) was a Thursday. */
  function IsoWeekday(z: int): (w: int)
    ensures 1 <= w <= 7
  {
    (z + 3) % 7 + 1
  }

  const WeekdayNames: seq<string> :=
    ["Monday", "Tuesday", "Wednesday", "Thursday", "Friday", "Saturday", "Sunday"]

  const MonthNames: seq<string> :=
    ["January", "February", "March", "April", "May", "June", "July",
     "August", "September", "October", "November", "December"]

  /** Timestamp.day_name() in the English locale. */
  function DayName(z: int): string
  {
    WeekdayNames[IsoWeekday(z) - 1]
  }

  /** Timestamp.month_name() in the English locale. */
  function MonthName(m: int): string
    requires 1 <= m <= 12
  {
    MonthNames[m - 1]
  }

  /** The weekend test the calendar applies to a day name. */
  predicate IsWeekendName(name: string)
  {
    name == "Saturday" || name == "Sunday"
  }

  lemma WeekendIffSaturdayOrSunday(z: int)
    ensures IsWeekendName(DayName(z)) <==> IsoWeekday(z) >= 6
  {
  }

  function Quarter(m: int): (q: int)
    requires 1 <= m <= 12
    ensures 1 <= q <= 4
    ensures 3 * (q - 1) < m <= 3 * q
  {
    (m - 1) / 3 + 1
  }

  /** The 1-based ordinal of a day within its calendar year. */
  function DayOfYear(z: int): (n: int)
    ensures 1 <= n <= 366
  {
    var s := SplitDays(z);
    if s.doy >= MonthStart(10) then s.doy - MonthStart(10) + 1
    else s.doy + 60 + (if IsLeapYear(CivilFromDays(z).year) then 1 else 0)
  }

  /** The Thursday of the Monday-to-Sunday week that holds day z. */
  function WeekThursday(z: int): int
  {
    z - IsoWeekday(z) + 4
  }

  /** ISO 8601 week number: the week holding a year's first Thursday is week 1,
      so the week of day z is the rank of its Thursday among its year's Thursdays. */
  function IsoWeek(z: int): (w: int)
    ensures 1 <= w <= 53
  {
    (DayOfYear(WeekThursday(z)) - 1) / 7 + 1
  }

  // ---------------------------------------------------------------------
  // Text renderings

  /** strftime('%Y-%m'). */
  function FormatYearMonth(y: int, m: int): (s: string)
    requires 0 <= y <= 9999 && 1 <= m <= 12
  {
    Padded(y, 4) + "-" + Padded(m, 2)
  }

  /** Reads back a "YYYY-MM" label. */
  function ParseYearMonth(s: string): Option<(int, int)>
  {
    if |s| == 7 && s[4] == '-' && AllDigits(s[..4]) && AllDigits(s[5..])
    then Some((DigitsValue(s[..4]), DigitsValue(s[5..])))
    else None
  }

  /** strftime('%H:%M:%S') of the time of day `sec` seconds after midnight. */
  function FormatClock(sec: int): (s: string)
    requires 0 <= sec < SecondsPerDay
  {
    var minutes := sec / 60;
    Padded(minutes / 60, 2) + ":" + Padded(minutes % 60, 2) + ":" + Padded(sec % 60, 2)
  }

  /** Reads back an "HH:MM:SS" text as seconds after midnight. */
  function ParseClock(s: string): Option<int>
  {
    if |s| == 8 && s[2] == ':' && s[5] == ':'
       && AllDigits(s[..2]) && AllDigits(s[3..5]) && AllDigits(s[6..])
       && DigitsValue(s[..2]) < 24 && DigitsValue(s[3..5]) < 60 && DigitsValue(s[6..]) < 60
    then Some(3600 * DigitsValue(s[..2]) + 60 * DigitsValue(s[3..5]) + DigitsValue(s[6..]))
    else None
  }

  // ---------------------------------------------------------------------
  // Properties of the derived attributes

  /** Every timestamp falls in a year written with four digits (1600..2400
      bounds the pandas range 1677..2262). */
  lemma YearOfTimestampDay(z: int)
    requires MinDay <= z <= MaxDay
    ensures 1600 <= CivilFromDays(z).year <= 2400
  {
    var s := SplitDays(z);
    assert 4 <= s.era <= 5;
  }

  /** The civil year of a day, read off its March-based split: January and
      February belong to the next civil year. */
  lemma CivilYearOfSplit(z: int)
    ensures var s := SplitDays(z);
            CivilFromDays(z).year == 400 * s.era + s.yoe + (if s.doy >= MonthStart(10) then 1 else 0)
  {
  }

  lemma JanuaryFirstOfYear(y: int, era: int, yoe: int)
    requires y - 1 == 400 * era + yoe && 0 <= yoe < 400
    ensures DaysFromCivil(CivilDate(y, 1, 1)) == DaysPerEra * era + YearStart(yoe) + MonthStart(10) - EpochOffset
  {
    DivModOfEra(era, yoe);
  }

  /** The March-based year k - 1 ends with the February of civil year k of the era. */
  lemma YearStartStep(k: int)
    requires 1 <= k < 400
    ensures YearStart(k) - YearStart(k - 1) == 365 + (if IsLeapYear(k) then 1 else 0)
  {
    QuotientStep4(k);
    QuotientStep100(k);
    assert k % 400 != 0;
  }

  // A quotient grows by one exactly where the dividend reaches a multiple.
  lemma QuotientStep4(k: int) ensures k / 4 - (k - 1) / 4 == (if k % 4 == 0 then 1 else 0) { }
  lemma QuotientStep100(k: int) ensures k / 100 - (k - 1) / 100 == (if k % 100 == 0 then 1 else 0) { }

  /** DayOfYear counts from 1 January of the day's own year. */
  lemma DayOfYearCountsFromJanuaryFirst(z: int)
    ensures DaysFromCivil(CivilDate(CivilFromDays(z).year, 1, 1)) == z - DayOfYear(z) + 1
  {
    var s := SplitDays(z);
    var y := CivilFromDays(z).year;
    CivilYearOfSplit(z);
    if s.doy >= MonthStart(10) {
      JanuaryFirstOfYear(y, s.era, s.yoe);
    } else if s.yoe == 0 {
      LeapYearShift(s.era, 0);
      JanuaryFirstOfYear(y, s.era - 1, 399);
    } else {
      LeapYearShift(s.era, s.yoe);
      JanuaryFirstOfYear(y, s.era, s.yoe - 1);
      YearStartStep(s.yoe);
    }
  }

  /** The weekday advances by one each day, Sunday wrapping to Monday. */
  lemma IsoWeekdayNext(z: int)
    ensures IsoWeekday(z + 1) == if IsoWeekday(z) == 7 then 1 else IsoWeekday(z) + 1
  {
  }

  /** The anchor of the day numbering: day 0 is 1 January 1970, the Unix
      epoch, as in pandas. */
  lemma EpochAnchor()
    ensures DaysFromCivil(CivilDate(1970, 1, 1)) == 0
    ensures CivilFromDays(0) == CivilDate(1970, 1, 1)
  {
    assert SplitDayOfEra(135080) == EraDay(0, 369, 306);
    assert SplitDays(0) == EraDay(4, 369, 306);
  }

  /** The anchor of the weekday numbering: weekday 1 is Monday and the
      epoch was a Thursday, so 1 January 2024 (day 19723) is a Monday and
      6 January 2024 a Saturday. */
  lemma WeekdayAnchor()
    ensures IsoWeekday(0) == 4 && DayName(0) == "Thursday"
    ensures DaysFromCivil(CivilDate(2024, 1, 1)) == 19723 && DayName(19723) == "Monday"
    ensures DayName(19728) == "Saturday"
  {
  }

  /** WeekThursday is the Thursday of the Monday-to-Sunday week holding z. */
  lemma WeekThursdayIsThursday(z: int)
    ensures IsoWeekday(WeekThursday(z)) == 4
    ensures z - WeekThursday(z) == IsoWeekday(z) - 4
  {
    var r := (z + 3) % 7;
    assert z + 3 == 7 * ((z + 3) / 7) + r;
    assert WeekThursday(z) + 3 == 7 * ((z + 3) / 7) + 3;
  }

  /** The ISO week of day z is counted by the Thursday of its Monday-to-Sunday
      week: the week number is how many Thursdays of that Thursday's calendar
      year fall on or before it. */
  lemma IsoWeekIsThursdayRank(z: int)
    ensures IsoWeekday(WeekThursday(z)) == 4
    ensures var t := WeekThursday(z);
            IsoWeek(z) == (t - DaysFromCivil(CivilDate(CivilFromDays(t).year, 1, 1))) / 7 + 1
  {
    WeekThursdayIsThursday(z);
    DayOfYearCountsFromJanuaryFirst(WeekThursday(z));
  }

  /** ISO 8601's anchor: 4 January always lies in week 1 of its year. */
  lemma JanuaryFourthInWeekOne(y: int)
    ensures IsoWeek(DaysFromCivil(CivilDate(y, 1, 4))) == 1
  {
    var j4 := DaysFromCivil(CivilDate(y, 1, 4));
    var j1 := DaysFromCivil(CivilDate(y, 1, 1));
    var t := WeekThursday(j4);
    WeekThursdayIsThursday(j4);
    var k := t - j1;
    assert 0 <= k <= 6;
    assert DaysFromCivil(CivilDate(y, 1, 1 + k)) == t;
    CivilFromDaysRoundTrip(CivilDate(y, 1, 1 + k));
    IsoWeekIsThursdayRank(j4);
  }

  /** Days from Monday to Sunday of one week share their ISO week number. */
  lemma {:induction false} IsoWeekConstantWithinWeek(z: int)
    requires IsoWeekday(z) < 7
    ensures IsoWeek(z + 1) == IsoWeek(z)
  {
    IsoWeekdayNext(z);
    assert WeekThursday(z + 1) == WeekThursday(z);
  }

  /** A "YYYY-MM" label reads back as the year and month it was made from. */
  lemma YearMonthRoundTrip(y: int, m: int)
    requires 0 <= y <= 9999 && 1 <= m <= 12
    ensures |FormatYearMonth(y, m)| == 7
    ensures ParseYearMonth(FormatYearMonth(y, m)) == Some((y, m))
  {
    var s := FormatYearMonth(y, m);
    assert s[..4] == Padded(y, 4);
    assert s[5..] == Padded(m, 2);
  }

  /** An "HH:MM:SS" text reads back as the second of the day it was made from. */
  lemma ClockRoundTrip(sec: int)
    requires 0 <= sec < SecondsPerDay
    ensures |FormatClock(sec)| == 8
    ensures ParseClock(FormatClock(sec)) == Some(sec)
  {
    var minutes := sec / 60;
    var s := FormatClock(sec);
    assert s[..2] == Padded(minutes / 60, 2);
    assert s[3..5] == Padded(minutes % 60, 2);
    assert s[6..] == Padded(sec % 60, 2);
  }
}
