/** create_dim_calendar: the calendar dimension is built from the dates the
    raw tables actually hold. It spans every day from the earliest to the
    latest parseable timestamp of nine columns, one row per day, numbered
    from 1 in date order, each row carrying the day's calendar attributes. */
module CalendarDimension {
  import opened Nullable
  import opened Civil
  import opened Source
  import opened Relational
  import opened Warehouse
  import opened KeyResolution

  /** The nine timestamp columns the calendar range is taken from, in the
      order they are concatenated. */
  function CollectedCells(data: SourceData): seq<Cell>
  {
    Column(data.salesOrder, (o: SalesOrder) => o.orderDate)
    + Column(data.webSession, (w: WebSession) => w.startedAt)
    + Column(data.npsResponse, (n: NpsResponse) => n.respondedAt)
    + Column(data.payment, (p: Payment) => p.paidAt)
    + Column(data.shipment, (s: Shipment) => s.shippedAt)
    + Column(data.shipment, (s: Shipment) => s.deliveredAt)
    + Column(data.customer, (c: Customer) => c.createdAt)
    + Column(data.address, (a: Address) => a.createdAt)
    + Column(data.product, (p: Product) => p.createdAt)
  }

  /** The parsed values with NaT dropped (dropna), each normalised to its day. */
  function CollectDays(cells: seq<Cell>, parse: string -> Option<Timestamp>): (days: seq<int>)
    ensures forall d :: d in days ==> MinDay <= d <= MaxDay
    ensures forall i :: 0 <= i < |cells| && NormalizedDay(cells[i], parse).Some? ==>
              NormalizedDay(cells[i], parse).value in days
  {
    if cells == [] then []
    else
      var rest := CollectDays(cells[1..], parse);
      assert forall i :: 1 <= i < |cells| ==> cells[i] == cells[1..][i - 1];
      match NormalizedDay(cells[0], parse)
      case None => rest
      case Some(d) => [d] + rest
  }

  /** Every collected day is the day of some cell. */
  lemma {:induction false} DayComesFromCell(cells: seq<Cell>, parse: string -> Option<Timestamp>, d: int)
    requires d in CollectDays(cells, parse)
    ensures exists i :: 0 <= i < |cells| && NormalizedDay(cells[i], parse) == Some(d)
  {
    var rest := CollectDays(cells[1..], parse);
    if NormalizedDay(cells[0], parse) != Some(d) {
      DayComesFromCell(cells[1..], parse, d);
      var i :| 0 <= i < |cells[1..]| && NormalizedDay(cells[1..][i], parse) == Some(d);
      assert cells[1..][i] == cells[i + 1];
    }
  }

  /** No day is collected exactly when no cell parses. */
  lemma NoDaysIffNoneParse(cells: seq<Cell>, parse: string -> Option<Timestamp>)
    ensures CollectDays(cells, parse) == [] <==> forall i :: 0 <= i < |cells| ==> ParseCell(cells[i], parse).None?
  {
    var days := CollectDays(cells, parse);
    if days != [] {
      DayComesFromCell(cells, parse, days[0]);
    }
  }

  /** The calendar attributes of day z, as dim_calendar derives them from
      the date: day, month, year, English day and month names, quarter, ISO
      week number, the "YYYY-MM" label and the weekend flag. */
  function CalendarRowOf(id: int, z: int): (r: CalendarRow)
    requires MinDay <= z <= MaxDay
    ensures r.id == id && r.date == z
  {
    var c := CivilFromDays(z);
    YearOfTimestampDay(z);
    CalendarRow(id, z, c.day, c.month, c.year, DayName(z), MonthName(c.month), Quarter(c.month),
                IsoWeek(z), FormatYearMonth(c.year, c.month), IsWeekendName(DayName(z)))
  }

  lemma CalendarRowOfWellFormed(id: int, z: int)
    requires MinDay <= z <= MaxDay
    ensures WellFormedRow(CalendarRowOf(id, z))
  {
    var c := CivilFromDays(z);
    YearOfTimestampDay(z);
    DaysFromCivilRoundTrip(z);
    WeekendIffSaturdayOrSunday(z);
    YearMonthRoundTrip(c.year, c.month);
  }

  /** What a calendar row promises about its attributes: day, month and year
      name a real date that is the row's own date; the names, quarter and
      ISO week are those of that date; year_month reads back as the row's
      year and month; and is_weekend holds exactly for Saturday and Sunday. */
  predicate WellFormedRow(r: CalendarRow)
  {
    && ValidDate(CivilDate(r.year, r.month, r.day))
    && DaysFromCivil(CivilDate(r.year, r.month, r.day)) == r.date
    && 1600 <= r.year <= 2400
    && r.dayName == DayName(r.date)
    && r.monthName == MonthNames[r.month - 1]
    && 3 * (r.quarter - 1) < r.month <= 3 * r.quarter
    && r.weekNumber == IsoWeek(r.date)
    && |r.yearMonth| == 7 && ParseYearMonth(r.yearMonth) == Some((r.year, r.month))
    && (r.isWeekend <==> IsWeekendName(r.dayName))
    && (r.isWeekend <==> IsoWeekday(r.date) >= 6)
  }

  /** The calendar for a collection of days: no rows for none; otherwise
      one row per day from the minimum to the maximum, the row for day
      min + i having id i + 1. */
  function CalendarOfDays(days: seq<int>): (cal: seq<CalendarRow>)
    requires forall d :: d in days ==> MinDay <= d <= MaxDay
    ensures days == [] <==> cal == []
    ensures days != [] ==> |cal| == Max(days) - Min(days) + 1
    ensures forall i :: 0 <= i < |cal| ==> cal[i].id == i + 1 && cal[i].date == Min(days) + i
  {
    if days == [] then []
    else
      var lo, n := Min(days), Max(days) - Min(days) + 1;
      var cal := Tabulate(RowFrom(lo), n);
      forall i | 0 <= i < n
        ensures cal[i].id == i + 1 && cal[i].date == lo + i
      {
        TabulateAt(RowFrom(lo), n, i);
        RowFromIsRowOf(lo, i);
      }
      cal
  }

  /** The sequence f(0), ..., f(n - 1), built one element at a time. */
  function Tabulate<T>(f: int --> T, n: nat): (s: seq<T>)
    requires forall k :: 0 <= k < n ==> f.requires(k)
    ensures |s| == n
  {
    if n == 0 then [] else Tabulate(f, n - 1) + [f(n - 1)]
  }

  lemma {:induction false} TabulateAt<T>(f: int --> T, n: nat, i: int)
    requires forall k :: 0 <= k < n ==> f.requires(k)
    requires 0 <= i < n
    ensures Tabulate(f, n)[i] == f(i)
  {
    if i < n - 1 {
      TabulateAt(f, n - 1, i);
    }
  }

  /** The row of day lo + k, numbered k + 1. */
  function RowFrom(lo: int): int --> CalendarRow
  {
    k requires MinDay <= lo + k <= MaxDay => CalendarRowOf(k + 1, lo + k)
  }

  /** Applying RowFrom(lo) to k gives the row of day lo + k. */
  lemma RowFromIsRowOf(lo: int, k: int)
    requires MinDay <= lo + k <= MaxDay
    ensures RowFrom(lo)(k) == CalendarRowOf(k + 1, lo + k)
  {
  }

  lemma RowFromWellFormed(lo: int, k: int)
    requires MinDay <= lo + k <= MaxDay
    ensures WellFormedRow(RowFrom(lo)(k))
  {
    RowFromIsRowOf(lo, k);
    RowOfWellFormed(RowFrom(lo)(k), k + 1, lo + k);
  }

  lemma RowOfWellFormed(r: CalendarRow, id: int, z: int)
    requires MinDay <= z <= MaxDay && r == CalendarRowOf(id, z)
    ensures WellFormedRow(r)
  {
    CalendarRowOfWellFormed(id, z);
  }

  /** Every row of the calendar dimension holds the attributes of its own
      date: it is well formed in the sense of WellFormedRow. */
  lemma CalendarRowsWellFormed(data: SourceData, parse: string -> Option<Timestamp>, i: int)
    requires 0 <= i < |CreateDimCalendar(data, parse)|
    ensures WellFormedRow(CreateDimCalendar(data, parse)[i])
  {
    var days := CollectDays(CollectedCells(data), parse);
    CalendarOfDaysRow(days, i);
    RowFromWellFormed(Min(days), i);
  }

  /** Row i of the calendar of some days is the row of day min + i. */
  lemma CalendarOfDaysRow(days: seq<int>, i: int)
    requires forall d :: d in days ==> MinDay <= d <= MaxDay
    requires 0 <= i < |CalendarOfDays(days)|
    ensures MinDay <= Min(days) + i <= MaxDay
    ensures CalendarOfDays(days)[i] == RowFrom(Min(days))(i)
  {
    TabulateAt(RowFrom(Min(days)), Max(days) - Min(days) + 1, i);
  }

  /** create_dim_calendar: the calendar of the collected days. */
  function CreateDimCalendar(data: SourceData, parse: string -> Option<Timestamp>): seq<CalendarRow>
  {
    CalendarOfDays(CollectDays(CollectedCells(data), parse))
  }

  /** With no valid date anywhere the calendar is a table of zero rows with
      the eleven calendar columns. */
  lemma EmptyCalendarShape(data: SourceData, parse: string -> Option<Timestamp>)
    requires forall i :: 0 <= i < |CollectedCells(data)| ==> ParseCell(CollectedCells(data)[i], parse).None?
    ensures CreateDimCalendar(data, parse) == []
    ensures Columns(CalendarTable(CreateDimCalendar(data, parse))) ==
              ["id", "date", "day", "month", "year", "day_name", "month_name", "quarter",
               "week_number", "year_month", "is_weekend"]
  {
    NoDaysIffNoneParse(CollectedCells(data), parse);
  }

  /** The rows are consecutive days: ids and dates both strictly ascend,
      each row one day after the previous. */
  lemma CalendarIsConsecutive(data: SourceData, parse: string -> Option<Timestamp>, i: int, j: int)
    requires var cal := CreateDimCalendar(data, parse); 0 <= i < j < |cal|
    ensures var cal := CreateDimCalendar(data, parse);
            cal[i].id < cal[j].id && cal[j].date - cal[i].date == j - i == cal[j].id - cal[i].id
  {
  }

  /** No two calendar rows share a date, so the date lookup is one-to-one. */
  lemma CalendarDatesUnique(data: SourceData, parse: string -> Option<Timestamp>)
    ensures KeysUnique(CreateDimCalendar(data, parse), CalendarDateKey)
  {
    var cal := CreateDimCalendar(data, parse);
    forall i, j | 0 <= i < j < |cal| ensures CalendarDateKey(cal[i]) != CalendarDateKey(cal[j]) {
      CalendarIsConsecutive(data, parse, i, j);
    }
  }

  /** The calendar spans exactly the collected days: its first and last rows
      are the earliest and latest collected day, and a day has a row
      if and only if it lies between them. */
  lemma CalendarSpan(data: SourceData, parse: string -> Option<Timestamp>, z: int)
    requires CollectDays(CollectedCells(data), parse) != []
    ensures var days := CollectDays(CollectedCells(data), parse);
            var cal := CreateDimCalendar(data, parse);
            && cal[0].date == Min(days) && cal[|cal| - 1].date == Max(days)
            && ((exists r :: r in cal && r.date == z) <==> Min(days) <= z <= Max(days))
  {
    var days := CollectDays(CollectedCells(data), parse);
    ConsecutiveSpan(CreateDimCalendar(data, parse), Min(days), Max(days), z);
  }

  /** A table of consecutive dates from lo to hi holds a row dated z exactly
      when z lies between lo and hi. */
  lemma ConsecutiveSpan(cal: seq<CalendarRow>, lo: int, hi: int, z: int)
    requires lo <= hi && |cal| == hi - lo + 1
    requires forall i :: 0 <= i < |cal| ==> cal[i].id == i + 1 && cal[i].date == lo + i
    ensures cal[0].date == lo && cal[|cal| - 1].date == hi
    ensures (exists r :: r in cal && r.date == z) <==> lo <= z <= hi
    ensures lo <= z <= hi ==> exists r :: r in cal && r.date == z && r.id == z - lo + 1
  {
    if lo <= z <= hi {
      assert cal[z - lo] in cal;
    }
  }

  /** Every collected value that parses has its day in the calendar, on
      exactly one row: the row whose id is the day's offset from the
      earliest collected day, plus one. */
  lemma CollectedDayHasRow(data: SourceData, parse: string -> Option<Timestamp>, k: int)
    requires 0 <= k < |CollectedCells(data)|
    requires NormalizedDay(CollectedCells(data)[k], parse).Some?
    ensures var cal := CreateDimCalendar(data, parse);
            var z := NormalizedDay(CollectedCells(data)[k], parse).value;
            var days := CollectDays(CollectedCells(data), parse);
            && days != []
            && (exists r :: r in cal && r.date == z && r.id == z - Min(days) + 1)
            && (forall r1, r2 :: r1 in cal && r2 in cal && r1.date == z && r2.date == z ==> r1 == r2)
  {
    var days := CollectDays(CollectedCells(data), parse);
    assert NormalizedDay(CollectedCells(data)[k], parse).value in days;
    CalendarDatesUnique(data, parse);
    DayOfCellHasRow(CollectedCells(data), parse, k, CreateDimCalendar(data, parse));
  }

  /** The same, for a calendar of consecutive days over any list of cells. */
  lemma DayOfCellHasRow(cells: seq<Cell>, parse: string -> Option<Timestamp>, k: int, cal: seq<CalendarRow>)
    requires 0 <= k < |cells| && NormalizedDay(cells[k], parse).Some?
    requires var days := CollectDays(cells, parse);
             days != [] && |cal| == Max(days) - Min(days) + 1
             && forall i :: 0 <= i < |cal| ==> cal[i].id == i + 1 && cal[i].date == Min(days) + i
    requires KeysUnique(cal, CalendarDateKey)
    ensures var days := CollectDays(cells, parse);
            var z := NormalizedDay(cells[k], parse).value;
            && (exists r :: r in cal && r.date == z && r.id == z - Min(days) + 1)
            && (forall r1, r2 :: r1 in cal && r2 in cal && r1.date == z && r2.date == z ==> r1 == r2)
  {
    var days := CollectDays(cells, parse);
    var z := NormalizedDay(cells[k], parse).value;
    assert z in days;
    ConsecutiveSpan(cal, Min(days), Max(days), z);
    OneRowPerDate(cal, z);
  }

  /** In a table with distinct dates, the rows dated z are at most one. */
  lemma OneRowPerDate(cal: seq<CalendarRow>, z: int)
    requires KeysUnique(cal, CalendarDateKey)
    ensures forall r1, r2 :: r1 in cal && r2 in cal && r1.date == z && r2.date == z ==> r1 == r2
  {
    forall r1, r2 | r1 in cal && r2 in cal && r1.date == z && r2.date == z ensures r1 == r2 {
      SameDateSameRow(cal, r1, r2);
    }
  }

  /** In a table with distinct dates, two rows with one date are one row. */
  lemma SameDateSameRow(cal: seq<CalendarRow>, r1: CalendarRow, r2: CalendarRow)
    requires KeysUnique(cal, CalendarDateKey)
    requires r1 in cal && r2 in cal && r1.date == r2.date
    ensures r1 == r2
  {
    var a :| 0 <= a < |cal| && cal[a] == r1;
    var b :| 0 <= b < |cal| && cal[b] == r2;
    assert CalendarDateKey(cal[a]) == CalendarDateKey(cal[b]);
    assert a == b;
  }
}
