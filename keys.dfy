/** The two helpers every fact builder uses: the lookup of a timestamp's
    calendar surrogate key (a left merge of the normalised dates against
    dim_calendar) and the "HH:MM:SS" time of day. Timestamp parsing
    (pd.to_datetime with errors='coerce') is the parameter `parse`: None is
    a value pandas coerces to NaT. */
module KeyResolution {
  import opened Nullable
  import opened Civil
  import opened Source
  import opened Relational
  import opened Warehouse

  /** to_datetime of one cell: a null cell and an unparseable text are both NaT. */
  function ParseCell(c: Cell, parse: string -> Option<Timestamp>): (t: Option<Timestamp>)
    ensures c.None? ==> t.None?
    ensures c.Some? ==> t == parse(c.value)
  {
    match c
    case None => None
    case Some(text) => parse(text)
  }

  /** .dt.normalize(): the day of the parsed timestamp (its midnight), or NaT. */
  function NormalizedDay(c: Cell, parse: string -> Option<Timestamp>): (d: Option<int>)
    ensures d.Some? <==> ParseCell(c, parse).Some?
    ensures d.Some? ==> d.value == ParseCell(c, parse).value.day && MinDay <= d.value <= MaxDay
  {
    match ParseCell(c, parse)
    case None => None
    case Some(t) => TimestampDayInRange(t); Some(t.day)
  }

  function CalendarDateKey(r: CalendarRow): Option<int> { Some(r.date) }

  function DayKey(d: Option<int>): Option<int> { d }

  /** merged['id'] of one merged row: the calendar id, or NaN without a match. */
  function MatchedId(p: (Option<int>, Option<CalendarRow>)): Option<int>
  {
    match p.1
    case None => None
    case Some(r) => Some(r.id)
  }

  /** `fk` is what the calendar lookup must give for `day`: the id of a
      calendar row dated `day`, or null exactly when the day is missing (an
      unparseable value) or no calendar row carries that date. */
  predicate ResolvesTo(day: Option<int>, cal: seq<CalendarRow>, fk: Option<int>)
  {
    && (fk.Some? <==> day.Some? && exists r :: r in cal && r.date == day.value)
    && (fk.Some? ==> exists r :: r in cal && r.date == day.value && r.id == fk.value)
  }

  /** _get_date_id: normalise the parsed timestamps, left-merge them with
      dim_calendar[['date', 'id']] on the date, and take the 'id' column.
      The merge yields at least one row per input value; when the calendar
      dates are distinct it yields exactly one, in input order, and each is
      the id of the calendar row for that value's day. */
  function DateIdColumn(cells: seq<Cell>, parse: string -> Option<Timestamp>, cal: seq<CalendarRow>): (ids: seq<Option<int>>)
    ensures |ids| >= |cells|
    ensures KeysUnique(cal, CalendarDateKey) ==>
              |ids| == |cells| &&
              forall i :: 0 <= i < |cells| ==> ResolvesTo(NormalizedDay(cells[i], parse), cal, ids[i])
  {
    var days := Column(cells, c => NormalizedDay(c, parse));
    var merged := LeftJoin(days, cal, DayKey, CalendarDateKey);
    var ids := Column(merged, MatchedId);
    assert KeysUnique(cal, CalendarDateKey) ==>
             |ids| == |cells| &&
             forall i :: 0 <= i < |cells| ==> ResolvesTo(NormalizedDay(cells[i], parse), cal, ids[i]) by {
      if KeysUnique(cal, CalendarDateKey) {
        LeftJoinOneToOne(days, cal, DayKey, CalendarDateKey);
        forall i | 0 <= i < |cells| ensures ResolvesTo(NormalizedDay(cells[i], parse), cal, ids[i]) {
          FoundIdResolves(days[i], cal);
        }
      }
    }
    ids
  }

  /** The id Find gives for a day is what the lookup must give. */
  lemma FoundIdResolves(day: Option<int>, cal: seq<CalendarRow>)
    ensures ResolvesTo(day, cal, MatchedId((day, Find(cal, CalendarDateKey, day))))
  {
    var f := Find(cal, CalendarDateKey, day);
    if f.Some? {
      assert CalendarDateKey(f.value) == day;
    } else if day.Some? {
      forall r | r in cal ensures r.date != day.value {
        assert CalendarDateKey(r) != day;
      }
    }
  }

  /** With distinct calendar dates the lookup is a function of the day: two
      rows that carry the same date resolve to the same id. */
  lemma ResolutionIsUnique(day: Option<int>, cal: seq<CalendarRow>, fk1: Option<int>, fk2: Option<int>)
    requires KeysUnique(cal, CalendarDateKey)
    requires ResolvesTo(day, cal, fk1) && ResolvesTo(day, cal, fk2)
    ensures fk1 == fk2
  {
    if fk1.Some? {
      var r1 :| r1 in cal && r1.date == day.value && r1.id == fk1.value;
      var r2 :| r2 in cal && r2.date == day.value && r2.id == fk2.value;
      var i :| 0 <= i < |cal| && cal[i] == r1;
      var j :| 0 <= j < |cal| && cal[j] == r2;
      assert CalendarDateKey(cal[i]) == CalendarDateKey(cal[j]);
      assert i == j;
    }
  }

  /** The fallback _get_time writes for NaT. */
  const Midnight: string := "00:00:00"

  /** `time` is what _get_time writes for cell `c`: eight characters that
      read back as the parsed timestamp's second of the day, or exactly
      "00:00:00" where the cell is null or unparseable. */
  predicate ClockOf(time: string, c: Cell, parse: string -> Option<Timestamp>)
  {
    && |time| == 8
    && (ParseCell(c, parse).None? ==> time == Midnight)
    && (ParseCell(c, parse).Some? ==> ParseClock(time) == Some(SecondOfDay(ParseCell(c, parse).value)))
  }

  /** strftime('%H:%M:%S') of one cell, "00:00:00" for NaT. */
  function ClockText(c: Cell, parse: string -> Option<Timestamp>): (s: string)
    ensures ClockOf(s, c, parse)
  {
    match ParseCell(c, parse)
    case None => Midnight
    case Some(t) => ClockRoundTrip(SecondOfDay(t)); FormatClock(SecondOfDay(t))
  }

  /** _get_time: one time per input value, in input order, each the one
      ClockOf describes. */
  function TimeColumn(cells: seq<Cell>, parse: string -> Option<Timestamp>): (times: seq<string>)
    ensures |times| == |cells|
    ensures forall i :: 0 <= i < |cells| ==> ClockOf(times[i], cells[i], parse)
  {
    Column(cells, c => ClockText(c, parse))
  }
}
