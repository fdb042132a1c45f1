/** The month grid of the upload calendar (`calendarDays`): every day from
    the Sunday that starts the week of the 1st of the reference month up to
    and including the Sunday that starts the week of (last day + 7 days).

    Days are numbered in the local calendar, day 0 being 1970-01-01. */
module Calendar {

  type Day = int

  /** A civil date of the proleptic Gregorian calendar (month 1..12). */
  datatype Date = Date(year: int, month: int, day: int)

  predicate IsLeapYear(y: int)
  {
    y % 4 == 0 && (y % 100 != 0 || y % 400 == 0)
  }

  function MonthLength(y: int, m: int): (n: int)
    requires 1 <= m <= 12
    ensures 28 <= n <= 31
    ensures m == 2 ==> (n == 29 <==> IsLeapYear(y))
  {
    if m == 2 then (if IsLeapYear(y) then 29 else 28)
    else if m == 4 || m == 6 || m == 9 || m == 11 then 30
    else 31
  }

  predicate ValidDate(d: Date)
  {
    1 <= d.month <= 12 && 1 <= d.day <= MonthLength(d.year, d.month)
  }

  /** Days from 1970-01-01 to y-m-d (the "days from civil" computation over
      400-year eras; years are counted from March so that the leap day is
      the last day of a year). */
  function DayNumber(y: int, m: int, d: int): Day
    requires 1 <= m <= 12
  {
    var y' := if m <= 2 then y - 1 else y;
    var era := y' / 400;
    var yoe := y' % 400;
    var mp := if m > 2 then m - 3 else m + 9;
    var doy := (153 * mp + 2) / 5 + d - 1;
    var doe := yoe * 365 + yoe / 4 - yoe / 100 + doy;
    era * 146097 + doe - 719468
  }

  /** 0 is Sunday, 1 Monday, ..., 6 Saturday (`Date.prototype.getDay`). */
  function Weekday(n: Day): (w: int)
    ensures 0 <= w < 7
  {
    (n + 4) % 7
  }

  /** The numbering matches the calendar: day 0 is Thursday 1970-01-01. */
  lemma EpochIsThursday()
    ensures DayNumber(1970, 1, 1) == 0 && Weekday(0) == 4
  {
  }

  /** The days of a month are numbered consecutively ... */
  lemma DaysOfMonthConsecutive(y: int, m: int, d: int)
    requires 1 <= m <= 12
    ensures DayNumber(y, m, d) == DayNumber(y, m, 1) + d - 1
  {
  }

  /** ... and the next month starts the day after the last one. */
  lemma MonthsAdjacent(y: int, m: int)
    requires 1 <= m <= 12
    ensures m < 12 ==> DayNumber(y, m, MonthLength(y, m)) + 1 == DayNumber(y, m + 1, 1)
    ensures m == 12 ==> DayNumber(y, m, MonthLength(y, m)) + 1 == DayNumber(y + 1, 1, 1)
  {
    if m == 2 {
      FebruaryEnds(y);
    }
  }

  lemma FebruaryEnds(y: int)
    ensures DayNumber(y, 2, MonthLength(y, 2)) + 1 == DayNumber(y, 3, 1)
  {
    var len := MonthLength(y, 2);
    var era, yoe := (y - 1) / 400, (y - 1) % 400;
    var era', yoe' := y / 400, y % 400;
    assert DayNumber(y, 2, len) == era * 146097 + yoe * 365 + yoe / 4 - yoe / 100 + 337 + len - 1 - 719468;
    assert DayNumber(y, 3, 1) == era' * 146097 + yoe' * 365 + yoe' / 4 - yoe' / 100 - 719468;
    if yoe' == 0 {
      assert yoe == 399 && era' == era + 1;
      assert IsLeapYear(y);
    } else {
      assert era' == era && yoe' == yoe + 1;
      LeapInEra(y, yoe');
      StepQuotient4(yoe);
      StepQuotient100(yoe);
    }
  }

  /** Inside a 400-year era, the leap rule only depends on the year of the era. */
  lemma LeapInEra(y: int, yoe: int)
    requires yoe == y % 400 && yoe != 0
    ensures IsLeapYear(y) <==> yoe % 4 == 0 && yoe % 100 != 0
  {
    var q := y / 400;
    assert y == 400 * q + yoe;
    assert y % 4 == yoe % 4 by {
      Remainder4(y, 100 * q + yoe / 4, yoe % 4);
    }
    assert y % 100 == yoe % 100 by {
      Remainder100(y, 4 * q + yoe / 100, yoe % 100);
    }
  }

  /** The remainder is the unique r in 0..m-1 with x == m * t + r. */
  lemma Remainder4(x: int, t: int, r: int)
    requires x == 4 * t + r && 0 <= r < 4
    ensures x % 4 == r
  {
  }

  lemma Remainder100(x: int, t: int, r: int)
    requires x == 100 * t + r && 0 <= r < 100
    ensures x % 100 == r
  {
  }

  /** How the leap-day counts `yoe / 4` and `yoe / 100` grow from one year to the next. */
  lemma StepQuotient4(a: int)
    requires a >= 0
    ensures (a + 1) / 4 - a / 4 == if (a + 1) % 4 == 0 then 1 else 0
  {
  }

  lemma StepQuotient100(a: int)
    requires a >= 0
    ensures (a + 1) / 100 - a / 100 == if (a + 1) % 100 == 0 then 1 else 0
  {
  }

  /** `startOfWeek(n, { weekStartsOn: 0 })`: the Sunday on or before `n`. */
  function StartOfWeek(n: Day): (r: Day)
    ensures Weekday(r) == 0 && r <= n < r + 7
  {
    n - Weekday(n)
  }

  function FirstOfMonth(today: Date): Day
    requires ValidDate(today)
  {
    DayNumber(today.year, today.month, 1)
  }

  function LastOfMonth(today: Date): Day
    requires ValidDate(today)
  {
    DayNumber(today.year, today.month, MonthLength(today.year, today.month))
  }

  function GridStart(today: Date): Day
    requires ValidDate(today)
  {
    StartOfWeek(FirstOfMonth(today))
  }

  function GridEnd(today: Date): Day
    requires ValidDate(today)
  {
    StartOfWeek(LastOfMonth(today) + 7)
  }

  /** The days lo, lo + 1, ..., hi. */
  function DayRange(lo: Day, hi: Day): (r: seq<Day>)
    requires lo <= hi + 1
    ensures |r| == hi - lo + 1
    ensures forall i :: 0 <= i < |r| ==> r[i] == lo + i
  {
    seq(hi - lo + 1, i requires 0 <= i <= hi - lo => lo + i)
  }

  function MonthGrid(today: Date): seq<Day>
    requires ValidDate(today)
  {
    DayRange(GridStart(today), GridEnd(today))
  }

  /** `calendarDays`: walks a cursor from the first to the last grid day,
      both included, pushing each day. */
  method BuildMonthGrid(today: Date) returns (days: seq<Day>)
    requires ValidDate(today)
    ensures days == MonthGrid(today)
  {
    var startCalendar := GridStart(today);
    var endCalendar := GridEnd(today);
    days := [];
    var cursor := startCalendar;
    while cursor <= endCalendar
      invariant startCalendar <= cursor <= endCalendar + 1
      invariant |days| == cursor - startCalendar
      invariant forall i :: 0 <= i < |days| ==> days[i] == startCalendar + i
      decreases endCalendar - cursor
    {
      days := days + [cursor];
      cursor := cursor + 1;
    }
  }

  /** The grid is a run of consecutive days, without gaps or repeats, that
      begins and ends on a Sunday; both ends are included, so it holds
      7k + 1 days. */
  lemma GridShape(today: Date)
    requires ValidDate(today)
    ensures var g := MonthGrid(today);
      && |g| > 0
      && (forall i :: 0 <= i < |g| - 1 ==> g[i + 1] == g[i] + 1)
      && Weekday(g[0]) == 0 && Weekday(g[|g| - 1]) == 0
      && |g| % 7 == 1
  {
    var lo, hi := GridStart(today), GridEnd(today);
    assert lo <= FirstOfMonth(today) <= LastOfMonth(today) < hi;
    SundaysWeeksApart(lo, hi);
  }

  lemma SundaysWeeksApart(a: Day, b: Day)
    requires Weekday(a) == 0 && Weekday(b) == 0
    ensures (b - a) % 7 == 0
  {
    var qa, qb := (a + 4) / 7, (b + 4) / 7;
    assert a + 4 == 7 * qa && b + 4 == 7 * qb;
    assert b - a == 7 * (qb - qa);
  }

  /** There is no spurious leading week: the grid starts within the week
      before the 1st, and on the 1st itself when the 1st is a Sunday. The
      trailing part is one to seven days of the next month. */
  lemma GridBounds(today: Date)
    requires ValidDate(today)
    ensures var g := MonthGrid(today);
      && |g| > 0
      && g[0] <= FirstOfMonth(today) < g[0] + 7
      && (Weekday(FirstOfMonth(today)) == 0 ==> g[0] == FirstOfMonth(today))
      && LastOfMonth(today) < g[|g| - 1] <= LastOfMonth(today) + 7
      && 29 <= |g| <= 43
  {
    DaysOfMonthConsecutive(today.year, today.month, MonthLength(today.year, today.month));
  }

  /** Every day of the reference month has a cell, at the position given by
      its distance from the first cell. */
  lemma GridCoversMonth(today: Date, d: int)
    requires ValidDate(today)
    requires 1 <= d <= MonthLength(today.year, today.month)
    ensures var g := MonthGrid(today);
      var n := DayNumber(today.year, today.month, d);
      0 <= n - g[0] < |g| && g[n - g[0]] == n
  {
    DaysOfMonthConsecutive(today.year, today.month, d);
    DaysOfMonthConsecutive(today.year, today.month, MonthLength(today.year, today.month));
  }

  /** Friday 2024-03-01: the grid runs from Sunday 2024-02-25 to Sunday
      2024-04-07, 43 cells. */
  lemma March2024()
    ensures var g := MonthGrid(Date(2024, 3, 1));
      Weekday(DayNumber(2024, 3, 1)) == 5
      && g[0] == DayNumber(2024, 2, 25)
      && g[|g| - 1] == DayNumber(2024, 4, 7)
      && |g| == 43
  {
    var today := Date(2024, 3, 1);
    assert DayNumber(2024, 3, 1) == 19783;
    assert DayNumber(2024, 3, 31) == 19813;
    assert DayNumber(2024, 2, 25) == 19778;
    assert DayNumber(2024, 4, 7) == 19820;
    assert GridStart(today) == 19778;
    assert GridEnd(today) == 19820;
  }
}
