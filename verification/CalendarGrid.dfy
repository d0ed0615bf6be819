/** The six rows of seven days of the calendar popup, against the Gregorian calendar. */
module CalendarGrid {
  import opened DateFormat

  datatype CalendarDay = CalendarDay(year: int, month: int, date: int)

  predicate Real(c: CalendarDay) { 1 <= c.month <= 12 && 1 <= c.date <= DaysIn(c.year, c.month) }

  /** The day after c in the Gregorian calendar. */
  function NextDay(c: CalendarDay): CalendarDay
  {
    if c.date < DaysIn(c.year, c.month) then c.(date := c.date + 1)
    else if c.month < 12 then CalendarDay(c.year, c.month + 1, 1)
    else CalendarDay(c.year + 1, 1, 1)
  }

  // ---------- sections 15.9.1.3 to 15.9.1.6 of ECMA-262 5.1 ----------

  /** The day number of the first day of a year, day 0 being 1 January 1970. */
  function DayFromYear(y: int): int { 365 * (y - 1970) + (y - 1969) / 4 - (y - 1901) / 100 + (y - 1601) / 400 }

  function DaysBefore(y: int, month: int): int
    requires 1 <= month <= 12
  {
    [0, 31, 59, 90, 120, 151, 181, 212, 243, 273, 304, 334][month - 1] + if month > 2 && LeapYear(y) then 1 else 0
  }

  function DayNumber(c: CalendarDay): int
    requires 1 <= c.month <= 12
  {
    DayFromYear(c.year) + DaysBefore(c.year, c.month) + c.date - 1
  }

  /** 0 is Sunday. */
  function WeekDay(day: int): int { (day + 4) % 7 }

  /** One day after the other, from 1 January 1970, which was day 0 and a Thursday. */
  lemma WeekdaysInTurn(day: int)
    ensures WeekDay(day + 1) == if WeekDay(day) == 6 then 0 else WeekDay(day) + 1
    ensures DayNumber(CalendarDay(1970, 1, 1)) == 0 && WeekDay(0) == 4
    ensures WeekDay(DayNumber(CalendarDay(2000, 2, 29))) == 2
  {
  }

  lemma YearLength(y: int)
    ensures DayFromYear(y + 1) - DayFromYear(y) == if LeapYear(y) then 366 else 365
  {
    LeapDays4(y);
    LeapDays100(y);
    LeapDays400(y);
  }

  lemma LeapDays4(y: int)
    ensures (y - 1968) / 4 - (y - 1969) / 4 == if y % 4 == 0 then 1 else 0
  {
  }

  lemma LeapDays100(y: int)
    ensures (y - 1900) / 100 - (y - 1901) / 100 == if y % 100 == 0 then 1 else 0
  {
  }

  lemma LeapDays400(y: int)
    ensures (y - 1600) / 400 - (y - 1601) / 400 == if y % 400 == 0 then 1 else 0
  {
  }

  /** Day numbers count the days of the calendar. */
  lemma NextDayIsNextNumber(c: CalendarDay)
    requires Real(c)
    ensures Real(NextDay(c)) && DayNumber(NextDay(c)) == DayNumber(c) + 1
  {
    if c.month == 12 && c.date == 31 {
      YearLength(c.year);
    }
  }

  // ---------- the grid ----------

  /** `new Date(year, ...)` takes the years 0 to 99 for 1900 to 1999. */
  function DateYear(year: int): int { if 0 <= year <= 99 then 1900 + year else year }

  /** How many days before the first of the month the grid starts. */
  function Offset(year: int, month: int, weekStartDay: int): int
    requires 1 <= month <= 12
  {
    var weekday := WeekDay(DayNumber(CalendarDay(DateYear(year), month, 1)));
    if weekday >= weekStartDay then weekday - weekStartDay else 7 - weekStartDay + weekday
  }

  function PreviousMonth(year: int, month: int): (int, int) { if month == 1 then (year - 1, 12) else (year, month - 1) }

  function FollowingMonth(year: int, month: int): (int, int)
  {
    if month == 12 then (year + 1, 1) else (year, month + 1)
  }

  /** The day in cell i if the first of the month is in cell `offset`. */
  function Cell(year: int, month: int, offset: int, i: int): CalendarDay
  {
    if i < offset then
      var p := PreviousMonth(year, month);
      CalendarDay(p.0, p.1, DaysIn(p.0, p.1) - offset + 1 + i)
    else if i < offset + DaysIn(year, month) then CalendarDay(year, month, i - offset + 1)
    else
      var n := FollowingMonth(year, month);
      CalendarDay(n.0, n.1, i - offset - DaysIn(year, month) + 1)
  }

  /** The cells are consecutive real dates, across the ends of months and years. */
  lemma CellsAreConsecutive(year: int, month: int, offset: int, i: int)
    requires 1 <= month <= 12 && 0 <= offset <= 6 && 0 <= i < 42
    ensures Real(Cell(year, month, offset, i))
    ensures NextDay(Cell(year, month, offset, i)) == Cell(year, month, offset, i + 1)
    ensures var c := Cell(year, month, offset, i); DaysIn(c.year, c.month) == DaysIn(year, c.month)
  {
  }

  /** The carries of the loop, with the table of the displayed year, lead to the next cell. */
  lemma CarryToNextCell(year: int, month: int, offset: int, i: int, daysinmonth: seq<int>)
    requires 1 <= month <= 12 && 0 <= offset <= 6 && 0 <= i < 42
    requires |daysinmonth| == 13 && forall m :: 1 <= m <= 12 ==> daysinmonth[m] == DaysIn(year, m)
    ensures var c := Cell(year, month, offset, i);
      && 1 <= c.month <= 12
      && Cell(year, month, offset, i + 1) ==
        if c.date + 1 <= daysinmonth[c.month] then c.(date := c.date + 1)
        else if c.month + 1 <= 12 then CalendarDay(c.year, c.month + 1, 1)
        else CalendarDay(c.year + 1, 1, 1)
  {
    hide Cell, DaysIn;
    CellsAreConsecutive(year, month, offset, i);
  }

  /** Cell i holds a day of the displayed month exactly in one stretch, each day in one cell. */
  lemma EachDayOfTheMonthOnce(year: int, month: int, offset: int, i: int, date: int)
    requires 1 <= month <= 12 && 0 <= offset <= 6 && 0 <= i < 42 && 1 <= date <= DaysIn(year, month)
    ensures Cell(year, month, offset, i) == CalendarDay(year, month, date) <==> i == offset + date - 1
    ensures offset + date - 1 < 42
    ensures Cell(year, month, offset, i).month == month <==> offset <= i < offset + DaysIn(year, month)
  {
  }

  lemma {:induction false} CellNumber(year: int, month: int, offset: int, i: int)
    requires 1 <= month <= 12 && 0 <= offset <= 6 && 0 <= i <= 42
    ensures Real(Cell(year, month, offset, i))
    ensures DayNumber(Cell(year, month, offset, i)) == DayNumber(CalendarDay(year, month, 1)) + i - offset
    decreases if i >= offset then i - offset else offset - i
  {
    hide DayNumber, NextDay;
    if i > offset {
      CellNumber(year, month, offset, i - 1);
      CellsAreConsecutive(year, month, offset, i - 1);
      NextDayIsNextNumber(Cell(year, month, offset, i - 1));
    } else if i < offset {
      CellNumber(year, month, offset, i + 1);
      CellsAreConsecutive(year, month, offset, i);
      NextDayIsNextNumber(Cell(year, month, offset, i));
    }
  }

  lemma YearsApart(year: int)
    requires 0 <= year <= 99
    ensures DayFromYear(1900 + year) - DayFromYear(year) == if year == 0 then 693961 else 693960
  {
    assert (1900 + year - 1969) / 4 == (year - 1969) / 4 + 475;
    assert (1900 + year - 1901) / 100 == (year - 1901) / 100 + 19;
  }

  lemma WeeksApart(day: int, weeks: int, rest: int)
    requires 0 < rest < 7
    ensures WeekDay(day + 7 * weeks + rest) != WeekDay(day)
  {
    var q := (day + 4) / 7;
    assert day + 4 == 7 * q + WeekDay(day);
    assert day + 7 * weeks + rest + 4 == 7 * (q + weeks) + WeekDay(day) + rest;
  }

  lemma CenturyShiftsWeekdays(year: int, month: int)
    requires 0 <= year <= 99 && 1 <= month <= 12
    ensures WeekDay(DayNumber(CalendarDay(1900 + year, month, 1))) != WeekDay(DayNumber(CalendarDay(year, month, 1)))
  {
    YearsApart(year);
    hide DayFromYear;
    if year > 0 {
      TwoDigitYears(year, 2);
    }
    var late, early := DayNumber(CalendarDay(1900 + year, month, 1)), DayNumber(CalendarDay(year, month, 1));
    assert late == early + 7 * 99137 + 1 || late == early + 7 * 99137 + 2;
    hide DayNumber;
    WeeksApart(early, 99137, late - early - 7 * 99137);
  }

  /**
   Cell i is under the header of its weekday exactly if the displayed year is not one of 0 to 99,
   whose weekdays are looked up in the twentieth century.
   */
  lemma ColumnsAreWeekdaysExactly(year: int, month: int, weekStartDay: int, i: int)
    requires 1 <= month <= 12 && 0 <= weekStartDay <= 6 && 0 <= i < 42
    ensures var offset := Offset(year, month, weekStartDay);
      && 0 <= offset <= 6 && Real(Cell(year, month, offset, i))
      && (WeekDay(DayNumber(Cell(year, month, offset, i))) == (weekStartDay + i % 7) % 7 <==> !(0 <= year <= 99))
  {
    var offset := Offset(year, month, weekStartDay);
    var first, shifted := DayNumber(CalendarDay(year, month, 1)), DayNumber(CalendarDay(DateYear(year), month, 1));
    hide DayNumber, Cell;
    Shifting(first, shifted, weekStartDay, i);
    CellNumber(year, month, offset, i);
    if 0 <= year <= 99 {
      CenturyShiftsWeekdays(year, month);
    }
  }

  lemma Shifting(first: int, shifted: int, weekStartDay: int, i: int)
    requires 0 <= weekStartDay <= 6 && i >= 0
    ensures var offset := if WeekDay(shifted) >= weekStartDay then WeekDay(shifted) - weekStartDay
      else 7 - weekStartDay + WeekDay(shifted);
      WeekDay(first + i - offset) == (weekStartDay + i % 7) % 7 <==> WeekDay(first) == WeekDay(shifted)
  {
    var offset := if WeekDay(shifted) >= weekStartDay then WeekDay(shifted) - weekStartDay
      else 7 - weekStartDay + WeekDay(shifted);
    var a, c := (first + 4) / 7, i / 7;
    var f, r := WeekDay(first), i % 7;
    assert first + i - offset + 4 == 7 * (a + c) + (f + r - offset);
    SameRemainder(f + r - offset, a + c);
    SameResidue(f, WeekDay(shifted), weekStartDay, r, offset);
  }

  lemma SameRemainder(n: int, a: int)
    ensures (7 * a + n) % 7 == n % 7
  {
  }

  lemma SameResidue(f: int, g: int, start: int, r: int, offset: int)
    requires 0 <= f <= 6 && 0 <= g <= 6 && 0 <= start <= 6 && 0 <= r <= 6
    requires offset == if g >= start then g - start else 7 - start + g
    ensures (f + r - offset) % 7 == (start + r) % 7 <==> f == g
  {
  }

  /** The table of month lengths. */
  method MonthLengths(year: int) returns (daysinmonth: seq<int>)
    ensures |daysinmonth| == 13 && forall m :: 1 <= m <= 12 ==> daysinmonth[m] == DaysIn(year, m)
  {
    daysinmonth := [0, 31, 28, 31, 30, 31, 30, 31, 31, 30, 31, 30, 31];
    if (year % 4 == 0 && year % 100 != 0) || year % 400 == 0 {
      daysinmonth := daysinmonth[2 := 29];
    }
  }

  /** The day in the first cell. */
  method FirstCell(year: int, month: int, weekStartDay: int, daysinmonth: seq<int>) returns (display: CalendarDay)
    requires 1 <= month <= 12 && 0 <= weekStartDay <= 6
    requires |daysinmonth| == 13 && forall m :: 1 <= m <= 12 ==> daysinmonth[m] == DaysIn(year, m)
    ensures display == Cell(year, month, Offset(year, month, weekStartDay), 0)
  {
    hide LeapYear, DayNumber;
    var weekday := WeekDay(DayNumber(CalendarDay(DateYear(year), month, 1)));
    var offset := if weekday >= weekStartDay then weekday - weekStartDay else 7 - weekStartDay + weekday;
    var display_year, display_month, display_date := year, month, 1;
    if offset > 0 {
      display_month := display_month - 1;
      if display_month < 1 {
        display_month, display_year := 12, display_year - 1;
      }
      display_date := daysinmonth[display_month] - offset + 1;
    }
    return CalendarDay(display_year, display_month, display_date);
  }

  /** The loop over rows and columns. */
  method Grid(year: int, month: int, weekStartDay: int) returns (cells: seq<CalendarDay>)
    requires 1 <= month <= 12 && 0 <= weekStartDay <= 6
    ensures |cells| == 42
    ensures forall i :: 0 <= i < 42 ==> cells[i] == Cell(year, month, Offset(year, month, weekStartDay), i)
  {
    hide WeekDay, DayNumber, Cell, DaysIn, LeapYear;
    var daysinmonth := MonthLengths(year);
    ghost var offset := Offset(year, month, weekStartDay);
    WeekDayIsWeekDay(DayNumber(CalendarDay(DateYear(year), month, 1)));
    assert 0 <= offset <= 6;
    hide Offset;
    var display := FirstCell(year, month, weekStartDay, daysinmonth);
    var display_year, display_month, display_date := display.year, display.month, display.date;
    cells := [];
    for row := 0 to 6
      invariant |cells| == 7 * row
      invariant CalendarDay(display_year, display_month, display_date) == Cell(year, month, offset, |cells|)
      invariant forall i :: 0 <= i < |cells| ==> cells[i] == Cell(year, month, offset, i)
    {
      for col := 0 to 7
        invariant |cells| == 7 * row + col
        invariant CalendarDay(display_year, display_month, display_date) == Cell(year, month, offset, |cells|)
        invariant forall i :: 0 <= i < |cells| ==> cells[i] == Cell(year, month, offset, i)
      {
        CarryToNextCell(year, month, offset, |cells|, daysinmonth);
        cells := cells + [CalendarDay(display_year, display_month, display_date)];
        display_date := display_date + 1;
        if display_date > daysinmonth[display_month] {
          display_date, display_month := 1, display_month + 1;
        }
        if display_month > 12 {
          display_month, display_year := 1, display_year + 1;
        }
      }
    }
  }

  lemma WeekDayIsWeekDay(day: int)
    ensures 0 <= WeekDay(day) <= 6
  {
  }
}
