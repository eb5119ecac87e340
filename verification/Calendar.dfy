/** The month grid of the clock's calendar: how many lines a month takes, which day each line starts with, and
    the printing of a line, over the proleptic Gregorian calendar.
 */
module Calendar {

  /** Days of the week, Sunday being 0. */
  type Weekday = w: int | 0 <= w < 7

  type MonthOfYear = m: int | 1 <= m <= 12 witness 1

  datatype YearMonth = YearMonth(year: int, month: MonthOfYear)

  datatype Date = Date(ym: YearMonth, day: int)

  // --- the calendar -----------------------------------------------------------------------------------------

  predicate IsLeap(year: int) {
    year % 4 == 0 && (year % 100 != 0 || year % 400 == 0)
  }

  function Length(ym: YearMonth): (days: nat)
    ensures 28 <= days <= 31
  {
    match ym.month
    case 2 => if IsLeap(ym.year) then 29 else 28
    case 4 | 6 | 9 | 11 => 30
    case _ => 31
  }

  /** Days from the first day of the year 0 to that of `year`. */
  function DaysBeforeYear(year: int): int {
    365 * year + (year + 3) / 4 - (year + 99) / 100 + (year + 399) / 400
  }

  function DaysBefore(ym: YearMonth): int
    decreases ym.month
  {
    if ym.month == 1 then DaysBeforeYear(ym.year)
    else DaysBefore(ym.(month := ym.month - 1)) + Length(ym.(month := ym.month - 1))
  }

  function Mod7(days: int): Weekday {
    days % 7
  }

  /** The first day of the year 0 was a Saturday. */
  function WeekdayOf(ym: YearMonth, day: int): Weekday {
    Mod7(DaysBefore(ym) + day + 5)
  }

  function NextMonth(ym: YearMonth): YearMonth {
    if ym.month == 12 then YearMonth(ym.year + 1, 1) else ym.(month := ym.month + 1)
  }

  lemma Quarters(year: int)
    ensures (year + 4) / 4 == (year + 3) / 4 + if year % 4 == 0 then 1 else 0
  {
  }

  lemma Centuries(year: int)
    ensures (year + 100) / 100 == (year + 99) / 100 + if year % 100 == 0 then 1 else 0
    ensures year % 100 == 0 ==> year % 4 == 0
  {
  }

  lemma FourCenturies(year: int)
    ensures (year + 400) / 400 == (year + 399) / 400 + if year % 400 == 0 then 1 else 0
    ensures year % 400 == 0 ==> year % 100 == 0
  {
  }

  lemma YearsTile(year: int)
    ensures DaysBeforeYear(year + 1) == DaysBeforeYear(year) + if IsLeap(year) then 366 else 365
  {
    Quarters(year);
    Centuries(year);
    FourCenturies(year);
    assert DaysBeforeYear(year + 1) == 365 * year + 365 + (year + 4) / 4 - (year + 100) / 100 + (year + 400) / 400;
  }

  /** The months follow each other without gap or overlap, over the ends of years too. */
  lemma MonthsTile(ym: YearMonth)
    ensures DaysBefore(NextMonth(ym)) == DaysBefore(ym) + Length(ym)
  {
    if ym.month == 12 {
      YearEndTiles(ym.year);
    } else {
      hide DaysBeforeYear, IsLeap, Length;
      assert NextMonth(ym).(month := NextMonth(ym).month - 1) == ym;
    }
  }

  lemma YearEndTiles(year: int)
    ensures DaysBefore(YearMonth(year + 1, 1)) == DaysBefore(YearMonth(year, 12)) + 31
  {
    YearsTile(year);
    DaysOfTheYear(year);
    assert DaysBefore(YearMonth(year + 1, 1)) == DaysBeforeYear(year + 1);
    hide *;
  }

  lemma DaysOfTheYear(year: int)
    ensures DaysBefore(YearMonth(year, 12)) + 31 == DaysBeforeYear(year) + if IsLeap(year) then 366 else 365
  {
    hide DaysBeforeYear, IsLeap;
    var y := year;
    assert DaysBefore(YearMonth(y, 2)) == DaysBefore(YearMonth(y, 1)) + 31;
    assert DaysBefore(YearMonth(y, 3)) == DaysBefore(YearMonth(y, 2)) + Length(YearMonth(y, 2));
    assert DaysBefore(YearMonth(y, 4)) == DaysBefore(YearMonth(y, 3)) + 31;
    assert DaysBefore(YearMonth(y, 5)) == DaysBefore(YearMonth(y, 4)) + 30;
    assert DaysBefore(YearMonth(y, 6)) == DaysBefore(YearMonth(y, 5)) + 31;
    assert DaysBefore(YearMonth(y, 7)) == DaysBefore(YearMonth(y, 6)) + 30;
    assert DaysBefore(YearMonth(y, 8)) == DaysBefore(YearMonth(y, 7)) + 31;
    assert DaysBefore(YearMonth(y, 9)) == DaysBefore(YearMonth(y, 8)) + 31;
    assert DaysBefore(YearMonth(y, 10)) == DaysBefore(YearMonth(y, 9)) + 30;
    assert DaysBefore(YearMonth(y, 11)) == DaysBefore(YearMonth(y, 10)) + 31;
    assert DaysBefore(YearMonth(y, 12)) == DaysBefore(YearMonth(y, 11)) + 30;
  }

  /** The epoch of the system clock, the first of January 1970, was a Thursday. */
  lemma EpochIsThursday()
    ensures WeekdayOf(YearMonth(1970, 1), 1) == 4
  {
    assert DaysBeforeYear(1970) == 719528;
  }

  // --- the grid -----------------------------------------------------------------------------------------------

  /** What a line is printed of: a day number and today's marker take two columns, a space one. */
  datatype Token = Day(day: int) | Today | Space

  /** How many days `a` comes after `b`. */
  function Minus(a: Weekday, b: Weekday): Weekday {
    if a >= b then a - b else a - b + 7
  }

  function Following(wd: Weekday): Weekday {
    if wd == 6 then 0 else wd + 1
  }

  /** How many columns the first of the month is away from the first column. */
  function Offset(ym: YearMonth, firstdow: Weekday): Weekday {
    Minus(WeekdayOf(ym, 1), firstdow)
  }

  /** The number of lines of a month: the two titles, and the weeks that its days reach into. */
  function RowsInMonth(ym: YearMonth, firstdow: Weekday): (rows: nat)
    ensures 6 <= rows <= 8
  {
    2 + (Offset(ym, firstdow) + Length(ym) + 6) / 7
  }

  /** The n-th weekday of a month; the library keeps `n` in four bits. */
  datatype NthWeekday = NthWeekday(ym: YearMonth, weekday: Weekday, index: int) {
    function Day(): int {
      1 + Minus(weekday, WeekdayOf(ym, 1)) + 7 * (index - 1)
    }

    predicate Ok() {
      index >= 1 && (index <= 4 || Day() <= Length(ym))
    }
  }

  function WeekForLine(ym: YearMonth, firstdow: Weekday, line: nat): NthWeekday
    requires line >= 2
  {
    var idx := line - 2;
    NthWeekday(ym, firstdow, (if WeekdayOf(ym, 1) == firstdow then idx + 1 else idx) % 16)
  }

  /** The day, of this month or not, in column `c` of a line. */
  function DayAt(ym: YearMonth, firstdow: Weekday, line: nat, c: nat): int {
    7 * (line - 2) + c + 1 - Offset(ym, firstdow)
  }

  function CellFor(ym: YearMonth, day: int, today: Date): Token {
    if today == Date(ym, day) then Today else Day(day)
  }

  function Cell(ym: YearMonth, firstdow: Weekday, line: nat, c: nat, today: Date): seq<Token> {
    var day := DayAt(ym, firstdow, line, c);
    if 1 <= day <= Length(ym) then [CellFor(ym, day, today)] else [Space, Space]
  }

  /** The first `c` columns of a line, a space between each two. */
  function Week(ym: YearMonth, firstdow: Weekday, line: nat, today: Date, c: nat): seq<Token> {
    if c == 0 then []
    else
      Week(ym, firstdow, line, today, c - 1) + (if c == 1 then [] else [Space])
      + Cell(ym, firstdow, line, c - 1, today)
  }

  /** The week that the line prefix `WeekForLine` finds starts with the day of the first column, and it is in the
      month exactly on the lines that the month has. */
  lemma WeekForLineStartsTheLine(ym: YearMonth, firstdow: Weekday, line: nat)
    requires 3 <= line <= 16
    ensures WeekForLine(ym, firstdow, line).Ok() <==> line < RowsInMonth(ym, firstdow)
    ensures WeekForLine(ym, firstdow, line).Day() == DayAt(ym, firstdow, line, 0)
    ensures line < RowsInMonth(ym, firstdow) <==> DayAt(ym, firstdow, line, 0) <= Length(ym)
  {
    var w0, o := WeekdayOf(ym, 1), Offset(ym, firstdow);
    hide WeekdayOf, Length;
    assert Minus(firstdow, w0) == if o == 0 then 0 else 7 - o;
    assert WeekForLine(ym, firstdow, line).index == if o == 0 then line - 1 else line - 2;
  }

  function Spaces(n: nat): seq<Token> {
    seq(n, _ => Space)
  }

  method GetCalendarLine(today: Date, ym: YearMonth, line: nat, firstdow: Weekday) returns (os: seq<Token>)
    requires 2 <= line <= 16
    ensures os == if line < RowsInMonth(ym, firstdow) then Week(ym, firstdow, line, today, 7) else []
  {
    if line == 2 {
      os := FirstWeek(today, ym, firstdow);
    } else {
      var week := WeekForLine(ym, firstdow, line);
      WeekForLineStartsTheLine(ym, firstdow, line);
      if week.Ok() {
        os := LaterWeek(today, ym, firstdow, line, week.Day());
      } else {
        os := [];
      }
    }
  }

  lemma DayAdded(ym: YearMonth, firstdow: Weekday, line: nat, today: Date, c: nat)
    requires 1 <= DayAt(ym, firstdow, line, c) <= Length(ym)
    ensures Week(ym, firstdow, line, today, c + 1)
         == Week(ym, firstdow, line, today, c) + (if c == 0 then [] else [Space])
            + [CellFor(ym, DayAt(ym, firstdow, line, c), today)]
  {
  }

  /** The first week, prefixed with spaces if necessary. */
  method FirstWeek(today: Date, ym: YearMonth, firstdow: Weekday) returns (os: seq<Token>)
    ensures os == Week(ym, firstdow, 2, today, 7)
  {
    hide Length, WeekdayOf, Spaces, Week, CellFor;
    var d := 1;
    var wd := WeekdayOf(ym, 1);
    ghost var c: int := Offset(ym, firstdow);
    BlankPrefix(ym, firstdow, today, c);
    DayAdded(ym, firstdow, 2, today, c);
    os := Spaces(Minus(wd, firstdow) * 3);
    os := os + [CellFor(ym, d, today)];
    wd := Following(wd);
    c := c + 1;
    while wd != firstdow
      invariant 1 <= c <= 7 && Minus(wd, firstdow) == (if c == 7 then 0 else c)
      invariant d == DayAt(ym, firstdow, 2, c - 1) >= 1
      invariant os == Week(ym, firstdow, 2, today, c)
      decreases 7 - c
    {
      d := d + 1;
      DayAdded(ym, firstdow, 2, today, c);
      os := os + [Space, CellFor(ym, d, today)];
      wd := Following(wd);
      c := c + 1;
    }
  }

  /** A later week, with spaces appended if it was not completed. */
  method LaterWeek(today: Date, ym: YearMonth, firstdow: Weekday, line: nat, first: int) returns (os: seq<Token>)
    requires line >= 3 && 1 <= first == DayAt(ym, firstdow, line, 0) <= Length(ym)
    ensures os == Week(ym, firstdow, line, today, 7)
  {
    hide Length, WeekdayOf, Spaces, Offset, Week, CellFor;
    var d, dlast := first, Length(ym);
    var wd := firstdow;
    os := [CellFor(ym, d, today)];
    FirstDayAdded(ym, firstdow, line, today);
    wd, d := Following(wd), d + 1;
    ghost var c := 1;
    while wd != firstdow && d <= dlast
      invariant 1 <= c <= 7 && Minus(wd, firstdow) == (if c == 7 then 0 else c) && d == DayAt(ym, firstdow, line, c)
      invariant os == Week(ym, firstdow, line, today, c)
      decreases 7 - c
    {
      DayAdded(ym, firstdow, line, today, c);
      os := os + [Space, CellFor(ym, d, today)];
      wd, d := Following(wd), d + 1;
      c := c + 1;
    }
    os := os + Spaces(Minus(firstdow, wd) * 3);
    if c < 7 {
      BlankSuffix(ym, firstdow, line, today, c, 7);
    } else {
      NoSpaces();
    }
  }

  lemma FirstDayAdded(ym: YearMonth, firstdow: Weekday, line: nat, today: Date)
    requires 1 <= DayAt(ym, firstdow, line, 0) <= Length(ym)
    ensures Week(ym, firstdow, line, today, 1) == [CellFor(ym, DayAt(ym, firstdow, line, 0), today)]
  {
  }

  lemma NoSpaces()
    ensures Spaces(0) == []
  {
  }

  lemma {:induction false} BlankPrefix(ym: YearMonth, firstdow: Weekday, today: Date, c: nat)
    requires c <= Offset(ym, firstdow)
    ensures Week(ym, firstdow, 2, today, c) + (if c == 0 then [] else [Space]) == Spaces(3 * c)
  {
    if c == 0 {
    } else {
      BlankPrefix(ym, firstdow, today, c - 1);
      assert Spaces(3 * c) == Spaces(3 * (c - 1)) + [Space, Space, Space];
    }
  }

  lemma {:induction false} BlankSuffix(ym: YearMonth, firstdow: Weekday, line: nat, today: Date, c: nat, end: nat)
    requires 1 <= c <= end && DayAt(ym, firstdow, line, c) > Length(ym)
    ensures Week(ym, firstdow, line, today, end) == Week(ym, firstdow, line, today, c) + Spaces(3 * (end - c))
  {
    if c == end {
    } else {
      BlankSuffix(ym, firstdow, line, today, c, end - 1);
      assert Spaces(3 * (end - c)) == Spaces(3 * (end - 1 - c)) + [Space, Space, Space];
    }
  }

  // --- what is printed ------------------------------------------------------------------------------------------

  function Width(tokens: seq<Token>): nat {
    if tokens == [] then 0 else (if tokens[0] == Space then 1 else 2) + Width(tokens[1..])
  }

  lemma {:induction false} WidthAppend(a: seq<Token>, b: seq<Token>)
    ensures Width(a + b) == Width(a) + Width(b)
    decreases |a|
  {
    if a == [] {
      assert a + b == b;
    } else {
      assert (a + b)[0] == a[0] && (a + b)[1..] == a[1..] + b;
      WidthAppend(a[1..], b);
    }
  }

  /** A line of seven columns is twenty columns wide. */
  lemma {:induction false} WeekWidth(ym: YearMonth, firstdow: Weekday, line: nat, today: Date, c: nat)
    ensures Width(Week(ym, firstdow, line, today, c)) == if c == 0 then 0 else 3 * c - 1
  {
    if c == 0 {
    } else {
      WeekWidth(ym, firstdow, line, today, c - 1);
      var before, cell := Week(ym, firstdow, line, today, c - 1), Cell(ym, firstdow, line, c - 1, today);
      var separator := if c == 1 then [] else [Space];
      WidthAppend(before + separator, cell);
      WidthAppend(before, separator);
    }
  }

  /** The tokens that are not space: the cells of days. */
  function Cells(tokens: seq<Token>): seq<Token> {
    if tokens == [] then [] else (if tokens[0] == Space then [] else [tokens[0]]) + Cells(tokens[1..])
  }

  lemma {:induction false} CellsAppend(a: seq<Token>, b: seq<Token>)
    ensures Cells(a + b) == Cells(a) + Cells(b)
    decreases |a|
  {
    if a == [] {
      assert a + b == b;
    } else {
      assert (a + b)[0] == a[0] && (a + b)[1..] == a[1..] + b;
      CellsAppend(a[1..], b);
    }
  }

  /** The cells of the days `first` to `last` of a month. */
  function CellsOfDays(ym: YearMonth, today: Date, first: int, last: int): seq<Token>
    decreases last - first
  {
    if first > last then [] else CellsOfDays(ym, today, first, last - 1) + [CellFor(ym, last, today)]
  }

  function Max(a: int, b: int): int {
    if a < b then b else a
  }

  function Min(a: int, b: int): int {
    if a < b then a else b
  }

  lemma CellsOneMore(ym: YearMonth, firstdow: Weekday, line: nat, today: Date, c: nat)
    ensures Cells(Week(ym, firstdow, line, today, c + 1))
         == Cells(Week(ym, firstdow, line, today, c)) + Cells(Cell(ym, firstdow, line, c, today))
  {
    var before, cell := Week(ym, firstdow, line, today, c), Cell(ym, firstdow, line, c, today);
    var separator := if c == 0 then [] else [Space];
    CellsAppend(before + separator, cell);
    CellsAppend(before, separator);
    hide Cell;
  }

  lemma CellsOfCell(ym: YearMonth, firstdow: Weekday, line: nat, today: Date, c: nat)
    ensures var day := DayAt(ym, firstdow, line, c);
      Cells(Cell(ym, firstdow, line, c, today)) == if 1 <= day <= Length(ym) then [CellFor(ym, day, today)] else []
  {
    var day := DayAt(ym, firstdow, line, c);
    assert [Space, Space][1..] == [Space] && [Space][1..] == [];
    assert [CellFor(ym, day, today)][1..] == [];
    hide DayAt, Length;
  }

  lemma {:induction false} CellsOfWeek(ym: YearMonth, firstdow: Weekday, line: nat, today: Date, c: nat)
    ensures Cells(Week(ym, firstdow, line, today, c))
         == CellsOfDays(ym, today, Max(1, DayAt(ym, firstdow, line, 0)),
                        Min(Length(ym), DayAt(ym, firstdow, line, c) - 1))
  {
    if c > 0 {
      CellsOfWeek(ym, firstdow, line, today, c - 1);
      CellsOneMore(ym, firstdow, line, today, c - 1);
      CellsOfCell(ym, firstdow, line, today, c - 1);
      hide Cells, Week, Cell, Length, Offset, CellFor;
      var first, day := Max(1, DayAt(ym, firstdow, line, 0)), DayAt(ym, firstdow, line, c - 1);
      assert DayAt(ym, firstdow, line, c) - 1 == day;
      if 1 <= day <= Length(ym) {
        assert first <= day && Min(Length(ym), day) == day && Min(Length(ym), day - 1) == day - 1;
      }
    } else {
      hide Length, Offset;
      assert Cells(Week(ym, firstdow, line, today, 0)) == [];
    }
  }

  lemma {:induction false} CellsOfDaysAppend(ym: YearMonth, today: Date, first: int, middle: int, last: int)
    requires first - 1 <= middle <= last
    ensures CellsOfDays(ym, today, first, last)
         == CellsOfDays(ym, today, first, middle) + CellsOfDays(ym, today, middle + 1, last)
    decreases last - middle
  {
    if middle == last {
    } else {
      CellsOfDaysAppend(ym, today, first, middle, last - 1);
    }
  }

  /** What the lines from 2 up to `end` print, one after the other. */
  function WeeksTo(ym: YearMonth, firstdow: Weekday, today: Date, end: nat): seq<Token> {
    if end <= 2 then [] else WeeksTo(ym, firstdow, today, end - 1) + Week(ym, firstdow, end - 1, today, 7)
  }

  lemma {:induction false} WeeksHoldTheDays(ym: YearMonth, firstdow: Weekday, today: Date, end: nat)
    requires 2 <= end <= RowsInMonth(ym, firstdow)
    ensures Cells(WeeksTo(ym, firstdow, today, end))
         == CellsOfDays(ym, today, 1, Min(Length(ym), DayAt(ym, firstdow, end, 0) - 1))
  {
    if end == 2 {
    } else {
      hide Cells, Week, Length, Offset;
      WeeksHoldTheDays(ym, firstdow, today, end - 1);
      CellsAppend(WeeksTo(ym, firstdow, today, end - 1), Week(ym, firstdow, end - 1, today, 7));
      CellsOfWeek(ym, firstdow, end - 1, today, 7);
      if end > 3 {
        WeekForLineStartsTheLine(ym, firstdow, end - 1);
        CellsOfDaysAppend(ym, today, 1, DayAt(ym, firstdow, end - 1, 0) - 1,
                          Min(Length(ym), DayAt(ym, firstdow, end, 0) - 1));
      }
    }
  }

  /** The lines 2 to rows - 1 hold every day of the month exactly once, in order; today, if it is one of them, and no
      other is marked. */
  lemma MonthIsPrintedOnce(ym: YearMonth, firstdow: Weekday, today: Date)
    ensures Cells(WeeksTo(ym, firstdow, today, RowsInMonth(ym, firstdow)))
         == seq(Length(ym), i requires 0 <= i < Length(ym) =>
              if today.ym == ym && today.day == i + 1 then Today else Day(i + 1))
  {
    var rows := RowsInMonth(ym, firstdow);
    WeeksHoldTheDays(ym, firstdow, today, rows);
    assert DayAt(ym, firstdow, rows, 0) > Length(ym);
    DaysListed(ym, today, Length(ym));
  }

  lemma {:induction false} DaysListed(ym: YearMonth, today: Date, n: nat)
    ensures CellsOfDays(ym, today, 1, n)
         == seq(n, i requires 0 <= i < n => if today.ym == ym && today.day == i + 1 then Today else Day(i + 1))
  {
    if n == 0 {
    } else {
      DaysListed(ym, today, n - 1);
    }
  }

  /** Each day stands in the column of its day of the week: the text before it is three columns wide for each
      column passed. */
  lemma DayStandsInItsColumn(ym: YearMonth, firstdow: Weekday, today: Date, day: int)
    returns (line: nat, before: seq<Token>, after: seq<Token>)
    requires 1 <= day <= Length(ym)
    ensures line == 2 + (Offset(ym, firstdow) + day - 1) / 7 && 2 <= line < RowsInMonth(ym, firstdow)
    ensures Week(ym, firstdow, line, today, 7) == before + [CellFor(ym, day, today)] + after
    ensures Width(before) == 3 * Minus(WeekdayOf(ym, day), firstdow)
  {
    var at := Offset(ym, firstdow) + day - 1;
    line := 2 + at / 7;
    var c := at % 7;
    assert DayAt(ym, firstdow, line, c) == day && line < RowsInMonth(ym, firstdow);
    ColumnOfDay(ym, firstdow, day);
    hide Length, Offset, DayAt, RowsInMonth, WeekdayOf, Week, CellFor, Minus;
    before := Week(ym, firstdow, line, today, c) + if c == 0 then [] else [Space];
    WidthBeforeColumn(ym, firstdow, line, today, c);
    DayAdded(ym, firstdow, line, today, c);
    after := WeekGrows(ym, firstdow, line, today, c + 1, 7);
  }

  lemma WidthBeforeColumn(ym: YearMonth, firstdow: Weekday, line: nat, today: Date, c: nat)
    ensures Width(Week(ym, firstdow, line, today, c) + if c == 0 then [] else [Space]) == 3 * c
  {
    WeekWidth(ym, firstdow, line, today, c);
    WidthAppend(Week(ym, firstdow, line, today, c), [Space]);
  }

  lemma {:induction false} WeekGrows(ym: YearMonth, firstdow: Weekday, line: nat, today: Date, c: nat, end: nat)
    returns (rest: seq<Token>)
    requires c <= end
    ensures Week(ym, firstdow, line, today, end) == Week(ym, firstdow, line, today, c) + rest
  {
    if c == end {
      rest := [];
    } else {
      var shorter := WeekGrows(ym, firstdow, line, today, c, end - 1);
      rest := shorter + (if end == 1 then [] else [Space]) + Cell(ym, firstdow, line, end - 1, today);
    }
  }

  lemma MinusIsModular(a: Weekday, b: Weekday)
    ensures Minus(a, b) == (a - b) % 7
  {
  }

  lemma ModularSum(a: int, b: int)
    ensures (a % 7 + b) % 7 == (a + b) % 7
  {
  }

  lemma ColumnOfDay(ym: YearMonth, firstdow: Weekday, day: int)
    ensures (Offset(ym, firstdow) + day - 1) % 7 == Minus(WeekdayOf(ym, day), firstdow)
  {
    var before, shift: int := DaysBefore(ym), firstdow;
    hide DaysBefore, Minus;
    MinusIsModular(WeekdayOf(ym, 1), firstdow);
    MinusIsModular(WeekdayOf(ym, day), firstdow);
    ModularSum(before + 6, -shift);
    ModularSum(before + 6 - shift, day - 1);
    ModularSum(before + day + 5, -shift);
    assert before + day + 5 - shift == before + 6 - shift + (day - 1);
  }

  /** The next month's first day stands in the column after that of this month's last, or in the first. */
  lemma ColumnsTile(ym: YearMonth, firstdow: Weekday)
    ensures Offset(NextMonth(ym), firstdow) == Following(Minus(WeekdayOf(ym, Length(ym)), firstdow))
  {
    MonthsTile(ym);
    var before, n := DaysBefore(ym), Length(ym);
    assert WeekdayOf(NextMonth(ym), 1) == Mod7(before + n + 6) && WeekdayOf(ym, n) == Mod7(before + n + 5) by {
      hide DaysBefore, Length;
    }
    hide DaysBefore, Length, WeekdayOf;
    NextWeekday(before + n + 5, firstdow);
  }

  lemma NextWeekday(day: int, firstdow: Weekday)
    ensures Minus(Mod7(day + 1), firstdow) == Following(Minus(Mod7(day), firstdow))
  {
  }
}
