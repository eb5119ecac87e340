/** The layout of the calendar tooltip: a month, or the months of a year in rows, made of the lines of the months.
 */
module CalendarPage {
  import opened Calendar
  import opened Wrappers

  type ColumnCount = c: nat | c == 1 || c == 2 || c == 3 || c == 4 || c == 6 || c == 12 witness 3

  /** `factor` is the number of months, or years, per scroll step; `today` is the format configured for today's day,
      as what it makes of each day. */
  datatype Config = Config(columns: ColumnCount, firstdow: Weekday, factor: int, today: Option<int -> Piece>)

  datatype Period = MonthOf(ym: YearMonth) | YearOf(year: int)

  /** What the text is made of: the padded title lines, which depend on the locale, cells, line ends, a title line
      in its configured format, and today's day in its own. */
  datatype Piece =
    | Heading(line: nat, ym: YearMonth)
    | Cell(token: Token)
    | Newline
    | Styled(line: nat, body: seq<Piece>)
    | TodayText(text: string)

  type Text = seq<Piece>

  // --- the layout -------------------------------------------------------------------------------------------

  function YearIn(period: Period): int {
    match period
    case MonthOf(ym) => ym.year
    case YearOf(year) => year
  }

  predicate Shows(period: Period, ym: YearMonth) {
    match period
    case MonthOf(shown) => ym == shown
    case YearOf(year) => ym.year == year
  }

  /** The rows of months in a year. */
  function MaxRows(columns: ColumnCount): nat {
    match columns
    case 1 => 12
    case 2 => 6
    case 3 => 4
    case 4 => 3
    case 6 => 2
    case _ => 1
  }

  lemma MaxRowsIsQuotient(columns: ColumnCount)
    ensures MaxRows(columns) == 12 / columns && 12 % columns == 0
  {
  }

  lemma MonthInRange(columns: ColumnCount, row: nat, col: nat)
    requires row < MaxRows(columns) && col < columns
    ensures 1 <= row * columns + col + 1 <= 12
  {
  }

  function MonthAt(cfg: Config, period: Period, row: nat, col: nat): YearMonth
    requires row < MaxRows(cfg.columns) && col < cfg.columns
  {
    MonthInRange(cfg.columns, row, col);
    YearMonth(YearIn(period), row * cfg.columns + col + 1)
  }

  /** The lines needed for the first `c` months of a row. */
  function Height(cfg: Config, period: Period, row: nat, c: nat): nat
    requires row < MaxRows(cfg.columns) && c <= cfg.columns
  {
    if c == 0 then 0
    else
      var ym := MonthAt(cfg, period, row, c - 1);
      var lines := if Shows(period, ym) then RowsInMonth(ym, cfg.firstdow) else 0;
      if Height(cfg, period, row, c - 1) < lines then lines else Height(cfg, period, row, c - 1)
  }

  /** The characters of a line before today's marker is replaced: "{today}" has seven. */
  function RawLength(tokens: seq<Token>): nat {
    if tokens == [] then 0
    else (match tokens[0] case Day(_) => 2 case Today => 7 case Space => 1) + RawLength(tokens[1..])
  }

  const MONTH_COLUMNS := 20

  function Padded(tokens: seq<Token>): seq<Token> {
    tokens + Spaces(if RawLength(tokens) < MONTH_COLUMNS then MONTH_COLUMNS - RawLength(tokens) else 0)
  }

  function InCells(tokens: seq<Token>): Text {
    seq(|tokens|, i requires 0 <= i < |tokens| => Cell(tokens[i]))
  }

  function WeekOrNothing(cfg: Config, today: Date, ym: YearMonth, line: nat): seq<Token> {
    if line < RowsInMonth(ym, cfg.firstdow) then Week(ym, cfg.firstdow, line, today, 7) else []
  }

  function LineOf(cfg: Config, today: Date, ym: YearMonth, line: nat): Text {
    if line < 2 then [Heading(line, ym)] else InCells(Padded(WeekOrNothing(cfg, today, ym, line)))
  }

  /** The first `c` months of a row, next to each other. */
  function Across(cfg: Config, today: Date, period: Period, row: nat, line: nat, c: nat): Text
    requires row < MaxRows(cfg.columns) && c <= cfg.columns
  {
    if c == 0 then []
    else
      var ym := MonthAt(cfg, period, row, c - 1);
      Across(cfg, today, period, row, line, c - 1)
      + if Shows(period, ym) then
          (if c > 1 && period.YearOf? then InCells(Spaces(3)) else []) + LineOf(cfg, today, ym, line)
        else []
  }

  function Finished(line: nat, text: Text): Text {
    if line < 2 then [Styled(line, text)] else text
  }

  /** A line end follows line `n - 1` of a row of months, but not the last line of the text. */
  function EndOfLine(cfg: Config, period: Period, row: nat, n: nat): Text
    requires row < MaxRows(cfg.columns)
  {
    if n != Height(cfg, period, row, cfg.columns) || (row + 1 != MaxRows(cfg.columns) && period.YearOf?) then [Newline]
    else []
  }

  /** An empty line separates the rows of a year. */
  function EndOfRow(cfg: Config, period: Period, n: nat): Text {
    if n != MaxRows(cfg.columns) && period.YearOf? then [Newline] else []
  }

  /** The first `n` lines of a row of months. */
  function Down(cfg: Config, today: Date, period: Period, row: nat, n: nat): Text
    requires row < MaxRows(cfg.columns) && n <= Height(cfg, period, row, cfg.columns)
  {
    if n == 0 then []
    else
      Down(cfg, today, period, row, n - 1) + Finished(n - 1, Across(cfg, today, period, row, n - 1, cfg.columns))
      + EndOfLine(cfg, period, row, n)
  }

  /** The first `n` rows of months. */
  function Page(cfg: Config, today: Date, period: Period, n: nat): Text
    requires n <= MaxRows(cfg.columns)
  {
    if n == 0 then []
    else
      Page(cfg, today, period, n - 1) + Down(cfg, today, period, n - 1, Height(cfg, period, n - 1, cfg.columns))
      + EndOfRow(cfg, period, n)
  }

  /** Today's marker replaced. Titles hold no marker. */
  function Replaced(text: Text, marker: Piece): Text {
    seq(|text|, i requires 0 <= i < |text| => if text[i] == Cell(Today) then marker else text[i])
  }

  /** What the marker is replaced by: the day of the shown date, which is today's, in today's format if any. */
  function MarkerText(cfg: Config, day: int): Piece {
    match cfg.today
    case Some(format) => format(day)
    case None => Cell(Day(day))
  }

  /** Today's format makes something else of the day than any other day is printed as. */
  predicate Visible(cfg: Config, day: int) {
    MarkerText(cfg, day) != Cell(Day(day))
  }

  /** The text of a period, rendered anew. */
  function Fresh(cfg: Config, today: Date, period: Period): Text {
    Replaced(Page(cfg, today, period, MaxRows(cfg.columns)), MarkerText(cfg, today.day))
  }

  // --- rendering ----------------------------------------------------------------------------------------------

  method Render(cfg: Config, today: Date, period: Period) returns (text: Text)
    ensures text == Fresh(cfg, today, period)
  {
    hide Down, Height, Replaced, MarkerText;
    var maxRows := MaxRows(cfg.columns);
    var tmp: Text := [];
    for row := 0 to maxRows
      invariant tmp == Page(cfg, today, period, row)
    {
      var block := RenderRow(cfg, today, period, row);
      tmp := tmp + block;
      if row + 1 != maxRows && period.YearOf? {
        tmp := tmp + [Newline];
      }
    }
    text := ReplaceToday(tmp, MarkerText(cfg, today.day));
  }

  method ReplaceToday(tmp: Text, marker: Piece) returns (text: Text)
    ensures text == Replaced(tmp, marker)
  {
    text := [];
    for i := 0 to |tmp|
      invariant |text| == i && forall k :: 0 <= k < i ==> text[k] == if tmp[k] == Cell(Today) then marker else tmp[k]
    {
      text := text + [if tmp[i] == Cell(Today) then marker else tmp[i]];
    }
  }

  method RenderRow(cfg: Config, today: Date, period: Period, row: nat) returns (tmp: Text)
    requires row < MaxRows(cfg.columns)
    ensures tmp == Down(cfg, today, period, row, Height(cfg, period, row, cfg.columns))
  {
    tmp := [];
    hide Across, Height, MaxRows;
    var lines := LinesNeeded(cfg, period, row);
    for line := 0 to lines
      invariant tmp == Down(cfg, today, period, row, line)
    {
      var os := RenderLine(cfg, today, period, row, line);
      var finished := if line < 2 then [Styled(line, os)] else os;
      tmp := tmp + finished;
      if line + 1 != lines || (row + 1 != MaxRows(cfg.columns) && period.YearOf?) {
        tmp := tmp + [Newline];
      }
    }
  }

  method LinesNeeded(cfg: Config, period: Period, row: nat) returns (lines: nat)
    requires row < MaxRows(cfg.columns)
    ensures lines == Height(cfg, period, row, cfg.columns) <= 8
  {
    lines := 0;
    for col := 0 to cfg.columns
      invariant lines == Height(cfg, period, row, col) <= 8
    {
      var ym := MonthAt(cfg, period, row, col);
      var needed := if Shows(period, ym) then RowsInMonth(ym, cfg.firstdow) else 0;
      if lines < needed {
        lines := needed;
      }
    }
  }

  method RenderLine(cfg: Config, today: Date, period: Period, row: nat, line: nat) returns (os: Text)
    requires row < MaxRows(cfg.columns) && line < 8
    ensures os == Across(cfg, today, period, row, line, cfg.columns)
  {
    os := [];
    hide MonthAt, Shows, LineOf, InCells;
    for col := 0 to cfg.columns
      invariant os == Across(cfg, today, period, row, line, col)
    {
      var ym := MonthAt(cfg, period, row, col);
      if Shows(period, ym) {
        if col != 0 && period.YearOf? {
          os := os + InCells(Spaces(3));
        }
        var calendarLine := RenderMonthLine(cfg, today, ym, line);
        os := os + calendarLine;
      }
    }
  }

  method RenderMonthLine(cfg: Config, today: Date, ym: YearMonth, line: nat) returns (text: Text)
    requires line < 8
    ensures text == LineOf(cfg, today, ym, line)
  {
    hide RowsInMonth, Week, Padded, InCells;
    if line < 2 {
      text := [Heading(line, ym)];
    } else {
      var tokens := GetCalendarLine(today, ym, line, cfg.firstdow);
      text := InCells(Padded(tokens));
    }
  }

  // --- the text does not depend on the day -------------------------------------------------------------------

  /** No day at all. */
  const NO_DAY := Date(YearMonth(0, 1), 0)

  /** The text of a period without a mark for today. */
  function Plain(cfg: Config, period: Period): Text {
    Page(cfg, NO_DAY, period, MaxRows(cfg.columns))
  }

  lemma ReplacedAppend(a: Text, b: Text, marker: Piece)
    ensures Replaced(a + b, marker) == Replaced(a, marker) + Replaced(b, marker)
  {
  }

  lemma NothingToReplace(text: Text, marker: Piece)
    requires Cell(Today) !in text
    ensures Replaced(text, marker) == text
  {
  }

  lemma InCellsAppend(a: seq<Token>, b: seq<Token>)
    ensures InCells(a + b) == InCells(a) + InCells(b)
  {
  }

  /** A week with today's marker replaced by the day's number is the week without a mark. */
  lemma {:induction false} WeekUnmarked(ym: YearMonth, firstdow: Weekday, line: nat, today: Date, c: nat)
    ensures Replaced(InCells(Week(ym, firstdow, line, today, c)), Cell(Day(today.day)))
        == InCells(Week(ym, firstdow, line, NO_DAY, c))
  {
    if c == 0 {
    } else {
      WeekUnmarked(ym, firstdow, line, today, c - 1);
      CellUnmarked(ym, firstdow, line, today, c - 1);
      var marker, separator := Cell(Day(today.day)), if c == 1 then [] else [Space];
      AppendThree(Week(ym, firstdow, line, today, c - 1), separator, Calendar.Cell(ym, firstdow, line, c - 1, today),
                  marker);
      AppendThree(Week(ym, firstdow, line, NO_DAY, c - 1), separator,
                  Calendar.Cell(ym, firstdow, line, c - 1, NO_DAY), marker);
      NothingToReplace(InCells(separator), marker);
      hide Replaced, InCells, Calendar.Cell;
    }
  }

  lemma AppendThree(a: seq<Token>, b: seq<Token>, c: seq<Token>, marker: Piece)
    ensures InCells(a + b + c) == InCells(a) + InCells(b) + InCells(c)
    ensures Replaced(InCells(a + b + c), marker)
         == Replaced(InCells(a), marker) + Replaced(InCells(b), marker) + Replaced(InCells(c), marker)
  {
    InCellsAppend(a + b, c);
    InCellsAppend(a, b);
    ReplacedAppend(InCells(a) + InCells(b), InCells(c), marker);
    ReplacedAppend(InCells(a), InCells(b), marker);
  }

  lemma CellUnmarked(ym: YearMonth, firstdow: Weekday, line: nat, today: Date, c: nat)
    ensures Replaced(InCells(Calendar.Cell(ym, firstdow, line, c, today)), Cell(Day(today.day)))
         == InCells(Calendar.Cell(ym, firstdow, line, c, NO_DAY))
  {
    hide DayAt, Length;
  }

  lemma {:induction false} RawIsWideEnough(tokens: seq<Token>)
    ensures RawLength(tokens) >= Width(tokens)
  {
    if tokens == [] {
    } else {
      RawIsWideEnough(tokens[1..]);
    }
  }

  /** A week already fills its columns: it is not padded, although its marker is longer than the day. */
  lemma WeekIsNotPadded(ym: YearMonth, firstdow: Weekday, line: nat, today: Date)
    ensures Padded(Week(ym, firstdow, line, today, 7)) == Week(ym, firstdow, line, today, 7)
  {
    WeekWidth(ym, firstdow, line, today, 7);
    RawIsWideEnough(Week(ym, firstdow, line, today, 7));
    NoSpaces();
    hide RawLength, Week, Spaces;
  }

  lemma LineUnmarked(cfg: Config, today: Date, ym: YearMonth, line: nat)
    ensures Replaced(LineOf(cfg, today, ym, line), Cell(Day(today.day))) == LineOf(cfg, NO_DAY, ym, line)
  {
    WeekIsNotPadded(ym, cfg.firstdow, line, today);
    WeekIsNotPadded(ym, cfg.firstdow, line, NO_DAY);
    WeekUnmarked(ym, cfg.firstdow, line, today, 7);
    hide Week, RowsInMonth, RawLength;
    if line >= 2 && line >= RowsInMonth(ym, cfg.firstdow) {
      NothingToReplace(InCells(Padded([])), Cell(Day(today.day)));
    }
  }

  lemma {:induction false} AcrossUnmarked(cfg: Config, today: Date, period: Period, row: nat, line: nat, c: nat)
    requires row < MaxRows(cfg.columns) && c <= cfg.columns
    ensures Replaced(Across(cfg, today, period, row, line, c), Cell(Day(today.day)))
        == Across(cfg, NO_DAY, period, row, line, c)
  {
    var marker := Cell(Day(today.day));
    if c == 0 {
    } else {
      hide LineOf, Shows, MonthAt;
      AcrossUnmarked(cfg, today, period, row, line, c - 1);
      var ym := MonthAt(cfg, period, row, c - 1);
      LineUnmarked(cfg, today, ym, line);
      var separator := if c > 1 && period.YearOf? then InCells(Spaces(3)) else [];
      NothingToReplace(separator, marker);
      ReplacedAppend(separator, LineOf(cfg, today, ym, line), marker);
      ReplacedAppend(Across(cfg, today, period, row, line, c - 1),
                     if Shows(period, ym) then separator + LineOf(cfg, today, ym, line) else [], marker);
      hide Replaced, InCells, Spaces;
      NothingToReplace([], marker);
    }
  }

  lemma TitlesAreUnmarked(cfg: Config, today: Date, period: Period, row: nat, line: nat, c: nat)
    requires row < MaxRows(cfg.columns) && c <= cfg.columns && line < 2
    ensures Across(cfg, today, period, row, line, c) == Across(cfg, NO_DAY, period, row, line, c)
  {
  }

  lemma ReplacedThree(a: Text, b: Text, c: Text, marker: Piece)
    ensures Replaced(a + b + c, marker) == Replaced(a, marker) + Replaced(b, marker) + Replaced(c, marker)
  {
    ReplacedAppend(a + b, c, marker);
    ReplacedAppend(a, b, marker);
  }

  lemma FinishedUnmarked(cfg: Config, today: Date, period: Period, row: nat, line: nat)
    requires row < MaxRows(cfg.columns)
    ensures Replaced(Finished(line, Across(cfg, today, period, row, line, cfg.columns)), Cell(Day(today.day)))
         == Finished(line, Across(cfg, NO_DAY, period, row, line, cfg.columns))
  {
    if line < 2 {
      TitlesAreUnmarked(cfg, today, period, row, line, cfg.columns);
      hide Across;
      NothingToReplace([Styled(line, Across(cfg, NO_DAY, period, row, line, cfg.columns))], Cell(Day(today.day)));
    } else {
      AcrossUnmarked(cfg, today, period, row, line, cfg.columns);
    }
  }

  lemma EndsAreUnmarked(cfg: Config, period: Period, row: nat, n: nat, marker: Piece)
    ensures row < MaxRows(cfg.columns) ==>
      Replaced(EndOfLine(cfg, period, row, n), marker) == EndOfLine(cfg, period, row, n)
    ensures Replaced(EndOfRow(cfg, period, n), marker) == EndOfRow(cfg, period, n)
    ensures Replaced([], marker) == []
  {
    hide Height, MaxRows;
  }

  lemma {:induction false} DownUnmarked(cfg: Config, today: Date, period: Period, row: nat, n: nat)
    requires row < MaxRows(cfg.columns) && n <= Height(cfg, period, row, cfg.columns)
    ensures Replaced(Down(cfg, today, period, row, n), Cell(Day(today.day))) == Down(cfg, NO_DAY, period, row, n)
  {
    hide Across, Height, Finished, Replaced, EndOfLine, EndOfRow, MaxRows;
    var marker := Cell(Day(today.day));
    EndsAreUnmarked(cfg, period, row, n, marker);
    if n == 0 {
    } else {
      DownUnmarked(cfg, today, period, row, n - 1);
      FinishedUnmarked(cfg, today, period, row, n - 1);
      ReplacedThree(Down(cfg, today, period, row, n - 1),
                    Finished(n - 1, Across(cfg, today, period, row, n - 1, cfg.columns)),
                    EndOfLine(cfg, period, row, n), marker);
    }
  }

  lemma {:induction false} PageUnmarked(cfg: Config, today: Date, period: Period, n: nat)
    requires n <= MaxRows(cfg.columns)
    ensures Replaced(Page(cfg, today, period, n), Cell(Day(today.day))) == Page(cfg, NO_DAY, period, n)
  {
    hide Down, Height, Replaced, EndOfLine, EndOfRow, MaxRows;
    var marker := Cell(Day(today.day));
    EndsAreUnmarked(cfg, period, 0, n, marker);
    if n == 0 {
    } else {
      PageUnmarked(cfg, today, period, n - 1);
      var lines := Height(cfg, period, n - 1, cfg.columns);
      DownUnmarked(cfg, today, period, n - 1, lines);
      ReplacedThree(Page(cfg, today, period, n - 1), Down(cfg, today, period, n - 1, lines),
                    EndOfRow(cfg, period, n), marker);
    }
  }

  /** Without a format for today, the text of a period is the same on every day. */
  lemma FreshIsPlain(cfg: Config, today: Date, period: Period)
    requires cfg.today.None?
    ensures Fresh(cfg, today, period) == Plain(cfg, period)
  {
    PageUnmarked(cfg, today, period, MaxRows(cfg.columns));
  }

  // --- where a month is --------------------------------------------------------------------------------------------

  lemma PlaceOf(cfg: Config, period: Period, ym: YearMonth) returns (row: nat, col: nat)
    requires Shows(period, ym)
    ensures row < MaxRows(cfg.columns) && col < cfg.columns && MonthAt(cfg, period, row, col) == ym
  {
    MaxRowsIsQuotient(cfg.columns);
    row, col := (ym.month - 1) / cfg.columns, (ym.month - 1) % cfg.columns;
  }

  lemma {:induction false} HighEnough(cfg: Config, period: Period, row: nat, col: nat, c: nat)
    requires row < MaxRows(cfg.columns) && col < c <= cfg.columns && Shows(period, MonthAt(cfg, period, row, col))
    ensures Height(cfg, period, row, c) >= RowsInMonth(MonthAt(cfg, period, row, col), cfg.firstdow)
  {
    if col == c - 1 {
    } else {
      HighEnough(cfg, period, row, col, c - 1);
    }
  }

  lemma {:induction false} AcrossSplit(cfg: Config, today: Date, period: Period, row: nat, line: nat, col: nat, c: nat)
    returns (right: Text)
    requires row < MaxRows(cfg.columns) && col < c <= cfg.columns && Shows(period, MonthAt(cfg, period, row, col))
    ensures Across(cfg, today, period, row, line, c)
         == LeftOf(cfg, today, period, row, line, col) + LineOf(cfg, today, MonthAt(cfg, period, row, col), line)
            + right
  {
    hide LineOf, Shows, MonthAt, InCells, Spaces, MaxRows;
    if col == c - 1 {
      right := [];
    } else {
      var nearer := AcrossSplit(cfg, today, period, row, line, col, c - 1);
      var last := MonthInRow(cfg, today, period, row, line, c - 1);
      hide LeftOf;
      right := nearer + last;
    }
  }

  /** What a month adds to a line of its row. */
  function MonthInRow(cfg: Config, today: Date, period: Period, row: nat, line: nat, col: nat): Text
    requires row < MaxRows(cfg.columns) && col < cfg.columns
  {
    var ym := MonthAt(cfg, period, row, col);
    if Shows(period, ym) then
      (if col > 0 && period.YearOf? then InCells(Spaces(3)) else []) + LineOf(cfg, today, ym, line)
    else []
  }

  /** What stands to the left of a month's line. */
  function LeftOf(cfg: Config, today: Date, period: Period, row: nat, line: nat, col: nat): Text
    requires row < MaxRows(cfg.columns) && col < cfg.columns
  {
    Across(cfg, today, period, row, line, col) + if col > 0 && period.YearOf? then InCells(Spaces(3)) else []
  }

  /** The columns that the cells of a text take. */
  function Columns(text: Text): nat {
    if text == [] then 0
    else (match text[0] case Cell(Space) => 1 case Cell(_) => 2 case _ => 0) + Columns(text[1..])
  }

  lemma {:induction false} ColumnsAppend(a: Text, b: Text)
    ensures Columns(a + b) == Columns(a) + Columns(b)
    decreases |a|
  {
    if a == [] {
      assert a + b == b;
    } else {
      assert (a + b)[0] == a[0] && (a + b)[1..] == a[1..] + b;
      ColumnsAppend(a[1..], b);
    }
  }

  lemma {:induction false} ColumnsOfCells(tokens: seq<Token>)
    ensures Columns(InCells(tokens)) == Width(tokens)
  {
    if tokens == [] {
    } else {
      assert InCells(tokens)[1..] == InCells(tokens[1..]);
      ColumnsOfCells(tokens[1..]);
    }
  }

  lemma {:induction false} WidthOfSpaces(n: nat)
    ensures Width(Spaces(n)) == n
  {
    if n == 0 {
    } else {
      assert Spaces(n)[1..] == Spaces(n - 1);
      WidthOfSpaces(n - 1);
    }
  }

  /** Every line of a month below its titles, printed or padded, takes the month's columns. */
  lemma LineColumns(cfg: Config, today: Date, ym: YearMonth, line: nat)
    requires line >= 2
    ensures Columns(LineOf(cfg, today, ym, line)) == MONTH_COLUMNS
  {
    var tokens := WeekOrNothing(cfg, today, ym, line);
    ColumnsOfCells(Padded(tokens));
    if line < RowsInMonth(ym, cfg.firstdow) {
      WeekIsNotPadded(ym, cfg.firstdow, line, today);
      WeekWidth(ym, cfg.firstdow, line, today, 7);
    } else {
      assert Padded([]) == Spaces(MONTH_COLUMNS);
      WidthOfSpaces(MONTH_COLUMNS);
    }
    hide Week, RowsInMonth, Padded, InCells, Width, Spaces;
  }

  lemma SeparatorColumns()
    ensures Columns(InCells(Spaces(3))) == 3
  {
    ColumnsOfCells(Spaces(3));
    WidthOfSpaces(3);
  }

  lemma {:induction false} AcrossColumns(cfg: Config, today: Date, year: int, row: nat, line: nat, c: nat)
    requires row < MaxRows(cfg.columns) && c <= cfg.columns && line >= 2
    ensures Columns(Across(cfg, today, YearOf(year), row, line, c)) == if c == 0 then 0 else (MONTH_COLUMNS + 3) * c - 3
  {
    if c == 0 {
    } else {
      AcrossColumns(cfg, today, year, row, line, c - 1);
      var ym := MonthAt(cfg, YearOf(year), row, c - 1);
      LineColumns(cfg, today, ym, line);
      SeparatorColumns();
      hide LineOf, MaxRows, InCells, Spaces, Columns;
      var separator := if c > 1 then InCells(Spaces(3)) else [];
      NoColumns();
      ColumnsAppend(separator, LineOf(cfg, today, ym, line));
      ColumnsAppend(Across(cfg, today, YearOf(year), row, line, c - 1), separator + LineOf(cfg, today, ym, line));
    }
  }

  lemma NoColumns()
    ensures Columns([]) == 0
  {
  }

  /** In a year the column where a month's lines start depends on its place only. */
  lemma LeftColumns(cfg: Config, today: Date, year: int, row: nat, line: nat, col: nat)
    requires row < MaxRows(cfg.columns) && col < cfg.columns && line >= 2
    ensures Columns(LeftOf(cfg, today, YearOf(year), row, line, col)) == (MONTH_COLUMNS + 3) * col
  {
    AcrossColumns(cfg, today, year, row, line, col);
    SeparatorColumns();
    NoColumns();
    ColumnsAppend(Across(cfg, today, YearOf(year), row, line, col), if col > 0 then InCells(Spaces(3)) else []);
  }

  // --- where a line is ---------------------------------------------------------------------------------------

  /** The line ends of a text. */
  function LineEnds(text: Text): nat {
    if text == [] then 0 else (if text[0] == Newline then 1 else 0) + LineEnds(text[1..])
  }

  lemma {:induction false} LineEndsAppend(a: Text, b: Text)
    ensures LineEnds(a + b) == LineEnds(a) + LineEnds(b)
    decreases |a|
  {
    if a == [] {
      assert a + b == b;
    } else {
      assert (a + b)[0] == a[0] && (a + b)[1..] == a[1..] + b;
      LineEndsAppend(a[1..], b);
    }
  }

  lemma {:induction false} NoLineEnds(text: Text)
    requires Newline !in text
    ensures LineEnds(text) == 0
  {
    if text == [] {
    } else {
      NoLineEnds(text[1..]);
    }
  }

  lemma {:induction false} AcrossIsOneLine(cfg: Config, today: Date, period: Period, row: nat, line: nat, c: nat)
    requires row < MaxRows(cfg.columns) && c <= cfg.columns
    ensures Newline !in Across(cfg, today, period, row, line, c)
  {
    hide Padded, WeekOrNothing, Shows, MonthAt, MaxRows, Spaces;
    if c == 0 {
    } else {
      AcrossIsOneLine(cfg, today, period, row, line, c - 1);
    }
  }

  lemma FinishedIsOneLine(cfg: Config, today: Date, period: Period, row: nat, line: nat)
    requires row < MaxRows(cfg.columns)
    ensures LineEnds(Finished(line, Across(cfg, today, period, row, line, cfg.columns))) == 0
  {
    AcrossIsOneLine(cfg, today, period, row, line, cfg.columns);
    NoLineEnds(Finished(line, Across(cfg, today, period, row, line, cfg.columns)));
    hide Across;
  }

  /** The text is empty or ends with a line end. */
  predicate Complete(text: Text) {
    text == [] || text[|text| - 1] == Newline
  }

  /** The text is empty or starts with a line end. */
  predicate Continues(text: Text) {
    text == [] || text[0] == Newline
  }

  lemma {:induction false} DownLines(cfg: Config, today: Date, year: int, row: nat, n: nat)
    requires row < MaxRows(cfg.columns) && n <= Height(cfg, YearOf(year), row, cfg.columns)
    requires n < Height(cfg, YearOf(year), row, cfg.columns) || row + 1 < MaxRows(cfg.columns)
    ensures LineEnds(Down(cfg, today, YearOf(year), row, n)) == n && Complete(Down(cfg, today, YearOf(year), row, n))
  {
    hide Across, Height, Finished, MaxRows;
    if n == 0 {
    } else {
      DownLines(cfg, today, year, row, n - 1);
      FinishedIsOneLine(cfg, today, YearOf(year), row, n - 1);
      var above := Down(cfg, today, YearOf(year), row, n - 1);
      var line := Finished(n - 1, Across(cfg, today, YearOf(year), row, n - 1, cfg.columns));
      assert EndOfLine(cfg, YearOf(year), row, n) == [Newline] && LineEnds([Newline]) == 1;
      LineEndsAppend(above + line, [Newline]);
      LineEndsAppend(above, line);
    }
  }

  lemma {:induction false} DownSplit(cfg: Config, today: Date, period: Period, row: nat, line: nat, n: nat)
    returns (below: Text)
    requires row < MaxRows(cfg.columns) && line < n <= Height(cfg, period, row, cfg.columns)
    ensures Down(cfg, today, period, row, n)
         == Down(cfg, today, period, row, line) + Finished(line, Across(cfg, today, period, row, line, cfg.columns))
            + below
    ensures Continues(below)
    ensures below == [] ==>
      line + 1 == n == Height(cfg, period, row, cfg.columns) && !(row + 1 != MaxRows(cfg.columns) && period.YearOf?)
  {
    hide Across, Height, Finished, MaxRows;
    if line == n - 1 {
      below := EndOfLine(cfg, period, row, n);
    } else {
      below := DownSplit(cfg, today, period, row, line, n - 1);
      below := below + Finished(n - 1, Across(cfg, today, period, row, n - 1, cfg.columns))
          + EndOfLine(cfg, period, row, n);
    }
  }

  /** In a year, the line that a row of months starts at: an empty line separates the rows. */
  function RowStart(cfg: Config, year: int, row: nat): nat
    requires row <= MaxRows(cfg.columns)
  {
    if row == 0 then 0 else RowStart(cfg, year, row - 1) + Height(cfg, YearOf(year), row - 1, cfg.columns) + 1
  }

  lemma {:induction false} PageLines(cfg: Config, today: Date, year: int, n: nat)
    requires n < MaxRows(cfg.columns)
    ensures LineEnds(Page(cfg, today, YearOf(year), n)) == RowStart(cfg, year, n)
      && Complete(Page(cfg, today, YearOf(year), n))
  {
    hide Down, Height, MaxRows;
    if n == 0 {
    } else {
      PageLines(cfg, today, year, n - 1);
      var lines := Height(cfg, YearOf(year), n - 1, cfg.columns);
      DownLines(cfg, today, year, n - 1, lines);
      var above, block := Page(cfg, today, YearOf(year), n - 1), Down(cfg, today, YearOf(year), n - 1, lines);
      assert EndOfRow(cfg, YearOf(year), n) == [Newline] && LineEnds([Newline]) == 1;
      LineEndsAppend(above + block, [Newline]);
      LineEndsAppend(above, block);
    }
  }

  lemma {:induction false} PageSplit(cfg: Config, today: Date, period: Period, row: nat, n: nat) returns (rest: Text)
    requires row < n <= MaxRows(cfg.columns)
    ensures Page(cfg, today, period, n)
         == Page(cfg, today, period, row) + Down(cfg, today, period, row, Height(cfg, period, row, cfg.columns)) + rest
    ensures period.YearOf? ==> Continues(rest) && (row + 1 == MaxRows(cfg.columns) ==> rest == [])
    ensures period.YearOf? && row + 1 != MaxRows(cfg.columns) ==> rest != []
  {
    hide Down, Height, MaxRows;
    if row == n - 1 {
      rest := EndOfRow(cfg, period, n);
    } else {
      rest := PageSplit(cfg, today, period, row, n - 1);
      rest := rest + Down(cfg, today, period, n - 1, Height(cfg, period, n - 1, cfg.columns))
          + EndOfRow(cfg, period, n);
    }
  }

  /** Where a line of a row of months stands in a year: `above` are the whole lines before it. */
  lemma RowLineStandsInYear(cfg: Config, today: Date, year: int, row: nat, line: nat)
    returns (above: Text, below: Text)
    requires row < MaxRows(cfg.columns) && line < Height(cfg, YearOf(year), row, cfg.columns)
    ensures Page(cfg, today, YearOf(year), MaxRows(cfg.columns))
         == above + Finished(line, Across(cfg, today, YearOf(year), row, line, cfg.columns)) + below
    ensures Complete(above) && Continues(below) && LineEnds(above) == RowStart(cfg, year, row) + line
  {
    hide Across, Down, Page, Height, Finished, MaxRows, LineEnds, RowStart;
    var period := YearOf(year);
    var lines := Height(cfg, period, row, cfg.columns);
    var rest := PageSplit(cfg, today, period, row, MaxRows(cfg.columns));
    var left := DownSplit(cfg, today, period, row, line, lines);
    var before, upper := Page(cfg, today, period, row), Down(cfg, today, period, row, line);
    above, below := before + upper, left + rest;
    PageLines(cfg, today, year, row);
    DownLines(cfg, today, year, row, line);
    LineEndsAppend(before, upper);
    Nested(before, upper, Finished(line, Across(cfg, today, period, row, line, cfg.columns)), left, rest);
  }

  lemma Nested(a: Text, b: Text, c: Text, d: Text, e: Text)
    ensures a + (b + c + d) + e == (a + b) + c + (d + e)
  {
  }

  /** Where a line of a month stands in a year: `above` are the whole lines before it, as many as the rows before
      its own take and its own number; to its left are the months before it in its row, in as many columns. */
  lemma LineStandsInYear(cfg: Config, today: Date, ym: YearMonth, line: nat)
    returns (row: nat, col: nat, above: Text, left: Text, right: Text, below: Text)
    requires line < RowsInMonth(ym, cfg.firstdow)
    ensures ym.month == row * cfg.columns + col + 1 && row < MaxRows(cfg.columns) && col < cfg.columns
    ensures Page(cfg, today, YearOf(ym.year), MaxRows(cfg.columns))
         == above + Finished(line, left + LineOf(cfg, today, ym, line) + right) + below
    ensures Complete(above) && Continues(below) && LineEnds(above) == RowStart(cfg, ym.year, row) + line
    ensures line >= 2 ==> Columns(left) == (MONTH_COLUMNS + 3) * col
  {
    hide Across, Down, Page, Height, LineOf, RowsInMonth, LeftOf, Finished, MaxRows, Complete, Continues, LineEnds,
        RowStart, Columns;
    var period := YearOf(ym.year);
    row, col := PlaceOf(cfg, period, ym);
    HighEnough(cfg, period, row, col, cfg.columns);
    left := LeftOf(cfg, today, period, row, line, col);
    right := AcrossSplit(cfg, today, period, row, line, col, cfg.columns);
    if line >= 2 {
      LeftColumns(cfg, today, ym.year, row, line, col);
    }
    above, below := RowLineStandsInYear(cfg, today, ym.year, row, line);
  }

  /** The titles of a month stand above its weeks, each formatted as such together with the others in its line. */
  lemma TitlesStandInYear(cfg: Config, today: Date, ym: YearMonth, line: nat)
    returns (row: nat, col: nat, above: Text, left: Text, right: Text, below: Text)
    requires line < 2
    ensures ym.month == row * cfg.columns + col + 1 && row < MaxRows(cfg.columns) && col < cfg.columns
    ensures Page(cfg, today, YearOf(ym.year), MaxRows(cfg.columns))
         == above + [Styled(line, left + [Heading(line, ym)] + right)] + below
    ensures Complete(above) && Continues(below) && LineEnds(above) == RowStart(cfg, ym.year, row) + line
  {
    row, col, above, left, right, below := LineStandsInYear(cfg, today, ym, line);
    hide Page, RowsInMonth, LineEnds, RowStart, Columns;
  }

  /** Where a day stands in a line of its month. */
  lemma DayStandsInLine(cfg: Config, today: Date, ym: YearMonth, day: int)
    returns (line: nat, before: Text, after: Text)
    requires 1 <= day <= Length(ym)
    ensures line == 2 + (Offset(ym, cfg.firstdow) + day - 1) / 7 < RowsInMonth(ym, cfg.firstdow)
    ensures LineOf(cfg, today, ym, line) == before + [Cell(CellFor(ym, day, today))] + after
    ensures Columns(before) == 3 * Minus(WeekdayOf(ym, day), cfg.firstdow)
  {
    hide Week, RowsInMonth, Padded, CellFor, Offset, InCells, Length, WeekdayOf, Minus, Columns;
    var left, right;
    line, left, right := DayStandsInItsColumn(ym, cfg.firstdow, today, day);
    WeekIsNotPadded(ym, cfg.firstdow, line, today);
    ThreeInCells(left, CellFor(ym, day, today), right);
    ColumnsOfCells(left);
    before, after := InCells(left), InCells(right);
  }

  /** Where a day stands in a year: in the line of its week, three columns for each weekday passed to the right of
      where its month starts. */
  lemma DayStandsInYear(cfg: Config, today: Date, ym: YearMonth, day: int)
    returns (row: nat, col: nat, line: nat, above: Text, left: Text, right: Text, below: Text)
    requires 1 <= day <= Length(ym)
    ensures ym.month == row * cfg.columns + col + 1 && row < MaxRows(cfg.columns) && col < cfg.columns
    ensures line == 2 + (Offset(ym, cfg.firstdow) + day - 1) / 7
    ensures Page(cfg, today, YearOf(ym.year), MaxRows(cfg.columns))
         == above + (left + [Cell(CellFor(ym, day, today))] + right) + below
    ensures Complete(above) && Continues(below) && LineEnds(above) == RowStart(cfg, ym.year, row) + line
    ensures Columns(left) == (MONTH_COLUMNS + 3) * col + 3 * Minus(WeekdayOf(ym, day), cfg.firstdow)
  {
    var before, after;
    line, before, after := DayStandsInLine(cfg, today, ym, day);
    assert line >= 2;
    hide RowsInMonth, Page, CellFor, LineOf, Offset, Length, WeekdayOf, Minus, MaxRows, Complete, Continues,
        LineEnds, RowStart, Columns;
    var outerLeft, outerRight;
    row, col, above, outerLeft, outerRight, below := LineStandsInYear(cfg, today, ym, line);
    ColumnsAppend(outerLeft, before);
    left, right := outerLeft + before, after + outerRight;
    Nested(outerLeft, before, [Cell(CellFor(ym, day, today))], after, outerRight);
  }

  lemma ThreeInCells(a: seq<Token>, b: Token, c: seq<Token>)
    ensures InCells(a + [b] + c) == InCells(a) + [Cell(b)] + InCells(c)
  {
  }

  // --- a single month --------------------------------------------------------------------------------------------

  /** The first `n` lines of a month, in order, a line end between each two. */
  function MonthLines(cfg: Config, today: Date, ym: YearMonth, n: nat): Text {
    if n == 0 then []
    else
      MonthLines(cfg, today, ym, n - 1) + (if n == 1 then [] else [Newline])
      + Finished(n - 1, LineOf(cfg, today, ym, n - 1))
  }

  lemma {:induction false} OnlyThisMonth(cfg: Config, today: Date, ym: YearMonth, row: nat, col: nat, line: nat, c: nat)
    requires row < MaxRows(cfg.columns) && c <= cfg.columns
    requires col < cfg.columns && MonthAt(cfg, MonthOf(ym), row, col) == ym
    ensures Across(cfg, today, MonthOf(ym), row, line, c) == if col < c then LineOf(cfg, today, ym, line) else []
    ensures Height(cfg, MonthOf(ym), row, c) == if col < c then RowsInMonth(ym, cfg.firstdow) else 0
  {
    hide LineOf, RowsInMonth, MaxRows;
    if c == 0 {
    } else {
      OnlyThisMonth(cfg, today, ym, row, col, line, c - 1);
    }
  }

  lemma {:induction false} NoMonthOfOtherRows(cfg: Config, ym: YearMonth, row: nat, other: nat, col: nat, c: nat)
    requires row < MaxRows(cfg.columns) && other < MaxRows(cfg.columns) && c <= cfg.columns && row != other
    requires col < cfg.columns && MonthAt(cfg, MonthOf(ym), row, col) == ym
    ensures Height(cfg, MonthOf(ym), other, c) == 0
  {
    hide RowsInMonth;
    if c == 0 {
    } else {
      NoMonthOfOtherRows(cfg, ym, row, other, col, c - 1);
      DistinctPlaces(cfg.columns, row, col, other, c - 1);
    }
  }

  lemma DistinctPlaces(columns: ColumnCount, row: nat, col: nat, other: nat, c: nat)
    requires col < columns && c < columns && row != other
    ensures row * columns + col != other * columns + c
  {
  }

  lemma {:induction false} MonthDown(cfg: Config, today: Date, ym: YearMonth, row: nat, col: nat, n: nat)
    requires row < MaxRows(cfg.columns) && n <= Height(cfg, MonthOf(ym), row, cfg.columns)
    requires col < cfg.columns && MonthAt(cfg, MonthOf(ym), row, col) == ym
    ensures Down(cfg, today, MonthOf(ym), row, n)
         == MonthLines(cfg, today, ym, n) + if 0 < n < RowsInMonth(ym, cfg.firstdow) then [Newline] else []
  {
    hide LineOf, RowsInMonth, MaxRows, Across, Height, Finished;
    OnlyThisMonth(cfg, today, ym, row, col, 0, cfg.columns);
    if n == 0 {
    } else {
      MonthDown(cfg, today, ym, row, col, n - 1);
      OnlyThisMonth(cfg, today, ym, row, col, n - 1, cfg.columns);
    }
  }

  lemma MonthRow(cfg: Config, today: Date, ym: YearMonth, row: nat, col: nat, other: nat)
    requires row < MaxRows(cfg.columns) && other < MaxRows(cfg.columns)
    requires col < cfg.columns && MonthAt(cfg, MonthOf(ym), row, col) == ym
    ensures Down(cfg, today, MonthOf(ym), other, Height(cfg, MonthOf(ym), other, cfg.columns))
         == if other == row then MonthLines(cfg, today, ym, RowsInMonth(ym, cfg.firstdow)) else []
  {
    hide MaxRows, Height, RowsInMonth, MonthLines, Across, Finished, LineOf;
    if other == row {
      OnlyThisMonth(cfg, today, ym, row, col, 0, cfg.columns);
      MonthDown(cfg, today, ym, row, col, RowsInMonth(ym, cfg.firstdow));
      hide Down;
    } else {
      NoMonthOfOtherRows(cfg, ym, row, other, col, cfg.columns);
    }
  }

  lemma {:induction false} MonthPage(cfg: Config, today: Date, ym: YearMonth, row: nat, col: nat, n: nat)
    requires row < MaxRows(cfg.columns) && n <= MaxRows(cfg.columns)
    requires col < cfg.columns && MonthAt(cfg, MonthOf(ym), row, col) == ym
    ensures Page(cfg, today, MonthOf(ym), n)
         == if row < n then MonthLines(cfg, today, ym, RowsInMonth(ym, cfg.firstdow)) else []
  {
    hide MaxRows, Height, RowsInMonth, Down, MonthLines, MonthAt;
    if n == 0 {
    } else {
      MonthPage(cfg, today, ym, row, col, n - 1);
      MonthRow(cfg, today, ym, row, col, n - 1);
    }
  }

  /** A month is shown as its lines one below the other, whatever the number of month columns. */
  lemma MonthPageIsItsLines(cfg: Config, today: Date, ym: YearMonth)
    ensures Page(cfg, today, MonthOf(ym), MaxRows(cfg.columns))
         == MonthLines(cfg, today, ym, RowsInMonth(ym, cfg.firstdow))
  {
    var row, col := PlaceOf(cfg, MonthOf(ym), ym);
    MonthPage(cfg, today, ym, row, col, MaxRows(cfg.columns));
    hide *;
  }


  /** A month starts with its two titles, each formatted as such. */
  lemma {:induction false} MonthStartsWithTitles(cfg: Config, today: Date, ym: YearMonth, n: nat)
    requires n > 2
    ensures |MonthLines(cfg, today, ym, n)| >= 4
    ensures MonthLines(cfg, today, ym, n)[..4]
         == [Styled(0, [Heading(0, ym)]), Newline, Styled(1, [Heading(1, ym)]), Newline]
  {
    if n == 3 {
      assert MonthLines(cfg, today, ym, 1) == [Styled(0, [Heading(0, ym)])];
      assert MonthLines(cfg, today, ym, 2) == [Styled(0, [Heading(0, ym)]), Newline, Styled(1, [Heading(1, ym)])];
    } else {
      MonthStartsWithTitles(cfg, today, ym, n - 1);
    }
    hide LineOf;
  }

  // --- where today is marked ---------------------------------------------------------------------------------

  lemma {:induction false} LineIsAmongLines(cfg: Config, today: Date, ym: YearMonth, line: nat, n: nat, x: Piece)
    requires line < n && x in Finished(line, LineOf(cfg, today, ym, line))
    ensures x in MonthLines(cfg, today, ym, n)
  {
    hide LineOf, Finished;
    if line == n - 1 {
    } else {
      LineIsAmongLines(cfg, today, ym, line, n - 1, x);
    }
  }

  /** Every day of every shown month is on the page, today's as the marker. */
  lemma DayIsOnPage(cfg: Config, today: Date, period: Period, ym: YearMonth, day: int)
    requires Shows(period, ym) && 1 <= day <= Length(ym)
    ensures Cell(CellFor(ym, day, today)) in Page(cfg, today, period, MaxRows(cfg.columns))
  {
    hide Length, CellFor, MaxRows, LineOf, RowsInMonth, Page, Offset, WeekdayOf;
    var x := Cell(CellFor(ym, day, today));
    if period.YearOf? {
      var row, col, line, above, left, right, below := DayStandsInYear(cfg, today, ym, day);
      assert x in left + [x] + right;
    } else {
      var line, before, after := DayStandsInLine(cfg, today, ym, day);
      assert x in before + [x] + after;
      LineIsAmongLines(cfg, today, ym, line, RowsInMonth(ym, cfg.firstdow), x);
      MonthPageIsItsLines(cfg, today, ym);
    }
  }

  lemma PageIsNotEmpty(cfg: Config, period: Period)
    ensures Plain(cfg, period) != []
  {
    var ym := match period case MonthOf(ym) => ym case YearOf(year) => YearMonth(year, 1);
    DayIsOnPage(cfg, NO_DAY, period, ym, 1);
    hide Page;
  }

  /** A day that a period shows. */
  predicate Falls(day: Date, period: Period) {
    Shows(period, day.ym) && 1 <= day.day <= Length(day.ym)
  }

  /** Two texts of the same length that are nowhere both marked. */
  ghost predicate Apart(a: Text, b: Text) {
    |a| == |b| && forall k :: 0 <= k < |a| && a[k] == Cell(Today) ==> b[k] != Cell(Today)
  }

  lemma ApartAppend(a: Text, b: Text, c: Text, d: Text)
    requires Apart(a, b) && Apart(c, d)
    ensures Apart(a + c, b + d)
  {
  }

  /** The two days are not both the same day of this month. */
  ghost predicate MarkApart(ym: YearMonth, s: Date, t: Date) {
    s == t == Date(ym, s.day) ==> !(1 <= s.day <= Length(ym))
  }

  lemma CellApart(ym: YearMonth, firstdow: Weekday, line: nat, c: nat, s: Date, t: Date)
    requires MarkApart(ym, s, t)
    ensures Apart(InCells(Calendar.Cell(ym, firstdow, line, c, s)), InCells(Calendar.Cell(ym, firstdow, line, c, t)))
  {
    hide DayAt, Length;
  }

  lemma {:induction false} WeekApart(ym: YearMonth, firstdow: Weekday, line: nat, s: Date, t: Date, c: nat)
    requires MarkApart(ym, s, t)
    ensures Apart(InCells(Week(ym, firstdow, line, s, c)), InCells(Week(ym, firstdow, line, t, c)))
  {
    if c == 0 {
    } else {
      hide Length, DayAt;
      WeekApart(ym, firstdow, line, s, t, c - 1);
      CellApart(ym, firstdow, line, c - 1, s, t);
      hide MarkApart, Calendar.Cell, Apart;
      var separator := if c == 1 then [] else [Space];
      AppendThree(Week(ym, firstdow, line, s, c - 1), separator, Calendar.Cell(ym, firstdow, line, c - 1, s), Newline);
      AppendThree(Week(ym, firstdow, line, t, c - 1), separator, Calendar.Cell(ym, firstdow, line, c - 1, t), Newline);
      UnmarkedApart(InCells(separator));
      hide InCells;
      ApartAppend(InCells(Week(ym, firstdow, line, s, c - 1)), InCells(Week(ym, firstdow, line, t, c - 1)),
                  InCells(separator), InCells(separator));
      ApartAppend(InCells(Week(ym, firstdow, line, s, c - 1)) + InCells(separator),
                  InCells(Week(ym, firstdow, line, t, c - 1)) + InCells(separator),
                  InCells(Calendar.Cell(ym, firstdow, line, c - 1, s)),
                  InCells(Calendar.Cell(ym, firstdow, line, c - 1, t)));
    }
  }

  lemma UnmarkedApart(text: Text)
    requires Cell(Today) !in text
    ensures Apart(text, text)
  {
  }

  lemma LineApart(cfg: Config, ym: YearMonth, line: nat, s: Date, t: Date)
    requires MarkApart(ym, s, t)
    ensures Apart(LineOf(cfg, s, ym, line), LineOf(cfg, t, ym, line))
  {
    WeekIsNotPadded(ym, cfg.firstdow, line, s);
    WeekIsNotPadded(ym, cfg.firstdow, line, t);
    WeekApart(ym, cfg.firstdow, line, s, t, 7);
    hide Week, RowsInMonth, RawLength, Length;
    if line >= 2 && line >= RowsInMonth(ym, cfg.firstdow) {
      UnmarkedApart(InCells(Padded([])));
    }
  }

  lemma MonthApart(cfg: Config, period: Period, row: nat, line: nat, col: nat, s: Date, t: Date)
    requires row < MaxRows(cfg.columns) && col < cfg.columns && (s == t ==> !Falls(s, period))
    ensures Apart(MonthInRow(cfg, s, period, row, line, col), MonthInRow(cfg, t, period, row, line, col))
  {
    hide MonthAt, LineOf, Length, InCells, Spaces;
    var ym := MonthAt(cfg, period, row, col);
    if Shows(period, ym) {
      LineApart(cfg, ym, line, s, t);
      var separator := if col > 0 && period.YearOf? then InCells(Spaces(3)) else [];
      SeparatorApart();
      hide Apart;
      EmptyApart();
      ApartAppend(separator, separator, LineOf(cfg, s, ym, line), LineOf(cfg, t, ym, line));
    }
  }

  lemma SeparatorApart()
    ensures Apart(InCells(Spaces(3)), InCells(Spaces(3)))
  {
  }

  lemma EmptyApart()
    ensures Apart([], [])
  {
  }

  lemma {:induction false} AcrossApart(cfg: Config, period: Period, row: nat, line: nat, c: nat, s: Date, t: Date)
    requires row < MaxRows(cfg.columns) && c <= cfg.columns && (s == t ==> !Falls(s, period))
    ensures Apart(Across(cfg, s, period, row, line, c), Across(cfg, t, period, row, line, c))
  {
    if c > 0 {
      AcrossApart(cfg, period, row, line, c - 1, s, t);
      MonthApart(cfg, period, row, line, c - 1, s, t);
      AcrossOneMore(cfg, s, period, row, line, c - 1);
      AcrossOneMore(cfg, t, period, row, line, c - 1);
      hide Apart, Across, MonthInRow, Falls;
      ApartAppend(Across(cfg, s, period, row, line, c - 1), Across(cfg, t, period, row, line, c - 1),
                  MonthInRow(cfg, s, period, row, line, c - 1), MonthInRow(cfg, t, period, row, line, c - 1));
    } else {
      EmptyApart();
    }
  }

  lemma AcrossOneMore(cfg: Config, today: Date, period: Period, row: nat, line: nat, c: nat)
    requires row < MaxRows(cfg.columns) && c < cfg.columns
    ensures Across(cfg, today, period, row, line, c + 1)
         == Across(cfg, today, period, row, line, c) + MonthInRow(cfg, today, period, row, line, c)
  {
    hide LineOf, Shows, MonthAt, InCells, Spaces, MaxRows;
  }

  lemma FinishedApart(cfg: Config, period: Period, row: nat, line: nat, s: Date, t: Date)
    requires row < MaxRows(cfg.columns) && (s == t ==> !Falls(s, period))
    ensures Apart(Finished(line, Across(cfg, s, period, row, line, cfg.columns)),
                  Finished(line, Across(cfg, t, period, row, line, cfg.columns)))
  {
    AcrossApart(cfg, period, row, line, cfg.columns, s, t);
    hide Across, Falls;
  }

  lemma EndsApart(cfg: Config, period: Period, row: nat, n: nat)
    ensures row < MaxRows(cfg.columns) ==> Apart(EndOfLine(cfg, period, row, n), EndOfLine(cfg, period, row, n))
    ensures Apart(EndOfRow(cfg, period, n), EndOfRow(cfg, period, n))
    ensures Apart([], [])
  {
    hide Height, MaxRows;
  }

  lemma ThreeApart(a: Text, b: Text, c: Text, d: Text, e: Text)
    requires Apart(a, b) && Apart(c, d) && Apart(e, e)
    ensures Apart(a + c + e, b + d + e)
  {
    ApartAppend(a, b, c, d);
    hide Apart;
    ApartAppend(a + c, b + d, e, e);
  }

  lemma {:induction false} DownApart(cfg: Config, period: Period, row: nat, n: nat, s: Date, t: Date)
    requires row < MaxRows(cfg.columns) && n <= Height(cfg, period, row, cfg.columns) && (s == t ==> !Falls(s, period))
    ensures Apart(Down(cfg, s, period, row, n), Down(cfg, t, period, row, n))
  {
    hide Across, Height, Finished, Apart, EndOfLine, EndOfRow, MaxRows, Falls;
    EndsApart(cfg, period, row, n);
    if n == 0 {
    } else {
      DownApart(cfg, period, row, n - 1, s, t);
      FinishedApart(cfg, period, row, n - 1, s, t);
      ThreeApart(Down(cfg, s, period, row, n - 1), Down(cfg, t, period, row, n - 1),
                 Finished(n - 1, Across(cfg, s, period, row, n - 1, cfg.columns)),
                 Finished(n - 1, Across(cfg, t, period, row, n - 1, cfg.columns)), EndOfLine(cfg, period, row, n));
    }
  }

  /** On two different days, or on one that the period does not show, no place of the page is marked both times. */
  lemma {:induction false} PageApart(cfg: Config, period: Period, n: nat, s: Date, t: Date)
    requires n <= MaxRows(cfg.columns) && (s == t ==> !Falls(s, period))
    ensures Apart(Page(cfg, s, period, n), Page(cfg, t, period, n))
  {
    hide Down, Height, Apart, EndOfLine, EndOfRow, MaxRows, Falls;
    EndsApart(cfg, period, 0, n);
    if n == 0 {
    } else {
      PageApart(cfg, period, n - 1, s, t);
      var lines := Height(cfg, period, n - 1, cfg.columns);
      DownApart(cfg, period, n - 1, lines, s, t);
      ThreeApart(Page(cfg, s, period, n - 1), Page(cfg, t, period, n - 1), Down(cfg, s, period, n - 1, lines),
                 Down(cfg, t, period, n - 1, lines), EndOfRow(cfg, period, n));
    }
  }

  /** A day that the period shows, and whose format makes it stand out. */
  predicate Marks(cfg: Config, day: Date, period: Period) {
    Falls(day, period) && Visible(cfg, day.day)
  }

  /** A day that the period does not show, or that does not stand out, leaves no mark. */
  lemma NotShownNotMarked(cfg: Config, today: Date, period: Period)
    requires !Marks(cfg, today, period)
    ensures Fresh(cfg, today, period) == Plain(cfg, period)
  {
    var n := MaxRows(cfg.columns);
    PageUnmarked(cfg, today, period, n);
    if !Falls(today, period) {
      PageApart(cfg, period, n, today, today);
      hide Page, Falls;
      NothingToReplace(Page(cfg, today, period, n), Cell(Day(today.day)));
      NothingToReplace(Page(cfg, today, period, n), MarkerText(cfg, today.day));
    }
  }

  /** A day that the period marks makes its text differ from that on every other day. */
  lemma ShownIsMarked(cfg: Config, s: Date, t: Date, period: Period)
    requires Marks(cfg, s, period) && s != t
    ensures Fresh(cfg, s, period) != Fresh(cfg, t, period)
  {
    var n := MaxRows(cfg.columns);
    var a, b := Page(cfg, s, period, n), Page(cfg, t, period, n);
    DayIsOnPage(cfg, s, period, s.ym, s.day);
    assert CellFor(s.ym, s.day, s) == Today;
    PageApart(cfg, period, n, s, t);
    PageUnmarked(cfg, s, period, n);
    PageUnmarked(cfg, t, period, n);
    hide Page, Falls, MarkerText;
    var k :| 0 <= k < |a| && a[k] == Cell(Today);
    assert Replaced(a, Cell(Day(s.day)))[k] == Cell(Day(s.day)) == Replaced(b, Cell(Day(t.day)))[k] == b[k];
    assert Replaced(a, MarkerText(cfg, s.day))[k] == MarkerText(cfg, s.day);
    assert Replaced(b, MarkerText(cfg, t.day))[k] == b[k];
  }

  /** Exactly when a period's text is the same on two days: only if they are the same, or the period marks neither. */
  lemma SameTextIff(cfg: Config, s: Date, t: Date, period: Period)
    ensures Fresh(cfg, s, period) == Fresh(cfg, t, period) <==>
            s == t || (!Marks(cfg, s, period) && !Marks(cfg, t, period))
  {
    hide Fresh, Marks, Plain;
    if s == t {
    } else if Marks(cfg, s, period) {
      ShownIsMarked(cfg, s, t, period);
    } else if Marks(cfg, t, period) {
      ShownIsMarked(cfg, t, s, period);
    } else {
      NotShownNotMarked(cfg, s, period);
      NotShownNotMarked(cfg, t, period);
    }
  }

  /** With a format for today, what it makes of today's day is in the text of each period that shows today. */
  lemma TodayIsInItsFormat(cfg: Config, today: Date, period: Period)
    requires cfg.today.Some? && Falls(today, period)
    ensures cfg.today.value(today.day) in Fresh(cfg, today, period)
  {
    var page := Page(cfg, today, period, MaxRows(cfg.columns));
    DayIsOnPage(cfg, today, period, today.ym, today.day);
    assert CellFor(today.ym, today.day, today) == Today;
    hide Page, Falls;
    var k :| 0 <= k < |page| && page[k] == Cell(Today);
    assert Fresh(cfg, today, period)[k] == cfg.today.value(today.day);
  }

  lemma FreshIsNotEmpty(cfg: Config, today: Date, period: Period)
    ensures Fresh(cfg, today, period) != []
  {
    PageIsNotEmpty(cfg, period);
    PageUnmarked(cfg, today, period, MaxRows(cfg.columns));
    hide Page;
  }
}
