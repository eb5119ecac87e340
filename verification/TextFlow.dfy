/** The word wrapper of the command-line help: a column of text, broken into
    lines that fit its width, at boundaries where possible and with a hyphen
    where not.
 */
module TextFlow {
  import opened Wrappers

  datatype Column = Column(text: string, width: nat, indent: nat, initialIndent: Option<nat>)

  /** A produced line: `len` characters of the text from `start`, after `indent` spaces, with a hyphen
      when it was cut by force. */
  datatype Line = Line(indent: nat, start: nat, len: nat, suffix: bool)

  predicate IsWhitespace(c: char) {
    c == ' ' || c == '\t' || c == '\n' || c == '\r'
  }

  predicate IsBreakableBefore(c: char) {
    c == '[' || c == '(' || c == '{' || c == '<' || c == '|'
  }

  predicate IsBreakableAfter(c: char) {
    c == ']' || c == ')' || c == '}' || c == '>' || c == '.' || c == ',' || c == ':' || c == ';' || c == '*' || c == '+'
    || c == '-' || c == '=' || c == '&' || c == '/' || c == '\\'
  }

  // --- the geometry of one line ---------------------------------------------------------------------------

  function Indent(col: Column, pos: nat): nat {
    if pos == 0 && col.initialIndent.Some? then col.initialIndent.value else col.indent
  }

  /** What the source asserts of a column: some room on every line. */
  predicate HasRoom(col: Column, room: nat) {
    col.width >= col.indent + room && (col.initialIndent.Some? ==> col.width >= col.initialIndent.value + room)
  }

  predicate IsBoundary(text: string, at: nat)
    requires 0 < at <= |text|
  {
    at == |text| || (IsWhitespace(text[at]) && !IsWhitespace(text[at - 1]))
    || IsBreakableBefore(text[at]) || IsBreakableAfter(text[at - 1])
  }

  /** The next newline at or after `pos`, or the end of the text. */
  function LineEnd(text: string, pos: nat): (end: nat)
    requires pos <= |text|
    ensures pos <= end <= |text|
    decreases |text| - pos
  {
    if pos == |text| || text[pos] == '\n' then pos else LineEnd(text, pos + 1)
  }

  lemma {:induction false} NoNewlineBeforeEnd(text: string, pos: nat)
    requires pos <= |text|
    ensures '\n' !in text[pos..LineEnd(text, pos)]
    decreases |text| - pos
  {
    if pos < |text| && text[pos] != '\n' {
      NoNewlineBeforeEnd(text, pos + 1);
      assert text[pos..LineEnd(text, pos)] == [text[pos]] + text[pos + 1..LineEnd(text, pos)];
    }
  }

  /** The greatest boundary up to `n` characters after `pos`, or 0. */
  function LastBoundary(text: string, pos: nat, n: nat): (len: nat)
    requires pos + n <= |text|
    ensures len <= n
  {
    if n == 0 || IsBoundary(text, pos + n) then n else LastBoundary(text, pos, n - 1)
  }

  lemma {:induction false} LastBoundaryIsLast(text: string, pos: nat, n: nat)
    requires pos + n <= |text|
    ensures var len := LastBoundary(text, pos, n);
      && (len > 0 ==> IsBoundary(text, pos + len))
      && forall at :: pos + len < at <= pos + n ==> !IsBoundary(text, at)
  {
    if n > 0 && !IsBoundary(text, pos + n) {
      LastBoundaryIsLast(text, pos, n - 1);
    }
  }

  /** `n` without trailing whitespace. */
  function Trimmed(text: string, pos: nat, n: nat): (len: nat)
    requires pos + n <= |text|
    ensures len <= n
  {
    if n > 0 && IsWhitespace(text[pos + n - 1]) then Trimmed(text, pos, n - 1) else n
  }

  lemma {:induction false} TrimmedIsWhitespace(text: string, pos: nat, n: nat)
    requires pos + n <= |text|
    ensures forall i :: pos + Trimmed(text, pos, n) <= i < pos + n ==> IsWhitespace(text[i])
  {
    if n > 0 && IsWhitespace(text[pos + n - 1]) {
      TrimmedIsWhitespace(text, pos, n - 1);
    }
  }

  lemma {:induction false} TrimmedIsTrimmed(text: string, pos: nat, n: nat)
    requires pos + n <= |text|
    ensures Trimmed(text, pos, n) > 0 ==> !IsWhitespace(text[pos + Trimmed(text, pos, n) - 1])
  {
    if n == 0 || !IsWhitespace(text[pos + n - 1]) {
    } else {
      TrimmedIsTrimmed(text, pos, n - 1);
    }
  }

  /** The line that starts at `pos`. */
  function LineAt(col: Column, pos: nat): (line: Line)
    requires HasRoom(col, 1) && pos <= |col.text|
    ensures line.start == pos && line.indent == Indent(col, pos) && pos + line.len <= LineEnd(col.text, pos)
    ensures line.indent + line.len + (if line.suffix then 1 else 0) <= col.width
  {
    var room := col.width - Indent(col, pos);
    var end := LineEnd(col.text, pos);
    if end < pos + room then Line(Indent(col, pos), pos, end - pos, false)
    else
      var len := Trimmed(col.text, pos, LastBoundary(col.text, pos, room));
      if len > 0 then Line(Indent(col, pos), pos, len, false) else Line(Indent(col, pos), pos, room - 1, true)
  }

  function SkipWhitespace(text: string, pos: nat): (next: nat)
    requires pos <= |text|
    ensures pos <= next <= |text|
    decreases |text| - pos
  {
    if pos == |text| || !IsWhitespace(text[pos]) then pos else SkipWhitespace(text, pos + 1)
  }

  /** Where the line after one that ends at `at` starts. */
  function After(text: string, at: nat): (next: nat)
    requires at <= |text|
    ensures at <= next <= |text|
  {
    if at < |text| && text[at] == '\n' then at + 1 else SkipWhitespace(text, at)
  }

  lemma {:induction false} SkippedIsWhitespace(text: string, pos: nat)
    requires pos <= |text|
    ensures forall i :: pos <= i < SkipWhitespace(text, pos) ==> IsWhitespace(text[i])
    decreases |text| - pos
  {
    if pos < |text| && IsWhitespace(text[pos]) {
      SkippedIsWhitespace(text, pos + 1);
    }
  }

  /** With room for two characters every line makes progress. */
  lemma Progress(col: Column, pos: nat)
    requires HasRoom(col, 2) && pos < |col.text|
    ensures LineAt(col, pos).len > 0 || col.text[pos] == '\n'
    ensures pos < After(col.text, pos + LineAt(col, pos).len)
  {
    hide Trimmed, LastBoundary, SkipWhitespace;
  }

  /** With room for one character only, the iterator stands still exactly at a character that is neither
      whitespace nor followed by a boundary: there is no room for it and a hyphen. */
  lemma StandsStill(col: Column, pos: nat)
    requires HasRoom(col, 1) && pos < |col.text|
    ensures After(col.text, pos + LineAt(col, pos).len) == pos <==>
            col.width == Indent(col, pos) + 1 && !IsWhitespace(col.text[pos]) && !IsBoundary(col.text, pos + 1)
  {
    var room := col.width - Indent(col, pos);
    if room == 1 && col.text[pos] != '\n' {
      assert LineEnd(col.text, pos) >= pos + 1;
      assert LastBoundary(col.text, pos, 1) == if IsBoundary(col.text, pos + 1) then 1 else 0;
      assert Trimmed(col.text, pos, 1) == if IsWhitespace(col.text[pos]) then 0 else 1;
      assert Trimmed(col.text, pos, 0) == 0;
    }
    hide LastBoundary, Trimmed, IsBoundary;
  }

  // --- all lines ----------------------------------------------------------------------------------------------

  function LinesFrom(col: Column, pos: nat): seq<Line>
    requires HasRoom(col, 2) && pos <= |col.text|
    decreases |col.text| - pos
  {
    if pos == |col.text| then []
    else
      Progress(col, pos);
      var line := LineAt(col, pos);
      [line] + LinesFrom(col, After(col.text, pos + line.len))
  }

  /** An empty first line is taken for an empty text. */
  function Lines(col: Column): seq<Line>
    requires HasRoom(col, 2)
  {
    if LineAt(col, 0).len == 0 then [] else LinesFrom(col, 0)
  }

  /** The characters of a line; a line outside the text has none. */
  function Slice(text: string, line: Line): string {
    if line.start + line.len <= |text| then text[line.start..line.start + line.len] else []
  }

  function Rendered(text: string, line: Line): string {
    seq(line.indent, _ => ' ') + Slice(text, line) + if line.suffix then "-" else ""
  }

  // --- the iterator ---------------------------------------------------------------------------------------------

  class Iterator {
    const col: Column
    var stringIndex: nat
    var pos: nat
    var len: nat
    var end: nat
    var suffix: bool

    /** Not at the end, and `len`, `end` and `suffix` are those of the line at `pos`. */
    ghost predicate AtLine()
      reads this
    {
      && HasRoom(col, 1) && stringIndex == 0 && pos <= |col.text|
      && end == LineEnd(col.text, pos)
      && LineAt(col, pos) == Line(Indent(col, pos), pos, len, suffix)
    }

    ghost predicate AtEnd()
      reads this
    {
      stringIndex == 1 && pos == 0
    }

    constructor (col: Column)
      requires HasRoom(col, 1)
      ensures this.col == col
      ensures if LineAt(col, 0).len == 0 then AtEnd() else AtLine() && pos == 0
    {
      this.col := col;
      stringIndex, pos, len, end, suffix := 0, 0, 0, 0, false;
      new;
      CalcLength();
      if len == 0 {
        stringIndex := stringIndex + 1;
      }
    }

    method CalcLength()
      requires HasRoom(col, 1) && stringIndex == 0 && pos <= |col.text|
      modifies this`len, this`end, this`suffix
      ensures AtLine()
    {
      suffix := false;
      var room := col.width - Indent(col, pos);
      end := FindLineEnd(col.text, pos);
      if end < pos + room {
        len := end - pos;
      } else {
        len := FindBreak(col.text, pos, room);
        if len == 0 {
          suffix := true;
          len := room - 1;
        }
      }
    }

    static method FindLineEnd(text: string, pos: nat) returns (end: nat)
      requires pos <= |text|
      ensures end == LineEnd(text, pos)
    {
      end := pos;
      while end < |text| && text[end] != '\n'
        invariant pos <= end <= |text| && LineEnd(text, end) == LineEnd(text, pos)
      {
        end := end + 1;
      }
    }

    static method FindBreak(text: string, pos: nat, room: nat) returns (len: nat)
      requires pos + room <= |text|
      ensures len == Trimmed(text, pos, LastBoundary(text, pos, room))
    {
      len := room;
      while len > 0 && !IsBoundary(text, pos + len)
        invariant 0 <= len <= room && LastBoundary(text, pos, len) == LastBoundary(text, pos, room)
      {
        len := len - 1;
      }
      ghost var boundary := len;
      while len > 0 && IsWhitespace(text[pos + len - 1])
        invariant 0 <= len <= boundary && Trimmed(text, pos, len) == Trimmed(text, pos, boundary)
      {
        len := len - 1;
      }
    }

    /** The line the iterator is at. */
    method Deref() returns (s: string)
      requires AtLine()
      ensures s == Rendered(col.text, LineAt(col, pos)) && len == LineAt(col, pos).len
    {
      var plain := col.text[pos..pos + len];
      s := seq(Indent(col, pos), _ => ' ') + if suffix then plain + "-" else plain;
    }

    method Advance()
      requires AtLine()
      modifies this
      ensures var next := After(col.text, old(pos) + old(len));
        if next == |col.text| then AtEnd() else AtLine() && pos == next
    {
      ghost var at := pos + len;
      pos := pos + len;
      if pos < |col.text| && col.text[pos] == '\n' {
        pos := pos + 1;
      } else {
        while pos < |col.text| && IsWhitespace(col.text[pos])
          invariant at <= pos <= |col.text| && stringIndex == 0
          invariant SkipWhitespace(col.text, pos) == SkipWhitespace(col.text, at)
        {
          pos := pos + 1;
        }
      }
      if pos == |col.text| {
        pos := 0;
        stringIndex := stringIndex + 1;
      }
      if stringIndex < 1 {
        CalcLength();
      }
    }
  }

  ghost function RenderedAll(text: string, lines: seq<Line>): seq<string> {
    if lines == [] then [] else [Rendered(text, lines[0])] + RenderedAll(text, lines[1..])
  }

  lemma RenderedOneMore(text: string, line: Line, lines: seq<Line>)
    ensures RenderedAll(text, [line] + lines) == [Rendered(text, line)] + RenderedAll(text, lines)
  {
    assert ([line] + lines)[1..] == lines;
  }

  /** The lines a `for` loop would still get from the iterator. */
  ghost predicate Yields(it: Iterator, left: seq<Line>)
    reads it
  {
    if it.stringIndex < 1 then
      HasRoom(it.col, 2) && it.AtLine() && it.pos < |it.col.text| && left == LinesFrom(it.col, it.pos)
    else it.stringIndex == 1 && left == []
  }

  method YieldLine(it: Iterator, ghost left: seq<Line>) returns (s: string, ghost rest: seq<Line>)
    requires it.stringIndex < 1 && Yields(it, left)
    modifies it
    ensures Yields(it, rest) && RenderedAll(it.col.text, left) == [s] + RenderedAll(it.col.text, rest)
    ensures it.stringIndex < 1 ==> old(it.pos) < it.pos
  {
    hide LineAt, LineEnd, Indent, After, LinesFrom, RenderedAll, Rendered, Slice, Iterator.AtLine;
    s := it.Deref();
    hide HasRoom;
    ghost var line := LineAt(it.col, it.pos);
    ghost var next := After(it.col.text, it.pos + line.len);
    OneLineMore(it.col, it.pos);
    SomeLineLeft(it.col, next);
    rest := LinesFrom(it.col, next);
    RenderedOneMore(it.col.text, line, rest);
    it.Advance();
  }

  method Iterate(col: Column) returns (lines: seq<string>)
    requires HasRoom(col, 2)
    ensures lines == RenderedAll(col.text, Lines(col))
  {
    lines := [];
    var it := new Iterator(col);
    ghost var left := Lines(col);
    hide LineAt, LinesFrom, Rendered, Iterator.AtLine, Lines;
    while it.stringIndex < 1
      invariant it.col == col && Yields(it, left)
      invariant lines + RenderedAll(col.text, left) == RenderedAll(col.text, Lines(col))
      decreases 1 - it.stringIndex, |col.text| - it.pos
    {
      hide RenderedAll;
      var s;
      s, left := YieldLine(it, left);
      lines := lines + [s];
    }
  }

  /** Iterating over a column yields its lines, rendered; with room for two characters it comes to an end. A text
      without newlines for which there is room comes out as it is, after its indent. */
  method AllLines(col: Column) returns (lines: seq<string>)
    requires HasRoom(col, 2)
    ensures lines == RenderedAll(col.text, Lines(col))
    ensures FitsWhole(col) ==> lines == [seq(FirstIndent(col), _ => ' ') + col.text]
  {
    lines := Iterate(col);
    if FitsWhole(col) {
      TextThatFits(col);
    }
  }

  lemma OneLineMore(col: Column, pos: nat)
    requires HasRoom(col, 2) && pos < |col.text|
    ensures var next := After(col.text, pos + LineAt(col, pos).len);
      pos < next && LinesFrom(col, pos) == [LineAt(col, pos)] + LinesFrom(col, next)
  {
    Progress(col, pos);
    hide LineAt, After;
  }

  lemma SomeLineLeft(col: Column, pos: nat)
    requires HasRoom(col, 2) && pos <= |col.text|
    ensures LinesFrom(col, pos) == [] <==> pos == |col.text|
  {
    if pos < |col.text| {
      OneLineMore(col, pos);
      hide *;
    }
  }

  // --- a paragraph that fits --------------------------------------------------------------------------------

  /** From `pos` to `end` stands a paragraph, or what is left of one. */
  ghost predicate IsParagraph(text: string, pos: nat, end: nat) {
    pos <= end <= |text| && (end == |text| || text[end] == '\n') && forall i :: pos <= i < end ==> text[i] != '\n'
  }

  lemma {:induction false} ParagraphEnd(text: string, pos: nat, end: nat)
    requires IsParagraph(text, pos, end)
    ensures LineEnd(text, pos) == end
    decreases end - pos
  {
    if pos == end {
    } else {
      ParagraphEnd(text, pos + 1, end);
    }
  }

  lemma LineOfParagraph(col: Column, pos: nat, end: nat)
    requires HasRoom(col, 1) && IsParagraph(col.text, pos, end) && Indent(col, pos) + (end - pos) < col.width
    ensures LineAt(col, pos) == Line(Indent(col, pos), pos, end - pos, false)
  {
    ParagraphEnd(col.text, pos, end);
    hide LineEnd, LastBoundary, Trimmed;
  }

  /** A paragraph for which there is room is one line, all of it, and the next line starts after its newline. */
  lemma ParagraphThatFits(col: Column, pos: nat, end: nat)
    requires HasRoom(col, 2) && pos < |col.text| && IsParagraph(col.text, pos, end)
    requires var indent := if pos == 0 && col.initialIndent.Some? then col.initialIndent.value else col.indent;
      indent + (end - pos) < col.width
    ensures var indent := if pos == 0 && col.initialIndent.Some? then col.initialIndent.value else col.indent;
      LinesFrom(col, pos)
      == [Line(indent, pos, end - pos, false)] + if end == |col.text| then [] else LinesFrom(col, end + 1)
  {
    LineOfParagraph(col, pos, end);
    OneLineMore(col, pos);
    if end == |col.text| {
      assert After(col.text, end) == end;
      SomeLineLeft(col, end);
    }
    hide LineAt, LineEnd, SkipWhitespace, LinesFrom;
  }

  function FirstIndent(col: Column): nat {
    if col.initialIndent.Some? then col.initialIndent.value else col.indent
  }

  /** A text without newlines for which there is room. */
  ghost predicate FitsWhole(col: Column) {
    col.text != [] && '\n' !in col.text && FirstIndent(col) + |col.text| < col.width
  }

  /** It is printed as it is, after its indent, on one line. */
  lemma TextThatFits(col: Column)
    requires HasRoom(col, 2) && FitsWhole(col)
    ensures RenderedAll(col.text, Lines(col)) == [seq(FirstIndent(col), _ => ' ') + col.text]
  {
    ParagraphThatFits(col, 0, |col.text|);
    OneLineMore(col, 0);
    assert LineAt(col, 0) == LinesFrom(col, 0)[0];
    var line := LineAt(col, 0);
    hide LineAt, LinesFrom;
    assert Slice(col.text, line) == col.text && Lines(col) == [line];
    assert Rendered(col.text, line) == seq(line.indent, _ => ' ') + col.text;
    RenderedOneMore(col.text, line, []);
    assert [line] + [] == [line];
  }

  /** Where the line after one that ends at `at` starts: after a newline, or else at the next character that is not
      whitespace. */
  lemma NextLineStarts(text: string, at: nat, next: nat)
    requires at <= |text|
    requires at < |text| && text[at] == '\n' ==> next == at + 1
    requires !(at < |text| && text[at] == '\n') ==>
      at <= next <= |text| && (next == |text| || !IsWhitespace(text[next]))
      && forall i :: at <= i < next ==> IsWhitespace(text[i])
    ensures After(text, at) == next
  {
    SkippedIsWhitespace(text, at);
    SkipStops(text, at);
  }

  lemma {:induction false} SkipStops(text: string, pos: nat)
    requires pos <= |text|
    ensures SkipWhitespace(text, pos) == |text| || !IsWhitespace(text[SkipWhitespace(text, pos)])
    decreases |text| - pos
  {
    if pos == |text| || !IsWhitespace(text[pos]) {
    } else {
      SkipStops(text, pos + 1);
    }
  }

  // --- what the lines are worth -----------------------------------------------------------------------------------

  ghost predicate LineFits(col: Column, line: Line) {
    && line.start + line.len <= |col.text|
    && |Rendered(col.text, line)| <= col.width
    && '\n' !in Slice(col.text, line)
  }

  lemma LineAtFits(col: Column, pos: nat)
    requires HasRoom(col, 1) && pos <= |col.text|
    ensures LineFits(col, LineAt(col, pos))
  {
    hide LineAt, LineEnd;
    NoNewlineBeforeEnd(col.text, pos);
    var end := pos + LineAt(col, pos).len;
    assert col.text[pos..end] <= col.text[pos..LineEnd(col.text, pos)];
  }

  /** Every line, indent and hyphen included, is at most the column's width, and holds no newline. */
  lemma {:induction false} LinesFit(col: Column, pos: nat)
    requires HasRoom(col, 2) && pos <= |col.text|
    ensures forall line :: line in LinesFrom(col, pos) ==> LineFits(col, line)
    decreases |col.text| - pos
  {
    SomeLineLeft(col, pos);
    if pos == |col.text| {
    } else {
      LineAtFits(col, pos);
      OneLineMore(col, pos);
      hide LineAt, After, LinesFrom, LineFits;
      LinesFit(col, After(col.text, pos + LineAt(col, pos).len));
    }
  }

  /** A hyphen is used only where there is no place to break: up to every boundary within the room there
      is nothing but whitespace. */
  lemma HyphenOnlyWhenForced(col: Column, pos: nat, at: nat)
    requires HasRoom(col, 2) && pos < |col.text| && LineAt(col, pos).suffix
    requires pos < at <= pos + (col.width - Indent(col, pos))
    ensures at <= |col.text|
    ensures IsBoundary(col.text, at) ==> forall i :: pos <= i < at ==> IsWhitespace(col.text[i])
  {
    var room := col.width - Indent(col, pos);
    assert LineEnd(col.text, pos) >= pos + room;
    LastBoundaryIsLast(col.text, pos, room);
    TrimmedIsWhitespace(col.text, pos, LastBoundary(col.text, pos, room));
  }

  /** `at` is the last boundary within the room of the line at `pos`. */
  ghost predicate IsLastBoundary(col: Column, pos: nat, at: nat) {
    && HasRoom(col, 1)
    && pos < at <= pos + (col.width - Indent(col, pos)) <= |col.text|
    && IsBoundary(col.text, at)
    && forall later :: at < later <= pos + (col.width - Indent(col, pos)) ==> !IsBoundary(col.text, later)
  }

  /** A line that is cut by force fills its column. */
  lemma HyphenatedLineIsFull(col: Column, pos: nat)
    requires HasRoom(col, 1) && pos <= |col.text| && LineAt(col, pos).suffix
    ensures LineAt(col, pos).indent + LineAt(col, pos).len + 1 == col.width
  {
    hide LastBoundary, Trimmed, LineEnd;
  }

  /** The first line has the initial indent, if there is one, the others the indent. */
  lemma WhichIndent(col: Column, pos: nat)
    requires HasRoom(col, 1) && pos <= |col.text|
    ensures LineAt(col, pos).indent
         == if pos > 0 || col.initialIndent.None? then col.indent else col.initialIndent.value
  {
    hide LastBoundary, Trimmed, LineEnd;
  }

  /** The characters at which lines may be broken. */
  lemma CharacterClasses(c: char)
    ensures IsWhitespace(c) <==> c in " \t\n\r"
    ensures IsBreakableBefore(c) <==> c in "[({<|"
    ensures IsBreakableAfter(c) <==> c in "])}>.,:;*+-=&/\\"
  {
  }

  /** Where a line may be broken: at the end, before whitespace that ends a word, before an opening and after a closing
      character or punctuation. */
  lemma BoundaryIff(text: string, at: nat)
    requires 0 < at <= |text|
    ensures IsBoundary(text, at) <==>
      || at == |text| || (text[at] in " \t\n\r" && text[at - 1] !in " \t\n\r")
      || text[at] in "[({<|" || text[at - 1] in "])}>.,:;*+-=&/\\"
  {
    CharacterClasses(text[at - 1]);
    if at < |text| {
      CharacterClasses(text[at]);
    }
    hide IsWhitespace, IsBreakableBefore, IsBreakableAfter;
  }

  /** A word for which there is no room, without a place to break it, is cut by a hyphen at the end of the line. */
  lemma LongWordIsCut(col: Column, pos: nat)
    requires HasRoom(col, 2) && pos < |col.text|
    requires var room := col.width - Indent(col, pos);
      && pos + room < |col.text|
      && (forall i :: pos <= i < pos + room ==> !IsWhitespace(col.text[i]))
      && forall at :: pos < at <= pos + room ==> !IsBoundary(col.text, at)
    ensures var room := col.width - Indent(col, pos);
      Rendered(col.text, LineAt(col, pos)) == seq(Indent(col, pos), _ => ' ') + col.text[pos..pos + room - 1] + "-"
  {
    var room := col.width - Indent(col, pos);
    NoEndWithin(col.text, pos, pos + room);
    LastBoundaryIsLast(col.text, pos, room);
    hide IsWhitespace, IsBoundary;
    assert LastBoundary(col.text, pos, room) == 0;
    assert LineAt(col, pos) == Line(Indent(col, pos), pos, room - 1, true);
  }

  lemma {:induction false} NoEndWithin(text: string, pos: nat, end: nat)
    requires pos <= end <= |text| && forall i :: pos <= i < end ==> !IsWhitespace(text[i])
    ensures LineEnd(text, pos) >= end
    decreases end - pos
  {
    if pos == end {
    } else {
      NoEndWithin(text, pos + 1, end);
    }
  }

  /** A line that does not reach its paragraph's end stops at the last boundary within the room, less the
      whitespace before it. */
  lemma BreaksAtLastBoundary(col: Column, pos: nat) returns (at: nat)
    requires HasRoom(col, 2) && pos < |col.text| && !LineAt(col, pos).suffix
    requires LineEnd(col.text, pos) >= pos + (col.width - Indent(col, pos))
    ensures IsLastBoundary(col, pos, at) && pos + LineAt(col, pos).len <= at
    ensures forall i :: pos + LineAt(col, pos).len <= i < at ==> IsWhitespace(col.text[i])
    ensures LineAt(col, pos).len > 0 && !IsWhitespace(col.text[pos + LineAt(col, pos).len - 1])
  {
    var room := col.width - Indent(col, pos);
    TrimmedIsTrimmed(col.text, pos, LastBoundary(col.text, pos, room));
    at := pos + LastBoundary(col.text, pos, room);
    LastBoundaryIsLast(col.text, pos, room);
    TrimmedIsWhitespace(col.text, pos, at - pos);
  }

  /** The characters of `s` that are not whitespace. */
  ghost function NonWhitespace(s: string): string {
    if s == [] then [] else (if IsWhitespace(s[0]) then [] else [s[0]]) + NonWhitespace(s[1..])
  }

  lemma {:induction false} NonWhitespaceAppend(a: string, b: string)
    ensures NonWhitespace(a + b) == NonWhitespace(a) + NonWhitespace(b)
    decreases |a|
  {
    if a == [] {
      assert a + b == b;
    } else {
      assert (a + b)[0] == a[0] && (a + b)[1..] == a[1..] + b;
      NonWhitespaceAppend(a[1..], b);
    }
  }

  lemma {:induction false} NothingButWhitespace(s: string)
    ensures NonWhitespace(s) == [] <==> forall i :: 0 <= i < |s| ==> IsWhitespace(s[i])
  {
    if s == [] {
    } else {
      NothingButWhitespace(s[1..]);
      assert forall i :: 0 < i < |s| ==> s[i] == s[1..][i - 1];
    }
  }

  /** The slices of the lines, one after the other. */
  ghost function Slices(text: string, lines: seq<Line>): string {
    if lines == [] then [] else Slice(text, lines[0]) + Slices(text, lines[1..])
  }

  lemma SlicesOneMore(text: string, line: Line, lines: seq<Line>)
    ensures Slices(text, [line] + lines) == Slice(text, line) + Slices(text, lines)
  {
    assert ([line] + lines)[1..] == lines;
  }

  lemma GapIsWhitespace(text: string, at: nat)
    requires at <= |text|
    ensures forall i :: at <= i < After(text, at) ==> IsWhitespace(text[i])
  {
    SkippedIsWhitespace(text, at);
  }

  lemma {:induction false} NothingLost(col: Column, pos: nat)
    requires HasRoom(col, 2) && pos <= |col.text|
    ensures NonWhitespace(Slices(col.text, LinesFrom(col, pos))) == NonWhitespace(col.text[pos..])
    decreases |col.text| - pos
  {
    hide LinesFrom, After, NonWhitespace, Slices, LineAt, LineEnd;
    SomeLineLeft(col, pos);
    if pos < |col.text| {
      OneLineMore(col, pos);
      var line := LineAt(col, pos);
      var next := After(col.text, pos + line.len);
      NothingLost(col, next);
      LineAndGap(col.text, line, LinesFrom(col, next));
    } else {
      EmptyRest(col.text);
    }
  }

  lemma EmptyRest(text: string)
    ensures NonWhitespace(Slices(text, [])) == NonWhitespace(text[|text|..])
  {
    assert text[|text|..] == [];
  }

  /** A line, the gap after it and the rest. */
  lemma LineAndGap(text: string, line: Line, others: seq<Line>)
    requires line.start + line.len <= |text|
    requires NonWhitespace(Slices(text, others)) == NonWhitespace(text[After(text, line.start + line.len)..])
    ensures NonWhitespace(Slices(text, [line] + others)) == NonWhitespace(text[line.start..])
  {
    hide After, NonWhitespace, Slices;
    var pos, at := line.start, line.start + line.len;
    var next := After(text, at);
    SlicesOneMore(text, line, others);
    GapIsWhitespace(text, at);
    SliceAndGap(text[pos..at], text[at..next], text[next..], Slices(text, others));
    assert text[pos..] == text[pos..at] + (text[at..next] + text[next..]);
  }

  lemma SliceAndGap(slice: string, gap: string, rest: string, others: string)
    requires forall i :: 0 <= i < |gap| ==> IsWhitespace(gap[i])
    requires NonWhitespace(others) == NonWhitespace(rest)
    ensures NonWhitespace(slice + others) == NonWhitespace(slice + (gap + rest))
  {
    NonWhitespaceAppend(slice, others);
    NonWhitespaceAppend(slice, gap + rest);
    NonWhitespaceAppend(gap, rest);
    NothingButWhitespace(gap);
  }

  /** The lines hold exactly the text's non-whitespace characters, in order, unless the text starts with a
      newline: then nothing is printed at all, which loses something exactly when there is something. */
  lemma LinesHoldTheText(col: Column)
    requires HasRoom(col, 2)
    ensures NonWhitespace(Slices(col.text, Lines(col))) == NonWhitespace(col.text) <==>
            col.text == [] || col.text[0] != '\n' || forall i :: 0 <= i < |col.text| ==> IsWhitespace(col.text[i])
  {
    NothingLost(col, 0);
    NothingButWhitespace(col.text);
    assert col.text[0..] == col.text;
  }
}
