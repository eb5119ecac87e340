/** Turning a child's standard output, read in arbitrary chunks, into lines.

    What the stream emits in one session (from a start to the next stop) is
    proved to depend on the bytes only, not on how the reads cut them, and to be
    the batch split of those bytes at newlines.
 */
module LineStream {

  function StripCr(line: string): string {
    if line != [] && line[|line| - 1] == '\r' then line[..|line| - 1] else line
  }

  function StripAll(lines: seq<string>): (r: seq<string>)
    ensures |r| == |lines| && forall i :: 0 <= i < |r| ==> r[i] == StripCr(lines[i])
  {
    seq(|lines|, i requires 0 <= i < |lines| => StripCr(lines[i]))
  }

  // --- batch splitting --------------------------------------------------------------------------

  /** The pieces of `s` between newlines; there is always at least one. */
  function Pieces(s: string): (r: seq<string>)
    ensures |r| >= 1
  {
    if s == [] then [[]]
    else
      var rest := Pieces(s[1..]);
      if s[0] == '\n' then [[]] + rest else [[s[0]] + rest[0]] + rest[1..]
  }

  ghost function Join(pieces: seq<string>): string
    requires pieces != []
  {
    if |pieces| == 1 then pieces[0] else pieces[0] + "\n" + Join(pieces[1..])
  }

  ghost predicate NewlineFree(pieces: seq<string>) {
    forall i :: 0 <= i < |pieces| ==> '\n' !in pieces[i]
  }

  lemma {:induction false} JoinPieces(s: string)
    ensures Join(Pieces(s)) == s && NewlineFree(Pieces(s))
  {
    if s == [] {
    } else {
      JoinPieces(s[1..]);
      var rest := Pieces(s[1..]);
      if s[0] == '\n' {
        assert Pieces(s)[1..] == rest;
      } else {
        assert Pieces(s)[1..] == rest[1..];
      }
    }
  }

  lemma {:induction false} PiecesOfPlain(a: string, s: string)
    requires '\n' !in a
    ensures Pieces(a + s) == [a + Pieces(s)[0]] + Pieces(s)[1..]
    ensures Pieces(a + "\n" + s) == [a] + Pieces(s)
    decreases |a|
  {
    if a == [] {
      assert a + s == s && a + "\n" + s == "\n" + s && ("\n" + s)[1..] == s;
      assert a + Pieces(s)[0] == Pieces(s)[0];
    } else {
      assert (a + s)[1..] == a[1..] + s && (a + "\n" + s)[1..] == a[1..] + "\n" + s;
      PiecesOfPlain(a[1..], s);
      assert (a + s)[0] == a[0] != '\n' && (a + "\n" + s)[0] == a[0];
      assert [a[0]] + (a[1..] + Pieces(s)[0]) == a + Pieces(s)[0];
      assert [a[0]] + a[1..] == a;
    }
  }

  /** Splitting and joining are inverse: the pieces are the only newline-free ones that join to the text. */
  lemma {:induction false} PiecesJoin(pieces: seq<string>)
    requires pieces != [] && NewlineFree(pieces)
    ensures Pieces(Join(pieces)) == pieces
    decreases |pieces|
  {
    if |pieces| == 1 {
      PiecesOfPlain(pieces[0], []);
      assert pieces[0] + [] == pieces[0];
    } else {
      PiecesJoin(pieces[1..]);
      PiecesOfPlain(pieces[0], Join(pieces[1..]));
    }
  }

  // --- the byte-at-a-time reference --------------------------------------------------------------

  /** What a session consists of: bytes read, and final flushes. */
  datatype Mark = Byte(c: char) | Flush

  datatype Emission = Emission(lines: seq<string>, rest: string)

  function Run(held: string, tape: seq<Mark>): Emission
    decreases |tape|
  {
    if tape == [] then Emission([], held)
    else
      match tape[0]
      case Byte(c) =>
        if c == '\n' then
          var later := Run([], tape[1..]);
          Emission([StripCr(held)] + later.lines, later.rest)
        else Run(held + [c], tape[1..])
      case Flush =>
        if held == [] then Run([], tape[1..])
        else
          var later := Run([], tape[1..]);
          Emission([StripCr(held)] + later.lines, later.rest)
  }

  function Bytes(s: string): (tape: seq<Mark>)
    ensures |tape| == |s| && forall i :: 0 <= i < |s| ==> tape[i] == Byte(s[i])
  {
    seq(|s|, i requires 0 <= i < |s| => Byte(s[i]))
  }

  lemma {:induction false} RunAppend(held: string, a: seq<Mark>, b: seq<Mark>)
    ensures var first := Run(held, a);
      var second := Run(first.rest, b);
      Run(held, a + b) == Emission(first.lines + second.lines, second.rest)
    decreases |a|
  {
    if a == [] {
      assert a + b == b;
    } else {
      assert (a + b)[0] == a[0] && (a + b)[1..] == a[1..] + b;
      match a[0]
      case Byte(c) => RunAppend(if c == '\n' then [] else held + [c], a[1..], b);
      case Flush => RunAppend([], a[1..], b);
    }
  }

  /** Bytes without a newline are only held. */
  lemma {:induction false} RunPlain(held: string, s: string)
    requires '\n' !in s
    ensures Run(held, Bytes(s)) == Emission([], held + s)
    decreases |s|
  {
    if s != [] {
      assert Bytes(s)[1..] == Bytes(s[1..]);
      assert held + [s[0]] + s[1..] == held + s;
      RunPlain(held + [s[0]], s[1..]);
    } else {
      assert held + s == held;
    }
  }

  /** A whole line is emitted, without its newline and one carriage return. */
  lemma RunLine(held: string, line: string, s: string)
    requires '\n' !in line
    ensures var later := Run([], Bytes(s));
      Run(held, Bytes(line + "\n" + s)) == Emission([StripCr(held + line)] + later.lines, later.rest)
  {
    RunPlain(held, line);
    assert Bytes(line + "\n" + s) == Bytes(line) + ([Byte('\n')] + Bytes(s));
    RunAppend(held, Bytes(line), [Byte('\n')] + Bytes(s));
    assert ([Byte('\n')] + Bytes(s))[1..] == Bytes(s);
  }

  lemma FirstLine(s: string, at: nat)
    requires at < |s| && '\n' !in s[..at] && s[at] == '\n'
    ensures var later := Run([], Bytes(s[at + 1..]));
      Run([], Bytes(s)) == Emission([StripCr(s[..at])] + later.lines, later.rest)
  {
    assert s == s[..at] + "\n" + s[at + 1..] && [] + s[..at] == s[..at];
    RunLine([], s[..at], s[at + 1..]);
  }

  lemma StripMore(pieces: seq<string>)
    requires |pieces| > 1
    ensures StripAll(pieces[..|pieces| - 1]) == [StripCr(pieces[0])] + StripAll(pieces[1..][..|pieces| - 2])
  {
  }

  lemma {:induction false} RunPieces(pieces: seq<string>)
    requires pieces != [] && NewlineFree(pieces)
    ensures Run([], Bytes(Join(pieces))) == Emission(StripAll(pieces[..|pieces| - 1]), pieces[|pieces| - 1])
    decreases |pieces|
  {
    hide Run;
    assert [] + pieces[0] == pieces[0];
    if |pieces| == 1 {
      RunPlain([], pieces[0]);
    } else {
      RunPieces(pieces[1..]);
      RunLine([], pieces[0], Join(pieces[1..]));
      StripMore(pieces);
    }
  }

  /** The bytes of a session emit the batch split: all pieces but the last, which is held. */
  lemma RunIsBatch(s: string)
    ensures var pieces := Pieces(s);
      Run([], Bytes(s)) == Emission(StripAll(pieces[..|pieces| - 1]), pieces[|pieces| - 1])
  {
    hide Run;
    JoinPieces(s);
    RunPieces(Pieces(s));
  }

  /** A line is emitted without its line end, whether that is a newline or a carriage return and a newline. */
  lemma LineEndsAreStripped(line: string)
    requires '\n' !in line
    ensures Run([], Bytes(line + "\r\n")).lines == [line]
    ensures line == [] || line[|line| - 1] != '\r' ==> Run([], Bytes(line + "\n")).lines == [line]
  {
    assert line + "\r\n" == (line + "\r") + "\n" + [] && line + "\n" == line + "\n" + [];
    assert [] + (line + "\r") == line + "\r" && [] + line == line && (line + "\r")[..|line|] == line;
    assert Bytes([]) == [] && Run([], []) == Emission([], []);
    RunLine([], line + "\r", []);
    RunLine([], line, []);
    hide Run;
  }

  /** A final flush emits the held piece if it is not empty. */
  lemma FlushedIsBatch(s: string)
    ensures var pieces := Pieces(s);
      var last := pieces[|pieces| - 1];
      Run([], Bytes(s) + [Flush]) ==
      Emission(StripAll(pieces[..|pieces| - 1]) + (if last == [] then [] else [StripCr(last)]), [])
  {
    RunIsBatch(s);
    RunAppend([], Bytes(s), [Flush]);
  }

  /** Flushing again emits nothing. */
  lemma FlushTwice(held: string, tape: seq<Mark>)
    ensures Run(held, tape + [Flush, Flush]) == Run(held, tape + [Flush])
  {
    RunAppend(held, tape, [Flush]);
    RunAppend(held, tape, [Flush, Flush]);
    var kept := Run(held, tape).rest;
    assert [Flush, Flush][1..] == [Flush];
  }

  /** Held bytes count as if they were read again with what follows. */
  lemma Fed(tape: seq<Mark>, held: string, s: string, marks: seq<Mark>)
    requires Run([], tape).rest == held && '\n' !in held
    ensures var r := Run([], Bytes(held + s) + marks);
      Run([], tape + (Bytes(s) + marks)) == Emission(Run([], tape).lines + r.lines, r.rest)
  {
    var next := Bytes(s) + marks;
    assert Bytes(held + s) + marks == Bytes(held) + next;
    assert Run([], Bytes(held) + next) == Run(held, next) by {
      RunPlain([], held);
      assert [] + held == held;
      RunAppend([], Bytes(held), next);
    }
    RunAppend([], tape, next);
  }

  // --- the stream ----------------------------------------------------------------------------------

  /** What one `read` of the non-blocking descriptor may give. */
  datatype Read = Data(chunk: string) | Eof | Interrupted | WouldBlock | Failed

  /** What draining the given results of `read` puts on the tape. */
  function Drained(results: seq<Read>, flush: bool): seq<Mark> {
    if results == [] then []
    else
      match results[0]
      case Data(chunk) => Bytes(chunk) + Drained(results[1..], flush)
      case Interrupted => Drained(results[1..], flush)
      case WouldBlock => []
      case _ => if flush then [Flush] else []
  }

  /** The bytes of the given results of `read`, up to the first that ends the draining. */
  function Received(results: seq<Read>): string {
    if results == [] then []
    else
      match results[0]
      case Data(chunk) => chunk + Received(results[1..])
      case Interrupted => Received(results[1..])
      case _ => []
  }

  /** The draining was ended by the end of the output or an error, not for want of more. */
  predicate Ended(results: seq<Read>) {
    results != []
    && match results[0]
       case Data(_) => Ended(results[1..])
       case Interrupted => Ended(results[1..])
       case WouldBlock => false
       case _ => true
  }

  lemma {:induction false} DrainedIsReceived(results: seq<Read>, flush: bool)
    ensures Drained(results, flush) == Bytes(Received(results)) + if flush && Ended(results) then [Flush] else []
  {
    if results == [] {
      assert Bytes([]) == [];
    } else {
      DrainedIsReceived(results[1..], flush);
      match results[0] {
        case Data(chunk) =>
          assert Bytes(chunk + Received(results[1..])) == Bytes(chunk) + Bytes(Received(results[1..]));
        case Interrupted =>
        case _ => assert Bytes([]) == [];
      }
    }
  }

  /** How the bytes were cut into reads, and how often these were interrupted, does not show on the tape. */
  lemma ChunkingDoesNotShow(results: seq<Read>, others: seq<Read>, flush: bool)
    requires Received(results) == Received(others) && Ended(results) == Ended(others)
    ensures Drained(results, flush) == Drained(others, flush)
  {
    DrainedIsReceived(results, flush);
    DrainedIsReceived(others, flush);
  }

  class LineStream {
    var buffer: string
    var running: bool
    var fdOpen: bool
    /** Everything handed to the output callback, in order. */
    var output: seq<string>

    /** What was read and flushed since the last stop, and how much had been emitted by then. */
    ghost var tape: seq<Mark>
    ghost var before: seq<string>

    /** The session so far has emitted and holds what the reference does. */
    ghost predicate Faithful()
      reads this
    {
      && '\n' !in buffer
      && Run([], tape).rest == buffer
      && output == before + Run([], tape).lines
    }

    /** ... and nothing is read after a flush, because the descriptor is then closed. */
    ghost predicate Valid()
      reads this
    {
      && Faithful()
      && (fdOpen ==> Flush !in tape)
      && FlushLast(tape)
    }

    /** At any time the output since the start is the batch split of the bytes read since then, the last piece
        being held, or emitted if there was a final flush and it is not empty. */
    lemma OutputIsBatch() returns (s: string, flushed: bool)
      requires Valid()
      ensures tape == Bytes(s) + if flushed then [Flush] else []
      ensures var pieces := Pieces(s);
        var last := pieces[|pieces| - 1];
        && output == before + StripAll(pieces[..|pieces| - 1]) + (if flushed && last != [] then [StripCr(last)] else [])
        && buffer == if flushed then [] else last
    {
      s := TapeOfSession(tape);
      flushed := Flush in tape;
      RunIsBatch(s);
      FlushedIsBatch(s);
      assert Flush !in Bytes(s);
      if tape != Bytes(s) {
        assert tape[|s|] == Flush;
      }
      assert Bytes(s) + [] == Bytes(s);
      hide Run, Pieces;
    }

    constructor ()
      ensures Valid() && output == [] && tape == [] && !fdOpen && !running
    {
      buffer, running, fdOpen, output := [], false, false, [];
      tape, before := [], [];
    }

    method Stop()
      modifies this
      ensures Valid() && tape == [] && buffer == [] && !fdOpen && !running
      ensures output == old(output) == before
    {
      running, fdOpen, buffer := false, false, [];
      tape, before := [], output;
    }

    method Start()
      modifies this
      ensures Valid() && tape == [] && buffer == [] && fdOpen && running
      ensures output == old(output) == before
    {
      Stop();
      running, fdOpen := true, true;
    }

    /** Emits the complete lines of the buffer, and the trailing piece if asked to. */
    method EmitBufferedLines(flush: bool)
      modifies this`buffer, this`output
      ensures var r := Run([], Bytes(old(buffer)) + if flush then [Flush] else []);
        buffer == r.rest && output == old(output) + r.lines
      ensures '\n' !in buffer
    {
      ghost var marks: seq<Mark> := if flush then [Flush] else [];
      RunAppend([], Bytes(buffer), marks);
      EmitCompleteLines();
      assert output + [] == output;
      if flush && buffer != [] {
        var line := buffer;
        buffer := [];
        output := output + [StripCr(line)];
      }
    }

    method EmitCompleteLines()
      modifies this`buffer, this`output
      ensures var r := Run([], Bytes(old(buffer)));
        buffer == r.rest && output == old(output) + r.lines
      ensures '\n' !in buffer
    {
      hide Run;
      ghost var all := Run([], Bytes(buffer));
      var at := FindNewline(buffer);
      while at < |buffer|
        invariant 0 <= at <= |buffer| && '\n' !in buffer[..at]
        invariant at < |buffer| ==> buffer[at] == '\n'
        invariant output + Run([], Bytes(buffer)).lines == old(output) + all.lines
        invariant Run([], Bytes(buffer)).rest == all.rest
        decreases |buffer|
      {
        FirstLine(buffer, at);
        var line := buffer[..at];
        buffer := buffer[at + 1..];
        output := output + [StripCr(line)];
        at := FindNewline(buffer);
      }
      assert buffer[..at] == buffer;
      RunPlain([], buffer);
      assert [] + buffer == buffer && output + [] == output;
    }

    static method FindNewline(s: string) returns (at: nat)
      ensures at <= |s| && '\n' !in s[..at] && (at < |s| ==> s[at] == '\n')
    {
      at := 0;
      while at < |s| && s[at] != '\n'
        invariant at <= |s| && '\n' !in s[..at]
      {
        at := at + 1;
      }
    }

    /** Reads until the descriptor has no more. */
    method DrainStdout(results: seq<Read>, flush: bool)
      requires Faithful()
      modifies this`buffer, this`output, this`tape
      ensures Faithful()
      ensures tape == old(tape) + if fdOpen then Drained(results, flush) else []
    {
      hide Run;
      if !fdOpen {
        return;
      }
      var i := 0;
      while i < |results|
        invariant i <= |results| && Faithful()
        invariant old(tape) + Drained(results, flush) == tape + Drained(results[i..], flush)
      {
        assert results[i..][0] == results[i] && results[i..][1..] == results[i + 1..];
        match results[i] {
          case Data(chunk) =>
            Fed(tape, buffer, chunk, []);
            buffer := buffer + chunk;
            EmitBufferedLines(false);
            tape := tape + (Bytes(chunk) + []);
          case Interrupted =>
          case WouldBlock =>
            return;
          case _ =>
            ghost var marks := if flush then [Flush] else [];
            Fed(tape, buffer, [], marks);
            assert buffer + [] == buffer && Bytes([]) + marks == marks;
            EmitBufferedLines(flush);
            tape := tape + marks;
            return;
        }
        i := i + 1;
      }
    }

    /** Output is ready or the other end hung up; returns whether to keep watching. */
    method HandleStdout(results: seq<Read>, hungUp: bool) returns (keep: bool)
      requires Valid()
      modifies this`buffer, this`output, this`tape, this`fdOpen
      ensures Valid()
      ensures tape == old(tape) + if old(fdOpen) then Drained(results, hungUp) else []
      ensures keep <==> running && !hungUp
      ensures fdOpen == (old(fdOpen) && keep)
    {
      DrainStdout(results, hungUp);
      FlushOnlyLast(results, hungUp);
      keep := running && !hungUp;
      if !keep {
        fdOpen := false;
      }
    }

    /** The child exited: drain what is left, with a flush, and close. */
    method HandleExit(results: seq<Read>)
      requires Valid()
      modifies this`buffer, this`output, this`tape, this`fdOpen, this`running
      ensures Valid() && !fdOpen && !running
      ensures tape == old(tape) + if old(fdOpen) then Drained(results, true) else []
    {
      if fdOpen {
        DrainStdout(results, true);
        FlushOnlyLast(results, true);
        fdOpen := false;
      }
      running := false;
    }
  }

  /** Nothing comes after a flush on this tape. */
  ghost predicate FlushLast(tape: seq<Mark>) {
    forall i :: 0 <= i < |tape| - 1 ==> tape[i] != Flush
  }

  /** Only a flushing drain flushes, and then last. */
  lemma {:induction false} FlushOnlyLast(results: seq<Read>, flush: bool)
    ensures FlushLast(Drained(results, flush))
    ensures !flush ==> Flush !in Drained(results, flush)
    decreases |results|
  {
    if results == [] {
    } else {
      FlushOnlyLast(results[1..], flush);
      if results[0].Data? {
        var bytes, later := Bytes(results[0].chunk), Drained(results[1..], flush);
        assert FlushLast(bytes + later) by {
          assert forall i :: 0 <= i < |bytes| ==> bytes[i] != Flush;
        }
      }
    }
  }

  /** What a session emits, given what its tape holds: the batch split of the bytes read, with the
      last piece only if the tape ends in the flush. */
  lemma SessionIsBatch(s: string, tape: seq<Mark>)
    requires tape == Bytes(s) || tape == Bytes(s) + [Flush]
    ensures var pieces := Pieces(s);
      var last := pieces[|pieces| - 1];
      Run([], tape).lines ==
      StripAll(pieces[..|pieces| - 1]) + if Flush in tape && last != [] then [StripCr(last)] else []
  {
    RunIsBatch(s);
    FlushedIsBatch(s);
    assert Flush !in Bytes(s);
    if tape != Bytes(s) {
      assert tape[|s|] == Flush;
    }
  }

  /** Every tape a session can have is of that kind. */
  lemma TapeOfSession(tape: seq<Mark>) returns (s: string)
    requires FlushLast(tape)
    ensures tape == Bytes(s) || tape == Bytes(s) + [Flush]
  {
    var n := if tape != [] && tape[|tape| - 1] == Flush then |tape| - 1 else |tape|;
    s := seq(n, i requires 0 <= i < n => match tape[i] case Byte(c) => c case Flush => ' ');
    assert tape[..n] == Bytes(s);
  }
}
