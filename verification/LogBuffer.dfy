/** The log view's ring of lines (internal/host/tui/logbuffer.go). */
module LogBuffer {
  import opened Common
  import opened Bytes
  import opened Rings

  const DEFAULT_SIZE := 100
  const NEWLINE: Byte := 10
  const RETURN: Byte := 13

  // ---------------------------------------------------------------- lines of a byte stream

  /** The position of the first newline, or the length. */
  function LineEnd(text: seq<Byte>): (n: nat)
    ensures n <= |text| && NEWLINE !in text[..n]
    ensures n < |text| ==> text[n] == NEWLINE
  {
    if text == [] || text[0] == NEWLINE then 0
    else
      var n := 1 + LineEnd(text[1..]);
      assert text[..n] == [text[0]] + text[1..][..n - 1];
      n
  }

  function TrimReturns(line: seq<Byte>): seq<Byte> {
    if line != [] && line[|line| - 1] == RETURN then TrimReturns(line[..|line| - 1]) else line
  }

  /** All lines that end with a newline, without it and the carriage returns before it. */
  function CompleteLines(text: seq<Byte>): seq<seq<Byte>> {
    var n := LineEnd(text);
    if n == |text| then [] else [TrimReturns(text[..n])] + CompleteLines(text[n + 1..])
  }

  /** What follows the last newline. */
  function Rest(text: seq<Byte>): seq<Byte> {
    var n := LineEnd(text);
    if n == |text| then text else Rest(text[n + 1..])
  }

  lemma {:induction false} LineEndIsFirst(text: seq<Byte>, n: nat)
    requires n < |text| && text[n] == NEWLINE && NEWLINE !in text[..n]
    ensures LineEnd(text) == n
  {
    if n > 0 {
      assert text[..n] == [text[0]] + text[1..][..n - 1];
      LineEndIsFirst(text[1..], n - 1);
    }
  }

  /** Reading can stop anywhere and go on with the rest: lines do not depend on how the bytes were cut. */
  lemma {:induction false} LinesAppend(a: seq<Byte>, b: seq<Byte>)
    ensures CompleteLines(a + b) == CompleteLines(a) + CompleteLines(Rest(a) + b)
    ensures Rest(a + b) == Rest(Rest(a) + b)
    decreases |a|
  {
    hide TrimReturns;
    var n := LineEnd(a);
    if n < |a| {
      var rest := a[n + 1..];
      assert (a + b)[..n] == a[..n] && (a + b)[n + 1..] == rest + b;
      LineEndIsFirst(a + b, n);
      LinesStep(a, n);
      LinesStep(a + b, n);
      LinesAppend(rest, b);
      hide CompleteLines, Rest, LineEnd;
      Regroup([TrimReturns(a[..n])], CompleteLines(rest), CompleteLines(Rest(rest) + b));
    } else {
      assert [] + CompleteLines(a + b) == CompleteLines(a + b);
    }
  }

  lemma LinesStep(text: seq<Byte>, n: nat)
    requires n == LineEnd(text) < |text|
    ensures CompleteLines(text) == [TrimReturns(text[..n])] + CompleteLines(text[n + 1..])
    ensures Rest(text) == Rest(text[n + 1..])
  {
  }

  lemma NoLineEnd(text: seq<Byte>)
    requires LineEnd(text) == |text|
    ensures CompleteLines(text) == [] && Rest(text) == text
  {
  }

  // ---------------------------------------------------------------- what a line contains

  /** A line as it can be stored: without a newline, and not ending in a carriage return. */
  predicate IsLine(line: seq<Byte>) {
    NEWLINE !in line && (line != [] ==> line[|line| - 1] != RETURN)
  }

  function Returns(n: nat): seq<Byte> {
    if n == 0 then [] else Returns(n - 1) + [RETURN]
  }

  /** Lines as a program writes them: each ends with any number of carriage returns and a newline. */
  function Written(lines: seq<seq<Byte>>, endings: seq<nat>): seq<Byte>
    requires |endings| == |lines|
    decreases |lines|
  {
    if lines == [] then [] else lines[0] + Returns(endings[0]) + [NEWLINE] + Written(lines[1..], endings[1..])
  }

  lemma {:induction false} TrimUndoesReturns(line: seq<Byte>, n: nat)
    requires IsLine(line)
    ensures TrimReturns(line + Returns(n)) == line && NEWLINE !in line + Returns(n)
    decreases n
  {
    if n == 0 {
      assert line + [] == line;
    } else {
      TrimUndoesReturns(line, n - 1);
      assert (line + Returns(n))[..|line + Returns(n)| - 1] == line + Returns(n - 1);
    }
  }

  /** Every text reads back as the lines it was made of, byte for byte, and what follows the last newline is kept. */
  lemma {:induction false} LinesReadBack(lines: seq<seq<Byte>>, endings: seq<nat>, rest: seq<Byte>)
    requires |endings| == |lines| && NEWLINE !in rest
    requires forall i :: 0 <= i < |lines| ==> IsLine(lines[i])
    ensures CompleteLines(Written(lines, endings) + rest) == lines && Rest(Written(lines, endings) + rest) == rest
    decreases |lines|
  {
    hide IsLine, TrimReturns, Returns;
    if lines == [] {
      assert [] + rest == rest;
      NoNewlineNoEnd(rest);
      NoLineEnd(rest);
    } else {
      var first, more := lines[0] + Returns(endings[0]), Written(lines[1..], endings[1..]) + rest;
      var text := first + [NEWLINE] + more;
      assert Written(lines, endings) + rest == text;
      TrimUndoesReturns(lines[0], endings[0]);
      assert text[..|first|] == first && text[|first|] == NEWLINE && text[|first| + 1..] == more;
      LineEndIsFirst(text, |first|);
      LinesStep(text, |first|);
      LinesReadBack(lines[1..], endings[1..], rest);
      assert lines == [lines[0]] + lines[1..];
    }
  }

  lemma NoNewlineNoEnd(text: seq<Byte>)
    requires NEWLINE !in text
    ensures LineEnd(text) == |text|
  {
  }

  class LogBuffer {
    const size: nat
    const lines: array<seq<Byte>>
    var pos: nat
    var full: bool
    var partial: seq<Byte>
    var updated: bool              // a notification is pending
    ghost var written: seq<Byte>   // all bytes ever written

    /** The ring holds the last `size` complete lines of all bytes written. */
    ghost predicate Valid()
      reads this, lines
    {
      && 0 < size == lines.Length && pos < size
      && RingList(lines[..], pos, full) == LastN(CompleteLines(written), size)
      && partial == Rest(written)
    }

    constructor (size: int)
      ensures Valid() && fresh(lines) && written == [] && !updated
      ensures this.size == if size <= 0 then DEFAULT_SIZE else size
    {
      var actual: nat := if size <= 0 then DEFAULT_SIZE else size;
      this.size := actual;
      lines := new seq<Byte>[actual](_ => []);
      pos, full, partial, updated, written := 0, false, [], false, [];
    }

    /** The ring stands for the newest of these lines. */
    ghost predicate Holds(all: seq<seq<Byte>>)
      reads `pos, `full, lines
    {
      0 < size == lines.Length && pos < size && RingList(lines[..], pos, full) == LastN(all, size)
    }

    method AddLine(line: seq<Byte>, ghost all: seq<seq<Byte>>)
      requires Holds(all)
      modifies `pos, `full, lines
      ensures Holds(all + [line])
    {
      RingPush(lines[..], pos, full, line);
      LastNPush(all, line, size);
      ghost var was := lines[..];
      lines[pos] := line;
      assert lines[..] == was[pos := line];
      pos := pos + 1;
      if pos >= size { pos, full := 0, true; }
    }

    /** However the bytes are cut into writes, the stored lines are those of the whole stream. */
    method Write(p: seq<Byte>)
      requires Valid()
      modifies this, lines
      ensures Valid() && written == old(written) + p && updated
    {
      LinesAppend(written, p);
      assert Holds(CompleteLines(written));
      hide RingList, LastN, CompleteLines, Rest, Holds;
      var text := AddLines(partial + p, CompleteLines(written));
      partial, updated, written := text, true, written + p;
      assert Valid() by { HoldsMeans(CompleteLines(written)); }
    }

    lemma HoldsMeans(all: seq<seq<Byte>>)
      requires Holds(all)
      ensures 0 < size == lines.Length && pos < size && RingList(lines[..], pos, full) == LastN(all, size)
    {
    }

    /** Adds the complete lines of a text and returns the rest. */
    method AddLines(text: seq<Byte>, ghost all: seq<seq<Byte>>) returns (rest: seq<Byte>)
      requires Holds(all)
      modifies `pos, `full, lines
      ensures Holds(all + CompleteLines(text)) && rest == Rest(text)
    {
      hide RingList, LastN, TrimReturns, CompleteLines, Rest, Holds;
      rest := text;
      ghost var seen := [];
      assert all + [] == all && [] + CompleteLines(text) == CompleteLines(text);
      while true
        invariant Holds(all + seen)
        invariant seen + CompleteLines(rest) == CompleteLines(text)
        invariant Rest(rest) == Rest(text)
        decreases |rest|
      {
        var n := LineEnd(rest);
        if n == |rest| {
          NoLineEnd(rest);
          break;
        }
        LinesStep(rest, n);
        var line := TrimReturns(rest[..n]);
        AddLine(line, all + seen);
        Regroup(all, seen, [line]);
        Regroup(seen, [line], CompleteLines(rest[n + 1..]));
        seen := seen + [line];
        rest := rest[n + 1..];
      }
      assert seen + [] == seen;
    }

    /** The last `size` complete lines, oldest first. */
    method Lines() returns (result: seq<seq<Byte>>)
      requires Valid()
      ensures result == LastN(CompleteLines(written), size)
    {
      if !full { return lines[..pos]; }
      return lines[pos..] + lines[..pos];
    }
  }
}
