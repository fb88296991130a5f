/**
  The log of a raw exec's stderr (internal/host/execserver.go): whole lines, a limited number per
  second, and notices that count the lines left out.
*/
module ExecLog {
  import opened Common
  import opened Bytes
  import opened LogBuffer

  const LINES_PER_SECOND := 50
  const MAX_LINE := 4096
  const SECOND := 1000

  datatype Entry = Line(text: seq<Byte>) | Notice(suppressed: nat)

  /** The entries stand for exactly `lines`: each logged line for itself, a notice for `suppressed` others. */
  predicate Covers(entries: seq<Entry>, lines: seq<seq<Byte>>)
    decreases |entries|
  {
    if entries == [] then lines == []
    else
      var init, n := entries[..|entries| - 1], |lines|;
      match entries[|entries| - 1]
      case Line(text) => n >= 1 && lines[n - 1] == text && Covers(init, lines[..n - 1])
      case Notice(k) => 1 <= k <= n && Covers(init, lines[..n - k])
  }

  function Logged(entries: seq<Entry>): nat {
    if entries == [] then 0 else Logged(entries[..|entries| - 1]) + if entries[|entries| - 1].Line? then 1 else 0
  }

  function Suppressed(entries: seq<Entry>): nat {
    if entries == [] then 0
    else
      var last := entries[|entries| - 1];
      Suppressed(entries[..|entries| - 1]) + if last.Notice? then last.suppressed else 0
  }

  /** No line is lost without being counted. */
  lemma {:induction false} EveryLineIsCounted(entries: seq<Entry>, lines: seq<seq<Byte>>)
    requires Covers(entries, lines)
    ensures Logged(entries) + Suppressed(entries) == |lines|
    decreases |entries|
  {
    if entries != [] {
      var init, n := entries[..|entries| - 1], |lines|;
      match entries[|entries| - 1]
      case Line(_) => EveryLineIsCounted(init, lines[..n - 1]);
      case Notice(k) => EveryLineIsCounted(init, lines[..n - k]);
    }
  }

  lemma CoversLine(entries: seq<Entry>, lines: seq<seq<Byte>>, text: seq<Byte>)
    requires Covers(entries, lines)
    ensures Covers(entries + [Line(text)], lines + [text])
  {
    assert (entries + [Line(text)])[..|entries|] == entries;
    assert (lines + [text])[..|lines|] == lines;
  }

  lemma CoversNotice(entries: seq<Entry>, lines: seq<seq<Byte>>, k: nat)
    requires 1 <= k <= |lines| && Covers(entries, lines[..|lines| - k])
    ensures Covers(entries + [Notice(k)], lines)
  {
    assert (entries + [Notice(k)])[..|entries|] == entries;
  }

  lemma LoggedSnoc(entries: seq<Entry>, from: nat, entry: Entry)
    requires from <= |entries|
    ensures Logged((entries + [entry])[from..]) == Logged(entries[from..]) + if entry.Line? then 1 else 0
  {
    assert (entries + [entry])[from..] == entries[from..] + [entry];
    assert (entries[from..] + [entry])[..|entries[from..]|] == entries[from..];
  }

  // ---------------------------------------------------------------- which lines are handed on

  /** An unfinished line is cut into full pieces as long as it exceeds the limit. */
  function Pieces(text: seq<Byte>): seq<seq<Byte>> {
    if |text| <= MAX_LINE then [] else [TrimReturns(text[..MAX_LINE])] + Pieces(text[MAX_LINE..])
  }

  function Remainder(text: seq<Byte>): (rest: seq<Byte>)
    ensures |rest| <= MAX_LINE
  {
    if |text| <= MAX_LINE then text else Remainder(text[MAX_LINE..])
  }

  /** The pieces of an overlong line follow each other from its start, and what remains is the rest of it. */
  lemma {:induction false} PiecesFollow(text: seq<Byte>, i: nat)
    ensures |Pieces(text)| * MAX_LINE <= |text| && Remainder(text) == text[|Pieces(text)| * MAX_LINE..]
    ensures |text| > MAX_LINE ==> 0 < |Remainder(text)|
    ensures i < |Pieces(text)| ==> Pieces(text)[i] == TrimReturns(text[i * MAX_LINE..(i + 1) * MAX_LINE])
    decreases |text|
  {
    hide TrimReturns;
    if |text| > MAX_LINE {
      var rest, k := text[MAX_LINE..], if i == 0 then 0 else i - 1;
      PiecesFollow(rest, k);
      assert rest[|Pieces(rest)| * MAX_LINE..] == text[|Pieces(text)| * MAX_LINE..];
      assert 0 < i < |Pieces(text)| ==> rest[k * MAX_LINE..(k + 1) * MAX_LINE] == text[i * MAX_LINE..(i + 1) * MAX_LINE];
    }
  }

  datatype Handed = Handed(lines: seq<seq<Byte>>, rest: seq<Byte>)

  /** One write: the complete lines of what was kept and what came, then the pieces of an overlong rest. */
  function WriteNext(h: Handed, p: seq<Byte>): Handed {
    var all := h.rest + p;
    Handed(h.lines + CompleteLines(all) + Pieces(Rest(all)), Remainder(Rest(all)))
  }

  function Session(writes: seq<seq<Byte>>): Handed {
    if writes == [] then Handed([], [])
    else WriteNext(Session(writes[..|writes| - 1]), writes[|writes| - 1])
  }

  /** What is handed on after every write is what the bytes written so far consist of. */
  ghost predicate InLockStep(writes: seq<seq<Byte>>) {
    forall n :: 0 <= n <= |writes| ==>
      Session(writes[..n]) == Handed(CompleteLines(Concat(writes[..n])), Rest(Concat(writes[..n])))
  }

  ghost predicate NoLongRest(writes: seq<seq<Byte>>) {
    forall n :: 0 <= n <= |writes| ==> |Rest(Concat(writes[..n]))| <= MAX_LINE
  }

  /** The lines do not depend on how the bytes are cut into writes, unless a line is cut; then they always do. */
  lemma LockStepIffNoLongRest(writes: seq<seq<Byte>>)
    ensures InLockStep(writes) <==> NoLongRest(writes)
  {
    if NoLongRest(writes) {
      forall n | 0 <= n <= |writes|
        ensures Session(writes[..n]) == Handed(CompleteLines(Concat(writes[..n])), Rest(Concat(writes[..n])))
      {
        SessionFollows(writes, n);
      }
    }
    if InLockStep(writes) {
      forall n | 0 <= n <= |writes| ensures |Rest(Concat(writes[..n]))| <= MAX_LINE {
        SessionIsShort(writes[..n]);
      }
    }
  }

  lemma SessionIsShort(writes: seq<seq<Byte>>)
    ensures |Session(writes).rest| <= MAX_LINE
  {
  }

  lemma {:induction false} SessionFollows(writes: seq<seq<Byte>>, n: nat)
    requires n <= |writes| && NoLongRest(writes)
    ensures Session(writes[..n]) == Handed(CompleteLines(Concat(writes[..n])), Rest(Concat(writes[..n])))
    decreases n
  {
    hide CompleteLines, Rest;
    if n == 0 {
      assert writes[..0] == [];
      NothingWritten();
    } else {
      SessionFollows(writes, n - 1);
      var before, p := writes[..n - 1], writes[n - 1];
      assert writes[..n] == before + [p];
      assert writes[..n][..n - 1] == before;
      ConcatSnoc(before, p);
      LinesAppend(Concat(before), p);
      var lines := CompleteLines(Concat(before)) + CompleteLines(Rest(Concat(before)) + p);
      assert lines + [] == lines;
    }
  }

  lemma NothingWritten()
    ensures CompleteLines([]) == [] && Rest([]) == []
  {
  }

  // ---------------------------------------------------------------- the writer

  class ExecLogWriter {
    var partial: seq<Byte>
    var windowStart: int
    var lines: nat
    var suppressed: nat
    var log: seq<Entry>
    ghost var given: seq<seq<Byte>>    // every line handed to `Emit`
    ghost var windowFrom: nat          // the entries logged before the current window
    ghost var writes: seq<seq<Byte>>   // what was written since the last flush
    ghost var flushed: nat             // the lines given before it

    /**
      The log covers all lines but the newest `suppressed`, which are only suppressed while the
      current window is full; `lines` is the number of lines logged in this window.
    */
    ghost predicate Accounts()
      reads `lines, `suppressed, `log, `given, `windowFrom
    {
      && lines <= LINES_PER_SECOND && (suppressed > 0 ==> lines == LINES_PER_SECOND)
      && suppressed <= |given| && Covers(log, given[..|given| - suppressed])
      && windowFrom <= |log| && Logged(log[windowFrom..]) == lines
    }

    ghost predicate Valid()
      reads this
    {
      && Accounts()
      && flushed <= |given|
      && Handed(given[flushed..], partial) == Session(writes)
    }

    constructor ()
      ensures Valid() && log == [] && given == [] && writes == [] && flushed == 0
    {
      partial, windowStart, lines, suppressed, log := [], 0, 0, 0, [];
      given, windowFrom, writes, flushed := [], 0, [], 0;
    }

    method ReportSuppressed()
      requires Accounts()
      modifies `log, `suppressed
      ensures Accounts() && suppressed == 0
      ensures log == if old(suppressed) > 0 then old(log) + [Notice(old(suppressed))] else old(log)
    {
      if suppressed > 0 {
        CoversNotice(log, given, suppressed);
        LoggedSnoc(log, windowFrom, Notice(suppressed));
        log, suppressed := log + [Notice(suppressed)], 0;
        assert given[..|given|] == given;
      }
    }

    /**
      Logs a line, or counts it: of each window, which lasts a second at least, no more than 50
      lines are logged.
    */
    method Emit(line: seq<Byte>)
      requires Accounts()
      modifies `log, `suppressed, `windowStart, `lines, `given, `windowFrom
      ensures Accounts() && given == old(given) + [TrimReturns(line)]
      ensures Logged(log[windowFrom..]) <= LINES_PER_SECOND
      ensures old(log) <= log
      ensures windowStart == old(windowStart) || windowStart - old(windowStart) >= SECOND
      ensures windowStart == old(windowStart) ==> windowFrom == old(windowFrom)
      ensures windowStart != old(windowStart) ==> |old(log)| <= windowFrom && suppressed == 0
      ensures windowStart == old(windowStart) ==> suppressed == old(suppressed) + if old(lines) < LINES_PER_SECOND then 0 else 1
    {
      hide Covers, Logged;
      var text := TrimReturns(line);
      var now: int := *;
      if now - windowStart >= SECOND {
        StartWindow(now);
      }
      ghost var reported := given[..|given| - suppressed];
      if lines >= LINES_PER_SECOND {
        suppressed := suppressed + 1;
        given := given + [text];
        assert given[..|given| - suppressed] == reported;
        return;
      }
      LogLine(text);
    }

    method StartWindow(now: int)
      requires Accounts()
      modifies `log, `suppressed, `windowStart, `lines, `windowFrom
      ensures Accounts() && suppressed == lines == 0 && windowStart == now
      ensures windowFrom == |log| && old(log) <= log
    {
      ReportSuppressed();
      windowStart, lines, windowFrom := now, 0, |log|;
      assert log[windowFrom..] == [];
    }

    /** While the window is not full, nothing is suppressed, so the line follows all earlier ones. */
    method LogLine(text: seq<Byte>)
      requires Accounts() && lines < LINES_PER_SECOND
      modifies `log, `lines, `given
      ensures Accounts() && log == old(log) + [Line(text)] && given == old(given) + [text]
    {
      assert given[..|given|] == given;
      CoversLine(log, given, text);
      LoggedSnoc(log, windowFrom, Line(text));
      lines, log, given := lines + 1, log + [Line(text)], given + [text];
      assert given[..|given|] == given;
    }

    /** Hands on all complete lines of what is kept. */
    method EmitLines()
      requires Accounts()
      modifies `log, `suppressed, `windowStart, `lines, `given, `windowFrom, `partial
      ensures Accounts() && given == old(given) + CompleteLines(old(partial)) && old(log) <= log
      ensures partial == Rest(old(partial))
    {
      hide Accounts, TrimReturns;
      ghost var done: seq<seq<Byte>> := [];
      while true
        invariant Accounts() && given == old(given) + done && old(log) <= log
        invariant done + CompleteLines(partial) == CompleteLines(old(partial))
        invariant Rest(partial) == Rest(old(partial))
        decreases |partial|
      {
        var n := LineEnd(partial);
        if n == |partial| { break; }
        ghost var line, rest := TrimReturns(partial[..n]), CompleteLines(partial[n + 1..]);
        Emit(partial[..n]);
        Regroup(old(given), done, [line]);
        Regroup(done, [line], rest);
        partial, done := partial[n + 1..], done + [line];
      }
      assert done + [] == done;
    }

    /** Cuts an overlong unfinished line. */
    method CutLongLine()
      requires Accounts()
      modifies `log, `suppressed, `windowStart, `lines, `given, `windowFrom, `partial
      ensures Accounts() && old(log) <= log
      ensures given == old(given) + Pieces(old(partial)) && partial == Remainder(old(partial))
    {
      hide Accounts, TrimReturns;
      ghost var done: seq<seq<Byte>> := [];
      while |partial| > MAX_LINE
        invariant Accounts() && given == old(given) + done && old(log) <= log
        invariant done + Pieces(partial) == Pieces(old(partial))
        invariant Remainder(partial) == Remainder(old(partial))
        decreases |partial|
      {
        ghost var piece, rest := TrimReturns(partial[..MAX_LINE]), Pieces(partial[MAX_LINE..]);
        Emit(partial[..MAX_LINE]);
        Regroup(old(given), done, [piece]);
        Regroup(done, [piece], rest);
        partial, done := partial[MAX_LINE..], done + [piece];
      }
      assert done + [] == done;
    }

    method Write(p: seq<Byte>)
      requires Valid()
      modifies this
      ensures Valid() && writes == old(writes) + [p] && flushed == old(flushed)
      ensures old(given) <= given && old(log) <= log
    {
      hide Accounts, CompleteLines, Rest, Pieces, Remainder;
      ghost var all := partial + p;
      partial := partial + p;
      EmitLines();
      CutLongLine();
      assert given[flushed..] == old(given)[flushed..] + CompleteLines(all) + Pieces(Rest(all));
      writes := writes + [p];
      assert writes[..|writes| - 1] == old(writes);
    }

    /** Hands on the unfinished line and reports what is still suppressed: then every line is accounted for. */
    method Flush()
      requires Valid()
      modifies this
      ensures Valid() && Covers(log, given) && suppressed == 0 && writes == [] && flushed == |given|
      ensures given == old(given) + (if old(partial) == [] then [] else [TrimReturns(old(partial))])
    {
      hide Covers, Logged, CompleteLines, Rest, Pieces, TrimReturns;
      if |partial| > 0 {
        Emit(partial);
        partial := [];
      }
      ReportSuppressed();
      writes, flushed := [], |given|;
      assert given[..|given|] == given && given[|given|..] == [];
    }
  }
}
