/**
  The ANSI stream transducer of the shell's terminal UI (internal/host/tui/model.go).

  PTY output arrives in arbitrary chunks. `SplitCompleteANSI` cuts a chunk into plain text and
  complete escape sequences, `Model.WritePTYOutput` carries an incomplete tail to the next call,
  replaces a scroll region reset and repairs the region after sequences that undo it.

  The specification is a transducer that looks at one byte at a time (`Step`, `Feed`). It has no
  notion of a chunk, so a batch form that refines it cannot depend on where the stream is cut.
*/
module AnsiStream {
  import opened Common
  import opened Bytes

  const BEL: Byte := 0x07
  const ESC: Byte := 0x1b
  const BACKSLASH: Byte := 0x5c

  /** Pending bytes beyond this limit are written out instead of being kept. */
  const MAX_PENDING := 4096

  // ---------------------------------------------------------------- escape sequences

  predicate IsStringIntroducer(b: Byte) {
    b == 0x5d || b == 0x50 || b == 0x5e || b == 0x5f  // ] P ^ _
  }

  /** The last byte of `s` ends an escape sequence of the kind that `s` begins. */
  predicate Closes(s: seq<Byte>) {
    && |s| >= 2
    && s[0] == ESC
    && var last := s[|s| - 1];
       if s[1] == 0x5b then
         |s| >= 3 && 0x40 <= last <= 0x7e
       else if IsStringIntroducer(s[1]) then
         |s| >= 3 && (last == BEL || (|s| >= 4 && s[|s| - 2] == ESC && last == BACKSLASH))
       else
         0x30 <= last <= 0x7e
  }

  /** No prefix of `s` is a complete escape sequence. */
  ghost predicate NeverCloses(s: seq<Byte>) {
    forall k :: 0 <= k <= |s| ==> !Closes(s[..k])
  }

  /** `s` is one escape sequence: it ends at its last byte and not before. */
  ghost predicate IsSequence(s: seq<Byte>) {
    Closes(s) && forall k :: 0 <= k < |s| ==> !Closes(s[..k])
  }

  /** `s` is the beginning of an escape sequence that has not ended yet. */
  ghost predicate IsPartial(s: seq<Byte>) {
    |s| > 0 && s[0] == ESC && NeverCloses(s)
  }

  ghost predicate IsPlain(s: seq<Byte>) {
    |s| > 0 && ESC !in s
  }

  /** What a call may leave for the next one: nothing, or an unfinished sequence. */
  ghost predicate IsTail(s: seq<Byte>) {
    s == [] || IsPartial(s)
  }

  /** Which byte ends the sequence that `s` begins. */
  lemma ClosesAt(s: seq<Byte>, n: nat)
    requires 1 <= n < |s| && s[0] == ESC
    ensures s[1] == 0x5b ==> (Closes(s[..n + 1]) <==> n >= 2 && 0x40 <= s[n] <= 0x7e)
    ensures IsStringIntroducer(s[1]) ==>
              (Closes(s[..n + 1]) <==> n >= 2 && (s[n] == BEL || (n >= 3 && s[n - 1] == ESC && s[n] == BACKSLASH)))
    ensures s[1] != 0x5b && !IsStringIntroducer(s[1]) ==> (Closes(s[..n + 1]) <==> 0x30 <= s[n] <= 0x7e)
  {
    var t := s[..n + 1];
    assert t[0] == s[0] && t[1] == s[1] && t[n] == s[n] && t[n - 1] == s[n - 1];
  }

  lemma NeverClosesEarly(s: seq<Byte>)
    ensures |s| < 2 ==> !Closes(s)
    ensures |s| == 2 && (s[1] == 0x5b || IsStringIntroducer(s[1])) ==> !Closes(s)
  {
  }

  /** Finds the end of the escape sequence that begins at `start`; 0 when the data ends first. */
  method AnsiSequenceEnd(data: seq<Byte>, start: nat) returns (end: nat)
    requires start < |data| && data[start] == ESC
    ensures end == 0 ==> IsPartial(data[start..])
    ensures end != 0 ==> start < end <= |data| && IsSequence(data[start..end])
  {
    hide Closes, IsSequence;
    ghost var rest := data[start..];
    assert rest[..|rest|] == rest;
    NeverClosesEarly(rest[..0]);
    NeverClosesEarly(rest[..1]);
    if start + 1 >= |data| {
      return 0;
    }
    NeverClosesEarly(rest[..2]);
    if data[start + 1] == 0x5b {
      var i := start + 2;
      while i < |data|
        invariant start + 2 <= i <= |data|
        invariant forall k :: 0 <= k <= i - start ==> !Closes(rest[..k])
      {
        ClosesAt(rest, i - start);
        if data[i] >= 0x40 && data[i] <= 0x7e {
          EndFound(data, start, i + 1);
          return i + 1;
        }
        i := i + 1;
      }
      return 0;
    } else if IsStringIntroducer(data[start + 1]) {
      var i := start + 2;
      while i < |data|
        invariant start + 2 <= i <= |data|
        invariant forall k :: 0 <= k <= i - start ==> !Closes(rest[..k])
        invariant i > start + 2 && i < |data| && data[i] == BACKSLASH ==> data[i - 1] != ESC
      {
        ClosesAt(rest, i - start);
        if data[i] == BEL {
          EndFound(data, start, i + 1);
          return i + 1;
        }
        if data[i] == ESC && i + 1 < |data| && data[i + 1] == BACKSLASH {
          ClosesAt(rest, i + 1 - start);
          EndFound(data, start, i + 2);
          return i + 2;
        }
        i := i + 1;
      }
      return 0;
    } else {
      var i := start + 1;
      while i < |data|
        invariant start + 1 <= i <= |data|
        invariant forall k :: 0 <= k <= i - start ==> !Closes(rest[..k])
      {
        ClosesAt(rest, i - start);
        if data[i] >= 0x30 && data[i] <= 0x7e {
          EndFound(data, start, i + 1);
          return i + 1;
        }
        i := i + 1;
      }
      return 0;
    }
  }

  lemma EndFound(data: seq<Byte>, start: nat, end: nat)
    requires start < end <= |data|
    requires Closes(data[start..][..end - start])
    requires forall k :: 0 <= k < end - start ==> !Closes(data[start..][..k])
    ensures IsSequence(data[start..end])
  {
    assert data[start..end] == data[start..][..end - start];
    forall k | 0 <= k < end - start ensures !Closes(data[start..end][..k]) {
      assert data[start..end][..k] == data[start..][..k];
    }
  }

  // ---------------------------------------------------------------- cutting a chunk

  ghost predicate ArePieces(parts: seq<seq<Byte>>) {
    && (forall k :: 0 <= k < |parts| ==> IsPlain(parts[k]) || IsSequence(parts[k]))
    // plain text is never cut in two
    && (forall k :: 0 < k < |parts| && IsPlain(parts[k]) ==> IsSequence(parts[k - 1]))
  }

  lemma PiecesSnoc(parts: seq<seq<Byte>>, part: seq<Byte>)
    requires ArePieces(parts)
    requires IsSequence(part) || (IsPlain(part) && (parts == [] || IsSequence(parts[|parts| - 1])))
    ensures ArePieces(parts + [part])
  {
    if IsSequence(part) {
      assert part[0] == ESC && part[0] in part;
    }
  }

  /** The first `n` bytes of `data` have been cut into `parts`. */
  ghost predicate CutUpTo(data: seq<Byte>, n: nat, parts: seq<seq<Byte>>) {
    n <= |data| && ArePieces(parts) && Concat(parts) == data[..n]
  }

  lemma CutMore(data: seq<Byte>, from: nat, to: nat, parts: seq<seq<Byte>>)
    requires from <= to <= |data|
    requires CutUpTo(data, from, parts)
    requires IsSequence(data[from..to])
          || (IsPlain(data[from..to]) && (parts == [] || IsSequence(parts[|parts| - 1])))
    ensures CutUpTo(data, to, parts + [data[from..to]])
  {
    PiecesSnoc(parts, data[from..to]);
    ConcatSnoc(parts, data[from..to]);
    assert data[..to] == data[..from] + data[from..to];
  }

  /** Cuts `data` into plain text and complete escape sequences; the unfinished rest is `pending`. */
  method SplitCompleteANSI(data: seq<Byte>) returns (parts: seq<seq<Byte>>, pending: seq<Byte>)
    ensures Concat(parts) + pending == data
    ensures ArePieces(parts)
    ensures IsTail(pending)
  {
    parts := [];
    var plainStart, i := 0, 0;
    while i < |data|
      invariant 0 <= plainStart <= i <= |data|
      invariant ESC !in data[plainStart..i]
      invariant CutUpTo(data, plainStart, parts)
      invariant parts == [] || IsSequence(parts[|parts| - 1])
      decreases |data| - i
    {
      if data[i] != ESC {
        assert data[plainStart..i + 1] == data[plainStart..i] + [data[i]];
        i := i + 1;
        continue;
      }
      if i > plainStart {
        CutMore(data, plainStart, i, parts);
        parts := parts + [data[plainStart..i]];
      }
      var end := AnsiSequenceEnd(data, i);
      if end == 0 {
        assert data == data[..i] + data[i..];
        return parts, data[i..];
      }
      CutMore(data, i, end, parts);
      parts := parts + [data[i..end]];
      i := end;
      plainStart := i;
    }
    if plainStart < |data| {
      assert data[plainStart..] == data[plainStart..|data|];
      CutMore(data, plainStart, |data|, parts);
      parts := parts + [data[plainStart..]];
    }
    assert data[..|data|] == data;
    pending := [];
  }

  // ---------------------------------------------------------------- what a sequence becomes

  const RESET_SCROLL_REGION: seq<Byte> := [ESC, 0x5b, 0x72]
  const FULL_RESET: seq<Byte> := [ESC, 0x63]
  const ENTER_ALT_SCREEN: seq<Byte> := [ESC, 0x5b, 0x3f, 0x31, 0x30, 0x34, 0x39, 0x68]
  const EXIT_ALT_SCREEN: seq<Byte> := [ESC, 0x5b, 0x3f, 0x31, 0x30, 0x34, 0x39, 0x6c]

  predicate RepairsTerminalState(part: seq<Byte>) {
    || part == FULL_RESET
    || part == ENTER_ALT_SCREEN
    || part == EXIT_ALT_SCREEN
    || part == [ESC, 0x5b, 0x3f, 0x34, 0x37, 0x68]
    || part == [ESC, 0x5b, 0x3f, 0x34, 0x37, 0x6c]
    || part == [ESC, 0x5b, 0x3f, 0x31, 0x30, 0x34, 0x37, 0x68]
    || part == [ESC, 0x5b, 0x3f, 0x31, 0x30, 0x34, 0x37, 0x6c]
  }

  predicate IsClearSequence(part: seq<Byte>) {
    || part == [ESC, 0x5b, 0x32, 0x4a]
    || part == [ESC, 0x5b, 0x33, 0x4a]
    || part == FULL_RESET
    || part == [ESC, 0x5b, 0x48]
  }

  function Digit(n: nat): Byte
    requires n < 10
  {
    0x30 + n
  }

  function Decimal(n: nat): seq<Byte> {
    if n < 10 then [Digit(n)] else Decimal(n / 10) + [Digit(n % 10)]
  }

  function CalculateShellHeight(totalHeight: int, statusHeight: int): (h: nat)
    ensures h >= 1
  {
    if totalHeight - statusHeight < 1 then 1 else totalHeight - statusHeight
  }

  function SetScrollRegion(top: nat, bottom: nat): seq<Byte> {
    [ESC, 0x5b] + Decimal(top) + [0x3b] + Decimal(bottom) + [0x72]
  }

  /** The bytes written for one part, with `region` the sequence that restores the shell's region. */
  function Render(part: seq<Byte>, region: seq<Byte>): seq<Byte> {
    if part == RESET_SCROLL_REGION then region
    else if RepairsTerminalState(part) then part + region
    else part
  }

  predicate Redraws(part: seq<Byte>) {
    part == RESET_SCROLL_REGION || RepairsTerminalState(part) || IsClearSequence(part)
  }

  // ---------------------------------------------------------------- the byte-at-a-time transducer

  /** What has been written, what is held back, and whether the status bar must be redrawn. */
  datatype Feed = Feed(out: seq<Byte>, pending: seq<Byte>, redraw: bool) {
    function Then(next: Feed): Feed {
      Feed(out + next.out, next.pending, redraw || next.redraw)
    }
  }

  function Step(pending: seq<Byte>, b: Byte, region: seq<Byte>): Feed {
    if pending == [] && b != ESC then Feed([b], [], false)
    else if Closes(pending + [b]) then Feed(Render(pending + [b], region), [], Redraws(pending + [b]))
    else Feed([], pending + [b], false)
  }

  function FeedAll(pending: seq<Byte>, data: seq<Byte>, region: seq<Byte>): Feed
    decreases |data|
  {
    if data == [] then Feed([], pending, false)
    else
      var first := Step(pending, data[0], region);
      first.Then(FeedAll(first.pending, data[1..], region))
  }

  lemma {:induction false} FeedAppend(pending: seq<Byte>, a: seq<Byte>, b: seq<Byte>, region: seq<Byte>)
    ensures FeedAll(pending, a + b, region)
         == FeedAll(pending, a, region).Then(FeedAll(FeedAll(pending, a, region).pending, b, region))
    decreases |a|
  {
    if a == [] {
      assert a + b == b;
      var f := FeedAll(pending, b, region);
      assert [] + f.out == f.out;
    } else {
      assert (a + b)[0] == a[0] && (a + b)[1..] == a[1..] + b;
      var first := Step(pending, a[0], region);
      FeedAppend(first.pending, a[1..], b, region);
      var f, g := FeedAll(first.pending, a[1..], region), FeedAll(FeedAll(pending, a, region).pending, b, region);
      assert first.out + (f.out + g.out) == (first.out + f.out) + g.out;
    }
  }

  lemma FeedSnoc(pending: seq<Byte>, a: seq<Byte>, b: Byte, region: seq<Byte>)
    ensures FeedAll(pending, a + [b], region)
         == FeedAll(pending, a, region).Then(Step(FeedAll(pending, a, region).pending, b, region))
  {
    FeedAppend(pending, a, [b], region);
    var f := FeedAll(pending, a, region);
    var step := Step(f.pending, b, region);
    assert FeedAll(f.pending, [b], region) == step.Then(FeedAll(step.pending, [], region));
    assert step.out + [] == step.out;
  }

  lemma {:induction false} FeedPlain(s: seq<Byte>, region: seq<Byte>)
    requires ESC !in s
    ensures FeedAll([], s, region) == Feed(s, [], false)
  {
    if s != [] {
      FeedPlain(s[1..], region);
      assert [s[0]] + s[1..] == s;
    }
  }

  lemma {:induction false} FeedPartial(s: seq<Byte>, region: seq<Byte>)
    requires IsTail(s)
    ensures FeedAll([], s, region) == Feed([], s, false)
  {
    if |s| > 1 {
      var init := s[..|s| - 1];
      assert s == init + [s[|s| - 1]];
      forall k | 0 <= k <= |init| ensures !Closes(init[..k]) {
        assert init[..k] == s[..k];
      }
      FeedPartial(init, region);
      FeedSnoc([], init, s[|s| - 1], region);
      assert s[..|s|] == s;
    } else if |s| == 1 {
      assert s[1..] == [];
      assert s == [] + [s[0]];
      assert s[..1] == s;
    }
  }

  lemma FeedSequence(s: seq<Byte>, region: seq<Byte>)
    requires IsSequence(s)
    ensures FeedAll([], s, region) == Feed(Render(s, region), [], Redraws(s))
  {
    var init := s[..|s| - 1];
    assert s == init + [s[|s| - 1]];
    forall k | 0 <= k <= |init| ensures !Closes(init[..k]) {
      assert init[..k] == s[..k];
    }
    FeedPartial(init, region);
    FeedSnoc([], init, s[|s| - 1], region);
  }

  /** The transducer never holds back anything but an unfinished sequence. */
  lemma {:induction false} FeedKeepsTail(pending: seq<Byte>, data: seq<Byte>, region: seq<Byte>)
    requires IsTail(pending)
    ensures IsTail(FeedAll(pending, data, region).pending)
    decreases |data|
  {
    if data != [] {
      var s := pending + [data[0]];
      var step := Step(pending, data[0], region);
      if step.pending != [] {
        forall k | 0 <= k <= |s| ensures !Closes(s[..k]) {
          if k < |s| {
            assert s[..k] == pending[..k];
          } else {
            assert s[..k] == s;
          }
        }
      }
      FeedKeepsTail(step.pending, data[1..], region);
    }
  }

  /** Feeding the held back bytes again is the same as continuing from them. */
  lemma FeedResumes(pending: seq<Byte>, data: seq<Byte>, region: seq<Byte>)
    requires IsTail(pending)
    ensures FeedAll([], pending + data, region) == FeedAll(pending, data, region)
  {
    FeedAppend([], pending, data, region);
    FeedPartial(pending, region);
    assert [] + FeedAll(pending, data, region).out == FeedAll(pending, data, region).out;
  }

  // ---------------------------------------------------------------- the batch form refines it

  ghost function RenderAll(parts: seq<seq<Byte>>, region: seq<Byte>): seq<Byte> {
    if parts == [] then [] else RenderAll(parts[..|parts| - 1], region) + Render(parts[|parts| - 1], region)
  }

  ghost predicate AnyRedraw(parts: seq<seq<Byte>>) {
    parts != [] && (AnyRedraw(parts[..|parts| - 1]) || Redraws(parts[|parts| - 1]))
  }

  lemma PartsSnoc(parts: seq<seq<Byte>>, part: seq<Byte>, region: seq<Byte>)
    ensures RenderAll(parts + [part], region) == RenderAll(parts, region) + Render(part, region)
    ensures AnyRedraw(parts + [part]) <==> AnyRedraw(parts) || Redraws(part)
  {
    assert (parts + [part])[..|parts|] == parts;
  }

  lemma {:induction false} PiecesRefineFeed(parts: seq<seq<Byte>>, region: seq<Byte>)
    requires forall k :: 0 <= k < |parts| ==> IsPlain(parts[k]) || IsSequence(parts[k])
    ensures FeedAll([], Concat(parts), region) == Feed(RenderAll(parts, region), [], AnyRedraw(parts))
  {
    if parts != [] {
      var init, last := parts[..|parts| - 1], parts[|parts| - 1];
      assert parts == init + [last];
      ConcatSnoc(init, last);
      PiecesRefineFeed(init, region);
      FeedAppend([], Concat(init), last, region);
      FeedPiece(last, region);
      PartsSnoc(init, last, region);
    }
  }

  lemma FeedPiece(part: seq<Byte>, region: seq<Byte>)
    requires IsPlain(part) || IsSequence(part)
    ensures FeedAll([], part, region) == Feed(Render(part, region), [], Redraws(part))
  {
    if IsPlain(part) {
      FeedPlain(part, region);
      assert part[0] != ESC by {
        assert part[0] in part;
      }
    } else {
      FeedSequence(part, region);
    }
  }

  /** A chunk that was cut into pieces is fed like its pieces, after what was held back. */
  lemma CutRefinesFeed(held: seq<Byte>, input: seq<Byte>, pieces: seq<seq<Byte>>, pending: seq<Byte>, region: seq<Byte>)
    requires IsTail(held) && IsTail(pending) && ArePieces(pieces)
    requires Concat(pieces) + pending == held + input
    ensures FeedAll(held, input, region) == Feed(RenderAll(pieces, region), pending, AnyRedraw(pieces))
  {
    FeedResumes(held, input, region);
    FeedAppend([], Concat(pieces), pending, region);
    PiecesRefineFeed(pieces, region);
    FeedPartial(pending, region);
    assert RenderAll(pieces, region) + [] == RenderAll(pieces, region);
  }

  /** One call on a stream of which `pending` was held back so far. */
  function Call(pending: seq<Byte>, data: seq<Byte>, region: seq<Byte>): Feed {
    var f := FeedAll(pending, data, region);
    if |f.pending| > MAX_PENDING then Feed(f.out + f.pending, [], f.redraw) else f
  }

  /** The terminal UI's output side: the fields that `writePTYOutput` reads and updates. */
  class Model {
    var output: seq<Byte>
    var ansiPending: seq<Byte>
    var height: int
    var statusBarHeight: int

    constructor (height: int, statusBarHeight: int)
      ensures Valid() && output == [] && ansiPending == []
      ensures this.height == height && this.statusBarHeight == statusBarHeight
    {
      this.height, this.statusBarHeight := height, statusBarHeight;
      output, ansiPending := [], [];
    }

    ghost predicate Valid()
      reads this
    {
      IsTail(ansiPending)
    }

    function Region(): seq<Byte>
      reads this
    {
      SetScrollRegion(1, CalculateShellHeight(height, statusBarHeight))
    }

    method WritePTYOutput(input: seq<Byte>) returns (redraw: bool)
      requires Valid()
      modifies this`output, this`ansiPending
      ensures Valid()
      ensures Feed(output, ansiPending, redraw)
           == Feed(old(output), [], false).Then(Call(old(ansiPending), input, Region()))
    {
      var data := ansiPending + input;
      ansiPending := [];
      var complete, pending := SplitCompleteANSI(data);
      ghost var pieces := complete;
      CutRefinesFeed(old(ansiPending), input, pieces, pending, Region());
      if |pending| > MAX_PENDING {
        complete := complete + [pending];
        PartsSnoc(pieces, pending, Region());
      } else {
        ansiPending := ansiPending + pending;
        assert ansiPending == pending;
      }
      redraw := WriteParts(complete);
    }

    method WriteParts(complete: seq<seq<Byte>>) returns (redraw: bool)
      modifies this`output
      ensures output == old(output) + RenderAll(complete, Region())
      ensures redraw <==> AnyRedraw(complete)
    {
      hide Render, Redraws;
      redraw := false;
      var n := 0;
      while n < |complete|
        invariant 0 <= n <= |complete|
        invariant output == old(output) + RenderAll(complete[..n], Region())
        invariant redraw <==> AnyRedraw(complete[..n])
      {
        PartsSnoc(complete[..n], complete[n], Region());
        assert complete[..n + 1] == complete[..n] + [complete[n]];
        var again := WritePart(complete[n]);
        redraw := redraw || again;
        n := n + 1;
      }
      assert complete[..n] == complete;
    }

    method WritePart(part: seq<Byte>) returns (redraw: bool)
      modifies this`output
      ensures output == old(output) + Render(part, Region())
      ensures redraw <==> Redraws(part)
    {
      hide RepairsTerminalState, IsClearSequence;
      Regroup(output, part, Region());
      if part == RESET_SCROLL_REGION {
        output := output + Region();
        return true;
      }
      redraw := false;
      output := output + part;
      if RepairsTerminalState(part) {
        output := output + Region();
        redraw := true;
      }
      if IsClearSequence(part) {
        redraw := true;
      }
    }
  }
}
