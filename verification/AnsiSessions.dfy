/** What successive `WritePTYOutput` calls do to a whole stream, however it is cut. */
module AnsiSessions {
  import opened Common
  import opened Bytes
  import opened AnsiStream

  /** Successive calls, one per chunk; the redraw requests are combined. */
  function Session(pending: seq<Byte>, chunks: seq<seq<Byte>>, region: seq<Byte>): Feed
    decreases |chunks|
  {
    if chunks == [] then Feed([], pending, false)
    else
      var first := Call(pending, chunks[0], region);
      first.Then(Session(first.pending, chunks[1..], region))
  }

  /** No call is left with more than `MAX_PENDING` bytes of an unfinished sequence. */
  predicate NoOverflow(pending: seq<Byte>, chunks: seq<seq<Byte>>, region: seq<Byte>)
    decreases |chunks|
  {
    chunks == [] ||
    var first := FeedAll(pending, chunks[0], region);
    |first.pending| <= MAX_PENDING && NoOverflow(first.pending, chunks[1..], region)
  }

  // ---------------------------------------------------------------- chunk invariance

  /** Without an overflow the calls write what one pass over the whole stream writes. */
  lemma {:induction false} ChunkInvariance(pending: seq<Byte>, chunks: seq<seq<Byte>>, region: seq<Byte>)
    requires NoOverflow(pending, chunks, region)
    requires |pending| <= MAX_PENDING
    ensures Session(pending, chunks, region) == FeedAll(pending, Concat(chunks), region)
    ensures Session(pending, chunks, region) == Call(pending, Concat(chunks), region)
    decreases |chunks|
  {
    if chunks != [] {
      var first := FeedAll(pending, chunks[0], region);
      ChunkInvariance(first.pending, chunks[1..], region);
      FeedAppend(pending, chunks[0], Concat(chunks[1..]), region);
    }
  }

  /** Two ways of cutting one stream cannot be told apart. */
  lemma CutsAreInterchangeable(pending: seq<Byte>, a: seq<seq<Byte>>, b: seq<seq<Byte>>, region: seq<Byte>)
    requires Concat(a) == Concat(b) && |pending| <= MAX_PENDING
    requires NoOverflow(pending, a, region) && NoOverflow(pending, b, region)
    ensures Session(pending, a, region) == Session(pending, b, region)
  {
    ChunkInvariance(pending, a, region);
    ChunkInvariance(pending, b, region);
  }

  /** After every call, what was written and what is held back agree with one pass over the stream. */
  ghost predicate InLockStep(pending: seq<Byte>, chunks: seq<seq<Byte>>, region: seq<Byte>) {
    forall n :: 0 <= n <= |chunks| ==>
      var calls, once := Session(pending, chunks[..n], region), FeedAll(pending, Concat(chunks[..n]), region);
      calls.out == once.out && calls.pending == once.pending
  }

  /** The overflow rule is the only thing that can break chunk invariance, and it always does. */
  lemma LockStepIffNoOverflow(pending: seq<Byte>, chunks: seq<seq<Byte>>, region: seq<Byte>)
    requires |pending| <= MAX_PENDING
    ensures InLockStep(pending, chunks, region) <==> NoOverflow(pending, chunks, region)
  {
    if NoOverflow(pending, chunks, region) {
      forall n | 0 <= n <= |chunks|
        ensures Session(pending, chunks[..n], region) == FeedAll(pending, Concat(chunks[..n]), region)
      {
        NoOverflowPrefix(pending, chunks, n, region);
        ChunkInvariance(pending, chunks[..n], region);
      }
    }
    if InLockStep(pending, chunks, region) {
      LockStepHasNoOverflow(pending, chunks, region);
    }
  }

  lemma {:induction false} NoOverflowPrefix(pending: seq<Byte>, chunks: seq<seq<Byte>>, n: nat, region: seq<Byte>)
    requires NoOverflow(pending, chunks, region) && n <= |chunks|
    ensures NoOverflow(pending, chunks[..n], region)
    decreases n
  {
    if n > 0 {
      NoOverflowPrefix(FeedAll(pending, chunks[0], region).pending, chunks[1..], n - 1, region);
      assert chunks[..n][1..] == chunks[1..][..n - 1];
    }
  }

  lemma {:induction false} LockStepHasNoOverflow(pending: seq<Byte>, chunks: seq<seq<Byte>>, region: seq<Byte>)
    requires InLockStep(pending, chunks, region)
    ensures NoOverflow(pending, chunks, region)
    decreases |chunks|
  {
    if chunks != [] {
      var first, rest := FeedAll(pending, chunks[0], region), chunks[1..];
      assert chunks[..1] == [chunks[0]] && chunks[..1][1..] == [];
      assert Concat(chunks[..1]) == chunks[0] + [] == chunks[0];
      assert Session(pending, chunks[..1], region).pending == Call(pending, chunks[0], region).pending;
      assert |first.pending| <= MAX_PENDING;
      forall n | 0 <= n <= |rest|
        ensures Session(first.pending, rest[..n], region).out == FeedAll(first.pending, Concat(rest[..n]), region).out
        ensures Session(first.pending, rest[..n], region).pending
             == FeedAll(first.pending, Concat(rest[..n]), region).pending
      {
        var more := chunks[..n + 1];
        assert more[0] == chunks[0] && more[1..] == rest[..n];
        assert Session(pending, more, region) == first.Then(Session(first.pending, rest[..n], region));
        FeedAppend(pending, chunks[0], Concat(rest[..n]), region);
        SameRest(first.out, Session(first.pending, rest[..n], region).out,
                 FeedAll(first.pending, Concat(rest[..n]), region).out);
      }
      LockStepHasNoOverflow(first.pending, rest, region);
    }
  }

  lemma SameRest(a: seq<Byte>, b: seq<Byte>, c: seq<Byte>)
    requires a + b == a + c
    ensures b == c
  {
    assert b == (a + b)[|a|..] && c == (a + c)[|a|..];
  }

  /** An overflowing call ends a segment: the held back bytes are written raw and the stream starts afresh. */
  lemma OverflowStartsAfresh(pending: seq<Byte>, before: seq<seq<Byte>>, chunk: seq<Byte>,
                             after: seq<seq<Byte>>, region: seq<Byte>)
    requires |pending| <= MAX_PENDING
    requires NoOverflow(pending, before, region)
    requires |FeedAll(pending, Concat(before) + chunk, region).pending| > MAX_PENDING
    ensures Session(pending, before + [chunk] + after, region)
         == var f := FeedAll(pending, Concat(before) + chunk, region);
            Feed(f.out + f.pending, [], f.redraw).Then(Session([], after, region))
  {
    var held := FeedAll(pending, Concat(before), region);
    ChunkInvariance(pending, before, region);
    FeedAppend(pending, Concat(before), chunk, region);
    assert before + [chunk] + after == before + ([chunk] + after);
    SessionAppend(pending, before, [chunk] + after, region);
    OverflowingCall(held, chunk, after, region);
  }

  lemma OverflowingCall(held: Feed, chunk: seq<Byte>, after: seq<seq<Byte>>, region: seq<Byte>)
    requires |FeedAll(held.pending, chunk, region).pending| > MAX_PENDING
    ensures held.Then(Session(held.pending, [chunk] + after, region))
         == var f := held.Then(FeedAll(held.pending, chunk, region));
            Feed(f.out + f.pending, [], f.redraw).Then(Session([], after, region))
  {
    assert ([chunk] + after)[1..] == after;
    var f, tail := FeedAll(held.pending, chunk, region), Session([], after, region);
    Regroup(held.out, f.out + f.pending, tail.out);
    Regroup(held.out, f.out, f.pending);
  }

  lemma {:induction false} SessionAppend(pending: seq<Byte>, a: seq<seq<Byte>>, b: seq<seq<Byte>>, region: seq<Byte>)
    ensures Session(pending, a + b, region)
         == Session(pending, a, region).Then(Session(Session(pending, a, region).pending, b, region))
    decreases |a|
  {
    if a == [] {
      assert a + b == b;
      assert [] + Session(pending, b, region).out == Session(pending, b, region).out;
    } else {
      assert (a + b)[0] == a[0] && (a + b)[1..] == a[1..] + b;
      var first := Call(pending, a[0], region);
      SessionAppend(first.pending, a[1..], b, region);
      var f := Session(first.pending, a[1..], region);
      var g := Session(f.pending, b, region);
      assert first.out + (f.out + g.out) == (first.out + f.out) + g.out;
    }
  }

  /** A 4097 byte title that never ends, then a scroll region reset inside it. */
  const UNFINISHED_TITLE: seq<Byte> := [ESC, 0x5d] + seq(MAX_PENDING - 1, _ => 0x61)

  /** The overflow rule makes the cut visible: here only the second cut replaces the reset. */
  lemma OverflowIsVisible(region: seq<Byte>)
    ensures Concat([UNFINISHED_TITLE, RESET_SCROLL_REGION]) == Concat([UNFINISHED_TITLE + RESET_SCROLL_REGION])
    ensures Session([], [UNFINISHED_TITLE + RESET_SCROLL_REGION], region)
         == Feed(UNFINISHED_TITLE + RESET_SCROLL_REGION, [], false)
    ensures Session([], [UNFINISHED_TITLE, RESET_SCROLL_REGION], region)
         == Feed(UNFINISHED_TITLE + region, [], true)
  {
    TitleNeverCloses();
    HeldIsWritten(UNFINISHED_TITLE + RESET_SCROLL_REGION, region);
    TitleThenReset(region);
    hide Session;
    ConcatOne(UNFINISHED_TITLE + RESET_SCROLL_REGION);
    ConcatOne(RESET_SCROLL_REGION);
    var two := [UNFINISHED_TITLE, RESET_SCROLL_REGION];
    assert two[1..] == [RESET_SCROLL_REGION];
  }

  lemma ConcatOne(data: seq<Byte>)
    ensures Concat([data]) == data
  {
    assert Concat([data]) == data + [];
  }

  /** An unfinished sequence that is too long is written as it is. */
  lemma HeldIsWritten(data: seq<Byte>, region: seq<Byte>)
    requires IsPartial(data) && |data| > MAX_PENDING
    ensures Session([], [data], region) == Feed(data, [], false)
  {
    OneCall(data, region);
    FeedPartial(data, region);
    assert [] + data == data;
  }

  lemma TitleThenReset(region: seq<Byte>)
    ensures Session([], [UNFINISHED_TITLE, RESET_SCROLL_REGION], region) == Feed(UNFINISHED_TITLE + region, [], true)
  {
    TitleNeverCloses();
    HeldIsWritten(UNFINISHED_TITLE, region);
    ResetIsSequence();
    FeedSequence(RESET_SCROLL_REGION, region);
    OneCall(RESET_SCROLL_REGION, region);
    hide Session, Call, FeedAll, IsPartial;
    assert [UNFINISHED_TITLE, RESET_SCROLL_REGION] == [UNFINISHED_TITLE] + [RESET_SCROLL_REGION];
    SessionAppend([], [UNFINISHED_TITLE], [RESET_SCROLL_REGION], region);
    assert Call([], RESET_SCROLL_REGION, region) == Feed(region, [], true) by { ResetIsReplaced(region); }
  }

  lemma ResetIsReplaced(region: seq<Byte>)
    ensures Call([], RESET_SCROLL_REGION, region) == Feed(region, [], true)
  {
    ResetIsSequence();
    FeedSequence(RESET_SCROLL_REGION, region);
  }

  lemma OneCall(data: seq<Byte>, region: seq<Byte>)
    ensures Session([], [data], region) == Call([], data, region)
  {
    var first := Call([], data, region);
    assert Session([], [data], region) == first.Then(Session(first.pending, [], region));
    assert first.out + [] == first.out;
  }

  lemma TitleNeverCloses()
    ensures IsPartial(UNFINISHED_TITLE) && IsPartial(UNFINISHED_TITLE + RESET_SCROLL_REGION)
  {
    var title, whole := UNFINISHED_TITLE, UNFINISHED_TITLE + RESET_SCROLL_REGION;
    forall k | 0 <= k <= |title| ensures !Closes(title[..k]) {
      if k >= 3 {
        assert title[..k][k - 1] == 0x61;
      }
    }
    forall k | 0 <= k <= |whole| ensures !Closes(whole[..k]) {
      if |title| < k {
        assert whole[..k][k - 1] == RESET_SCROLL_REGION[k - 1 - |title|];
      } else {
        assert whole[..k] == title[..k];
      }
    }
  }

  lemma ResetIsSequence()
    ensures IsSequence(RESET_SCROLL_REGION)
  {
    forall k | 0 <= k < 3 ensures !Closes(RESET_SCROLL_REGION[..k]) {
    }
  }

  // ---------------------------------------------------------------- nothing is lost

  /** A session that asks for no redraw has passed every byte through, even if calls overflowed. */
  lemma {:induction false} QuietSessionsPassThrough(pending: seq<Byte>, chunks: seq<seq<Byte>>, region: seq<Byte>)
    requires !Session(pending, chunks, region).redraw
    ensures Session(pending, chunks, region).out + Session(pending, chunks, region).pending
         == pending + Concat(chunks)
    decreases |chunks|
  {
    if chunks != [] {
      hide Call;
      var first := Call(pending, chunks[0], region);
      QuietCallPassesThrough(pending, chunks[0], region);
      QuietSessionsPassThrough(first.pending, chunks[1..], region);
      var rest := Session(first.pending, chunks[1..], region);
      Regroup(first.out, rest.out, rest.pending);
      Regroup(first.out, first.pending, Concat(chunks[1..]));
      Regroup(pending, chunks[0], Concat(chunks[1..]));
    } else {
      assert [] + pending == pending + [];
    }
  }

  lemma QuietCallPassesThrough(pending: seq<Byte>, data: seq<Byte>, region: seq<Byte>)
    requires !Call(pending, data, region).redraw
    ensures Call(pending, data, region).out + Call(pending, data, region).pending == pending + data
  {
    QuietFeedPassesThrough(pending, data, region);
    var f := FeedAll(pending, data, region);
    assert (f.out + f.pending) + [] == f.out + f.pending;
  }

  lemma {:induction false} QuietFeedPassesThrough(pending: seq<Byte>, data: seq<Byte>, region: seq<Byte>)
    requires !FeedAll(pending, data, region).redraw
    ensures FeedAll(pending, data, region).out + FeedAll(pending, data, region).pending == pending + data
    decreases |data|
  {
    if data != [] {
      var first := Step(pending, data[0], region);
      assert first.out + first.pending == pending + [data[0]];
      QuietFeedPassesThrough(first.pending, data[1..], region);
      var rest := FeedAll(first.pending, data[1..], region);
      Regroup(first.out, rest.out, rest.pending);
      Regroup(first.out, first.pending, data[1..]);
      Regroup(pending, [data[0]], data[1..]);
      assert data == [data[0]] + data[1..];
    }
  }
}
