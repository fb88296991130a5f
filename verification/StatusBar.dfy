/**
  When the status bar is drawn again (internal/host/tui/model.go). The child's output is given as
  control functions by their parameters and final byte; which calls ask for a redraw is stated of
  these, however the stream is cut into calls.
*/
module StatusBar {
  import opened Common
  import opened Bytes
  import opened AnsiStream
  import opened AnsiSessions
  import opened ScrollRegion

  /** The parameters of the alternate screen modes, as they are usually spelled. */
  predicate IsAltScreen(parameters: seq<Byte>) {
    || parameters == [0x3f, 0x34, 0x37]
    || parameters == [0x3f, 0x31, 0x30, 0x34, 0x37]
    || parameters == [0x3f, 0x31, 0x30, 0x34, 0x39]
  }

  /**
    Erasing the whole screen, with or without what has scrolled off; cursor home; a reset of the
    margins or of the terminal; entering or leaving an alternate screen.
  */
  predicate AsksForRedraw(piece: Piece) {
    match piece
    case Csi(parameters, final) =>
      || (final == 0x4a && (parameters == [0x32] || parameters == [0x33]))
      || ((final == 0x48 || final == 0x72) && parameters == [])
      || ((final == 0x68 || final == 0x6c) && IsAltScreen(parameters))
    case Esc(intermediates, final) => intermediates == [] && final == 0x63
    case _ => false
  }

  // ---------------------------------------------------------------- one piece

  lemma CsiAsks(parameters: seq<Byte>, final: Byte)
    ensures AsksForRedraw(Csi(parameters, final)) ==> Redraws(Csi(parameters, final).Bytes())
  {
    if AsksForRedraw(Csi(parameters, final)) {
      assert [ESC, 0x5b] + [0x32] + [final] == [ESC, 0x5b, 0x32, final];
      assert [ESC, 0x5b] + [0x33] + [final] == [ESC, 0x5b, 0x33, final];
      assert [ESC, 0x5b] + [] + [final] == [ESC, 0x5b, final];
      assert [ESC, 0x5b] + [0x3f, 0x34, 0x37] + [final] == [ESC, 0x5b, 0x3f, 0x34, 0x37, final];
      assert [ESC, 0x5b] + [0x3f, 0x31, 0x30, 0x34, 0x37] + [final] == [ESC, 0x5b, 0x3f, 0x31, 0x30, 0x34, 0x37, final];
      assert [ESC, 0x5b] + [0x3f, 0x31, 0x30, 0x34, 0x39] + [final] == [ESC, 0x5b, 0x3f, 0x31, 0x30, 0x34, 0x39, final];
    }
  }

  lemma RedrawnCsi(parameters: seq<Byte>, final: Byte)
    requires Redraws(Csi(parameters, final).Bytes())
    ensures AsksForRedraw(Csi(parameters, final))
  {
    var s := Csi(parameters, final).Bytes();
    assert s[1] == 0x5b && s[|s| - 1] == final && s[2..|s| - 1] == parameters;
  }

  lemma AsksIffRedraws(piece: Piece)
    requires piece.Valid() && !piece.Plain?
    ensures AsksForRedraw(piece) <==> Redraws(piece.Bytes())
  {
    match piece
    case Csi(parameters, final) =>
      CsiAsks(parameters, final);
      hide Redraws;
      if Redraws(piece.Bytes()) { RedrawnCsi(parameters, final); }
    case Esc(intermediates, final) =>
      var s := piece.Bytes();
      assert s[|s| - 1] == final;
      assert intermediates != [] ==> s[1] == intermediates[0] && intermediates[0] in intermediates;
      assert intermediates == [] ==> s == [ESC, final];
    case Str(introducer, body, bel) =>
      assert piece.Bytes()[1] == introducer;
  }

  /** The transducer asks for a redraw with the last byte of such a piece and with no other. */
  lemma StepInPiece(piece: Piece, n: nat, region: seq<Byte>)
    requires piece.Valid() && n < |piece.Bytes()|
    ensures var s := piece.Bytes();
      Step(FeedAll([], s[..n], region).pending, s[n], region).redraw <==> n + 1 == |s| && AsksForRedraw(piece)
  {
    hide Redraws, Render, FeedAll;
    var s := piece.Bytes();
    PieceIsCut(piece);
    if piece.Plain? {
      FeedPlain(s[..n], region);
      assert s[n] in s;
    } else {
      forall k | 0 <= k <= n ensures !Closes(s[..n][..k]) {
        assert s[..n][..k] == s[..k];
      }
      FeedPartial(s[..n], region);
      AsksIffRedraws(piece);
      assert s[..n] + [s[n]] == s[..n + 1] && s[..|s|] == s;
    }
  }

  // ---------------------------------------------------------------- whole streams

  /** Where piece `i` ends. */
  lemma EndOf(pieces: seq<Piece>, i: nat)
    requires i < |pieces|
    ensures AllBytes(pieces[..i + 1]) == AllBytes(pieces[..i]) + pieces[i].Bytes()
  {
    assert pieces[..i] + [pieces[i]] == pieces[..i + 1];
    hide AllBytes, Piece.Bytes;
    AllBytesSnoc(pieces[..i], pieces[i]);
  }

  lemma NotEmpty(piece: Piece)
    requires piece.Valid()
    ensures |piece.Bytes()| > 0
  {
  }

  lemma {:induction false} EndsInOrder(pieces: seq<Piece>, i: nat, k: nat)
    requires i <= k <= |pieces|
    ensures |AllBytes(pieces[..i])| <= |AllBytes(pieces[..k])|
    decreases k
  {
    hide AllBytes, Piece.Bytes;
    if i < k {
      EndOf(pieces, k - 1);
      EndsInOrder(pieces, i, k - 1);
    }
  }

  lemma {:induction false} NothingHeldAfterPieces(pieces: seq<Piece>, region: seq<Byte>)
    requires AllValid(pieces)
    ensures FeedAll([], AllBytes(pieces), region).pending == []
    decreases |pieces|
  {
    if pieces != [] {
      var before, last := pieces[..|pieces| - 1], pieces[|pieces| - 1];
      NothingHeldAfterPieces(before, region);
      PieceIsCut(last);
      hide FeedAll, IsPlain, IsSequence;
      FeedPiece(last.Bytes(), region);
      FeedAppend([], AllBytes(before), last.Bytes(), region);
    }
  }

  /** Byte `n` of the stream makes the transducer ask for a redraw. */
  predicate RedrawsAt(stream: seq<Byte>, n: nat, region: seq<Byte>)
    requires n < |stream|
  {
    Step(FeedAll([], stream[..n], region).pending, stream[n], region).redraw
  }

  /** A piece that asks for a redraw ends after `n` bytes of the stream. */
  ghost predicate AskingEndsAt(pieces: seq<Piece>, n: nat) {
    exists i :: 0 <= i < |pieces| && AsksForRedraw(pieces[i]) && |AllBytes(pieces[..i + 1])| == n
  }

  lemma AskingEndsSnoc(before: seq<Piece>, last: Piece, n: nat)
    ensures AskingEndsAt(before + [last], n)
      <==> AskingEndsAt(before, n) || (AsksForRedraw(last) && |AllBytes(before + [last])| == n)
  {
    hide AllBytes, AsksForRedraw;
    var all := before + [last];
    assert all[..|before| + 1] == all;
    assert forall i :: 0 <= i < |before| ==> all[i] == before[i] && all[..i + 1] == before[..i + 1];
    if AskingEndsAt(before, n) {
      var i :| 0 <= i < |before| && AsksForRedraw(before[i]) && |AllBytes(before[..i + 1])| == n;
      assert AsksForRedraw(all[i]);
    }
    if AsksForRedraw(last) && |AllBytes(all)| == n {
      assert AsksForRedraw(all[|before|]);
    }
  }

  lemma AskingEndsInside(pieces: seq<Piece>, n: nat)
    requires AskingEndsAt(pieces, n)
    ensures n <= |AllBytes(pieces)|
  {
    var i :| 0 <= i < |pieces| && AsksForRedraw(pieces[i]) && |AllBytes(pieces[..i + 1])| == n;
    AllBytesPrefix(pieces, i + 1);
  }

  lemma RedrawsInLast(start: seq<Byte>, last: Piece, n: nat, region: seq<Byte>)
    requires last.Valid() && FeedAll([], start, region).pending == [] && |start| <= n < |start| + |last.Bytes()|
    ensures RedrawsAt(start + last.Bytes(), n, region) <==> n + 1 == |start| + |last.Bytes()| && AsksForRedraw(last)
  {
    hide FeedAll, Step, AsksForRedraw;
    var s := last.Bytes();
    assert (start + s)[..n] == start + s[..n - |start|] && (start + s)[n] == s[n - |start|];
    FeedAppend([], start, s[..n - |start|], region);
    StepInPiece(last, n - |start|, region);
  }

  lemma RedrawsBefore(start: seq<Byte>, s: seq<Byte>, n: nat, region: seq<Byte>)
    requires n < |start|
    ensures RedrawsAt(start + s, n, region) <==> RedrawsAt(start, n, region)
  {
    hide FeedAll, Step;
    BeginningOf(start, s, n);
    assert (start + s)[n] == start[n];
  }

  lemma {:induction false} RedrawsAtEnds(pieces: seq<Piece>, n: nat, region: seq<Byte>)
    requires AllValid(pieces) && n < |AllBytes(pieces)|
    ensures RedrawsAt(AllBytes(pieces), n, region) <==> AskingEndsAt(pieces, n + 1)
    decreases |pieces|
  {
    var before, last := pieces[..|pieces| - 1], pieces[|pieces| - 1];
    assert AllValid(before) && last.Valid();
    hide AllBytes, AllValid, AsksForRedraw, AskingEndsAt, RedrawsAt, Piece.Bytes, Piece.Valid;
    assert pieces == before + [last];
    AllBytesSnoc(before, last);
    NotEmpty(last);
    AskingEndsSnoc(before, last, n + 1);
    if n < |AllBytes(before)| {
      RedrawsAtEnds(before, n, region);
      RedrawsBefore(AllBytes(before), last.Bytes(), n, region);
    } else {
      if AskingEndsAt(before, n + 1) { AskingEndsInside(before, n + 1); }
      NothingHeldAfterPieces(before, region);
      RedrawsInLast(AllBytes(before), last, n, region);
    }
  }

  lemma FeedNothing(held: seq<Byte>, region: seq<Byte>)
    ensures FeedAll(held, [], region) == Feed([], held, false)
  {
  }

  /** A stretch of the stream asks for a redraw if one of its bytes does. */
  lemma {:induction false} StretchRedraws(stream: seq<Byte>, m: nat, n: nat, region: seq<Byte>)
    requires m <= n <= |stream|
    ensures FeedAll(FeedAll([], stream[..m], region).pending, stream[m..n], region).redraw
      <==> exists j :: m <= j < n && RedrawsAt(stream, j, region)
    decreases n
  {
    hide FeedAll, Step;
    var held := FeedAll([], stream[..m], region).pending;
    if m == n {
      assert stream[m..n] == [];
      FeedNothing(held, region);
    } else {
      StretchRedraws(stream, m, n - 1, region);
      assert stream[m..n] == stream[m..n - 1] + [stream[n - 1]];
      assert stream[..n - 1] == stream[..m] + stream[m..n - 1];
      FeedSnoc(held, stream[m..n - 1], stream[n - 1], region);
      FeedAppend([], stream[..m], stream[m..n - 1], region);
      assert FeedAll([], stream[..n - 1], region).pending == FeedAll(held, stream[m..n - 1], region).pending;
      assert RedrawsAt(stream, n - 1, region)
        <==> Step(FeedAll([], stream[..n - 1], region).pending, stream[n - 1], region).redraw;
    }
  }

  /** A piece that asks for a redraw ends in this call. */
  ghost predicate AskingEndsIn(pieces: seq<Piece>, m: nat, n: nat) {
    exists i :: 0 <= i < |pieces| && AsksForRedraw(pieces[i]) && m < |AllBytes(pieces[..i + 1])| <= n
  }

  lemma StretchAsks(pieces: seq<Piece>, m: nat, n: nat, region: seq<Byte>)
    requires AllValid(pieces) && m <= n <= |AllBytes(pieces)|
    ensures (exists j :: m <= j < n && RedrawsAt(AllBytes(pieces), j, region)) <==> AskingEndsIn(pieces, m, n)
  {
    hide AllBytes, RedrawsAt, AsksForRedraw, AllValid;
    var stream := AllBytes(pieces);
    if j :| m <= j < n && RedrawsAt(stream, j, region) {
      RedrawsAtEnds(pieces, j, region);
      var i :| 0 <= i < |pieces| && AsksForRedraw(pieces[i]) && |AllBytes(pieces[..i + 1])| == j + 1;
    }
    if i :| 0 <= i < |pieces| && AsksForRedraw(pieces[i]) && m < |AllBytes(pieces[..i + 1])| <= n {
      var j := |AllBytes(pieces[..i + 1])| - 1;
      RedrawsAtEnds(pieces, j, region);
      assert RedrawsAt(stream, j, region);
    }
  }

  /**
    For every well-formed stream and every cut into calls of which none before this one overflows:
    a call returns that the status bar must be drawn again if and only if a piece that asks for it
    ends in this call.
  */
  lemma CallRedrawsIff(pieces: seq<Piece>, before: seq<seq<Byte>>, chunk: seq<Byte>, region: seq<Byte>)
    requires AllValid(pieces) && NoOverflow([], before, region) && Concat(before) + chunk <= AllBytes(pieces)
    ensures Call(Session([], before, region).pending, chunk, region).redraw
      <==> AskingEndsIn(pieces, |Concat(before)|, |Concat(before)| + |chunk|)
  {
    hide FeedAll, AllBytes, AllValid, AskingEndsIn, RedrawsAt, NoOverflow, Session;
    var stream, m, n := AllBytes(pieces), |Concat(before)|, |Concat(before)| + |chunk|;
    ChunkInvariance([], before, region);
    assert stream[..m] == Concat(before) && stream[m..n] == chunk;
    StretchRedraws(stream, m, n, region);
    StretchAsks(pieces, m, n, region);
  }

  /** All calls together: some call asks for a redraw if and only if some piece does. */
  lemma SessionRedrawsIff(pieces: seq<Piece>, chunks: seq<seq<Byte>>, region: seq<Byte>)
    requires AllValid(pieces) && NoOverflow([], chunks, region) && Concat(chunks) == AllBytes(pieces)
    ensures Session([], chunks, region).redraw <==> exists i :: 0 <= i < |pieces| && AsksForRedraw(pieces[i])
  {
    ChunkInvariance([], chunks, region);
    hide FeedAll, AllBytes, AsksForRedraw, AllValid, NoOverflow, Session, RedrawsAt;
    var all := AllBytes(pieces);
    assert all[..0] == [] && all[0..|all|] == all && FeedAll([], [], region).pending == [] by { FeedNothing([], region); }
    StretchRedraws(all, 0, |all|, region);
    StretchAsks(pieces, 0, |all|, region);
    if i :| 0 <= i < |pieces| && AsksForRedraw(pieces[i]) {
      EndsInside(pieces, i);
    }
  }

  lemma EndsInside(pieces: seq<Piece>, i: nat)
    requires AllValid(pieces) && i < |pieces|
    ensures 0 < |AllBytes(pieces[..i + 1])| <= |AllBytes(pieces)|
  {
    NotEmpty(pieces[i]);
    hide AllBytes, AllValid, Piece.Bytes, Piece.Valid;
    EndOf(pieces, i);
    AllBytesPrefix(pieces, i + 1);
  }

  // ---------------------------------------------------------------- what erases the status bar

  /** A terminal erases something in its last row: everything, or all that follows the cursor. */
  predicate Erases(piece: Piece) {
    match piece
    case Csi(parameters, final) =>
      final == 0x4a && IsNumeric(parameters) && exists n :: n in Numbers(parameters) && (n == 0 || n == 2)
    case Esc(intermediates, final) => intermediates == [] && final == 0x63
    case _ => false
  }

  /** If the piece erases the status bar and ends in this call, the call asks for a redraw. */
  ghost predicate ErasureIsSeen(pieces: seq<Piece>, before: seq<seq<Byte>>, chunk: seq<Byte>, i: nat, region: seq<Byte>) {
    && NoOverflow([], before, region) && Concat(before) + chunk <= AllBytes(pieces)
    && i < |pieces| && Erases(pieces[i])
    && |Concat(before)| < |AllBytes(pieces[..i + 1])| <= |Concat(before)| + |chunk|
    ==> Call(Session([], before, region).pending, chunk, region).redraw
  }

  /** So it is for every piece and every cut. */
  ghost predicate ErasuresAreSeen(pieces: seq<Piece>, region: seq<Byte>) {
    forall before: seq<seq<Byte>>, chunk: seq<Byte>, i: nat :: ErasureIsSeen(pieces, before, chunk, i, region)
  }

  /** Erasing from the cursor on, or together with something else, or with a leading zero. */
  predicate IsOtherErasure(piece: Piece) {
    piece.Csi? && Erases(piece) && piece.parameters != [0x32]
  }

  /** The pieces end one after the other. */
  lemma EndsGrow(pieces: seq<Piece>, i: nat, k: nat)
    requires AllValid(pieces) && i < k < |pieces|
    ensures |AllBytes(pieces[..i + 1])| < |AllBytes(pieces[..k + 1])|
  {
    NotEmpty(pieces[k]);
    hide AllBytes, AllValid, Piece.Bytes, Piece.Valid;
    EndOf(pieces, k);
    EndsInOrder(pieces, i + 1, k);
  }

  /**
    The status bar is drawn again after every erasure, in every cut, if and only if the child erases
    the screen with nothing but `ESC c` and `ESC [ 2 J`.
  */
  lemma ErasuresAreSeenIff(pieces: seq<Piece>, region: seq<Byte>)
    requires AllValid(pieces)
    ensures ErasuresAreSeen(pieces, region) <==> forall i :: 0 <= i < |pieces| ==> !IsOtherErasure(pieces[i])
  {
    if i :| 0 <= i < |pieces| && IsOtherErasure(pieces[i]) {
      OtherErasureIsMissed(pieces, i, region);
    } else {
      forall before: seq<seq<Byte>>, chunk: seq<Byte>, i: nat ensures ErasureIsSeen(pieces, before, chunk, i, region) {
        SeenErasure(pieces, before, chunk, i, region);
      }
    }
  }

  lemma SeenErasure(pieces: seq<Piece>, before: seq<seq<Byte>>, chunk: seq<Byte>, i: nat, region: seq<Byte>)
    requires AllValid(pieces) && forall k :: 0 <= k < |pieces| ==> !IsOtherErasure(pieces[k])
    ensures ErasureIsSeen(pieces, before, chunk, i, region)
  {
    hide Erases, AsksForRedraw, AllBytes, AllValid, NoOverflow, Session, Call, FeedAll, IsOtherErasure;
    if Concat(before) + chunk <= AllBytes(pieces) && NoOverflow([], before, region) && i < |pieces| && Erases(pieces[i]) {
      CommonErasureAsks(pieces[i]);
      CallRedrawsIff(pieces, before, chunk, region);
    }
  }

  lemma CommonErasureAsks(piece: Piece)
    requires Erases(piece) && !IsOtherErasure(piece)
    ensures AsksForRedraw(piece)
  {
  }

  lemma PieceByPiece(pieces: seq<Piece>, i: nat, region: seq<Byte>)
    requires AllValid(pieces) && i < |pieces|
    ensures var first, chunk := AllBytes(pieces[..i]), pieces[i].Bytes();
      && Concat([first]) == first && NoOverflow([], [first], region)
      && AllBytes(pieces[..i + 1]) == first + chunk <= AllBytes(pieces) && |chunk| > 0
  {
    NotEmpty(pieces[i]);
    assert AllValid(pieces[..i]);
    hide FeedAll, AllBytes, AllValid, Concat, NoOverflow, Piece.Bytes, Piece.Valid;
    ConcatOne(AllBytes(pieces[..i]));
    EndOf(pieces, i);
    AllBytesPrefix(pieces, i + 1);
    NothingHeldAfterPieces(pieces[..i], region);
    NoOverflowOne(AllBytes(pieces[..i]), region);
  }

  /** In a call of its own, a piece that does not ask for a redraw gets none. */
  lemma AloneItIsMissed(pieces: seq<Piece>, i: nat, region: seq<Byte>)
    requires AllValid(pieces) && i < |pieces| && !AsksForRedraw(pieces[i])
    ensures !Call(Session([], [AllBytes(pieces[..i])], region).pending, pieces[i].Bytes(), region).redraw
  {
    hide AsksForRedraw, AllBytes, AllValid, NoOverflow, Session, Call, FeedAll;
    var first, chunk := AllBytes(pieces[..i]), pieces[i].Bytes();
    PieceByPiece(pieces, i, region);
    CallRedrawsIff(pieces, [first], chunk, region);
    forall k | 0 <= k < |pieces| && AsksForRedraw(pieces[k])
      ensures !(|first| < |AllBytes(pieces[..k + 1])| <= |first| + |chunk|)
    {
      OnlyOneEnds(pieces, i, k);
    }
  }

  lemma OtherErasureIsMissed(pieces: seq<Piece>, i: nat, region: seq<Byte>)
    requires AllValid(pieces) && i < |pieces| && IsOtherErasure(pieces[i])
    ensures !ErasuresAreSeen(pieces, region)
  {
    assert Erases(pieces[i]);
    hide Erases, AsksForRedraw, AllBytes, AllValid, NoOverflow, Session, Call, FeedAll, IsOtherErasure;
    OtherAsksNothing(pieces[i]);
    AloneItIsMissed(pieces, i, region);
    PieceByPiece(pieces, i, region);
    assert !ErasureIsSeen(pieces, [AllBytes(pieces[..i])], pieces[i].Bytes(), i, region);
  }

  lemma OtherAsksNothing(piece: Piece)
    requires IsOtherErasure(piece)
    ensures !AsksForRedraw(piece)
  {
    var three: seq<Byte> := [0x33];
    assert three[..0] == [];
    assert Numbers([]) == [0];
    assert Numbers(three) == [3];
  }

  lemma NoOverflowOne(data: seq<Byte>, region: seq<Byte>)
    requires FeedAll([], data, region).pending == []
    ensures NoOverflow([], [data], region)
  {
    assert [data][1..] == [];
  }

  /** Only piece `i` ends within its own bytes. */
  lemma OnlyOneEnds(pieces: seq<Piece>, i: nat, k: nat)
    requires AllValid(pieces) && i < |pieces| && k < |pieces| && i != k
    ensures var end := |AllBytes(pieces[..k + 1])|;
      !(|AllBytes(pieces[..i])| < end <= |AllBytes(pieces[..i])| + |pieces[i].Bytes()|)
  {
    hide AllBytes, AllValid, Piece.Bytes;
    EndOf(pieces, i);
    if i < k {
      EndsGrow(pieces, i, k);
    } else {
      EndsInOrder(pieces, k + 1, i);
    }
  }

  /** `ESC [ J` erases the status bar, and no call asks for a redraw. */
  lemma EraseBelowIsMissed(region: seq<Byte>)
    ensures Csi([], 0x4a).Valid() && Erases(Csi([], 0x4a))
    ensures !Session([], [[ESC, 0x5b, 0x4a]], region).redraw
  {
    var piece := Csi([], 0x4a);
    assert Numbers([]) == [0] && 0 in Numbers([]);
    assert piece.Bytes() == [ESC, 0x5b, 0x4a];
    assert AllBytes([piece]) == piece.Bytes() by {
      AllBytesSnoc([], piece);
      assert [] + [piece] == [piece];
    }
    NothingHeldAfterPieces([piece], region);
    NoOverflowOne(piece.Bytes(), region);
    assert Concat([piece.Bytes()]) == piece.Bytes() by {
      ConcatSnoc([], piece.Bytes());
      assert [] + [piece.Bytes()] == [piece.Bytes()];
    }
    hide AllBytes, FeedAll, Session, NoOverflow, Erases;
    SessionRedrawsIff([piece], [piece.Bytes()], region);
  }
}
