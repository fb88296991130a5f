/**
  What the shell's output does to the scroll region of a real terminal
  (internal/host/tui/model.go): the rows of the status bar are safe while the region ends above them.

  The terminal is defined here on its own: a parser for control functions as in ECMA-48, section 5,
  with the DEC private functions that set or reset the vertical margins. It knows nothing of how the
  transducer cuts the stream or which sequences that repairs.
*/
module ScrollRegion {
  import opened Common
  import opened Bytes
  import opened AnsiStream
  import opened AnsiSessions

  // ---------------------------------------------------------------- the terminal

  const CANCEL: Byte := 0x18
  const SUBSTITUTE: Byte := 0x1a
  const SEMICOLON: Byte := 0x3b

  /**
    Where the parser is: `Escape` and `Control` collect what follows `ESC` and `ESC [`; `bel` says
    that BEL ends a string.
  */
  datatype Parser = Ground | Escape(intermediates: seq<Byte>) | Control(text: seq<Byte>) | Text(bel: bool)

  /** A control function that concerns the margins; 0 stands for the default. */
  datatype Function = SetMargins(top: nat, bottom: nat) | FullScreen

  /**
    A kind of terminal: its rows, and what resets its margins besides the functions below, as
    control functions and as other escape sequences. Results hold for every device.
  */
  datatype Device = Device(rows: nat, controls: (seq<Byte>, Byte) -> bool, escapes: (seq<Byte>, Byte) -> bool)

  predicate IsDigit(b: Byte) {
    0x30 <= b <= 0x39
  }

  predicate IsNumeric(text: seq<Byte>) {
    forall i :: 0 <= i < |text| ==> IsDigit(text[i]) || text[i] == SEMICOLON
  }

  /** The parameters of a control function; a missing one is 0. */
  function Numbers(text: seq<Byte>): (ns: seq<nat>)
    requires IsNumeric(text)
    ensures |ns| >= 1
  {
    if text == [] then [0]
    else
      var ns, last := Numbers(text[..|text| - 1]), text[|text| - 1];
      if last == SEMICOLON then ns + [0] else ns[|ns| - 1 := ns[|ns| - 1] * 10 + (last - 0x30)]
  }

  /** DECCOLM and the three alternate screen modes: a terminal may reset its margins with them. */
  predicate IsScreenMode(n: nat) {
    n == 3 || n == 47 || n == 1047 || n == 1049
  }

  /** DECSTR and DECSCL, by their last intermediate byte. */
  predicate IsReset(text: seq<Byte>, final: Byte) {
    && final == 0x70 && text != [] && IsNumeric(text[..|text| - 1])
    && (text[|text| - 1] == 0x21 || text[|text| - 1] == 0x22)
  }

  predicate SetsScreenMode(text: seq<Byte>, final: Byte) {
    && (final == 0x68 || final == 0x6c) && text != [] && text[0] == 0x3f && IsNumeric(text[1..])
    && exists n :: n in Numbers(text[1..]) && IsScreenMode(n)
  }

  /** DECSTBM, and everything that resets the margins. */
  function Dispatch(d: Device, text: seq<Byte>, final: Byte): Option<Function> {
    if final == 0x72 && IsNumeric(text) then
      var ns := Numbers(text);
      Some(SetMargins(ns[0], if |ns| > 1 then ns[1] else 0))
    else if IsReset(text, final) || SetsScreenMode(text, final) || d.controls(text, final) then Some(FullScreen)
    else None
  }

  /** RIS, DECALN, and what else the device resets its margins with, but not the end of a string. */
  function DispatchEscape(d: Device, intermediates: seq<Byte>, final: Byte): Option<Function> {
    var resets := (intermediates == [] && final == 0x63) || (intermediates == [0x23] && final == 0x38);
    var isEnd := intermediates == [] && final == BACKSLASH;
    if resets || (!isEnd && d.escapes(intermediates, final)) then Some(FullScreen) else None
  }

  /** One byte: ESC begins anew anywhere, CAN and SUB cancel, a control function ends in its final byte. */
  function Parse(p: Parser, b: Byte): Parser {
    if b == ESC then Escape([])
    else if b == CANCEL || b == SUBSTITUTE then Ground
    else
      match p
      case Ground => Ground
      case Escape(intermediates) =>
        if b < 0x20 || b == 0x7f then p
        else if b < 0x30 then Escape(intermediates + [b])
        else if intermediates == [] then AfterEscape(b)
        else Ground
      case Control(text) =>
        if b < 0x20 || b == 0x7f then p else if b < 0x40 then Control(text + [b]) else Ground
      case Text(bel) => if bel && b == BEL then Ground else p
  }

  /** The function that byte `b` completes. */
  function Completed(d: Device, p: Parser, b: Byte): Option<Function> {
    match p
    case Escape(intermediates) =>
      if 0x30 <= b < 0x7f && (intermediates == [] ==> AfterEscape(b) == Ground)
      then DispatchEscape(d, intermediates, b) else None
    case Control(text) => if 0x40 <= b < 0x7f then Dispatch(d, text, b) else None
    case _ => None
  }

  /** ESC with a final byte: `[` begins a control function; `]`, and `P X ^ _` begin strings. */
  function AfterEscape(b: Byte): Parser {
    if b == 0x5b then Control([])
    else if b == 0x5d then Text(true)
    else if b == 0x50 || b == 0x58 || b == 0x5e || b == 0x5f then Text(false)
    else Ground
  }

  datatype Terminal = Terminal(device: Device, parser: Parser, top: nat, bottom: nat)
  {
    /** Margins that leave no two rows to scroll are ignored. */
    function Apply(f: Option<Function>): Terminal {
      match f
      case None => this
      case Some(FullScreen) => this.(top := 1, bottom := device.rows)
      case Some(SetMargins(t, b)) =>
        if Takes(t, b, device.rows) then this.(top := First(t), bottom := Last(b, device.rows)) else this
    }

    function Read(b: Byte): Terminal {
      this.(parser := Parse(parser, b)).Apply(Completed(device, parser, b))
    }

    function ReadAll(data: seq<Byte>): Terminal
      decreases |data|
    {
      if data == [] then this else Read(data[0]).ReadAll(data[1..])
    }
  }

  function First(top: nat): nat {
    if top == 0 then 1 else top
  }

  function Last(bottom: nat, rows: nat): nat {
    if bottom == 0 || bottom > rows then rows else bottom
  }

  predicate Takes(top: nat, bottom: nat, rows: nat) {
    First(top) < Last(bottom, rows)
  }

  lemma {:induction false} ReadAppend(t: Terminal, a: seq<Byte>, b: seq<Byte>)
    ensures t.ReadAll(a + b) == t.ReadAll(a).ReadAll(b)
    decreases |a|
  {
    hide Parse, Completed;
    if a == [] {
      assert a + b == b;
    } else {
      assert (a + b)[0] == a[0] && (a + b)[1..] == a[1..] + b;
      ReadAppend(t.Read(a[0]), a[1..], b);
    }
  }

  lemma ReadOne(t: Terminal, b: Byte)
    ensures t.ReadAll([b]) == t.Read(b)
  {
    hide Parse, Completed;
    assert [b][1..] == [];
    assert t.Read(b).ReadAll([]) == t.Read(b);
  }

  // ---------------------------------------------------------------- well-formed streams

  /** What a program writes: text, control functions, other escape sequences, and control strings. */
  datatype Piece =
    | Plain(text: seq<Byte>)
    | Csi(parameters: seq<Byte>, final: Byte)
    | Esc(intermediates: seq<Byte>, final: Byte)
    | Str(introducer: Byte, body: seq<Byte>, bel: bool)
  {
    predicate Valid() {
      match this
      case Plain(text) => text != [] && ESC !in text
      case Csi(parameters, final) => 0x40 <= final <= 0x7e && forall b :: b in parameters ==> 0x20 <= b < 0x40
      case Esc(intermediates, final) =>
        && 0x30 <= final <= 0x7e && (forall b :: b in intermediates ==> 0x20 <= b < 0x30)
        && (intermediates == [] ==> AfterEscape(final) == Ground)
      case Str(introducer, body, bel) =>
        && IsStringIntroducer(introducer) && (bel ==> introducer == 0x5d)
        && forall b :: b in body ==> b != ESC && b != CANCEL && b != SUBSTITUTE && b != BEL
    }

    function Bytes(): seq<Byte> {
      match this
      case Plain(text) => text
      case Csi(parameters, final) => [ESC, 0x5b] + parameters + [final]
      case Esc(intermediates, final) => [ESC] + intermediates + [final]
      case Str(introducer, body, bel) => [ESC, introducer] + body + if bel then [BEL] else [ESC, BACKSLASH]
    }

    /** The function that a terminal executes for it. */
    function Effect(d: Device): Option<Function> {
      match this
      case Csi(parameters, final) => Dispatch(d, parameters, final)
      case Esc(intermediates, final) => DispatchEscape(d, intermediates, final)
      case _ => None
    }
  }

  function AllBytes(pieces: seq<Piece>): seq<Byte> {
    if pieces == [] then [] else AllBytes(pieces[..|pieces| - 1]) + pieces[|pieces| - 1].Bytes()
  }

  lemma AllBytesSnoc(pieces: seq<Piece>, piece: Piece)
    ensures AllBytes(pieces + [piece]) == AllBytes(pieces) + piece.Bytes()
  {
    assert (pieces + [piece])[..|pieces|] == pieces;
  }

  // ---------------------------------------------------------------- what the terminal makes of a piece

  lemma {:induction false} ReadPlain(t: Terminal, s: seq<Byte>)
    requires t.parser == Ground && ESC !in s
    ensures t.ReadAll(s) == t
    decreases |s|
  {
    if s != [] {
      assert s[0] in s;
      assert t.Read(s[0]) == t;
      ReadPlain(t, s[1..]);
    }
  }

  lemma {:induction false} ReadParameters(t: Terminal, s: seq<Byte>)
    requires t.parser.Control? && forall b :: b in s ==> 0x20 <= b < 0x40
    ensures t.ReadAll(s) == t.(parser := Control(t.parser.text + s))
    decreases |s|
  {
    if s == [] {
      assert t.parser.text + s == t.parser.text;
    } else {
      assert s[0] in s;
      var next := t.Read(s[0]);
      assert next == t.(parser := Control(t.parser.text + [s[0]]));
      assert forall b :: b in s[1..] ==> b in s;
      ReadParameters(next, s[1..]);
      assert t.parser.text + [s[0]] + s[1..] == t.parser.text + s;
    }
  }

  lemma {:induction false} ReadIntermediates(t: Terminal, s: seq<Byte>)
    requires t.parser.Escape? && forall b :: b in s ==> 0x20 <= b < 0x30
    ensures t.ReadAll(s) == t.(parser := Escape(t.parser.intermediates + s))
    decreases |s|
  {
    if s == [] {
      assert t.parser.intermediates + s == t.parser.intermediates;
    } else {
      assert s[0] in s;
      var next := t.Read(s[0]);
      assert next == t.(parser := Escape(t.parser.intermediates + [s[0]]));
      assert forall b :: b in s[1..] ==> b in s;
      ReadIntermediates(next, s[1..]);
      assert t.parser.intermediates + [s[0]] + s[1..] == t.parser.intermediates + s;
    }
  }

  lemma {:induction false} ReadBody(t: Terminal, s: seq<Byte>)
    requires t.parser.Text?
    requires forall b :: b in s ==> b != ESC && b != CANCEL && b != SUBSTITUTE && b != BEL
    ensures t.ReadAll(s) == t
    decreases |s|
  {
    if s != [] {
      assert s[0] in s;
      assert t.Read(s[0]) == t;
      assert forall b :: b in s[1..] ==> b in s;
      ReadBody(t, s[1..]);
    }
  }

  lemma ReadTwo(t: Terminal, a: Byte, b: Byte)
    ensures t.ReadAll([a, b]) == t.Read(a).Read(b)
  {
    hide Parse, Completed;
    assert [a, b][1..] == [b];
    ReadOne(t.Read(a), b);
  }

  lemma ReadCsi(t: Terminal, parameters: seq<Byte>, final: Byte)
    requires t.parser == Ground && Csi(parameters, final).Valid()
    ensures t.ReadAll(Csi(parameters, final).Bytes()) == t.Apply(Dispatch(t.device, parameters, final))
  {
    var open := t.(parser := Control([]));
    assert t.Read(ESC).Read(0x5b) == open;
    var full := t.(parser := Control(parameters));
    assert full.Read(final) == t.Apply(Dispatch(t.device, parameters, final));
    hide Parse, Completed, Dispatch;
    ReadTwo(t, ESC, 0x5b);
    ReadParameters(open, parameters);
    assert [] + parameters == parameters;
    ReadOne(full, final);
    ReadAppend(t, [ESC, 0x5b], parameters);
    ReadAppend(t, [ESC, 0x5b] + parameters, [final]);
  }

  lemma ReadEsc(t: Terminal, intermediates: seq<Byte>, final: Byte)
    requires t.parser == Ground && Esc(intermediates, final).Valid()
    ensures t.ReadAll(Esc(intermediates, final).Bytes()) == t.Apply(Esc(intermediates, final).Effect(t.device))
  {
    var open := t.(parser := Escape([]));
    assert t.Read(ESC) == open;
    var full := t.(parser := Escape(intermediates));
    assert full.Read(final) == t.Apply(Esc(intermediates, final).Effect(t.device));
    hide Parse, Completed;
    ReadOne(t, ESC);
    ReadIntermediates(open, intermediates);
    assert [] + intermediates == intermediates;
    ReadOne(full, final);
    ReadAppend(t, [ESC], intermediates);
    ReadAppend(t, [ESC] + intermediates, [final]);
  }

  lemma ReadStr(t: Terminal, introducer: Byte, body: seq<Byte>, bel: bool)
    requires t.parser == Ground && Str(introducer, body, bel).Valid()
    ensures t.ReadAll(Str(introducer, body, bel).Bytes()) == t
  {
    var open := t.(parser := Text(introducer == 0x5d));
    assert t.Read(ESC).Read(introducer) == open;
    assert bel ==> open.Read(BEL) == t;
    assert open.Read(ESC).Read(BACKSLASH) == t;
    hide Parse, Completed;
    ReadTwo(t, ESC, introducer);
    ReadBody(open, body);
    ReadOne(open, BEL);
    ReadTwo(open, ESC, BACKSLASH);
    ReadAppend(t, [ESC, introducer], body);
    ReadAppend(t, [ESC, introducer] + body, if bel then [BEL] else [ESC, BACKSLASH]);
  }

  /** From the ground state a piece executes its function, and the terminal is in the ground state again. */
  lemma ReadPiece(t: Terminal, piece: Piece)
    requires t.parser == Ground && piece.Valid()
    ensures t.ReadAll(piece.Bytes()) == t.Apply(piece.Effect(t.device))
  {
    match piece {
      case Plain(text) => ReadPlain(t, text);
      case Csi(parameters, final) => ReadCsi(t, parameters, final);
      case Esc(intermediates, final) => ReadEsc(t, intermediates, final);
      case Str(introducer, body, bel) => ReadStr(t, introducer, body, bel);
    }
  }

  // ---------------------------------------------------------------- what the transducer makes of a piece

  lemma CsiIsSequence(parameters: seq<Byte>, final: Byte)
    requires Csi(parameters, final).Valid()
    ensures IsSequence(Csi(parameters, final).Bytes())
  {
    var s := Csi(parameters, final).Bytes();
    forall k | 0 <= k < |s| ensures !Closes(s[..k]) {
      if k >= 3 {
        assert s[..k][k - 1] == parameters[k - 3];
        assert parameters[k - 3] in parameters;
      }
    }
  }

  lemma EscIsSequence(intermediates: seq<Byte>, final: Byte)
    requires Esc(intermediates, final).Valid()
    ensures IsSequence(Esc(intermediates, final).Bytes())
  {
    var s := Esc(intermediates, final).Bytes();
    assert intermediates != [] ==> s[1] == intermediates[0] && intermediates[0] in intermediates;
    forall k | 0 <= k < |s| ensures !Closes(s[..k]) {
      if k >= 2 {
        assert s[..k][k - 1] == intermediates[k - 2];
        assert intermediates[k - 2] in intermediates;
      }
    }
  }

  lemma StrIsSequence(introducer: Byte, body: seq<Byte>, bel: bool)
    requires Str(introducer, body, bel).Valid()
    ensures IsSequence(Str(introducer, body, bel).Bytes())
  {
    var s := Str(introducer, body, bel).Bytes();
    forall k | 0 <= k < |s| ensures !Closes(s[..k]) {
      if 3 <= k <= |body| + 2 {
        assert s[..k][k - 1] == body[k - 3];
        assert body[k - 3] in body;
        if k >= 4 { assert s[..k][k - 2] == body[k - 4] && body[k - 4] in body; }
      }
    }
  }

  lemma PieceIsCut(piece: Piece)
    requires piece.Valid()
    ensures IsPlain(piece.Bytes()) || IsSequence(piece.Bytes())
    ensures IsPlain(piece.Bytes()) <==> piece.Plain?
  {
    match piece {
      case Plain(text) =>
      case Csi(parameters, final) => CsiIsSequence(parameters, final);
      case Esc(intermediates, final) => EscIsSequence(intermediates, final);
      case Str(introducer, body, bel) => StrIsSequence(introducer, body, bel);
    }
    assert !piece.Plain? ==> piece.Bytes()[0] == ESC && piece.Bytes()[0] in piece.Bytes();
  }

  /** The transducer replaces the piece, or repairs the region after it. */
  predicate Handled(piece: Piece) {
    IsHandled(piece.Bytes())
  }

  predicate IsHandled(s: seq<Byte>) {
    s == RESET_SCROLL_REGION || RepairsTerminalState(s)
  }

  // ---------------------------------------------------------------- the sequence that sets the region

  lemma {:induction false} DecimalIsNumeric(n: nat)
    ensures forall i :: 0 <= i < |Decimal(n)| ==> IsDigit(Decimal(n)[i])
  {
    if n >= 10 {
      DecimalIsNumeric(n / 10);
    }
  }

  /** A decimal after a separator is read back. */
  lemma {:induction false} NumbersDecimal(text: seq<Byte>, n: nat)
    requires IsNumeric(text) && Numbers(text)[|Numbers(text)| - 1] == 0
    ensures IsNumeric(text + Decimal(n))
    ensures Numbers(text + Decimal(n)) == Numbers(text)[|Numbers(text)| - 1 := n]
    decreases n
  {
    hide Numbers, IsNumeric;
    if n < 10 {
      NumbersDigit(text, n);
    } else {
      NumbersDecimal(text, n / 10);
      NumbersDigit(text + Decimal(n / 10), n % 10);
      assert text + Decimal(n) == text + Decimal(n / 10) + [Digit(n % 10)];
    }
  }

  lemma NumbersDigit(text: seq<Byte>, d: nat)
    requires IsNumeric(text) && d < 10
    ensures IsNumeric(text + [Digit(d)])
    ensures var ns := Numbers(text);
      Numbers(text + [Digit(d)]) == ns[|ns| - 1 := ns[|ns| - 1] * 10 + d]
  {
    assert (text + [Digit(d)])[..|text|] == text;
  }

  lemma RegionIsCsi(d: Device, h: nat)
    ensures var parameters := Decimal(1) + [SEMICOLON] + Decimal(h);
      && Csi(parameters, 0x72).Valid()
      && SetScrollRegion(1, h) == Csi(parameters, 0x72).Bytes()
      && Dispatch(d, parameters, 0x72) == Some(SetMargins(1, h))
  {
    RegionIsDispatched(d, h);
    hide Dispatch, Numbers, IsNumeric, Decimal;
    assert [ESC, 0x5b] + (Decimal(1) + [SEMICOLON] + Decimal(h)) + [0x72]
        == [ESC, 0x5b] + Decimal(1) + [SEMICOLON] + Decimal(h) + [0x72];
  }

  lemma RegionIsDispatched(d: Device, h: nat)
    ensures var parameters := Decimal(1) + [SEMICOLON] + Decimal(h);
      && Dispatch(d, parameters, 0x72) == Some(SetMargins(1, h))
      && forall b :: b in parameters ==> 0x20 <= b < 0x40
  {
    var parameters := Decimal(1) + [SEMICOLON] + Decimal(h);
    FirstParameter();
    NumbersDecimal(Decimal(1) + [SEMICOLON], h);
    hide Decimal, Numbers;
    forall b | b in parameters ensures 0x20 <= b < 0x40 {
      var i :| 0 <= i < |parameters| && parameters[i] == b;
    }
  }

  lemma FirstParameter()
    ensures Decimal(1) + [SEMICOLON] == [0x31, SEMICOLON]
    ensures IsNumeric([0x31, SEMICOLON]) && Numbers([0x31, SEMICOLON]) == [1, 0]
  {
    var one: seq<Byte> := [0x31];
    var two: seq<Byte> := [0x31, SEMICOLON];
    assert one[..0] == [] && two[..1] == one;
    assert Numbers([]) == [0];
    assert Numbers(one) == [1];
  }

  lemma ReadRegion(t: Terminal, h: nat)
    requires t.parser == Ground
    ensures t.ReadAll(SetScrollRegion(1, h)) == t.Apply(Some(SetMargins(1, h)))
  {
    RegionIsCsi(t.device, h);
    ReadCsi(t, Decimal(1) + [SEMICOLON] + Decimal(h), 0x72);
  }

  // ---------------------------------------------------------------- which pieces move the region

  predicate Inside(t: Terminal, h: nat) {
    t.bottom <= h
  }

  /**
    The piece makes the terminal scroll rows below `h`, and the transducer does nothing about it: a
    reset that is spelled in another way, or a region that reaches further down.
  */
  predicate Escapes(piece: Piece, d: Device, h: nat) {
    && !Handled(piece)
    && match piece.Effect(d)
       case None => false
       case Some(FullScreen) => true
       case Some(SetMargins(top, bottom)) => Takes(top, bottom, d.rows) && Last(bottom, d.rows) > h
  }

  function Region(h: nat): seq<Byte> {
    SetScrollRegion(1, h)
  }

  /** A piece as the transducer writes it, read from the ground state. */
  lemma ReadRendered(t: Terminal, piece: Piece, h: nat)
    requires t.parser == Ground && piece.Valid()
    ensures var after := t.ReadAll(Render(piece.Bytes(), Region(h)));
      && after.parser == Ground && after.device == t.device
      && (2 <= h < t.device.rows && Inside(t, h) && !Escapes(piece, t.device, h) ==> Inside(after, h))
      && (2 <= h < t.device.rows && Escapes(piece, t.device, h) ==> !Inside(after, h))
  {
    var s := piece.Bytes();
    ReadPiece(t, piece);
    ReadRegion(t, h);
    ReadRegion(t.Apply(piece.Effect(t.device)), h);
    ReadAppend(t, s, Region(h));
  }

  // ---------------------------------------------------------------- whole streams

  /** A terminal after the layout was set up: the region is set for `h` rows. */
  function Screen(d: Device, h: nat): Terminal {
    Terminal(d, Ground, 1, d.rows).ReadAll(Region(h))
  }

  /** After every call, however a beginning of the stream is cut into calls, the region ends at row `h` or above. */
  ghost predicate StaysInside(d: Device, h: nat, stream: seq<Byte>) {
    forall chunks: seq<seq<Byte>> :: NoOverflow([], chunks, Region(h)) && Concat(chunks) <= stream ==>
      Inside(Screen(d, h).ReadAll(Session([], chunks, Region(h)).out), h)
  }

  /** What the terminal is after the transducer was fed with `data`. */
  function After(d: Device, h: nat, data: seq<Byte>): Terminal {
    Screen(d, h).ReadAll(FeedAll([], data, Region(h)).out)
  }

  lemma ScreenIsSet(d: Device, h: nat)
    requires 1 <= h <= d.rows
    ensures Screen(d, h) == Terminal(d, Ground, 1, if h >= 2 then h else d.rows)
  {
    ReadRegion(Terminal(d, Ground, 1, d.rows), h);
  }

  /** So it is enough to look at all beginnings of the stream. */
  lemma CutsDoNotMatter(d: Device, h: nat, chunks: seq<seq<Byte>>)
    requires NoOverflow([], chunks, Region(h))
    ensures Screen(d, h).ReadAll(Session([], chunks, Region(h)).out) == After(d, h, Concat(chunks))
  {
    ChunkInvariance([], chunks, Region(h));
  }

  lemma OneChunk(data: seq<Byte>, h: nat)
    requires |FeedAll([], data, Region(h)).pending| <= MAX_PENDING
    ensures NoOverflow([], [data], Region(h)) && Concat([data]) == data
  {
    assert [data][1..] == [];
    assert Concat([data]) == data + [];
  }

  lemma AfterAppend(d: Device, h: nat, a: seq<Byte>, b: seq<Byte>)
    requires FeedAll([], a, Region(h)).pending == []
    ensures After(d, h, a + b) == After(d, h, a).ReadAll(FeedAll([], b, Region(h)).out)
    ensures FeedAll([], a + b, Region(h)).pending == FeedAll([], b, Region(h)).pending
  {
    FeedAppend([], a, b, Region(h));
    ReadAppend(Screen(d, h), FeedAll([], a, Region(h)).out, FeedAll([], b, Region(h)).out);
  }

  ghost predicate AllValid(pieces: seq<Piece>) {
    forall k :: 0 <= k < |pieces| ==> pieces[k].Valid()
  }

  ghost predicate NoneEscapes(pieces: seq<Piece>, d: Device, h: nat) {
    forall k :: 0 <= k < |pieces| ==> !Escapes(pieces[k], d, h)
  }

  /** After whole pieces nothing is held back, and the region is where the last pieces left it. */
  lemma {:induction false} AfterPieces(pieces: seq<Piece>, d: Device, h: nat)
    requires AllValid(pieces) && 2 <= h < d.rows
    ensures FeedAll([], AllBytes(pieces), Region(h)).pending == []
    ensures var t := After(d, h, AllBytes(pieces));
      && t.parser == Ground && t.device == d
      && (NoneEscapes(pieces, d, h) ==> Inside(t, h))
      && (pieces != [] && Escapes(pieces[|pieces| - 1], d, h) ==> !Inside(t, h))
    decreases |pieces|
  {
    hide Escapes, Render;
    ScreenIsSet(d, h);
    if pieces != [] {
      var before, last := pieces[..|pieces| - 1], pieces[|pieces| - 1];
      AfterPieces(before, d, h);
      AfterAppend(d, h, AllBytes(before), last.Bytes());
      PieceIsCut(last);
      FeedPiece(last.Bytes(), Region(h));
      ReadRendered(After(d, h, AllBytes(before)), last, h);
      assert NoneEscapes(pieces, d, h) ==> NoneEscapes(before, d, h);
    }
  }

  /** In the middle of a piece the region is where it was before. */
  lemma MidPiece(t: Terminal, piece: Piece, n: nat, h: nat)
    requires t.parser == Ground && piece.Valid() && n < |piece.Bytes()|
    ensures t.ReadAll(FeedAll([], piece.Bytes()[..n], Region(h)).out) == t
  {
    var s := piece.Bytes();
    PieceIsCut(piece);
    if piece.Plain? {
      FeedPlain(s[..n], Region(h));
      ReadPlain(t, s[..n]);
    } else {
      forall k | 0 <= k <= n ensures !Closes(s[..n][..k]) {
        assert s[..n][..k] == s[..k];
      }
      FeedPartial(s[..n], Region(h));
    }
  }

  lemma {:induction false} BeginningsStayInside(pieces: seq<Piece>, d: Device, h: nat, n: nat)
    requires AllValid(pieces) && NoneEscapes(pieces, d, h) && 2 <= h < d.rows && n <= |AllBytes(pieces)|
    ensures Inside(After(d, h, AllBytes(pieces)[..n]), h)
    decreases |pieces|
  {
    hide Escapes, FeedAll, After, Screen;
    AfterPieces(pieces, d, h);
    var all := AllBytes(pieces);
    if n == |all| {
      assert all[..n] == all;
    } else {
      var before, last := pieces[..|pieces| - 1], pieces[|pieces| - 1];
      var m := |AllBytes(before)|;
      BeginningOf(AllBytes(before), last.Bytes(), n);
      if n <= m {
        BeginningsStayInside(before, d, h, n);
      } else {
        InsidePiece(before, last, d, h, n - m);
      }
    }
  }

  lemma BeginningOf(a: seq<Byte>, b: seq<Byte>, n: nat)
    requires n <= |a| + |b|
    ensures (a + b)[..n] == if n <= |a| then a[..n] else a + b[..n - |a|]
  {
  }

  lemma InsidePiece(before: seq<Piece>, piece: Piece, d: Device, h: nat, n: nat)
    requires AllValid(before) && NoneEscapes(before, d, h) && 2 <= h < d.rows
    requires piece.Valid() && n < |piece.Bytes()|
    ensures Inside(After(d, h, AllBytes(before) + piece.Bytes()[..n]), h)
  {
    hide Escapes, FeedAll, After, Screen, AllBytes;
    AfterPieces(before, d, h);
    AfterAppend(d, h, AllBytes(before), piece.Bytes()[..n]);
    MidPiece(After(d, h, AllBytes(before)), piece, n, h);
  }

  /** A terminal never scrolls below its last row. */
  lemma {:induction false} BottomIsBounded(t: Terminal, data: seq<Byte>)
    requires t.bottom <= t.device.rows
    ensures t.ReadAll(data).bottom <= t.device.rows
    decreases |data|
  {
    hide Parse, Completed;
    if data != [] {
      BottomIsBounded(t.Read(data[0]), data[1..]);
    }
  }

  lemma EscapeShows(pieces: seq<Piece>, d: Device, h: nat, k: nat)
    requires AllValid(pieces) && 2 <= h < d.rows && k < |pieces| && Escapes(pieces[k], d, h)
    ensures !StaysInside(d, h, AllBytes(pieces))
  {
    hide Escapes, Inside, FeedAll, Session;
    var some := pieces[..k + 1];
    AfterPieces(some, d, h);
    OneChunk(AllBytes(some), h);
    CutsDoNotMatter(d, h, [AllBytes(some)]);
    AllBytesPrefix(pieces, k + 1);
  }

  lemma {:induction false} AllBytesPrefix(pieces: seq<Piece>, k: nat)
    requires k <= |pieces|
    ensures AllBytes(pieces[..k]) <= AllBytes(pieces)
    decreases |pieces|
  {
    if k == |pieces| {
      assert pieces[..k] == pieces;
    } else {
      AllBytesPrefix(pieces[..|pieces| - 1], k);
      assert pieces[..|pieces| - 1][..k] == pieces[..k];
    }
  }

  lemma NoEscapeStays(pieces: seq<Piece>, d: Device, h: nat)
    requires AllValid(pieces) && NoneEscapes(pieces, d, h) && 2 <= h < d.rows
    ensures StaysInside(d, h, AllBytes(pieces))
  {
    hide Escapes, Inside, FeedAll, Session, Screen;
    forall chunks: seq<seq<Byte>> | NoOverflow([], chunks, Region(h)) && Concat(chunks) <= AllBytes(pieces)
      ensures Inside(Screen(d, h).ReadAll(Session([], chunks, Region(h)).out), h)
    {
      CutsDoNotMatter(d, h, chunks);
      BeginningsStayInside(pieces, d, h, |Concat(chunks)|);
      assert AllBytes(pieces)[..|Concat(chunks)|] == Concat(chunks);
    }
  }

  /**
    Exactly when the status bar's rows are safe, for every well-formed stream: there are none, or the
    shell has two rows at least and no piece escapes. A shell of one row has no region to scroll: the
    sequence that should set it is ignored.
  */
  lemma RegionStaysInsideIff(pieces: seq<Piece>, d: Device, statusHeight: nat)
    requires AllValid(pieces) && 1 <= d.rows
    ensures var h := CalculateShellHeight(d.rows, statusHeight);
      StaysInside(d, h, AllBytes(pieces)) <==> h == d.rows || (2 <= h && NoneEscapes(pieces, d, h))
  {
    var h := CalculateShellHeight(d.rows, statusHeight);
    if h == d.rows {
      AlwaysInside(d, AllBytes(pieces));
    } else if h < 2 {
      OneRowHasNoRegion(d, AllBytes(pieces));
    } else if NoneEscapes(pieces, d, h) {
      NoEscapeStays(pieces, d, h);
    } else {
      var k :| 0 <= k < |pieces| && Escapes(pieces[k], d, h);
      EscapeShows(pieces, d, h, k);
    }
  }

  lemma OneRowHasNoRegion(d: Device, stream: seq<Byte>)
    requires 1 < d.rows
    ensures !StaysInside(d, 1, stream)
  {
    ScreenIsSet(d, 1);
    var none: seq<seq<Byte>> := [];
    assert Session([], none, Region(1)).out == [] && Concat(none) <= stream;
    assert Screen(d, 1).ReadAll([]) == Screen(d, 1);
  }

  lemma AlwaysInside(d: Device, stream: seq<Byte>)
    requires 1 <= d.rows
    ensures StaysInside(d, d.rows, stream)
  {
    ScreenIsSet(d, d.rows);
    var h := d.rows;
    forall chunks: seq<seq<Byte>> | NoOverflow([], chunks, Region(h)) && Concat(chunks) <= stream
      ensures Inside(Screen(d, h).ReadAll(Session([], chunks, Region(h)).out), h)
    {
      BottomIsBounded(Screen(d, h), Session([], chunks, Region(h)).out);
    }
  }

  // ---------------------------------------------------------------- sequences that escape

  /**
    Default margins in other spellings, a soft reset, a conformance level, an alignment pattern, and
    an alternate screen mode with a leading zero all escape on every device; a region from the first
    row does exactly if it is open-ended or ends below the shell.
  */
  lemma EscapingSequences(d: Device, h: nat, bottom: nat)
    requires 2 <= h < d.rows
    ensures Escapes(Csi([SEMICOLON], 0x72), d, h)
    ensures Escapes(Csi([0x30, SEMICOLON, 0x30], 0x72), d, h)
    ensures Escapes(Csi([0x21], 0x70), d, h)
    ensures Escapes(Csi([0x36, 0x31, SEMICOLON, 0x31, 0x22], 0x70), d, h)
    ensures Escapes(Esc([0x23], 0x38), d, h)
    ensures Escapes(Csi([0x3f, 0x30, 0x34, 0x37], 0x68), d, h)
    ensures Csi([0x31, SEMICOLON] + Decimal(bottom), 0x72).Valid()
    ensures Escapes(Csi([0x31, SEMICOLON] + Decimal(bottom), 0x72), d, h) <==> bottom == 0 || bottom > h
  {
    hide Escapes, Dispatch, Handled;
    DefaultMarginsEscape(d, h);
    ResetsEscape(d, h);
    LeadingZeroEscapes(d, h);
    RegionIsCsi(d, bottom);
    assert Decimal(1) + [SEMICOLON] == [0x31, SEMICOLON];
    SetRegionEscapesIff(d, h, bottom);
  }

  lemma DefaultMarginsEscape(d: Device, h: nat)
    requires 2 <= h < d.rows
    ensures Escapes(Csi([SEMICOLON], 0x72), d, h)
    ensures Escapes(Csi([0x30, SEMICOLON, 0x30], 0x72), d, h)
  {
    DefaultMargins(d);
    HandledCsi([SEMICOLON], 0x72);
    HandledCsi([0x30, SEMICOLON, 0x30], 0x72);
    hide Dispatch, Handled;
  }

  lemma ResetsEscape(d: Device, h: nat)
    ensures Escapes(Csi([0x21], 0x70), d, h)
    ensures Escapes(Csi([0x36, 0x31, SEMICOLON, 0x31, 0x22], 0x70), d, h)
    ensures Escapes(Esc([0x23], 0x38), d, h)
  {
    Resets(d);
    HandledCsi([0x21], 0x70);
    HandledCsi([0x36, 0x31, SEMICOLON, 0x31, 0x22], 0x70);
    AlignmentIsNotHandled();
    hide Dispatch, Handled;
  }

  lemma LeadingZeroEscapes(d: Device, h: nat)
    ensures Escapes(Csi([0x3f, 0x30, 0x34, 0x37], 0x68), d, h)
  {
    LeadingZero(d);
    HandledCsi([0x3f, 0x30, 0x34, 0x37], 0x68);
    hide Dispatch, Handled;
  }

  lemma AlignmentIsNotHandled()
    ensures !Handled(Esc([0x23], 0x38))
  {
    assert |Esc([0x23], 0x38).Bytes()| == 3 && Esc([0x23], 0x38).Bytes()[1] == 0x23;
  }

  lemma Resets(d: Device)
    ensures Dispatch(d, [0x21], 0x70) == Some(FullScreen)
    ensures Dispatch(d, [0x36, 0x31, SEMICOLON, 0x31, 0x22], 0x70) == Some(FullScreen)
  {
    var level: seq<Byte> := [0x36, 0x31, SEMICOLON, 0x31, 0x22];
    assert level[..4] == [0x36, 0x31, SEMICOLON, 0x31];
    assert IsReset(level, 0x70);
    var soft: seq<Byte> := [0x21];
    assert soft[..0] == [];
    assert IsReset(soft, 0x70);
  }

  lemma DefaultMargins(d: Device)
    ensures Dispatch(d, [SEMICOLON], 0x72) == Some(SetMargins(0, 0))
    ensures Dispatch(d, [0x30, SEMICOLON, 0x30], 0x72) == Some(SetMargins(0, 0))
  {
    var zero: seq<Byte> := [0x30];
    var one: seq<Byte> := [SEMICOLON];
    var two: seq<Byte> := [0x30, SEMICOLON];
    var three: seq<Byte> := [0x30, SEMICOLON, 0x30];
    assert zero[..0] == [] && one[..0] == [] && two[..1] == zero && three[..2] == two;
    assert Numbers([]) == [0];
    assert Numbers(zero) == [0] && Numbers(one) == [0, 0];
    assert Numbers(two) == [0, 0];
    assert Numbers(three) == [0, 0];
  }

  lemma LeadingZero(d: Device)
    ensures Dispatch(d, [0x3f, 0x30, 0x34, 0x37], 0x68) == Some(FullScreen)
  {
    var s: seq<Byte> := [0x3f, 0x30, 0x34, 0x37];
    var mode := s[1..];
    assert mode[..0] == [] && mode[..1] == [0x30] && mode[..2] == [0x30, 0x34];
    assert Numbers([]) == [0];
    assert [0x30][..0] == mode[..0] && mode[..2][..1] == mode[..1] && mode[..3] == mode;
    assert Numbers(mode[..1]) == [0];
    assert Numbers(mode[..2]) == [4];
    assert Numbers(mode) == [47];
    assert 47 in Numbers(mode) && IsScreenMode(47);
    assert SetsScreenMode(s, 0x68);
  }

  lemma SetRegionEscapesIff(d: Device, h: nat, bottom: nat)
    requires 2 <= h < d.rows
    ensures Escapes(Csi(Decimal(1) + [SEMICOLON] + Decimal(bottom), 0x72), d, h) <==> bottom == 0 || bottom > h
  {
    RegionIsCsi(d, bottom);
    HandledCsi(Decimal(1) + [SEMICOLON] + Decimal(bottom), 0x72);
    hide Dispatch, Handled;
  }

  /** What the transducer handles among the control functions: few spellings of few modes. */
  lemma HandledCsi(parameters: seq<Byte>, final: Byte)
    ensures Handled(Csi(parameters, final)) && final == 0x72 ==> parameters == []
    ensures Handled(Csi(parameters, final)) && final != 0x72 ==>
      (final == 0x68 || final == 0x6c) && |parameters| >= 3 && parameters[1] != 0x30
  {
    var s := Csi(parameters, final).Bytes();
    assert s[|s| - 1] == final && s[1] == 0x5b;
    assert |parameters| >= 2 ==> s[3] == parameters[1];
  }

  /** One such stream: a soft reset, and nothing else. */
  lemma SoftResetEscapes(d: Device, h: nat)
    requires 2 <= h < d.rows
    ensures !StaysInside(d, h, [ESC, 0x5b, 0x21, 0x70])
  {
    var piece := Csi([0x21], 0x70);
    Resets(d);
    HandledCsi([0x21], 0x70);
    EscapeShows([piece], d, h, 0);
    assert AllBytes([piece]) == AllBytes([]) + piece.Bytes() by { AllBytesSnoc([], piece); assert [] + [piece] == [piece]; }
  }

  // ---------------------------------------------------------------- any stream

  /** The escape sequence that the stream is in the middle of, as the transducer cuts it. */
  function Held(stream: seq<Byte>): (held: seq<Byte>)
    ensures |held| <= |stream| && stream[|stream| - |held|..] == held
  {
    if stream == [] then []
    else
      var held, b := Held(stream[..|stream| - 1]), stream[|stream| - 1];
      if held == [] && b != ESC then []
      else if Closes(held + [b]) then []
      else
        assert stream[|stream| - |held| - 1..] == held + [b];
        held + [b]
  }

  /** All of a stream but what is held. */
  function Released(stream: seq<Byte>): seq<Byte> {
    stream[..|stream| - |Held(stream)|]
  }

  function ParserAfter(p: Parser, data: seq<Byte>): Parser
    decreases |data|
  {
    if data == [] then p else ParserAfter(Parse(p, data[0]), data[1..])
  }

  /** The last row of the region that the last accepted function in `data` sets, if there is one. */
  function LastBottom(d: Device, p: Parser, data: seq<Byte>): Option<nat>
    decreases |data|
  {
    if data == [] then None
    else
      var later := LastBottom(d, Parse(p, data[0]), data[1..]);
      if later.Some? then later else BottomSet(d, Completed(d, p, data[0]))
  }

  function BottomSet(d: Device, f: Option<Function>): Option<nat> {
    match f
    case None => None
    case Some(FullScreen) => Some(d.rows)
    case Some(SetMargins(top, bottom)) => if Takes(top, bottom, d.rows) then Some(Last(bottom, d.rows)) else None
  }

  lemma {:induction false} ReadKeepsUnlessSet(t: Terminal, data: seq<Byte>)
    ensures t.ReadAll(data).device == t.device && t.ReadAll(data).parser == ParserAfter(t.parser, data)
    ensures var set' := LastBottom(t.device, t.parser, data);
      t.ReadAll(data).bottom == if set'.Some? then set'.value else t.bottom
    decreases |data|
  {
    hide Parse, Completed;
    if data != [] {
      ReadKeepsUnlessSet(t.Read(data[0]), data[1..]);
    }
  }

  /**
    With byte `n` of the stream, text or an escape sequence is released that makes a terminal, which
    reads the stream itself, scroll rows below `h`, and it is not one that the transducer handles.
  */
  predicate Offends(d: Device, h: nat, stream: seq<Byte>, n: nat)
    requires n < |stream|
  {
    var segment := Held(stream[..n]) + [stream[n]];
    var bottom := LastBottom(d, ParserAfter(Ground, Released(stream[..n])), segment);
    Held(stream[..n + 1]) == [] && !IsHandled(segment) && bottom.Some? && bottom.value > h
  }

  lemma {:induction false} ParserAppend(p: Parser, a: seq<Byte>, b: seq<Byte>)
    ensures ParserAfter(p, a + b) == ParserAfter(ParserAfter(p, a), b)
    decreases |a|
  {
    hide Parse;
    if a == [] {
      assert a + b == b;
    } else {
      assert (a + b)[1..] == a[1..] + b;
      ParserAppend(Parse(p, a[0]), a[1..], b);
    }
  }

  /** ESC begins anew from every state. */
  lemma EscapeRestarts(t: Terminal, s: seq<Byte>)
    requires s != [] && s[0] == ESC
    ensures ParserAfter(t.parser, s) == ParserAfter(Ground, s)
    ensures t.ReadAll(s) == t.(parser := Ground).ReadAll(s)
  {
    assert t.Read(ESC) == t.(parser := Ground).Read(ESC);
  }

  lemma RegionFromAnywhere(t: Terminal, h: nat)
    ensures ParserAfter(t.parser, Region(h)) == Ground
    ensures 2 <= h <= t.device.rows ==> t.ReadAll(Region(h)).bottom == h
  {
    EscapeRestarts(t, Region(h));
    ReadRegion(t.(parser := Ground), h);
    ReadKeepsUnlessSet(t.(parser := Ground), Region(h));
  }

  lemma HandledShape(s: seq<Byte>)
    requires IsHandled(s) && s != FULL_RESET
    ensures |s| >= 3 && s[0] == ESC && s[1] == 0x5b && 0x40 <= s[|s| - 1] <= 0x7e
    ensures forall i :: 2 <= i < |s| - 1 ==> 0x20 <= s[i] < 0x40
  {
  }

  lemma HandledIsPiece(s: seq<Byte>) returns (piece: Piece)
    requires IsHandled(s)
    ensures piece.Valid() && !piece.Plain? && piece.Bytes() == s
  {
    if s == FULL_RESET {
      piece := Esc([], 0x63);
      assert piece.Bytes() == s;
    } else {
      HandledShape(s);
      hide IsHandled;
      piece := Csi(s[2..|s| - 1], s[|s| - 1]);
      assert piece.Valid();
      assert piece.Bytes() == s;
    }
  }

  /** A handled sequence leaves every terminal in the ground state. */
  lemma HandledEndsInGround(t: Terminal, s: seq<Byte>)
    requires IsHandled(s)
    ensures ParserAfter(t.parser, s) == Ground
  {
    var piece := HandledIsPiece(s);
    EscapeRestarts(t, s);
    ReadPiece(t.(parser := Ground), piece);
    ReadKeepsUnlessSet(t.(parser := Ground), s);
  }

  /** What is written for a segment leaves the parser where the segment itself does. */
  lemma RenderKeepsParser(t: Terminal, s: seq<Byte>, h: nat)
    ensures ParserAfter(t.parser, Render(s, Region(h))) == ParserAfter(t.parser, s)
    ensures IsHandled(s) && 2 <= h <= t.device.rows ==> t.ReadAll(Render(s, Region(h))).bottom == h
    ensures !IsHandled(s) ==> Render(s, Region(h)) == s
  {
    if IsHandled(s) {
      HandledEndsInGround(t, s);
      RegionFromAnywhere(t, h);
      RegionFromAnywhere(t.ReadAll(s), h);
      hide ParserAfter, Terminal.ReadAll;
      ParserAppend(t.parser, s, Region(h));
      ReadAppend(t, s, Region(h));
      ReadKeepsUnlessSet(t, s);
    }
  }

  lemma WrittenSegment(held: seq<Byte>, b: Byte, h: nat)
    ensures var step := Step(held, b, Region(h));
      || (step.pending == [] && step.out == Render(held + [b], Region(h)))
      || (step.pending != [] && step.out == [])
  {
    assert held == [] && b != ESC ==> held + [b] == [b];
  }

  lemma HeldSnoc(data: seq<Byte>, b: Byte, h: nat)
    ensures Held(data + [b]) == Step(Held(data), b, Region(h)).pending
  {
    hide Closes, Region, Render, Redraws;
    assert (data + [b])[..|data|] == data && (data + [b])[|data|] == b;
  }

  lemma StepKeepsParser(t: Terminal, held: seq<Byte>, b: Byte, h: nat)
    ensures var step := Step(held, b, Region(h));
      step.pending == [] ==> ParserAfter(t.parser, step.out) == ParserAfter(t.parser, held + [b])
  {
    hide Step, ParserAfter, Render, Region;
    WrittenSegment(held, b, h);
    RenderKeepsParser(t, held + [b], h);
  }

  lemma HeldGrows(data: seq<Byte>, b: Byte)
    ensures Held(data + [b]) == [] || |Held(data + [b])| == |Held(data)| + 1
  {
    assert (data + [b])[..|data|] == data;
  }

  lemma ReleasedSnoc(data: seq<Byte>, b: Byte)
    ensures Released(data + [b])
         == if Held(data + [b]) == [] then Released(data) + (Held(data) + [b]) else Released(data)
  {
    HeldGrows(data, b);
    hide Held;
    assert data == Released(data) + Held(data);
    Regroup(Released(data), Held(data), [b]);
  }

  /** The parser of a terminal reading what was written is where the released part of the stream leaves it. */
  lemma {:induction false} WrittenKeepsParser(data: seq<Byte>, t: Terminal, h: nat)
    ensures FeedAll([], data, Region(h)).pending == Held(data)
    ensures ParserAfter(Ground, FeedAll([], data, Region(h)).out) == ParserAfter(Ground, Released(data))
    decreases |data|
  {
    if data != [] {
      var before, b := data[..|data| - 1], data[|data| - 1];
      assert data == before + [b];
      WrittenKeepsParser(before, t, h);
      KeepsParserSnoc(before, b, t, h);
    }
  }

  lemma KeepsParserSnoc(data: seq<Byte>, b: Byte, t: Terminal, h: nat)
    requires FeedAll([], data, Region(h)).pending == Held(data)
    requires ParserAfter(Ground, FeedAll([], data, Region(h)).out) == ParserAfter(Ground, Released(data))
    ensures FeedAll([], data + [b], Region(h)).pending == Held(data + [b])
    ensures ParserAfter(Ground, FeedAll([], data + [b], Region(h)).out) == ParserAfter(Ground, Released(data + [b]))
  {
    hide FeedAll, ParserAfter, Step, Region, Held, Released;
    var out, step := FeedAll([], data, Region(h)).out, Step(Held(data), b, Region(h));
    FeedSnoc([], data, b, Region(h));
    HeldSnoc(data, b, h);
    ReleasedSnoc(data, b);
    WrittenSegment(Held(data), b, h);
    if step.pending == [] {
      ParserAppend(Ground, out, step.out);
      StepKeepsParser(t.(parser := ParserAfter(Ground, out)), Held(data), b, h);
      ParserAppend(Ground, Released(data), Held(data) + [b]);
    } else {
      assert out + [] == out;
    }
  }

  /** The terminal before byte `n` of the stream. */
  lemma ParserBefore(d: Device, h: nat, data: seq<Byte>)
    requires 1 <= h <= d.rows
    ensures After(d, h, data).device == d
    ensures After(d, h, data).parser == ParserAfter(Ground, Released(data))
  {
    ScreenIsSet(d, h);
    WrittenKeepsParser(data, Screen(d, h), h);
    hide FeedAll, ParserAfter, Held, Released, Screen;
    ReadKeepsUnlessSet(Screen(d, h), FeedAll([], data, Region(h)).out);
  }

  lemma AfterNext(d: Device, h: nat, data: seq<Byte>, b: Byte)
    ensures var step := Step(FeedAll([], data, Region(h)).pending, b, Region(h));
      && After(d, h, data + [b]) == After(d, h, data).ReadAll(step.out)
      && FeedAll([], data + [b], Region(h)).pending == step.pending
  {
    FeedSnoc([], data, b, Region(h));
    hide FeedAll, Step;
    ReadAppend(Screen(d, h), FeedAll([], data, Region(h)).out, Step(FeedAll([], data, Region(h)).pending, b, Region(h)).out);
  }

  lemma NextByte(d: Device, h: nat, stream: seq<Byte>, n: nat)
    requires n < |stream| && 2 <= h < d.rows
    ensures Offends(d, h, stream, n) ==> !Inside(After(d, h, stream[..n + 1]), h)
    ensures !Offends(d, h, stream, n) && Inside(After(d, h, stream[..n]), h) ==> Inside(After(d, h, stream[..n + 1]), h)
    ensures Offends(d, h, stream, n) ==> FeedAll([], stream[..n + 1], Region(h)).pending == []
  {
    hide Held, Released, FeedAll, ParserAfter, LastBottom, Screen, After, Render, Step, IsHandled, Region;
    var data, b := stream[..n], stream[n];
    var held := Held(data);
    var step, t := Step(held, b, Region(h)), After(d, h, data);
    assert stream[..n + 1] == data + [b];
    WrittenKeepsParser(data, t, h);
    AfterNext(d, h, data, b);
    HeldSnoc(data, b, h);
    ParserBefore(d, h, data);
    WrittenSegment(held, b, h);
    RenderKeepsParser(t, held + [b], h);
    ReadKeepsUnlessSet(t, held + [b]);
    ReadNothing(t);
  }

  lemma ReadNothing(t: Terminal)
    ensures t.ReadAll([]) == t
  {
  }

  lemma {:induction false} InsideAt(d: Device, h: nat, stream: seq<Byte>, n: nat)
    requires 2 <= h < d.rows && n <= |stream|
    requires forall k :: 0 <= k < n ==> !Offends(d, h, stream, k)
    ensures Inside(After(d, h, stream[..n]), h)
    decreases n
  {
    if n == 0 {
      ScreenIsSet(d, h);
      assert stream[..0] == [];
      assert FeedAll([], [], Region(h)).out == [];
    } else {
      hide Offends, Inside, After;
      InsideAt(d, h, stream, n - 1);
      NextByte(d, h, stream, n - 1);
    }
  }

  /**
    For every stream whatsoever, also one whose escape sequences are broken off: the region stays
    inside if and only if there is no status bar, or the shell has two rows and no byte offends.
  */
  lemma AnyStreamStaysInsideIff(stream: seq<Byte>, d: Device, statusHeight: nat)
    requires 1 <= d.rows
    ensures var h := CalculateShellHeight(d.rows, statusHeight);
      StaysInside(d, h, stream) <==> h == d.rows || (2 <= h && forall n :: 0 <= n < |stream| ==> !Offends(d, h, stream, n))
  {
    var h := CalculateShellHeight(d.rows, statusHeight);
    if h == d.rows {
      AlwaysInside(d, stream);
    } else if h < 2 {
      OneRowHasNoRegion(d, stream);
    } else {
      InsideIffNoneOffends(d, h, stream);
    }
  }

  lemma InsideIffNoneOffends(d: Device, h: nat, stream: seq<Byte>)
    requires 2 <= h < d.rows
    ensures StaysInside(d, h, stream) <==> forall n :: 0 <= n < |stream| ==> !Offends(d, h, stream, n)
  {
    hide Offends, Inside, FeedAll, Session, Screen, After;
    if n :| 0 <= n < |stream| && Offends(d, h, stream, n) {
      NextByte(d, h, stream, n);
      OneChunk(stream[..n + 1], h);
      CutsDoNotMatter(d, h, [stream[..n + 1]]);
    } else {
      forall chunks: seq<seq<Byte>> | NoOverflow([], chunks, Region(h)) && Concat(chunks) <= stream
        ensures Inside(Screen(d, h).ReadAll(Session([], chunks, Region(h)).out), h)
      {
        CutsDoNotMatter(d, h, chunks);
        InsideAt(d, h, stream, |Concat(chunks)|);
        assert stream[..|Concat(chunks)|] == Concat(chunks);
      }
    }
  }

  /** An escape inside an escape sequence: the transducer cuts after `ESC ESC [`, a terminal reads a reset. */
  const INTERRUPTED: seq<Byte> := [ESC] + RESET_SCROLL_REGION

  lemma InterruptedIsCut(h: nat)
    ensures FeedAll([], INTERRUPTED, Region(h)) == Feed(INTERRUPTED, [], false)
  {
    assert INTERRUPTED == INTERRUPTED_HEAD + [0x72];
    HeadIsSequence();
    FeedSequence(INTERRUPTED_HEAD, Region(h));
    FeedPlain([0x72], Region(h));
    assert Render(INTERRUPTED_HEAD, Region(h)) == INTERRUPTED_HEAD && !Redraws(INTERRUPTED_HEAD);
    hide FeedAll, Render, Redraws, Region;
    FeedAppend([], INTERRUPTED_HEAD, [0x72], Region(h));
  }

  const INTERRUPTED_HEAD: seq<Byte> := [ESC, ESC, 0x5b]

  lemma HeadIsSequence()
    ensures IsSequence(INTERRUPTED_HEAD)
  {
    var head := INTERRUPTED_HEAD;
    assert head[..1] == [ESC] && head[..2] == [ESC, ESC] && head[..0] == [];
  }

  lemma InterruptedResets(t: Terminal)
    requires t.parser == Ground
    ensures t.ReadAll(INTERRUPTED).bottom == if 1 < t.device.rows then t.device.rows else t.bottom
  {
    assert Numbers([]) == [0];
    assert Csi([], 0x72).Bytes() == RESET_SCROLL_REGION;
    ReadPiece(t, Csi([], 0x72));
    assert t.Read(ESC).Read(ESC) == t.Read(ESC);
    hide Parse, Completed;
    ReadTwo(t, ESC, ESC);
    ReadOne(t, ESC);
    assert RESET_SCROLL_REGION == [ESC] + [0x5b, 0x72];
    ReadAppend(t, [ESC], [0x5b, 0x72]);
    assert INTERRUPTED == [ESC, ESC] + [0x5b, 0x72];
    ReadAppend(t, [ESC, ESC], [0x5b, 0x72]);
  }

  lemma InterruptedResetEscapes(d: Device, h: nat)
    requires 2 <= h < d.rows
    ensures FeedAll([], INTERRUPTED, Region(h)) == Feed(INTERRUPTED, [], false)
    ensures !StaysInside(d, h, INTERRUPTED)
  {
    InterruptedIsCut(h);
    ScreenIsSet(d, h);
    InterruptedResets(Screen(d, h));
    OneChunk(INTERRUPTED, h);
    CutsDoNotMatter(d, h, [INTERRUPTED]);
    hide Session, FeedAll, Screen, NoOverflow, Concat;
  }

  /** That stream meets the condition: its last byte is text to the transducer and ends a reset to a terminal. */
  lemma InterruptedResetOffends(d: Device, h: nat, n: nat)
    requires 2 <= h < d.rows && n < |INTERRUPTED|
    ensures Offends(d, h, INTERRUPTED, n) <==> n == 3
  {
    if n < 3 {
      OnlyTheResetOffends(d, h, n);
    } else {
      InterruptedResetEscapes(d, h);
      hide Offends, StaysInside;
      InsideIffNoneOffends(d, h, INTERRUPTED);
      forall k | 0 <= k < 3 ensures !Offends(d, h, INTERRUPTED, k) {
        OnlyTheResetOffends(d, h, k);
      }
    }
  }

  lemma OnlyTheResetOffends(d: Device, h: nat, n: nat)
    requires n < 3
    ensures !Offends(d, h, INTERRUPTED, n)
  {
    hide Offends, Held, LastBottom;
    HeadIsHeld();
    HeadDoesNothing(d);
    var stream := [ESC, ESC, 0x5b, 0x72];
    assert stream == INTERRUPTED;
    assert stream[..1] == [ESC] && stream[..2] == [ESC, ESC] && stream[..3] == INTERRUPTED_HEAD;
    if n < 2 {
      HoldingIsNoOffence(d, h, stream, n);
    } else {
      SettingNothingIsNoOffence(d, h, stream, n);
    }
  }

  lemma HoldingIsNoOffence(d: Device, h: nat, stream: seq<Byte>, n: nat)
    requires n < |stream| && Held(stream[..n + 1]) != []
    ensures !Offends(d, h, stream, n)
  {
    hide Held, LastBottom, ParserAfter, IsHandled;
  }

  lemma SettingNothingIsNoOffence(d: Device, h: nat, stream: seq<Byte>, n: nat)
    requires n < |stream| && Held(stream[..n]) == stream[..n] && LastBottom(d, Ground, stream[..n + 1]) == None
    ensures !Offends(d, h, stream, n)
  {
    assert ParserAfter(Ground, []) == Ground;
    hide Held, LastBottom, ParserAfter, IsHandled;
    assert Released(stream[..n]) == [] && stream[..n] + [stream[n]] == stream[..n + 1];
  }

  lemma HeadIsHeld()
    ensures Held([ESC]) == [ESC] && Held([ESC, ESC]) == [ESC, ESC]
  {
    hide Closes, Held, Step, FeedAll, Parse, Completed;
    HeadIsOpen();
    HeldNothing();
    var none: seq<Byte>, one: seq<Byte>, two: seq<Byte> := [], [ESC], [ESC, ESC];
    assert none + [ESC] == one && one + [ESC] == two;
    HeldEscape(none);
    HeldEscape(one);
  }

  lemma HeldNothing()
    ensures Held([]) == []
  {
  }

  lemma HeadIsOpen()
    ensures !Closes([] + [ESC]) && !Closes([ESC] + [ESC])
  {
    HeadIsSequence();
    hide Closes;
    assert INTERRUPTED_HEAD[..1] == [] + [ESC] && INTERRUPTED_HEAD[..2] == [ESC] + [ESC];
  }

  lemma HeldEscape(data: seq<Byte>)
    requires !Closes(Held(data) + [ESC])
    ensures Held(data + [ESC]) == Held(data) + [ESC]
  {
    hide Closes;
    assert (data + [ESC])[..|data|] == data && (data + [ESC])[|data|] == ESC;
  }

  lemma HeadDoesNothing(d: Device)
    ensures LastBottom(d, Ground, INTERRUPTED_HEAD) == None
  {
    var head := INTERRUPTED_HEAD;
    hide Dispatch, DispatchEscape;
    assert head[1..] == [ESC, 0x5b] && head[1..][1..] == [0x5b] && head[1..][1..][1..] == [];
    assert LastBottom(d, Escape([0x5b]), []) == None;
    assert LastBottom(d, Escape([]), [0x5b]) == None;
    assert LastBottom(d, Escape([]), [ESC, 0x5b]) == None;
  }
}
