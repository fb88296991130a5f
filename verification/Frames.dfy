/**
  The framing of exec streams (internal/protocol/exec.go) and the client's stdin writer
  (internal/host/execclient.go): a frame is one type byte, a big-endian length and the payload.
*/
module Frames {
  import opened Common
  import opened Bytes

  const MAX_FRAME_SIZE := 1024 * 1024
  const STDIN_CHUNK := 32 * 1024
  const FRAME_STDIN: Byte := 0

  datatype Frame = Frame(kind: Byte, payload: seq<Byte>)

  // ---------------------------------------------------------------- the format

  function BigEndian(n: nat): (s: seq<Byte>)
    requires n < 0x1_0000_0000
    ensures |s| == 4
  {
    [n / 0x100_0000, n / 0x1_0000 % 256, n / 256 % 256, n % 256]
  }

  function FromBigEndian(s: seq<Byte>): nat
    requires |s| == 4
  {
    var a: int, b: int, c: int := s[0], s[1], s[2];
    ((a * 256 + b) * 256 + c) * 256 + s[3]
  }

  lemma BigEndianRoundTrip(n: nat)
    requires n < 0x1_0000_0000
    ensures FromBigEndian(BigEndian(n)) == n
  {
    assert n / 0x100_0000 == n / 256 / 256 / 256;
    assert n / 0x1_0000 == n / 256 / 256;
  }

  lemma FromBigEndianRoundTrip(s: seq<Byte>)
    requires |s| == 4
    ensures FromBigEndian(s) < 0x1_0000_0000 && BigEndian(FromBigEndian(s)) == s
  {
    var high: int := s[0];
    var a: int := high * 256 + s[1];
    var b: int := a * 256 + s[2];
    var n: int := b * 256 + s[3];
    assert n / 256 == b && n % 256 == s[3];
    assert b / 256 == a && b % 256 == s[2];
    assert a / 256 == s[0] && a % 256 == s[1];
    assert n / 0x1_0000 == n / 256 / 256 && n / 0x100_0000 == n / 256 / 256 / 256;
  }

  predicate Fits(f: Frame) {
    |f.payload| <= MAX_FRAME_SIZE
  }

  function Encode(f: Frame): seq<Byte>
    requires Fits(f)
  {
    [f.kind] + BigEndian(|f.payload|) + f.payload
  }

  /** Why no frame could be read: a clean end, an end inside a frame, or a length over the limit. */
  datatype ReadError = Eof | UnexpectedEof | TooLarge

  datatype Result<+T> = Ok(value: T) | Err(error: ReadError)

  /** The next frame of a byte stream, and what is left of the stream. */
  function Decode(s: seq<Byte>): (Result<Frame>, seq<Byte>) {
    if |s| < 5 then (Err(if s == [] then Eof else UnexpectedEof), [])
    else
      var length := FromBigEndian(s[1..5]);
      if length > MAX_FRAME_SIZE then (Err(TooLarge), s[5..])
      else if |s| - 5 < length then (Err(UnexpectedEof), [])
      else (Ok(Frame(s[0], s[5..5 + length])), s[5 + length..])
  }

  lemma DecodeEncode(f: Frame, rest: seq<Byte>)
    requires Fits(f)
    ensures Decode(Encode(f) + rest) == (Ok(f), rest)
  {
    var s := Encode(f) + rest;
    assert s[1..5] == BigEndian(|f.payload|);
    BigEndianRoundTrip(|f.payload|);
    assert s[5..5 + |f.payload|] == f.payload;
    assert s[5 + |f.payload|..] == rest;
  }

  /** A frame is only ever read from its own encoding, so the format is unambiguous. */
  lemma DecodedWasEncoded(s: seq<Byte>, f: Frame, rest: seq<Byte>)
    requires Decode(s) == (Ok(f), rest)
    ensures Fits(f) && s == Encode(f) + rest
  {
    FromBigEndianRoundTrip(s[1..5]);
    assert s == [s[0]] + s[1..5] + f.payload + rest;
  }

  /** A stream cut inside a frame gives an error, never a wrong frame. */
  lemma CutFrameIsAnError(f: Frame, n: nat)
    requires Fits(f) && n < |Encode(f)|
    ensures Decode(Encode(f)[..n]) == (Err(if n == 0 then Eof else UnexpectedEof), [])
  {
    var s := Encode(f);
    if n >= 5 {
      assert s[..n][1..5] == s[1..5] == BigEndian(|f.payload|);
      BigEndianRoundTrip(|f.payload|);
    }
  }

  function EncodeAll(frames: seq<Frame>): seq<Byte>
    requires forall i :: 0 <= i < |frames| ==> Fits(frames[i])
  {
    if frames == [] then [] else Encode(frames[0]) + EncodeAll(frames[1..])
  }

  /** All frames up to the first error, and that error. */
  function DecodeAll(s: seq<Byte>): (seq<Frame>, ReadError)
    decreases |s|
  {
    var (first, rest) := Decode(s);
    if first.Err? then ([], first.error)
    else
      var (frames, error) := DecodeAll(rest);
      ([first.value] + frames, error)
  }

  /** The first `n` bytes of the encoded frames hold `k` whole frames, and not one more. */
  predicate HoldsWhole(frames: seq<Frame>, n: nat, k: nat)
    requires forall i :: 0 <= i < |frames| ==> Fits(frames[i])
  {
    && k <= |frames|
    && |EncodeAll(frames[..k])| <= n
    && (k == |frames| || n < |EncodeAll(frames[..k + 1])|)
  }

  /** Reading the first `n` bytes gives exactly `k` frames, then a clean end or an error. */
  predicate YieldsWhole(frames: seq<Frame>, n: nat, k: nat)
    requires forall i :: 0 <= i < |frames| ==> Fits(frames[i])
    requires n <= |EncodeAll(frames)|
  {
    && HoldsWhole(frames, n, k)
    && DecodeAll(EncodeAll(frames)[..n])
       == (frames[..k], if n == |EncodeAll(frames[..k])| then Eof else UnexpectedEof)
  }

  /** A stream of frames that is cut anywhere yields exactly its whole frames. */
  lemma {:induction false} CutStreamYieldsWholeFrames(frames: seq<Frame>, n: nat)
    requires forall i :: 0 <= i < |frames| ==> Fits(frames[i])
    requires n <= |EncodeAll(frames)|
    ensures exists k: nat :: YieldsWhole(frames, n, k)
    decreases |frames|
  {
    if frames == [] {
      assert frames[..0] == [];
      assert EncodeAll(frames)[..n] == [];
      assert YieldsWhole(frames, n, 0);
    } else if n < |Encode(frames[0])| {
      CutInFirst(frames, n);
    } else {
      hide YieldsWhole, Encode;
      var m := n - |Encode(frames[0])|;
      CutStreamYieldsWholeFrames(frames[1..], m);
      var k: nat :| YieldsWhole(frames[1..], m, k);
      CutLater(frames, m, k);
    }
  }

  lemma CutInFirst(frames: seq<Frame>, n: nat)
    requires forall i :: 0 <= i < |frames| ==> Fits(frames[i])
    requires frames != [] && n < |Encode(frames[0])|
    ensures n <= |EncodeAll(frames)| && YieldsWhole(frames, n, 0)
  {
    var first := Encode(frames[0]);
    assert frames[..1][1..] == [] && EncodeAll(frames[..1]) == first + [] == first;
    assert EncodeAll(frames)[..n] == first[..n];
    CutFrameIsAnError(frames[0], n);
    assert frames[..0] == [];
    hide Encode, Decode;
  }

  lemma CutLater(frames: seq<Frame>, m: nat, k: nat)
    requires forall i :: 0 <= i < |frames| ==> Fits(frames[i])
    requires frames != [] && m <= |EncodeAll(frames[1..])| && YieldsWhole(frames[1..], m, k)
    ensures |Encode(frames[0])| + m <= |EncodeAll(frames)|
    ensures YieldsWhole(frames, |Encode(frames[0])| + m, k + 1)
  {
    hide DecodeAll, Decode, Encode, EncodeAll;
    EncodeCons(frames);
    OneMore(frames, k);
    HoldsLater(frames, m, k);
    hide HoldsWhole;
    var first, rest := Encode(frames[0]), EncodeAll(frames[1..]);
    TakeLater(first, rest, m);
    DecodeAllLater(frames[0], rest[..m]);
  }

  lemma TakeLater(a: seq<Byte>, b: seq<Byte>, n: nat)
    requires n <= |b|
    ensures (a + b)[..|a| + n] == a + b[..n]
  {
  }

  lemma EncodeCons(frames: seq<Frame>)
    requires forall i :: 0 <= i < |frames| ==> Fits(frames[i])
    requires frames != []
    ensures EncodeAll(frames) == Encode(frames[0]) + EncodeAll(frames[1..])
  {
  }

  lemma HoldsLater(frames: seq<Frame>, m: nat, k: nat)
    requires forall i :: 0 <= i < |frames| ==> Fits(frames[i])
    requires frames != [] && HoldsWhole(frames[1..], m, k)
    ensures HoldsWhole(frames, |Encode(frames[0])| + m, k + 1)
  {
    hide Encode, EncodeAll;
    OneMore(frames, k);
    if k < |frames| - 1 {
      OneMore(frames, k + 1);
    }
  }

  lemma DecodeAllLater(f: Frame, s: seq<Byte>)
    requires Fits(f)
    ensures DecodeAll(Encode(f) + s) == ([f] + DecodeAll(s).0, DecodeAll(s).1)
  {
    DecodeEncode(f, s);
    hide Decode, Encode;
  }

  lemma OneMore(frames: seq<Frame>, k: nat)
    requires forall i :: 0 <= i < |frames| ==> Fits(frames[i])
    requires k < |frames|
    ensures frames[..k + 1] == [frames[0]] + frames[1..][..k]
    ensures EncodeAll(frames[..k + 1]) == Encode(frames[0]) + EncodeAll(frames[1..][..k])
  {
    assert frames[..k + 1][1..] == frames[1..][..k];
  }

  lemma {:induction false} DecodeAllEncodeAll(frames: seq<Frame>)
    requires forall i :: 0 <= i < |frames| ==> Fits(frames[i])
    ensures DecodeAll(EncodeAll(frames)) == (frames, Eof)
    decreases |frames|
  {
    if frames != [] {
      DecodeAllEncodeAll(frames[1..]);
      DecodeEncode(frames[0], EncodeAll(frames[1..]));
      assert frames == [frames[0]] + frames[1..];
    }
  }

  // ---------------------------------------------------------------- writing

  /** A stream that accepts `room` more bytes and then fails for good. */
  class Writer {
    var data: seq<Byte>
    var room: nat

    constructor (room: nat)
      ensures data == [] && this.room == room
    {
      data, this.room := [], room;
    }

    method Write(buf: array<Byte>) returns (ok: bool)
      modifies this
      ensures ok <==> buf.Length <= old(room)
      ensures ok ==> data == old(data) + buf[..] && room == old(room) - buf.Length
      ensures !ok ==> data == old(data) + buf[..old(room)] && room == 0
    {
      ok := buf.Length <= room;
      var n := if ok then buf.Length else room;
      data := data + buf[..n];
      room := room - n;
      assert buf[..buf.Length] == buf[..];
    }
  }

  datatype WriteResult = Written | FrameTooLarge | Failed

  method WriteFrame(w: Writer, kind: Byte, payload: seq<Byte>) returns (r: WriteResult)
    modifies w
    ensures r.FrameTooLarge? <==> |payload| > MAX_FRAME_SIZE
    ensures r.FrameTooLarge? ==> w.data == old(w.data) && w.room == old(w.room)
    ensures |payload| <= MAX_FRAME_SIZE ==>
              var bytes := Encode(Frame(kind, payload));
              && (r.Written? <==> |bytes| <= old(w.room))
              && (r.Written? ==> w.data == old(w.data) + bytes && w.room == old(w.room) - |bytes|)
              && (r.Failed? ==> w.data == old(w.data) + bytes[..old(w.room)] && w.room == 0)
  {
    if |payload| > MAX_FRAME_SIZE {
      return FrameTooLarge;
    }
    var buf := new Byte[5 + |payload|];
    buf[0] := kind;
    PutUint32(buf, |payload|);
    for i := 0 to |payload|
      invariant buf[..5] == [kind] + BigEndian(|payload|)
      invariant buf[5..5 + i] == payload[..i]
      invariant w.data == old(w.data) && w.room == old(w.room)
    {
      buf[5 + i] := payload[i];
    }
    assert buf[..] == buf[..5] + buf[5..5 + |payload|];
    assert payload[..|payload|] == payload;
    var ok := w.Write(buf);
    r := if ok then Written else Failed;
  }

  method PutUint32(buf: array<Byte>, n: nat)
    requires buf.Length >= 5 && n < 0x1_0000_0000
    modifies buf
    ensures buf[0] == old(buf[0]) && buf[1..5] == BigEndian(n)
    ensures buf[5..] == old(buf[5..])
  {
    buf[1] := n / 0x100_0000;
    buf[2] := n / 0x1_0000 % 256;
    buf[3] := n / 256 % 256;
    buf[4] := n % 256;
  }

  // ---------------------------------------------------------------- reading

  /** A stream whose bytes arrive in fragments of any size. */
  class Reader {
    var fragments: seq<seq<Byte>>

    constructor (fragments: seq<seq<Byte>>)
      ensures this.fragments == fragments
    {
      this.fragments := fragments;
    }

    ghost function Content(): seq<Byte>
      reads this
    {
      Concat(fragments)
    }

    /** Reads at most one fragment into `buf[from..]`; `eof` once nothing is left. */
    method Read(buf: array<Byte>, from: nat) returns (n: nat, eof: bool)
      requires from < buf.Length
      modifies this, buf
      ensures eof ==> n == 0 && old(Content()) == [] && Content() == []
      ensures from + n <= buf.Length && n <= |old(Content())|
      ensures buf[..from] == old(buf[..from]) && buf[from..from + n] == old(Content())[..n]
      ensures Content() == old(Content())[n..]
      ensures !eof ==> n > 0 || |fragments| < |old(fragments)|
      ensures |fragments| <= |old(fragments)|
    {
      if fragments == [] {
        return 0, true;
      }
      var first := fragments[0];
      eof := false;
      n := if |first| <= buf.Length - from then |first| else buf.Length - from;
      forall i | 0 <= i < n {
        buf[from + i] := first[i];
      }
      assert Content() == first + Concat(fragments[1..]);
      if n == |first| {
        fragments := fragments[1..];
      } else {
        fragments := [first[n..]] + fragments[1..];
        assert Content() == first[n..] + Concat(old(fragments)[1..]);
      }
    }
  }

  /** Fills `buf` or fails: `Eof` if the stream ended before the first byte, else `UnexpectedEof`. */
  method ReadFull(r: Reader, buf: array<Byte>) returns (result: Result<()>)
    modifies r, buf
    ensures result.Ok? <==> |old(r.Content())| >= buf.Length
    ensures result.Ok? ==> buf[..] == old(r.Content())[..buf.Length] && r.Content() == old(r.Content())[buf.Length..]
    ensures result.Err? ==> r.Content() == []
    ensures result.Err? ==> result.error == if old(r.Content()) == [] then Eof else UnexpectedEof
  {
    var n := 0;
    ghost var all := r.Content();
    while n < buf.Length
      invariant n <= buf.Length && n <= |all|
      invariant buf[..n] == all[..n]
      invariant r.Content() == all[n..]
      decreases buf.Length - n, |r.fragments|
    {
      var m, eof := r.Read(buf, n);
      if eof {
        return Err(if n == 0 then Eof else UnexpectedEof);
      }
      assert buf[..n + m] == buf[..n] + buf[n..n + m];
      assert all[..n + m] == all[..n] + all[n..][..m];
      n := n + m;
    }
    assert buf[..] == buf[..n];
    result := Ok(());
  }

  /** What is read depends only on the bytes of the stream, not on how they arrive. */
  method ReadFrame(r: Reader) returns (result: Result<Frame>)
    modifies r
    ensures (result, r.Content()) == Decode(old(r.Content()))
  {
    ghost var all := r.Content();
    var header := new Byte[5];
    var got := ReadFull(r, header);
    if got.Err? {
      return Err(got.error);
    }
    var length := FromBigEndian(header[1..5]);
    assert header[1..5] == all[1..5];
    if length > MAX_FRAME_SIZE {
      return Err(TooLarge);
    }
    var payload := new Byte[length];
    got := ReadFull(r, payload);
    if got.Err? {
      return Err(UnexpectedEof);
    }
    assert payload[..] == all[5..5 + length];
    assert all[5..][length..] == all[5 + length..];
    result := Ok(Frame(header[0], payload[..]));
  }

  // ---------------------------------------------------------------- the client's stdin

  /** `p` cut into stdin frames of at most `STDIN_CHUNK` bytes. */
  function StdinFrames(p: seq<Byte>): (frames: seq<Frame>)
    ensures forall i :: 0 <= i < |frames| ==> Fits(frames[i]) && 0 < |frames[i].payload| <= STDIN_CHUNK
    decreases |p|
  {
    if p == [] then []
    else if |p| <= STDIN_CHUNK then [Frame(FRAME_STDIN, p)]
    else [Frame(FRAME_STDIN, p[..STDIN_CHUNK])] + StdinFrames(p[STDIN_CHUNK..])
  }

  ghost function Payloads(frames: seq<Frame>): seq<seq<Byte>> {
    seq(|frames|, i requires 0 <= i < |frames| => frames[i].payload)
  }

  lemma {:induction false} StdinFramesCarryEverything(p: seq<Byte>)
    ensures Concat(Payloads(StdinFrames(p))) == p
    ensures forall i :: 0 <= i < |StdinFrames(p)| ==> StdinFrames(p)[i].kind == FRAME_STDIN
    decreases |p|
  {
    if p == [] {
    } else if |p| <= STDIN_CHUNK {
      assert Payloads(StdinFrames(p)) == [p];
      assert Concat([p]) == p + Concat([]);
    } else {
      StdinFramesCarryEverything(p[STDIN_CHUNK..]);
      var rest := StdinFrames(p[STDIN_CHUNK..]);
      assert Payloads(StdinFrames(p)) == [p[..STDIN_CHUNK]] + Payloads(rest);
      assert p == p[..STDIN_CHUNK] + p[STDIN_CHUNK..];
    }
  }

  lemma {:induction false} EncodeAllAppend(a: seq<Frame>, b: seq<Frame>)
    requires forall i :: 0 <= i < |a| ==> Fits(a[i])
    requires forall i :: 0 <= i < |b| ==> Fits(b[i])
    ensures EncodeAll(a + b) == EncodeAll(a) + EncodeAll(b)
    decreases |a|
  {
    if a == [] {
      assert a + b == b;
    } else {
      assert (a + b)[1..] == a[1..] + b;
      EncodeAllAppend(a[1..], b);
      Regroup(Encode(a[0]), EncodeAll(a[1..]), EncodeAll(b));
    }
  }

  lemma EncodePrefix(frames: seq<Frame>, k: nat)
    requires forall i :: 0 <= i < |frames| ==> Fits(frames[i])
    requires k < |frames|
    ensures EncodeAll(frames[..k + 1]) == EncodeAll(frames[..k]) + Encode(frames[k])
    ensures EncodeAll(frames) == EncodeAll(frames[..k + 1]) + EncodeAll(frames[k + 1..])
  {
    hide Encode, EncodeAll;
    SplitAround(frames, k);
    EncodeAround(frames[..k], frames[k], frames[k + 1..]);
  }

  lemma SplitAround(frames: seq<Frame>, k: nat)
    requires k < |frames|
    ensures frames[..k] + [frames[k]] == frames[..k + 1]
    ensures frames[..k] + [frames[k]] + frames[k + 1..] == frames
  {
  }

  lemma EncodeAround(a: seq<Frame>, f: Frame, b: seq<Frame>)
    requires Fits(f) && (forall i :: 0 <= i < |a| ==> Fits(a[i])) && (forall i :: 0 <= i < |b| ==> Fits(b[i]))
    ensures EncodeAll(a + [f]) == EncodeAll(a) + Encode(f)
    ensures EncodeAll(a + [f] + b) == EncodeAll(a + [f]) + EncodeAll(b)
  {
    EncodeOne(f);
    hide Encode, EncodeAll;
    EncodeAllAppend(a, [f]);
    EncodeAllAppend(a + [f], b);
  }

  lemma EncodeOne(f: Frame)
    requires Fits(f)
    ensures EncodeAll([f]) == Encode(f)
  {
    assert EncodeAll([f]) == Encode(f) + EncodeAll([]);
  }

  /** Sends `p` as stdin frames; on a failure, `sent` bytes went out in whole frames. */
  method WriteStdin(w: Writer, p: seq<Byte>) returns (sent: nat, ok: bool)
    modifies w
    ensures ok <==> |EncodeAll(StdinFrames(p))| <= old(w.room)
    ensures ok ==> sent == |p| && w.data == old(w.data) + EncodeAll(StdinFrames(p))
    ensures !ok ==> w.data == old(w.data) + EncodeAll(StdinFrames(p))[..old(w.room)]
    ensures !ok ==> sent < |p| && sent % STDIN_CHUNK == 0
    ensures !ok ==> HoldsWhole(StdinFrames(p), old(w.room), sent / STDIN_CHUNK)
  {
    hide Encode, EncodeAll, StdinFrames, HoldsWhole;
    sent := 0;
    ghost var frames, k: nat := StdinFrames(p), 0;
    assert p[0..] == p && frames[0..] == frames;
    EncodeNone(frames);
    while sent < |p|
      invariant sent <= |p| && k <= |frames|
      invariant frames[k..] == StdinFrames(p[sent..])
      invariant sent < |p| ==> sent == k * STDIN_CHUNK
      invariant w.data == old(w.data) + EncodeAll(frames[..k])
      invariant old(w.room) == w.room + |EncodeAll(frames[..k])|
      decreases |p| - sent
    {
      var n := if |p| - sent < STDIN_CHUNK then |p| - sent else STDIN_CHUNK;
      NextStdinFrame(frames, k, p[sent..], n);
      assert p[sent..][..n] == p[sent..sent + n] && p[sent..][n..] == p[sent + n..];
      EncodePrefix(frames, k);
      var r := WriteFrame(w, FRAME_STDIN, p[sent..sent + n]);
      if r.Failed? {
        CutStdin(frames, k, old(w.room), old(w.data));
        return sent, false;
      }
      Regroup(old(w.data), EncodeAll(frames[..k]), Encode(frames[k]));
      k := k + 1;
      sent := sent + n;
    }
    assert p[sent..] == [];
    NothingLeft();
    assert frames[..k] == frames;
    ok := true;
  }

  lemma EncodeNone(frames: seq<Frame>)
    ensures EncodeAll(frames[..0]) == []
  {
  }

  lemma NothingLeft()
    ensures StdinFrames([]) == []
  {
  }

  lemma CutInFrame(frames: seq<Frame>, k: nat, n: nat)
    requires forall i :: 0 <= i < |frames| ==> Fits(frames[i])
    requires k < |frames| && |EncodeAll(frames[..k])| <= n < |EncodeAll(frames[..k])| + |Encode(frames[k])|
    ensures HoldsWhole(frames, n, k) && n <= |EncodeAll(frames)|
    ensures EncodeAll(frames[..k]) + Encode(frames[k])[..n - |EncodeAll(frames[..k])|] == EncodeAll(frames)[..n]
  {
    EncodePrefix(frames, k);
    hide Encode, EncodeAll;
    var before, frame := EncodeAll(frames[..k]), Encode(frames[k]);
    assert EncodeAll(frames)[..n] == (before + frame)[..n];
    assert (before + frame)[..n] == before + frame[..n - |before|];
  }

  lemma CutStdin(frames: seq<Frame>, k: nat, n: nat, data: seq<Byte>)
    requires forall i :: 0 <= i < |frames| ==> Fits(frames[i])
    requires k < |frames| && |EncodeAll(frames[..k])| <= n < |EncodeAll(frames[..k])| + |Encode(frames[k])|
    ensures HoldsWhole(frames, n, k) && n < |EncodeAll(frames)|
    ensures data + EncodeAll(frames[..k]) + Encode(frames[k])[..n - |EncodeAll(frames[..k])|]
         == data + EncodeAll(frames)[..n]
  {
    hide Encode, EncodeAll, HoldsWhole;
    CutInFrame(frames, k, n);
    EncodePrefix(frames, k);
    Regroup(data, EncodeAll(frames[..k]), Encode(frames[k])[..n - |EncodeAll(frames[..k])|]);
  }

  lemma NextStdinFrame(frames: seq<Frame>, k: nat, p: seq<Byte>, n: nat)
    requires p != [] && n == if |p| < STDIN_CHUNK then |p| else STDIN_CHUNK
    requires k <= |frames| && frames[k..] == StdinFrames(p)
    ensures k < |frames| && frames[k] == Frame(FRAME_STDIN, p[..n])
    ensures frames[k + 1..] == StdinFrames(p[n..])
  {
    assert frames[k + 1..] == frames[k..][1..];
    assert p[..|p|] == p;
  }
}
