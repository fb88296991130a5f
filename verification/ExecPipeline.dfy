/**
  One framed exec without a terminal, from the process's pipes to the client's stdout and stderr
  (internal/endpoint/exec.go, internal/host/execserver.go, internal/host/execclient.go).

  The endpoint's two pumps and its main handler, the host's proxy loop and its client reader, the
  client, the process group and failures are interleaved one step at a time in any order. A channel
  carries whole frames; a cut inside a frame is an error for the reader (Frames.CutFrameIsAnError).
*/
module ExecPipeline {
  import opened Common
  import opened Bytes

  datatype Stream = Stdout | Stderr

  /** What an exit frame reports: the process's status, or that the host lost the endpoint. */
  datatype Exit = Status(code: int) | BridgeLost

  datatype Frame = Output(stream: Stream, data: seq<Byte>) | ExitFrame(exit: Exit)

  /** One of the process's output pipes and the pump that reads it. */
  datatype Source = Source(
    wrote: seq<Byte>,            // all that the process and its group have written
    pipe: seq<Byte>,             // written and not read yet
    writersGone: bool,           // every writer has closed its end
    held: Option<seq<Byte>>,     // read by the pump, its frame not yet written
    failed: bool,                // a frame could not be written: the pump only drains
    done: bool)                  // the pump has returned

  /** The endpoint's main goroutine. */
  datatype Handler = Waiting | Killing | Draining | Terminating | Sending | Finished

  datatype Endpoint = Endpoint(
    out: Source,
    err: Source,
    exited: Option<int>,         // status of the process itself
    callerGone: bool,            // the endpoint noticed that its stream failed
    handler: Handler)
  {
    function Src(stream: Stream): Source {
      if stream == Stdout then out else err
    }

    function With(stream: Stream, source: Source): Endpoint {
      if stream == Stdout then this.(out := source) else this.(err := source)
    }

    predicate PumpsDone() {
      out.done && err.done
    }
  }

  /** The bridge stream from endpoint to host. */
  datatype Bridge = Bridge(
    frames: seq<Frame>,          // in transit
    broken: bool,                // a write by the endpoint has failed, so all later ones fail
    ended: bool,                 // the endpoint has closed the stream
    cut: bool,                   // frames in transit were lost
    down: bool,                  // the bridge itself has failed
    abandoned: bool)             // the host has closed the stream
  {
    /** A write by the endpoint fails only if one has failed before, or the stream is closed or broken. */
    predicate WriteCanFail() {
      broken || down || abandoned
    }

    /** A write that is accepted; it vanishes once the transit is cut. */
    function Accept(frame: Frame): Bridge {
      if cut then this else this.(frames := frames + [frame])
    }
  }

  datatype Proxy = Reading | Forwarding(frame: Frame) | Returned

  datatype Reader = Watching | Deciding | Stopped

  /** The host's proxy loop and the goroutine that reads the client's frames. */
  datatype Host = Host(
    proxy: Proxy,
    exitSeen: bool,              // the proxy's `exited` channel is closed
    clientGone: bool,
    reader: Reader,
    shutdown: bool)              // CloseExecs has begun

  datatype ClientState = Running | Got(exit: Exit) | Lost | Quit

  /** The connection from host to client, and the client. */
  datatype Conn = Conn(
    frames: seq<Frame>,          // in transit
    hostClosed: bool,
    clientClosed: bool,
    client: ClientState,
    received: seq<Frame>)        // all frames the client has read
  {
    /** A write to a connection that either side has closed fails. */
    predicate IsOpen() {
      !hostClosed && !clientClosed
    }
  }

  datatype State = State(endpoint: Endpoint, bridge: Bridge, host: Host, conn: Conn)

  const PUMP_BUFFER := 32 * 1024

  const IDLE := Source([], [], false, None, false, false)

  const INITIAL := State(
    Endpoint(IDLE, IDLE, None, false, Waiting),
    Bridge([], false, false, false, false, false),
    Host(Reading, false, false, Watching, false),
    Conn([], false, false, Running, []))

  /** Who does what next. A step that is not possible leaves the state as it is. */
  datatype Step =
    // the process group
    | GroupWrites(stream: Stream, data: seq<Byte>)
    | GroupCloses(stream: Stream)
    | ProcessExits(code: int)
    // the endpoint
    | PumpReads(stream: Stream, n: nat)
    | PumpWrites(stream: Stream, ok: bool)
    | PumpReturns(stream: Stream)
    | HandlerSeesExit
    | HandlerSeesCallerGone
    | HandlerSeesPumpsDone
    | HandlerSendsExit(ok: bool)
    | EndpointReadFails
    // the bridge
    | BridgeFails
    | TransitLost(kept: nat)
    // the host
    | ProxyReads
    | ProxyReadFails(ok: bool)
    | ProxyWrites(ok: bool)
    | ClientReadFails
    | ClientReaderDecides
    | ForwardToEndpointFails
    | ClientSendsInvalidFrame
    | ShutdownClosesStream
    | ShutdownClosesClient
    | InstanceDies
    // the client
    | ClientReads
    | ClientSeesEnd
    | ClientQuits

  // ---------------------------------------------------------------- the process group

  function GroupWritesNext(s: State, stream: Stream, data: seq<Byte>): State {
    var src := s.endpoint.Src(stream);
    if src.writersGone then s
    else s.(endpoint := s.endpoint.With(stream, src.(wrote := src.wrote + data, pipe := src.pipe + data)))
  }

  function GroupClosesNext(s: State, stream: Stream): State {
    s.(endpoint := s.endpoint.With(stream, s.endpoint.Src(stream).(writersGone := true)))
  }

  function ProcessExitsNext(s: State, code: int): State {
    if s.endpoint.exited.Some? then s else s.(endpoint := s.endpoint.(exited := Some(code)))
  }

  // ---------------------------------------------------------------- the endpoint

  function PumpReadsNext(s: State, stream: Stream, n: nat): State {
    var src := s.endpoint.Src(stream);
    if src.done || src.held.Some? || !(0 < n <= |src.pipe| && n <= PUMP_BUFFER) then s
    else
      var held := if src.failed then None else Some(src.pipe[..n]);
      s.(endpoint := s.endpoint.With(stream, src.(pipe := src.pipe[n..], held := held)))
  }

  function PumpWritesNext(s: State, stream: Stream, ok: bool): State {
    var src := s.endpoint.Src(stream);
    if src.held.None? then s
    else if ok then
      if s.bridge.broken then s
      else s.(endpoint := s.endpoint.With(stream, src.(held := None)),
              bridge := s.bridge.Accept(Output(stream, src.held.value)))
    else if s.bridge.WriteCanFail() then
      s.(endpoint := s.endpoint.With(stream, src.(held := None, failed := true)).(callerGone := true),
         bridge := s.bridge.(broken := true))
    else s
  }

  function PumpReturnsNext(s: State, stream: Stream): State {
    var src := s.endpoint.Src(stream);
    if src.held.None? && src.pipe == [] && src.writersGone then
      s.(endpoint := s.endpoint.With(stream, src.(done := true)))
    else s
  }

  function HandlerNext(e: Endpoint, step: Step): Endpoint {
    match step
    case HandlerSeesExit =>
      if e.exited.Some? && (e.handler.Waiting? || e.handler.Killing?) then e.(handler := Draining) else e
    case HandlerSeesCallerGone =>
      if !e.callerGone then e
      else if e.handler.Waiting? then e.(handler := Killing)
      else if e.handler.Draining? then e.(handler := Terminating)
      else e
    case HandlerSeesPumpsDone =>
      if e.PumpsDone() && (e.handler.Draining? || e.handler.Terminating?) then e.(handler := Sending) else e
    case _ => e
  }

  function HandlerSendsExitNext(s: State, ok: bool): State {
    var finished := s.endpoint.(handler := Finished);
    if !s.endpoint.handler.Sending? || s.endpoint.exited.None? then s
    else if ok then
      if s.bridge.broken then s
      else State(finished, s.bridge.Accept(ExitFrame(Status(s.endpoint.exited.value))).(ended := true), s.host, s.conn)
    else if s.bridge.WriteCanFail() then
      State(finished, s.bridge.(broken := true, ended := true), s.host, s.conn)
    else s
  }

  function EndpointReadFailsNext(s: State): State {
    if s.bridge.down || s.bridge.abandoned then s.(endpoint := s.endpoint.(callerGone := true)) else s
  }

  // ---------------------------------------------------------------- the bridge

  function TransitLostNext(b: Bridge, kept: nat): Bridge {
    if b.down && kept <= |b.frames| then b.(frames := b.frames[..kept], cut := true) else b
  }

  // ---------------------------------------------------------------- the host

  /** The proxy returns: its deferred calls close both connections. */
  function ProxyReturns(s: State): State {
    s.(host := s.host.(proxy := Returned), bridge := s.bridge.(abandoned := true), conn := s.conn.(hostClosed := true))
  }

  function ProxyReadsNext(s: State): State {
    if !s.host.proxy.Reading? || s.bridge.frames == [] then s
    else
      var frame := s.bridge.frames[0];
      s.(bridge := s.bridge.(frames := s.bridge.frames[1..]),
         host := s.host.(proxy := Forwarding(frame), exitSeen := s.host.exitSeen || frame.ExitFrame?))
  }

  predicate ProxyReadCanFail(b: Bridge) {
    b.down || b.abandoned || (b.ended && b.frames == [])
  }

  /** Unless the client is gone, the proxy makes up an exit frame, whose write can fail as well. */
  function ProxyReadFailsNext(s: State, ok: bool): State {
    if !s.host.proxy.Reading? || !ProxyReadCanFail(s.bridge) then s
    else if s.host.clientGone then ProxyReturns(s)
    else
      var told := s.(host := s.host.(exitSeen := true));
      if ok && s.conn.IsOpen() then ProxyReturns(WithFrame(told, ExitFrame(BridgeLost))) else ProxyReturns(told)
  }

  function WithFrame(s: State, frame: Frame): State {
    s.(conn := s.conn.(frames := s.conn.frames + [frame]))
  }

  function ProxyWritesNext(s: State, ok: bool): State {
    if !s.host.proxy.Forwarding? then s
    else if ok then
      if !s.conn.IsOpen() then s
      else if s.host.proxy.frame.ExitFrame? then ProxyReturns(WithFrame(s, s.host.proxy.frame))
      else WithFrame(s, s.host.proxy.frame).(host := s.host.(proxy := Reading))
    else if s.conn.IsOpen() then s
    else if s.host.proxy.frame.ExitFrame? then ProxyReturns(s)
    else ProxyReturns(s.(host := s.host.(clientGone := true)))
  }

  /**
    The goroutine that reads the client's frames. A failed read means that the client is gone, unless the
    exit was seen. It can fail at any time: also a half-closed connection or an oversized frame is an error.
  */
  function ReaderNext(s: State, step: Step): State {
    match step
    case ClientReadFails =>
      if !s.host.reader.Watching? then s
      else s.(host := s.host.(reader := if s.host.exitSeen then Stopped else Deciding))
    case ForwardToEndpointFails =>
      if s.host.reader.Watching? && (s.bridge.down || s.bridge.abandoned || s.bridge.ended) then
        s.(host := s.host.(reader := Stopped))
      else s
    case ClientReaderDecides =>
      if s.host.reader.Deciding? then
        s.(host := s.host.(reader := Stopped, clientGone := true), bridge := s.bridge.(abandoned := true))
      else s
    case ClientSendsInvalidFrame =>
      if s.host.reader.Watching? then
        s.(host := s.host.(reader := Stopped, clientGone := true), bridge := s.bridge.(abandoned := true),
           conn := s.conn.(hostClosed := true))
      else s
    case _ => s
  }

  /** CloseExecs closes the stream and the client's connection, in any order. */
  function ShutdownNext(s: State, step: Step): State {
    if step.ShutdownClosesStream? then
      s.(host := s.host.(shutdown := true), bridge := s.bridge.(abandoned := true))
    else
      s.(host := s.host.(shutdown := true), conn := s.conn.(hostClosed := true))
  }

  function InstanceDiesNext(s: State): State {
    ProxyReturns(s.(host := s.host.(reader := Stopped), bridge := s.bridge.(down := true)))
  }

  // ---------------------------------------------------------------- the client

  function ClientReadsNext(c: Conn): Conn {
    if !c.client.Running? || c.frames == [] then c
    else
      var frame := c.frames[0];
      c.(frames := c.frames[1..], received := c.received + [frame],
         client := if frame.ExitFrame? then Got(frame.exit) else Running)
  }

  function ClientEndsNext(c: Conn, step: Step): Conn {
    if !c.client.Running? then c
    else if step.ClientQuits? then c.(client := Quit, clientClosed := true)
    else if c.frames == [] && c.hostClosed then c.(client := Lost)
    else c
  }

  function Next(s: State, step: Step): State {
    match step
    case GroupWrites(stream, data) => GroupWritesNext(s, stream, data)
    case GroupCloses(stream) => GroupClosesNext(s, stream)
    case ProcessExits(code) => ProcessExitsNext(s, code)
    case PumpReads(stream, n) => PumpReadsNext(s, stream, n)
    case PumpWrites(stream, ok) => PumpWritesNext(s, stream, ok)
    case PumpReturns(stream) => PumpReturnsNext(s, stream)
    case HandlerSeesExit | HandlerSeesCallerGone | HandlerSeesPumpsDone =>
      s.(endpoint := HandlerNext(s.endpoint, step))
    case HandlerSendsExit(ok) => HandlerSendsExitNext(s, ok)
    case EndpointReadFails => EndpointReadFailsNext(s)
    case BridgeFails => s.(bridge := s.bridge.(down := true))
    case TransitLost(kept) => s.(bridge := TransitLostNext(s.bridge, kept))
    case ProxyReads => ProxyReadsNext(s)
    case ProxyReadFails(ok) => ProxyReadFailsNext(s, ok)
    case ProxyWrites(ok) => ProxyWritesNext(s, ok)
    case ClientReadFails | ClientReaderDecides | ForwardToEndpointFails | ClientSendsInvalidFrame => ReaderNext(s, step)
    case ShutdownClosesStream | ShutdownClosesClient => ShutdownNext(s, step)
    case InstanceDies => InstanceDiesNext(s)
    case ClientReads => s.(conn := ClientReadsNext(s.conn))
    case ClientSeesEnd | ClientQuits => s.(conn := ClientEndsNext(s.conn, step))
  }

  function From(s: State, steps: seq<Step>): State {
    if steps == [] then s else Next(From(s, steps[..|steps| - 1]), steps[|steps| - 1])
  }

  /** The state after any steps, by anyone, in any order. */
  function Run(steps: seq<Step>): State {
    From(INITIAL, steps)
  }

  /** The bytes of one stream in some frames: what the client writes to its stdout or stderr. */
  function Data(frames: seq<Frame>, stream: Stream): seq<Byte> {
    if frames == [] then []
    else
      var last := frames[|frames| - 1];
      Data(frames[..|frames| - 1], stream) + if last.Output? && last.stream == stream then last.data else []
  }

  lemma {:induction false} DataAppend(a: seq<Frame>, b: seq<Frame>, stream: Stream)
    ensures Data(a + b, stream) == Data(a, stream) + Data(b, stream)
    decreases |b|
  {
    if b == [] {
      assert a + b == a;
    } else {
      assert (a + b)[..|a + b| - 1] == a + b[..|b| - 1];
      DataAppend(a, b[..|b| - 1], stream);
    }
  }

  lemma DataOne(a: seq<Frame>, frame: Frame, stream: Stream)
    ensures Data(a + [frame], stream)
         == Data(a, stream) + if frame.Output? && frame.stream == stream then frame.data else []
  {
    assert (a + [frame])[..|a|] == a;
  }

  // ---------------------------------------------------------------- the invariant

  /** Output frames, then at most one exit frame. */
  predicate ExitLast(frames: seq<Frame>) {
    forall i :: 0 <= i < |frames| - 1 ==> frames[i].Output?
  }

  predicate Ended(frames: seq<Frame>) {
    frames != [] && frames[|frames| - 1].ExitFrame?
  }

  predicate EndedWith(frames: seq<Frame>, exit: Exit) {
    frames != [] && frames[|frames| - 1] == ExitFrame(exit)
  }

  predicate EndedByEndpoint(frames: seq<Frame>) {
    Ended(frames) && frames[|frames| - 1].exit.Status?
  }

  function Reported(frames: seq<Frame>): int
    requires EndedByEndpoint(frames)
  {
    frames[|frames| - 1].exit.code
  }

  /** What has reached the client's connection. */
  function Delivered(c: Conn): seq<Frame> {
    c.received + c.frames
  }

  /** What the proxy has read or can still read while it runs. */
  function OnItsWay(p: Proxy, frames: seq<Frame>): seq<Frame> {
    match p
    case Reading => frames
    case Forwarding(frame) => [frame] + frames
    case Returned => []
  }

  /** All frames that still can reach the client, in order. */
  function Passed(s: State): seq<Frame> {
    Delivered(s.conn) + OnItsWay(s.host.proxy, s.bridge.frames)
  }

  function Held(src: Source): seq<Byte> {
    if src.held.Some? then src.held.value else []
  }

  /**
    Bytes are neither duplicated nor reordered on the way, and only a suffix can be missing; none
    is missing while the path is `whole`.
  */
  predicate Flow(src: Source, stream: Stream, passed: seq<Frame>, whole: bool) {
    && Data(passed, stream) <= src.wrote
    && (whole && !src.failed ==> src.wrote == Data(passed, stream) + Held(src) + src.pipe)
  }

  predicate Flows(e: Endpoint, passed: seq<Frame>, whole: bool) {
    Flow(e.out, Stdout, passed, whole) && Flow(e.err, Stderr, passed, whole)
  }

  predicate Whole(s: State) {
    !s.bridge.cut && !s.host.proxy.Returned?
  }

  /** The endpoint's exit frame carries the process's status and follows all of its output. */
  predicate Complete(passed: seq<Frame>, e: Endpoint) {
    EndedByEndpoint(passed) ==>
      && e.exited == Some(Reported(passed))
      && e.PumpsDone()
      && Data(passed, Stdout) == e.out.wrote
      && Data(passed, Stderr) == e.err.wrote
  }

  predicate PumpValid(src: Source, broken: bool) {
    && (src.done ==> src.pipe == [] && src.held.None? && src.writersGone)
    && (src.failed ==> broken)
  }

  predicate EndpointValid(e: Endpoint, b: Bridge) {
    && PumpValid(e.out, b.broken) && PumpValid(e.err, b.broken)
    && (e.handler.Sending? || e.handler.Finished? ==> e.PumpsDone())
    && (b.ended <==> e.handler.Finished?)
  }

  /** The endpoint sends no exit frame but its own, after which its handler is finished. */
  predicate FromEndpoint(onItsWay: seq<Frame>, finished: bool) {
    forall f :: f in onItsWay && f.ExitFrame? ==> f.exit.Status? && finished
  }

  predicate ConnValid(c: Conn, returned: bool) {
    && (c.client.Got? <==> Ended(c.received))
    && (c.client.Got? ==> EndedWith(c.received, c.client.exit) && c.frames == [])
    && (Ended(Delivered(c)) ==> returned)
  }

  /** While the proxy runs, a failure of its stream has a cause; "bridge lost" is told only then. */
  predicate Explained(b: Bridge, h: Host, passed: seq<Frame>, delivered: seq<Frame>) {
    && (!h.proxy.Returned? ==>
          && (b.abandoned ==> h.clientGone || h.shutdown || b.down)
          && (b.broken ==> b.down || b.abandoned)
          && (b.ended ==> b.broken || b.cut || Ended(passed)))
    && (b.cut ==> b.down)
    && (EndedWith(delivered, BridgeLost) ==> b.down || h.shutdown)
  }

  predicate Inv(s: State) {
    && Flows(s.endpoint, Passed(s), Whole(s))
    && Complete(Passed(s), s.endpoint)
    && EndpointValid(s.endpoint, s.bridge)
    && FromEndpoint(OnItsWay(s.host.proxy, s.bridge.frames), s.endpoint.handler.Finished?)
    && ExitLast(Passed(s))
    && ConnValid(s.conn, s.host.proxy.Returned?)
    && Explained(s.bridge, s.host, Passed(s), Delivered(s.conn))
  }

  lemma InitialInv()
    ensures Inv(INITIAL)
  {
  }

  // ---------------------------------------------------------------- the flow of bytes

  lemma PrefixAppend(a: seq<Byte>, b: seq<Byte>, c: seq<Byte>)
    requires a + b <= c
    ensures a <= c
  {
    assert a == (a + b)[..|a|] == c[..|a|];
  }

  lemma FlowWrites(src: Source, stream: Stream, passed: seq<Frame>, whole: bool, data: seq<Byte>)
    requires Flow(src, stream, passed, whole)
    ensures Flow(src.(wrote := src.wrote + data, pipe := src.pipe + data), stream, passed, whole)
  {
    Regroup(Data(passed, stream) + Held(src), src.pipe, data);
  }

  lemma FlowReads(src: Source, stream: Stream, passed: seq<Frame>, whole: bool, n: nat)
    requires Flow(src, stream, passed, whole) && n <= |src.pipe| && src.held.None?
    ensures Flow(src.(pipe := src.pipe[n..], held := if src.failed then None else Some(src.pipe[..n])), stream, passed, whole)
  {
    var d := Data(passed, stream);
    assert src.pipe == src.pipe[..n] + src.pipe[n..];
    Regroup(d, src.pipe[..n], src.pipe[n..]);
    assert d + [] == d;
  }

  lemma FlowSends(src: Source, stream: Stream, passed: seq<Frame>)
    requires Flow(src, stream, passed, true) && src.held.Some? && !src.failed
    ensures Flow(src.(held := None), stream, passed + [Output(stream, src.held.value)], true)
  {
    var d := Data(passed, stream);
    DataOne(passed, Output(stream, src.held.value), stream);
    assert (d + src.held.value) + [] == d + src.held.value;
    assert d + src.held.value == (d + src.held.value + src.pipe)[..|d + src.held.value|];
  }

  lemma FlowOther(src: Source, stream: Stream, passed: seq<Frame>, whole: bool, frame: Frame)
    requires Flow(src, stream, passed, whole) && !(frame.Output? && frame.stream == stream)
    ensures Flow(src, stream, passed + [frame], whole)
  {
    DataOne(passed, frame, stream);
    assert Data(passed, stream) + [] == Data(passed, stream);
  }

  lemma FlowCut(src: Source, stream: Stream, passed: seq<Frame>, lost: seq<Frame>, whole: bool)
    requires Flow(src, stream, passed + lost, whole)
    ensures Flow(src, stream, passed, false)
  {
    DataAppend(passed, lost, stream);
    PrefixAppend(Data(passed, stream), Data(lost, stream), src.wrote);
  }

  lemma FlowWeakens(src: Source, stream: Stream, passed: seq<Frame>, whole: bool)
    requires Flow(src, stream, passed, whole)
    ensures Flow(src, stream, passed, false)
  {
  }

  lemma FlowDrained(src: Source, stream: Stream, passed: seq<Frame>)
    requires Flow(src, stream, passed, true) && !src.failed && src.pipe == [] && src.held.None?
    ensures Data(passed, stream) == src.wrote
  {
  }

  lemma CompleteMonotone(passed: seq<Frame>, e: Endpoint, e': Endpoint)
    requires Complete(passed, e)
    requires e.out.done ==> e'.out.done && e'.out.wrote == e.out.wrote
    requires e.err.done ==> e'.err.done && e'.err.wrote == e.err.wrote
    requires e.exited.Some? ==> e'.exited == e.exited
    ensures Complete(passed, e')
  {
    hide Data;
  }

  // ---------------------------------------------------------------- steps of the endpoint

  lemma GroupWritesKeepsInv(s: State, stream: Stream, data: seq<Byte>)
    requires Inv(s)
    ensures Inv(GroupWritesNext(s, stream, data))
  {
    hide Flow, Complete, FromEndpoint, ExitLast, ConnValid, Explained, Data;
    FlowWrites(s.endpoint.Src(stream), stream, Passed(s), Whole(s), data);
    CompleteMonotone(Passed(s), s.endpoint, GroupWritesNext(s, stream, data).endpoint);
  }

  lemma GroupClosesKeepsInv(s: State, stream: Stream)
    requires Inv(s)
    ensures Inv(GroupClosesNext(s, stream))
  {
    hide Complete, FromEndpoint, ExitLast, ConnValid, Explained, Data;
    CompleteMonotone(Passed(s), s.endpoint, GroupClosesNext(s, stream).endpoint);
  }

  lemma ProcessExitsKeepsInv(s: State, code: int)
    requires Inv(s)
    ensures Inv(ProcessExitsNext(s, code))
  {
    hide Flow, Complete, FromEndpoint, ExitLast, ConnValid, Explained, Data;
    CompleteMonotone(Passed(s), s.endpoint, ProcessExitsNext(s, code).endpoint);
  }

  lemma PumpReadsKeepsInv(s: State, stream: Stream, n: nat)
    requires Inv(s)
    ensures Inv(PumpReadsNext(s, stream, n))
  {
    hide Flow, Complete, FromEndpoint, ExitLast, ConnValid, Explained, Data;
    if s.endpoint.Src(stream).held.None? && n <= |s.endpoint.Src(stream).pipe| {
      FlowReads(s.endpoint.Src(stream), stream, Passed(s), Whole(s), n);
    }
    CompleteMonotone(Passed(s), s.endpoint, PumpReadsNext(s, stream, n).endpoint);
  }

  /** A chunk is dropped because its write fails, or vanishes in a cut or abandoned stream. */
  lemma FlowDrops(src: Source, stream: Stream, passed: seq<Frame>, whole: bool, failed: bool)
    requires Flow(src, stream, passed, whole)
    requires failed || !whole
    ensures Flow(src.(held := None, failed := failed || src.failed), stream, passed, whole)
  {
  }

  lemma PumpWritesKeepsInv(s: State, stream: Stream, ok: bool)
    requires Inv(s)
    ensures Inv(PumpWritesNext(s, stream, ok))
  {
    hide Flow, Complete, FromEndpoint, ExitLast, ConnValid, Explained, Data;
    var s', src := PumpWritesNext(s, stream, ok), s.endpoint.Src(stream);
    if s' == s {
    } else if ok && Whole(s) {
      PumpSendsKeepsInv(s, stream);
    } else {
      PumpDropsKeepsInv(s, stream, ok);
    }
  }

  lemma PumpDropsKeepsInv(s: State, stream: Stream, ok: bool)
    requires Inv(s) && PumpWritesNext(s, stream, ok) != s && !(ok && Whole(s))
    ensures Inv(PumpWritesNext(s, stream, ok))
  {
    hide Flow, Complete, FromEndpoint, ExitLast, ConnValid, Ended, EndedWith, Data;
    var s', src := PumpWritesNext(s, stream, ok), s.endpoint.Src(stream);
    FlowDrops(src, stream, Passed(s), Whole(s), !ok);
    CompleteMonotone(Passed(s), s.endpoint, s'.endpoint);
    assert Passed(s') == Passed(s);
  }

  lemma PumpSendsKeepsInv(s: State, stream: Stream)
    requires Inv(s) && PumpWritesNext(s, stream, true) != s && Whole(s)
    ensures Inv(PumpWritesNext(s, stream, true))
  {
    hide Flow, Complete, FromEndpoint, ExitLast, ConnValid, Explained, Data;
    var s', src := PumpWritesNext(s, stream, true), s.endpoint.Src(stream);
    var frame := Output(stream, src.held.value);
    FlowSends(src, stream, Passed(s));
    if stream == Stdout {
      FlowOther(s.endpoint.err, Stderr, Passed(s), true, frame);
    } else {
      FlowOther(s.endpoint.out, Stdout, Passed(s), true, frame);
    }
    SendKeepsInv(s, s', frame);
  }

  /** While the handler runs, no exit frame is on its way or delivered. */
  lemma StillOpen(s: State)
    requires Inv(s) && !s.endpoint.handler.Finished? && !s.host.proxy.Returned?
    ensures !Ended(Passed(s))
    ensures forall i :: 0 <= i < |Passed(s)| ==> Passed(s)[i].Output?
  {
    hide Flows, Complete, EndpointValid, Explained, EndedWith;
    var way := OnItsWay(s.host.proxy, s.bridge.frames);
    assert way == [] ==> Passed(s) == Delivered(s.conn);
  }

  /** The endpoint appends a frame that the proxy can still read. */
  lemma SendKeepsInv(s: State, s': State, frame: Frame)
    requires Inv(s) && !s.endpoint.handler.Finished? && Whole(s)
    requires s' == State(s'.endpoint, s.bridge.(frames := s.bridge.frames + [frame], ended := s'.bridge.ended), s.host, s.conn)
    requires Flows(s'.endpoint, Passed(s) + [frame], true)
    requires EndpointValid(s'.endpoint, s'.bridge)
    requires s'.endpoint.handler.Finished? <==> frame.ExitFrame?
    requires s'.bridge.ended <==> frame.ExitFrame?
    requires frame.ExitFrame? ==> frame.exit.Status? && Complete(Passed(s) + [frame], s'.endpoint)
    ensures Inv(s')
  {
    hide Flows, EndpointValid, ConnValid, Data, EndedWith;
    StillOpen(s);
    var way, way' := OnItsWay(s.host.proxy, s.bridge.frames), OnItsWay(s.host.proxy, s'.bridge.frames);
    assert way' == way + [frame];
    assert Passed(s') == Passed(s) + [frame];
    assert Passed(s')[|Passed(s)|] == frame;
    assert forall f :: f in way' ==> f in way || f == frame;
  }

  lemma PumpReturnsKeepsInv(s: State, stream: Stream)
    requires Inv(s)
    ensures Inv(PumpReturnsNext(s, stream))
  {
    hide Complete, FromEndpoint, ExitLast, ConnValid, Explained, Data;
    CompleteMonotone(Passed(s), s.endpoint, PumpReturnsNext(s, stream).endpoint);
  }

  lemma HandlerKeepsInv(s: State, step: Step)
    requires Inv(s)
    ensures Inv(s.(endpoint := HandlerNext(s.endpoint, step)))
  {
    hide Flow, Complete, FromEndpoint, ExitLast, ConnValid, Explained, Data;
    CompleteMonotone(Passed(s), s.endpoint, HandlerNext(s.endpoint, step));
  }

  lemma EndpointReadFailsKeepsInv(s: State)
    requires Inv(s)
    ensures Inv(EndpointReadFailsNext(s))
  {
    hide Flow, Complete, FromEndpoint, ExitLast, ConnValid, Explained, Data;
    CompleteMonotone(Passed(s), s.endpoint, EndpointReadFailsNext(s).endpoint);
  }

  lemma HandlerSendsExitKeepsInv(s: State, ok: bool)
    requires Inv(s)
    ensures Inv(HandlerSendsExitNext(s, ok))
  {
    hide Flow, Complete, FromEndpoint, ExitLast, ConnValid, Explained, Data;
    var s' := HandlerSendsExitNext(s, ok);
    if s' == s {
    } else if ok && Whole(s) {
      ExitSentKeepsInv(s);
    } else {
      ExitLostKeepsInv(s, ok);
    }
  }

  lemma ExitLostKeepsInv(s: State, ok: bool)
    requires Inv(s) && HandlerSendsExitNext(s, ok) != s && !(ok && Whole(s))
    ensures Inv(HandlerSendsExitNext(s, ok))
  {
    hide Flow, Complete, ExitLast, ConnValid, Ended, EndedWith, Data;
    var s' := HandlerSendsExitNext(s, ok);
    assert Passed(s') == Passed(s);
    CompleteMonotone(Passed(s), s.endpoint, s'.endpoint);
  }

  lemma ExitSentKeepsInv(s: State)
    requires Inv(s) && HandlerSendsExitNext(s, true) != s && Whole(s)
    ensures Inv(HandlerSendsExitNext(s, true))
  {
    hide Flow, FromEndpoint, ExitLast, ConnValid, Explained, Data;
    var s', frame := HandlerSendsExitNext(s, true), ExitFrame(Status(s.endpoint.exited.value));
    FlowOther(s.endpoint.out, Stdout, Passed(s), true, frame);
    FlowOther(s.endpoint.err, Stderr, Passed(s), true, frame);
    FlowDrained(s.endpoint.out, Stdout, Passed(s) + [frame]);
    FlowDrained(s.endpoint.err, Stderr, Passed(s) + [frame]);
    assert (Passed(s) + [frame])[|Passed(s)|] == frame;
    SendKeepsInv(s, s', frame);
  }

  // ---------------------------------------------------------------- steps of the bridge

  lemma BridgeFailsKeepsInv(s: State)
    requires Inv(s)
    ensures Inv(s.(bridge := s.bridge.(down := true)))
  {
    hide Flow, Complete, FromEndpoint, ExitLast, ConnValid, Ended, EndedWith, Data;
  }

  lemma TransitLostKeepsInv(s: State, kept: nat)
    requires Inv(s)
    ensures Inv(s.(bridge := TransitLostNext(s.bridge, kept)))
  {
    var s' := s.(bridge := TransitLostNext(s.bridge, kept));
    if s' != s {
      var frames := s.bridge.frames;
      assert frames == frames[..kept] + frames[kept..];
      var lost := if s.host.proxy.Returned? then [] else frames[kept..];
      assert Passed(s) == Passed(s') + lost;
      TruncationKeepsInv(s, s', lost);
    }
  }

  /** A suffix of what was on its way is lost. */
  lemma TruncationKeepsInv(s: State, s': State, lost: seq<Frame>)
    requires Inv(s) && Passed(s) == Passed(s') + lost && !Whole(s')
    requires s'.endpoint == s.endpoint && s'.conn.frames == s.conn.frames && s'.conn.received == s.conn.received
    requires s'.conn.client == s.conn.client
    requires s'.bridge.ended == s.bridge.ended && s'.bridge.broken == s.bridge.broken
    requires forall f :: f in OnItsWay(s'.host.proxy, s'.bridge.frames) ==> f in OnItsWay(s.host.proxy, s.bridge.frames)
    requires s.host.proxy.Returned? ==> s'.host.proxy.Returned?
    requires s'.bridge.cut ==> s'.bridge.down
    requires !s'.host.proxy.Returned? ==> s'.host == s.host && s'.bridge.abandoned == s.bridge.abandoned && s'.bridge.cut
    requires s.bridge.down ==> s'.bridge.down
    requires s.host.shutdown ==> s'.host.shutdown
    ensures Inv(s')
  {
    hide Flow, Data, PumpValid, EndedWith;
    FlowCut(s.endpoint.out, Stdout, Passed(s'), lost, Whole(s));
    FlowCut(s.endpoint.err, Stderr, Passed(s'), lost, Whole(s));
    if lost == [] {
      assert Passed(s') == Passed(s);
    } else {
      assert forall i :: 0 <= i < |Passed(s')| ==> Passed(s')[i] == Passed(s)[i];
      assert !Ended(Passed(s'));
    }
  }

  // ---------------------------------------------------------------- steps of the host

  lemma ProxyReadsKeepsInv(s: State)
    requires Inv(s)
    ensures Inv(ProxyReadsNext(s))
  {
    hide Flow, Complete, PumpValid, FromEndpoint, ExitLast, Ended, EndedWith, Data;
    var s' := ProxyReadsNext(s);
    if s' != s {
      assert s.bridge.frames == [s.bridge.frames[0]] + s.bridge.frames[1..];
      assert OnItsWay(s'.host.proxy, s'.bridge.frames) == OnItsWay(s.host.proxy, s.bridge.frames);
    }
  }

  /** The proxy returns and drops what is still on its way. */
  lemma ProxyReturnsKeepsInv(s: State)
    requires Inv(s)
    ensures Inv(ProxyReturns(s))
  {
    var s', lost := ProxyReturns(s), OnItsWay(s.host.proxy, s.bridge.frames);
    assert Passed(s') == Delivered(s.conn);
    assert s.bridge.cut ==> s.bridge.down;
    hide Inv;
    TruncationKeepsInv(s, s', lost);
  }

  lemma ProxyReadFailsKeepsInv(s: State, ok: bool)
    requires Inv(s)
    ensures Inv(ProxyReadFailsNext(s, ok))
  {
    hide Flow, Complete, PumpValid, FromEndpoint, ExitLast, ConnValid, EndedWith, Data;
    var s' := ProxyReadFailsNext(s, ok);
    if s' != s {
      var told := s.(host := s.host.(exitSeen := true));
      assert Inv(told);
      ProxyReturnsKeepsInv(s);
      ProxyReturnsKeepsInv(told);
      if !s.host.clientGone && ok && s.conn.IsOpen() {
        LossTold(s, told);
        ToldKeepsInv(ProxyReturns(told));
        assert s' == WithFrame(ProxyReturns(told), ExitFrame(BridgeLost));
      }
    }
  }

  /** When the proxy's stream ends without an exit frame, the bridge failed or the instance shuts down. */
  lemma LossTold(s: State, told: State)
    requires Inv(s) && s.host.proxy.Reading? && ProxyReadCanFail(s.bridge) && !s.host.clientGone
    requires told == s.(host := s.host.(exitSeen := true))
    ensures s.bridge.down || s.host.shutdown
    ensures !Ended(Delivered(s.conn))
  {
    hide Flows, Complete, EndpointValid, FromEndpoint, ExitLast, EndedWith;
    if s.bridge.frames == [] {
      assert Passed(s) == Delivered(s.conn);
    }
  }

  /** The proxy's own exit frame is the last one. */
  lemma ToldKeepsInv(s: State)
    requires Inv(s) && s.host.proxy.Returned? && !Ended(Delivered(s.conn))
    requires s.bridge.down || s.host.shutdown
    ensures Inv(WithFrame(s, ExitFrame(BridgeLost)))
  {
    hide Flow, EndpointValid, FromEndpoint, Data;
    var s', frame := WithFrame(s, ExitFrame(BridgeLost)), ExitFrame(BridgeLost);
    assert Passed(s) == Delivered(s.conn);
    assert Passed(s') == Delivered(s'.conn) == Passed(s) + [frame];
    FlowOther(s.endpoint.out, Stdout, Passed(s), false, frame);
    FlowOther(s.endpoint.err, Stderr, Passed(s), false, frame);
    ExitAppended(Passed(s), frame);
    NotGot(s.conn);
  }

  lemma ExitAppended(frames: seq<Frame>, frame: Frame)
    requires ExitLast(frames) && !Ended(frames) && frame.ExitFrame?
    ensures ExitLast(frames + [frame]) && EndedWith(frames + [frame], frame.exit)
  {
  }

  lemma NotGot(c: Conn)
    requires ConnValid(c, true) && !Ended(Delivered(c))
    ensures !c.client.Got? && !Ended(c.received)
  {
    assert c.frames == [] ==> Delivered(c) == c.received;
  }

  lemma ProxyWritesKeepsInv(s: State, ok: bool)
    requires Inv(s)
    ensures Inv(ProxyWritesNext(s, ok))
  {
    hide Inv;
    ProxyReturnsKeepsInv(s);
    if !s.host.proxy.Forwarding? || ok != s.conn.IsOpen() {
      assert ProxyWritesNext(s, ok) == s;
    } else if ok {
      ForwardKeepsInv(s);
    } else {
      ForwardFailsKeepsInv(s);
    }
  }

  lemma ForwardFailsKeepsInv(s: State)
    requires Inv(s) && s.host.proxy.Forwarding? && !s.conn.IsOpen()
    ensures Inv(ProxyWritesNext(s, false))
  {
    hide Flow, Complete, PumpValid, FromEndpoint, ExitLast, ConnValid, Ended, EndedWith, Data;
    ProxyReturnsKeepsInv(s);
    var gone := s.(host := s.host.(clientGone := true));
    assert Inv(gone);
    ProxyReturnsKeepsInv(gone);
  }

  lemma ForwardKeepsInv(s: State)
    requires Inv(s) && s.host.proxy.Forwarding? && s.conn.IsOpen()
    ensures Inv(ProxyWritesNext(s, true))
  {
    hide Flow, Complete, PumpValid, Data;
    var s', frame := ProxyWritesNext(s, true), s.host.proxy.frame;
    FlowWeakens(s.endpoint.out, Stdout, Passed(s), Whole(s));
    FlowWeakens(s.endpoint.err, Stderr, Passed(s), Whole(s));
    assert Delivered(s'.conn) == Delivered(s.conn) + [frame];
    assert Passed(s) == Delivered(s'.conn) + s.bridge.frames;
    assert Passed(s)[|Delivered(s.conn)|] == frame;
    if frame.ExitFrame? {
      assert s.bridge.frames == [];
    }
    assert Passed(s') == Passed(s);
    NotGot(s.conn);
  }

  lemma ReaderKeepsInv(s: State, step: Step)
    requires Inv(s)
    ensures Inv(ReaderNext(s, step))
  {
    hide Flow, Complete, PumpValid, FromEndpoint, ExitLast, Ended, EndedWith, Data;
  }

  lemma ShutdownKeepsInv(s: State, step: Step)
    requires Inv(s)
    ensures Inv(ShutdownNext(s, step))
  {
    hide Flow, Complete, PumpValid, FromEndpoint, ExitLast, Ended, EndedWith, Data;
  }

  lemma InstanceDiesKeepsInv(s: State)
    requires Inv(s)
    ensures Inv(InstanceDiesNext(s))
  {
    hide Flow, Complete, PumpValid, FromEndpoint, ExitLast, ConnValid, Ended, EndedWith, Data;
    var dying := s.(host := s.host.(reader := Stopped), bridge := s.bridge.(down := true));
    assert Inv(dying);
    ProxyReturnsKeepsInv(dying);
  }

  // ---------------------------------------------------------------- steps of the client

  lemma ClientReadsKeepsInv(s: State)
    requires Inv(s)
    ensures Inv(s.(conn := ClientReadsNext(s.conn)))
  {
    hide Flows, Complete, EndpointValid, FromEndpoint, Explained, ExitLast, ConnValid;
    var c, c' := s.conn, ClientReadsNext(s.conn);
    if c' != c {
      assert c.frames == [c.frames[0]] + c.frames[1..];
      assert Delivered(c') == Delivered(c);
      ReadingKeepsConnValid(c, s.host.proxy.Returned?, OnItsWay(s.host.proxy, s.bridge.frames));
    }
  }

  lemma ReadingKeepsConnValid(c: Conn, returned: bool, way: seq<Frame>)
    requires ConnValid(c, returned) && ExitLast(Delivered(c) + way)
    requires Delivered(ClientReadsNext(c)) == Delivered(c)
    ensures ConnValid(ClientReadsNext(c), returned)
  {
    if c.frames != [] {
      assert (Delivered(c) + way)[|c.received|] == c.frames[0];
    }
  }

  lemma ClientEndsKeepsInv(s: State, step: Step)
    requires Inv(s)
    ensures Inv(s.(conn := ClientEndsNext(s.conn, step)))
  {
    hide Flow, Complete, EndpointValid, FromEndpoint, ExitLast, Ended, EndedWith, Explained, Data;
    assert Delivered(ClientEndsNext(s.conn, step)) == Delivered(s.conn);
  }

  // ---------------------------------------------------------------- every run

  lemma NextKeepsInv(s: State, step: Step)
    requires Inv(s)
    ensures Inv(Next(s, step))
  {
    hide Inv;
    match step {
      case GroupWrites(stream, data) => GroupWritesKeepsInv(s, stream, data);
      case GroupCloses(stream) => GroupClosesKeepsInv(s, stream);
      case ProcessExits(code) => ProcessExitsKeepsInv(s, code);
      case PumpReads(stream, n) => PumpReadsKeepsInv(s, stream, n);
      case PumpWrites(stream, ok) => PumpWritesKeepsInv(s, stream, ok);
      case PumpReturns(stream) => PumpReturnsKeepsInv(s, stream);
      case HandlerSeesExit | HandlerSeesCallerGone | HandlerSeesPumpsDone => HandlerKeepsInv(s, step);
      case HandlerSendsExit(ok) => HandlerSendsExitKeepsInv(s, ok);
      case EndpointReadFails => EndpointReadFailsKeepsInv(s);
      case BridgeFails => BridgeFailsKeepsInv(s);
      case TransitLost(kept) => TransitLostKeepsInv(s, kept);
      case ProxyReads => ProxyReadsKeepsInv(s);
      case ProxyReadFails(ok) => ProxyReadFailsKeepsInv(s, ok);
      case ProxyWrites(ok) => ProxyWritesKeepsInv(s, ok);
      case ClientReadFails | ClientReaderDecides | ForwardToEndpointFails | ClientSendsInvalidFrame => ReaderKeepsInv(s, step);
      case ShutdownClosesStream | ShutdownClosesClient => ShutdownKeepsInv(s, step);
      case InstanceDies => InstanceDiesKeepsInv(s);
      case ClientReads => ClientReadsKeepsInv(s);
      case ClientSeesEnd | ClientQuits => ClientEndsKeepsInv(s, step);
    }
  }

  lemma {:induction false} FromKeepsInv(s: State, steps: seq<Step>)
    requires Inv(s)
    ensures Inv(From(s, steps))
    decreases |steps|
  {
    hide Inv, Next;
    if steps != [] {
      FromKeepsInv(s, steps[..|steps| - 1]);
      NextKeepsInv(From(s, steps[..|steps| - 1]), steps[|steps| - 1]);
    }
  }

  lemma RunKeepsInv(steps: seq<Step>)
    ensures Inv(Run(steps))
  {
    InitialInv();
    hide Inv;
    FromKeepsInv(INITIAL, steps);
  }

  // ---------------------------------------------------------------- what every run guarantees

  lemma DeliveredIsPrefix(received: seq<Frame>, rest: seq<Frame>, stream: Stream, wrote: seq<Byte>)
    requires Data(received + rest, stream) <= wrote
    ensures Data(received, stream) <= wrote
  {
    DataAppend(received, rest, stream);
    PrefixAppend(Data(received, stream), Data(rest, stream), wrote);
  }

  /** At every moment of every run the client has written, per stream, a prefix of what the process wrote. */
  lemma OutputIsPrefix(steps: seq<Step>, stream: Stream)
    ensures Data(Run(steps).conn.received, stream) <= Run(steps).endpoint.Src(stream).wrote
  {
    hide Data, Complete, EndpointValid, FromEndpoint, ExitLast, ConnValid, Explained, Run;
    var s := Run(steps);
    RunKeepsInv(steps);
    var rest := s.conn.frames + OnItsWay(s.host.proxy, s.bridge.frames);
    assert Passed(s) == s.conn.received + rest;
    DeliveredIsPrefix(s.conn.received, rest, stream, s.endpoint.Src(stream).wrote);
  }

  /**
    A client that got the process's status has all output of the process and its group, which has
    closed both pipes; the status is the process's own.
  */
  lemma StatusMeansComplete(steps: seq<Step>)
    ensures var s := Run(steps);
      s.conn.client.Got? && s.conn.client.exit.Status? ==>
        && s.endpoint.exited == Some(s.conn.client.exit.code)
        && s.endpoint.out.writersGone && s.endpoint.err.writersGone
        && Data(s.conn.received, Stdout) == s.endpoint.out.wrote
        && Data(s.conn.received, Stderr) == s.endpoint.err.wrote
  {
    var s := Run(steps);
    RunKeepsInv(steps);
    if s.conn.client.Got? && s.conn.client.exit.Status? {
      assert Delivered(s.conn) == s.conn.received;
      NothingFollows(s);
      assert Passed(s) == s.conn.received;
    }
  }

  /** Nothing is on its way to a client that has its exit frame. */
  lemma NothingFollows(s: State)
    requires Inv(s) && s.conn.client.Got?
    ensures OnItsWay(s.host.proxy, s.bridge.frames) == [] && s.conn.frames == []
  {
    hide Flows, Complete, EndpointValid, FromEndpoint, Explained;
    assert Delivered(s.conn) == s.conn.received;
  }

  /** The client is told "bridge lost" only when the bridge failed or the instance shuts down. */
  lemma BridgeLostIsExplained(steps: seq<Step>)
    ensures var s := Run(steps);
      s.conn.client == Got(BridgeLost) ==> s.bridge.down || s.host.shutdown
  {
    var s := Run(steps);
    RunKeepsInv(steps);
    if s.conn.client == Got(BridgeLost) {
      assert Delivered(s.conn) == s.conn.received;
    }
  }

  /** The client sees at most one exit frame, it is the last frame, and none is left behind it. */
  lemma ExitFrameIsLast(steps: seq<Step>, i: nat)
    requires i < |Delivered(Run(steps).conn)| && Delivered(Run(steps).conn)[i].ExitFrame?
    ensures i == |Delivered(Run(steps).conn)| - 1
    ensures Run(steps).host.proxy.Returned?
  {
    var s := Run(steps);
    RunKeepsInv(steps);
    assert Passed(s)[i] == Delivered(s.conn)[i];
  }

  // ---------------------------------------------------------------- when "bridge lost" is told

  predicate Told(s: State) {
    EndedWith(Delivered(s.conn), BridgeLost)
  }

  /**
    The moment of telling, in every reachable state: exactly a read of the proxy that fails while it
    runs, for a client that is not known to be gone, over a connection that neither side has closed.
  */
  lemma ToldExactlyWhen(s: State, step: Step)
    requires Inv(s) && !Told(s)
    ensures Told(Next(s, step)) <==>
      && step == ProxyReadFails(true) && s.host.proxy.Reading? && ProxyReadCanFail(s.bridge)
      && !s.host.clientGone && s.conn.IsOpen()
  {
    hide Inv, Told;
    match step {
      case ProxyReadFails(ok) => ToldByRead(s, ok);
      case ProxyWrites(ok) => NotToldByWrite(s, ok);
      case _ => NotToldByOthers(s, step);
    }
  }

  lemma NotToldByOthers(s: State, step: Step)
    requires !step.ProxyReadFails? && !step.ProxyWrites?
    ensures Told(Next(s, step)) <==> Told(s)
  {
    hide EndedWith;
    ReadingDelivers(s.conn);
  }

  lemma ToldByRead(s: State, ok: bool)
    requires !Told(s)
    ensures Told(ProxyReadFailsNext(s, ok)) <==>
      && ok && s.host.proxy.Reading? && ProxyReadCanFail(s.bridge) && !s.host.clientGone && s.conn.IsOpen()
  {
    assert Delivered(WithFrame(s, ExitFrame(BridgeLost)).conn) == Delivered(s.conn) + [ExitFrame(BridgeLost)];
  }

  lemma NotToldByWrite(s: State, ok: bool)
    requires Inv(s) && !Told(s)
    ensures !Told(ProxyWritesNext(s, ok))
  {
    hide Flows, Complete, EndpointValid, ExitLast, ConnValid, Explained;
    if s.host.proxy.Forwarding? {
      var frame := s.host.proxy.frame;
      assert frame in OnItsWay(s.host.proxy, s.bridge.frames);
      assert Delivered(WithFrame(s, frame).conn) == Delivered(s.conn) + [frame];
    }
  }

  lemma ReadingDelivers(c: Conn)
    ensures Delivered(ClientReadsNext(c)) == Delivered(c)
  {
    if c.frames != [] {
      assert c.frames == [c.frames[0]] + c.frames[1..];
    }
  }

  /** While the bridge is healthy, a read can only fail because a shutdown has closed the stream. */
  lemma HealthyReadFailsIff(s: State)
    requires Inv(s) && !s.bridge.down && s.host.proxy.Reading? && !s.host.clientGone
    ensures ProxyReadCanFail(s.bridge) <==> s.bridge.abandoned
    ensures s.bridge.abandoned ==> s.host.shutdown
  {
    hide Flows, Complete, EndpointValid, FromEndpoint, ExitLast, EndedWith;
    assert s.bridge.frames == [] ==> Passed(s) == Delivered(s.conn);
  }

  /** The moment of telling over a healthy bridge: the stream was closed, by a shutdown of the instance. */
  lemma HealthyToldExactlyWhen(s: State, step: Step)
    requires Inv(s) && !Told(s) && !s.bridge.down
    ensures Told(Next(s, step)) <==>
      && step == ProxyReadFails(true) && s.host.proxy.Reading? && s.bridge.abandoned
      && !s.host.clientGone && s.conn.IsOpen()
    ensures Told(Next(s, step)) ==> s.host.shutdown
  {
    ToldExactlyWhen(s, step);
    hide Inv, Told, Next;
    if s.host.proxy.Reading? && !s.host.clientGone {
      HealthyReadFailsIff(s);
    }
  }

  /** The proxy can still make up an exit frame and get it to the client. */
  predicate MayTell(s: State) {
    && !s.host.proxy.Returned? && !(s.host.proxy.Forwarding? && s.host.proxy.frame.ExitFrame?)
    && !s.host.clientGone && s.conn.IsOpen()
  }

  /** Neither the bridge nor the host's process fails. */
  predicate Healthy(steps: seq<Step>) {
    forall i :: 0 <= i < |steps| ==> !steps[i].BridgeFails? && !steps[i].InstanceDies?
  }

  predicate NoShutdown(steps: seq<Step>) {
    forall i :: 0 <= i < |steps| ==> !steps[i].ShutdownClosesStream?
  }

  lemma MayTellOnlyEnds(s: State, step: Step)
    requires MayTell(Next(s, step))
    ensures MayTell(s)
  {
  }

  /** Once the guard is lost, nothing that anyone does tells the client. */
  lemma {:induction false} NeverTold(s: State, later: seq<Step>)
    requires Inv(s) && !Told(s) && !MayTell(s)
    ensures !Told(From(s, later)) && !MayTell(From(s, later))
    decreases |later|
  {
    hide Inv, Told, MayTell, Next;
    if later != [] {
      var before, step := later[..|later| - 1], later[|later| - 1];
      NeverTold(s, before);
      FromKeepsInv(s, before);
      if MayTell(Next(From(s, before), step)) {
        MayTellOnlyEnds(From(s, before), step);
      }
      NotToldWithout(From(s, before), step);
    }
  }

  lemma NotToldWithout(s: State, step: Step)
    requires Inv(s) && !Told(s) && !MayTell(s)
    ensures !Told(Next(s, step))
  {
    hide Inv, Told, Next;
    ToldExactlyWhen(s, step);
  }

  lemma FromOne(s: State, step: Step)
    ensures From(s, [step]) == Next(s, step)
  {
    hide Next;
    assert [step][..0] == [];
    assert From(s, []) == s;
  }

  lemma {:induction false} FromAppend(s: State, steps: seq<Step>, later: seq<Step>)
    ensures From(s, steps + later) == From(From(s, steps), later)
    decreases |later|
  {
    hide Next;
    if later == [] {
      assert steps + later == steps;
    } else {
      assert (steps + later)[..|steps + later| - 1] == steps + later[..|later| - 1];
      FromAppend(s, steps, later[..|later| - 1]);
    }
  }

  /** With the guard, a frame in hand is forwarded first; then a failing read tells the client. */
  function Telling(s: State): seq<Step> {
    (if s.host.proxy.Forwarding? then [ProxyWrites(true)] else []) + TellingReader(s.bridge.abandoned)
  }

  function TellingReader(abandoned: bool): seq<Step> {
    (if abandoned then [] else [ShutdownClosesStream]) + [ProxyReadFails(true)]
  }

  lemma ForwardingGoesOn(s: State)
    requires MayTell(s) && s.host.proxy.Forwarding?
    ensures var next := Next(s, ProxyWrites(true));
      MayTell(next) && next.host.proxy.Reading? && next.bridge.abandoned == s.bridge.abandoned
  {
  }

  lemma ShutdownCloses(s: State)
    requires MayTell(s) && s.host.proxy.Reading?
    ensures var next := Next(s, ShutdownClosesStream);
      MayTell(next) && next.host.proxy.Reading? && next.bridge.abandoned
  {
  }

  lemma FailingReadTells(s: State)
    requires MayTell(s) && s.host.proxy.Reading? && s.bridge.abandoned
    ensures Told(Next(s, ProxyReadFails(true)))
  {
    assert Delivered(WithFrame(s, ExitFrame(BridgeLost)).conn) == Delivered(s.conn) + [ExitFrame(BridgeLost)];
  }

  lemma ReaderTells(s: State)
    requires MayTell(s) && s.host.proxy.Reading?
    ensures Told(From(s, TellingReader(s.bridge.abandoned)))
  {
    hide Next, MayTell, Told, From;
    FromOne(s, ProxyReadFails(true));
    if s.bridge.abandoned {
      FailingReadTells(s);
      assert [] + [ProxyReadFails(true)] == [ProxyReadFails(true)];
    } else {
      ShutdownCloses(s);
      var next := Next(s, ShutdownClosesStream);
      FailingReadTells(next);
      FromOne(s, ShutdownClosesStream);
      FromOne(next, ProxyReadFails(true));
      FromAppend(s, [ShutdownClosesStream], [ProxyReadFails(true)]);
    }
  }

  lemma TellingTells(s: State)
    requires MayTell(s)
    ensures Told(From(s, Telling(s)))
    ensures Healthy(Telling(s)) && (s.bridge.abandoned ==> NoShutdown(Telling(s)))
  {
    hide Next, MayTell, Told, From;
    NotReturned(s);
    if s.host.proxy.Forwarding? {
      ForwardingGoesOn(s);
      FromOne(s, ProxyWrites(true));
      ReaderTells(Next(s, ProxyWrites(true)));
      FromAppend(s, [ProxyWrites(true)], TellingReader(s.bridge.abandoned));
    } else {
      ReaderTells(s);
      assert [] + TellingReader(s.bridge.abandoned) == TellingReader(s.bridge.abandoned);
    }
  }

  lemma NotReturned(s: State)
    requires MayTell(s)
    ensures !s.host.proxy.Returned?
  {
  }

  ghost predicate CanBeTold(s: State, shutdown: bool) {
    exists later: seq<Step> :: Healthy(later) && (shutdown || NoShutdown(later)) && Told(From(s, later))
  }

  /**
    With a healthy bridge and a living host, some continuation tells the client "bridge lost" if and
    only if the proxy has not returned, has no exit frame in hand, does not know the client to be
    gone, and the connection is open. A shutdown of the instance is what then tells it.
  */
  lemma HealthyBridgeLostIff(steps: seq<Step>)
    requires !Run(steps).bridge.down && !Told(Run(steps))
    ensures CanBeTold(Run(steps), true) <==> MayTell(Run(steps))
  {
    var s := Run(steps);
    RunKeepsInv(steps);
    if MayTell(s) {
      TellingTells(s);
    } else {
      forall later: seq<Step> ensures !Told(From(s, later)) {
        NeverTold(s, later);
      }
    }
  }

  /** Without a further close of the stream by a shutdown: if and only if it was closed before as well. */
  lemma HealthyBridgeLostWithoutShutdownIff(steps: seq<Step>)
    requires !Run(steps).bridge.down && !Told(Run(steps))
    ensures CanBeTold(Run(steps), false) <==> MayTell(Run(steps)) && Run(steps).bridge.abandoned
  {
    var s := Run(steps);
    RunKeepsInv(steps);
    if MayTell(s) && s.bridge.abandoned {
      TellingTells(s);
    } else {
      forall later: seq<Step> | Healthy(later) && NoShutdown(later) ensures !Told(From(s, later)) {
        NeverToldWhileOpen(s, later);
      }
    }
  }

  /** Nobody but a shutdown closes the stream of a proxy that may still tell. */
  lemma StreamStaysOpen(s: State, step: Step)
    requires !s.bridge.down && !(MayTell(s) && s.bridge.abandoned)
    requires !step.BridgeFails? && !step.InstanceDies? && !step.ShutdownClosesStream?
    ensures !Next(s, step).bridge.down && !(MayTell(Next(s, step)) && Next(s, step).bridge.abandoned)
  {
    match step
    case ProxyReads | ProxyReadFails(_) | ProxyWrites(_) => ProxyKeepsStreamOpen(s, step);
    case ClientReadFails | ClientReaderDecides | ForwardToEndpointFails | ClientSendsInvalidFrame =>
    case ShutdownClosesClient =>
    case _ => OthersKeepStreamOpen(s, step);
  }

  lemma ProxyKeepsStreamOpen(s: State, step: Step)
    requires !s.bridge.down && !(MayTell(s) && s.bridge.abandoned)
    requires step.ProxyReads? || step.ProxyReadFails? || step.ProxyWrites?
    ensures !Next(s, step).bridge.down && !(MayTell(Next(s, step)) && Next(s, step).bridge.abandoned)
  {
  }

  predicate OfTheHost(step: Step) {
    || step.ProxyReads? || step.ProxyReadFails? || step.ProxyWrites?
    || step.ClientReadFails? || step.ClientReaderDecides? || step.ForwardToEndpointFails?
    || step.ClientSendsInvalidFrame? || step.ShutdownClosesStream? || step.ShutdownClosesClient? || step.InstanceDies?
  }

  lemma OthersKeepStreamOpen(s: State, step: Step)
    requires !s.bridge.down && !OfTheHost(step) && !step.BridgeFails?
    ensures Next(s, step).host == s.host && Next(s, step).bridge.abandoned == s.bridge.abandoned
    ensures !Next(s, step).bridge.down
    ensures Next(s, step).conn.IsOpen() ==> s.conn.IsOpen()
  {
  }

  lemma {:induction false} NeverToldWhileOpen(s: State, later: seq<Step>)
    requires Inv(s) && !Told(s) && !s.bridge.down && !(MayTell(s) && s.bridge.abandoned)
    requires Healthy(later) && NoShutdown(later)
    ensures var end := From(s, later);
      !Told(end) && !end.bridge.down && !(MayTell(end) && end.bridge.abandoned)
    decreases |later|
  {
    hide Inv, Told, MayTell, Next;
    if later != [] {
      var before, step := later[..|later| - 1], later[|later| - 1];
      assert Healthy(before) && NoShutdown(before);
      NeverToldWhileOpen(s, before);
      FromKeepsInv(s, before);
      StreamStaysOpen(From(s, before), step);
      NotToldWhileOpen(From(s, before), step);
    }
  }

  lemma NotToldWhileOpen(s: State, step: Step)
    requires Inv(s) && !Told(s) && !s.bridge.down && !(MayTell(s) && s.bridge.abandoned)
    ensures !Told(Next(s, step))
  {
    hide Inv, Told, Next;
    HealthyToldExactlyWhen(s, step);
  }

  lemma RunSnoc(steps: seq<Step>, step: Step)
    ensures Run(steps + [step]) == Next(Run(steps), step)
  {
    hide Next;
    assert (steps + [step])[..|steps|] == steps;
  }

  /** The steps by which a shutdown of the host alone makes a healthy bridge look lost. */
  const SHUTDOWN_RUN := [ShutdownClosesStream, ProxyReadFails(true), ClientReads]

  /** "Bridge lost" does not mean that the bridge failed: a shutdown of the instance tells it as well. */
  lemma BridgeLostWithoutFailure()
    ensures Run(SHUTDOWN_RUN).conn.client == Got(BridgeLost)
    ensures !Run(SHUTDOWN_RUN).bridge.down && Run(SHUTDOWN_RUN).endpoint.exited == None
  {
    var first := ShutdownNext(INITIAL, ShutdownClosesStream);
    var second := ProxyReadFailsNext(first, true);
    assert second.conn.frames == [ExitFrame(BridgeLost)];
    ShutdownRun();
  }

  lemma ShutdownRun()
    ensures var second := ProxyReadFailsNext(ShutdownNext(INITIAL, ShutdownClosesStream), true);
      Run(SHUTDOWN_RUN) == second.(conn := ClientReadsNext(second.conn))
  {
    hide ShutdownNext, ProxyReadFailsNext, ClientReadsNext, Run;
    RunSnoc([], ShutdownClosesStream);
    RunSnoc([] + [ShutdownClosesStream], ProxyReadFails(true));
    RunSnoc([] + [ShutdownClosesStream] + [ProxyReadFails(true)], ClientReads);
    assert SHUTDOWN_RUN == [] + [ShutdownClosesStream] + [ProxyReadFails(true)] + [ClientReads];
    assert Run([]) == INITIAL by { RunStarts(); }
  }

  lemma RunStarts()
    ensures Run([]) == INITIAL
  {
  }
}
