/**
  When a client can still get the process's exit status (internal/endpoint/exec.go,
  internal/host/execserver.go). ExecPipeline says what a status means; this module says that it comes.
*/
module ExecCompletion {
  import opened Common
  import opened Bytes
  import opened ExecPipeline

  // ---------------------------------------------------------------- steps that go well

  /** The step is part of an undisturbed session: nothing fails, is shut down, or is given up. */
  predicate GoesWell(step: Step) {
    match step
    case GroupWrites(_, _) | GroupCloses(_) | ProcessExits(_) => true
    case PumpReads(_, _) | PumpReturns(_) => true
    case PumpWrites(_, ok) => ok
    case HandlerSeesExit | HandlerSeesPumpsDone => true
    case HandlerSendsExit(ok) => ok
    case ProxyReads => true
    case ProxyWrites(ok) => ok
    case ClientReads => true
    case _ => false
  }

  predicate AllGoWell(steps: seq<Step>) {
    forall i :: 0 <= i < |steps| ==> GoesWell(steps[i])
  }

  /** In some undisturbed continuation the client gets the status `code`. */
  ghost predicate CanGet(s: State, code: int) {
    exists later: seq<Step> :: AllGoWell(later) && From(s, later).conn.client == Got(Status(code))
  }

  // ---------------------------------------------------------------- the guard

  /** The endpoint's exit frame is in the client's connection. */
  predicate StatusDelivered(c: Conn) {
    EndedByEndpoint(c.frames)
  }

  /** The endpoint's exit frame is in transit, or the endpoint can still send it: no write failed and nothing was lost. */
  predicate StatusOnItsWay(s: State) {
    || Ended(OnItsWay(s.host.proxy, s.bridge.frames))
    || (!s.endpoint.handler.Finished? && !s.bridge.broken && !s.bridge.cut)
  }

  /** The proxy runs, and neither side has closed the client's connection. */
  predicate PathIsOpen(s: State) {
    !s.host.proxy.Returned? && s.conn.IsOpen()
  }

  predicate MayComplete(s: State) {
    StatusDelivered(s.conn) || (PathIsOpen(s) && StatusOnItsWay(s))
  }

  // ---------------------------------------------------------------- once lost, it never comes

  predicate NoStatus(c: ClientState) {
    !(c.Got? && c.exit.Status?)
  }

  lemma LostStays(s: State, step: Step)
    requires Inv(s) && !MayComplete(s) && NoStatus(s.conn.client)
    ensures !MayComplete(Next(s, step)) && NoStatus(Next(s, step).conn.client)
  {
    hide Flows, Complete, EndpointValid, FromEndpoint, ConnValid, Explained;
    match step
    case ClientReads => LostByClient(s);
    case ProxyReads => LostByReading(s);
    case ProxyReadFails(ok) => LostByFailingRead(s, ok);
    case ProxyWrites(ok) => LostByWriting(s, ok);
    case PumpWrites(stream, ok) => LostByPump(s, stream, ok);
    case HandlerSendsExit(ok) => LostByHandler(s, ok);
    case TransitLost(kept) => LostInTransit(s, kept);
    case _ => LostByOthers(s, step);
  }

  lemma LostByClient(s: State)
    requires ExitLast(Passed(s)) && !MayComplete(s) && NoStatus(s.conn.client)
    ensures var next := Next(s, ClientReads); !MayComplete(next) && NoStatus(next.conn.client)
  {
    if s.conn.client.Running? && s.conn.frames != [] {
      var frames := s.conn.frames;
      assert Passed(s)[|s.conn.received|] == frames[0];
      assert frames[0].ExitFrame? ==> |frames| == 1;
    }
  }

  lemma LostByReading(s: State)
    requires !MayComplete(s) && NoStatus(s.conn.client)
    ensures var next := Next(s, ProxyReads); !MayComplete(next) && NoStatus(next.conn.client)
  {
    if s.bridge.frames != [] {
      assert [s.bridge.frames[0]] + s.bridge.frames[1..] == s.bridge.frames;
    }
  }

  lemma LostByFailingRead(s: State, ok: bool)
    requires !MayComplete(s) && NoStatus(s.conn.client)
    ensures var next := Next(s, ProxyReadFails(ok)); !MayComplete(next) && NoStatus(next.conn.client)
  {
  }

  lemma LostByWriting(s: State, ok: bool)
    requires ExitLast(Passed(s)) && !MayComplete(s) && NoStatus(s.conn.client)
    ensures var next := Next(s, ProxyWrites(ok)); !MayComplete(next) && NoStatus(next.conn.client)
  {
    if s.host.proxy.Forwarding? && ok && s.conn.IsOpen() {
      var frame, rest := s.host.proxy.frame, s.bridge.frames;
      assert Passed(s)[|Delivered(s.conn)|] == frame;
      assert OnItsWay(s.host.proxy, rest) == [frame] + rest;
      assert frame.Output?;
    }
  }

  lemma LostByPump(s: State, stream: Stream, ok: bool)
    requires !MayComplete(s) && NoStatus(s.conn.client)
    ensures var next := Next(s, PumpWrites(stream, ok)); !MayComplete(next) && NoStatus(next.conn.client)
  {
  }

  lemma LostByHandler(s: State, ok: bool)
    requires !MayComplete(s) && NoStatus(s.conn.client)
    ensures var next := Next(s, HandlerSendsExit(ok)); !MayComplete(next) && NoStatus(next.conn.client)
  {
  }

  lemma LostInTransit(s: State, kept: nat)
    requires ExitLast(Passed(s)) && !MayComplete(s) && NoStatus(s.conn.client)
    ensures var next := Next(s, TransitLost(kept)); !MayComplete(next) && NoStatus(next.conn.client)
  {
    if s.bridge.down && kept <= |s.bridge.frames| {
      var all := OnItsWay(s.host.proxy, s.bridge.frames);
      var left := OnItsWay(s.host.proxy, s.bridge.frames[..kept]);
      assert left == all[..|left|];
      if Ended(left) {
        assert Passed(s)[|Delivered(s.conn)| + |left| - 1] == left[|left| - 1];
        assert |left| == |all|;
      }
    }
  }

  lemma LostByOthers(s: State, step: Step)
    requires !MayComplete(s) && NoStatus(s.conn.client)
    requires !step.ClientReads? && !step.ProxyReads? && !step.ProxyReadFails? && !step.ProxyWrites?
    requires !step.PumpWrites? && !step.HandlerSendsExit? && !step.TransitLost?
    ensures !MayComplete(Next(s, step)) && NoStatus(Next(s, step).conn.client)
  {
  }

  lemma {:induction false} NeverCompletes(s: State, later: seq<Step>)
    requires Inv(s) && !MayComplete(s) && NoStatus(s.conn.client)
    ensures !MayComplete(From(s, later)) && NoStatus(From(s, later).conn.client)
    decreases |later|
  {
    hide Inv, MayComplete, NoStatus, Next;
    if later != [] {
      var before, step := later[..|later| - 1], later[|later| - 1];
      NeverCompletes(s, before);
      FromKeepsInv(s, before);
      LostStays(From(s, before), step);
    }
  }

  // ---------------------------------------------------------------- with the guard, it comes

  function Least(a: nat, b: nat): nat {
    if a < b then a else b
  }

  /** What a pump, or the group it reads from, does next. */
  function PumpStep(src: Source, stream: Stream): Step {
    if src.held.Some? then PumpWrites(stream, true)
    else if src.pipe != [] then PumpReads(stream, Least(|src.pipe|, PUMP_BUFFER))
    else if !src.writersGone then GroupCloses(stream)
    else PumpReturns(stream)
  }

  function HandlerStep(e: Endpoint, code: int): Step {
    if e.exited.None? then ProcessExits(code)
    else
      match e.handler
      case Waiting | Killing => HandlerSeesExit
      case Draining | Terminating => HandlerSeesPumpsDone
      case _ => HandlerSendsExit(true)
  }

  /** A step that brings the status nearer to the client: whoever is furthest down the path goes first. */
  function Onward(s: State, code: int): Step {
    if s.conn.frames != [] then ClientReads
    else if s.host.proxy.Forwarding? then ProxyWrites(true)
    else if s.bridge.frames != [] then ProxyReads
    else if !s.endpoint.out.done then PumpStep(s.endpoint.out, Stdout)
    else if !s.endpoint.err.done then PumpStep(s.endpoint.err, Stderr)
    else HandlerStep(s.endpoint, code)
  }

  function SourceWork(src: Source): nat {
    6 * |src.pipe| + (if src.held.Some? then 5 else 0) + (if src.writersGone then 0 else 1) + if src.done then 0 else 1
  }

  function HandlerWork(e: Endpoint): nat {
    (if e.exited.None? then 1 else 0)
    + match e.handler
      case Waiting | Killing => 7
      case Draining | Terminating => 6
      case Sending => 5
      case Finished => 0
  }

  function PathWork(s: State): nat {
    2 * |s.conn.frames| + (if s.host.proxy.Forwarding? then 3 else 0) + 4 * |s.bridge.frames|
  }

  /** How many steps there are left, at most. */
  function Work(s: State): nat {
    SourceWork(s.endpoint.out) + SourceWork(s.endpoint.err) + HandlerWork(s.endpoint) + PathWork(s)
  }

  /** The client still waits, for a process that exited with `code` or can still do so. */
  predicate Expecting(s: State, code: int) {
    s.conn.client.Running? && (s.endpoint.exited.None? || s.endpoint.exited == Some(code))
  }

  /** One step nearer, or there. */
  predicate Advances(s: State, step: Step, code: int) {
    var next := Next(s, step);
    && GoesWell(step)
    && (next.conn.client == Got(Status(code)) || (Expecting(next, code) && MayComplete(next) && Work(next) < Work(s)))
  }

  lemma ClientAdvances(s: State, code: int)
    requires Inv(s) && MayComplete(s) && Expecting(s, code) && s.conn.frames != []
    ensures Advances(s, ClientReads, code)
  {
    hide Flows, EndpointValid, FromEndpoint, Explained;
    var frames := s.conn.frames;
    assert Passed(s)[|s.conn.received|] == frames[0];
    assert Delivered(s.conn)[|Delivered(s.conn)| - 1] == frames[|frames| - 1];
    if frames[0].ExitFrame? {
      assert |frames| == 1 && Ended(Delivered(s.conn));
      assert Passed(s) == Delivered(s.conn);
    }
  }

  lemma ProxyAdvances(s: State, code: int)
    requires Inv(s) && MayComplete(s) && Expecting(s, code) && s.conn.frames == [] && s.host.proxy.Forwarding?
    ensures Advances(s, ProxyWrites(true), code)
  {
    hide Flows, Complete, EndpointValid, ExitLast, ConnValid, Explained;
    var frame := s.host.proxy.frame;
    assert frame in OnItsWay(s.host.proxy, s.bridge.frames);
    assert ([] + [frame])[0] == frame;
  }

  lemma ReadingAdvances(s: State, code: int)
    requires MayComplete(s) && Expecting(s, code) && s.conn.frames == []
    requires s.host.proxy.Reading? && s.bridge.frames != []
    ensures Advances(s, ProxyReads, code)
  {
    assert [s.bridge.frames[0]] + s.bridge.frames[1..] == s.bridge.frames;
  }

  /** The endpoint can still send its exit frame, and all its frames have reached the client. */
  predicate CanSend(s: State, code: int) {
    && Expecting(s, code) && PathIsOpen(s) && s.host.proxy.Reading? && s.bridge.frames == [] && s.conn.frames == []
    && !s.endpoint.handler.Finished? && !s.bridge.broken && !s.bridge.cut
  }

  lemma WriteAdvances(s: State, code: int, stream: Stream)
    requires CanSend(s, code) && s.endpoint.Src(stream).held.Some?
    ensures Advances(s, PumpWrites(stream, true), code)
  {
    assert |s.bridge.frames + [Output(stream, s.endpoint.Src(stream).held.value)]| == 1;
  }

  lemma ReadAdvances(s: State, code: int, stream: Stream, n: nat)
    requires CanSend(s, code) && s.endpoint.Src(stream).held.None? && !s.endpoint.Src(stream).done
    requires 0 < n <= |s.endpoint.Src(stream).pipe| && n <= PUMP_BUFFER
    ensures Advances(s, PumpReads(stream, n), code)
  {
  }

  lemma ClosingAdvances(s: State, code: int, stream: Stream)
    requires CanSend(s, code) && !s.endpoint.Src(stream).writersGone
    ensures Advances(s, GroupCloses(stream), code)
  {
  }

  lemma ReturningAdvances(s: State, code: int, stream: Stream)
    requires CanSend(s, code) && !s.endpoint.Src(stream).done
    requires var src := s.endpoint.Src(stream); src.held.None? && src.pipe == [] && src.writersGone
    ensures Advances(s, PumpReturns(stream), code)
  {
  }

  lemma PumpAdvances(s: State, code: int, stream: Stream)
    requires CanSend(s, code) && !s.endpoint.Src(stream).done
    ensures Advances(s, PumpStep(s.endpoint.Src(stream), stream), code)
  {
    hide Advances, CanSend;
    var src := s.endpoint.Src(stream);
    if src.held.Some? {
      WriteAdvances(s, code, stream);
    } else if src.pipe != [] {
      ReadAdvances(s, code, stream, Least(|src.pipe|, PUMP_BUFFER));
    } else if !src.writersGone {
      ClosingAdvances(s, code, stream);
    } else {
      ReturningAdvances(s, code, stream);
    }
  }

  lemma HandlerAdvances(s: State, code: int)
    requires CanSend(s, code) && s.endpoint.PumpsDone()
    ensures Advances(s, HandlerStep(s.endpoint, code), code)
  {
  }

  lemma OnwardAdvances(s: State, code: int)
    requires Inv(s) && MayComplete(s) && Expecting(s, code)
    ensures Advances(s, Onward(s, code), code)
  {
    assert s.conn.frames == [] ==> !s.host.proxy.Returned?;
    assert s.conn.frames == [] && s.bridge.frames == [] ==> s.host.proxy.Forwarding? || CanSend(s, code);
    hide Inv, MayComplete, Advances, Expecting, CanSend;
    if s.conn.frames != [] {
      ClientAdvances(s, code);
    } else if s.host.proxy.Forwarding? {
      ProxyAdvances(s, code);
    } else if s.bridge.frames != [] {
      ReadingAdvances(s, code);
    } else if !s.endpoint.out.done {
      PumpAdvances(s, code, Stdout);
    } else if !s.endpoint.err.done {
      PumpAdvances(s, code, Stderr);
    } else {
      HandlerAdvances(s, code);
    }
  }

  /** The undisturbed continuation. */
  lemma {:induction false} Completes(s: State, code: int) returns (later: seq<Step>)
    requires Inv(s) && MayComplete(s) && Expecting(s, code)
    ensures AllGoWell(later) && From(s, later).conn.client == Got(Status(code))
    decreases Work(s)
  {
    var step := Onward(s, code);
    OnwardAdvances(s, code);
    NextKeepsInv(s, step);
    FromOne(s, step);
    hide Inv, MayComplete, Expecting, Next, Onward;
    if Next(s, step).conn.client == Got(Status(code)) {
      later := [step];
    } else {
      var rest := Completes(Next(s, step), code);
      later := [step] + rest;
      FromAppend(s, [step], rest);
    }
  }

  // ---------------------------------------------------------------- exactly when

  /** The process exits once. */
  lemma {:induction false} ExitStands(s: State, later: seq<Step>)
    requires s.endpoint.exited.Some?
    ensures From(s, later).endpoint.exited == s.endpoint.exited
    decreases |later|
  {
    if later != [] {
      ExitStands(s, later[..|later| - 1]);
      ExitStandsStep(From(s, later[..|later| - 1]), later[|later| - 1]);
    }
  }

  lemma ExitStandsStep(s: State, step: Step)
    requires s.endpoint.exited.Some?
    ensures Next(s, step).endpoint.exited == s.endpoint.exited
  {
  }

  /**
    From every reachable state in which the client still waits: some undisturbed continuation brings
    it the status `code` if and only if the process has exited with `code` or has not exited, and the
    endpoint's exit frame is in the client's connection; or the proxy runs, the connection is open,
    and the exit frame is in transit or can still be sent, because the handler has not finished and
    no write has failed and nothing was lost. No other continuation does better.
  */
  lemma StatusArrivesIff(steps: seq<Step>, code: int)
    requires Run(steps).conn.client.Running?
    ensures CanGet(Run(steps), code) <==> Expecting(Run(steps), code) && MayComplete(Run(steps))
    ensures !MayComplete(Run(steps)) ==> forall later: seq<Step> :: NoStatus(From(Run(steps), later).conn.client)
  {
    var s := Run(steps);
    RunKeepsInv(steps);
    if Expecting(s, code) && MayComplete(s) {
      var later := Completes(s, code);
    } else {
      forall later: seq<Step> | AllGoWell(later) ensures From(s, later).conn.client != Got(Status(code)) {
        NotGot(steps, later, code);
      }
    }
    if !MayComplete(s) {
      forall later: seq<Step> ensures NoStatus(From(s, later).conn.client) {
        NeverCompletes(s, later);
      }
    }
  }

  lemma NotGot(steps: seq<Step>, later: seq<Step>, code: int)
    requires Run(steps).conn.client.Running? && !(Expecting(Run(steps), code) && MayComplete(Run(steps)))
    ensures From(Run(steps), later).conn.client != Got(Status(code))
  {
    var s := Run(steps);
    RunKeepsInv(steps);
    hide Inv, MayComplete;
    if !MayComplete(s) {
      NeverCompletes(s, later);
    } else {
      ExitStands(s, later);
      FromAppend(INITIAL, steps, later);
      StatusMeansComplete(steps + later);
    }
  }

  /** So a session whose client stays, over a bridge that does not fail, always can come to its end. */
  lemma HealthySessionCompletes(steps: seq<Step>, code: int)
    requires Expecting(Run(steps), code)
    requires var s := Run(steps);
      && !s.bridge.down && !s.bridge.abandoned && !s.host.clientGone && s.conn.IsOpen() && !s.host.proxy.Returned?
    ensures CanGet(Run(steps), code)
  {
    var s := Run(steps);
    RunKeepsInv(steps);
    StatusArrivesIff(steps, code);
    if s.endpoint.handler.Finished? {
      assert Explained(s.bridge, s.host, Passed(s), Delivered(s.conn));
      assert s.bridge.ended && Ended(Passed(s));
      assert !Ended(Delivered(s.conn));
      assert OnItsWay(s.host.proxy, s.bridge.frames) == [] ==> Passed(s) == Delivered(s.conn);
      assert Ended(OnItsWay(s.host.proxy, s.bridge.frames));
    }
  }
}
