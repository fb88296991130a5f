/**
  How one exec request gets from the client to a process, and what the client concludes
  (internal/host/execclient.go, internal/host/execserver.go, internal/endpoint/exec.go).

  Client, host handler and endpoint handler take their steps in any order; every write and read can
  fail, and the client can give up at any time. What follows an OK reply is ExecPipeline's.
*/
module ExecStart {
  import opened Common

  /** A reply line. `notReady` stands for the machine-readable code "not_ready". */
  datatype Reply = Reply(ok: bool, notReady: bool, exitCode: int)

  const NOT_READY := Reply(false, true, 0)
  const REFUSED := Reply(false, false, 0)

  /** What `run` returns to EnsureAndRun. */
  datatype Outcome =
    | Unavailable               // no usable reply
    | NotReady
    | Refused
    | StartFailed(code: int)
    | Exited(code: int)
    | Lost
  {
    /** The exit status of `dworm exec`. */
    function Status(): int {
      match this
      case Unavailable | NotReady | Refused => 125
      case StartFailed(code) => code
      case Exited(code) => code
      case Lost => 255
    }

    predicate IsPlainError() {
      Unavailable? || NotReady? || Refused?
    }
  }

  datatype Client = Dialing | Awaiting | Following | Ended(outcome: Outcome)

  /** How far the host's handler has come. */
  datatype Host = Unserved | Asked | Ready | Opened | Tracked | Marked | Requested
    | Relaying(reply: Reply) | Proxying | Returned

  datatype Endpoint = Idle | Rejected(code: int) | Started

  /** The connection between client and host. */
  datatype Link = Link(request: bool, reply: Option<Reply>)

  /** The bridge stream: how often the host wrote a request, whether all of it arrived, and the answer. */
  datatype Bridge = Bridge(writes: nat, request: bool, reply: Option<Reply>)

  datatype State = State(client: Client, host: Host, endpoint: Endpoint, link: Link, bridge: Bridge)

  const INITIAL := State(Dialing, Unserved, Idle, Link(false, None), Bridge(0, false, None))

  datatype OpenAnswer = Stream | BridgeNotReady | OpenFailed

  /** `told` says whether a reply reaches the other side. */
  datatype Step =
    | ClientConnects(ok: bool)
    | ClientGivesUp
    | ClientReadsReply
    | ClientReadsExit(code: int)
    | ClientLosesConnection
    | HostAccepts(ok: bool, told: bool)
    | HostChecksReady(ready: bool, told: bool)
    | HostOpens(answer: OpenAnswer, told: bool)
    | HostTracks(ok: bool, told: bool)
    | HostWritesMarker(ok: bool, told: bool)
    | HostWritesRequest(arrives: bool, ok: bool, told: bool)
    | HostReadsReply
    | HostReadFails(told: bool)
    | HostRelays(told: bool)
    | EndpointRejects(code: int, told: bool)
    | EndpointStarts(told: bool)

  function ClientNext(s: State, step: Step): State {
    match step
    case ClientConnects(ok) =>
      if !s.client.Dialing? then s
      else if ok then s.(client := Awaiting, link := s.link.(request := true))
      else s.(client := Ended(Unavailable))
    case ClientGivesUp =>
      if s.client.Awaiting? then s.(client := Ended(Unavailable)) else s
    case ClientReadsReply =>
      if s.client.Awaiting? && s.link.reply.Some? then s.(client := AfterReply(s.link.reply.value)) else s
    case ClientReadsExit(code) =>
      if s.client.Following? then s.(client := Ended(Exited(code))) else s
    case ClientLosesConnection =>
      if s.client.Following? then s.(client := Ended(Lost)) else s
    case _ => s
  }

  function AfterReply(reply: Reply): Client {
    if reply.ok then Following
    else if reply.exitCode != 0 then Ended(StartFailed(reply.exitCode))
    else if reply.notReady then Ended(NotReady)
    else Ended(Refused)
  }

  /** The host's handler answers the client and ends. */
  function Answer(s: State, reply: Reply, told: bool): State {
    s.(host := Returned, link := if told then s.link.(reply := Some(reply)) else s.link)
  }

  /** The steps before the request is written. */
  function HostNext(s: State, step: Step): State {
    match step
    case HostAccepts(ok, told) =>
      if !s.host.Unserved? || !s.link.request then s
      else if ok then s.(host := Asked) else Answer(s, REFUSED, told)
    case HostChecksReady(ready, told) =>
      if !s.host.Asked? then s
      else if ready then s.(host := Ready) else Answer(s, NOT_READY, told)
    case HostOpens(answer, told) =>
      if !s.host.Ready? then s
      else if answer == Stream then s.(host := Opened)
      else Answer(s, if answer == BridgeNotReady then NOT_READY else REFUSED, told)
    case HostTracks(ok, told) =>
      if !s.host.Opened? then s
      else if ok then s.(host := Tracked) else Answer(s, REFUSED, told)
    case HostWritesMarker(ok, told) =>
      if !s.host.Tracked? then s
      else if ok then s.(host := Marked) else Answer(s, REFUSED, told)
    case _ => s
  }

  /** A request whose write fails can have arrived all the same. */
  function HostWritesRequestNext(s: State, arrives: bool, ok: bool, told: bool): State {
    if !s.host.Marked? then s
    else
      var written := s.(bridge := s.bridge.(writes := s.bridge.writes + 1, request := arrives || ok));
      if ok then written.(host := Requested) else Answer(written, REFUSED, told)
  }

  function HostReplyNext(s: State, step: Step): State {
    match step
    case HostReadsReply =>
      if s.host.Requested? && s.bridge.reply.Some? then s.(host := Relaying(s.bridge.reply.value)) else s
    case HostReadFails(told) =>
      if s.host.Requested? then Answer(s, REFUSED, told) else s
    case HostRelays(told) =>
      if !s.host.Relaying? then s
      else if told && s.host.reply.ok then Answer(s, s.host.reply, true).(host := Proxying)
      else Answer(s, s.host.reply, told)
    case _ => s
  }

  /** The endpoint's replies never carry a code; a failed start carries 126 or 127. */
  function EndpointNext(s: State, step: Step): State {
    if !s.endpoint.Idle? || !s.bridge.request then s
    else
      match step
      case EndpointRejects(code, told) =>
        s.(endpoint := Rejected(code),
           bridge := if told then s.bridge.(reply := Some(Reply(false, false, code))) else s.bridge)
      case EndpointStarts(told) =>
        s.(endpoint := Started,
           bridge := if told then s.bridge.(reply := Some(Reply(true, false, 0))) else s.bridge)
      case _ => s
  }

  function Next(s: State, step: Step): State {
    match step
    case ClientConnects(_) | ClientGivesUp | ClientReadsReply | ClientReadsExit(_) | ClientLosesConnection =>
      ClientNext(s, step)
    case HostAccepts(_, _) | HostChecksReady(_, _) | HostOpens(_, _) | HostTracks(_, _) | HostWritesMarker(_, _) =>
      HostNext(s, step)
    case HostWritesRequest(arrives, ok, told) => HostWritesRequestNext(s, arrives, ok, told)
    case HostReadsReply | HostReadFails(_) | HostRelays(_) => HostReplyNext(s, step)
    case EndpointRejects(_, _) | EndpointStarts(_) => EndpointNext(s, step)
  }

  function From(s: State, steps: seq<Step>): State {
    if steps == [] then s else Next(From(s, steps[..|steps| - 1]), steps[|steps| - 1])
  }

  /** One call of `run`, with all that the host and the endpoint do for it. */
  function Run(steps: seq<Step>): State {
    From(INITIAL, steps)
  }

  lemma {:induction false} FromAppend(s: State, steps: seq<Step>, later: seq<Step>)
    ensures From(s, steps + later) == From(From(s, steps), later)
    decreases |later|
  {
    hide Next;
    if later == [] {
      assert steps + later == steps;
    } else {
      assert (steps + later)[..|steps + later| - 1] == steps + later[..|later| - 1];
      FromAppend(s, steps, later[..|later| - 1]);
    }
  }

  lemma FromOne(s: State, step: Step)
    ensures From(s, [step]) == Next(s, step)
  {
    hide Next;
    assert [step][..0] == [];
    assert From(s, []) == s;
  }

  // ---------------------------------------------------------------- what every run keeps

  predicate BeforeRequest(h: Host) {
    h.Unserved? || h.Asked? || h.Ready? || h.Opened? || h.Tracked? || h.Marked?
  }

  /** What a reply of the endpoint says about the endpoint. */
  predicate ReplyMeans(reply: Reply, endpoint: Endpoint) {
    && !reply.notReady
    && (reply.ok ==> endpoint.Started?)
    && (reply.exitCode != 0 ==> endpoint.Rejected?)
  }

  predicate NothingSent(s: State) {
    s.host.Returned? && s.bridge.writes == 0
  }

  /** What the client may conclude from a reply of the host. */
  predicate LineMeans(reply: Reply, s: State) {
    && (reply.notReady ==> NothingSent(s) && !reply.ok && reply.exitCode == 0)
    && (reply.ok ==> s.endpoint.Started?)
    && (reply.exitCode != 0 ==> s.endpoint.Rejected?)
  }

  predicate ClientMeans(c: Client, s: State) {
    match c
    case Dialing => s.host.Unserved? && !s.link.request
    case Awaiting => true
    case Following => s.endpoint.Started?
    case Ended(Unavailable) => true
    case Ended(Refused) => true
    case Ended(NotReady) => NothingSent(s)
    case Ended(StartFailed(_)) => s.endpoint.Rejected?
    case Ended(Exited(_)) => s.endpoint.Started?
    case Ended(Lost) => s.endpoint.Started?
  }

  predicate Inv(s: State) {
    && s.bridge.writes <= 1
    && (BeforeRequest(s.host) ==> s.bridge.writes == 0 && s.link.reply.None?)
    && (s.bridge.request ==> s.bridge.writes == 1)
    && (!s.endpoint.Idle? ==> s.bridge.request)
    && (s.bridge.reply.Some? ==> !s.endpoint.Idle?)
    && (s.client.Awaiting? ==> s.link.request)
    && (s.link.reply.Some? ==> s.host.Returned? || s.host.Proxying?)
    && (s.bridge.reply.Some? ==> ReplyMeans(s.bridge.reply.value, s.endpoint))
    && (s.host.Relaying? ==> ReplyMeans(s.host.reply, s.endpoint))
    && (s.link.reply.Some? ==> LineMeans(s.link.reply.value, s))
    && ClientMeans(s.client, s)
    && (!s.host.Unserved? ==> s.link.request)
    && (s.host.Requested? || s.host.Relaying? || s.host.Proxying? ==> s.bridge.request)
  }

  lemma ClientKeepsInv(s: State, step: Step)
    requires Inv(s)
    ensures Inv(ClientNext(s, step))
  {
  }

  lemma HostKeepsInv(s: State, step: Step)
    requires Inv(s)
    ensures Inv(HostNext(s, step))
  {
  }

  lemma HostWritesRequestKeepsInv(s: State, arrives: bool, ok: bool, told: bool)
    requires Inv(s)
    ensures Inv(HostWritesRequestNext(s, arrives, ok, told))
  {
  }

  lemma HostReplyKeepsInv(s: State, step: Step)
    requires Inv(s)
    ensures Inv(HostReplyNext(s, step))
  {
  }

  lemma EndpointKeepsInv(s: State, step: Step)
    requires Inv(s)
    ensures Inv(EndpointNext(s, step))
  {
  }

  lemma NextKeepsInv(s: State, step: Step)
    requires Inv(s)
    ensures Inv(Next(s, step))
  {
    hide Inv, ClientNext, HostNext, HostWritesRequestNext, HostReplyNext, EndpointNext;
    match step {
      case ClientConnects(_) | ClientGivesUp | ClientReadsReply | ClientReadsExit(_) | ClientLosesConnection =>
        ClientKeepsInv(s, step);
      case HostAccepts(_, _) | HostChecksReady(_, _) | HostOpens(_, _) | HostTracks(_, _) | HostWritesMarker(_, _) =>
        HostKeepsInv(s, step);
      case HostWritesRequest(arrives, ok, told) => HostWritesRequestKeepsInv(s, arrives, ok, told);
      case HostReadsReply | HostReadFails(_) | HostRelays(_) => HostReplyKeepsInv(s, step);
      case EndpointRejects(_, _) | EndpointStarts(_) => EndpointKeepsInv(s, step);
    }
  }

  lemma {:induction false} FromKeepsInv(s: State, steps: seq<Step>)
    requires Inv(s)
    ensures Inv(From(s, steps))
    decreases |steps|
  {
    hide Inv, Next;
    if steps != [] {
      FromKeepsInv(s, steps[..|steps| - 1]);
      NextKeepsInv(From(s, steps[..|steps| - 1]), steps[|steps| - 1]);
    }
  }

  lemma RunKeepsInv(steps: seq<Step>)
    ensures Inv(Run(steps))
  {
    assert Inv(INITIAL);
    hide Inv;
    FromKeepsInv(INITIAL, steps);
  }

  // ---------------------------------------------------------------- what the client may conclude

  /** No call of `run` writes more than one request, and a process runs only if one was written. */
  lemma AtMostOneRequest(steps: seq<Step>)
    ensures Run(steps).bridge.writes <= 1
    ensures Run(steps).endpoint.Started? ==> Run(steps).bridge.writes == 1
  {
    RunKeepsInv(steps);
  }

  /** The endpoint's verdict stands. */
  lemma {:induction false} VerdictStands(s: State, later: seq<Step>)
    requires !s.endpoint.Idle?
    ensures From(s, later).endpoint == s.endpoint
    decreases |later|
  {
    if later != [] {
      VerdictStands(s, later[..|later| - 1]);
    }
  }

  /** A handler that ended does nothing more; without a request in the stream the endpoint does nothing either. */
  predicate Over(s: State) {
    && s.endpoint.Idle? && !s.bridge.request
    && (s.host.Returned? || (s.host.Unserved? && !s.link.request && s.client.Ended?))
  }

  lemma {:induction false} OverStays(s: State, later: seq<Step>)
    requires Over(s)
    ensures Over(From(s, later)) && From(s, later).bridge == s.bridge
    decreases |later|
  {
    if later != [] {
      OverStays(s, later[..|later| - 1]);
    }
  }

  /** After a not_ready rejection nothing was written, nothing will be, and no process runs: retrying is safe. */
  lemma NotReadyMeansNothingWritten(steps: seq<Step>, later: seq<Step>)
    requires Run(steps).client == Ended(NotReady)
    ensures Run(steps + later).bridge.writes == 0
    ensures Run(steps + later).endpoint.Idle?
  {
    RunKeepsInv(steps);
    FromAppend(INITIAL, steps, later);
    OverStays(Run(steps), later);
  }

  /** 255 for a lost connection, and every exit status of the command, imply that the process was started. */
  lemma LostMeansStarted(steps: seq<Step>)
    requires Run(steps).client.Ended? && (Run(steps).client.outcome.Lost? || Run(steps).client.outcome.Exited?)
    ensures Run(steps).endpoint.Started?
  {
    RunKeepsInv(steps);
  }

  /** A reported start failure (126, 127) means that no process runs, however long the handlers go on. */
  lemma StartFailedMeansNotStarted(steps: seq<Step>, later: seq<Step>)
    requires Run(steps).client.Ended? && Run(steps).client.outcome.StartFailed?
    ensures !Run(steps + later).endpoint.Started?
  {
    RunKeepsInv(steps);
    FromAppend(INITIAL, steps, later);
    VerdictStands(Run(steps), later);
  }

  // ---------------------------------------------------------------- who is told "not ready"

  /** The handler finds the instance not ready, at its own check or when it opens the stream, and can say so. */
  predicate FindsNotReady(h: Host, step: Step) {
    || (h.Asked? && step == HostChecksReady(false, true))
    || (h.Ready? && step == HostOpens(BridgeNotReady, true))
  }

  predicate FoundNotReady(steps: seq<Step>) {
    steps != [] &&
    var before := steps[..|steps| - 1];
    FoundNotReady(before) || FindsNotReady(Run(before).host, steps[|steps| - 1])
  }

  predicate NotReadyInv(s: State, found: bool) {
    && (found <==> s.link.reply.Some? && s.link.reply.value.notReady)
    && (found ==> s.link.reply == Some(NOT_READY) && s.host.Returned?)
    && (s.client == Ended(NotReady) ==> found)
    && (s.link.reply.None? ==> s.client.Dialing? || s.client.Awaiting? || s.client == Ended(Unavailable))
    && (found ==> s.client.Awaiting? || s.client == Ended(NotReady) || s.client == Ended(Unavailable))
  }

  lemma NotReadyStep(s: State, found: bool, step: Step)
    requires Inv(s) && NotReadyInv(s, found)
    ensures NotReadyInv(Next(s, step), found || FindsNotReady(s.host, step))
  {
  }

  lemma {:induction false} FoundKeepsInv(steps: seq<Step>)
    ensures NotReadyInv(Run(steps), FoundNotReady(steps))
    decreases |steps|
  {
    if steps != [] {
      var before := steps[..|steps| - 1];
      RunKeepsInv(before);
      hide Inv, Next, NotReadyInv, FindsNotReady;
      FoundKeepsInv(before);
      NotReadyStep(Run(before), FoundNotReady(before), steps[|steps| - 1]);
    }
  }

  /**
    The client learns that its command was rejected as not ready only if the handler found that; and
    if it did, and its reply was not lost, that is what the client reads, unless it has given up.
  */
  lemma NotReadyIffFound(steps: seq<Step>)
    ensures Run(steps).client == Ended(NotReady) ==> FoundNotReady(steps)
    ensures FoundNotReady(steps) && Run(steps).client.Awaiting? ==>
      Next(Run(steps), ClientReadsReply).client == Ended(NotReady)
    ensures FoundNotReady(steps) ==>
      Run(steps).client.Awaiting? || Run(steps).client in {Ended(NotReady), Ended(Unavailable)}
  {
    FoundKeepsInv(steps);
    hide Run, FoundNotReady;
  }

  // ---------------------------------------------------------------- when the command's status still can come

  /** The step is part of an undisturbed call. */
  predicate GoesWell(step: Step) {
    match step
    case ClientConnects(ok) => ok
    case ClientReadsReply | ClientReadsExit(_) | HostReadsReply => true
    case HostAccepts(ok, told) => ok && told
    case HostChecksReady(ready, told) => ready && told
    case HostOpens(answer, told) => answer == Stream && told
    case HostTracks(ok, told) => ok && told
    case HostWritesMarker(ok, told) => ok && told
    case HostWritesRequest(arrives, ok, told) => arrives && ok && told
    case HostRelays(told) => told
    case EndpointStarts(told) => told
    case _ => false
  }

  /** In some undisturbed continuation the client returns the command's exit status. */
  ghost predicate CanExit(s: State, code: int) {
    exists later: seq<Step> ::
      (forall i :: 0 <= i < |later| ==> GoesWell(later[i])) && From(s, later).client == Ended(Exited(code))
  }

  /** The request can still be written, or the endpoint can still start the command, or its OK has not been lost. */
  predicate HandlerMaySucceed(s: State) {
    match s.host
    case Requested => if s.bridge.reply.Some? then s.bridge.reply.value.ok else s.endpoint.Idle?
    case Relaying(reply) => reply.ok
    case Proxying => false
    case Returned => false
    case _ => true
  }

  predicate MayExit(s: State) {
    || s.client.Following?
    || ((s.client.Dialing? || s.client.Awaiting?)
        && if s.link.reply.Some? then s.link.reply.value.ok else HandlerMaySucceed(s))
  }

  predicate NoExit(c: Client) {
    !(c.Ended? && c.outcome.Exited?)
  }

  lemma HopeStaysLost(s: State, step: Step)
    requires Inv(s) && !MayExit(s) && NoExit(s.client)
    ensures !MayExit(Next(s, step)) && NoExit(Next(s, step).client)
  {
  }

  lemma {:induction false} NeverExits(s: State, later: seq<Step>)
    requires Inv(s) && !MayExit(s) && NoExit(s.client)
    ensures !MayExit(From(s, later)) && NoExit(From(s, later).client)
    decreases |later|
  {
    hide Inv, MayExit, NoExit, Next;
    if later != [] {
      var before := later[..|later| - 1];
      NeverExits(s, before);
      FromKeepsInv(s, before);
      HopeStaysLost(From(s, before), later[|later| - 1]);
    }
  }

  /** The next step of an undisturbed call. */
  function Advance(s: State, code: int): Step {
    if s.client.Following? then ClientReadsExit(code)
    else if s.client.Dialing? then ClientConnects(true)
    else if s.link.reply.Some? then ClientReadsReply
    else
      match s.host
      case Requested => if s.bridge.reply.Some? then HostReadsReply else EndpointStarts(true)
      case Relaying(_) => HostRelays(true)
      case h => Onward(h)
  }

  /** How many steps there are left. */
  function Remaining(s: State): nat {
    if s.client.Following? then 1
    else if s.link.reply.Some? then 2
    else if s.host.Relaying? then 3
    else if s.host.Requested? then (if s.bridge.reply.Some? then 4 else 5)
    else 5 + Distance(s.host) + if s.client.Dialing? then 1 else 0
  }

  lemma AdvanceAdvances(s: State, code: int)
    requires Inv(s) && MayExit(s)
    ensures GoesWell(Advance(s, code))
    ensures var next := Next(s, Advance(s, code));
      next.client == Ended(Exited(code)) || (MayExit(next) && Remaining(next) < Remaining(s))
  {
  }

  lemma {:induction false} Exits(s: State, code: int) returns (later: seq<Step>)
    requires Inv(s) && MayExit(s)
    ensures forall i :: 0 <= i < |later| ==> GoesWell(later[i])
    ensures From(s, later).client == Ended(Exited(code))
    decreases Remaining(s)
  {
    var step := Advance(s, code);
    AdvanceAdvances(s, code);
    NextKeepsInv(s, step);
    FromOne(s, step);
    hide Inv, MayExit, Next, Advance, GoesWell;
    if Next(s, step).client == Ended(Exited(code)) {
      later := [step];
    } else {
      var rest := Exits(Next(s, step), code);
      later := [step] + rest;
      FromAppend(s, [step], rest);
    }
  }

  /**
    From every reachable state of a call that has not ended: some undisturbed continuation ends with
    the command's exit status if and only if the client follows the command already; or it waits, and
    the reply it has is OK, or it has none and its handler may still succeed.
  */
  lemma ExitArrivesIff(steps: seq<Step>, code: int)
    requires !Run(steps).client.Ended?
    ensures CanExit(Run(steps), code) <==> MayExit(Run(steps))
  {
    var s := Run(steps);
    RunKeepsInv(steps);
    hide Inv, MayExit, Run;
    if MayExit(s) {
      var later := Exits(s, code);
    } else {
      forall later: seq<Step> ensures From(s, later).client != Ended(Exited(code)) {
        NeverExits(s, later);
      }
    }
  }

  /** No process runs now or later on behalf of this call. */
  ghost predicate NeverStarts(s: State) {
    forall later: seq<Step> :: !From(s, later).endpoint.Started?
  }

  /** The endpoint rejected the request, or the host's handler ended before the request could arrive. */
  predicate Settled(s: State) {
    s.endpoint.Rejected? || Over(s)
  }

  lemma SettledNeverStarts(s: State)
    requires Settled(s)
    ensures NeverStarts(s)
  {
    forall later: seq<Step> ensures !From(s, later).endpoint.Started? {
      if s.endpoint.Rejected? {
        VerdictStands(s, later);
      } else {
        OverStays(s, later);
      }
    }
  }

  /** What the handlers do next if all goes well. */
  function Onward(h: Host): Step {
    match h
    case Unserved => HostAccepts(true, true)
    case Asked => HostChecksReady(true, true)
    case Ready => HostOpens(Stream, true)
    case Opened => HostTracks(true, true)
    case Tracked => HostWritesMarker(true, true)
    case _ => HostWritesRequest(true, true, true)
  }

  function Distance(h: Host): nat {
    match h
    case Unserved => 6
    case Asked => 5
    case Ready => 4
    case Opened => 3
    case Tracked => 2
    case Marked => 1
    case _ => 0
  }

  lemma {:induction false} UnsettledCanStart(s: State) returns (later: seq<Step>)
    requires Inv(s) && s.client.Ended? && !Settled(s)
    ensures From(s, later).endpoint.Started?
    decreases Distance(s.host)
  {
    if s.endpoint.Started? {
      later := [];
    } else if s.bridge.request {
      later := [EndpointStarts(true)];
      FromOne(s, EndpointStarts(true));
    } else {
      var step := Onward(s.host);
      var next := Next(s, step);
      assert next.client == s.client && Distance(next.host) < Distance(s.host);
      NextKeepsInv(s, step);
      var rest := UnsettledCanStart(next);
      later := [step] + rest;
      FromOne(s, step);
      FromAppend(s, [step], rest);
    }
  }

  /**
    Exit status 125 is documented as "not started, safe to retry". That holds exactly when the
    request is settled: the host's handler ended before the request could arrive, or the endpoint
    rejected it. Otherwise the handlers left behind can still start the process, or already have.
  */
  lemma PlainErrorIsFinalIffSettled(steps: seq<Step>)
    requires Run(steps).client.Ended? && Run(steps).client.outcome.IsPlainError()
    ensures NeverStarts(Run(steps)) <==> Settled(Run(steps))
  {
    var s := Run(steps);
    RunKeepsInv(steps);
    if Settled(s) {
      SettledNeverStarts(s);
    } else {
      var later := UnsettledCanStart(s);
    }
  }

  lemma {:induction false} FromCons(s: State, step: Step, later: seq<Step>)
    ensures From(s, [step] + later) == From(Next(s, step), later)
  {
    hide Next;
    FromOne(s, step);
    FromAppend(s, [step], later);
  }

  /** From a handler that waits for the endpoint's reply. */
  lemma LostReply(s: State)
    requires s == State(Awaiting, Requested, Idle, Link(true, None), Bridge(1, true, None))
    ensures var end := From(s, [EndpointStarts(false), HostReadFails(true), ClientReadsReply]);
      end.client == Ended(Refused) && end.endpoint == Started
  {
    var a := Next(s, EndpointStarts(false));
    var b := Next(a, HostReadFails(true));
    assert b.link.reply == Some(REFUSED) && b.client == Awaiting && b.endpoint == Started;
    var c := Next(b, ClientReadsReply);
    assert c.client == Ended(Refused) && c.endpoint == Started;
    hide Next;
    FromOne(b, ClientReadsReply);
    FromCons(a, HostReadFails(true), [ClientReadsReply]);
    FromCons(s, EndpointStarts(false), [HostReadFails(true)] + [ClientReadsReply]);
    assert [EndpointStarts(false), HostReadFails(true), ClientReadsReply]
        == [EndpointStarts(false)] + ([HostReadFails(true)] + [ClientReadsReply]);
  }

  /** The handler gets as far as waiting for the endpoint's reply. */
  lemma Requesting()
    ensures From(INITIAL, REQUESTING) == State(Awaiting, Requested, Idle, Link(true, None), Bridge(1, true, None))
  {
    var a := Next(Next(Next(INITIAL, ClientConnects(true)), HostAccepts(true, true)), HostChecksReady(true, true));
    var b := Next(Next(a, HostOpens(Stream, true)), HostTracks(true, true));
    var c := Next(Next(b, HostWritesMarker(true, true)), HostWritesRequest(true, true, true));
    assert a == State(Awaiting, Ready, Idle, Link(true, None), Bridge(0, false, None));
    assert c == State(Awaiting, Requested, Idle, Link(true, None), Bridge(1, true, None));
    hide Next;
    var last := [HostWritesMarker(true, true)] + [HostWritesRequest(true, true, true)];
    FromOne(Next(b, HostWritesMarker(true, true)), HostWritesRequest(true, true, true));
    FromCons(b, HostWritesMarker(true, true), [HostWritesRequest(true, true, true)]);
    FromCons(Next(a, HostOpens(Stream, true)), HostTracks(true, true), last);
    FromCons(a, HostOpens(Stream, true), [HostTracks(true, true)] + last);
    var fromReady := [HostOpens(Stream, true)] + ([HostTracks(true, true)] + last);
    var asked := Next(INITIAL, ClientConnects(true));
    FromCons(Next(asked, HostAccepts(true, true)), HostChecksReady(true, true), fromReady);
    FromCons(asked, HostAccepts(true, true), [HostChecksReady(true, true)] + fromReady);
    FromCons(INITIAL, ClientConnects(true), [HostAccepts(true, true)] + ([HostChecksReady(true, true)] + fromReady));
    assert REQUESTING == [ClientConnects(true)] + ([HostAccepts(true, true)] + ([HostChecksReady(true, true)] + fromReady));
  }

  const REQUESTING := [ClientConnects(true), HostAccepts(true, true), HostChecksReady(true, true),
    HostOpens(Stream, true), HostTracks(true, true), HostWritesMarker(true, true), HostWritesRequest(true, true, true)]

  const LOST_REPLY := [EndpointStarts(false), HostReadFails(true), ClientReadsReply]

  /** The endpoint's OK is lost: the client exits with 125, "not started", and the process runs. */
  lemma Status125AfterStart()
    ensures var end := Run(REQUESTING + LOST_REPLY);
      end.client.Ended? && end.client.outcome.Status() == 125 && end.endpoint.Started?
  {
    hide Next, From;
    Requesting();
    FromAppend(INITIAL, REQUESTING, LOST_REPLY);
    LostReply(From(INITIAL, REQUESTING));
  }
}
