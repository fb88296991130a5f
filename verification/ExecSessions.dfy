/**
  Which connections the host's exec server tracks, and what is left of them after a shutdown
  (internal/host/execserver.go).

  Each region under the server's lock and each close is one step; handlers and the shutdown take
  steps in any order.
*/
module ExecSessions {
  datatype Kind = ExecSession | EventSession | ControlSession

  /** A client's connection or a bridge stream. */
  datatype Conn = Conn(number: nat)

  datatype Registry = Registry(closed: bool, execsClosed: bool, sessions: map<Conn, Kind>)
  {
    predicate Admits(kind: Kind) {
      !closed && !(kind == ExecSession && execsClosed)
    }

    function Execs(): set<Conn> {
      set c | c in sessions && sessions[c] == ExecSession
    }
  }

  function TrackNext(r: Registry, c: Conn, kind: Kind): Registry {
    if r.Admits(kind) then r.(sessions := r.sessions[c := kind]) else r
  }

  function RetrackNext(r: Registry, c: Conn, kind: Kind): Registry {
    if c in r.sessions then r.(sessions := r.sessions[c := kind]) else r
  }

  class ExecServer {
    var closed: bool
    var execsClosed: bool
    var sessions: map<Conn, Kind>

    function Current(): Registry
      reads this
    {
      Registry(closed, execsClosed, sessions)
    }

    constructor ()
      ensures Current() == Registry(false, false, map[])
    {
      closed, execsClosed, sessions := false, false, map[];
    }

    method Track(c: Conn, kind: Kind) returns (ok: bool)
      modifies `sessions
      ensures ok == old(Current()).Admits(kind)
      ensures Current() == TrackNext(old(Current()), c, kind)
    {
      if closed || (kind == ExecSession && execsClosed) { return false; }
      sessions := sessions[c := kind];
      return true;
    }

    method Retrack(c: Conn, kind: Kind)
      modifies `sessions
      ensures Current() == RetrackNext(old(Current()), c, kind)
    {
      if c in sessions { sessions := sessions[c := kind]; }
    }

    method Untrack(c: Conn)
      modifies `sessions
      ensures Current() == old(Current()).(sessions := old(sessions) - {c})
    {
      sessions := sessions - {c};
    }

    /** Refuses new exec sessions and collects those to be closed. */
    method CloseExecs() returns (execs: set<Conn>)
      modifies `execsClosed
      ensures Current() == old(Current()).(execsClosed := true) && execs == Current().Execs()
    {
      execsClosed := true;
      execs := {};
      var rest := sessions.Keys;
      while rest != {}
        invariant rest <= sessions.Keys
        invariant execs == set c | c in sessions && c !in rest && sessions[c] == ExecSession
      {
        var c :| c in rest;
        if sessions[c] == ExecSession { execs := execs + {c}; }
        rest := rest - {c};
      }
    }
  }

  // ---------------------------------------------------------------- every interleaving

  /**
    `open`: connections and streams not closed yet; `streams`: all bridge streams ever opened for
    execs; `opening`: streams whose handler has not called `Track` yet; `closing`: what the shutdown
    has collected and not closed yet; `ending`: Close has collected all sessions.
  */
  datatype State = State(registry: Registry, open: set<Conn>, streams: set<Conn>, opening: set<Conn>,
                         closing: set<Conn>, ending: bool)

  const INITIAL := State(Registry(false, false, map[]), {}, {}, {}, {}, false)

  datatype Step =
    | Accepts(c: Conn)
    | BecomesExec(c: Conn)
    | BecomesEvents(c: Conn)
    | OpensStream(c: Conn)
    | TracksStream(c: Conn)
    | HandlerCloses(c: Conn)
    | Untracks(c: Conn)
    | ShutsExecs
    | Shuts
    | CollectsAll
    | ShutdownCloses(c: Conn)

  predicate IsNew(s: State, c: Conn) {
    c !in s.open && c !in s.streams && c !in s.registry.sessions && c !in s.closing
  }

  function Next(s: State, step: Step): State {
    match step
    case Accepts(c) =>
      if !IsNew(s, c) || !s.registry.Admits(ControlSession) then s
      else s.(registry := TrackNext(s.registry, c, ControlSession), open := s.open + {c})
    case BecomesExec(c) =>
      if c in s.streams then s else s.(registry := RetrackNext(s.registry, c, ExecSession))
    case BecomesEvents(c) =>
      if c in s.streams then s else s.(registry := RetrackNext(s.registry, c, EventSession))
    case OpensStream(c) =>
      if !IsNew(s, c) then s
      else s.(open := s.open + {c}, streams := s.streams + {c}, opening := s.opening + {c})
    case TracksStream(c) =>
      if c !in s.opening then s
      else if s.registry.Admits(ExecSession) then
        s.(registry := TrackNext(s.registry, c, ExecSession), opening := s.opening - {c})
      else s.(open := s.open - {c}, opening := s.opening - {c})
    case HandlerCloses(c) =>
      if c in s.opening then s else s.(open := s.open - {c})
    case Untracks(c) =>
      if c in s.open then s else s.(registry := s.registry.(sessions := s.registry.sessions - {c}))
    case ShutsExecs =>
      s.(registry := s.registry.(execsClosed := true), closing := s.closing + s.registry.Execs())
    case Shuts => s.(registry := s.registry.(closed := true))
    case CollectsAll =>
      if s.registry.closed then s.(closing := s.closing + s.registry.sessions.Keys, ending := true) else s
    case ShutdownCloses(c) =>
      if c in s.closing then s.(open := s.open - {c}, closing := s.closing - {c}) else s
  }

  function Run(steps: seq<Step>): State {
    if steps == [] then INITIAL else Next(Run(steps[..|steps| - 1]), steps[|steps| - 1])
  }

  ghost predicate Inv(s: State) {
    && s.opening <= s.open * s.streams && s.opening !! s.closing
    && (forall c :: c in s.open ==> c in s.registry.sessions || c in s.opening)
    && (forall c :: c in s.registry.sessions && c in s.streams ==> s.registry.sessions[c] == ExecSession)
    && (forall c :: c in s.registry.sessions ==> c !in s.opening)
    && (s.registry.execsClosed ==> forall c :: c in s.open && c in s.streams && c !in s.opening ==> c in s.closing)
    && (s.ending ==> s.registry.closed && forall c :: c in s.open && c !in s.opening ==> c in s.closing)
  }

  lemma HandlerKeepsInv(s: State, step: Step)
    requires Inv(s)
    requires !step.ShutsExecs? && !step.Shuts? && !step.CollectsAll? && !step.ShutdownCloses?
    ensures Inv(Next(s, step))
  {
  }

  lemma ShutdownKeepsInv(s: State, step: Step)
    requires Inv(s)
    requires step.ShutsExecs? || step.Shuts? || step.CollectsAll? || step.ShutdownCloses?
    ensures Inv(Next(s, step))
  {
  }

  lemma {:induction false} RunKeepsInv(steps: seq<Step>)
    ensures Inv(Run(steps))
    decreases |steps|
  {
    if steps == [] {
    } else {
      hide Inv, Next;
      RunKeepsInv(steps[..|steps| - 1]);
      var s, step := Run(steps[..|steps| - 1]), steps[|steps| - 1];
      if step.ShutsExecs? || step.Shuts? || step.CollectsAll? || step.ShutdownCloses? {
        ShutdownKeepsInv(s, step);
      } else {
        HandlerKeepsInv(s, step);
      }
    }
  }

  /**
    Once CloseExecs has closed what it collected, no exec stream is open, except for handlers that
    have not called `Track` yet; these cannot keep their stream.
  */
  lemma NoExecStreamSurvives(steps: seq<Step>, c: Conn)
    requires Run(steps).registry.execsClosed && Run(steps).closing == {}
    requires c in Run(steps).streams && c in Run(steps).open
    ensures c in Run(steps).opening && c !in Next(Run(steps), TracksStream(c)).open
  {
    RunKeepsInv(steps);
  }

  /** Once Close has closed what it collected, the same holds for every connection and stream. */
  lemma NoSessionSurvives(steps: seq<Step>, c: Conn)
    requires Run(steps).ending && Run(steps).closing == {} && c in Run(steps).open
    ensures c in Run(steps).opening && c !in Next(Run(steps), TracksStream(c)).open
  {
    RunKeepsInv(steps);
  }

  lemma StepCloses(s: State, step: Step)
    ensures Next(s, step).registry.closed == (s.registry.closed || step.Shuts?)
    ensures Next(s, step).registry.execsClosed == (s.registry.execsClosed || step.ShutsExecs?)
  {
  }

  lemma {:induction false} ClosedIffShut(steps: seq<Step>)
    ensures Run(steps).registry.closed <==> exists i :: 0 <= i < |steps| && steps[i].Shuts?
    ensures Run(steps).registry.execsClosed <==> exists i :: 0 <= i < |steps| && steps[i].ShutsExecs?
    decreases |steps|
  {
    if steps != [] {
      var before, step := steps[..|steps| - 1], steps[|steps| - 1];
      hide Next;
      ClosedIffShut(before);
      StepCloses(Run(before), step);
      assert forall i :: 0 <= i < |steps| ==> steps[i] == if i < |before| then before[i] else step;
    }
  }

  /**
    Who is turned away: an exec stream exactly if a shutdown has begun, and a connection exactly if
    the server was closed. An exec stream that is admitted stays open and is an exec session, one
    that is not is closed.
  */
  lemma TurnedAwayIffShut(steps: seq<Step>, c: Conn)
    ensures c in Run(steps).opening ==>
      var next := Next(Run(steps), TracksStream(c));
      && (c in next.registry.Execs() <==> forall i :: 0 <= i < |steps| ==> !steps[i].Shuts? && !steps[i].ShutsExecs?)
      && (c in next.open <==> c in next.registry.Execs())
    ensures IsNew(Run(steps), c) ==>
      var next := Next(Run(steps), Accepts(c));
      && (c in next.open <==> forall i :: 0 <= i < |steps| ==> !steps[i].Shuts?)
      && (c in next.registry.sessions <==> c in next.open)
  {
    ClosedIffShut(steps);
    RunKeepsInv(steps);
    hide Run;
  }

  /** How a step changes the set of late exec clients, read off the state before it. */
  function LateNext(late: set<Conn>, s: State, step: Step): set<Conn> {
    match step
    case ShutsExecs => {}
    case BecomesExec(c) =>
      var retracked := c in s.registry.sessions && c !in s.streams && c !in s.registry.Execs();
      if s.registry.execsClosed && retracked then late + {c} else late
    case BecomesEvents(c) => if c in s.streams then late else late - {c}
    case Untracks(c) => if c in s.open then late else late - {c}
    case _ => late
  }

  /**
    The client connections that became exec sessions after the last collection of exec sessions, and
    have neither changed their kind nor been untracked since.
  */
  function Late(steps: seq<Step>): set<Conn> {
    if steps == [] then {}
    else LateNext(Late(steps[..|steps| - 1]), Run(steps[..|steps| - 1]), steps[|steps| - 1])
  }

  /** An open exec session was collected and is still to be closed, or it is late. */
  ghost predicate LateInv(s: State, late: set<Conn>) {
    && (forall c :: c in late ==> c in s.registry.Execs() && c !in s.streams)
    && (s.registry.execsClosed ==> forall c :: c in s.registry.Execs() && c in s.open ==> c in s.closing || c in late)
  }

  lemma {:induction false} LateKeepsInv(steps: seq<Step>)
    ensures LateInv(Run(steps), Late(steps))
    decreases |steps|
  {
    if steps != [] {
      var before, step := steps[..|steps| - 1], steps[|steps| - 1];
      LateKeepsInv(before);
      RunKeepsInv(before);
      LateStep(Run(before), Late(before), step);
    }
  }

  lemma LateStep(s: State, late: set<Conn>, step: Step)
    requires Inv(s) && LateInv(s, late)
    ensures LateInv(Next(s, step), LateNext(late, s, step))
  {
  }

  /**
    Once CloseExecs has closed what it collected, the exec sessions that are still open are exactly
    the client connections that became exec sessions after the collection and were not closed since.
    In every run, for every connection.
  */
  lemma SurvivesIffLate(steps: seq<Step>, c: Conn)
    requires Run(steps).registry.execsClosed && Run(steps).closing == {}
    ensures c in Run(steps).registry.Execs() && c in Run(steps).open <==> c in Late(steps) && c in Run(steps).open
    ensures c in Late(steps) ==> c !in Run(steps).streams && c !in Run(steps).opening
  {
    LateKeepsInv(steps);
    RunKeepsInv(steps);
  }

  /**
    There is such a connection in a short run, and it is late. Its handler cannot get a stream any more.
  */
  lemma LateExecClientSurvives(c: Conn)
    ensures var s := Run([Accepts(c), ShutsExecs, BecomesExec(c)]);
      && s.registry.execsClosed && s.closing == {}
      && c in s.open && c in s.registry.Execs()
    ensures Late([Accepts(c), ShutsExecs, BecomesExec(c)]) == {c}
  {
    var one, two, three := [Accepts(c)], [Accepts(c), ShutsExecs], [Accepts(c), ShutsExecs, BecomesExec(c)];
    assert one[..0] == [] && two[..1] == one && three[..2] == two;
    assert Run(one) == Next(INITIAL, Accepts(c));
    assert Run(two).closing == {} && Run(two).registry.execsClosed;
  }
}
