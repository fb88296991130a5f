/**
  The endpoint's registry of running processes (internal/endpoint/exec.go): the limit, and what
  happens to every process when the endpoint shuts down.

  Each region under the manager's lock is one step; handlers and the shutdown take steps in any order.
*/
module ExecManager {
  datatype Handler = Handler(number: nat)

  /** A handler after its registration. `Spawned`: the process runs, `started` has not been called yet. */
  datatype Progress = Registered | Spawned(pgid: nat) | Running(pgid: nat) | Finished

  /** What the manager stores: `running` holds the process group, 0 until started. */
  datatype Registry = Registry(closed: bool, running: map<Handler, nat>)

  /** The registry, how far every handler is, and whose process group was killed. */
  datatype State = State(registry: Registry, handlers: map<Handler, Progress>, killed: set<Handler>)

  datatype Step =
    | Registers(h: Handler)
    | Spawns(h: Handler, pgid: nat)
    | ReportsStart(h: Handler)
    | Returns(h: Handler)
    | Closes

  // ---------------------------------------------------------------- the regions

  function RegisterNext(r: Registry, limit: nat, h: Handler): Registry {
    if r.closed || |r.running| >= limit then r else r.(running := r.running[h := 0])
  }

  function StartedNext(r: Registry, h: Handler, pgid: nat): Registry {
    r.(running := r.running[h := pgid])
  }

  /** The processes that the shutdown kills. */
  function Snapshot(r: Registry): map<Handler, nat> {
    map h | h in r.running && r.running[h] > 0 :: r.running[h]
  }

  class Manager {
    const limit: nat
    var closed: bool
    var running: map<Handler, nat>

    function Current(): Registry
      reads this
    {
      Registry(closed, running)
    }

    constructor (limit: nat)
      ensures this.limit == limit && Current() == Registry(false, map[])
    {
      this.limit, closed, running := limit, false, map[];
    }

    method Register(h: Handler) returns (ok: bool)
      modifies `running
      ensures Current() == RegisterNext(old(Current()), limit, h)
      ensures ok <==> !closed && |old(running)| < limit
    {
      if closed { return false; }
      if |running| >= limit { return false; }
      running := running[h := 0];
      return true;
    }

    /** Records the process group; a handler that comes too late must kill it itself. */
    method Started(h: Handler, pgid: nat) returns (tooLate: bool)
      modifies `running
      ensures Current() == StartedNext(old(Current()), h, pgid) && tooLate == closed
    {
      running := running[h := pgid];
      tooLate := closed;
    }

    method Unregister(h: Handler)
      modifies `running
      ensures Current() == old(Current()).(running := old(running) - {h})
    {
      running := running - {h};
    }

    /** Closes the manager and collects every process group that it knows. */
    method CloseAll() returns (procs: map<Handler, nat>)
      modifies `closed
      ensures Current() == old(Current()).(closed := true)
      ensures procs == Snapshot(old(Current()))
    {
      closed := true;
      procs := map[];
      var rest := running.Keys;
      while rest != {}
        invariant rest <= running.Keys
        invariant procs == map h | h in running && h !in rest && running[h] > 0 :: running[h]
      {
        var h :| h in rest;
        if running[h] > 0 { procs := procs[h := running[h]]; }
        rest := rest - {h};
      }
    }
  }

  // ---------------------------------------------------------------- every interleaving

  const INITIAL := State(Registry(false, map[]), map[], {})

  predicate Is(s: State, h: Handler, p: Progress) {
    h in s.handlers && s.handlers[h] == p
  }

  /** A step that its handler cannot take leaves everything as it is. */
  function Next(s: State, limit: nat, step: Step): State {
    match step
    case Registers(h) =>
      var registry := RegisterNext(s.registry, limit, h);
      if h in s.handlers || registry == s.registry then s
      else State(registry, s.handlers[h := Registered], s.killed)
    case Spawns(h, pgid) =>
      if Is(s, h, Registered) && 0 < pgid then s.(handlers := s.handlers[h := Spawned(pgid)]) else s
    case ReportsStart(h) =>
      if h in s.handlers && s.handlers[h].Spawned? then
        var pgid := s.handlers[h].pgid;
        State(StartedNext(s.registry, h, pgid), s.handlers[h := Running(pgid)],
              if s.registry.closed then s.killed + {h} else s.killed)
      else s
    case Returns(h) =>
      if h in s.handlers && (s.handlers[h].Registered? || s.handlers[h].Running?) then
        State(s.registry.(running := s.registry.running - {h}), s.handlers[h := Finished], s.killed)
      else s
    case Closes =>
      State(s.registry.(closed := true), s.handlers, s.killed + Snapshot(s.registry).Keys)
  }

  function Run(limit: nat, steps: seq<Step>): State {
    if steps == [] then INITIAL else Next(Run(limit, steps[..|steps| - 1]), limit, steps[|steps| - 1])
  }

  /** The process group that the registry stores for a handler. */
  function Stored(p: Progress): nat {
    if p.Running? then p.pgid else 0
  }

  ghost predicate Inv(s: State, limit: nat) {
    && |s.registry.running| <= limit
    && (forall h :: h in s.registry.running <==> h in s.handlers && s.handlers[h] != Finished)
    && (forall h :: h in s.registry.running ==> s.registry.running[h] == Stored(s.handlers[h]))
    && (forall h :: h in s.handlers && s.handlers[h].Running? ==> 0 < s.handlers[h].pgid)
    && (forall h :: h in s.handlers && s.handlers[h].Spawned? ==> 0 < s.handlers[h].pgid)
    && (s.registry.closed ==> forall h :: h in s.handlers && s.handlers[h].Running? ==> h in s.killed)
  }

  lemma SizeWith(m: map<Handler, nat>, h: Handler, pgid: nat)
    ensures |m[h := pgid]| == if h in m then |m| else |m| + 1
  {
    if h in m {
      assert m[h := pgid].Keys == m.Keys;
    } else {
      assert m[h := pgid].Keys == m.Keys + {h};
    }
  }

  lemma SizeWithout(m: map<Handler, nat>, h: Handler)
    ensures |m - {h}| <= |m|
  {
    if h in m {
      assert m == (m - {h})[h := m[h]];
    } else {
      assert m - {h} == m;
    }
  }

  lemma RegistersKeepsInv(s: State, limit: nat, h: Handler)
    requires Inv(s, limit)
    ensures Inv(Next(s, limit, Registers(h)), limit)
  {
    SizeWith(s.registry.running, h, 0);
  }

  lemma SpawnsKeepsInv(s: State, limit: nat, h: Handler, pgid: nat)
    requires Inv(s, limit)
    ensures Inv(Next(s, limit, Spawns(h, pgid)), limit)
  {
  }

  lemma ReportsStartKeepsInv(s: State, limit: nat, h: Handler)
    requires Inv(s, limit)
    ensures Inv(Next(s, limit, ReportsStart(h)), limit)
  {
    if h in s.handlers && s.handlers[h].Spawned? {
      SizeWith(s.registry.running, h, s.handlers[h].pgid);
    }
  }

  lemma ReturnsKeepsInv(s: State, limit: nat, h: Handler)
    requires Inv(s, limit)
    ensures Inv(Next(s, limit, Returns(h)), limit)
  {
    SizeWithout(s.registry.running, h);
  }

  lemma ClosesKeepsInv(s: State, limit: nat)
    requires Inv(s, limit)
    ensures Inv(Next(s, limit, Closes), limit)
  {
  }

  lemma NextKeepsInv(s: State, limit: nat, step: Step)
    requires Inv(s, limit)
    ensures Inv(Next(s, limit, step), limit)
  {
    hide Inv, Next;
    match step {
      case Registers(h) => RegistersKeepsInv(s, limit, h);
      case Spawns(h, pgid) => SpawnsKeepsInv(s, limit, h, pgid);
      case ReportsStart(h) => ReportsStartKeepsInv(s, limit, h);
      case Returns(h) => ReturnsKeepsInv(s, limit, h);
      case Closes => ClosesKeepsInv(s, limit);
    }
  }

  lemma {:induction false} RunKeepsInv(limit: nat, steps: seq<Step>)
    ensures Inv(Run(limit, steps), limit)
    decreases |steps|
  {
    hide Inv, Next;
    if steps == [] {
      assert Inv(INITIAL, limit) by { InitialInv(limit); }
    } else {
      RunKeepsInv(limit, steps[..|steps| - 1]);
      NextKeepsInv(Run(limit, steps[..|steps| - 1]), limit, steps[|steps| - 1]);
    }
  }

  lemma InitialInv(limit: nat)
    ensures Inv(INITIAL, limit)
  {
  }

  /** In every interleaving at most `limit` handlers are between their registration and their return. */
  lemma LimitHolds(limit: nat, steps: seq<Step>)
    ensures var s := Run(limit, steps);
      |set h | h in s.handlers && s.handlers[h] != Finished| <= limit
  {
    RunKeepsInv(limit, steps);
    var s := Run(limit, steps);
    assert (set h | h in s.handlers && s.handlers[h] != Finished) == s.registry.running.Keys;
  }

  lemma StepCloses(s: State, limit: nat, step: Step)
    ensures Next(s, limit, step).registry.closed == (s.registry.closed || step.Closes?)
    ensures !s.registry.closed && s.killed == {} && !step.Closes? ==> Next(s, limit, step).killed == {}
  {
  }

  lemma {:induction false} ClosedIffCloses(limit: nat, steps: seq<Step>)
    ensures Run(limit, steps).registry.closed <==> exists i :: 0 <= i < |steps| && steps[i].Closes?
    ensures !Run(limit, steps).registry.closed ==> Run(limit, steps).killed == {}
    decreases |steps|
  {
    if steps != [] {
      hide Next;
      var before, step := steps[..|steps| - 1], steps[|steps| - 1];
      ClosedIffCloses(limit, before);
      StepCloses(Run(limit, before), limit, step);
      assert forall i :: 0 <= i < |steps| ==> steps[i] == if i < |before| then before[i] else step;
    }
  }

  /** The handlers between their registration and their return. */
  ghost function Active(s: State): set<Handler> {
    set h | h in s.handlers && s.handlers[h] != Finished
  }

  /**
    A handler is turned away only for a reason: in every interleaving it is admitted if and only if
    the manager was not closed and fewer than `limit` handlers are active. Nobody is killed before
    the manager is closed.
  */
  lemma AdmittedIff(limit: nat, steps: seq<Step>, h: Handler)
    requires h !in Run(limit, steps).handlers
    ensures var s := Run(limit, steps);
      h in Active(Next(s, limit, Registers(h)))
      <==> |Active(s)| < limit && forall i :: 0 <= i < |steps| ==> !steps[i].Closes?
    ensures (forall i :: 0 <= i < |steps| ==> !steps[i].Closes?) ==> Run(limit, steps).killed == {}
  {
    RunKeepsInv(limit, steps);
    ClosedIffCloses(limit, steps);
    hide Run;
    var s := Run(limit, steps);
    assert Active(s) == s.registry.running.Keys;
    assert h !in s.registry.running;
    assert h in s.registry.running[h := 0];
  }

  /**
    No process escapes a shutdown: in every interleaving, once the manager is closed, the handler of
    every process ever spawned has finished, or the process was killed, or its handler is about to
    report the start and will be told to kill it.
  */
  lemma NoneEscapes(limit: nat, steps: seq<Step>, h: Handler)
    requires Run(limit, steps).registry.closed
    requires h in Run(limit, steps).handlers && !Run(limit, steps).handlers[h].Registered?
    ensures var s := Run(limit, steps);
      || s.handlers[h] == Finished
      || h in s.killed
      || (s.handlers[h].Spawned? && h in Next(s, limit, ReportsStart(h)).killed)
  {
    RunKeepsInv(limit, steps);
  }

  /** A closed manager registers nobody. */
  lemma {:induction false} ClosedRegistersNobody(limit: nat, steps: seq<Step>, later: seq<Step>)
    requires Run(limit, steps).registry.closed
    ensures Run(limit, steps + later).registry.closed
    ensures Run(limit, steps + later).handlers.Keys == Run(limit, steps).handlers.Keys
    decreases |later|
  {
    if later == [] {
      assert steps + later == steps;
    } else {
      assert (steps + later)[..|steps + later| - 1] == steps + later[..|later| - 1];
      ClosedRegistersNobody(limit, steps, later[..|later| - 1]);
      ClosedStaysClosed(Run(limit, steps + later[..|later| - 1]), limit, later[|later| - 1]);
    }
  }

  lemma ClosedStaysClosed(s: State, limit: nat, step: Step)
    requires s.registry.closed
    ensures Next(s, limit, step).registry.closed && Next(s, limit, step).handlers.Keys == s.handlers.Keys
  {
  }
}
