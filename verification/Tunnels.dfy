/**
  The tunnel manager (internal/host/tunnel.go): which container ports are wanted, listened on,
  waiting for a retry, and in use by connections. Every method is one region under the lock.

  A retry callback is an operation that may run at any time and for any port: a timer that has
  already fired runs its callback after it was stopped, and then finds whatever the map holds now.
*/
module Tunnels {
  import opened Common

  /** A container port. */
  datatype Port = Port(number: int)

  type Conn = nat

  /** What the operating system answers to `listen`: on the same port, else on any free port. */
  datatype Attempt = Attempt(samePortFree: bool, otherPort: Option<nat>)

  function Bind(port: Port, a: Attempt): Option<int> {
    if a.samePortFree then Some(port.number) else if a.otherPort.Some? then Some(a.otherPort.value) else None
  }

  /** The local port of the first successful attempt for `port` in a list of reported ports. */
  function FirstBound(ports: seq<Port>, attempts: seq<Attempt>, port: Port): Option<int>
    requires |attempts| == |ports|
  {
    if ports == [] then None
    else if ports[0] == port && Bind(port, attempts[0]).Some? then Bind(port, attempts[0])
    else FirstBound(ports[1..], attempts[1..], port)
  }

  /** The manager's fields, with the timer map reduced to its ports. */
  datatype View = View(
    listeners: map<Port, int>,
    desired: set<Port>,
    timers: set<Port>,
    active: map<Port, set<Conn>>,
    closed: bool)
  {
    ghost function Connections(): set<Conn> {
      set p, c | p in active && c in active[p] :: c
    }
  }

  /**
    While open, the wanted ports are exactly those listened on and those waiting for a retry, and
    never both. Connections exist only for wanted ports. Once closed, nothing is retried and no
    connection is kept.
  */
  ghost predicate Partitioned(s: View) {
    && s.listeners.Keys <= s.desired
    && s.timers !! s.listeners.Keys
    && (!s.closed ==> s.listeners.Keys + s.timers == s.desired)
    && s.active.Keys <= s.desired
    && (forall p :: p in s.active ==> s.active[p] != {})
    && (s.closed ==> s.timers == {} && s.active == map[])
  }

  datatype Op =
    | Forward(port: Port, attempt: Attempt)
    | Stop(port: Port)
    | Update(ports: seq<Port>, attempts: seq<Attempt>)
    | Retry(port: Port, attempt: Attempt)
    | Register(port: Port, conn: Conn)
    | Unregister(port: Port, conn: Conn)
    | Close

  ghost predicate WellFormed(op: Op) {
    op.Update? ==> |op.attempts| == |op.ports|
  }

  function ToSet(ports: seq<Port>): set<Port> {
    set p | p in ports
  }

  /** A port is tried once: it is listened on, or waits for a retry unless the manager is closed. */
  function Tried(s: View, port: Port, a: Attempt): View {
    if port in s.listeners then s
    else if Bind(port, a).Some? then
      s.(listeners := s.listeners[port := Bind(port, a).value], timers := s.timers - {port})
    else if s.closed then s
    else s.(timers := s.timers + {port})
  }

  function Stopped(s: View, port: Port): View {
    s.(listeners := s.listeners - {port}, desired := s.desired - {port},
       timers := s.timers - {port}, active := s.active - {port})
  }

  /** Listeners that are still wanted stay; the other wanted ports are tried, and retried if that fails. */
  function Updated(s: View, ports: seq<Port>, attempts: seq<Attempt>): View
    requires |attempts| == |ports|
  {
    var wanted := ToSet(ports);
    var listeners := map p | p in wanted && (p in s.listeners || FirstBound(ports, attempts, p).Some?)
                       :: if p in s.listeners then s.listeners[p] else FirstBound(ports, attempts, p).value;
    s.(listeners := listeners, desired := wanted,
       timers := if s.closed then {} else wanted - listeners.Keys,
       active := map p | p in s.active && p in wanted :: s.active[p])
  }

  function Retried(s: View, port: Port, a: Attempt): View {
    var fired := s.(timers := s.timers - {port});
    if s.closed || port !in s.desired then fired else Tried(fired, port, a)
  }

  function Registered(s: View, port: Port, conn: Conn): View {
    if s.closed || port !in s.desired then s
    else s.(active := s.active[port := (if port in s.active then s.active[port] else {}) + {conn}])
  }

  function Unregistered(s: View, port: Port, conn: Conn): View {
    var rest := OnPort(s.active, port) - {conn};
    s.(active := if rest == {} then s.active - {port} else s.active[port := rest])
  }

  /** What each operation leaves behind. */
  function Next(s: View, op: Op): View
    requires WellFormed(op)
  {
    match op
    case Forward(port, a) => Tried(s.(desired := s.desired + {port}), port, a)
    case Stop(port) => Stopped(s, port)
    case Update(ports, attempts) => Updated(s, ports, attempts)
    case Retry(port, a) => Retried(s, port, a)
    case Register(port, conn) => Registered(s, port, conn)
    case Unregister(port, conn) => Unregistered(s, port, conn)
    case Close => s.(listeners := map[], timers := {}, active := map[], closed := true)
  }

  /** Every operation keeps the partition, also a callback of a timer that was stopped. */
  lemma NextKeepsPartition(s: View, op: Op)
    requires WellFormed(op) && Partitioned(s)
    ensures Partitioned(Next(s, op))
  {
    hide Updated, Unregistered, Retried;
    match op
    case Update(ports, attempts) => UpdatedIsPartitioned(s, ports, attempts);
    case Unregister(port, conn) => UnregisteredIsPartitioned(s, port, conn);
    case Retry(port, a) => RetriedIsPartitioned(s, port, a);
    case _ =>
  }

  lemma UpdatedIsPartitioned(s: View, ports: seq<Port>, attempts: seq<Attempt>)
    requires |attempts| == |ports| && Partitioned(s)
    ensures Partitioned(Updated(s, ports, attempts))
  {
  }

  lemma UnregisteredIsPartitioned(s: View, port: Port, conn: Conn)
    requires Partitioned(s)
    ensures Partitioned(Unregistered(s, port, conn))
  {
  }

  lemma RetriedIsPartitioned(s: View, port: Port, a: Attempt)
    requires Partitioned(s)
    ensures Partitioned(Retried(s, port, a))
  {
  }

  function Run(s: View, ops: seq<Op>): View
    requires forall i :: 0 <= i < |ops| ==> WellFormed(ops[i])
    decreases |ops|
  {
    if ops == [] then s else Next(Run(s, ops[..|ops| - 1]), ops[|ops| - 1])
  }

  const INITIAL := View(map[], {}, {}, map[], false)

  lemma {:induction false} EveryRunIsPartitioned(ops: seq<Op>)
    requires forall i :: 0 <= i < |ops| ==> WellFormed(ops[i])
    ensures Partitioned(Run(INITIAL, ops))
    decreases |ops|
  {
    if ops != [] {
      EveryRunIsPartitioned(ops[..|ops| - 1]);
      NextKeepsPartition(Run(INITIAL, ops[..|ops| - 1]), ops[|ops| - 1]);
    }
  }

  // ---------------------------------------------------------------- each port for itself

  /** All that concerns one port. */
  datatype PortState = PortState(desired: bool, listener: Option<int>, timer: bool, conns: set<Conn>, closed: bool)

  function PortOf(s: View, p: Port): PortState {
    PortState(p in s.desired, if p in s.listeners then Some(s.listeners[p]) else None, p in s.timers,
              if p in s.active then s.active[p] else {}, s.closed)
  }

  /** A listener stays; otherwise the same port is taken if it is free, or another one, or it is tried again later. */
  function Attempted(q: PortState, p: Port, a: Attempt): PortState {
    if q.listener.Some? then q
    else if a.samePortFree then q.(listener := Some(p.number), timer := false)
    else if a.otherPort.Some? then q.(listener := a.otherPort, timer := false)
    else q.(timer := q.timer || !q.closed)
  }

  function AttemptedAll(q: PortState, p: Port, ports: seq<Port>, attempts: seq<Attempt>): PortState
    requires |attempts| == |ports|
    decreases |ports|
  {
    if ports == [] then q
    else AttemptedAll(if ports[0] == p then Attempted(q, p, attempts[0]) else q, p, ports[1..], attempts[1..])
  }

  function Unwanted(closed: bool): PortState {
    PortState(false, None, false, {}, closed)
  }

  /** What an operation means for one port, whatever happens to the others. */
  function PortNext(q: PortState, p: Port, op: Op): PortState
    requires WellFormed(op)
  {
    match op
    case Forward(port, a) => if port == p then Attempted(q.(desired := true), p, a) else q
    case Stop(port) => if port == p then Unwanted(q.closed) else q
    case Update(ports, attempts) =>
      if p in ports then AttemptedAll(q.(desired := true), p, ports, attempts) else Unwanted(q.closed)
    case Retry(port, a) =>
      if port != p then q
      else if q.closed || !q.desired then q.(timer := false)
      else Attempted(q.(timer := false), p, a)
    case Register(port, conn) => if port == p && q.desired && !q.closed then q.(conns := q.conns + {conn}) else q
    case Unregister(port, conn) => if port == p then q.(conns := q.conns - {conn}) else q
    case Close => PortState(q.desired, None, false, {}, true)
  }

  function PortRun(p: Port, ops: seq<Op>): PortState
    requires forall i :: 0 <= i < |ops| ==> WellFormed(ops[i])
    decreases |ops|
  {
    if ops == [] then Unwanted(false) else PortNext(PortRun(p, ops[..|ops| - 1]), p, ops[|ops| - 1])
  }

  lemma {:induction false} AttemptedInOrder(q: PortState, p: Port, ports: seq<Port>, attempts: seq<Attempt>)
    requires |attempts| == |ports|
    ensures var r, bound := AttemptedAll(q, p, ports, attempts), FirstBound(ports, attempts, p);
      && r.desired == q.desired && r.conns == q.conns && r.closed == q.closed
      && r.listener == (if q.listener.Some? then q.listener else bound)
      && (q.listener.Some? || p !in ports ==> r == q)
      && (q.listener.None? && bound.Some? ==> !r.timer)
      && (q.listener.None? && bound.None? && p in ports ==> r.timer == (q.timer || !q.closed))
    decreases |ports|
  {
    if ports != [] {
      AttemptedInOrder(if ports[0] == p then Attempted(q, p, attempts[0]) else q, p, ports[1..], attempts[1..]);
    }
  }

  lemma UpdateEachForItself(s: View, p: Port, ports: seq<Port>, attempts: seq<Attempt>)
    requires |attempts| == |ports| && Partitioned(s)
    ensures PortOf(Updated(s, ports, attempts), p) == PortNext(PortOf(s, p), p, Update(ports, attempts))
  {
    AttemptedInOrder(PortOf(s, p).(desired := true), p, ports, attempts);
    hide FirstBound, AttemptedAll;
    assert p in ToSet(ports) <==> p in ports;
  }

  lemma NextEachForItself(s: View, p: Port, op: Op)
    requires WellFormed(op) && Partitioned(s)
    ensures PortOf(Next(s, op), p) == PortNext(PortOf(s, p), p, op)
  {
    hide Updated, Registered, Unregistered, Partitioned, AttemptedAll;
    match op
    case Update(ports, attempts) => UpdateEachForItself(s, p, ports, attempts);
    case Register(port, conn) => RegisterEachForItself(s, p, port, conn);
    case Unregister(port, conn) => UnregisterEachForItself(s, p, port, conn);
    case Retry(port, a) => RetryEachForItself(s, p, port, a);
    case _ =>
  }

  lemma RegisterEachForItself(s: View, p: Port, port: Port, conn: Conn)
    ensures PortOf(Registered(s, port, conn), p) == PortNext(PortOf(s, p), p, Register(port, conn))
  {
  }

  lemma UnregisterEachForItself(s: View, p: Port, port: Port, conn: Conn)
    ensures PortOf(Unregistered(s, port, conn), p) == PortNext(PortOf(s, p), p, Unregister(port, conn))
  {
  }

  lemma RetryEachForItself(s: View, p: Port, port: Port, a: Attempt)
    ensures PortOf(Retried(s, port, a), p) == PortNext(PortOf(s, p), p, Retry(port, a))
  {
  }

  /** After any operations, every port is where its own operations and the closing of the manager have left it. */
  lemma {:induction false} EachPortForItself(p: Port, ops: seq<Op>)
    requires forall i :: 0 <= i < |ops| ==> WellFormed(ops[i])
    ensures PortOf(Run(INITIAL, ops), p) == PortRun(p, ops)
    decreases |ops|
  {
    if ops != [] {
      var before := ops[..|ops| - 1];
      EachPortForItself(p, before);
      EveryRunIsPartitioned(before);
      hide Partitioned, Next, PortNext;
      NextEachForItself(Run(INITIAL, before), p, ops[|ops| - 1]);
    }
  }

  /** The operation binds a listener for some port. */
  ghost predicate BindsSome(op: Op)
    requires WellFormed(op)
  {
    match op
    case Forward(port, a) => Bind(port, a).Some?
    case Update(ports, attempts) => exists k :: 0 <= k < |ports| && Bind(ports[k], attempts[k]).Some?
    case _ => false
  }

  /**
    Closing does not end listening for good: `ForwardPort` and `UpdatePorts` never look at `closed`,
    so a closed manager listens again exactly when one of them can bind a port. A retry cannot.
  */
  lemma ClosedManagerListensAgainIff(s: View, op: Op)
    requires WellFormed(op) && Partitioned(s) && s.closed && s.listeners == map[]
    ensures Next(s, op).closed
    ensures Next(s, op).listeners != map[] <==> BindsSome(op)
  {
    match op
    case Forward(port, a) =>
      assert port in s.listeners[port := 0];
      if BindsSome(op) {
        assert port in Next(s, op).listeners;
      }
    case Update(ports, attempts) =>
      FirstBoundIffSome(ports, attempts);
      if BindsSome(op) {
        var p :| FirstBound(ports, attempts, p).Some? && p in ports;
        assert p in Next(s, op).listeners;
      } else {
        assert Next(s, op).listeners.Keys == {};
      }
    case _ =>
  }

  lemma {:induction false} FirstBoundIffSome(ports: seq<Port>, attempts: seq<Attempt>)
    requires |attempts| == |ports|
    ensures (exists k :: 0 <= k < |ports| && Bind(ports[k], attempts[k]).Some?)
       <==> (exists p :: p in ports && FirstBound(ports, attempts, p).Some?)
    decreases |ports|
  {
    if ports != [] {
      FirstBoundIffSome(ports[1..], attempts[1..]);
      if k :| 0 <= k < |ports| && Bind(ports[k], attempts[k]).Some? {
        if k == 0 {
          assert FirstBound(ports, attempts, ports[0]).Some?;
        } else {
          assert Bind(ports[1..][k - 1], attempts[1..][k - 1]).Some?;
          var p :| p in ports[1..] && FirstBound(ports[1..], attempts[1..], p).Some?;
          assert FirstBound(ports, attempts, p).Some?;
        }
      }
      if p :| p in ports && FirstBound(ports, attempts, p).Some? {
        if !(ports[0] == p && Bind(p, attempts[0]).Some?) {
          FirstBoundInPorts(ports[1..], attempts[1..]);
          assert p in ports[1..] && FirstBound(ports[1..], attempts[1..], p).Some?;
          var k :| 0 <= k < |ports[1..]| && Bind(ports[1..][k], attempts[1..][k]).Some?;
          assert Bind(ports[k + 1], attempts[k + 1]).Some?;
        } else {
          assert Bind(ports[0], attempts[0]).Some?;
        }
      }
    }
  }

  /** A port report that arrives after Close is forwarded again. */
  lemma ReportAfterCloseIsForwarded()
    ensures var ops := [Close, Update([Port(8080)], [Attempt(true, None)])];
            Run(INITIAL, ops).closed && Run(INITIAL, ops).listeners == map[Port(8080) := 8080]
  {
    var ports, attempts := [Port(8080)], [Attempt(true, None)];
    var ops := [Close, Update(ports, attempts)];
    assert ops[..1] == [Close] && [Close][..0] == [];
    var closed := INITIAL.(closed := true);
    assert Run(INITIAL, [Close]) == closed;
    assert FirstBound(ports, attempts, Port(8080)) == Some(8080);
    assert Next(closed, Update(ports, attempts)).listeners == map[Port(8080) := 8080];
  }

  /** `listeners` after trying the first ports of a report. */
  ghost predicate TriedSome(ports: seq<Port>, attempts: seq<Attempt>, before: map<Port, int>, after: map<Port, int>)
    requires |attempts| == |ports|
  {
    && (forall p :: p in before ==> p in after && after[p] == before[p])
    && (forall p :: p !in before ==>
          && (p in after <==> FirstBound(ports, attempts, p).Some?)
          && (p in after ==> after[p] == FirstBound(ports, attempts, p).value))
  }

  function OnPort(active: map<Port, set<Conn>>, port: Port): set<Conn> {
    if port in active then active[port] else {}
  }

  /** Every connection is in the map under its port, or has left it on exactly one path. */
  ghost predicate Booked(active: map<Port, set<Conn>>, registered: map<Conn, Port>, taken: set<Conn>, released: set<Conn>) {
    && (forall p, c :: p in active && c in active[p] ==> c in registered && registered[c] == p)
    && (forall c :: c in registered ==> (c in taken || c in released <==> c !in OnPort(active, registered[c])))
    && taken + released <= registered.Keys && taken !! released
  }

  /** Connections that the manager takes out and closes stay booked. */
  lemma TakingKeepsBooks(active: map<Port, set<Conn>>, registered: map<Conn, Port>, taken: set<Conn>,
                         released: set<Conn>, ports: set<Port>, connections: set<Conn>)
    requires Booked(active, registered, taken, released)
    requires connections == set p, c | p in ports && p in active && c in active[p] :: c
    ensures Booked(active - ports, registered, taken + connections, released)
  {
    forall c | c in registered
      ensures c in connections <==> registered[c] in ports && c in OnPort(active, registered[c])
      ensures c in OnPort(active - ports, registered[c]) <==> registered[c] !in ports && c in OnPort(active, registered[c])
    {
    }
  }

  lemma TakingOneKeepsBooks(active: map<Port, set<Conn>>, registered: map<Conn, Port>, taken: set<Conn>,
                            released: set<Conn>, port: Port)
    requires Booked(active, registered, taken, released)
    ensures Booked(active - {port}, registered, taken + OnPort(active, port), released)
  {
    var connections := set p, c | p in {port} && p in active && c in active[p] :: c;
    forall c ensures c in connections <==> c in OnPort(active, port) {
      if c in OnPort(active, port) {
        assert port in {port} && port in active && c in active[port];
      }
    }
    assert connections == OnPort(active, port);
    TakingKeepsBooks(active, registered, taken, released, {port}, connections);
  }

  lemma ReleasingKeepsBooks(active: map<Port, set<Conn>>, registered: map<Conn, Port>, taken: set<Conn>,
                            released: set<Conn>, port: Port, conn: Conn)
    requires Booked(active, registered, taken, released)
    ensures var rest, gone := OnPort(active, port) - {conn}, OnPort(active, port) * {conn};
            && (rest == {} ==> Booked(active - {port}, registered, taken, released + gone))
            && (rest != {} ==> Booked(active[port := rest], registered, taken, released + gone))
  {
    var rest, gone := OnPort(active, port) - {conn}, OnPort(active, port) * {conn};
    assert rest == {} ==> gone == OnPort(active, port);
  }

  lemma DropAll<K, V>(m: map<K, V>)
    ensures m - m.Keys == map[]
  {
  }

  lemma ConnectionsOfAll(s: View)
    ensures s.Connections() == set p, c | p in s.active.Keys && p in s.active && c in s.active[p] :: c
  {
  }

  class TunnelManager {
    var listeners: map<Port, int>    // container port -> local port
    var desiredPorts: set<Port>
    var retryTimers: map<Port, nat>
    var activeConns: map<Port, set<Conn>>
    var closed: bool
    var nextTimer: nat

    ghost var sockets: map<Port, int>      // listening sockets that are open
    ghost var registered: map<Conn, Port>  // every connection ever put into the map
    ghost var taken: set<Conn>             // taken out and closed by the manager
    ghost var released: set<Conn>          // taken out by their own handler

    ghost function V(): View
      reads this
    {
      View(listeners, desiredPorts, retryTimers.Keys, activeConns, closed)
    }

    ghost predicate Valid()
      reads this
    {
      && Partitioned(V())
      && SocketsValid()
      && ConnsValid()
    }

    /** A listening socket is open exactly while it is in the map. */
    ghost predicate SocketsValid()
      reads this
    {
      sockets == listeners
    }

    ghost predicate ConnsValid()
      reads this
    {
      Booked(activeConns, registered, taken, released)
    }

    function On(port: Port): set<Conn>
      reads this
    {
      OnPort(activeConns, port)
    }

    constructor ()
      ensures Valid() && V() == INITIAL && registered == map[]
    {
      listeners, desiredPorts, retryTimers, activeConns := map[], {}, map[], map[];
      closed, nextTimer := false, 0;
      sockets, registered, taken, released := map[], map[], {}, {};
    }

    /** Listens for `port` unless that is done already. */
    method ForwardPortLocked(port: Port, a: Attempt) returns (ok: bool)
      requires SocketsValid()
      modifies this`listeners, this`retryTimers, this`sockets
      ensures SocketsValid()
      ensures ok <==> port in old(listeners) || Bind(port, a).Some?
      ensures listeners == if port !in old(listeners) && ok then old(listeners)[port := Bind(port, a).value] else old(listeners)
      ensures retryTimers == if port !in old(listeners) && ok then old(retryTimers) - {port} else old(retryTimers)
    {
      if port in listeners {
        return true;
      }
      var local := port.number;
      if !a.samePortFree {
        if a.otherPort.None? {
          return false;
        }
        local := a.otherPort.value;
      }
      sockets := sockets[port := local];
      listeners := listeners[port := local];
      if port in retryTimers {
        retryTimers := retryTimers - {port};
      }
      ok := true;
    }

    method ScheduleRetryLocked(port: Port)
      modifies this`retryTimers, this`nextTimer
      ensures retryTimers.Keys == old(retryTimers).Keys + if !closed && port in desiredPorts then {port} else {}
      ensures forall p :: p in old(retryTimers) ==> retryTimers[p] == old(retryTimers)[p]
    {
      if closed || port in retryTimers {
        return;
      }
      if port !in desiredPorts {
        return;
      }
      retryTimers := retryTimers[port := nextTimer];
      nextTimer := nextTimer + 1;
    }

    method ForwardPort(port: Port, a: Attempt) returns (ok: bool)
      requires Valid()
      modifies this`listeners, this`desiredPorts, this`retryTimers, this`nextTimer, this`sockets
      ensures Valid() && V() == Next(old(V()), Forward(port, a))
      ensures ok <==> port in listeners
    {
      NextKeepsPartition(V(), Forward(port, a));
      hide Partitioned, Booked;
      desiredPorts := desiredPorts + {port};
      ok := ForwardPortLocked(port, a);
      if !ok {
        ScheduleRetryLocked(port);
      }
    }

    method TakeActiveLocked(port: Port) returns (result: set<Conn>)
      modifies this`activeConns
      ensures result == old(On(port))
      ensures activeConns == old(activeConns) - {port}
    {
      result := if port in activeConns then activeConns[port] else {};
      activeConns := activeConns - {port};
    }

    method CloseConnections(connections: set<Conn>)
      modifies this`taken
      ensures taken == old(taken) + connections
    {
      taken := taken + connections;
    }

    method StopForwarding(port: Port)
      requires Valid()
      modifies this`listeners, this`desiredPorts, this`retryTimers, this`activeConns, this`sockets, this`taken
      ensures Valid() && V() == Next(old(V()), Stop(port))
      ensures taken == old(taken) + old(On(port))
    {
      hide Partitioned, Booked;
      NextKeepsPartition(V(), Stop(port));
      TakingOneKeepsBooks(activeConns, registered, taken, released, port);
      if port in listeners {
        sockets := sockets - {port};
        listeners := listeners - {port};
      }
      desiredPorts := desiredPorts - {port};
      retryTimers := retryTimers - {port};
      var connections := TakeActiveLocked(port);
      CloseConnections(connections);
      assert listeners == old(listeners) - {port};
      assert retryTimers.Keys == old(retryTimers).Keys - {port};
    }

    /** The callback of a retry timer, possibly one that was stopped too late. */
    method RetryCallback(port: Port, a: Attempt)
      requires Valid()
      modifies this`listeners, this`retryTimers, this`nextTimer, this`sockets
      ensures Valid() && V() == Next(old(V()), Retry(port, a))
    {
      NextKeepsPartition(V(), Retry(port, a));
      hide Partitioned, Booked;
      retryTimers := retryTimers - {port};
      if closed {
        return;
      }
      if port !in desiredPorts {
        return;
      }
      var ok := ForwardPortLocked(port, a);
      if !ok {
        ScheduleRetryLocked(port);
      }
    }

    method RegisterConnection(port: Port, conn: Conn) returns (ok: bool)
      requires Valid() && conn !in registered
      modifies this`activeConns, this`registered
      ensures Valid() && V() == Next(old(V()), Register(port, conn))
      ensures ok <==> !closed && port in desiredPorts
      ensures registered == if ok then old(registered)[conn := port] else old(registered)
    {
      if closed {
        return false;
      }
      if port !in desiredPorts {
        return false;
      }
      var connections := if port in activeConns then activeConns[port] else {};
      activeConns := activeConns[port := connections + {conn}];
      registered := registered[conn := port];
      ok := true;
    }

    /** A handler is done with its connection, which the manager may have taken meanwhile. */
    method UnregisterConnection(port: Port, conn: Conn)
      requires Valid()
      modifies this`activeConns, this`released
      ensures Valid() && V() == Next(old(V()), Unregister(port, conn))
      ensures released == old(released) + (old(On(port)) * {conn})
    {
      NextKeepsPartition(V(), Unregister(port, conn));
      ReleasingKeepsBooks(activeConns, registered, taken, released, port, conn);
      hide Partitioned, Booked;
      released := released + On(port) * {conn};
      var connections := On(port) - {conn};
      if connections == {} {
        activeConns := activeConns - {port};
      } else {
        activeConns := activeConns[port := connections];
      }
    }

    method Close()
      requires Valid()
      modifies this`closed, this`listeners, this`retryTimers, this`activeConns, this`sockets, this`taken
      ensures Valid() && V() == Next(old(V()), Op.Close)
      ensures taken == old(taken) + old(V()).Connections() && sockets == map[]
    {
      hide Partitioned, Booked;
      NextKeepsPartition(V(), Op.Close);
      ConnectionsOfAll(V());
      TakingKeepsBooks(activeConns, registered, taken, released, activeConns.Keys, V().Connections());
      DropAll(listeners);
      DropAll(retryTimers);
      DropAll(activeConns);
      closed := true;
      CancelRetries(retryTimers.Keys);
      CloseListeners(listeners.Keys);
      var connections := TakeAll(activeConns.Keys);
      CloseConnections(connections);
      assert listeners == map[] && retryTimers.Keys == {} && activeConns == map[];
    }

    method CancelRetries(ports: set<Port>)
      modifies this`retryTimers
      ensures retryTimers == old(retryTimers) - ports
    {
      var todo := ports;
      while todo != {}
        invariant todo <= ports && retryTimers == old(retryTimers) - (ports - todo)
        decreases |todo|
      {
        var port :| port in todo;
        retryTimers := retryTimers - {port};
        todo := todo - {port};
      }
    }

    method CloseListeners(ports: set<Port>)
      requires SocketsValid() && ports <= listeners.Keys
      modifies this`listeners, this`sockets
      ensures SocketsValid() && listeners == old(listeners) - ports
    {
      var todo := ports;
      while todo != {}
        invariant todo <= ports && listeners == old(listeners) - (ports - todo)
        invariant SocketsValid()
        decreases |todo|
      {
        var port :| port in todo;
        sockets := sockets - {port};
        listeners := listeners - {port};
        todo := todo - {port};
      }
    }

    method TakeAll(ports: set<Port>) returns (connections: set<Conn>)
      modifies this`activeConns
      ensures activeConns == old(activeConns) - ports
      ensures connections == set p, c | p in ports && p in old(activeConns) && c in old(activeConns)[p] :: c
    {
      connections := {};
      var todo := ports;
      while todo != {}
        invariant todo <= ports && activeConns == old(activeConns) - (ports - todo)
        invariant connections == set p, c | p in ports - todo && p in old(activeConns) && c in old(activeConns)[p] :: c
        decreases |todo|
      {
        var port :| port in todo;
        var more := TakeActiveLocked(port);
        connections := connections + more;
        todo := todo - {port};
      }
    }

    method UpdatePorts(ports: seq<Port>, attempts: seq<Attempt>)
      requires Valid() && |attempts| == |ports|
      modifies this`listeners, this`desiredPorts, this`retryTimers, this`nextTimer, this`activeConns, this`sockets, this`taken
      ensures Valid() && V() == Next(old(V()), Update(ports, attempts))
      ensures taken == old(taken) + set p, c | p in old(activeConns) && p !in ToSet(ports) && c in old(activeConns)[p] :: c
    {
      NextKeepsPartition(V(), Update(ports, attempts));
      hide Partitioned, Booked, TriedSome;
      ghost var before := V();
      var newPortSet := MakeSet(ports);
      desiredPorts := newPortSet;
      var connections := DropUnwanted(newPortSet);
      ghost var kept := listeners;
      TryAll(ports, attempts);
      CloseConnections(connections);
      UpdateAssembles(before, ports, attempts, kept, listeners);
      assert retryTimers.Keys == Updated(before, ports, attempts).timers by {
        TimersAssemble(before, ports, attempts, kept, listeners, retryTimers.Keys);
      }
    }

    /** Closes the listeners and forgets the retries of ports that are no longer wanted, and takes their connections. */
    method DropUnwanted(newPortSet: set<Port>) returns (connections: set<Conn>)
      requires SocketsValid() && ConnsValid()
      modifies this`listeners, this`retryTimers, this`activeConns, this`sockets
      ensures SocketsValid()
      ensures listeners == old(listeners) - (old(listeners).Keys - newPortSet)
      ensures retryTimers.Keys == old(retryTimers).Keys * newPortSet
      ensures activeConns == map p | p in old(activeConns) && p in newPortSet :: old(activeConns)[p]
      ensures connections == set p, c | p in old(activeConns) && p !in newPortSet && c in old(activeConns)[p] :: c
      ensures Booked(activeConns, registered, taken + connections, released)
    {
      var gone := activeConns.Keys - newPortSet;
      ghost var lost := set p, c | p in gone && p in activeConns && c in activeConns[p] :: c;
      TakingKeepsBooks(activeConns, registered, taken, released, gone, lost);
      hide Booked;
      CloseListeners(listeners.Keys - newPortSet);
      connections := TakeAll(gone);
      CancelRetries(retryTimers.Keys - newPortSet);
    }

    method MakeSet(ports: seq<Port>) returns (r: set<Port>)
      ensures r == ToSet(ports)
    {
      r := {};
      for k := 0 to |ports|
        invariant r == ToSet(ports[..k])
      {
        r := r + {ports[k]};
      }
      assert ports[..|ports|] == ports;
    }

    /** One reported port: kept, bound, or left to a retry. */
    method TryOne(port: Port, a: Attempt)
      requires SocketsValid() && port in desiredPorts
      modifies this`listeners, this`retryTimers, this`nextTimer, this`sockets
      ensures SocketsValid()
      ensures listeners == if port !in old(listeners) && Bind(port, a).Some? then old(listeners)[port := Bind(port, a).value]
                           else old(listeners)
      ensures retryTimers.Keys == if port in old(listeners) then old(retryTimers).Keys
                                  else if port in listeners then old(retryTimers).Keys - {port}
                                  else old(retryTimers).Keys + if closed then {} else {port}
    {
      if port !in listeners {
        var ok := ForwardPortLocked(port, a);
        if !ok {
          ScheduleRetryLocked(port);
        }
      }
    }

    method TryAll(ports: seq<Port>, attempts: seq<Attempt>)
      requires |attempts| == |ports| && SocketsValid() && ToSet(ports) <= desiredPorts
      modifies this`listeners, this`retryTimers, this`nextTimer, this`sockets
      ensures SocketsValid()
      ensures TriedSome(ports, attempts, old(listeners), listeners)
      ensures retryTimers.Keys == TimersAfter(old(retryTimers).Keys, old(listeners).Keys, listeners.Keys, ToSet(ports), closed)
    {
      hide TriedSome, TimersAfter;
      TimersFirst(retryTimers.Keys, listeners.Keys, closed);
      TriedNone(listeners, listeners);
      for k := 0 to |ports|
        invariant SocketsValid()
        invariant TriedSome(ports[..k], attempts[..k], old(listeners), listeners)
        invariant old(listeners).Keys <= listeners.Keys
        invariant ToSet(ports[..k]) <= desiredPorts
        invariant retryTimers.Keys
               == TimersAfter(old(retryTimers).Keys, old(listeners).Keys, listeners.Keys, ToSet(ports[..k]), closed)
      {
        assert ports[..k + 1] == ports[..k] + [ports[k]] && attempts[..k + 1] == attempts[..k] + [attempts[k]];
        assert ToSet(ports[..k + 1]) == ToSet(ports[..k]) + {ports[k]};
        TriedOne(ports[..k], attempts[..k], ports[k], attempts[k], old(listeners), listeners);
        TimersNext(old(retryTimers).Keys, old(listeners).Keys, listeners.Keys, ToSet(ports[..k]), closed, ports[k]);
        assert ports[k] in ToSet(ports);
        ghost var was := listeners.Keys;
        TryOne(ports[k], attempts[k]);
        assert listeners.Keys == if ports[k] in listeners then was + {ports[k]} else was;
        assert ports[k] in was ==> was + {ports[k]} == was;
      }
      assert ports[..|ports|] == ports && attempts[..|ports|] == attempts;
    }
  }

  /** The timers after some reported ports were tried: new listeners need none, unbound ports get one unless closed. */
  function TimersAfter(timers: set<Port>, before: set<Port>, after: set<Port>, tried: set<Port>, closed: bool): set<Port> {
    timers - (after - before) + if closed then {} else tried - after
  }

  lemma TimersFirst(timers: set<Port>, listeners: set<Port>, closed: bool)
    ensures TimersAfter(timers, listeners, listeners, ToSet([]), closed) == timers
  {
  }

  lemma TimersNext(timers: set<Port>, before: set<Port>, after: set<Port>, tried: set<Port>, closed: bool, port: Port)
    requires before <= after
    ensures var now, tried' := TimersAfter(timers, before, after, tried, closed), tried + {port};
      && (port in after ==> TimersAfter(timers, before, after, tried', closed) == now)
      && (port !in after ==> TimersAfter(timers, before, after + {port}, tried', closed) == now - {port})
      && (port !in after ==> TimersAfter(timers, before, after, tried', closed) == now + if closed then {} else {port})
  {
  }

  /** The steps of an update, put together, leave what an update must leave. */
  lemma UpdateAssembles(s: View, ports: seq<Port>, attempts: seq<Attempt>, kept: map<Port, int>, after: map<Port, int>)
    requires |attempts| == |ports|
    requires kept == s.listeners - (s.listeners.Keys - ToSet(ports))
    requires TriedSome(ports, attempts, kept, after)
    ensures Updated(s, ports, attempts).listeners == after
    ensures after.Keys <= ToSet(ports)
  {
    FirstBoundInPorts(ports, attempts);
    var updated := Updated(s, ports, attempts).listeners;
    forall p ensures p in after <==> p in updated {
    }
    forall p | p in after ensures after[p] == updated[p] {
    }
  }

  lemma TimersAssemble(s: View, ports: seq<Port>, attempts: seq<Attempt>, kept: map<Port, int>,
                       after: map<Port, int>, timers: set<Port>)
    requires |attempts| == |ports| && Partitioned(s)
    requires kept == s.listeners - (s.listeners.Keys - ToSet(ports))
    requires Updated(s, ports, attempts).listeners == after
    requires timers == s.timers * ToSet(ports) - (after.Keys - kept.Keys)
                     + if s.closed then {} else ToSet(ports) - after.Keys
    ensures timers == Updated(s, ports, attempts).timers
  {
  }

  lemma TriedNone(before: map<Port, int>, after: map<Port, int>)
    requires after == before
    ensures TriedSome([], [], before, after)
  {
  }

  lemma TriedOne(ports: seq<Port>, attempts: seq<Attempt>, port: Port, a: Attempt,
                 before: map<Port, int>, mid: map<Port, int>)
    requires |attempts| == |ports| && TriedSome(ports, attempts, before, mid)
    ensures TriedSome(ports + [port], attempts + [a], before,
                      if port !in mid && Bind(port, a).Some? then mid[port := Bind(port, a).value] else mid)
  {
    FirstBoundSnoc(ports, attempts, port, a);
  }

  lemma {:induction false} FirstBoundInPorts(ports: seq<Port>, attempts: seq<Attempt>)
    requires |attempts| == |ports|
    ensures forall p :: FirstBound(ports, attempts, p).Some? ==> p in ports
    decreases |ports|
  {
    if ports != [] {
      FirstBoundInPorts(ports[1..], attempts[1..]);
    }
  }

  lemma {:induction false} FirstBoundSnoc(ports: seq<Port>, attempts: seq<Attempt>, last: Port, a: Attempt)
    requires |attempts| == |ports|
    ensures forall p :: FirstBound(ports + [last], attempts + [a], p)
              == if FirstBound(ports, attempts, p).Some? then FirstBound(ports, attempts, p)
                 else if p == last then Bind(p, a) else None
    decreases |ports|
  {
    if ports == [] {
      assert [last][1..] == [] && [a][1..] == [];
      assert ports + [last] == [last] && attempts + [a] == [a];
    } else {
      assert (ports + [last])[1..] == ports[1..] + [last] && (attempts + [a])[1..] == attempts[1..] + [a];
      FirstBoundSnoc(ports[1..], attempts[1..], last, a);
    }
  }
}
