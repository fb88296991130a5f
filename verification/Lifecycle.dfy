/**
  The life of one instance (internal/host/instancerun.go): the states it publishes, how it stops,
  when it serves exec requests, and how long it tries to reconnect.

  Between any two steps of the instance the world moves: a client or a signal asks it to stop, or
  the bridge fails. What holds whenever the world can move holds at every moment of every run.
*/
module Lifecycle {
  import opened Readiness

  datatype Reason = NoReason | BridgeLost | StopRequested | Signal | ContainerStopped | Failure

  datatype Entry = Entry(phase: Phase, reason: Reason)

  // ---------------------------------------------------------------- the published states

  /** Which state may be published after which. */
  predicate Follows(a: Phase, b: Phase) {
    match a
    case Starting => b in {Connecting, Stopping, Failed}
    case Connecting => b in {Ready, Stopping}
    case Ready => b in {Reconnecting, Stopping}
    case Reconnecting => b in {Ready, Stopping}
    case Stopping => b in {Stopped, Failed}
    case Stopped => false
    case Failed => false
  }

  ghost predicate IsHistory(events: seq<Entry>) {
    && events != [] && events[0].phase == Starting
    && forall i :: 0 <= i < |events| - 1 ==> Follows(events[i].phase, events[i + 1].phase)
  }

  function Phases(events: seq<Entry>): seq<Phase> {
    seq(|events|, i requires 0 <= i < |events| => events[i].phase)
  }

  lemma PhasesSnoc(events: seq<Entry>, entry: Entry)
    ensures Phases(events + [entry]) == Phases(events) + [entry.phase]
    ensures Phases([]) == []
  {
  }

  /** Ready, reconnecting, ready, and so on. */
  function Alternating(n: nat): seq<Phase> {
    if n == 0 then [] else Alternating(n - 1) + [if n % 2 == 1 then Ready else Reconnecting]
  }

  function Reconnections(events: seq<Entry>): nat {
    if events == [] then 0
    else Reconnections(events[..|events| - 1]) + if events[|events| - 1].phase == Reconnecting then 1 else 0
  }

  lemma ReconnectionsSnoc(events: seq<Entry>, entry: Entry)
    ensures Reconnections(events + [entry]) == Reconnections(events) + if entry.phase == Reconnecting then 1 else 0
  {
    assert (events + [entry])[..|events|] == events;
  }

  lemma StartsOnce(events: seq<Entry>)
    requires IsHistory(events)
    ensures forall i :: 0 < i < |events| ==> events[i].phase != Starting
  {
    forall i | 0 < i < |events| ensures events[i].phase != Starting {
      assert Follows(events[i - 1].phase, events[i].phase);
    }
  }

  /** The history of an instance that does not stop, which is determined by its length. */
  ghost predicate IsRunning(events: seq<Entry>) {
    && |events| >= 2
    && Phases(events) == [Starting, Connecting] + Alternating(|events| - 2)
    && Reconnections(events) == (|events| - 2) / 2
    && events[|events| - 1].phase == LastRunning(|events|)
  }

  function LastRunning(n: nat): Phase {
    if n == 2 then Connecting else if n % 2 == 1 then Ready else Reconnecting
  }

  lemma FirstRunning(a: Entry, b: Entry)
    requires a.phase == Starting && b.phase == Connecting
    ensures IsRunning([a, b])
  {
    assert [a, b] == [a] + [b] && [a] == [] + [a];
    ReconnectionsSnoc([], a);
    ReconnectionsSnoc([a], b);
    assert Phases([a, b]) == [Starting, Connecting] + Alternating(0);
  }

  lemma NextRunning(events: seq<Entry>, entry: Entry)
    requires IsRunning(events)
    requires entry.phase == if LastRunning(|events|) == Ready then Reconnecting else Ready
    ensures IsRunning(events + [entry])
  {
    hide Phases;
    ReconnectionsSnoc(events, entry);
    PhasesSnoc(events, entry);
    hide Reconnections;
    assert Alternating(|events| - 1) == Alternating(|events| - 2) + [entry.phase];
  }

  lemma {:induction false} RunningHistory(events: seq<Entry>)
    requires IsHistory(events) && events[|events| - 1].phase in {Connecting, Ready, Reconnecting}
    ensures IsRunning(events)
    decreases |events|
  {
    hide IsRunning;
    var n := |events| - 1;
    StartsOnce(events);
    assert Follows(events[n - 1].phase, events[n].phase);
    if n == 1 {
      assert events == [events[0], events[1]];
      FirstRunning(events[0], events[1]);
    } else {
      var before := events[..n];
      assert events == before + [events[n]];
      assert forall i :: 0 <= i < n - 1 ==> Follows(before[i].phase, before[i + 1].phase);
      RunningHistory(before);
      assert before[n - 1].phase == LastRunning(n) by { RunningEnds(before); }
      NextRunning(before, events[n]);
    }
  }

  lemma RunningEnds(events: seq<Entry>)
    requires IsRunning(events)
    ensures |events| >= 2 && events[|events| - 1].phase == LastRunning(|events|)
  {
  }

  /**
    The whole language of complete histories: starting; then failed, if there is no socket; or
    connecting and any alternation of ready and reconnecting, or none of these; then stopping and
    exactly one of stopped and failed.
  */
  lemma {:induction false} CompleteHistory(events: seq<Entry>)
    requires IsHistory(events) && events[|events| - 1].phase in {Stopped, Failed}
    ensures var phases, last := Phases(events), events[|events| - 1].phase;
      || phases == [Starting, Failed]
      || phases == [Starting, Stopping, last]
      || (|events| >= 4
          && phases == [Starting, Connecting] + Alternating(|events| - 4) + [Stopping, last]
          && Reconnections(events) == (|events| - 4) / 2)
  {
    var n := |events| - 1;
    hide Reconnections, Alternating;
    StartsOnce(events);
    assert Follows(events[n - 1].phase, events[n].phase);
    if events[n - 1].phase == Stopping {
      assert Follows(events[n - 2].phase, events[n - 1].phase);
      var before := events[..n - 1];
      assert events == before + [events[n - 1]] + [events[n]];
      if n == 2 {
        assert Phases(events) == [Starting, Stopping, events[2].phase];
      } else {
        StoppingHistory(before, events[n - 1], events[n]);
      }
    } else {
      assert Phases(events) == [Starting, Failed];
    }
  }

  lemma {:induction false} StoppingHistory(before: seq<Entry>, stopping: Entry, last: Entry)
    requires IsHistory(before) && before[|before| - 1].phase in {Connecting, Ready, Reconnecting}
    requires stopping.phase == Stopping && last.phase in {Stopped, Failed}
    ensures |before| >= 2
    ensures Phases(before + [stopping] + [last]) == [Starting, Connecting] + Alternating(|before| - 2) + [Stopping, last.phase]
    ensures Reconnections(before + [stopping] + [last]) == (|before| - 2) / 2
  {
    RunningHistory(before);
    hide IsHistory, Alternating;
    ReconnectionsSnoc(before, stopping);
    ReconnectionsSnoc(before + [stopping], last);
    assert Phases(before + [stopping] + [last]) == Phases(before) + [Stopping, last.phase];
  }

  lemma PublishesFollows(a: Phase, bridge: Bridge, b: Phase)
    ensures Publishes(a, bridge, b) ==> Follows(a, b)
  {
  }

  lemma RecordedSnoc(events: seq<Entry>, last: Entry, next: Entry)
    requires IsHistory(events) && events[|events| - 1] == last
    ensures Follows(last.phase, next.phase) ==> IsHistory(events + [next])
    ensures Reconnections(events + [next]) == Reconnections(events) + if next.phase == Reconnecting then 1 else 0
  {
    ReconnectionsSnoc(events, next);
  }

  // ---------------------------------------------------------------- backoff

  function Min(a: nat, b: nat): nat {
    if a <= b then a else b
  }

  function Pow2(k: nat): nat {
    if k == 0 then 1 else 2 * Pow2(k - 1)
  }

  /** The k-th delay. */
  function Delay(retryMin: nat, retryMax: nat, k: nat): nat {
    Min(retryMin * Pow2(k), retryMax)
  }

  /** Doubling and capping step by step is the same as capping the power. */
  lemma NextDelay(retryMin: nat, retryMax: nat, k: nat)
    ensures Min(2 * Delay(retryMin, retryMax, k), retryMax) == Delay(retryMin, retryMax, k + 1)
  {
    assert retryMin * Pow2(k + 1) == 2 * (retryMin * Pow2(k));
  }

  lemma FirstDelay(retryMin: nat, retryMax: nat)
    requires retryMin <= retryMax
    ensures Delay(retryMin, retryMax, 0) == retryMin
  {
  }

  /** A sleep of the reconnect loop. */
  datatype Sleep = Sleep(start: nat, delay: nat)
  {
    function End(): nat { start + delay }
  }

  /** Sleeps with the given backoff that do not overlap and all end by the deadline. */
  ghost predicate IsBackoff(sleeps: seq<Sleep>, retryMin: nat, retryMax: nat, start: nat, deadline: nat) {
    && (forall k :: 0 <= k < |sleeps| ==> sleeps[k].delay == Delay(retryMin, retryMax, k))
    && (forall k :: 0 <= k < |sleeps| ==> start <= sleeps[k].start && sleeps[k].End() <= deadline)
    && (forall k :: 0 < k < |sleeps| ==> sleeps[k - 1].End() <= sleeps[k].start)
  }

  lemma BackoffSnoc(sleeps: seq<Sleep>, sleep: Sleep, retryMin: nat, retryMax: nat, start: nat, deadline: nat)
    requires IsBackoff(sleeps, retryMin, retryMax, start, deadline)
    requires sleep.delay == Delay(retryMin, retryMax, |sleeps|)
    requires start <= sleep.start && sleep.End() <= deadline
    requires sleeps != [] ==> sleeps[|sleeps| - 1].End() <= sleep.start
    ensures IsBackoff(sleeps + [sleep], retryMin, retryMax, start, deadline)
  {
    hide Delay;
  }

  lemma NoBackoff(retryMin: nat, retryMax: nat, start: nat, deadline: nat)
    ensures IsBackoff([], retryMin, retryMax, start, deadline)
  {
  }

  /** So all of them together fit into the window. */
  lemma {:induction false} BackoffFits(sleeps: seq<Sleep>, retryMin: nat, retryMax: nat, start: nat, deadline: nat)
    requires IsBackoff(sleeps, retryMin, retryMax, start, deadline) && sleeps != []
    ensures start + TotalDelay(retryMin, retryMax, |sleeps|) <= sleeps[|sleeps| - 1].End()
    decreases |sleeps|
  {
    hide Delay;
    if |sleeps| > 1 {
      BackoffFits(sleeps[..|sleeps| - 1], retryMin, retryMax, start, deadline);
    } else {
      assert TotalDelay(retryMin, retryMax, 1) == TotalDelay(retryMin, retryMax, 0) + Delay(retryMin, retryMax, 0);
    }
  }

  /** With the default settings the reconnect loop makes at most 8 attempts, one more than it sleeps. */
  lemma DefaultAttempts(sleeps: seq<Sleep>, start: nat)
    requires IsBackoff(sleeps, RETRY_MIN, RETRY_MAX, start, start + RECONNECT_WINDOW)
    ensures |sleeps| + 1 <= 8
  {
    if sleeps != [] {
      BackoffFits(sleeps, RETRY_MIN, RETRY_MAX, start, start + RECONNECT_WINDOW);
      DefaultBackoff(|sleeps|);
    }
  }

  function TotalDelay(retryMin: nat, retryMax: nat, k: nat): nat {
    if k == 0 then 0 else TotalDelay(retryMin, retryMax, k - 1) + Delay(retryMin, retryMax, k - 1)
  }

  lemma {:induction false} TotalDelayGrows(retryMin: nat, retryMax: nat, j: nat, k: nat)
    requires j <= k
    ensures TotalDelay(retryMin, retryMax, j) <= TotalDelay(retryMin, retryMax, k)
    decreases k
  {
    if j < k { TotalDelayGrows(retryMin, retryMax, j, k - 1); }
  }

  const RETRY_MIN := 1000
  const RETRY_MAX := 30 * 1000
  const RECONNECT_WINDOW := 120 * 1000

  /** With the default settings at most 7 sleeps fit into the window. */
  lemma DefaultBackoff(sleeps: nat)
    requires TotalDelay(RETRY_MIN, RETRY_MAX, sleeps) <= RECONNECT_WINDOW
    ensures sleeps <= 7
  {
    assert Pow2(2) == 4;
    assert Pow2(4) == 16;
    assert Pow2(6) == 64;
    assert TotalDelay(RETRY_MIN, RETRY_MAX, 2) == 3000;
    assert TotalDelay(RETRY_MIN, RETRY_MAX, 4) == 15000;
    assert TotalDelay(RETRY_MIN, RETRY_MAX, 6) == 61000;
    assert TotalDelay(RETRY_MIN, RETRY_MAX, 8) == 121000;
    if sleeps >= 8 { TotalDelayGrows(RETRY_MIN, RETRY_MAX, 8, sleeps); }
  }

  datatype Attempt = Connected | ConnectFailed | ContainerDown

  /** One recovery of a lost bridge: its attempts, the sleeps between them, and when it began and ended. */
  datatype Recovery = Recovery(start: nat, end: nat, tries: seq<Attempt>, sleeps: seq<Sleep>)
  {
    predicate EndedBy(attempt: Attempt) {
      tries != [] && tries[|tries| - 1] == attempt
    }
  }

  datatype Reconnection = Success | GaveUp | ContainerGone | Cancelled

  /** What can go wrong for good. */
  datatype Trouble = NoSocket | BadConfig | NoContainer | NoEndpoint

  datatype MuxAnswer = Opened | MuxClosed | MuxError

  datatype StreamAnswer = Stream | NotReady | StreamError

  /** The steps of a startup, by what is wrong if they fail. */
  const STARTUP := [BadConfig, BadConfig, NoContainer, NoEndpoint]

  class Instance {
    const retryMin: nat
    const retryMax: nat
    const reconnectWindow: nat

    var now: nat
    var parentDone: bool         // the context of `run` has ended
    var cancelled: bool          // the context of `serve` has ended
    var stopReason: Reason
    var bridge: Bridge
    var bridges: nat             // how many have been set

    // the state file and its history
    var phase: Phase
    var reason: Reason
    var reconnects: nat
    ghost var events: seq<Entry>

    ghost var trace: seq<Moment>       // what could be seen, moment by moment
    ghost var requests: seq<Reason>    // all stop requests, in order
    ghost var asked: bool              // a client has asked to stop
    ghost var recoveries: seq<Recovery>
    ghost var passed: seq<Trouble>     // the steps of the startup that went well
    ghost var troubles: set<Trouble>   // what has gone wrong
    ghost var lossNoted: bool          // a lost bridge is counted, its state not yet published

    /** What holds whenever someone else can look. */
    ghost predicate Consistent()
      reads this
    {
      && 0 < retryMin <= retryMax
      && Recorded()
      && stopReason == (if requests == [] then NoReason else requests[0])
      && Justified()
      && (requests != [] || parentDone ==> cancelled)
      && (cancelled ==> requests != [] || parentDone || phase in {Stopping, Stopped, Failed})
      && Traced()
    }

    /** What there must be for a reason to be requested. */
    ghost predicate Justifies(why: Reason)
      reads `recoveries, `asked, `parentDone
    {
      match why
      case StopRequested => asked
      case Signal => parentDone
      case ContainerStopped => SomeStayedDown(recoveries)
      case _ => false
    }

    ghost predicate SomeStayedDown(rs: seq<Recovery>) {
      exists k :: 0 <= k < |rs| && StayedDown(rs[k])
    }

    /** Nobody stops an instance without a cause. */
    ghost predicate Justified()
      reads `requests, `recoveries, `asked, `parentDone
    {
      && (forall k :: 0 <= k < |requests| ==> requests[k] in {StopRequested, Signal, ContainerStopped})
      && (StopRequested in requests ==> asked)
      && (Signal in requests ==> parentDone)
      && (ContainerStopped in requests ==> SomeStayedDown(recoveries))
    }

    /** It tried with the configured backoff until the next sleep would have ended after the window. */
    ghost predicate WindowPassed(r: Recovery) {
      && |r.tries| == |r.sleeps| + 1
      && IsBackoff(r.sleeps, retryMin, retryMax, r.start, r.start + reconnectWindow)
      && r.start + reconnectWindow < r.end + Delay(retryMin, retryMax, |r.sleeps|)
    }

    /** The container was down to the end of the window. */
    ghost predicate StayedDown(r: Recovery) {
      r.EndedBy(ContainerDown) && WindowPassed(r)
    }

    /** The endpoint could not be reached to the end of the window. */
    ghost predicate Unreachable(r: Recovery) {
      r.EndedBy(ConnectFailed) && WindowPassed(r)
    }

    ghost predicate AllSucceeded(rs: seq<Recovery>) {
      forall k :: 0 <= k < |rs| ==> rs[k].EndedBy(Connected)
    }

    /** Every loss so far was recovered from. */
    ghost predicate Recovered()
      reads `recoveries, `reconnects
    {
      AllSucceeded(recoveries) && |recoveries| == reconnects
    }

    /** State file and events agree, and reconnects are counted. */
    ghost predicate Recorded()
      reads `events, `phase, `reason, `reconnects, `lossNoted
    {
      && IsHistory(events) && events[|events| - 1] == Entry(phase, reason)
      && reconnects == Reconnections(events) + (if lossNoted then 1 else 0)
    }

    /** The trace leads up to now. */
    ghost predicate Traced()
      reads `trace, `phase, `bridge, `bridges
    {
      IsTrace(trace) && trace[|trace| - 1] == Moment(phase, bridge) && bridges == Bridges(trace)
    }

    /** State file and event "starting"; the clock shows `start`. */
    constructor (retryMin: nat, retryMax: nat, reconnectWindow: nat, start: nat)
      requires 0 < retryMin <= retryMax
      ensures Consistent() && phase == Starting && events == [Entry(Starting, NoReason)]
      ensures bridge == NoBridge && requests == [] && !cancelled && !lossNoted && troubles == {}
      ensures recoveries == [] && passed == [] && !asked
      ensures this.retryMin == retryMin && this.retryMax == retryMax && this.reconnectWindow == reconnectWindow
    {
      this.retryMin, this.retryMax, this.reconnectWindow, now := retryMin, retryMax, reconnectWindow, start;
      parentDone, cancelled, stopReason, bridge := false, false, NoReason, NoBridge;
      phase, reason, reconnects := Starting, NoReason, 0;
      events, requests, lossNoted, troubles := [Entry(Starting, NoReason)], [], false, {};
      asked, recoveries, passed := false, [], [];
      bridges, trace := 0, [Moment(Starting, NoBridge)];
      new;
      assert Reconnections(events) == Reconnections(events[..0]);
    }

    // -------------------------------------------------------------- stopping

    /** The first reason wins. */
    method RequestStop(why: Reason)
      requires Consistent() && Justifies(why)
      modifies `stopReason, `cancelled, `requests
      ensures Consistent() && cancelled
      ensures requests == old(requests) + [why]
      ensures stopReason == if old(stopReason) == NoReason then why else old(stopReason)
    {
      hide IsHistory, Reconnections;
      if stopReason == NoReason { stopReason := why; }
      requests := requests + [why];
      cancelled := true;
    }

    /** A client asks for a stop, or a signal arrives, or nothing happens. */
    method MayStop()
      requires Consistent()
      modifies `parentDone, `cancelled, `stopReason, `requests, `asked
      ensures Consistent() && old(requests) <= requests
      ensures (old(cancelled) ==> cancelled) && (old(parentDone) ==> parentDone) && (old(asked) ==> asked)
      ensures old(stopReason) != NoReason ==> stopReason == old(stopReason)
    {
      hide Recorded, Traced, SomeStayedDown;
      var signalled: bool := *;
      if signalled { parentDone, cancelled := true, true; }
      var clientStops: bool := *;
      if clientStops {
        asked := true;
        RequestStop(StopRequested);
      }
    }

    /** Anything others can do meanwhile. */
    method WorldMoves()
      requires Consistent()
      modifies `now, `parentDone, `cancelled, `stopReason, `requests, `asked, `bridge, `bridges, `trace
      ensures Consistent() && old(now) <= now
      ensures (old(cancelled) ==> cancelled) && (old(parentDone) ==> parentDone)
      ensures old(stopReason) != NoReason ==> stopReason == old(stopReason)
      ensures bridge == old(bridge) || (old(bridge) == Live && bridge == Dead)
      ensures old(requests) <= requests && old(trace) <= trace && (old(asked) ==> asked)
    {
      hide IsHistory, Reconnections, Traced, Justified;
      var passed :| 0 <= passed;
      now := now + passed;
      MayStop();
      var bridgeFails: bool := *;
      if bridgeFails && bridge == Live { SetBridge(Dead); }
    }

    /** The bridge changes: it is set, it fails, or it is cleared. */
    method SetBridge(b: Bridge)
      requires Traced() && (b == bridge || Changes(phase, bridge, b))
      modifies `bridge, `bridges, `trace
      ensures Traced() && bridge == b && old(trace) <= trace
    {
      TraceSnoc(trace, Moment(phase, b));
      BridgesSnoc(trace, Moment(phase, b));
      hide IsTrace, Bridges;
      if bridge == NoBridge && b == Live { bridges := bridges + 1; }
      bridge, trace := b, trace + [Moment(phase, b)];
    }

    // -------------------------------------------------------------- publishing

    /** The state file changes, while the bridge stays. */
    method WriteFile(phase': Phase)
      requires Traced() && Publishes(phase, bridge, phase')
      modifies `phase, `trace
      ensures Traced() && phase == phase' && old(trace) <= trace
    {
      TraceSnoc(trace, Moment(phase', bridge));
      BridgesSnoc(trace, Moment(phase', bridge));
      hide IsTrace, Bridges;
      phase, trace := phase', trace + [Moment(phase', bridge)];
    }

    method SetState(phase': Phase, reason': Reason)
      requires Consistent() && Publishes(phase, bridge, phase')
      requires lossNoted <==> phase' == Reconnecting
      modifies `phase, `reason, `events, `lossNoted, `trace
      ensures Consistent() && phase == phase' && reason == reason' && !lossNoted
      ensures events == old(events) + [Entry(phase', reason')] && old(trace) <= trace
    {
      hide IsHistory, Reconnections, Justified;
      RecordedSnoc(events, Entry(phase, reason), Entry(phase', reason'));
      PublishesFollows(phase, bridge, phase');
      hide Traced, Publishes;
      WriteFile(phase');
      reason := reason';
      events := events + [Entry(phase', reason')];
      lossNoted := false;
    }

    // -------------------------------------------------------------- readiness

    /** Whatever the instance and the world do meanwhile. */
    method Meanwhile()
      requires Consistent()
      modifies this
      ensures Consistent() && old(events) <= events && old(trace) <= trace
    {
      WorldMoves();
    }

    /** Exec requests are served at every moment from the `first` one. */
    ghost predicate ServesSince(first: nat)
      reads `trace
    {
      forall k :: first <= k < |trace| ==> Serves(trace[k])
    }

    /**
      `op status`: the file is read at the beginning of the call, the bridge at its end. An instance
      that serves all the time is shown as ready; what else "ready" means is said by the results
      about `Shown`.
    */
    method Status() returns (shown: Phase)
      requires Consistent()
      modifies this
      ensures Consistent() && old(trace) <= trace
      ensures shown == Shown(trace, |old(trace)| - 1, |trace| - 1)
      ensures ServesSince(|old(trace)| - 1) ==> shown == Ready
      ensures NothingPublished(trace, |old(trace)| - 1, |trace| - 1) ==> (shown == Ready <==> ServesSince(|old(trace)| - 1))
    {
      hide IsHistory, Reconnections, Justified;
      shown := phase;
      ghost var first := |trace| - 1;
      Meanwhile();
      if shown == Ready && bridge != Live { shown := Reconnecting; }
      if NothingPublished(trace, first, |trace| - 1) {
        QuietCallIsExact(trace, first, |trace| - 1);
      }
    }

    /** `readyBridge`: which bridge a call gets, if any. */
    method ReadyBridge() returns (ready: bool, number: nat)
      requires Consistent()
      modifies this
      ensures Consistent() && old(trace) <= trace
      ensures ready <==> Shown(trace, |old(trace)| - 1, |trace| - 1) == Ready
      ensures ready ==> number == bridges && bridge == Live
    {
      hide IsHistory, Reconnections, Justified;
      var file := phase;
      Meanwhile();
      ready, number := file == Ready && bridge == Live, bridges;
    }

    /** An open on the bridge with this number: its mux can only be closed if it has failed or was replaced. */
    method AskMux(number: nat) returns (answer: MuxAnswer)
      ensures answer == MuxClosed ==> bridge != Live || bridges != number
    {
      answer := *;
      if answer == MuxClosed && bridge == Live && bridges == number { answer := MuxError; }
    }

    /**
      A stream is refused as not ready if the file does not say "ready" at the beginning, and only if
      there was a moment of the call at which exec requests were not served.
    */
    method OpenStream() returns (answer: StreamAnswer)
      requires Consistent()
      modifies this
      ensures Consistent() && old(trace) <= trace
      ensures ServesSince(|old(trace)| - 1) ==> answer != NotReady
      ensures old(phase) != Ready ==> answer == NotReady
      ensures answer == Stream ==> exists k :: |old(trace)| - 1 <= k < |trace| && trace[k].bridge == Live
    {
      hide IsHistory, Reconnections, Justified;
      ghost var first := |trace| - 1;
      var ready, number := ReadyBridge();
      if !ready { return NotReady; }
      ghost var seen := |trace| - 1;
      ghost var before := trace;
      Meanwhile();
      assert before == trace[..seen + 1] && trace[seen].bridge == Live;
      if bridges != number { BridgeWasReplaced(trace, seen); }
      var said := AskMux(number);
      match said {
        case Opened => answer := Stream;
        case MuxClosed => answer := NotReady;
        case MuxError => answer := StreamError;
      }
    }

    // -------------------------------------------------------------- reconnecting

    /** One round: probe the container, and connect if it runs. */
    method Try() returns (attempt: Attempt)
      requires Consistent() && bridge == NoBridge
      modifies `now, `parentDone, `cancelled, `stopReason, `requests, `asked, `bridge, `bridges, `trace
      ensures Consistent() && old(now) <= now && bridge == NoBridge
      ensures (old(cancelled) ==> cancelled) && (old(parentDone) ==> parentDone)
      ensures old(stopReason) != NoReason ==> stopReason == old(stopReason)
      ensures old(requests) <= requests
    {
      WorldMoves();
      attempt := *;
    }

    /** Waits for `delay` or for the end of the context. */
    method Pause(delay: nat) returns (done: bool)
      requires Consistent() && bridge == NoBridge
      modifies `now, `parentDone, `cancelled, `stopReason, `requests, `asked, `bridge, `bridges, `trace
      ensures Consistent() && bridge == NoBridge && old(now) <= now
      ensures (old(cancelled) ==> cancelled) && (old(parentDone) ==> parentDone)
      ensures old(stopReason) != NoReason ==> stopReason == old(stopReason)
      ensures old(requests) <= requests
      ensures done ==> cancelled
      ensures !done ==> !old(cancelled) && old(now) + delay <= now
    {
      hide Recorded, IsHistory, Reconnections, Traced, Justified;
      if cancelled { return true; }
      WorldMoves();
      if cancelled { return true; }
      now, done := now + delay, false;
    }

    lemma EndOfWindow(r: Recovery, last: Attempt)
      requires r.EndedBy(last) && WindowPassed(r)
      ensures (last == ContainerDown ==> StayedDown(r)) && (last == ConnectFailed ==> Unreachable(r))
    {
    }

    ghost method Note(r: Recovery)
      requires Consistent()
      modifies `recoveries
      ensures Consistent() && recoveries == old(recoveries) + [r]
    {
      StillStayedDown(recoveries, r);
      hide Recorded, Traced, SomeStayedDown;
      recoveries := recoveries + [r];
    }

    lemma StillStayedDown(rs: seq<Recovery>, r: Recovery)
      ensures SomeStayedDown(rs) ==> SomeStayedDown(rs + [r])
    {
      hide StayedDown;
      if k :| 0 <= k < |rs| && StayedDown(rs[k]) {
        assert StayedDown((rs + [r])[k]);
      }
    }

    /**
      Tries until it is connected, cancelled, or the next sleep would end after the deadline. The
      delays double up to the maximum.
    */
    method Reconnect() returns (result: Reconnection)
      requires Consistent() && bridge == NoBridge
      modifies `now, `parentDone, `cancelled, `stopReason, `requests, `asked, `bridge, `bridges, `trace, `troubles
      modifies `recoveries
      ensures Consistent() && bridge == NoBridge && old(now) <= now
      ensures troubles == old(troubles) + (if result == GaveUp then {NoEndpoint} else {})
      ensures (old(cancelled) ==> cancelled) && (old(parentDone) ==> parentDone)
      ensures old(stopReason) != NoReason ==> stopReason == old(stopReason)
      ensures old(requests) <= requests
      ensures |recoveries| == |old(recoveries)| + 1 && recoveries[..|old(recoveries)|] == old(recoveries)
      ensures var r := recoveries[|old(recoveries)|];
        && r.start == old(now) && r.end <= now && |r.tries| == |r.sleeps| + 1
        && IsBackoff(r.sleeps, retryMin, retryMax, r.start, r.start + reconnectWindow)
        && (result == Success <==> r.EndedBy(Connected))
        && (result == ContainerGone ==> StayedDown(r))
        && (result == GaveUp ==> Unreachable(r))
      ensures result == Cancelled ==> cancelled
    {
      hide Recorded, IsHistory, Reconnections, Traced, Justified, Delay, IsBackoff, StayedDown, Unreachable;
      var deadline := now + reconnectWindow;
      var delay := retryMin;
      FirstDelay(retryMin, retryMax);
      NoBackoff(retryMin, retryMax, now, deadline);
      ghost var tries: seq<Attempt>, sleeps: seq<Sleep> := [], [];
      while true
        invariant Consistent() && bridge == NoBridge && old(now) <= now
        invariant (old(cancelled) ==> cancelled) && (old(parentDone) ==> parentDone)
        invariant old(stopReason) != NoReason ==> stopReason == old(stopReason)
        invariant old(requests) <= requests
        invariant delay == Delay(retryMin, retryMax, |sleeps|) && 0 < delay
        invariant |tries| == |sleeps| && troubles == old(troubles) && recoveries == old(recoveries)
        invariant IsBackoff(sleeps, retryMin, retryMax, old(now), deadline)
        invariant sleeps != [] ==> sleeps[|sleeps| - 1].End() <= now
        decreases deadline - now
      {
        var attempt := Try();
        tries := tries + [attempt];
        ghost var recovery := Recovery(old(now), now, tries, sleeps);
        if attempt == Connected {
          Note(recovery);
          return Success;
        }
        if now + delay > deadline {
          EndOfWindow(recovery, attempt);
          Note(recovery);
          if attempt == ContainerDown { return ContainerGone; }
          troubles := troubles + {NoEndpoint};
          return GaveUp;
        }
        ghost var sleep := Sleep(now, delay);
        var done := Pause(delay);
        if done {
          Note(recovery);
          return Cancelled;
        }
        NextDelay(retryMin, retryMax, |sleeps|);
        BackoffSnoc(sleeps, sleep, retryMin, retryMax, old(now), deadline);
        sleeps := sleeps + [sleep];
        delay := Min(2 * delay, retryMax);
      }
      assert false;
    }

    // -------------------------------------------------------------- the run

    /** The bridge is lost, which can happen `left` times, or the context ends. */
    method AwaitLoss(left: nat) returns (lost: bool)
      requires Consistent()
      modifies `now, `parentDone, `cancelled, `stopReason, `requests, `asked, `bridge, `bridges, `trace
      ensures Consistent() && (bridge == old(bridge) || (old(bridge) == Live && bridge == Dead))
      ensures if lost then 0 < left else cancelled
    {
      WorldMoves();
      lost := *;
      if lost && 0 < left { return; }
      lost := false;
      if !cancelled { parentDone, cancelled := true, true; }
    }

    /** Something that takes time and can go wrong. */
    method Attempted(trouble: Trouble) returns (ok: bool)
      requires Consistent() && bridge == NoBridge
      modifies `now, `parentDone, `cancelled, `stopReason, `requests, `asked, `bridge, `bridges, `trace, `troubles, `passed
      ensures Consistent() && bridge == NoBridge && (old(cancelled) ==> cancelled)
      ensures passed == old(passed) + (if ok then [trouble] else [])
      ensures troubles == old(troubles) + (if ok then {} else {trouble})
    {
      WorldMoves();
      ok := *;
      if ok {
        passed := passed + [trouble];
      } else {
        troubles := troubles + {trouble};
      }
    }

    /** The configuration, the environment and the container. */
    method StartContainer() returns (failed: bool, over: bool)
      requires Consistent() && phase == Starting && bridge == NoBridge && troubles == {}
      modifies `now, `parentDone, `cancelled, `stopReason, `requests, `asked, `bridge, `bridges, `trace, `troubles, `passed
      ensures Consistent() && bridge == NoBridge && NoSocket !in troubles
      ensures over ==> if failed then troubles != {} else cancelled
      ensures !over ==> !failed && troubles == {} && passed == old(passed) + STARTUP[..3]
    {
      hide Recorded, IsHistory, Reconnections, Traced, Justified;
      var configured := Attempted(BadConfig);
      if !configured { return true, true; }
      var generated := Attempted(BadConfig);
      if cancelled { return false, true; }
      if !generated { return true, true; }
      var started := Attempted(NoContainer);
      if cancelled { return false, true; }
      if !started { return true, true; }
      assert passed == old(passed) + STARTUP[..3];
      return false, false;
    }

    /** From the start to the first "ready". */
    method BringUp() returns (failed: bool, over: bool)
      requires Consistent() && phase == Starting && bridge == NoBridge && !lossNoted && troubles == {}
      modifies this
      ensures Consistent() && !lossNoted && NoSocket !in troubles && recoveries == old(recoveries)
      ensures !over ==> passed == old(passed) + STARTUP
      ensures reconnects == old(reconnects)
      ensures over ==> phase in {Starting, Connecting} && bridge == NoBridge && (if failed then troubles != {} else cancelled)
      ensures !over ==> !failed && phase == Ready && bridge in {Live, Dead} && troubles == {}
      ensures old(events) <= events
    {
      hide Recorded, IsHistory, Reconnections, Traced, Justified, STARTUP;
      failed, over := StartContainer();
      if over { return; }
      SetState(Connecting, NoReason);
      var connected := Attempted(NoEndpoint);
      if cancelled { return false, true; }
      if !connected { return true, true; }
      SetBridge(Live);
      WorldMoves();
      SetState(Ready, NoReason);
      StartupIsOver(old(passed));
      return false, false;
    }

    /**
      Brings the bridge up and reconnects whenever it is lost, which the
      world does `losses` times at most. Without a failure there was a reason to stop.
    */
    method Serve(losses: nat) returns (failed: bool)
      requires Consistent() && phase == Starting && bridge == NoBridge && !lossNoted && troubles == {}
      requires recoveries == [] && reconnects == 0
      modifies this
      ensures Consistent() && phase in {Starting, Connecting, Ready, Reconnecting} && !lossNoted
      ensures phase == Ready ==> Recovered()
      ensures recoveries != [] ==> AllSucceeded(recoveries[..|recoveries| - 1])
      ensures failed && recoveries != [] ==> Unreachable(recoveries[|recoveries| - 1])
      ensures |recoveries| <= reconnects <= |recoveries| + 1
      ensures bridge == NoBridge <==> phase != Ready
      ensures !failed ==> cancelled
      ensures failed ==> troubles != {}
      ensures NoSocket !in troubles
      ensures phase in {Ready, Reconnecting} ==> troubles <= {NoEndpoint}
      ensures old(events) <= events
    {
      hide Recorded, IsHistory, Reconnections, Traced, Justified;
      var over;
      failed, over := BringUp();
      if over { return; }
      var left := losses;
      while true
        invariant Consistent() && phase == Ready && bridge in {Live, Dead} && !lossNoted
        invariant old(events) <= events && troubles == {} && Recovered()
        decreases left
      {
        var lost := AwaitLoss(left);
        if !lost { return false; }
        left := left - 1;
        failed, over := Recover();
        if over { return; }
      }
      assert false;
    }

    method CountLoss()
      requires Recorded() && !lossNoted
      modifies `reconnects, `lossNoted
      ensures Recorded() && lossNoted && reconnects == old(reconnects) + 1
    {
      reconnects, lossNoted := reconnects + 1, true;
    }

    /** The bridge is cleared first; then the loss is counted and published. */
    method NoteLoss()
      requires Consistent() && phase == Ready && bridge != NoBridge && !lossNoted
      modifies this
      ensures Consistent() && !lossNoted && phase == Reconnecting && bridge == NoBridge && troubles == old(troubles)
      ensures events == old(events) + [Entry(Reconnecting, BridgeLost)]
      ensures reconnects == old(reconnects) + 1 && recoveries == old(recoveries)
    {
      hide Recorded, IsHistory, Reconnections, Traced, Justified;
      SetBridge(NoBridge);
      WorldMoves();
      CountLoss();
      WorldMoves();
      SetState(Reconnecting, BridgeLost);
    }

    /** Somebody wants the instance to stop: a signal, a client, or a recovery that found the container down. */
    ghost predicate WantsToStop()
      reads `parentDone, `asked, `recoveries
    {
      parentDone || asked || (recoveries != [] && StayedDown(recoveries[|recoveries| - 1]))
    }

    /**
      The bridge is lost: the state says so at once, then the instance stops or reconnects. It is
      ready again exactly if the last attempt connected and nobody wants it to stop.
    */
    method Recover() returns (failed: bool, over: bool)
      requires Consistent() && phase == Ready && bridge != NoBridge && !lossNoted && Recovered()
      modifies this
      ensures old(recoveries) <= recoveries && |recoveries| <= |old(recoveries)| + 1 && reconnects == old(reconnects) + 1
      ensures !over ==> Recovered() && |recoveries| == |old(recoveries)| + 1
      ensures failed ==> |recoveries| == |old(recoveries)| + 1 && Unreachable(recoveries[|old(recoveries)|])
      ensures over && !failed ==> WantsToStop()
      ensures Consistent() && !lossNoted
      ensures over ==> phase == Reconnecting && bridge == NoBridge && (!failed ==> cancelled)
      ensures failed ==> NoEndpoint in troubles
      ensures troubles == old(troubles) || (over && troubles == old(troubles) + {NoEndpoint})
      ensures !over ==> phase == Ready && bridge in {Live, Dead}
      ensures events == old(events) + [Entry(Reconnecting, BridgeLost)] + if over then [] else [Entry(Ready, NoReason)]
    {
      hide Recorded, IsHistory, Reconnections, Traced, IsBackoff, Delay, Justified;
      NoteLoss();
      WorldMoves();
      if cancelled {
        CancelledHasCause();
        return false, true;
      }
      failed, over := ComeBack();
    }

    /** The end of a recovery: "ready" again, a failure, or a stop. */
    method ComeBack() returns (failed: bool, over: bool)
      requires Consistent() && phase == Reconnecting && bridge == NoBridge && !lossNoted
      requires AllSucceeded(recoveries) && reconnects == |recoveries| + 1
      modifies this
      ensures Consistent() && !lossNoted && reconnects == old(reconnects)
      ensures |recoveries| == |old(recoveries)| + 1 && recoveries[..|old(recoveries)|] == old(recoveries)
      ensures !over ==> Recovered() && phase == Ready && bridge in {Live, Dead}
      ensures over ==> phase == Reconnecting && bridge == NoBridge
      ensures failed ==> over && NoEndpoint in troubles && Unreachable(recoveries[|old(recoveries)|])
      ensures over && !failed ==> cancelled && WantsToStop()
      ensures troubles == old(troubles) || (over && troubles == old(troubles) + {NoEndpoint})
      ensures events == old(events) + if over then [] else [Entry(Ready, NoReason)]
    {
      hide Recorded, IsHistory, Reconnections, Traced, IsBackoff, Delay, Justified;
      var result := Reconnect();
      if cancelled {
        CancelledHasCause();
        return false, true;
      }
      if result == ContainerGone {
        assert StayedDown(recoveries[|old(recoveries)|]);
        RequestStop(ContainerStopped);
        return false, true;
      }
      if result != Success { return true, true; }
      SetBridge(Live);
      WorldMoves();
      SetState(Ready, NoReason);
      return false, false;
    }

    /** The context ends only with a signal or a stop request, and these have their causes. */
    lemma CancelledHasCause()
      requires Consistent() && cancelled && phase !in {Stopping, Stopped, Failed}
      requires recoveries != [] ==> AllSucceeded(recoveries[..|recoveries| - 1])
      ensures WantsToStop()
    {
      hide Recorded, Traced;
      if !parentDone {
        var why := requests[0];
        assert Justifies(why);
        if why == ContainerStopped {
          OnlyTheLastStayedDown();
        }
      }
    }

    lemma OnlyTheLastStayedDown()
      requires Justifies(ContainerStopped)
      requires recoveries != [] ==> AllSucceeded(recoveries[..|recoveries| - 1])
      ensures recoveries != [] && StayedDown(recoveries[|recoveries| - 1])
    {
      forall k | 0 <= k < |recoveries| - 1 ensures !StayedDown(recoveries[k]) {
        assert recoveries[..|recoveries| - 1][k].EndedBy(Connected);
      }
    }

    method BeginShutdown()
      requires Consistent() && phase in {Starting, Connecting, Ready, Reconnecting} && !lossNoted
      requires bridge == NoBridge <==> phase != Ready
      modifies this
      ensures Consistent() && phase == Stopping && bridge == NoBridge && !lossNoted && troubles == old(troubles)
      ensures recoveries == old(recoveries) && reconnects == old(reconnects)
      ensures old(stopReason) != NoReason ==> stopReason == old(stopReason)
      ensures events == old(events) + [Entry(Stopping, old(stopReason))]
    {
      hide Recorded, IsHistory, Reconnections, Traced, Justified;
      SetState(Stopping, stopReason);
      WorldMoves();
      SetBridge(NoBridge);
      cancelled := true;
      WorldMoves();
    }

    /** Publishes "stopping", ends sessions, tunnels and the bridge, then publishes how it ended. */
    method Shutdown(failed: bool)
      requires Consistent() && phase in {Starting, Connecting, Ready, Reconnecting} && !lossNoted
      requires bridge == NoBridge <==> phase != Ready
      requires !failed ==> stopReason != NoReason
      modifies this
      ensures Consistent() && bridge == NoBridge && !lossNoted && troubles == old(troubles)
      ensures recoveries == old(recoveries) && reconnects == old(reconnects)
      ensures phase == (if failed then Failed else Stopped)
      ensures !failed ==> stopReason == old(stopReason)
      ensures |events| == |old(events)| + 2 && old(events) <= events
      ensures !failed ==> reason == stopReason && events[|events| - 2] == Entry(Stopping, stopReason)
    {
      hide Recorded, IsHistory, Reconnections, Traced, Justified;
      BeginShutdown();
      SetState(if failed then Failed else Stopped, if failed then Failure else stopReason);
    }

    /** Serves; if the process got a signal and nothing else asked it to stop, that is the reason. */
    method ServeUntilStopped(losses: nat) returns (failed: bool)
      requires Consistent() && phase == Starting && bridge == NoBridge && !lossNoted && troubles == {}
      requires recoveries == [] && reconnects == 0
      modifies this
      ensures Consistent() && phase in {Starting, Connecting, Ready, Reconnecting} && !lossNoted
      ensures bridge == NoBridge <==> phase != Ready
      ensures recoveries != [] ==> AllSucceeded(recoveries[..|recoveries| - 1])
      ensures failed && recoveries != [] ==> Unreachable(recoveries[|recoveries| - 1])
      ensures |recoveries| <= reconnects <= |recoveries| + 1
      ensures failed ==> troubles != {}
      ensures !failed ==> requests != [] && stopReason != NoReason
      ensures NoSocket !in troubles
      ensures old(events) <= events
    {
      hide Recorded, IsHistory, Reconnections, Traced, Justified;
      failed := Serve(losses);
      if !failed && requests != [] { RequestsAreJustified(); }
      if !failed && stopReason == NoReason && parentDone {
        RequestStop(Signal);
      }
    }

    /**
      A whole run, from the moment when the state file says "starting". A clean run ends with
      "stopping" and "stopped", both with the first reason that was requested; a failed one has had
      some trouble, and a container that stays down is none.
    */
    method Run(losses: nat) returns (failed: bool)
      requires Consistent() && phase == Starting && events == [Entry(Starting, NoReason)]
      requires bridge == NoBridge && !lossNoted && troubles == {} && recoveries == [] && reconnects == 0
      modifies this
      ensures Consistent() && !lossNoted && bridge == NoBridge
      ensures |recoveries| <= reconnects <= |recoveries| + 1
      ensures recoveries != [] ==> AllSucceeded(recoveries[..|recoveries| - 1])
      ensures failed && recoveries != [] ==> Unreachable(recoveries[|recoveries| - 1])
      ensures !failed ==> Justifies(reason)
      ensures !failed && reason == ContainerStopped ==> recoveries != [] && StayedDown(recoveries[|recoveries| - 1])
      ensures phase == (if failed then Failed else Stopped)
      ensures failed ==> troubles != {}
      ensures |events| == 2 <==> NoSocket in troubles
      ensures reconnects == Reconnections(events)
      ensures !failed ==> requests != [] && reason == requests[0] && reason != NoReason
      ensures !failed ==> |events| >= 2 && events[|events| - 2] == Entry(Stopping, reason)
    {
      hide Recorded, IsHistory, Reconnections, Traced, Justified, Justifies, StayedDown;
      var listening := Attempted(NoSocket);
      if !listening {
        SetState(Failed, Failure);
        RecordedCounts();
        return true;
      }
      failed := ServeUntilStopped(losses);
      if !failed { RequestsAreJustified(); }
      Shutdown(failed);
      if !failed { RequestsAreJustified(); }
      RecordedCounts();
    }

    lemma RecordedCounts()
      requires Recorded() && !lossNoted
      ensures reconnects == Reconnections(events)
    {
    }

    lemma RequestsAreJustified()
      requires Consistent() && requests != []
      ensures stopReason == requests[0] != NoReason && Justifies(stopReason)
      ensures stopReason == ContainerStopped && (recoveries != [] ==> AllSucceeded(recoveries[..|recoveries| - 1])) ==>
        recoveries != [] && StayedDown(recoveries[|recoveries| - 1])
    {
      hide Recorded, Traced, StayedDown, AllSucceeded, SomeStayedDown;
      if stopReason == ContainerStopped && (recoveries != [] ==> AllSucceeded(recoveries[..|recoveries| - 1])) {
        OnlyTheLastStayedDown();
      }
    }
  }

  lemma StartupIsOver(passed: seq<Trouble>)
    ensures passed + STARTUP[..3] + [NoEndpoint] == passed + STARTUP
  {
  }

  lemma BridgeWasReplaced(trace: seq<Moment>, seen: nat)
    requires seen < |trace| && Bridges(trace[..seen + 1]) != Bridges(trace)
    ensures exists k :: seen <= k < |trace| && trace[k].bridge == NoBridge
  {
    BridgesGrow(trace, seen + 1);
    ReplacedMeansGone(trace, seen);
  }
}
