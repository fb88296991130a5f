/**
  The instance's event bus (internal/host/events.go): a ring of recent log events, a snapshot for
  new subscribers, and bounded queues that count what they drop.
*/
module Events {
  import opened Common
  import opened Rings

  datatype Body =
    | StateBody(state: string, reason: string)
    | PortsBody(ports: seq<(nat, nat)>)
    | LogBody(source: string, level: string, message: string)
    | ActivityBody(description: string)  // exec_started, exec_exited, client

  /** `t == 0` is the unset time. */
  datatype Event = Event(t: nat, body: Body)

  /** What a subscriber's channel carries: an event, or a marker for `count` lost ones. */
  datatype Item = Live(event: Event) | Dropped(t: nat, count: nat)

  const EVENT_HISTORY_SIZE := 500
  const DEFAULT_EVENT_QUEUE := 256

  function Stamped(e: Event, now: nat): Event {
    if e.t == 0 then e.(t := now) else e
  }

  // ---------------------------------------------------------------- what was published

  function LastState(events: seq<Event>): Option<Event> {
    if events == [] then None
    else if events[|events| - 1].body.StateBody? then Some(events[|events| - 1])
    else LastState(events[..|events| - 1])
  }

  function LastPorts(events: seq<Event>): Option<Event> {
    if events == [] then None
    else if events[|events| - 1].body.PortsBody? then Some(events[|events| - 1])
    else LastPorts(events[..|events| - 1])
  }

  function Logs(events: seq<Event>): seq<Event> {
    if events == [] then []
    else if events[|events| - 1].body.LogBody? then Logs(events[..|events| - 1]) + [events[|events| - 1]]
    else Logs(events[..|events| - 1])
  }

  function AsList(e: Option<Event>): seq<Event> {
    if e.None? then [] else [e.value]
  }

  /** What a subscriber joining after `past` is shown first. */
  function SnapshotOf(past: seq<Event>, history: int, capacity: nat): seq<Event> {
    AsList(LastState(past)) + AsList(LastPorts(past))
    + LastN(LastN(Logs(past), capacity), if history < 0 then 0 else history)
  }

  function Lives(events: seq<Event>): (items: seq<Item>)
    ensures |items| == |events|
    ensures forall i :: 0 <= i < |events| ==> items[i] == Live(events[i])
  {
    seq(|events|, i requires 0 <= i < |events| => Live(events[i]))
  }

  // ---------------------------------------------------------------- one subscriber's queue

  /** A subscriber's channel and its count of events lost since the last marker. */
  datatype Queue = Queue(ch: seq<Item>, dropped: nat)

  /** The first send of an offer: events lost before are reported, or the event is lost as well. Nothing blocks. */
  function MarkerSent(q: Queue, capacity: nat, e: Event): (result: (Queue, bool)) {
    if q.dropped == 0 then (q, true)
    else if |q.ch| < capacity then (Queue(q.ch + [Dropped(e.t, q.dropped)], 0), true)
    else (q.(dropped := q.dropped + 1), false)
  }

  /** The second send of an offer: the event itself. */
  function EventSent(q: Queue, capacity: nat, e: Event): Queue {
    if |q.ch| < capacity then q.(ch := q.ch + [Live(e)]) else q.(dropped := q.dropped + 1)
  }

  function Min(a: nat, b: nat): nat {
    if a < b then a else b
  }

  /**
    A whole offer. The subscriber does not take the bus's lock, so it may read up to `taken` items
    between the two sends. The items it reads and the queue left.
  */
  function Offered(q: Queue, capacity: nat, e: Event, taken: nat): (seq<Item>, Queue) {
    var (marked, goOn) := MarkerSent(q, capacity, e);
    var n := Min(taken, |marked.ch|);
    if goOn then (marked.ch[..n], EventSent(marked.(ch := marked.ch[n..]), capacity, e)) else ([], marked)
  }

  /** What an offer adds to everything read and queued: the event, and a marker before it if events were lost. */
  lemma OfferedWithRoom(received: seq<Item>, q: Queue, capacity: nat, e: Event, taken: nat)
    ensures var (read, after) := Offered(q, capacity, e, taken);
            var items, items' := received + q.ch, received + read + after.ch;
      && (q.dropped == 0 && |q.ch| < capacity ==> after.dropped == 0 && items' == items + [Live(e)])
      && (q.dropped > 0 && |q.ch| + 1 < capacity ==>
            after.dropped == 0 && items' == items + [Dropped(e.t, q.dropped), Live(e)])
      && (q.dropped > 0 && |q.ch| >= capacity ==> after.dropped == q.dropped + 1 && items' == items)
  {
    var (marked, goOn) := MarkerSent(q, capacity, e);
    var n := Min(taken, |marked.ch|);
    assert marked.ch[..n] + marked.ch[n..] == marked.ch;
  }

  lemma OnlyItsReadsMatter(q: Queue, capacity: nat, e: Event, taken: nat)
    ensures Offered(q, capacity, e, |Offered(q, capacity, e, taken).0|) == Offered(q, capacity, e, taken)
  {
  }

  /** The items stand for exactly `events`: each delivered event for itself, a marker for `count` lost ones. */
  predicate Covers(items: seq<Item>, events: seq<Event>)
    decreases |items|
  {
    if items == [] then events == []
    else
      var init, n := items[..|items| - 1], |events|;
      match items[|items| - 1]
      case Live(e) => n >= 1 && events[n - 1] == e && Covers(init, events[..n - 1])
      case Dropped(_, count) => 1 <= count <= n && Covers(init, events[..n - count])
  }

  /** The items account for all of `events` but the newest `dropped`, which are lost and not yet reported. */
  predicate Accounts(items: seq<Item>, dropped: nat, events: seq<Event>) {
    dropped <= |events| && Covers(items, events[..|events| - dropped])
  }

  /** How many published events the items stand for. */
  function Weight(items: seq<Item>): nat {
    if items == [] then 0
    else
      var last := items[|items| - 1];
      Weight(items[..|items| - 1]) + if last.Live? then 1 else last.count
  }

  /** The weights add up, and every delivered event sits at its own index among the published ones. */
  lemma CoveredEventsSitAtTheirIndex(items: seq<Item>, events: seq<Event>)
    requires Covers(items, events)
    ensures Weight(items) == |events|
    ensures forall i :: 0 <= i < |items| ==>
              && Weight(items[..i]) < |events|
              && (items[i].Live? ==> items[i].event == events[Weight(items[..i])])
              && (items[i].Dropped? ==> items[i].count >= 1)
  {
    WeightOfCover(items, events);
    forall i | 0 <= i < |items|
      ensures Weight(items[..i]) < |events|
      ensures items[i].Live? ==> items[i].event == events[Weight(items[..i])]
      ensures items[i].Dropped? ==> items[i].count >= 1
    {
      CoveredEventSits(items, events, i);
    }
  }

  lemma {:induction false} WeightOfCover(items: seq<Item>, events: seq<Event>)
    requires Covers(items, events)
    ensures Weight(items) == |events|
    decreases |items|
  {
    if items != [] {
      var last := items[|items| - 1];
      WeightOfCover(items[..|items| - 1], events[..|events| - if last.Live? then 1 else last.count]);
    }
  }

  lemma {:induction false} CoveredEventSits(items: seq<Item>, events: seq<Event>, i: nat)
    requires Covers(items, events) && i < |items|
    ensures Weight(items[..i]) < |events|
    ensures items[i].Live? ==> items[i].event == events[Weight(items[..i])]
    ensures items[i].Dropped? ==> items[i].count >= 1
    decreases |items|
  {
    var init, last := items[..|items| - 1], items[|items| - 1];
    var rest := events[..|events| - if last.Live? then 1 else last.count];
    if i == |init| {
      WeightOfCover(init, rest);
    } else {
      assert init[..i] == items[..i];
      CoveredEventSits(init, rest, i);
    }
  }

  lemma CoversLive(items: seq<Item>, events: seq<Event>, e: Event)
    requires Covers(items, events)
    ensures Covers(items + [Live(e)], events + [e])
  {
    assert (items + [Live(e)])[..|items|] == items;
    assert (events + [e])[..|events|] == events;
  }

  /** A marker accounts for everything lost before it. */
  lemma MarkerAccounts(items: seq<Item>, dropped: nat, events: seq<Event>, t: nat)
    requires Accounts(items, dropped, events) && dropped >= 1
    ensures Accounts(items + [Dropped(t, dropped)], 0, events)
  {
    assert (items + [Dropped(t, dropped)])[..|items|] == items;
    assert events[..|events|] == events;
  }

  /** With nothing unreported, an event on the channel accounts for itself. */
  lemma EventAccounts(items: seq<Item>, events: seq<Event>, e: Event)
    requires Accounts(items, 0, events)
    ensures Accounts(items + [Live(e)], 0, events + [e])
  {
    hide Covers;
    assert events[..|events|] == events && (events + [e])[..|events| + 1] == events + [e];
    CoversLive(items, events, e);
  }

  /** A lost event is one more unreported one. */
  lemma LossAccounts(items: seq<Item>, dropped: nat, events: seq<Event>, e: Event)
    requires Accounts(items, dropped, events)
    ensures Accounts(items, dropped + 1, events + [e])
  {
    assert (events + [e])[..|events| - dropped] == events[..|events| - dropped];
  }

  /** Without a marker every event was delivered, in order. */
  lemma {:induction false} NoMarkersMeansEverything(items: seq<Item>, events: seq<Event>)
    requires Covers(items, events)
    requires forall i :: 0 <= i < |items| ==> items[i].Live?
    ensures items == Lives(events)
    decreases |items|
  {
    if items != [] {
      NoMarkersMeansEverything(items[..|items| - 1], events[..|events| - 1]);
      assert items == items[..|items| - 1] + [items[|items| - 1]];
    }
  }

  /** What happens to a subscription: either send of an offer, or the subscriber reads an item. */
  datatype Action = Begin(e: Event) | Finish | Read

  /** The items read so far, the queue, the event between its two sends, and the events whose offer is over. */
  datatype Channel = Channel(read: seq<Item>, q: Queue, sending: Option<Event>, offered: seq<Event>)

  const EMPTY := Channel([], Queue([], 0), None, [])

  /** The bus's lock is held from the first send to the last, so no other offer begins in between. */
  function Step(c: Channel, capacity: nat, a: Action): Channel {
    match a
    case Begin(e) =>
      if c.sending.Some? then c
      else
        var (q, goOn) := MarkerSent(c.q, capacity, e);
        if goOn then c.(q := q, sending := Some(e)) else c.(q := q, offered := c.offered + [e])
    case Finish =>
      if c.sending.None? then c
      else
        var e := c.sending.value;
        Channel(c.read, EventSent(c.q, capacity, e), None, c.offered + [e])
    case Read =>
      if c.q.ch == [] then c
      else c.(read := c.read + [c.q.ch[0]], q := c.q.(ch := c.q.ch[1..]))
  }

  function Run(actions: seq<Action>, capacity: nat): Channel {
    if actions == [] then EMPTY
    else Step(Run(actions[..|actions| - 1], capacity), capacity, actions[|actions| - 1])
  }

  /** The events of the offers that began, in order. */
  function Published(actions: seq<Action>, capacity: nat): seq<Event> {
    if actions == [] then []
    else
      var init, last := actions[..|actions| - 1], actions[|actions| - 1];
      Published(init, capacity) + if last.Begin? && Run(init, capacity).sending.None? then [last.e] else []
  }

  /** What was read and queued accounts for every event offered; while an event is being sent, no loss is unreported. */
  predicate InOrder(c: Channel, capacity: nat) {
    && Accounts(c.read + c.q.ch, c.q.dropped, c.offered)
    && |c.q.ch| <= capacity
    && (c.sending.Some? ==> c.q.dropped == 0)
  }

  lemma StepKeepsInOrder(c: Channel, capacity: nat, a: Action)
    requires InOrder(c, capacity)
    ensures InOrder(Step(c, capacity, a), capacity)
  {
    hide Accounts;
    var items := c.read + c.q.ch;
    match a
    case Begin(e) =>
      if c.sending.None? && c.q.dropped > 0 {
        if |c.q.ch| < capacity {
          MarkerAccounts(items, c.q.dropped, c.offered, e.t);
          Regroup(c.read, c.q.ch, [Dropped(e.t, c.q.dropped)]);
        } else {
          LossAccounts(items, c.q.dropped, c.offered, e);
        }
      }
    case Finish =>
      if c.sending.Some? {
        var e := c.sending.value;
        if |c.q.ch| < capacity {
          EventAccounts(items, c.offered, e);
          Regroup(c.read, c.q.ch, [Live(e)]);
        } else {
          LossAccounts(items, 0, c.offered, e);
        }
      }
    case Read =>
      if c.q.ch != [] {
        assert (c.read + [c.q.ch[0]]) + c.q.ch[1..] == items;
      }
  }

  lemma NothingAccounts()
    ensures Accounts(EMPTY.read + EMPTY.q.ch, 0, [])
  {
    assert EMPTY.read + EMPTY.q.ch == [];
  }

  /** For every interleaving of sends and reads, what was read and queued accounts for every event. */
  lemma {:induction false} EveryInterleavingAccounts(actions: seq<Action>, capacity: nat)
    ensures var c := Run(actions, capacity);
            && Accounts(c.read + c.q.ch, c.q.dropped, c.offered)
            && c.offered + AsList(c.sending) == Published(actions, capacity)
            && |c.q.ch| <= capacity
    ensures InOrder(Run(actions, capacity), capacity)
  {
    hide Accounts;
    if actions == [] {
      NothingAccounts();
    } else {
      var init, last := actions[..|actions| - 1], actions[|actions| - 1];
      EveryInterleavingAccounts(init, capacity);
      StepKeepsInOrder(Run(init, capacity), capacity, last);
    }
  }

  /** At step `n` an event is sent to a queue that is full. */
  predicate MeetsFullQueue(actions: seq<Action>, capacity: nat, n: nat)
    requires n < |actions|
  {
    var c := Run(actions[..n], capacity);
    actions[n].Finish? && c.sending.Some? && |c.q.ch| >= capacity
  }

  predicate IsMarked(items: seq<Item>) {
    exists i :: 0 <= i < |items| && items[i].Dropped?
  }

  /**
    Nothing is lost without need: everything offered is delivered in order, and nothing is counted as
    lost, if and only if no event met a full queue.
  */
  lemma {:induction false} EverythingDeliveredIff(actions: seq<Action>, capacity: nat)
    ensures var c := Run(actions, capacity);
      c.q.dropped == 0 && c.read + c.q.ch == Lives(c.offered)
      <==> forall n :: 0 <= n < |actions| ==> !MeetsFullQueue(actions, capacity, n)
  {
    if n :| 0 <= n < |actions| && MeetsFullQueue(actions, capacity, n) {
      LossIsSeen(actions, capacity, n);
    } else {
      RoomMeansDelivery(actions, capacity);
    }
  }

  lemma {:induction false} RoomMeansDelivery(actions: seq<Action>, capacity: nat)
    requires forall n :: 0 <= n < |actions| ==> !MeetsFullQueue(actions, capacity, n)
    ensures var c := Run(actions, capacity);
      c.q.dropped == 0 && c.read + c.q.ch == Lives(c.offered)
  {
    if actions != [] {
      var init, last := actions[..|actions| - 1], actions[|actions| - 1];
      forall n | 0 <= n < |init| ensures !MeetsFullQueue(init, capacity, n) {
        assert !MeetsFullQueue(actions, capacity, n) && init[..n] == actions[..n];
      }
      RoomMeansDelivery(init, capacity);
      assert !MeetsFullQueue(actions, capacity, |init|);
      DeliveryStep(Run(init, capacity), capacity, last);
    }
  }

  lemma DeliveryStep(c: Channel, capacity: nat, a: Action)
    requires c.q.dropped == 0 && c.read + c.q.ch == Lives(c.offered)
    requires a.Finish? && c.sending.Some? ==> |c.q.ch| < capacity
    ensures var next := Step(c, capacity, a);
      next.q.dropped == 0 && next.read + next.q.ch == Lives(next.offered)
  {
    match a
    case Begin(e) =>
    case Finish =>
      if c.sending.Some? {
        Regroup(c.read, c.q.ch, [Live(c.sending.value)]);
        assert Lives(c.offered + [c.sending.value]) == Lives(c.offered) + [Live(c.sending.value)];
      }
    case Read =>
      if c.q.ch != [] {
        assert (c.read + [c.q.ch[0]]) + c.q.ch[1..] == c.read + c.q.ch;
      }
  }

  /** A loss is counted, or a marker tells of it; later sends do not hide it. */
  lemma {:induction false} LossIsSeen(actions: seq<Action>, capacity: nat, n: nat)
    requires n < |actions| && MeetsFullQueue(actions, capacity, n)
    ensures var c := Run(actions, capacity); c.q.dropped > 0 || IsMarked(c.read + c.q.ch)
    decreases |actions|
  {
    var init, last := actions[..|actions| - 1], actions[|actions| - 1];
    if n < |init| {
      assert init[..n] == actions[..n] && init[n] == actions[n];
      LossIsSeen(init, capacity, n);
      LossStays(Run(init, capacity), capacity, last);
    }
  }

  lemma LossStays(c: Channel, capacity: nat, a: Action)
    requires c.q.dropped > 0 || IsMarked(c.read + c.q.ch)
    ensures var next := Step(c, capacity, a); next.q.dropped > 0 || IsMarked(next.read + next.q.ch)
  {
    var next := Step(c, capacity, a);
    var items, items' := c.read + c.q.ch, next.read + next.q.ch;
    assert |items| <= |items'| && forall i :: 0 <= i < |items| ==> items'[i] == items[i];
    if IsMarked(items) {
      var i :| 0 <= i < |items| && items[i].Dropped?;
      assert items'[i].Dropped?;
    } else if a.Begin? && c.sending.None? && |c.q.ch| < capacity {
      assert items'[|items|].Dropped?;
    }
  }

  function Reads(c: Channel, capacity: nat, n: nat): Channel
    decreases n
  {
    if n == 0 then c else Reads(Step(c, capacity, Read), capacity, n - 1)
  }

  lemma {:induction false} ReadsTakeTheOldest(c: Channel, capacity: nat, n: nat)
    ensures var m := Min(n, |c.q.ch|);
            Reads(c, capacity, n) == c.(read := c.read + c.q.ch[..m], q := c.q.(ch := c.q.ch[m..]))
    decreases n
  {
    var m, ch := Min(n, |c.q.ch|), c.q.ch;
    if m == 0 {
      assert c.read + ch[..0] == c.read && ch[0..] == ch;
      if n > 0 {
        ReadsTakeTheOldest(c, capacity, n - 1);
      }
    } else {
      ReadsTakeTheOldest(Step(c, capacity, Read), capacity, n - 1);
      assert ch[1..][m - 1..] == ch[m..];
      assert ch[..m] == [ch[0]] + ch[1..][..m - 1];
      Regroup(c.read, [ch[0]], ch[1..][..m - 1]);
    }
  }

  /** An offer whose marker is not refused is its two sends, with the subscriber's reads in between. */
  lemma OfferedIsItsSteps(c: Channel, capacity: nat, e: Event, taken: nat)
    requires c.sending.None? && MarkerSent(c.q, capacity, e).1
    ensures var (read, q) := Offered(c.q, capacity, e, taken);
            Step(Reads(Step(c, capacity, Begin(e)), capacity, taken), capacity, Finish)
            == Channel(c.read + read, q, None, c.offered + [e])
  {
    ReadsTakeTheOldest(Step(c, capacity, Begin(e)), capacity, taken);
  }

  // ---------------------------------------------------------------- snapshot, then live events

  lemma {:induction false} LastStateAppend(a: seq<Event>, b: seq<Event>)
    ensures LastState(a + b) == if LastState(b).Some? then LastState(b) else LastState(a)
    ensures LastPorts(a + b) == if LastPorts(b).Some? then LastPorts(b) else LastPorts(a)
    ensures Logs(a + b) == Logs(a) + Logs(b)
    decreases |b|
  {
    if b == [] {
      assert a + b == a;
    } else {
      assert (a + b)[..|a + b| - 1] == a + b[..|b| - 1];
      LastStateAppend(a, b[..|b| - 1]);
    }
  }

  lemma {:induction false} OnlyLogs(events: seq<Event>)
    requires forall i :: 0 <= i < |events| ==> events[i].body.LogBody?
    ensures LastState(events) == None && LastPorts(events) == None && Logs(events) == events
  {
    if events != [] {
      OnlyLogs(events[..|events| - 1]);
      assert events == events[..|events| - 1] + [events[|events| - 1]];
    }
  }

  lemma {:induction false} LastBodies(events: seq<Event>)
    ensures LastState(events).Some? ==> LastState(events).value.body.StateBody?
    ensures LastPorts(events).Some? ==> LastPorts(events).value.body.PortsBody?
    ensures forall i :: 0 <= i < |Logs(events)| ==> Logs(events)[i].body.LogBody?
  {
    if events != [] {
      LastBodies(events[..|events| - 1]);
    }
  }

  lemma OneEvent(e: Event)
    ensures LastState([e]) == if e.body.StateBody? then Some(e) else None
    ensures LastPorts([e]) == if e.body.PortsBody? then Some(e) else None
    ensures Logs([e]) == if e.body.LogBody? then [e] else []
  {
    assert [e][..0] == [];
  }

  lemma ThreeParts(state: Option<Event>, ports: Option<Event>, logs: seq<Event>)
    requires state.Some? ==> state.value.body.StateBody?
    requires ports.Some? ==> ports.value.body.PortsBody?
    requires forall i :: 0 <= i < |logs| ==> logs[i].body.LogBody?
    ensures LastState(AsList(state) + AsList(ports) + logs) == state
    ensures LastPorts(AsList(state) + AsList(ports) + logs) == ports
    ensures Logs(AsList(state) + AsList(ports) + logs) == logs
  {
    if state.Some? {
      OneEvent(state.value);
    }
    if ports.Some? {
      OneEvent(ports.value);
    }
    OnlyLogs(logs);
    LastStateAppend(AsList(state), AsList(ports));
    LastStateAppend(AsList(state) + AsList(ports), logs);
  }

  lemma SnapshotContents(past: seq<Event>, history: int, capacity: nat)
    ensures LastState(SnapshotOf(past, history, capacity)) == LastState(past)
    ensures LastPorts(SnapshotOf(past, history, capacity)) == LastPorts(past)
    ensures Logs(SnapshotOf(past, history, capacity)) == LastN(Logs(past), Wanted(history, capacity))
  {
    var logs := LastN(LastN(Logs(past), capacity), if history < 0 then 0 else history);
    LastNTwice(Logs(past), capacity, if history < 0 then 0 else history);
    LastBodies(past);
    ThreeParts(LastState(past), LastPorts(past), logs);
  }

  /** How many log events a snapshot asks for and the ring can give. */
  function Wanted(history: int, capacity: nat): nat {
    if history < 0 then 0 else if capacity < history then capacity else history
  }

  /**
    Snapshot, then live events: no gap and no duplicate. Replaying them from nothing gives the
    state and ports of the whole past, and the log events are exactly the newest ones in order.
  */
  lemma SnapshotThenLiveIsCoherent(past: seq<Event>, live: seq<Event>, history: int, capacity: nat)
    ensures LastState(SnapshotOf(past, history, capacity) + live) == LastState(past + live)
    ensures LastPorts(SnapshotOf(past, history, capacity) + live) == LastPorts(past + live)
    ensures var n := |LastN(Logs(past), Wanted(history, capacity))| + |Logs(live)|;
            Logs(SnapshotOf(past, history, capacity) + live) == LastN(Logs(past + live), n)
  {
    SnapshotContents(past, history, capacity);
    ReplayAgrees(SnapshotOf(past, history, capacity), past, live, Wanted(history, capacity));
  }

  lemma ReplayAgrees(snapshot: seq<Event>, past: seq<Event>, live: seq<Event>, n: nat)
    requires LastState(snapshot) == LastState(past) && LastPorts(snapshot) == LastPorts(past)
    requires Logs(snapshot) == LastN(Logs(past), n)
    ensures LastState(snapshot + live) == LastState(past + live)
    ensures LastPorts(snapshot + live) == LastPorts(past + live)
    ensures Logs(snapshot + live) == LastN(Logs(past + live), |LastN(Logs(past), n)| + |Logs(live)|)
  {
    LastStateAppend(past, live);
    LastStateAppend(snapshot, live);
    LastNAppend(Logs(past), Logs(live), n);
  }

  // ---------------------------------------------------------------- the bus

  class Subscription {
    var snapshotLength: nat
    var ch: seq<Item>
    var capacity: nat
    var dropped: nat
    var closed: bool

    ghost var shown: seq<Event>     // the snapshot
    ghost var asked: int            // how many log events it asked for
    ghost var since: nat            // how many events were published before it
    ghost var offered: seq<Event>   // the events published since
    ghost var received: seq<Item>   // what the subscriber has read
    ghost var queued: seq<Item>     // what was put on the channel after the snapshot

    ghost predicate Valid()
      reads this
    {
      && |ch| <= capacity
      && received + ch == Lives(shown) + queued
      && Accounts(queued, dropped, offered)
    }

    constructor (snapshot: seq<Event>, queue: nat, ghost asked: int, ghost since: nat)
      ensures Valid() && !closed && dropped == 0
      ensures ch == Lives(snapshot) && snapshotLength == |snapshot| && capacity == queue + |snapshot|
      ensures shown == snapshot && this.asked == asked && this.since == since
      ensures offered == [] && received == [] && queued == []
    {
      ch, snapshotLength, capacity := Lives(snapshot), |snapshot|, queue + |snapshot|;
      dropped, closed := 0, false;
      shown, offered, received, queued := snapshot, [], [], [];
      this.asked, this.since := asked, since;
      new;
      assert Lives(snapshot) + [] == Lives(snapshot) && [] + ch == ch;
    }

    /** A send on the channel that does not block. Sending on a closed channel would panic. */
    method TrySend(item: Item) returns (ok: bool)
      requires !closed && |ch| <= capacity
      modifies this`ch
      ensures ok <==> old(|ch|) < capacity
      ensures ch == if ok then old(ch) + [item] else old(ch)
    {
      ok := |ch| < capacity;
      if ok {
        ch := ch + [item];
      }
    }

    /** The subscriber takes up to `n` items. */
    method Take(n: nat)
      requires Valid()
      modifies this`ch, this`received
      ensures Valid()
      ensures var m := Min(n, old(|ch|)); ch == old(ch)[m..] && received == old(received) + old(ch)[..m]
    {
      var m := Min(n, |ch|);
      assert ch[..m] + ch[m..] == ch;
      Regroup(received, ch[..m], ch[m..]);
      received, ch := received + ch[..m], ch[m..];
    }

    /** The first send of an offer. */
    method Report(e: Event) returns (goOn: bool)
      requires Valid() && !closed
      modifies this`ch, this`dropped, this`offered, this`queued
      ensures Valid()
      ensures (Queue(ch, dropped), goOn) == MarkerSent(Queue(old(ch), old(dropped)), capacity, e)
      ensures goOn ==> dropped == 0 && offered == old(offered)
      ensures !goOn ==> offered == old(offered) + [e]
    {
      hide Accounts;
      if dropped == 0 {
        return true;
      }
      MarkerAccounts(queued, dropped, offered, e.t);
      LossAccounts(queued, dropped, offered, e);
      Appends(Dropped(e.t, dropped));
      goOn := TrySend(Dropped(e.t, dropped));
      if goOn {
        queued := queued + [Dropped(e.t, dropped)];
        dropped := 0;
      } else {
        dropped, offered := dropped + 1, offered + [e];
      }
    }

    /** The second send of an offer. */
    method Send(e: Event)
      requires Valid() && !closed && dropped == 0
      modifies this`ch, this`dropped, this`offered, this`queued
      ensures Valid() && offered == old(offered) + [e]
      ensures Queue(ch, dropped) == EventSent(Queue(old(ch), 0), capacity, e)
    {
      hide Accounts;
      EventAccounts(queued, offered, e);
      LossAccounts(queued, 0, offered, e);
      Appends(Live(e));
      var sent := TrySend(Live(e));
      offered := offered + [e];
      if sent {
        queued := queued + [Live(e)];
      } else {
        dropped := dropped + 1;
      }
    }

    /** Lost events are reported before the next one. Between the two sends the subscriber may read `taken` items. */
    method Offer(e: Event, taken: nat)
      requires Valid() && !closed
      modifies this`ch, this`dropped, this`offered, this`received, this`queued
      ensures Valid()
      ensures var (read, after) := Offered(Queue(old(ch), old(dropped)), capacity, e, taken);
              received == old(received) + read && Queue(ch, dropped) == after
      ensures offered == old(offered) + [e]
      ensures old(dropped) == 0 && old(|ch|) < capacity ==> dropped == 0 && received + ch == old(received + ch) + [Live(e)]
      ensures old(dropped) > 0 && old(|ch|) + 1 < capacity ==>
        dropped == 0 && received + ch == old(received + ch) + [Dropped(e.t, old(dropped)), Live(e)]
      ensures old(dropped) > 0 && old(|ch|) == capacity ==> dropped == old(dropped) + 1 && received + ch == old(received + ch)
    {
      hide Accounts, MarkerSent, EventSent;
      OfferedWithRoom(received, Queue(ch, dropped), capacity, e, taken);
      var goOn := Report(e);
      if !goOn {
        assert received + [] == received;
        return;
      }
      Take(taken);
      Send(e);
    }

    lemma Appends(item: Item)
      requires received + ch == Lives(shown) + queued
      ensures received + (ch + [item]) == Lives(shown) + (queued + [item])
    {
      Regroup(received, ch, [item]);
      Regroup(Lives(shown), queued, [item]);
    }

    /** Closing a closed channel would panic. */
    method CloseChannel()
      requires !closed
      modifies this`closed
      ensures closed
    {
      closed := true;
    }

    /** Nothing but `closed` has changed. */
    twostate predicate OnlyClosed()
      reads this
    {
      && ch == old(ch) && capacity == old(capacity) && dropped == old(dropped) && snapshotLength == old(snapshotLength)
      && shown == old(shown) && asked == old(asked) && since == old(since)
      && offered == old(offered) && received == old(received) && queued == old(queued)
    }

    /** The subscription was offered `e`, and nothing else happened but that the subscriber read between the two sends. */
    twostate predicate Got(e: Event)
      reads this
    {
      && capacity == old(capacity) && snapshotLength == old(snapshotLength) && closed == old(closed)
      && shown == old(shown) && asked == old(asked) && since == old(since)
      && offered == old(offered) + [e]
      && (old(dropped) == 0 && |old(ch)| < capacity ==> received + ch == old(received + ch) + [Live(e)])
      && |old(received)| <= |received|
      && var (read, after) := Offered(Queue(old(ch), old(dropped)), capacity, e, |received| - |old(received)|);
         received == old(received) + read && Queue(ch, dropped) == after
    }

    /** The subscriber takes the next item, if there is one. */
    method Receive() returns (item: Option<Item>)
      requires Valid()
      modifies this`ch, this`received
      ensures Valid()
      ensures old(ch) == [] ==> item == None && ch == [] && received == old(received)
      ensures old(ch) != [] ==> item == Some(old(ch)[0]) && ch == old(ch)[1..] && received == old(received) + [old(ch)[0]]
    {
      if ch == [] {
        return None;
      }
      item := Some(ch[0]);
      assert (received + [ch[0]]) + ch[1..] == received + ch;
      received := received + [ch[0]];
      ch := ch[1..];
    }
  }

  class EventBus {
    const queue: nat
    var closed: bool
    var state: Option<Event>
    var ports: Option<Event>
    const history: array<Event>  // ring buffer of log events
    var next: nat
    var full: bool
    var subs: set<Subscription>

    ghost var published: seq<Event>
    ghost var all: set<Subscription>  // every subscription ever made

    ghost predicate Valid()
      reads this, history, all
    {
      && MemoryValid()
      && subs <= all
      && (forall s :: s in all ==> SubscriptionValid(s))
      && (closed ==> subs == {})
    }

    /** Open subscriptions are exactly the subscribed ones, and each has been offered every event since it began. */
    ghost predicate SubscriptionValid(s: Subscription)
      reads this, s
    {
      && s.Valid()
      && (s in subs <==> !s.closed)
      && s.since + |s.offered| <= |published|
      && s.shown == SnapshotOf(published[..s.since], s.asked, history.Length)
      && s.offered == published[s.since..s.since + |s.offered|]
      && (s in subs ==> s.since + |s.offered| == |published|)
    }

    constructor ()
      ensures Valid() && !closed && subs == {} && all == {} && published == []
      ensures queue == DEFAULT_EVENT_QUEUE && history.Length == EVENT_HISTORY_SIZE && fresh(history)
    {
      queue := DEFAULT_EVENT_QUEUE;
      history := new Event[EVENT_HISTORY_SIZE](_ => Event(0, ActivityBody("")));
      next, full, closed := 0, false, false;
      state, ports := None, None;
      subs, all, published := {}, {}, [];
    }

    method Publish(event: Event, now: nat)
      requires Valid()
      modifies this, history, subs
      ensures Valid() && published == old(published) + [Stamped(event, now)]
      ensures subs == old(subs) && all == old(all) && closed == old(closed)
      ensures forall s :: s in subs ==> s.Got(Stamped(event, now))
    {
      hide SnapshotOf, Accounts, Lives, Offered, LastState, LastPorts, Logs, LastN, RingList;
      var e := Stamped(event, now);
      Record(e);
      forall s | s in all
        ensures published[..s.since] == old(published[..s.since])
        ensures published[s.since..s.since + |s.offered|] == old(published[s.since..s.since + |s.offered|])
      {
      }
      Distribute(e);
    }

    /** The newest state and ports and the ring of log events. */
    ghost predicate MemoryValid()
      reads this, history
    {
      && history.Length > 0 && next < history.Length
      && RingList(history[..], next, full) == LastN(Logs(published), history.Length)
      && state == LastState(published)
      && ports == LastPorts(published)
    }

    method Record(e: Event)
      requires MemoryValid()
      modifies this`state, this`ports, this`next, this`full, this`published, history
      ensures MemoryValid() && published == old(published) + [e]
    {
      hide LastState, LastPorts, Logs, LastN, RingList;
      LastStateAppend(published, [e]);
      OneEvent(e);
      LastNPush(Logs(published), e, history.Length);
      assert Logs(published) + [] == Logs(published);
      match e.body {
        case StateBody(_, _) => state := Some(e);
        case PortsBody(_) => ports := Some(e);
        case LogBody(_, _, _) => Remember(e);
        case ActivityBody(_) =>
      }
      published := published + [e];
    }

    method Distribute(e: Event)
      requires published != [] && published[|published| - 1] == e
      requires forall s :: s in subs ==> Behind(s)
      modifies subs
      ensures forall s :: s in subs ==> SubscriptionValid(s) && s.Got(e)
    {
      hide SubscriptionValid, Behind, Subscription.Valid, Offered;
      var todo := subs;
      while todo != {}
        invariant todo <= subs
        invariant forall s :: s in todo ==> Behind(s) && unchanged(s)
        invariant forall s :: s in subs - todo ==> SubscriptionValid(s) && s.Got(e)
        decreases |todo|
      {
        var sub :| sub in todo;
        OfferTo(sub, e);
        todo := todo - {sub};
      }
    }

    method OfferTo(sub: Subscription, e: Event)
      requires published != [] && published[|published| - 1] == e
      requires sub in subs && Behind(sub)
      modifies sub
      ensures SubscriptionValid(sub) && sub.Got(e)
    {
      hide SnapshotOf, Accounts, Lives, Offered, LastState, LastPorts, Logs, LastN, RingList;
      ghost var n := |sub.offered|;
      var taken: nat := *;
      sub.Offer(e, taken);
      OnlyItsReadsMatter(old(Queue(sub.ch, sub.dropped)), sub.capacity, e, taken);
      assert published[sub.since..sub.since + n + 1] == published[sub.since..sub.since + n] + [e];
    }

    /** An open subscription that has not been offered the newest event yet. */
    ghost predicate Behind(s: Subscription)
      reads this, s
    {
      && s.Valid() && !s.closed
      && s.since + |s.offered| + 1 == |published|
      && s.shown == SnapshotOf(published[..s.since], s.asked, history.Length)
      && s.offered == published[s.since..s.since + |s.offered|]
    }

    method Remember(e: Event)
      requires history.Length > 0 && next < history.Length
      modifies this`next, this`full, history
      ensures next < history.Length
      ensures RingList(history[..], next, full) == LastN(old(RingList(history[..], next, full)) + [e], history.Length)
    {
      RingPush(history[..], next, full, e);
      Wrap(next + 1, history.Length);
      history[next] := e;
      assert history[..] == old(history[..])[next := e];
      next := (next + 1) % history.Length;
      if next == 0 {
        full := true;
      }
    }

    /** The newest `n` log events of the ring. */
    method RecentLocked(n: int) returns (result: seq<Event>)
      requires MemoryValid()
      ensures result == LastN(LastN(Logs(published), history.Length), if n < 0 then 0 else n)
    {
      hide RingList, LastN, Logs, LastState, LastPorts;
      ghost var held := RingList(history[..], next, full);
      var count := if full then history.Length else next;
      var wanted := if n > count then count else n;
      if wanted <= 0 {
        LastNAll(held, if n < 0 then 0 else n);
        return [];
      }
      ghost var newest := LastN(held, wanted);
      result := [];
      var start := (next - wanted + history.Length) % history.Length;
      Wrap(next - wanted + history.Length, history.Length);
      var i := 0;
      while i < wanted
        invariant 0 <= i <= wanted
        invariant result == newest[..i]
      {
        assert newest[..i + 1] == newest[..i] + [newest[i]];
        RingRead(history[..], next, full, wanted, i);
        Wrap(start + i, history.Length);
        result := result + [history[(start + i) % history.Length]];
        i := i + 1;
      }
      LastNAll(held, n);
    }

    method MakeSnapshot(wanted: int) returns (snapshot: seq<Event>)
      requires MemoryValid()
      ensures snapshot == SnapshotOf(published, wanted, history.Length)
    {
      snapshot := [];
      if state.Some? {
        snapshot := snapshot + [state.value];
      }
      if ports.Some? {
        snapshot := snapshot + [ports.value];
      }
      var recent := RecentLocked(wanted);
      snapshot := snapshot + recent;
    }

    /** Snapshot first, then every event published from now on. After Close only the snapshot. */
    method Subscribe(wanted: int) returns (sub: Subscription)
      requires Valid()
      modifies this`subs, this`all
      ensures Valid() && fresh(sub)
      ensures all == old(all) + {sub}
      ensures subs == if closed then {} else old(subs) + {sub}
      ensures sub.closed == closed && sub.since == |published| && sub.asked == wanted
      ensures sub.ch == Lives(SnapshotOf(published, wanted, history.Length))
      ensures sub.snapshotLength == |sub.ch| && sub.capacity == queue + |sub.ch| && sub.dropped == 0
    {
      hide SnapshotOf, Accounts, Lives, Offered, LastState, LastPorts, Logs, LastN, RingList;
      var snapshot := MakeSnapshot(wanted);
      assert published[..|published|] == published;
      assert published[|published|..] == [];
      sub := new Subscription(snapshot, queue, wanted, |published|);
      all := all + {sub};
      if closed {
        sub.CloseChannel();
        return;
      }
      subs := subs + {sub};
    }

    /** Ends one subscription; ending it again does nothing. */
    method CloseSubscription(s: Subscription)
      requires Valid() && s in all
      modifies this`subs, s`closed
      ensures Valid() && s.closed
      ensures subs == old(subs) - {s} && all == old(all)
    {
      hide SnapshotOf, Accounts, Lives, Offered, LastState, LastPorts, Logs, LastN, RingList;
      if s.closed {
        return;
      }
      subs := subs - {s};
      s.CloseChannel();
    }

    /** Every open channel is closed once, with its queue intact; nobody is subscribed any more. */
    method Close()
      requires Valid()
      modifies this`closed, this`subs, subs
      ensures Valid() && closed && subs == {} && all == old(all)
      ensures forall s :: s in all ==> s.closed && s.ch == old(s.ch) && s.dropped == old(s.dropped)
    {
      hide SnapshotOf, Accounts, Lives, Offered, LastState, LastPorts, Logs, LastN, RingList;
      closed := true;
      CloseChannels();
      subs := {};
      forall s | s in all ensures SubscriptionValid(s) {
        ClosingKeepsValid(s);
      }
    }

    method CloseChannels()
      requires subs <= all && forall s :: s in all ==> (s in subs <==> !s.closed)
      modifies subs
      ensures forall s :: s in all ==> s.closed && s.OnlyClosed()
    {
      var todo := subs;
      while todo != {}
        invariant todo <= subs
        invariant forall s :: s in all ==> s.closed == (s !in todo) && s.OnlyClosed()
        decreases |todo|
      {
        var sub :| sub in todo;
        sub.CloseChannel();
        todo := todo - {sub};
      }
    }

    twostate lemma ClosingKeepsValid(s: Subscription)
      requires old(SubscriptionValid(s)) && s.OnlyClosed() && s.closed
      requires subs == {} && published == old(published)
      ensures SubscriptionValid(s)
    {
    }

    /**
      A subscriber that lost nothing and replays what it has read and what is queued for it holds
      the bus's current state and ports.
    */
    lemma LosslessReplayIsCurrent(s: Subscription)
      requires Valid() && s in subs
      requires s.dropped == 0 && forall i :: 0 <= i < |s.queued| ==> s.queued[i].Live?
      ensures exists events :: s.received + s.ch == Lives(events)
                && LastState(events) == state && LastPorts(events) == ports
    {
      hide SnapshotOf, LastState, LastPorts, Logs, LastN, RingList;
      var past := published[..s.since];
      assert published == past + s.offered;
      assert s.offered[..|s.offered|] == s.offered;
      NoMarkersMeansEverything(s.queued, s.offered);
      var events := s.shown + s.offered;
      assert s.received + s.ch == Lives(s.shown) + Lives(s.offered) == Lives(events);
      SnapshotThenLiveIsCoherent(past, s.offered, s.asked, history.Length);
    }
  }
}
