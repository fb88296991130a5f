/**
  Ensure and EnsureAndRun (internal/host/ensure.go): find or start the instance, wait until it is
  ready, run the command, and try again if the instance was not ready after all.

  What the instance, its lock, its event stream and the clock do is chosen by the world at every
  call. Times are milliseconds; `expires` is the moment at which the context's timeout ends.
*/
module Ensure {
  import opened Common
  import ExecStart

  const NOT_READY_RETRY_DELAY := 100
  const POLL := 100
  const SOCKET_WAIT := 10 * 1000
  const MAX_SPAWNS := 3
  const MAX_RESTARTS := 3
  const EXIT_ALREADY_RUNNING := 3

  datatype Status = Starting | Connecting | Ready | Reconnecting | Stopping | Failed | Stopped

  /** What a query tells about the instance: its status, its version, and whether its -e values are ours. */
  datatype Instance = Instance(status: Status, sameVersion: bool, sameEnv: bool)

  datatype QueryAnswer = Answer(instance: Instance) | Legacy | Unreachable

  datatype LockAnswer = Held | Free | LockError

  datatype Child = NoChild | Alive | ExitedWith(code: int)

  datatype Event = Log | StateEvent(status: Status)

  /** What a wait has last learnt from the event stream. */
  datatype Seen = NothingYet | NotSubscribed | Saw(event: Event) | StreamEnded

  datatype Error =
    | InstanceGone | TimedOut | Cancelled
    | LegacyInstance | OtherVersion | CouldNotStart | ContainerNotRunning | StartupFailed | DoesNotAnswer
    | LockFailed | InstanceFailed | DidNotExit | QueryFailed | SpawnFailed

  datatype Result<+T> = Ok(value: T) | Err(error: Error)

  /** Attempts of EnsureAndRun: all but the last were rejected as not ready. */
  ghost predicate OnlyLastCounts(attempts: seq<seq<ExecStart.Step>>) {
    forall i :: 0 <= i < |attempts| - 1 ==> RejectedNotReady(attempts[i])
  }

  predicate RejectedNotReady(steps: seq<ExecStart.Step>) {
    ExecStart.Run(steps).client == ExecStart.Ended(ExecStart.NotReady)
  }

  /** The requests that were written for some attempts, and that the handlers left behind still write. */
  function Requests(attempts: seq<seq<ExecStart.Step>>, later: seq<seq<ExecStart.Step>>): nat
    requires |attempts| == |later|
  {
    if attempts == [] then 0
    else
      var last := |attempts| - 1;
      Requests(attempts[..last], later[..last]) + ExecStart.Run(attempts[last] + later[last]).bridge.writes
  }

  /** Attempts that were all rejected as not ready have written nothing, and never will. */
  lemma {:induction false} NothingRequested(attempts: seq<seq<ExecStart.Step>>, later: seq<seq<ExecStart.Step>>)
    requires |attempts| == |later|
    requires forall i :: 0 <= i < |attempts| ==> RejectedNotReady(attempts[i])
    ensures Requests(attempts, later) == 0
    decreases |attempts|
  {
    if attempts != [] {
      var last := |attempts| - 1;
      assert RejectedNotReady(attempts[last]);
      assert forall i :: 0 <= i < last ==> attempts[..last][i] == attempts[i];
      NothingRequested(attempts[..last], later[..last]);
      ExecStart.NotReadyMeansNothingWritten(attempts[last], later[last]);
    }
  }

  /** All attempts together write at most `n` requests, whatever the handlers left behind still do. */
  ghost predicate RequestsAtMost(attempts: seq<seq<ExecStart.Step>>, n: nat) {
    forall later: seq<seq<ExecStart.Step>> :: |attempts| == |later| ==> Requests(attempts, later) <= n
  }

  /** At most once. */
  lemma AtMostOnce(attempts: seq<seq<ExecStart.Step>>)
    requires OnlyLastCounts(attempts)
    ensures RequestsAtMost(attempts, 1)
  {
    forall later: seq<seq<ExecStart.Step>> | |attempts| == |later| ensures Requests(attempts, later) <= 1 {
      if attempts != [] {
        var last := |attempts| - 1;
        assert forall i :: 0 <= i < last ==> attempts[..last][i] == attempts[i];
        NothingRequested(attempts[..last], later[..last]);
        ExecStart.AtMostOneRequest(attempts[last] + later[last]);
      }
    }
  }

  lemma NeverRequested(attempts: seq<seq<ExecStart.Step>>)
    requires forall i :: 0 <= i < |attempts| ==> RejectedNotReady(attempts[i])
    ensures RequestsAtMost(attempts, 0)
  {
    forall later: seq<seq<ExecStart.Step>> | |attempts| == |later| ensures Requests(attempts, later) <= 0 {
      NothingRequested(attempts, later);
    }
  }

  /** How often the instance said that it is ready. */
  function Readies(events: seq<Event>): nat {
    if events == [] then 0
    else Readies(events[..|events| - 1]) + if events[|events| - 1] == StateEvent(Ready) then 1 else 0
  }

  /** Everything heard was followed up: no end was passed over, and every "ready" was answered by "not any more". */
  ghost predicate FollowedUp(heard: seq<Event>, answers: seq<QueryAnswer>, asked: nat) {
    && (forall k :: 0 <= k < |heard| ==> heard[k] !in {StateEvent(Failed), StateEvent(Stopped)})
    && asked <= |answers| && |answers| - asked == Readies(heard)
    && forall k :: asked <= k < |answers| ==> answers[k].Answer? && !answers[k].instance.status.Ready?
  }

  lemma NothingHeard(answers: seq<QueryAnswer>)
    ensures FollowedUp([], answers, |answers|)
  {
  }

  lemma HeardOther(heard: seq<Event>, e: Event, answers: seq<QueryAnswer>, asked: nat)
    requires FollowedUp(heard, answers, asked)
    requires e !in {StateEvent(Ready), StateEvent(Failed), StateEvent(Stopped)}
    ensures FollowedUp(heard + [e], answers, asked)
  {
    assert (heard + [e])[..|heard|] == heard;
  }

  lemma HeardReady(heard: seq<Event>, answers: seq<QueryAnswer>, asked: nat, instance: Instance)
    requires FollowedUp(heard, answers, asked) && !instance.status.Ready?
    ensures FollowedUp(heard + [StateEvent(Ready)], answers + [Answer(instance)], asked)
  {
    var e: Event := StateEvent(Ready);
    assert (heard + [e])[..|heard|] == heard;
  }

  datatype RunResult = Ran(outcome: ExecStart.Outcome) | NotRun(error: Error)

  class Ensurer {
    const timeout: nat
    const noStart: bool
    const withEnv: bool            // -e values were given
    const expires: nat
    var now: nat
    var cancelled: bool            // the caller cancelled the context
    var spawns: nat
    var warned: bool
    ghost var warnings: nat
    ghost var attempts: seq<seq<ExecStart.Step>>
    var eventsLeft: nat            // of the event stream, which is finite
    ghost var lastAnswer: QueryAnswer
    ghost var answers: seq<QueryAnswer>
    ghost var heard: seq<Event>    // from the last event stream
    ghost var lastLock: LockAnswer
    ghost var lastChild: Child     // as last probed
    ghost var lastSeen: Seen
    ghost var spawnedAt: nat       // when the last instance was started
    ghost var restarts: nat        // by the last `EnsureReady`

    ghost predicate Valid()
      reads this
    {
      && spawns <= MAX_SPAWNS && spawnedAt <= now
      && warnings == (if warned then 1 else 0)
    }

    constructor (timeout: nat, noStart: bool, withEnv: bool, start: nat)
      ensures Valid() && this.timeout == timeout && this.noStart == noStart && this.withEnv == withEnv
      ensures now == start && expires == start + timeout
      ensures spawns == 0 && !warned && !cancelled && attempts == []
    {
      this.timeout, this.noStart, this.withEnv := timeout, noStart, withEnv;
      expires, now := start + timeout, start;
      cancelled, spawns, warned, warnings, attempts := false, 0, false, 0, [];
      eventsLeft, answers, heard := 0, [], [];
      lastAnswer, lastLock, lastChild, lastSeen, spawnedAt, restarts := Unreachable, Free, NoChild, NothingYet, start, 0;
    }

    /** Time passes, and the caller may cancel. */
    method Elapse()
      modifies `now, `cancelled
      ensures old(now) <= now && (old(cancelled) ==> cancelled)
    {
      var passed :| 0 <= passed;
      var cancels: bool := *;
      now, cancelled := now + passed, cancelled || cancels;
    }

    predicate Done()
      reads this
    {
      cancelled || expires <= now
    }

    /** Waits for `delay` or for the end of the context, which wins if it has come before. */
    method Sleep(delay: nat) returns (done: bool)
      modifies `now, `cancelled
      ensures old(now) <= now && (old(cancelled) ==> cancelled)
      ensures done ==> Done()
      ensures !done ==> old(now) + delay <= now && old(now) < expires && !old(cancelled)
    {
      if Done() { return true; }
      Elapse();
      if Done() {
        done := *;
        if done { return; }
      }
      now, done := now + delay, false;
    }

    /** Why the context has ended: whichever came first. */
    method DoneError() returns (e: Error)
      requires Done()
      ensures e in {TimedOut, Cancelled}
      ensures e == TimedOut ==> expires <= now
      ensures e == Cancelled ==> cancelled
    {
      var cancelledFirst: bool := *;
      e := if cancelled && (cancelledFirst || now < expires) then Cancelled else TimedOut;
    }

    /** The end of the context explains any error. */
    method CtxError(err: Error) returns (e: Error)
      modifies `now, `cancelled
      ensures old(now) <= now && (old(cancelled) ==> cancelled)
      ensures old(Done()) ==> e in {TimedOut, Cancelled}
      ensures (e == TimedOut && expires <= now) || (e == Cancelled && cancelled) || (e == err && !Done())
    {
      Elapse();
      e := err;
      if Done() { e := DoneError(); }
    }

    method Query() returns (answer: QueryAnswer)
      modifies `now, `cancelled, `lastAnswer, `answers
      ensures old(now) <= now && (old(cancelled) ==> cancelled) && lastAnswer == answer
      ensures answers == old(answers) + [answer]
    {
      Elapse();
      answer := *;
      lastAnswer, answers := answer, answers + [answer];
    }

    method InstanceRunning() returns (lock: LockAnswer)
      modifies `now, `cancelled, `lastLock
      ensures old(now) <= now && (old(cancelled) ==> cancelled) && lastLock == lock
    {
      Elapse();
      lock := *;
      lastLock := lock;
    }

    /** A child that has exited stays so. */
    method Probe(child: Child) returns (seen: Child)
      modifies `lastChild
      ensures lastChild == seen
      ensures !child.Alive? ==> seen == child
      ensures child.Alive? ==> !seen.NoChild?
    {
      var exits: bool := *;
      var code: int := *;
      seen := if child.Alive? && exits then ExitedWith(code) else child;
      lastChild := seen;
    }

    /** Another version is refused; other -e values are warned about, once. */
    method Check(instance: Instance) returns (r: Result<Instance>)
      requires Valid()
      modifies `warned, `warnings
      ensures Valid()
      ensures r == if instance.sameVersion then Ok(instance) else Err(OtherVersion)
      ensures warned == (old(warned) || (instance.sameVersion && withEnv && !instance.sameEnv))
    {
      if !instance.sameVersion { return Err(OtherVersion); }
      if withEnv && !warned && !instance.sameEnv {
        warned, warnings := true, warnings + 1;
      }
      return Ok(instance);
    }

    /** Starts an instance; with noStart only while the container runs. */
    method Spawn() returns (error: Option<Error>)
      requires Valid()
      modifies `now, `cancelled, `spawns, `spawnedAt
      ensures Valid() && old(now) <= now && (old(cancelled) ==> cancelled)
      ensures old(spawns) == MAX_SPAWNS ==> error == Some(CouldNotStart)
      ensures old(spawns) <= spawns <= old(spawns) + 1
      ensures error in {None, Some(CouldNotStart), Some(ContainerNotRunning), Some(SpawnFailed)}
      ensures error == None ==> spawns == old(spawns) + 1 && spawnedAt == now
      ensures error != None ==> spawnedAt == old(spawnedAt)
      ensures error == Some(CouldNotStart) ==> spawns == MAX_SPAWNS
      ensures error == Some(SpawnFailed) ==> spawns == old(spawns) + 1
      ensures error in {Some(CouldNotStart), Some(ContainerNotRunning)} ==> spawns == old(spawns)
      ensures error == Some(ContainerNotRunning) ==> noStart
    {
      if spawns >= MAX_SPAWNS { return Some(CouldNotStart); }
      if noStart {
        var containerRuns: bool := *;
        if !containerRuns { return Some(ContainerNotRunning); }
      }
      spawns := spawns + 1;
      Elapse();
      var starts: bool := *;
      if !starts { return Some(SpawnFailed); }
      spawnedAt := now;
      return None;
    }

    /** Starts an instance if nobody holds the lock and no child of ours may still come up. */
    method StartIfNone(child: Child, lock: LockAnswer, deadline: nat)
      returns (started: Child, socketDeadline: nat, error: Option<Error>)
      requires Valid()
      modifies `now, `cancelled, `spawns, `spawnedAt, `lastChild
      ensures Valid() && old(now) <= now && (old(cancelled) ==> cancelled)
      ensures error.Some? ==> lock == Free && error.value in {CouldNotStart, ContainerNotRunning, SpawnFailed}
      ensures error == Some(CouldNotStart) ==> spawns == MAX_SPAWNS
      ensures error == Some(ContainerNotRunning) ==> noStart
      ensures error == Some(SpawnFailed) ==> old(spawns) < spawns
      ensures error.Some? ==> socketDeadline == deadline && spawnedAt == old(spawnedAt)
      ensures spawns == old(spawns) || (spawns == old(spawns) + 1 && lock == Free)
      ensures error.None? && spawns == old(spawns) ==> socketDeadline == deadline && (child.NoChild? ==> started.NoChild?)
      ensures error.None? && spawns > old(spawns) ==>
        started == Alive && spawnedAt == now && socketDeadline == now + SOCKET_WAIT
      ensures error.None? && spawns == old(spawns) ==> spawnedAt == old(spawnedAt)
      ensures error.None? && child.NoChild? && lock == Free ==> spawns > old(spawns)
    {
      started := Probe(child);
      socketDeadline, error := deadline, None;
      if lock == Free && (started.NoChild? || started == ExitedWith(EXIT_ALREADY_RUNNING)) {
        error := Spawn();
        if error.None? { started, socketDeadline := Alive, now + SOCKET_WAIT; }
      }
    }

    /** Every reason for which `Attach` gives up. */
    ghost predicate ExplainsAttach(error: Error, start: nat, spawnsBefore: nat)
      reads this
    {
      match error
      case OtherVersion => lastAnswer.Answer? && !lastAnswer.instance.sameVersion
      case LegacyInstance => lastAnswer == Legacy
      case LockFailed => lastAnswer == Unreachable && lastLock == LockError
      case CouldNotStart => lastAnswer == Unreachable && lastLock == Free && spawns == MAX_SPAWNS
      case ContainerNotRunning => lastAnswer == Unreachable && lastLock == Free && noStart
      case SpawnFailed => spawnsBefore < spawns
      case StartupFailed => spawnsBefore < spawns && lastChild.ExitedWith? && lastChild.code != EXIT_ALREADY_RUNNING
      case DoesNotAnswer =>
        && lastAnswer == Unreachable && start + SOCKET_WAIT < now && spawnedAt + SOCKET_WAIT < now
        && (lastLock == Free ==> spawnsBefore < spawns)
      case TimedOut => expires <= now
      case Cancelled => cancelled
      case _ => false
    }

    /**
      Nobody answers: an instance is started if there is none, and one that exits or stays silent
      for too long is given up.
    */
    method StartUp(child: Child, deadline: nat, ghost start: nat, ghost spawnsBefore: nat)
      returns (next: Child, socketDeadline: nat, error: Option<Error>)
      requires Valid() && lastAnswer == Unreachable && start <= now && spawnsBefore <= spawns
      requires start + SOCKET_WAIT <= deadline && spawnedAt + SOCKET_WAIT <= deadline
      requires !child.NoChild? ==> spawnsBefore < spawns
      modifies `now, `cancelled, `spawns, `spawnedAt, `lastLock, `lastChild
      ensures Valid() && old(now) <= now && old(spawns) <= spawns && (old(cancelled) ==> cancelled)
      ensures error.None? ==> start + SOCKET_WAIT <= socketDeadline && spawnedAt + SOCKET_WAIT <= socketDeadline
      ensures error.None? && !next.NoChild? ==> spawnsBefore < spawns
      ensures spawns == old(spawns) ==> socketDeadline == deadline
      ensures error.Some? ==> ExplainsAttach(error.value, start, spawnsBefore)
      ensures error.Some? ==> error.value !in {TimedOut, Cancelled}
      ensures error.None? ==> now <= socketDeadline && (lastLock == Held || spawnsBefore < spawns)
    {
      next, socketDeadline, error := child, deadline, None;
      var lock := InstanceRunning();
      if lock == LockError { return next, socketDeadline, Some(LockFailed); }
      next, socketDeadline, error := StartIfNone(child, lock, deadline);
      if error.Some? { return; }
      next := Probe(next);
      if next.ExitedWith? && next.code != EXIT_ALREADY_RUNNING { return next, socketDeadline, Some(StartupFailed); }
      if now > socketDeadline { return next, socketDeadline, Some(DoesNotAnswer); }
    }

    /** The running instance, which is started if there is none; over all calls at most three are started. */
    method Attach() returns (r: Result<Instance>)
      requires Valid()
      modifies `now, `cancelled, `spawns, `spawnedAt, `warned, `warnings, `lastAnswer, `answers, `lastLock, `lastChild
      ensures Valid() && old(now) <= now && old(spawns) <= spawns && (old(cancelled) ==> cancelled)
      ensures r.Ok? ==> lastAnswer == Answer(r.value) && r.value.sameVersion
      ensures r.Ok? ==> (withEnv && !r.value.sameEnv ==> warned)
      ensures r.Err? ==> ExplainsAttach(r.error, old(now), old(spawns))
      ensures r.Err? && r.error in {TimedOut, Cancelled} ==>
        lastAnswer == Unreachable && (lastLock == Held || old(spawns) < spawns)
    {
      var child := NoChild;
      var socketDeadline := now + SOCKET_WAIT;
      while true
        invariant Valid() && old(now) <= now && old(spawns) <= spawns && (old(cancelled) ==> cancelled)
        invariant old(now) + SOCKET_WAIT <= socketDeadline
        invariant spawnedAt + SOCKET_WAIT <= socketDeadline
        invariant !child.NoChild? ==> old(spawns) < spawns
        decreases MAX_SPAWNS - spawns, socketDeadline - now
      {
        var answer := Query();
        match answer {
          case Answer(instance) =>
            r := Check(instance);
            return;
          case Legacy => return Err(LegacyInstance);
          case Unreachable =>
        }
        var error;
        child, socketDeadline, error := StartUp(child, socketDeadline, old(now), old(spawns));
        if error.Some? { return Err(error.value); }
        var done := Sleep(POLL);
        if done {
          var e := DoneError();
          return Err(e);
        }
      }
      assert false;
    }

    /** The instance was found stopped: by its answer, or by its event stream. */
    ghost predicate SawItGo(instance: Instance)
      reads `lastSeen
    {
      instance.status.Stopped? || lastSeen in {NotSubscribed, StreamEnded, Saw(StateEvent(Stopped))}
    }

    method Subscribe() returns (subscribed: bool)
      modifies `now, `cancelled, `lastSeen, `eventsLeft, `heard
      ensures old(now) <= now && (old(cancelled) ==> cancelled) && heard == []
      ensures lastSeen == if subscribed then NothingYet else NotSubscribed
    {
      Elapse();
      subscribed, eventsLeft := *, *;
      lastSeen, heard := if subscribed then NothingYet else NotSubscribed, [];
    }

    /** The next event, or the end of the stream. */
    method NextEvent() returns (event: Option<Event>)
      modifies `now, `cancelled, `lastSeen, `eventsLeft, `heard
      ensures old(now) <= now && (old(cancelled) ==> cancelled)
      ensures event.Some? ==> lastSeen == Saw(event.value) && heard == old(heard) + [event.value] && eventsLeft < old(eventsLeft)
      ensures event.None? ==> lastSeen == StreamEnded && heard == old(heard)
    {
      Elapse();
      if eventsLeft == 0 {
        lastSeen := StreamEnded;
        return None;
      }
      var e: Event := *;
      eventsLeft, lastSeen, heard := eventsLeft - 1, Saw(e), heard + [e];
      return Some(e);
    }

    /** Follows the instance's events, a stream that ends at the latest with the context, until it is ready. */
    method WaitReady(instance: Instance) returns (r: Result<Instance>)
      modifies `now, `cancelled, `lastAnswer, `answers, `lastSeen, `eventsLeft, `heard
      ensures old(now) <= now && (old(cancelled) ==> cancelled)
      ensures r.Ok? ==> lastSeen in {NothingYet, Saw(StateEvent(Ready))}
      ensures r == Err(InstanceFailed) ==> instance.status.Failed? || lastSeen == Saw(StateEvent(Failed))
      ensures r == Err(InstanceGone) ==> SawItGo(instance)
      ensures r.Ok? ==> r.value.status.Ready? && (instance.status.Ready? || lastAnswer == Answer(r.value))
      ensures instance.status in {Status.Ready, Status.Failed, Status.Stopped} ==> lastAnswer == old(lastAnswer)
      ensures r.Err? ==> r.error in {InstanceFailed, InstanceGone, QueryFailed, TimedOut, Cancelled}
      ensures r == Err(TimedOut) ==> expires <= now && lastSeen == StreamEnded
      ensures r == Err(Cancelled) ==> cancelled && lastSeen == StreamEnded
      ensures lastSeen == StreamEnded ==> FollowedUp(heard, answers, |old(answers)|)
      ensures r == Err(QueryFailed) ==> !lastAnswer.Answer?
      ensures instance.status.Ready? ==> r == Ok(instance)
      ensures instance.status.Failed? ==> r == Err(InstanceFailed)
      ensures instance.status.Stopped? ==> r == Err(InstanceGone)
    {
      lastSeen := NothingYet;
      match instance.status {
        case Ready => return Ok(instance);
        case Failed => return Err(InstanceFailed);
        case Stopped => return Err(InstanceGone);
        case _ =>
      }
      var subscribed := Subscribe();
      if !subscribed { return Err(InstanceGone); }
      NothingHeard(answers);
      hide FollowedUp;
      while true
        invariant old(now) <= now && (old(cancelled) ==> cancelled)
        invariant FollowedUp(heard, answers, |old(answers)|)
        decreases eventsLeft
      {
        ghost var before, known := heard, answers;
        var event := NextEvent();
        if event.None? { break; }
        match event.value {
          case StateEvent(Ready) =>
            var answer := Query();
            if !answer.Answer? { return Err(QueryFailed); }
            if answer.instance.status.Ready? { return Ok(answer.instance); }
            HeardReady(before, known, |old(answers)|, answer.instance);
          case StateEvent(Failed) => return Err(InstanceFailed);
          case StateEvent(Stopped) => return Err(InstanceGone);
          case other => HeardOther(before, other, answers, |old(answers)|);
        }
      }
      if !Done() { return Err(InstanceGone); }
      var e := DoneError();
      return Err(e);
    }

    /** Waits until the lock is free, for ten seconds. */
    method WaitUnlocked() returns (error: Option<Error>)
      modifies `now, `cancelled, `lastLock
      ensures old(now) <= now && (old(cancelled) ==> cancelled)
      ensures error.None? <==> lastLock == Free
      ensures error.Some? ==> error.value in {LockFailed, DidNotExit, TimedOut, Cancelled}
      ensures error == Some(LockFailed) <==> lastLock == LockError
      ensures error == Some(DidNotExit) ==> old(now) + SOCKET_WAIT < now
      ensures error == Some(DidNotExit) ==> lastLock == Held
      ensures error == Some(TimedOut) ==> expires <= now
      ensures error == Some(Cancelled) ==> cancelled
    {
      var deadline := now + SOCKET_WAIT;
      while true
        invariant old(now) <= now && (old(cancelled) ==> cancelled)
        decreases deadline - now
      {
        var lock := InstanceRunning();
        if lock == LockError { return Some(LockFailed); }
        if lock == Free { return None; }
        if now > deadline { return Some(DidNotExit); }
        var done := Sleep(POLL);
        if done {
          var e := DoneError();
          return Some(e);
        }
      }
      assert false;
    }

    /** Every reason for which `EnsureReady` gives up: its last answers, the clock, or the caller. */
    ghost predicate Explains(error: Error, start: nat, spawnsBefore: nat)
      reads this
    {
      match error
      case TimedOut => expires <= now
      case Cancelled => cancelled
      case InstanceFailed => LastStatus(Status.Failed) || lastSeen == Saw(StateEvent(Failed))
      case InstanceGone => restarts == MAX_RESTARTS && Vanished()
      case QueryFailed => !lastAnswer.Answer?
      case DidNotExit => 0 <= restarts < MAX_RESTARTS && lastLock == Held && start + SOCKET_WAIT < now
      case LockFailed => lastLock == LockError
      case _ => ExplainsAttach(error, start, spawnsBefore)
    }

    ghost predicate Vanished()
      reads `lastAnswer, `lastSeen
    {
      LastStatus(Status.Stopped) || lastSeen in {NotSubscribed, StreamEnded, Saw(StateEvent(Stopped))}
    }

    ghost predicate LastStatus(status: Status)
      reads `lastAnswer
    {
      lastAnswer.Answer? && lastAnswer.instance.status == status
    }

    /** One round: find or start the instance, and wait for it. */
    method AttachAndWait() returns (r: Result<Instance>)
      requires Valid()
      modifies `now, `cancelled, `spawns, `spawnedAt, `warned, `warnings, `lastAnswer, `answers, `lastLock, `lastChild, `lastSeen, `eventsLeft, `heard
      ensures Valid() && old(now) <= now && old(spawns) <= spawns && (old(cancelled) ==> cancelled)
      ensures r.Ok? ==> r.value.status.Ready? && lastAnswer == Answer(r.value)
      ensures r == Err(InstanceGone) ==> Vanished()
      ensures r.Err? && r.error != InstanceGone ==> Explains(r.error, old(now), old(spawns))
    {
      r := Attach();
      if r.Ok? { r := WaitReady(r.value); }
    }

    /** The end of the context goes before other errors. */
    method GiveUp(err: Error, ghost start: nat, ghost spawnsBefore: nat) returns (r: Result<Instance>)
      requires Explains(err, start, spawnsBefore)
      modifies `now, `cancelled
      ensures old(now) <= now && (old(cancelled) ==> cancelled)
      ensures r.Err? && Explains(r.error, start, spawnsBefore)
      ensures r.error in {TimedOut, Cancelled} || !Done()
    {
      var e := CtxError(err);
      return Err(e);
    }

    lemma VanishedExplains(start: nat, spawnsBefore: nat)
      requires restarts == MAX_RESTARTS && Vanished()
      ensures Explains(InstanceGone, start, spawnsBefore)
    {
    }

    lemma ContextExplains(error: Error, start: nat, spawnsBefore: nat)
      requires (error == TimedOut && expires <= now) || (error == Cancelled && cancelled)
      ensures Explains(error, start, spawnsBefore)
    {
    }

    lemma UnlockingExplains(error: Error, start: nat, spawnsBefore: nat)
      requires error in {LockFailed, DidNotExit, TimedOut, Cancelled} && restarts < MAX_RESTARTS
      requires error == LockFailed ==> lastLock == LockError
      requires error == DidNotExit ==> lastLock == Held && start + SOCKET_WAIT < now
      requires error == TimedOut ==> expires <= now
      requires error == Cancelled ==> cancelled
      ensures Explains(error, start, spawnsBefore)
    {
    }

    /** A cause that goes back less far is one that goes back further. */
    lemma ExplainsLonger(error: Error, start: nat, spawnsBefore: nat, start': nat, spawnsBefore': nat)
      requires Explains(error, start', spawnsBefore') && start <= start' && spawnsBefore <= spawnsBefore'
      ensures Explains(error, start, spawnsBefore)
    {
    }

    /**
      Returns only an instance that was ready; one that stops meanwhile is started anew, three times
      at most. It gives up only with a cause; the end of the context goes before all others.
    */
    method EnsureReady() returns (r: Result<Instance>)
      requires Valid()
      modifies `now, `cancelled, `spawns, `spawnedAt, `warned, `warnings, `lastAnswer, `answers, `lastLock, `lastChild, `lastSeen, `eventsLeft, `heard, `restarts
      ensures Valid() && old(now) <= now && old(spawns) <= spawns && (old(cancelled) ==> cancelled)
      ensures r.Ok? ==> r.value.status.Ready? && lastAnswer == Answer(r.value)
      ensures restarts <= MAX_RESTARTS
      ensures r.Err? ==> Explains(r.error, old(now), old(spawns))
      ensures r.Err? ==> r.error in {TimedOut, Cancelled} || !Done()
    {
      hide Vanished, Explains;
      var attempt := 0;
      restarts := 0;
      while true
        invariant Valid() && old(now) <= now && old(spawns) <= spawns && (old(cancelled) ==> cancelled)
        invariant restarts == attempt <= MAX_RESTARTS
        decreases MAX_RESTARTS - attempt
      {
        ghost var begun, spawned := now, spawns;
        r := AttachAndWait();
        if r.Ok? { return; }
        if r.error != InstanceGone || attempt >= MAX_RESTARTS {
          if r.error == InstanceGone {
            VanishedExplains(old(now), old(spawns));
          } else {
            ExplainsLonger(r.error, old(now), old(spawns), begun, spawned);
          }
          r := GiveUp(r.error, old(now), old(spawns));
          return;
        }
        var error := WaitUnlocked();
        if error.Some? {
          UnlockingExplains(error.value, old(now), old(spawns));
          r := GiveUp(error.value, old(now), old(spawns));
          return;
        }
        attempt, restarts := attempt + 1, restarts + 1;
      }
      assert false;
    }

    /** One call of `run`, which is not bounded by the context. */
    method RunCommand() returns (outcome: ExecStart.Outcome)
      modifies `now, `cancelled, `attempts
      ensures old(now) <= now && (old(cancelled) ==> cancelled)
      ensures |attempts| == |old(attempts)| + 1 && attempts[..|old(attempts)|] == old(attempts)
      ensures ExecStart.Run(attempts[|old(attempts)|]).client == ExecStart.Ended(outcome)
    {
      Elapse();
      SomeRunEnds();
      var steps: seq<ExecStart.Step> :| ExecStart.Run(steps).client.Ended?;
      attempts := attempts + [steps];
      outcome := ExecStart.Run(steps).client.outcome;
    }

    /**
      The command is run until it is not rejected as not ready, waiting at least 100 ms in between
      and only before the timeout. Every earlier attempt was rejected as not ready; an error of the
      waiting means that all were. So at most one request is ever written, and none in case of an error.
    */
    method EnsureAndRun() returns (r: RunResult)
      requires Valid() && attempts == [] && expires == now + timeout
      modifies this
      ensures Valid()
      ensures RequestsAtMost(attempts, 1)
      ensures r.NotRun? ==> RequestsAtMost(attempts, 0)
      ensures OnlyLastCounts(attempts)
      ensures r.Ran? ==> attempts != [] && !r.outcome.NotReady?
      ensures r.Ran? ==> ExecStart.Run(attempts[|attempts| - 1]).client == ExecStart.Ended(r.outcome)
      ensures r.NotRun? ==> Explains(r.error, old(now), old(spawns))
      ensures r.NotRun? ==> r.error in {TimedOut, Cancelled} || !Done()
      ensures r.NotRun? ==> forall i :: 0 <= i < |attempts| ==> RejectedNotReady(attempts[i])
      ensures |attempts| > 1 ==> NOT_READY_RETRY_DELAY * (|attempts| - 2) < timeout
    {
      hide Explains;
      while true
        invariant Valid() && old(now) <= now && old(spawns) <= spawns
        invariant forall i :: 0 <= i < |attempts| ==> RejectedNotReady(attempts[i])
        invariant old(now) + NOT_READY_RETRY_DELAY * |attempts| <= now
        invariant |attempts| > 0 ==> NOT_READY_RETRY_DELAY * (|attempts| - 1) < timeout
        decreases expires - now
      {
        ghost var begun, spawned := now, spawns;
        var ensured := EnsureReady();
        if ensured.Err? {
          ExplainsLonger(ensured.error, old(now), old(spawns), begun, spawned);
          NeverRequested(attempts);
          AtMostOnce(attempts);
          return NotRun(ensured.error);
        }
        var outcome := RunCommand();
        if !outcome.NotReady? {
          AtMostOnce(attempts);
          return Ran(outcome);
        }
        var done := Sleep(NOT_READY_RETRY_DELAY);
        if done {
          NeverRequested(attempts);
          AtMostOnce(attempts);
          var e := CtxError(Cancelled);
          ContextExplains(e, old(now), old(spawns));
          return NotRun(e);
        }
      }
      assert false;
    }
  }

  lemma SomeRunEnds()
    ensures exists steps: seq<ExecStart.Step> :: ExecStart.Run(steps).client.Ended?
  {
    ExecStart.FromOne(ExecStart.INITIAL, ExecStart.ClientConnects(false));
    assert ExecStart.Run([ExecStart.ClientConnects(false)]).client.Ended?;
  }
}
