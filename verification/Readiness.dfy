/**
  Who sees an instance as ready, and when (internal/host/instancerun.go). The instance changes its
  state file and its bridge in separate small steps, and a client's call reads one after the other,
  so it can see a pair that never existed.
*/
module Readiness {
  datatype Phase = Starting | Connecting | Ready | Reconnecting | Stopping | Stopped | Failed

  datatype Bridge = NoBridge | Live | Dead    // Dead: its mux has failed

  /** What the state file says and what bridge there is, at one moment. */
  datatype Moment = Moment(file: Phase, bridge: Bridge)

  // ---------------------------------------------------------------- the writer

  /** What the instance publishes while it has a bridge, and while it has none. */
  predicate Publishes(a: Phase, bridge: Bridge, b: Phase) {
    match a
    case Starting => bridge == NoBridge && b in {Connecting, Stopping, Failed}
    case Connecting => if bridge == NoBridge then b == Stopping else b == Ready
    case Ready => if bridge == NoBridge then b == Reconnecting else b == Stopping
    case Reconnecting => if bridge == NoBridge then b == Stopping else b == Ready
    case Stopping => bridge == NoBridge && b in {Stopped, Failed}
    case Stopped => false
    case Failed => false
  }

  /** A new bridge is set before "ready" is published, a lost one is cleared before "reconnecting" is. */
  predicate Changes(file: Phase, a: Bridge, b: Bridge) {
    match b
    case Live => a == NoBridge && file in {Connecting, Reconnecting}
    case Dead => a == Live
    case NoBridge => file in {Ready, Stopping}
  }

  predicate Step(a: Moment, b: Moment) {
    || a == b
    || (a.bridge == b.bridge && Publishes(a.file, a.bridge, b.file))
    || (a.file == b.file && Changes(a.file, a.bridge, b.bridge))
  }

  ghost predicate IsTrace(trace: seq<Moment>) {
    && trace != [] && trace[0] == Moment(Starting, NoBridge)
    && forall k :: 0 < k < |trace| ==> Step(trace[k - 1], trace[k])
  }

  lemma TraceSnoc(trace: seq<Moment>, m: Moment)
    requires IsTrace(trace) && Step(trace[|trace| - 1], m)
    ensures IsTrace(trace + [m])
  {
  }

  /** How many bridges have been set. */
  function Bridges(trace: seq<Moment>): nat {
    if |trace| < 2 then 0
    else
      var n := |trace| - 1;
      Bridges(trace[..n]) + if trace[n - 1].bridge == NoBridge && trace[n].bridge == Live then 1 else 0
  }

  lemma BridgesSnoc(trace: seq<Moment>, m: Moment)
    requires trace != []
    ensures Bridges(trace + [m])
         == Bridges(trace) + if trace[|trace| - 1].bridge == NoBridge && m.bridge == Live then 1 else 0
  {
    assert (trace + [m])[..|trace|] == trace;
  }

  lemma {:induction false} BridgesGrow(trace: seq<Moment>, n: nat)
    requires n <= |trace|
    ensures Bridges(trace[..n]) <= Bridges(trace)
    decreases |trace|
  {
    if n < |trace| {
      BridgesGrow(trace[..|trace| - 1], n);
      assert trace[..|trace| - 1][..n] == trace[..n];
    } else {
      assert trace[..n] == trace;
    }
  }

  /** If the bridge was replaced, there was a moment without one. */
  lemma {:induction false} ReplacedMeansGone(trace: seq<Moment>, from: nat)
    requires from < |trace| && Bridges(trace) > Bridges(trace[..from + 1])
    ensures exists k :: from <= k < |trace| && trace[k].bridge == NoBridge
    decreases |trace|
  {
    var n := |trace| - 1;
    assert trace[..|trace|] == trace;
    if from < n && !(trace[n - 1].bridge == NoBridge && trace[n].bridge == Live) {
      assert trace[..n][..from + 1] == trace[..from + 1];
      ReplacedMeansGone(trace[..n], from);
      var k :| from <= k < n && trace[..n][k].bridge == NoBridge;
      assert trace[k].bridge == NoBridge;
    }
  }

  // ---------------------------------------------------------------- the observer

  /** Exec requests are served. */
  predicate Serves(m: Moment) {
    m.file == Ready && m.bridge == Live
  }

  /** `status` that reads the file at moment `i` and the bridge at moment `j`. */
  function Shown(trace: seq<Moment>, i: nat, j: nat): Phase
    requires i <= j < |trace|
  {
    if trace[i].file == Ready && trace[j].bridge != Live then Reconnecting else trace[i].file
  }

  predicate PublishedAt(trace: seq<Moment>, k: nat)
    requires 0 < k < |trace|
  {
    trace[k].file != trace[k - 1].file
  }

  ghost predicate NothingPublished(trace: seq<Moment>, i: nat, j: nat)
    requires i <= j < |trace|
  {
    forall k :: i < k <= j ==> !PublishedAt(trace, k)
  }

  /** The last thing published between the two moments was "ready". */
  ghost predicate ReadyAgain(trace: seq<Moment>, i: nat, j: nat)
    requires i <= j < |trace|
  {
    exists k :: i < k <= j && PublishedAt(trace, k) && trace[k].file == Ready && NothingPublished(trace, k, j)
  }

  lemma {:induction false} FileStays(trace: seq<Moment>, i: nat, j: nat)
    requires i <= j < |trace| && NothingPublished(trace, i, j)
    ensures trace[j].file == trace[i].file
    decreases j - i
  {
    if i < j {
      assert !PublishedAt(trace, j);
      FileStays(trace, i, j - 1);
    }
  }

  /** The last publication between two moments with different files. */
  lemma {:induction false} LastPublished(trace: seq<Moment>, i: nat, j: nat) returns (k: nat)
    requires i <= j < |trace| && !NothingPublished(trace, i, j)
    ensures i < k <= j && PublishedAt(trace, k) && NothingPublished(trace, k, j)
    decreases j - i
  {
    if PublishedAt(trace, j) {
      k := j;
    } else {
      k := LastPublished(trace, i, j - 1);
    }
  }

  /**
    "Ready" is shown: the file and the bridge both say so at the end of the call if and only if
    nothing was published between the two reads, or the last thing published was "ready".
  */
  lemma ShownReadyIsCurrentIff(trace: seq<Moment>, i: nat, j: nat)
    requires IsTrace(trace) && i <= j < |trace| && Shown(trace, i, j) == Ready
    ensures Serves(trace[j]) <==> NothingPublished(trace, i, j) || ReadyAgain(trace, i, j)
  {
    if NothingPublished(trace, i, j) {
      FileStays(trace, i, j);
    } else {
      var k := LastPublished(trace, i, j);
      FileStays(trace, k, j);
      if m :| i < m <= j && PublishedAt(trace, m) && trace[m].file == Ready && NothingPublished(trace, m, j) {
        FileStays(trace, m, j);
      }
    }
  }

  /** Served at moment `k`: so it was at moment `i` already, or "ready" was published since over a live bridge. */
  lemma {:induction false} ServedSince(trace: seq<Moment>, i: nat, k: nat)
    requires IsTrace(trace) && i <= k < |trace| && Serves(trace[k])
    ensures Serves(trace[i]) || exists m :: i < m <= k && PublishedAt(trace, m) && Serves(trace[m])
    decreases k - i
  {
    if i < k {
      assert Step(trace[k - 1], trace[k]);
      if PublishedAt(trace, k) {
      } else {
        ServedSince(trace, i, k - 1);
      }
    }
  }

  /**
    "Ready" is shown: there was a moment during the call at which both said so if and only if the
    bridge was alive at the first read, or "ready" was published over a live bridge before the second.
  */
  lemma ShownReadyWasTrueIff(trace: seq<Moment>, i: nat, j: nat)
    requires IsTrace(trace) && i <= j < |trace| && Shown(trace, i, j) == Ready
    ensures (exists k :: i <= k <= j && Serves(trace[k]))
       <==> trace[i].bridge == Live || exists m :: i < m <= j && PublishedAt(trace, m) && Serves(trace[m])
  {
    if k :| i <= k <= j && Serves(trace[k]) {
      ServedSince(trace, i, k);
    }
    if trace[i].bridge == Live {
      assert Serves(trace[i]);
    }
  }

  /** If nothing is published during the call, "ready" is shown exactly if it is true, and then all the time. */
  lemma {:induction false} QuietCallIsExact(trace: seq<Moment>, i: nat, j: nat)
    requires IsTrace(trace) && i <= j < |trace| && NothingPublished(trace, i, j)
    ensures Shown(trace, i, j) == Ready <==> Serves(trace[j])
    ensures Shown(trace, i, j) == Ready ==> forall k :: i <= k <= j ==> Serves(trace[k])
    decreases j - i
  {
    FileStays(trace, i, j);
    if Shown(trace, i, j) == Ready && i < j {
      assert Step(trace[j - 1], trace[j]) && !PublishedAt(trace, j);
      FileStays(trace, i, j - 1);
      QuietCallIsExact(trace, i, j - 1);
    }
  }

  /**
    The bridge dies; a status reads "ready" from the file; the loss is published and a new bridge is
    set; the status sees it alive.
  */
  const STALE: seq<Moment> := [
    Moment(Starting, NoBridge), Moment(Connecting, NoBridge), Moment(Connecting, Live), Moment(Ready, Live),
    Moment(Ready, Dead), Moment(Ready, NoBridge), Moment(Reconnecting, NoBridge), Moment(Reconnecting, Live)]

  /** "Ready" is shown although it was true at no moment of the call, and a stream opened at its end is refused. */
  lemma StaleReady()
    ensures IsTrace(STALE) && Shown(STALE, 4, 7) == Ready
    ensures forall k :: 4 <= k <= 7 ==> !Serves(STALE[k])
  {
  }
}
