# Verified models of dworm

dworm keeps a bridge between a host and a devcontainer. These modules model the parts of it that keep
hard invariants, and prove these invariants over every input, every run or every interleaving.

| module | what it models |
|---|---|
| `AnsiStream`, `AnsiSessions` | the terminal UI's ANSI transducer and its calls on a whole stream, however it is cut |
| `ScrollRegion` | what the transducer's output does to the scroll region of a real terminal |
| `StatusBar` | which calls of the transducer ask for the status bar to be drawn again |
| `Frames` | the framing of exec streams |
| `ExecStart` | one exec request on its way from the client to a process |
| `Ensure` | finding, starting and awaiting the instance, and running a command at most once |
| `ExecPipeline` | output and exit status on their way from the process to the client |
| `ExecCompletion` | when the exit status can still reach the client |
| `ExecManager`, `ExecSessions` | which processes and sessions can outlive a shutdown |
| `Readiness` | an instance's state file and bridge, which change in separate steps, and a call that reads both |
| `Lifecycle` | the states an instance publishes, its status, its stop reason and its reconnect loop |
| `Events` | the event bus: log ring, snapshots, bounded queues with drop markers |
| `Tunnels` | desired ports, listeners, retry timers and connections |
| `ShellText`, `Environment` | quoting, and the layers of the container's environment |
| `Dotenv` | dotenv files |
| `LogBuffer`, `RotatingLog`, `ExecLog` | the ring of log lines, the rotating log file, the rate-limited stderr log |
| `Common`, `Bytes`, `Rings` | shared vocabulary |

How concurrency appears: a region under a lock, a channel operation or a system call is one step. Where the
source has several goroutines or processes, a `Step` datatype lists what each of them can do next, `Next`
is the effect of a step, and theorems range over all sequences of steps. Every read and write can fail at
any step. In the classes `Ensure.Ensurer` and `Lifecycle.Instance` the outside world acts between any two
statements by methods with arbitrary results.

What the proofs found, where code and documentation differ (the models follow the code):

- Exit status 125 is documented as "not started, safe to retry". It is not always: the endpoint's OK can be
  lost after the process was started, and the client gives up after ten seconds while the host goes on.
  `ExecStart.PlainErrorIsFinalIffSettled` says exactly when 125 is final.
- "bridge lost" is also told when only the instance shuts down: `ExecPipeline.BridgeLostWithoutFailure`.
  `ExecPipeline.HealthyToldExactlyWhen` and `ExecPipeline.HealthyBridgeLostIff` say exactly when.
- A closed tunnel manager listens again as soon as ports are reported to it: `Tunnels.ReportAfterCloseIsForwarded`.
- A client connection that becomes an exec session after `CloseExecs` collected the sessions stays open:
  `ExecSessions.LateExecClientSurvives`; `ExecSessions.SurvivesIffLate` says that these are the only ones.
- The repair of the scroll region knows few spellings. A soft reset, the alignment test, `ESC[;r` or a region
  that is too long lets the terminal scroll the status bar, and with a shell of one row the region is never set:
  `ScrollRegion.RegionStaysInsideIff`, `ScrollRegion.EscapingSequences`. So does a reset after a broken off
  sequence, since the transducer and the terminal cut the stream differently there: `ScrollRegion.AnyStreamStaysInsideIff`.
- The status bar is drawn again after `ESC [ 2 J` but not after `ESC [ J`, which erases it as well:
  `StatusBar.EraseBelowIsMissed`; `StatusBar.ErasuresAreSeenIff` says for which streams it is safe.
- `status` can show "ready" although exec requests were served at no moment of the call, and a request right
  after it is refused: `Readiness.StaleReady`. `Readiness.ShownReadyIsCurrentIff` and
  `Readiness.ShownReadyWasTrueIff` say exactly when it is true.
- The 4096 byte limit for unfinished escape sequences makes the cut of the stream visible, and it is the only
  thing that does: `AnsiSessions.LockStepIffNoOverflow`, `AnsiSessions.OverflowIsVisible`.

## Model

| member | source | states |
|---|---|---|
| `AnsiStream.AnsiSequenceEnd` | internal/host/tui/model.go:694-725 | the end found is the first position at which a sequence of this kind is complete; 0 exactly when none of its prefixes is |
| `AnsiStream.SplitCompleteANSI` | internal/host/tui/model.go:668-692 | pieces and tail concatenate to the chunk; each piece is plain text, never cut in two, or exactly one sequence; the tail is empty or an unfinished sequence |
| `AnsiStream.CutRefinesFeed` | internal/host/tui/model.go:613-645 | any such cut of held back bytes and new chunk writes, holds back and redraws what a one-byte-at-a-time transducer does |
| `AnsiStream.FeedAppend` | internal/host/tui/model.go:613-645 | the transducer on a concatenation is the transducer on the first part, continued on the second from what it held back |
| `AnsiStream.FeedKeepsTail` | internal/host/tui/model.go:668-692 | whatever is fed, only an unfinished sequence is ever held back |
| `AnsiStream.Model.WritePTYOutput` | internal/host/tui/model.go:613-645 | one call appends to the output, keeps and requests exactly what the byte transducer with the overflow rule says, for the current size |
| `AnsiSessions.ChunkInvariance` | internal/host/tui/model.go:613-645 | without an overflow, all calls together equal one call on the whole stream: bytes, pending tail, OR of redraws |
| `AnsiSessions.CutsAreInterchangeable` | internal/host/tui/model.go:613-645 | two cuts of the same stream without overflow cannot be told apart |
| `AnsiSessions.LockStepIffNoOverflow` | internal/host/tui/model.go:619-624 | calls and single pass agree after every call if and only if no call leaves more than 4096 bytes |
| `AnsiSessions.OverflowStartsAfresh` | internal/host/tui/model.go:619-624 | an overflowing call writes the held back bytes raw and the stream continues as a new one |
| `AnsiSessions.OverflowIsVisible` | internal/host/tui/model.go:619-632 | a stream of 4100 bytes whose two cuts write different bytes |
| `AnsiSessions.QuietSessionsPassThrough` | internal/host/tui/model.go:626-644 | calls that never ask for a redraw have passed every byte through unchanged, even with overflows |
| `ScrollRegion.RegionStaysInsideIff` | internal/host/tui/model.go:626-657 | for every terminal, whatever else resets its margins, every well-formed stream and every cut without overflow: the region stays above the status bar after every call if and only if there is no status bar, or the shell has two rows and no piece is an unhandled function that resets the margins or sets them too low |
| `ScrollRegion.AnyStreamStaysInsideIff` | internal/host/tui/model.go:613-657 | the same for every byte stream, also with broken sequences: if and only if no byte releases a segment of the stream that is not a handled sequence and in which the last function accepted, by a terminal that reads the stream itself, reaches below the shell |
| `ScrollRegion.WrittenKeepsParser` | internal/host/tui/model.go:626-644 | for every stream, a terminal reading what was written is in the same parser state as one reading the released part of the stream itself |
| `ScrollRegion.EscapingSequences` | internal/host/tui/model.go:647-657 | default margins in other spellings, a soft reset, a conformance level, the alignment test and a mode with a leading zero always escape; a region from row 1 does exactly if it is open-ended or too long |
| `ScrollRegion.SoftResetEscapes` | internal/host/tui/model.go:634-639 | one stream of four bytes after which the terminal scrolls the status bar |
| `ScrollRegion.InterruptedResetEscapes` | internal/host/tui/model.go:694-725 | a stream whose cut differs from the terminal's, so that a reset passes as plain text |
| `ScrollRegion.InterruptedResetOffends` | internal/host/tui/model.go:694-725 | in the condition for arbitrary streams, exactly the last byte of that stream offends |
| `ScrollRegion.ReadRegion` | internal/host/tui/model.go:751-753 | the sequence written for the region is read by the terminal as that region, for every height |
| `StatusBar.CallRedrawsIff` | internal/host/tui/model.go:634-666 | for every well-formed stream and every cut without overflow before it: a call returns "redraw" if and only if one of eleven pieces, named by parameters and final byte, ends in this call: erasing all (2, 3), cursor home, a reset of margins or terminal, the alternate screen modes |
| `StatusBar.SessionRedrawsIff` | internal/host/tui/model.go:613-666 | all calls together ask for a redraw if and only if the stream has such a piece |
| `StatusBar.ErasuresAreSeenIff` | internal/host/tui/model.go:20-25 | in every cut every erasure of the last row is followed by a redraw request if and only if no piece erases with `ESC [ ... J` other than `ESC [ 2 J` |
| `StatusBar.EraseBelowIsMissed` | internal/host/tui/model.go:659-666 | erasing from the cursor on erases the last row and asks for nothing |
| `Frames.DecodeEncode` | internal/protocol/exec.go:100-136 | reading an encoded frame from the front of any stream gives the frame and leaves the rest |
| `Frames.DecodedWasEncoded` | internal/protocol/exec.go:122-136 | a frame is read only from its own encoding |
| `Frames.CutFrameIsAnError` | internal/protocol/exec.go:122-136 | every proper prefix of a frame is an error, a clean end only when empty |
| `Frames.CutStreamYieldsWholeFrames` | internal/protocol/exec.go:122-136 | a stream of frames cut anywhere yields its whole frames, then a clean end or an error depending on the cut |
| `Frames.DecodeAllEncodeAll` | internal/protocol/exec.go:100-136 | any list of frames survives encoding and decoding |
| `Frames.WriteFrame` | internal/protocol/exec.go:100-110 | writes the encoding in one write, refuses payloads over 1 MiB without writing, and a failing stream got a prefix |
| `Frames.ReadFrame` | internal/protocol/exec.go:122-136 | result and remaining stream depend only on the bytes, not on how they are fragmented |
| `Frames.StdinFramesCarryEverything` | internal/host/execclient.go:87-96 | the stdin frames of any input are stdin frames of 1 to 32 KiB whose payloads concatenate to it |
| `Frames.WriteStdin` | internal/host/execclient.go:87-96 | all frames are written, or the count returned is that of the whole frames that fit before the failure |
| `ExecStart.AtMostOneRequest` | internal/host/execserver.go:421-475 | however client, host and endpoint interleave, one call writes at most one request, and a process runs only if it wrote one |
| `ExecStart.NotReadyMeansNothingWritten` | internal/host/execserver.go:421-436 | after a not_ready rejection nothing was written, and in no continuation is anything written or started |
| `ExecStart.NotReadyIffFound` | internal/host/execserver.go:421-436 | a client is rejected as not ready only if the handler found the bridge not ready, at its check or when opening the stream; and if it did and could say so, that is what a client reads that has not given up |
| `ExecStart.ExitArrivesIff` | internal/host/execserver.go:421-490 | from every reachable state some undisturbed continuation ends with the command's exit status if and only if the client follows the command, or waits and has an OK reply, or has none and its handler can still get one |
| `ExecStart.LostMeansStarted` | internal/host/execclient.go:132-142 | a lost connection (255) or an exit status implies that the endpoint started the process |
| `ExecStart.StartFailedMeansNotStarted` | internal/host/execclient.go:122-130 | after 126 or 127 no process runs, in no continuation |
| `ExecStart.PlainErrorIsFinalIffSettled` | internal/host/execserver.go:452-464 | after an error that exits with 125, no process ever runs if and only if the host's handler ended before the request could arrive or the endpoint rejected it |
| `ExecStart.Status125AfterStart` | internal/host/execserver.go:460-464 | a run in which the client exits with 125 while the process runs |
| `Ensure.AtMostOnce` | internal/host/ensure.go:66-96 | attempts of which all but the last were rejected as not ready write at most one request together, in every continuation of the handlers they left behind |
| `Ensure.Ensurer.EnsureAndRun` | internal/host/ensure.go:74-96 | at most one request over the whole run, none if it ends with an error of the waiting; such an error has its cause: the timeout has passed, the caller cancelled, or before that the last answers of instance, lock, child or event stream; so a rejection before the timeout is followed by another attempt; at most three spawns; at most timeout/100 ms + 2 attempts; run's outcome is returned unchanged |
| `Ensure.Ensurer.EnsureReady` | internal/host/ensure.go:116-146 | returns only an instance whose last answer was "ready"; starts anew at most three times, and reports a vanished instance only after that; every error has its cause, and the end of the context goes before all others; terminates |
| `Ensure.Ensurer.Attach` | internal/host/ensure.go:148-193 | an instance that just answered, of the same version, with a warning given if -e values differ; every error has its cause in the last answers, the child, the clock or the spawns, and it waits only for an instance that holds the lock or that it has started; terminates under any answers |
| `Ensure.Ensurer.Check` | internal/host/ensure.go:196-206 | another version is refused; other -e values are warned about once in all |
| `Ensure.Ensurer.WaitReady` | internal/host/ensure.go:209-265 | success means a ready answer, also after a stale "ready" event; failed and stopped instances, a failed query and the end of the context are told apart; it waits to the end of the stream only if no other end was announced and every "ready" it heard was answered by "not ready" |
| `Ensure.Ensurer.WaitUnlocked` | internal/host/ensure.go:277-293 | ends without error exactly when the lock was seen free; each of its four errors has its cause |
| `Ensure.Ensurer.Spawn` | internal/host/ensure.go:163-177 | refused after three spawns, and for a stopped container with --no-start without counting |
| `ExecPipeline.RunKeepsInv` | internal/endpoint/exec.go:227-363 | the invariant that ties pipes, pumps, transit, proxy and client together holds in every interleaving |
| `ExecPipeline.OutputIsPrefix` | internal/endpoint/exec.go:227-265 | at every moment the client has written, per stream, a prefix of what the process wrote |
| `ExecPipeline.StatusMeansComplete` | internal/endpoint/exec.go:329-363 | a client that got the process's status has all its output on both streams, all writers are gone, and the status is the process's own |
| `ExecCompletion.StatusArrivesIff` | internal/endpoint/exec.go:329-363 | from every reachable state in which the client waits, some continuation without failure, shutdown or quitting brings it the status c if and only if the process exited with c or still runs, and the exit frame is delivered, or the proxy runs over an open connection and the frame is in transit or can still be sent: the handler has not finished, no write failed, nothing was lost; without the latter no continuation at all brings any status |
| `ExecCompletion.HealthySessionCompletes` | internal/host/execserver.go:598-627 | so it can whenever the bridge is neither down nor closed, the client not known to be gone, its connection open and the proxy running |
| `ExecPipeline.ToldExactlyWhen` | internal/host/execserver.go:598-610 | in every reachable state, a step tells "bridge lost" if and only if it is a failing read of a running proxy, for a client not known to be gone, over an open connection |
| `ExecPipeline.HealthyToldExactlyWhen` | internal/host/execserver.go:598-610 | with a healthy bridge, exactly if moreover the stream was closed; then the instance is shutting down |
| `ExecPipeline.HealthyBridgeLostIff` | internal/host/execserver.go:570-610 | from every reachable state with a healthy bridge, some continuation without a failure of bridge or host tells it if and only if the proxy runs without an exit frame in hand, does not know the client to be gone, and the connection is open |
| `ExecPipeline.HealthyBridgeLostWithoutShutdownIff` | internal/host/execserver.go:157-170 | without a further close by a shutdown: if and only if the stream was closed before as well |
| `ExecPipeline.BridgeLostIsExplained` | internal/host/execserver.go:570-610 | "bridge lost" reaches the client only if the bridge failed or the instance shuts down |
| `ExecPipeline.ExitFrameIsLast` | internal/host/execserver.go:598-627 | at most one exit frame is ever sent to the client, nothing follows it, and the proxy has returned |
| `ExecPipeline.BridgeLostWithoutFailure` | internal/host/execserver.go:157-170 | a run with a healthy bridge that tells "bridge lost" |
| `ExecManager.NoneEscapes` | internal/endpoint/exec.go:53-102 | once closed, every process ever spawned has a finished handler, was killed, or its handler's next report tells it to kill |
| `ExecManager.LimitHolds` | internal/endpoint/exec.go:53-70 | in every interleaving at most `limit` handlers are between registration and return |
| `ExecManager.ClosedRegistersNobody` | internal/endpoint/exec.go:53-64 | after closing, no continuation registers anyone or reopens the manager |
| `ExecManager.AdmittedIff` | internal/endpoint/exec.go:53-64 | in every interleaving a new handler is admitted if and only if nobody has closed the manager and fewer than `limit` handlers are active; before that nobody is killed |
| `ExecManager.Manager.Register` | internal/endpoint/exec.go:53-64 | admitted exactly if open and below the limit |
| `ExecManager.Manager.Started` | internal/endpoint/exec.go:72-79 | records the group and tells a late handler that the manager is closed |
| `ExecManager.Manager.CloseAll` | internal/endpoint/exec.go:82-102 | collects exactly the handlers whose group is known, however the map is iterated |
| `ExecSessions.NoExecStreamSurvives` | internal/host/execserver.go:157-170 | after CloseExecs has closed what it collected, every open exec stream belongs to a handler before `track`, which closes it |
| `ExecSessions.NoSessionSurvives` | internal/host/execserver.go:175-209 | after Close has closed what it collected, the same holds for every connection and stream |
| `ExecSessions.SurvivesIffLate` | internal/host/execserver.go:157-233 | after CloseExecs has closed what it collected, in every run, the open exec sessions are exactly the client connections that became exec sessions after the collection and were not closed since |
| `ExecSessions.LateExecClientSurvives` | internal/host/execserver.go:221-227 | a short run with such a connection |
| `ExecSessions.TurnedAwayIffShut` | internal/host/execserver.go:211-219 | in every run an exec stream is admitted, and stays open as an exec session, if and only if no shutdown has begun, and is closed otherwise; a connection is admitted if and only if the server was not closed |
| `ExecSessions.ExecServer.Track` | internal/host/execserver.go:211-219 | refused exactly if closed, or for an exec session after CloseExecs |
| `ExecSessions.ExecServer.CloseExecs` | internal/host/execserver.go:157-170 | collects exactly the tracked exec sessions |
| `Lifecycle.RunningHistory` | internal/host/instancerun.go:238-347 | the history of an instance that has not begun to stop is determined by its length: starting, connecting, then alternating ready and reconnecting |
| `Lifecycle.CompleteHistory` | internal/host/instancerun.go:180-423 | every complete history has one of three shapes and ends with exactly one of stopped and failed; the number of reconnecting entries follows from its length |
| `Lifecycle.Instance.Run` | internal/host/instancerun.go:206-233 | for every behaviour of the world the published states are such a history; reconnects equals the reconnecting events; a clean stop carries the first reason requested, in "stopping" and "stopped", and each reason has its cause: a client asked, a signal came, or the last recovery saw the container down until its window had passed; all other recoveries connected; a failure after a loss means that the last recovery could not connect until its window had passed |
| `Lifecycle.Instance.Serve` | internal/host/instancerun.go:238-347 | ends without a failure only if its context ended, and fails only after trouble; once ready, only a lost endpoint is trouble |
| `Lifecycle.Instance.BringUp` | internal/host/instancerun.go:238-294 | reaches "ready" only if configuration, environment, container and endpoint succeeded in this order and nothing went wrong; stops cleanly if the context ends meanwhile, whatever else went wrong |
| `Lifecycle.Instance.Recover` | internal/host/instancerun.go:306-346 | publishes "reconnecting" and then "ready" only if the last attempt of a recovery connected; it fails only if that could not connect until the next delay would exceed the window, and ends otherwise only if a signal or a client stops the instance or the container was down as long |
| `Lifecycle.Instance.NoteLoss` | internal/host/instancerun.go:312-322 | the published state follows the lost bridge, and the history stays consistent at every moment in between |
| `Lifecycle.Instance.Shutdown` | internal/host/instancerun.go:399-423 | publishes exactly stopping and one final state; the reason of a clean stop cannot change any more |
| `Lifecycle.Instance.RequestStop` | internal/host/instancerun.go:646-656 | the first reason wins, and the context ends |
| `Readiness.ShownReadyIsCurrentIff` | internal/host/instancerun.go:594-603 | over every sequence of the instance's own small steps: a shown "ready" is true when the call ends if and only if nothing was published between its two reads, or "ready" was the last thing published |
| `Readiness.ShownReadyWasTrueIff` | internal/host/instancerun.go:594-603 | a shown "ready" was true at some moment of the call if and only if the bridge was alive at the first read or "ready" was published since over a live bridge |
| `Readiness.QuietCallIsExact` | internal/host/instancerun.go:577-620 | if nothing is published during the call, "ready" is shown exactly if exec requests were served all the time |
| `Readiness.StaleReady` | internal/host/instancerun.go:306-346 | the bridge dies, the status reads the file, the loss is noted and a new bridge is set, the status sees it alive: "ready" is shown and was true at no moment of the call |
| `Lifecycle.Instance.Status` | internal/host/instancerun.go:594-603 | whatever the instance does meanwhile: an instance that serves all the time is shown as ready, and if nothing is published meanwhile only such a one is |
| `Lifecycle.Instance.OpenStream` | internal/host/instancerun.go:577-620 | never refused as not ready if exec requests were served at every moment of the call, always refused if the file did not say "ready" at its beginning, and a stream is opened only on a bridge that was alive |
| `Lifecycle.Instance.Reconnect` | internal/host/instancerun.go:353-387 | sleeps form the doubling, capped backoff, do not overlap and all end by the deadline; the loop terminates; it gives up only if the next sleep would end after the deadline, with "container stopped" only if the last probe saw it down |
| `Lifecycle.BackoffFits` | internal/host/instancerun.go:353-387 | all delays of such a backoff together fit into the window |
| `Lifecycle.DefaultAttempts` | internal/host/instancerun.go:90-92 | with 1 s, 30 s and 2 min there are at most 8 attempts |
| `Events.EveryInterleavingAccounts` | internal/host/events.go:193-208 | for every interleaving of the two sends of each offer with the subscriber's reads, also between them, what was read and queued accounts for every event offered but the counted residue; only an event between its two sends is published and not offered yet |
| `Events.OfferedIsItsSteps` | internal/host/events.go:193-208 | a whole offer during which the subscriber reads is these steps, one after the other |
| `Events.CoveredEventsSitAtTheirIndex` | internal/host/events.go:193-208 | weights (1 per event, the count per marker) add up, every delivered event sits at its own index, every marker counts at least 1 |
| `Events.NoMarkersMeansEverything` | internal/host/events.go:193-208 | without a marker every event was delivered, in order |
| `Events.EverythingDeliveredIff` | internal/host/events.go:193-208 | in every interleaving what was read and queued is every event offered, in order, and nothing is counted as lost, if and only if no event met a full queue |
| `Events.Subscription.Offer` | internal/host/events.go:193-208 | the two non-blocking sends, with any number of reads between them, leave the queue of the specification and keep the books; with room the event is added, after a marker if events were lost, and only a full queue loses it; nothing is sent on a closed channel |
| `Events.SnapshotThenLiveIsCoherent` | internal/host/events.go:213-236 | replaying snapshot and live events gives the last state and ports of everything published and exactly the newest logs |
| `Events.EventBus.Publish` | internal/host/events.go:170-191 | every open subscription is offered the stamped event, closed ones nothing; ring, state and ports stand for all events published |
| `Events.EventBus.Subscribe` | internal/host/events.go:213-236 | the channel holds the snapshot of everything published, with room for the queue; after Close it is closed at once |
| `Events.EventBus.RecentLocked` | internal/host/events.go:238-255 | the last min(n, capacity, total) log events ever published, in order |
| `Events.EventBus.CloseSubscription` | internal/host/events.go:262-271 | no channel is closed twice, and the subscriber set stays exactly the open subscriptions |
| `Events.EventBus.Close` | internal/host/events.go:275-284 | closes every subscription once and keeps what is queued |
| `Events.EventBus.LosslessReplayIsCurrent` | internal/host/events.go:170-236 | a subscriber without drops that replays everything holds the bus's current state and ports |
| `Rings.RingPush` | internal/host/events.go:181-187 | advancing a ring drops the oldest element exactly when it is full |
| `Rings.RingRead` | internal/host/events.go:246-254 | reading n cells around the end yields the newest n |
| `Tunnels.EveryRunIsPartitioned` | internal/host/tunnel.go:90-266 | after any operations, any listen failures and any stale callbacks: listeners and timers are disjoint and together the desired ports while open; none of timers and connections once closed; connections only for desired ports |
| `Tunnels.EachPortForItself` | internal/host/tunnel.go:90-294 | after any operations every port is where an automaton for this port alone is: desired, listened on at which local port, waiting for a retry, its connections |
| `Tunnels.ClosedManagerListensAgainIff` | internal/host/tunnel.go:90-198 | a closed manager without listeners listens again if and only if ForwardPort or UpdatePorts can bind a port |
| `Tunnels.ReportAfterCloseIsForwarded` | internal/host/tunnel.go:153-198 | a port report after Close is forwarded |
| `Tunnels.TunnelManager.ForwardPort` | internal/host/tunnel.go:90-132 | ends in the specified state: bound to the same or another port, or waiting for a retry |
| `Tunnels.TunnelManager.StopForwarding` | internal/host/tunnel.go:135-150 | listener, timer, desire and connections of the port are gone, and exactly its connections are closed |
| `Tunnels.TunnelManager.UpdatePorts` | internal/host/tunnel.go:153-198 | for any order of iteration and any failures the state is that of the specification, and exactly the connections of dropped ports are closed |
| `Tunnels.TunnelManager.RetryCallback` | internal/host/tunnel.go:242-258 | a callback at any time, also after its stop, keeps the partition |
| `Tunnels.TunnelManager.RegisterConnection` | internal/host/tunnel.go:268-284 | admitted exactly if open and desired; booked under its port |
| `Tunnels.TunnelManager.UnregisterConnection` | internal/host/tunnel.go:286-294 | no empty inner set is left, and the connection left on one path |
| `Tunnels.TunnelManager.Close` | internal/host/tunnel.go:214-232 | no listeners, timers or connections are left, and every connection was closed by the manager |
| `Tunnels.TakingKeepsBooks` | internal/host/tunnel.go:296-304 | connections taken out were in the map, and none is taken twice or released as well |
| `ShellText.ReadQuote` | internal/endpoint/environment.go:139-139 | quote removal undoes shellQuote for every text, in the middle of a word |
| `ShellText.TextReadsBack` | internal/endpoint/environment.go:162-180 | the emitted text, after command substitution, is read by a POSIX lexer as exactly the intended export and unset commands |
| `Environment.EvaluateShellText` | internal/endpoint/environment.go:142-180 | evaluating the text sets managed variables, restores or unsets those no longer managed, and touches no other |
| `Environment.ShellEnvironment` | internal/endpoint/environment.go:142-180 | succeeds exactly if state and published environment are valid, and emits commands for exactly the names managed before or now |
| `Environment.Shell.Reload` | internal/endpoint/environment.go:142-194 | one prompt: exact effect on every name; visible variables stay base, published, overrides; a failed reload changes nothing |
| `Environment.Shell.constructor` | internal/endpoint/environment.go:107-137 | a new shell sees base, published, overrides and carries its own state |
| `Environment.ReloadKeepsLayers` | internal/endpoint/environment.go:160-180 | from one layering to the next no removed variable survives |
| `Environment.Server.Update` | internal/endpoint/server.go:433-454 | after any history of updates the process environment is the base overlaid with the latest update only that was valid and could be stored; any other is an error and changes nothing |
| `Environment.Server.constructor` | internal/endpoint/server.go:105-128 | the same after init; an invalid environment, one that cannot be stored, or a host that cannot be told leaves the process environment as it was |
| `Environment.ValidCanBeSet` | internal/config/config.go:84-93 | what validation accepts, the operating system accepts |
| `Dotenv.ParseEnv` | internal/config/config.go:96-157 | the scanning loop with its early errors computes the line by line meaning of the file |
| `Dotenv.JoinIsMerge` | internal/config/config.go:96-167 | two valid files joined by a newline parse to their environments merged |
| `Dotenv.SingleQuotedRoundTrip` | internal/config/config.go:116-141 | for every settable name and value without newline, NUL and quote, `K='v'` parses to exactly v, unless the line reaches 1 MiB |
| `Dotenv.PlainRoundTrip` | internal/config/config.go:142-150 | an unquoted value that needs no trimming, starts with no quote and has no number sign after a blank parses to exactly itself |
| `Dotenv.CommentedRoundTrip` | internal/config/config.go:142-150 | and so it does with any comment after it |
| `Dotenv.ExportIsDropped` | internal/config/config.go:107-107 | the word `export` before a line makes no difference |
| `LogBuffer.LinesAppend` | internal/host/tui/logbuffer.go:37-56 | lines and rest of a stream do not depend on where reading stopped and went on |
| `LogBuffer.LinesReadBack` | internal/host/tui/logbuffer.go:37-56 | any lines without newline and final carriage return, each ended by any number of carriage returns and a newline, read back as they were, and what follows is the rest |
| `LogBuffer.LogBuffer.Write` | internal/host/tui/logbuffer.go:37-64 | after any writes the ring holds the last `size` complete lines of all bytes, and the rest is kept |
| `LogBuffer.LogBuffer.Lines` | internal/host/tui/logbuffer.go:67-81 | returns the last min(size, total) lines of all bytes ever written, oldest first |
| `RotatingLog.Retention` | internal/host/logfile.go:29-82 | after any writes rotated plus current file is a suffix of everything appended, at least min(max, total) long |
| `RotatingLog.CurrentIsBounded` | internal/host/logfile.go:71-82 | the current file exceeds max only if it is the last write alone |
| `RotatingLog.RotatingLog.Write` | internal/host/logfile.go:71-82 | without errors it follows the specification; with failing renames, opens and short writes the files still hold a suffix of what was appended |
| `RotatingLog.RotatingLog.constructor` | internal/host/logfile.go:29-60 | opening rotates a file that is already too large, and loses nothing else |
| `ExecLog.EveryLineIsCounted` | internal/host/execserver.go:683-703 | lines logged plus lines counted in notices are all lines |
| `ExecLog.LockStepIffNoLongRest` | internal/host/execserver.go:653-670 | the lines handed on and the rest kept after every write are those of the whole stream, however it is cut, if and only if no write leaves an unfinished line of more than 4096 bytes |
| `ExecLog.PiecesFollow` | internal/host/execserver.go:666-669 | the pieces of an overlong unfinished line are its consecutive stretches of 4096 bytes, and the rest is what follows them |
| `ExecLog.ExecLogWriter.Emit` | internal/host/execserver.go:683-696 | the log accounts for every line but the newest suppressed ones; since the window's start at most 50 entries of the log are lines, a line is suppressed only when there are 50, and a new window starts a second later at the earliest |
| `ExecLog.ExecLogWriter.Write` | internal/host/execserver.go:653-670 | hands on the complete lines and then every full piece of an overlong rest, and keeps what remains |
| `ExecLog.ExecLogWriter.Flush` | internal/host/execserver.go:673-681 | afterwards every line is logged or counted, also the unfinished one |

## Left out

- Foreign code: yamux, docker, the devcontainer CLI, PTYs, sockets, `/proc`, signals and file locks. A stream is a reliable FIFO that can fail at any step; once a write on it fails, all later writes fail.
- JSON, SHA-256 and `strconv.Unquote` are opaque. JSON is assumed to round-trip; Go's encoder replaces invalid UTF-8, which is not modelled.
- TTY sessions and raw mode: the endpoint cuts buffered PTY output after one second on purpose; `ExecPipeline` is about framed sessions without a terminal.
- Stdin, signals and resizes on their way to the process, except for the framing of stdin.
- Port scanning and port reports of the endpoint, agent, GPG and git-credential forwarders, `BiProxy`: thin loops.
- The clock of the stderr log is arbitrary; that two windows can follow each other closely is not modelled.
- The port-change notification of the tunnel manager is a lossy send, so the state file's ports need not equal the listeners; it is not modelled.
- Status bar, key handling, terminal modes, the command line interface, self-update, installer, image and container removal.
- Iteration over Go maps is modelled as any order; where the source sorts (the names in the shell text), any order is allowed as well.
- RegionStaysInsideIff: margins are set by DECSTBM and reset by RIS, DECSTR, DECSCL, DECALN, DECCOLM, the alternate screen modes and any further functions of the device. Functions that set margins other than the full screen, window operations that change the number of rows, VT52 mode and 8-bit control characters are not modelled, and calls that overflow are excluded.
- AnyStreamStaysInsideIff: the same terminals, and the same exclusion of calls that overflow.
- Update: why an environment cannot be stored (directory, permissions, rename) is not modelled; the file is replaced as a whole or not at all.
- OpenStream: which error an open on a failing bridge gives is arbitrary, except that the mux is closed only if it failed or was replaced.
- Serve: a run sees at most `losses` bridge failures, for any number, since an instance can run forever.
- WaitReady: the event stream is any finite sequence; it ends at the latest with the context, whose timeout closes it.
- EnsureAndRun: the command itself is one run of `ExecStart`; the frames after an OK reply are those of `ExecPipeline`.
- CurrentIsBounded: output that is redirected to the file directly is not counted by the source and not modelled.
- NoneEscapes: `kill` is one step; the grace periods and signals inside it are not modelled.
- StatusArrivesIff: a bridge that has failed or was closed can still deliver what it accepted, so the guard asks only that no write failed and nothing was lost.
- ErasuresAreSeenIff: a terminal erases its last row by ED with a parameter 0 or 2 and by RIS; other functions that overwrite it (DECALN, DECCOLM, inserting lines) are not counted as erasures.
- TextReadsBack: the reader covers text without expansions and rejects the rest; bash's `export` and `unset` are modelled for valid names that are not readonly.
- SingleQuotedRoundTrip: double-quoted values depend on the opaque unquoting and have no round trip here.
