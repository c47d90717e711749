# Protocols and algorithms of Nexus Terminal, verified

This project models the parts of Nexus Terminal whose guarantees hold over whole runs, and proves them with
Dafny 4.11. `dafny verify dfyconfig.toml` checks everything.

| file | what it models |
|---|---|
| Lifecycle.dfy | the application: restore task, late retirements, shutdown, both admission gates |
| RestoreProgress.dfy, ShutdownProgress.dfy, TrafficSettling.dfy | why a restore can complete and closing cannot get stuck |
| Generations.dfy | that every generation of modules is closed or kept to be closed |
| LifecycleHistory.dfy | the application against the history of a run: stages, failures, generations, what `apply` waits for |
| HttpListener.dfy | the HTTP listener: admission, upgrades, suspension leases, drain and close |
| TrafficHistory.dfy, CoroutineHistory.dfy | the listener against the history of a run: its registries, its drains and its close |
| CallAdmission.dfy | the gate over capability calls |
| WebSocketChannel.dfy, ChannelHistory.dfy | one WebSocket's bounded queue, serial handlers and backpressure |
| ModelTextBatches.dfy | coalescing a model's text deltas, and tearing the stream down |
| LatestValueSaver.dfy, SaverHistory.dfy | debounced saving of the newest value |
| CommandDuplex.dfy, DuplexHistory.dfy | budgeted reads and the write chain of a remote command |
| InstallPlan.dfy | the dependency closure of a plugin install plan |
| RecentResults.dfy | the cache of recent results |
| StructuralEquality.dfy | structural equality of application state |
| AgentFailures.dfy | aggregation and classification of failures |
| SealedBytes.dfy, SealedEnvelope.dfy, SecretBox.dfy, Base64Url.dfy | the sealed envelope and the text formats inside it |
| WheelSteps.dfy | wheel deltas turned into steps |
| ApprovalPages.dfy, ResultPages.dfy | following cursors over approvals, artifacts and captured results |
| Utf8.dfy, Utf8Decoder.dfy | UTF-16 and UTF-8 text |
| Basics.dfy, Results.dfy, FiniteSets.dfy | bytes and safe integers, optional and failing results, counting in sets |

## How the models are built

A stateful protocol is a state, a step function over the events that can happen between two awaits, and a
class whose methods change fields in place and are proved to do exactly what the step function says. One
synchronous turn is one step; at every await any other event may come next. Timers, sockets, promises, the
clock, random bytes and the peer are events or parameters. Theorems speak of every event sequence from the
initial state, or from every state that satisfies an invariant proved to be kept. What a state remembers is
also proved equal to what the history of the run says: a registry holds exactly what began and has not ended,
a flag is set exactly if an event of the run sets it, a failure is reported exactly if one has occurred.

A socket that is closed emits nothing further. AES-256-GCM and PBKDF2 are function parameters that obey laws:
unsealing undoes sealing under the same key, nonce and associated data, and lengths are known. A law that every
wrong key fails would contradict the others by counting, so a lemma that needs another box to fail says so about
the one text at hand. `SecretBoxes.LawsCanBeMet` shows that the laws can be met.

Base64url is section 5 of RFC 4648 without padding; its reader is taken to skip every character outside the two
alphabets, `=` included. Numbers in the cache, the cursors and the limits are integers within the safe range
where the code checks it; wheel distances are exact reals.

## Where the code departs from its own words

- `flush` of the saver is documented to persist all scheduled work, including a value queued during a save. A
  flush between the end of the drain loop and the `finally` callback returns the old promise, which does not wait
  for a newer value (`LatestValueSavers.FlushKeepsItsWordOutsideTheGap`). The value itself is never lost.
- A comment asks that a late retirement failure also stop HTTP and WebSocket traffic. It does not when the failure
  comes between the settlement of a restore that left the gates open and its callback, nor when it leaves the stop
  to a restore that the listener then refuses (`Lifecycles.StopIsLostExactlyWhen`, with a run for each in
  `Lifecycles.LateFailureLosesTheStop` and `Lifecycles.RefusedRestoreLosesTheStop`). Capability calls are stopped in
  every case.
- A restore lease whose replacement fails can never be resumed or replaced again
  (`HttpListeners.FailedReplaceIsFinal`).
- After a read that overran the limit, the next read of the same stream may report a clean end
  (`CommandDuplexes.EofMeansEverythingAcceptedWasRead`).
- A credential with a lone surrogate is encrypted without complaint and comes back changed
  (`SecretBoxes.ValueReturnsExactlyWhenWellFormed`); passwords of the envelope are checked for this.
- A captured result whose last page drops its end passes the page check unless it is the first page
  (`ResultPages.LostEndGoesUnnoticedExactlyAfterTheFirstPage`).
- The socket of a binary channel is to be paused at high water. It is not when 1 MiB of text is queued before the
  route begins to listen for binary messages, and only then (`ChannelHistories.PausedExactlyWhen`).

## Model

| member | source | states |
|---|---|---|
| `Lifecycles.ApplyRunsAlone` | packages/backend/src/bootstrap/create-app.ts:141-171 | In every run from the started application, whenever `apply` executes both gates are stopped, nothing of the old generation is active except the owner's request, no capability call is pending, the old modules and every older generation still being closed have retired, and the database is open |
| `Lifecycles.DatabaseClosesLast` | packages/backend/src/bootstrap/create-app.ts:252-293 | When the database may be closing, the restore task, the admitted calls, the retirements, the closing of the retired modules, of the current modules and of the listener have all ended, and no restore can start |
| `Lifecycles.DatabaseWaitsForBoth` | packages/backend/src/bootstrap/create-app.ts:61-78 | In every run the turn that begins to close the database finds the current modules closed and the listener closed |
| `Lifecycles.ShutdownAdvancesInOrder` | packages/backend/src/bootstrap/create-app.ts:252-293 | The shutdown moves one stage at a time: past the calls when none is pending, past the retirements when none is left, and to the database after modules and listener |
| `Lifecycles.ShutdownMissesNoStage` | packages/backend/src/bootstrap/create-app.ts:252-293 | Every stage that a run has left behind, but the wait for a restore that need not be, was the stage of some moment of it |
| `LifecycleHistories.RestoreAdvancesInOrder` | packages/backend/src/bootstrap/create-app.ts:148-214 | Which stage follows in each turn of a restore, and that restoring fails exactly when an owner has not drained, the old modules have not retired, `apply` has not confirmed, a step of the rebuild has failed or a retirement cannot close its modules |
| `LifecycleHistories.RestoreMissesNoStage` | packages/backend/src/bootstrap/create-app.ts:148-193 | In every run a restore that has come as far as a stage has been through each stage before it since it was accepted: nothing is installed before the drains, the retirement and `apply`, and nothing reopens before all of that |
| `LifecycleHistories.RestoreKeepsWhatItRead` | packages/backend/src/bootstrap/create-app.ts:145-157 | A restore works through the lease it was granted for the request that asked for it, and retires the generation that was current when it stopped the gates; one that stopped nothing retires nothing |
| `LifecycleHistories.RunIsAcceptedExactlyWhen` | packages/backend/src/bootstrap/create-app.ts:141-144 | In every run a restore is accepted if and only if nobody has closed the application, none is under way and nothing has failed restoring before |
| `LifecycleHistories.RestoreStartsOnlyBeforeClosing` | packages/backend/src/bootstrap/create-app.ts:148-154 | A restore that is still queued when closing begins stops nothing and ends |
| `LifecycleHistories.RollsFollowTheHistory` | packages/backend/src/bootstrap/create-app.ts:102-138 | In every run exactly those generations are still to be closed, are being closed and have retired that the events of the run put there and did not take away |
| `LifecycleHistories.ModulesAreTheNewest` | packages/backend/src/bootstrap/create-app.ts:177-178 | In every run the current modules are the newest generation, one more for each successful install |
| `LifecycleHistories.FailedRetirementStopsEverything` | packages/backend/src/bootstrap/create-app.ts:107-125 | A retirement that cannot close its modules stops the calls at once and then, unless closing or a restore forbids it, suspends the transport and starts its drain |
| `LifecycleHistories.EveryAdmittedCallHasSettled` | packages/backend/src/bootstrap/create-app.ts:159-167 | Whenever `apply` runs, and when the database closes, every call that ever came through the gate has settled |
| `LifecycleHistories.EverythingAdmittedHasEnded` | packages/backend/src/bootstrap/create-app.ts:159-171 | Whenever `apply` runs, every request but the owner's, upgrade, socket, session, handler and cleanup that the listener ever admitted has ended; so it has when the database closes after a clean close |
| `LifecycleHistories.ListenerFollowsItsHistory` | packages/backend/src/bootstrap/create-app.ts:90-316 | The listener inside the application moves by its own events only, so what is proved of its runs holds of it |
| `LifecycleHistories.GateFollowsItsHistory` | packages/backend/src/bootstrap/create-app.ts:90-316 | So does the admission gate, which the application pauses and resumes in the named turns only |
| `Lifecycles.DoomedGatesStayStopped` | packages/backend/src/bootstrap/create-app.ts:187-191 | Once restoring has failed or closing has begun, no later turn of any run takes either gate from stopped to accepting |
| `Lifecycles.BothGatesReopenTogether` | packages/backend/src/bootstrap/create-app.ts:187-191 | A gate goes from stopped to accepting in one kind of turn only, and in it both do, under the bindings of the new modules |
| `Lifecycles.ReopenCannotThrow` | packages/backend/src/bootstrap/create-app.ts:186-191 | At the reopening point the lease can resume and no capability call is pending, so neither call throws |
| `Lifecycles.RunKeeps` | packages/backend/src/bootstrap/create-app.ts:90-316 | The invariant that ties the restore task, the retirements, the shutdown and both gates together survives every event sequence |
| `Lifecycles.StopIsLostExactlyWhen` | packages/backend/src/bootstrap/create-app.ts:107-125 | A turn leaves HTTP accepting after a failed retirement with nothing pending to stop it if and only if it is one of two named turns: the retirement fails between the settlement of a restore that left the gates open and its callback, or the listener refuses the restore to which a failed retirement had left the suspension |
| `Lifecycles.LostStopStaysLost` | packages/backend/src/bootstrap/create-app.ts:107-125 | Once the stop is lost, no retirement is outstanding and no restore is under way, HTTP goes on accepting, with capability calls stopped, through every later run without a close |
| `Lifecycles.LateFailureLosesTheStop` | packages/backend/src/bootstrap/create-app.ts:114-122 | A concrete run of two restores, each asked for by its own request, reaches such a state by a late failure, although the comment in the code says that the consumers must be stopped |
| `Lifecycles.RefusedRestoreLosesTheStop` | packages/backend/src/bootstrap/create-app.ts:114-122 | Another concrete run reaches such a state because the connection of the second request is gone when its restore tries to suspend the transport |
| `Lifecycles.UndisturbedRestoreCompletes` | packages/backend/src/bootstrap/create-app.ts:141-223 | While nothing but the request that asked for it is under way, a restore goes through every await, reopens both gates under the new bindings with that request still active, and can be followed by another |
| `Lifecycles.NextRequest` | packages/backend/src/bootstrap/create-app.ts:217-225 | After the callback and the end of its request the next request finds the application resting again |
| `RestoreProgress.RestoreCanComplete` | packages/backend/src/bootstrap/create-app.ts:141-192 | From every reachable state in which a request may ask for a restore, whatever else is under way, some continuation in which that request stays unsettled and everything else only settles runs `apply` and reopens both gates |
| `Generations.NoGenerationIsForgotten` | packages/backend/src/bootstrap/create-app.ts:102-138 | In every run each installed generation is the current one, is kept among the retired ones for the shutdown to close, or has been closed by its retirement; the shutdown reaches them with no retirement under way |
| `ShutdownProgress.ShutdownCanFinish` | packages/backend/src/bootstrap/create-app.ts:252-313 | From every reachable state with closing begun some continuation ends the restore, although the request that asked for it has not settled, and a further one ends the shutdown: nothing waits in a circle |
| `Lifecycles.Lifecycle.RunMaintenance` | packages/backend/src/bootstrap/create-app.ts:141-150 | A restore is accepted exactly when nothing is closing, restoring or failed, and only then does the state change |
| `Lifecycles.Lifecycle.ContinueRestore` | packages/backend/src/bootstrap/create-app.ts:148-214 | Each turn of the restore task changes modules, gates, lease and flags as the protocol says, in place |
| `Lifecycles.Lifecycle.SuspendOwner` | packages/backend/src/bootstrap/create-app.ts:153-157 | Suspending the transport, pausing the calls and recording the retired generation are one turn; a refused suspend ends the restore |
| `Lifecycles.Lifecycle.ReopenGates` | packages/backend/src/bootstrap/create-app.ts:186-193 | The last turn reopens both gates unless closing has begun or restoring has failed meanwhile |
| `Lifecycles.Lifecycle.SettleRestore` | packages/backend/src/bootstrap/create-app.ts:217-225 | The settled callback clears `restoring` and starts the retirement of the replaced generation |
| `Lifecycles.Lifecycle.ContinueRetirement` | packages/backend/src/bootstrap/create-app.ts:107-138 | A failed retirement stops the calls and, when nothing else owns the transport, suspends and drains it |
| `Lifecycles.Lifecycle.ContinueShutdown` | packages/backend/src/bootstrap/create-app.ts:55-88 | Shutdown waits for the restore, the calls, the retirements, the listener and the modules before the database |
| `Lifecycles.Lifecycle.Close` | packages/backend/src/bootstrap/create-app.ts:252-259 | Closing begins once |
| `CallAdmissions.PausedCallsOnlySettle` | packages/backend/src/platform/lifecycle/call-admission.ts:6-59 | After a pause and until a resume, the pending calls are exactly those of the pause that have not settled, whatever is called |
| `CallAdmissions.ResumeAcceptedExactlyAfterDrain` | packages/backend/src/platform/lifecycle/call-admission.ts:10-19 | A resume after a pause is accepted if and only if every call pending at the pause has settled |
| `CallAdmissions.PendingAreTheAdmittedUnsettled` | packages/backend/src/platform/lifecycle/call-admission.ts:43-58 | In every run the remembered promises are exactly those of the asynchronous calls that came through the open gate and have not settled since |
| `CallAdmissions.GateDecidesAlone` | packages/backend/src/platform/lifecycle/call-admission.ts:30-46 | An open gate hands every call through until the pause, and from the pause to the next resume every call is refused |
| `CallAdmissions.CallAdmission.Invoke` | packages/backend/src/platform/lifecycle/call-admission.ts:30-58 | A call is answered and remembered as the gate, the owner and the synchronous contract decide |
| `CallAdmissions.CallAdmission.PauseCalls` | packages/backend/src/platform/lifecycle/call-admission.ts:6-8 | Pausing changes the gate and nothing else |
| `CallAdmissions.CallAdmission.ResumeCalls` | packages/backend/src/platform/lifecycle/call-admission.ts:10-15 | Resuming succeeds exactly when no call is pending, and changes nothing otherwise |
| `CallAdmissions.CallAdmission.Settled` | packages/backend/src/platform/lifecycle/call-admission.ts:54-57 | A settled call, fulfilled or rejected, is forgotten |
| `HttpListeners.RunKeeps` | packages/backend/src/platform/http/http-server.ts:285-425 | In every run: accepting means no suspension and no close, each served generation has one set of bindings, and drained leases and finished closes leave nothing running |
| `HttpListeners.SocketsOpenUnderTheBindingsThatAuthorizedThem` | packages/backend/src/platform/http/http-server.ts:87-135 | Every upgraded socket was authorized by the bindings that serve the generation it opens in, then and for the rest of the run |
| `TrafficHistories.UnderWayIsWhatBeganAndHasNotEnded` | packages/backend/src/platform/http/http-server.ts:50-85 | After every run the registries hold exactly what began and has not ended since: requests, upgrades, sockets, and the tasks of upgrades, raw sessions, started handlers and close callbacks |
| `TrafficHistories.DrainWaitsForEverything` | packages/backend/src/platform/http/http-lifecycle.ts:66-106 | A fulfilled drain has waited for everything that ever began, except the owner's request |
| `TrafficHistories.CleanCloseWaitsForEverything` | packages/backend/src/platform/http/http-lifecycle.ts:109-176 | A close that succeeds has waited for everything that ever began |
| `TrafficHistories.GenerationsAreThoseOfTheBeginning` | packages/backend/src/platform/http/http-server.ts:87-131 | An upgrade keeps the generation and bindings it came in under, and a socket those it opened under |
| `CoroutineHistories.DrainAdvancesInOrder` | packages/backend/src/platform/http/http-lifecycle.ts:88-105 | A drain skips nothing but an empty wait, confirms the sockets after requests and tasks, leaves that only when all have closed or the deadline has passed, and ends with no task left |
| `CoroutineHistories.DrainEndsRejectedExactlyForAFault` | packages/backend/src/platform/http/http-lifecycle.ts:66-104 | In every run a drain that has ended is rejected if and only if it collected a failure on its way |
| `CoroutineHistories.DrainNeverWaitsForSuccess` | packages/backend/src/platform/http/http-lifecycle.ts:88-99 | Once what it waits for has ended, every turn takes a drain further, whatever fails |
| `CoroutineHistories.CloseAdvancesInOrder` | packages/backend/src/platform/http/http-lifecycle.ts:147-170 | The close waits for requests and tasks, then for the HTTP server, again for tasks, for the WebSocket server and the sockets, and ends with no task left |
| `CoroutineHistories.CloseMissesNoStage` | packages/backend/src/platform/http/http-lifecycle.ts:147-170 | Every stage that a close has left behind was the stage of some moment of the run |
| `CoroutineHistories.CloseFailsExactlyForAFault` | packages/backend/src/platform/http/http-lifecycle.ts:109-175 | In every run a close that has ended has failed if and only if something failed on its way |
| `CoroutineHistories.CloseNeverWaitsForSuccess` | packages/backend/src/platform/http/http-lifecycle.ts:147-170 | Once what it waits for has ended, every turn takes the close further, whatever fails |
| `CoroutineHistories.SuspensionGrantedExactlyWhen` | packages/backend/src/platform/http/http-server.ts:285-313 | In every run a suspension is granted if and only if the listener accepts and a named owner's request came in, has not settled since and can still be answered |
| `CoroutineHistories.NothingElseStopsTheListener` | packages/backend/src/platform/http/http-server.ts:308-399 | Unless somebody suspends or closes it, the listener goes on accepting under the same bindings; it is closing from the first close on |
| `CoroutineHistories.CompilationSettlesOnce` | packages/backend/src/platform/http/http-server.ts:351-374 | New bindings land at the first settlement of their compilation or never |
| `CoroutineHistories.DrainedLeaseReopens` | packages/backend/src/platform/http/http-server.ts:351-384 | A drained current lease reopens the listener under whatever it prepares, at the first try |
| `HttpListeners.GateOnlyCloses` | packages/backend/src/platform/http/http-server.ts:199 | The gate of a generation, once closed, never opens again |
| `HttpListeners.OnlyTheCurrentLeaseReopens` | packages/backend/src/platform/http/http-server.ts:315-384 | Only the current lease, drained and replaced, makes the listener accept again, with only the owner's request left and a generation not served before |
| `HttpListeners.StaleLeaseIsInert` | packages/backend/src/platform/http/http-server.ts:315-319 | A call through a lease that no longer owns the suspension changes nothing at all |
| `HttpListeners.ClosedListenerIgnoresLeases` | packages/backend/src/platform/http/http-server.ts:315-362 | After close a lease changes neither the gate, the bindings, the suspension nor what is admitted |
| `HttpListeners.FailedReplaceIsFinal` | packages/backend/src/platform/http/http-server.ts:351-374 | `replacing` is never reset: after a failed replace the listener never accepts again and keeps its bindings |
| `HttpListeners.ClosingIsFinal` | packages/backend/src/platform/http/http-server.ts:394-425 | Closing never ends in accepting, and after a clean close nothing admitted runs, for the rest of the run |
| `HttpListeners.DrainedStaysQuiet` | packages/backend/src/platform/http/http-lifecycle.ts:66-106 | From a fulfilled drain on and while the lease holds the suspension, nothing runs but the owner's request |
| `HttpListeners.NeverSuspendedAgain` | packages/backend/src/platform/http/http-server.ts:315-387 | A lease that lost the suspension never owns it again |
| `HttpListeners.HttpListener.AdmitRequest` | packages/backend/src/platform/http/http-server.ts:43-74 | A request is admitted exactly when the listener accepts |
| `HttpListeners.HttpListener.AdmitUpgrade` | packages/backend/src/platform/http/http-server.ts:223-234 | An upgrade is tracked exactly when the listener accepts, under the bindings and generation of its arrival |
| `HttpListeners.HttpListener.DecideUpgrade` | packages/backend/src/platform/http/http-server.ts:121-149 | An upgrade connects exactly when it is authorized, its socket lives and its generation is still open |
| `HttpListeners.HttpListener.SuspendTransport` | packages/backend/src/platform/http/http-server.ts:285-313 | A suspension is granted exactly to a usable owner on an accepting, unsuspended, open listener |
| `HttpListeners.HttpListener.DrainLease` | packages/backend/src/platform/http/http-server.ts:322-349 | The drain of a lease starts once and is refused to a lease that is not current |
| `HttpListeners.HttpListener.ReplaceBindings` | packages/backend/src/platform/http/http-server.ts:351-357 | A replace begins exactly for the current, drained lease that has not begun one |
| `HttpListeners.HttpListener.LandBindings` | packages/backend/src/platform/http/http-server.ts:358-374 | New bindings land exactly when they compiled and the lease is still current |
| `HttpListeners.HttpListener.ResumeTransport` | packages/backend/src/platform/http/http-server.ts:376-384 | A resume succeeds exactly for the current, drained and replaced lease |
| `HttpListeners.HttpListener.Close` | packages/backend/src/platform/http/http-server.ts:394-402 | Closing stops admission at once and ends the generation |
| `HttpListeners.HttpListener.ContinueDrain` | packages/backend/src/platform/http/http-lifecycle.ts:66-106 | Each step of a drain waits for a snapshot, goes round a task loop, confirms the sockets, or ends as the failures and the lease decide |
| `HttpListeners.HttpListener.ContinueClose` | packages/backend/src/platform/http/http-lifecycle.ts:109-176 | Each step of the close waits for a snapshot, goes round one of the three task loops, or ends as the failures decide |
| `HttpListeners.HttpListener.SettleRequest` | packages/backend/src/platform/http/http-server.ts:68-73 | A settled request leaves the registry and nothing else changes |
| `HttpListeners.HttpListener.SettleTask` | packages/backend/src/platform/http/http-server.ts:76-85 | A settled WebSocket task leaves the registry and nothing else changes |
| `HttpListeners.HttpListener.StartHandler` | packages/backend/src/platform/http/http-server.ts:198-207 | A handler task is tracked exactly while the gate of its socket is open |
| `HttpListeners.HttpListener.OnSocketClosed` | packages/backend/src/platform/http/http-server.ts:205-209 | A closed socket stays known as closed, and the task of its close callback is tracked |
| `HttpListeners.DrainTurnKeeps` | packages/backend/src/platform/http/http-lifecycle.ts:66-106 | Every step of a transport drain keeps the listener's invariant, through both loops over the WebSocket tasks |
| `HttpListeners.CloseTurnKeeps` | packages/backend/src/platform/http/http-lifecycle.ts:109-176 | Every step of closing keeps the listener's invariant, through the three loops over the WebSocket tasks |
| `WebSocketChannels.HandlersSeeAPrefixOneAtATime` | packages/backend/src/platform/http/websocket-channel.ts:66-106 | In every run the messages handed to handlers are a prefix, in order, of those admitted, and at most one handler is unfinished |
| `WebSocketChannels.CountersStayInBounds` | packages/backend/src/platform/http/websocket-channel.ts:140-156 | The counters equal the queue plus the message in flight and never exceed 64 messages or the input budget |
| `WebSocketChannels.DispatchGateOnlyCloses` | packages/backend/src/platform/http/websocket-channel.ts:78 | The gate over finishing, generation and socket state never reopens |
| `WebSocketChannels.PausedMeansWorkInFlight` | packages/backend/src/platform/http/websocket-channel.ts:148-161 | Between turns a non-empty queue has a handler in flight, and a paused socket that is not closed also has 512 KiB queued |
| `WebSocketChannels.CompletionsResumeTheSocket` | packages/backend/src/platform/http/websocket-channel.ts:51-59 | From any reachable state as many handler completions as there are queued messages empty the queue and resume the socket unless it is closed |
| `ChannelHistories.HighWaterPausesTheSocket` | packages/backend/src/platform/http/websocket-channel.ts:148-153 | In every run that begins to listen for binary messages before its first message, the socket is paused whenever a binary channel holds 1 MiB or more |
| `ChannelHistories.PausedExactlyWhen` | packages/backend/src/platform/http/websocket-channel.ts:51-59 | The socket is paused only by a message that takes a binary channel to 1 MiB, and resumed only below 512 KiB; high water goes unpaused exactly when listening begins late |
| `ChannelHistories.ArrivalAdmitsExactlyWhen` | packages/backend/src/platform/http/websocket-channel.ts:112-147 | A message is admitted if and only if somebody listens and the frame and queue limits of the route allow it; otherwise the socket leaves and nothing else changes |
| `ChannelHistories.EndsFollowTheHistory` | packages/backend/src/platform/http/websocket-channel.ts:66-106 | In every run the channel accepts, has been asked to finish and is open exactly as its events and the handlers it has called say |
| `ChannelHistories.HandsOverUntilAPromise` | packages/backend/src/platform/http/websocket-channel.ts:66-106 | While a handler is busy nothing is handed over; otherwise messages are handed over up to the first handler that returns a promise |
| `ChannelHistories.NothingIsHandedOnceClosed` | packages/backend/src/platform/http/websocket-channel.ts:78 | Once the dispatch gate is closed no handler is called any more |
| `ChannelHistories.FinishFollowsTheClose` | packages/backend/src/platform/http/websocket-channel.ts:215-246 | From its call on, `finish` is fulfilled if and only if the socket closes normally before the deadline |
| `ChannelHistories.SettledFinishStays` | packages/backend/src/platform/http/websocket-channel.ts:216-222 | On a closed socket `finish` is fulfilled at once, and a settled promise never changes |
| `WebSocketChannels.WebSocketChannel.OnMessage` | packages/backend/src/platform/http/websocket-channel.ts:111-162 | A frame is refused, too large, over budget or queued, in that order, and then the queue is drained |
| `WebSocketChannels.WebSocketChannel.DrainInputs` | packages/backend/src/platform/http/websocket-channel.ts:66-106 | The loop hands messages out until a handler returns a task, also when handlers throw, finish or terminate from inside |
| `WebSocketChannels.WebSocketChannel.OnSettled` | packages/backend/src/platform/http/websocket-channel.ts:85-97 | A completed handler releases its message, then draining goes on |
| `WebSocketChannels.WebSocketChannel.Finish` | packages/backend/src/platform/http/websocket-channel.ts:215-246 | Finishing leaves an open socket closing; its promise is fulfilled at once on a closed socket and waits otherwise |
| `WebSocketChannels.FinishConfirmsExactly` | packages/backend/src/platform/http/websocket-channel.ts:215-246 | Whatever happens between, the promise of finish is fulfilled if and only if the socket closes normally before the deadline, and rejected otherwise |
| `WebSocketChannels.WebSocketChannel.OnDeadline` | packages/backend/src/platform/http/websocket-channel.ts:224-229 | The deadline of a waiting finish is remembered and terminates the socket |
| `WebSocketChannels.WebSocketChannel.OnClosed` | packages/backend/src/platform/http/websocket-channel.ts:231-238 | The close of the socket settles a waiting finish |
| `WebSocketChannels.WebSocketChannel.ListenToBinary` | packages/backend/src/platform/http/websocket-channel.ts:204-209 | Binary input can be taken only on a route with a binary limit |
| `ModelTextBatches.Batches` | packages/backend/src/platform/ai/model-text-batches.ts:35-89 | For every input, timer and consumer the outputs mean the events they cover, each is one delta or within 128 KiB, and unless the consumer stops everything before the end or the failure is emitted first; the outputs are a prefix of the batches that the races determine, and the last one decides what is read ahead |
| `ModelTextBatches.EndingReports` | packages/backend/src/platform/ai/model-text-batches.ts:36-133 | How a run ends, by case: a failure of the producer is thrown unless the consumer stopped before it was found; a failing return other than a timeout makes it a cleanup failure that lists both |
| `ModelTextBatches.BatchEndsExactlyWhenDue` | packages/backend/src/platform/ai/model-text-batches.ts:59-85 | A batch ends at the first position at which 131072 bytes are reached, the timer has fired, the input ends, a control event comes or the next delta does not fit, and at no other; the read there is outstanding in the first two cases and examined in the others |
| `ModelTextBatches.JoinBatch` | packages/backend/src/platform/ai/model-text-batches.ts:52-88 | A batch is the concatenation of consecutive deltas, and ends at the first position at which it is full, its timer fires or the next read cannot join it |
| `ModelTextBatches.JoiningMerges` | packages/backend/src/platform/ai/model-text-batches.ts:83 | Appending delta by delta is merging adjacent deltas |
| `ModelTextBatches.CountCoversTheText` | packages/backend/src/platform/ai/model-text-batches.ts:84 | The running byte count never falls short of the joined text and exceeds it by at most two bytes for each join |
| `ModelTextBatches.MeaningIsIdempotent` | packages/backend/src/platform/ai/model-text-batches.ts:35-89 | Merging what is merged changes nothing, so batching twice is batching once |
| `ModelTextBatches.ConcludeReportsEveryFailure` | packages/backend/src/platform/ai/model-text-batches.ts:93-133 | Tearing down reports exactly the known failures, each once, and a cleanup failure exactly when cleaning up failed |
| `Utf8.ByteLengthOfConcat` | packages/backend/src/platform/ai/model-text-batches.ts:73 | The encoded length of a concatenation is the sum, less two bytes exactly when it joins a surrogate pair |
| `LatestValueSavers.SavesAreSerialAndInOrder` | packages/frontend/src/foundation/async/latestValueSaver.ts:45-96 | In every run saves never overlap, attempts are an in-order subsequence of the accepted values, a pending value has a timer or a drain, and the reported flag means pending or running |
| `LatestValueSavers.QuiescentMeansSaved` | packages/frontend/src/foundation/async/latestValueSaver.ts:45-119 | When nothing is pending or running and nothing was discarded, the last value saved is the last one accepted |
| `LatestValueSavers.FlushKeepsItsWordOutsideTheGap` | packages/frontend/src/foundation/async/latestValueSaver.ts:11-98 | The promise of `flush` waits for everything accepted so far if and only if it is not called between the end of the drain loop and its `finally` callback with a newer value pending |
| `LatestValueSavers.TheGapIsReachable` | packages/frontend/src/foundation/async/latestValueSaver.ts:66-74 | Four ordinary steps lead into that gap |
| `LatestValueSavers.LatestValueSaver.ScheduleNewest` | packages/frontend/src/foundation/async/latestValueSaver.ts:79-96 | Scheduling replaces the pending value and arms the timer unless a drain is running |
| `LatestValueSavers.LatestValueSaver.FlushPending` | packages/frontend/src/foundation/async/latestValueSaver.ts:98 | Flushing drains and answers with the promise of the running drain |
| `LatestValueSavers.LatestValueSaver.DisposeOf` | packages/frontend/src/foundation/async/latestValueSaver.ts:100-119 | Disposing stops the timer and drains or discards the pending value |
| `LatestValueSavers.LatestValueSaver.OnTimer` | packages/frontend/src/foundation/async/latestValueSaver.ts:89-95 | The timer starts a drain |
| `LatestValueSavers.LatestValueSaver.OnSaveSettled` | packages/frontend/src/foundation/async/latestValueSaver.ts:60-66 | A settled save, failed or not, lets the loop take the next pending value |
| `LatestValueSavers.LatestValueSaver.ContinueDispose` | packages/frontend/src/foundation/async/latestValueSaver.ts:115-118 | A discarding dispose reports that nothing is pending once the drain it waited for is fulfilled |
| `LatestValueSavers.LatestValueSaver.OnDrainFinished` | packages/frontend/src/foundation/async/latestValueSaver.ts:66-74 | The finished drain starts another one if a value came in meanwhile |
| `SaverHistories.DiscardsExactlyWhen` | packages/frontend/src/foundation/async/latestValueSaver.ts:100-119 | In every run a value is discarded if and only if the first dispose asks for no flush while a value is pending; a run whose disposes all flush loses none |
| `SaverHistories.AcceptsUntilDisposed` | packages/frontend/src/foundation/async/latestValueSaver.ts:79-83 | In every run exactly the values scheduled before the first dispose are accepted, in order |
| `SaverHistories.NothingIsSavedAfterADiscard` | packages/frontend/src/foundation/async/latestValueSaver.ts:115-118 | After a dispose without a flush nothing is saved any more but what is being saved already |
| `SaverHistories.DisposeWaitsForTheDrain` | packages/frontend/src/foundation/async/latestValueSaver.ts:115-118 | A dispose without a flush waits for the drain under way, if there is one, until that is fulfilled |
| `SaverHistories.ComesToRest` | packages/frontend/src/foundation/async/latestValueSaver.ts:45-77 | From every reachable state at most five turns bring the saver to rest, whatever becomes of its saves, and then the last accepted value has been saved unless it was discarded |
| `SaverHistories.FlushStartsTheSave` | packages/frontend/src/foundation/async/latestValueSaver.ts:45-77 | A flush, a fired timer or a flushing dispose starts saving the newest value at once, unless a drain is running |
| `SaverHistories.DrainsEndExactly` | packages/frontend/src/foundation/async/latestValueSaver.ts:54-76 | In every run each drain but the one under way has ended, rejected if and only if a save failed and the error handler threw |
| `CommandDuplexes.ChunksAreAPrefixWithinTheLimit` | packages/backend/src/platform/ssh/command-duplex.ts:43-123 | In every run the chunks of each stream are a prefix of what its source handed out, each within its requested size and both streams together within the limit |
| `CommandDuplexes.EofMeansEverythingAcceptedWasRead` | packages/backend/src/platform/ssh/command-duplex.ts:85-88 | The end is reported only with an empty remainder; it is everything the source handed out if and only if no read of the stream overran the limit |
| `CommandDuplexes.EofAfterOverrun` | packages/backend/src/platform/ssh/command-duplex.ts:78-88 | A concrete run reports the end although bytes were lost to the limit |
| `CommandDuplexes.WritesReachStdinInOrder` | packages/backend/src/platform/ssh/command-duplex.ts:125-182 | What reaches stdin is a prefix of the writes in call order, and each starts only when all before it are acknowledged |
| `CommandDuplexes.FirstFailureStopsTheChain` | packages/backend/src/platform/ssh/command-duplex.ts:129-181 | After a failed write nothing more reaches stdin, whatever is called |
| `CommandDuplexes.MachineCommandDuplex.ReadFrom` | packages/backend/src/platform/ssh/command-duplex.ts:43-49 | A read is accepted exactly when nothing closes, none is pending for the stream and its size is a positive safe integer |
| `CommandDuplexes.MachineCommandDuplex.ContinueRead` | packages/backend/src/platform/ssh/command-duplex.ts:50-105 | A read is served from the remainder first, else from the source, and fails once the total passes the limit |
| `CommandDuplexes.MachineCommandDuplex.OnSourceFailure` | packages/backend/src/platform/ssh/command-duplex.ts:64-67 | A failing source fails the read that waits for it |
| `CommandDuplexes.MachineCommandDuplex.OnAbort` | packages/backend/src/platform/ssh/command-duplex.ts:64-102 | An abort fails every waiting read and all that start later |
| `CommandDuplexes.MachineCommandDuplex.ForgetRead` | packages/backend/src/platform/ssh/command-duplex.ts:107-111 | A settled read is forgotten, so that its stream can be read again |
| `CommandDuplexes.MachineCommandDuplex.Close` | packages/backend/src/platform/ssh/command-duplex.ts:234-236 | From the call of close on reads and writes are refused |
| `CommandDuplexes.MachineCommandDuplex.OnChannelClose` | packages/backend/src/platform/ssh/command-duplex.ts:24-28 | The close of the channel is remembered |
| `CommandDuplexes.MachineCommandDuplex.OnStdinFailure` | packages/backend/src/platform/ssh/command-duplex.ts:143-164 | An error or close of stdin fails the active write and with it the chain |
| `CommandDuplexes.MachineCommandDuplex.Append` | packages/backend/src/platform/ssh/command-duplex.ts:125-128 | A write or end is appended to the chain exactly while nothing is closing or closed |
| `CommandDuplexes.MachineCommandDuplex.ContinueChain` | packages/backend/src/platform/ssh/command-duplex.ts:129-178 | The next job of the chain starts when the one before it has been acknowledged |
| `CommandDuplexes.MachineCommandDuplex.OnCallback` | packages/backend/src/platform/ssh/command-duplex.ts:150-173 | A write ends with its callback, and with the drain if the stream asked for one |
| `CommandDuplexes.MachineCommandDuplex.OnDrain` | packages/backend/src/platform/ssh/command-duplex.ts:157-160 | A drain ends a write whose callback has come |
| `DuplexHistories.RemainderOnlyAfterAFullChunk` | packages/backend/src/platform/ssh/command-duplex.ts:115-123 | In every run a step that answers with a chunk leaves something behind only if the chunk has exactly the size asked for |
| `DuplexHistories.ChunkIsAsLargeAsPossible` | packages/backend/src/platform/ssh/command-duplex.ts:115-123 | A chunk is the first bytes of the remainder, or of what the source hands out if nothing remains: as many as asked for, or all |
| `DuplexHistories.ReadsDeliverEverything` | packages/backend/src/platform/ssh/command-duplex.ts:50-54 | Reading on in pieces of any size delivers everything that was accepted, in order and to the last byte |
| `DuplexHistories.EveryReadGetsOneAnswer` | packages/backend/src/platform/ssh/command-duplex.ts:43-113 | In every run each accepted read of a stream gets exactly one answer, in call order and for the size it asked for |
| `DuplexHistories.FailedAndEofExactlyWhen` | packages/backend/src/platform/ssh/command-duplex.ts:50-102 | A read fails, or reports the end, exactly when the abort, the source, the channel and the limit say so |
| `DuplexHistories.SourceIsReadOnDemand` | packages/backend/src/platform/ssh/command-duplex.ts:50-84 | Bytes are taken from a source only by a read with nothing remaining, and kept unless they exceed the limit |
| `DuplexHistories.FlagsFollowTheHistory` | packages/backend/src/platform/ssh/command-duplex.ts:24-41 | In every run the flags say what has happened, and no read waits after an abort |
| `DuplexHistories.ChainFollowsTheCalls` | packages/backend/src/platform/ssh/command-duplex.ts:125-128 | In every run the chain is exactly the accepted writes in call order |
| `DuplexHistories.WriteStarts` | packages/backend/src/platform/ssh/command-duplex.ts:129-178 | A write that starts reaches stdin, and waits for a drain exactly if it is data and the stream asks for one |
| `DuplexHistories.AcknowledgedExactlyWhen` | packages/backend/src/platform/ssh/command-duplex.ts:150-173 | Unless it fails, an active write is acknowledged if and only if its callback has come and, when asked for, a drain, in either order |
| `DuplexHistories.BrokenExactlyWhen` | packages/backend/src/platform/ssh/command-duplex.ts:129-178 | The chain breaks exactly when a write fails, and a broken chain starts and acknowledges nothing more |
| `DuplexHistories.EveryWriteCanReachStdin` | packages/backend/src/platform/ssh/command-duplex.ts:125-178 | From every state in which none has failed, every accepted write can still reach stdin and be acknowledged |
| `InstallPlans.CheckClosure` | packages/shared/src/agent/plugins/install-plan-codec.ts:104-132 | The worklist terminates and accepts exactly the plans whose ids are distinct and whose dependency list is the set reachable from the target along edges that match publisher and version range |
| `InstallPlans.ExhaustedWorklistDecides` | packages/shared/src/agent/plugins/install-plan-codec.ts:130-132 | When the worklist is exhausted, comparing sizes decides whether the list is exactly the closure |
| `InstallPlans.CycleThroughTargetIsRefused` | packages/shared/src/agent/plugins/install-plan-codec.ts:117-124 | A dependency in the closure that leads back to the target is always refused |
| `InstallPlans.DependencyNamesItsPackage` | packages/shared/src/agent/plugins/install-plan-codec.ts:104-132 | In an acceptable plan each dependency of the closure names exactly one listed package, of its publisher and in its range |
| `RecentResultsCache.RecentResults.Get` | packages/backend/src/platform/lifecycle/recent-results.ts:19-22 | Under a non-decreasing clock a key is answered with the value last stored under it if and only if that is younger than the time to live and fewer than `capacity` distinct keys were stored since |
| `RecentResultsCache.RecentResults.Set` | packages/backend/src/platform/lifecycle/recent-results.ts:24-35 | Storing extends the history the answers depend on and keeps the representation |
| `RecentResultsCache.RecentResults.Prune` | packages/backend/src/platform/lifecycle/recent-results.ts:37-43 | Pruning removes exactly the expired entries, in one pass, without changing the history |
| `RecentResultsCache.RecentResults.Create` | packages/backend/src/platform/lifecycle/recent-results.ts:10-17 | A cache exists exactly for positive safe limits |
| `RecentResultsCache.PositionCountsKeys` | packages/backend/src/platform/lifecycle/recent-results.ts:24-34 | The position of an entry in insertion order counts the distinct keys stored after it |
| `RecentResultsCache.StoreKeeps` | packages/backend/src/platform/lifecycle/recent-results.ts:24-35 | Replace, append and evict keep the entries equal to what the history prescribes |
| `RecentResultsCache.RecallIsUnique` | packages/backend/src/platform/lifecycle/recent-results.ts:19-22 | The history prescribes at most one value for a key |
| `StructuralEquality.EqualMeansSameCanonicalForm` | packages/frontend/src/foundation/data/structurallyEqual.ts:13-30 | On trees read from one heap the comparison holds if and only if the canonical forms, with records as finite maps, are equal |
| `StructuralEquality.StructuralEqualityIsAnEquivalence` | packages/frontend/src/foundation/data/structurallyEqual.ts:23-29 | Although only the left keys are iterated, the comparison is reflexive, symmetric and transitive |
| `StructuralEquality.FieldOrderIsIgnored` | packages/frontend/src/foundation/data/structurallyEqual.ts:9-29 | Reordering the fields of a record cannot be seen |
| `AgentFailures.GroupingDoesNotMatter` | packages/backend/src/modules/agent/agent-failure.ts:146-167 | Aggregating aggregates gives the class of aggregating the flat list, for arbitrarily nested groups |
| `AgentFailures.GroupingKeepsClassifiers` | packages/backend/src/modules/agent/agent-failure.ts:74-79 | Fenced, unconfirmed and cleanup-failed survive every grouping unchanged |
| `AgentFailures.FencedMeansEveryLeafIsAFence` | packages/backend/src/modules/agent/agent-failure.ts:74-79 | The recursive test holds exactly when no aggregate is empty and every leaf is a resource fence |
| `AgentFailures.AgentAggregateIsNoDrainFailureExactlyWhenFenced` | packages/backend/src/modules/agent/agent-failure.ts:66-72 | An agent aggregate is no drain failure if and only if it is made of something and every leaf is a resource fence |
| `AgentFailures.ToolAggregateFollowsItsLeaves` | packages/backend/src/modules/agent/agent-failure.ts:146-167 | Which failure a tool aggregate is follows from the leaves below it: all fences, all uncertain, one of those a failed cleanup, or anything else |
| `AgentFailures.DrainFailuresAreTheUnexpectedOnes` | packages/backend/src/modules/agent/agent-failure.ts:170-184 | Kind by kind which failures are drain failures, and that a tool aggregate is one unless it is made of fences alone |
| `SealedBytes.OwnInstanceNeedsNoPassword` | packages/backend/src/platform/security/sealed-bytes.ts:139-160 | On the sealing instance decoding gives the plaintext back whatever password is given or missing |
| `SealedBytes.PasswordOpensEverywhere` | packages/backend/src/platform/security/sealed-bytes.ts:115-160 | Under the password decoding gives the plaintext back when the decoder's box yields the data key or no key |
| `SealedBytes.WhenTheOwnKeyIsRight` | packages/backend/src/platform/security/sealed-bytes.ts:95-113 | That is so for the same box, for none, for an envelope sealed without a box, and for a box that does not open the wrapped key |
| `SealedBytes.PasswordRequiredExactlyWithoutTheKey` | packages/backend/src/platform/security/sealed-bytes.ts:139-143 | Without a password a real envelope asks for one if and only if it is within the limit and the box yields no key |
| `SealedBytes.RealEnvelopeMeasures` | packages/backend/src/platform/security/sealed-bytes.ts:115-136 | The length of a real envelope is known, and a length check refuses it if and only if its plaintext is over the decoder's limit |
| `SealedBytes.InstanceWrappedShape` | packages/backend/src/platform/security/sealed-bytes.ts:81-84 | The instance-wrapped key is empty or 101 bytes long |
| `SealedBytes.InstanceGivesTheKey` | packages/backend/src/platform/security/sealed-bytes.ts:95-106 | The instance's wrapping survives the ASCII bytes, the four-part text and the canonical check |
| `SealedBytes.PasswordsAcceptedExactly` | packages/backend/src/platform/security/sealed-bytes.ts:26-33 | A password is accepted if and only if it is not empty, at most 8192 bytes and without lone surrogates |
| `SealedBytes.Layout` | packages/backend/src/platform/security/sealed-bytes.ts:85-88 | Every slice that decoding takes of header and body is the piece that encoding put there |
| `SealedEnvelopes.EnvelopeSays` | packages/backend/src/platform/security/sealed-bytes.ts:71-93 | Byte by byte what encoding writes: magic, salt, the data key sealed under the password and authenticated with both, the instance-wrapped key with its length, and the plaintext sealed and authenticated with all that precedes it |
| `SealedEnvelopes.SealedExactlyWhen` | packages/backend/src/platform/security/sealed-bytes.ts:26-77 | Encoding refuses exactly a plaintext over the limit, then a password that cannot be, then a derivation that fails |
| `SealedEnvelopes.InstanceKeyIsEncrypted` | packages/backend/src/platform/security/sealed-bytes.ts:81-84 | With a box the wrapped key is its encryption of the data key in base64url under the scope of the format |
| `SealedEnvelopes.OpenedExactlyWhen` | packages/backend/src/platform/security/sealed-bytes.ts:115-160 | A decode succeeds if and only if the input is an envelope within the limits whose body authenticates under the own key or, if there is none, under the key that the password opens; for every input, not only real envelopes |
| `SealedEnvelopes.MeasuredExactly` | packages/backend/src/platform/security/sealed-bytes.ts:116-136 | Which input is refused before any key is tried, and why |
| `SealedEnvelopes.RefusedExactlyWhen` | packages/backend/src/platform/security/sealed-bytes.ts:139-150 | When a well-formed envelope is refused for want of a password, for a password that cannot be, or for a derivation that fails |
| `SealedBytes.Sealer.Create` | packages/backend/src/platform/security/sealed-bytes.ts:62-69 | A sealer exists exactly for a positive safe limit |
| `SealedBytes.Sealer.Encode` | packages/backend/src/platform/security/sealed-bytes.ts:71-93 | The envelope or the failure is as specified, and both key buffers are erased whenever they were used |
| `SealedBytes.Sealer.Decode` | packages/backend/src/platform/security/sealed-bytes.ts:115-160 | The plaintext or the failure is as specified, and every key held on the way, rejected ones included, is erased |
| `SecretBoxes.DecryptUndoesEncrypt` | packages/backend/src/platform/security/secret-box.ts:25-61 | Under the same key and scope decrypting never fails and gives the value with lone surrogates replaced |
| `SecretBoxes.ValueReturnsExactlyWhenWellFormed` | packages/backend/src/platform/security/secret-box.ts:32-57 | A stored value comes back unchanged if and only if it has no lone surrogate |
| `SecretBoxes.SplitUndoesJoin` | packages/backend/src/platform/security/secret-box.ts:33-42 | Splitting at dots gives back the joined parts |
| `SecretBoxes.JoinUndoesSplit` | packages/backend/src/platform/security/secret-box.ts:42 | Splitting cuts at every dot and nowhere else |
| `SecretBoxes.EncryptedShape` | packages/backend/src/platform/security/secret-box.ts:33-38 | The encrypted text is ASCII and its length follows from the byte length of the value |
| `SecretBoxes.EncryptedSays` | packages/backend/src/platform/security/secret-box.ts:25-39 | What is encrypted is the UTF-8 form of the value, authenticated with the scope; only an empty value or scope is refused |
| `SecretBoxes.DecryptedSays` | packages/backend/src/platform/security/secret-box.ts:41-61 | For every text of four parts: decrypting gives what the cipher authenticates under key and scope, or says which of the two failures it is |
| `SecretBoxes.AnyOtherTextIsInvalid` | packages/backend/src/platform/security/secret-box.ts:42-45 | Every text of another form is invalid |
| `Base64Url.ReadUndoesWritten` | packages/backend/src/platform/security/secret-box.ts:35-55 | Reading undoes writing, and the written text is URL-safe letters, four for three bytes |
| `Base64Url.RewritesToItselfExactlyWhenCanonical` | packages/backend/src/platform/security/sealed-bytes.ts:101-102 | Writing what was read gives the text back if and only if it is canonical |
| `Base64Url.WrittenAsPrescribed` | packages/backend/src/platform/security/secret-box.ts:35-37 | The text holds the bits of the bytes in order, in letters of the table in section 5 of RFC 4648 |
| `Base64Url.ReaderTakesBothAlphabets` | packages/backend/src/platform/security/sealed-bytes.ts:101 | The reader takes the letters of both alphabets and skips every other character |
| `Utf8Decoder.DecodeRepairs` | packages/backend/src/platform/security/secret-box.ts:55-57 | Decoding an encoded text gives it back with lone surrogates replaced |
| `Utf8Decoder.SurvivesExactlyWhenWellFormed` | packages/backend/src/platform/security/sealed-bytes.ts:30 | A text survives the trip through UTF-8 if and only if every surrogate has its partner |
| `WheelSteps.StepsMeasureTheDistance` | packages/frontend/src/foundation/interaction/wheelScale.ts:22-33 | Over a same-direction run inside the reset window the steps before the cap are the whole thresholds in the distance, and the residual is the rest |
| `WheelSteps.SplittingDoesNotMatter` | packages/frontend/src/foundation/interaction/wheelScale.ts:22-33 | How a gesture is cut into events changes neither the steps before the cap nor the residual |
| `WheelSteps.EmittedExactlyWhenUncapped` | packages/frontend/src/foundation/interaction/wheelScale.ts:34 | What is emitted points in the direction of the gesture, never exceeds the steps before the cap and equals them if and only if no event hits the cap |
| `WheelSteps.ResidualStaysBelowTheThreshold` | packages/frontend/src/foundation/interaction/wheelScale.ts:29-33 | After every event of every run the residual is below the threshold |
| `WheelSteps.StartingOverForgets` | packages/frontend/src/foundation/interaction/wheelScale.ts:23-27 | From the first movement after a pause longer than the window, or against what has accumulated, state and steps are those of a new accumulator |
| `WheelSteps.LinesAndPagesArePixels` | packages/frontend/src/foundation/interaction/wheelScale.ts:3-7 | A line counts as 16 pixels and a page as the height of the window, at least 320 |
| `WheelSteps.EmissionIsCapped` | packages/frontend/src/foundation/interaction/wheelScale.ts:29-34 | One event emits its whole steps in its own direction, up to the configured number and at least up to one |
| `WheelSteps.ZeroThresholdEmitsTheCap` | packages/frontend/src/foundation/interaction/wheelScale.ts:26-34 | With a threshold of zero every moving event of every run emits the cap in its own direction |
| `WheelSteps.WheelStepAccumulator.Consume` | packages/frontend/src/foundation/interaction/wheelScale.ts:18-35 | One event updates the residual and the clock and emits steps as specified |
| `ApprovalPages.ReadPage` | packages/shared/src/agent/governance/http-codec.ts:352-378 | A decoded page is accepted if and only if its sequences rise strictly above the cursor, it continues with its last sequence and it is full when it announces more |
| `ApprovalPages.PagesRise` | packages/shared/src/agent/governance/http-codec.ts:363-377 | Over any number of followed pages the listed sequences rise strictly |
| `ApprovalPages.MoreMeansProgress` | packages/shared/src/agent/governance/http-codec.ts:371-376 | A page that announces more moves the cursor on by at least a page of sequences |
| `ApprovalPages.PagesAreLinked` | packages/shared/src/agent/governance/http-codec.ts:352-378 | Over any number of pages each answers the cursor that the one before it gave and holds at most 64 sequences, exactly 64 if it announces more |
| `ApprovalPages.CursorIsTheLastListed` | packages/shared/src/agent/governance/http-codec.ts:363-377 | Over any number of pages the cursor given last is the last sequence listed so far |
| `ApprovalPages.GenuinePagesListEverything` | packages/shared/src/agent/governance/http-codec.ts:352-378 | Followed to the end, the pages of a store are all accepted and list everything above the cursor |
| `ApprovalPages.CursorsAreExactlyThePrintedIntegers` | packages/shared/src/agent/governance/http-codec.ts:342-350 | The accepted cursors are exactly the decimal texts of the positive safe integers |
| `ApprovalPages.ParseUndoesPrint` | packages/shared/src/agent/governance/http-codec.ts:363-372 | Parsing a printed integer gives it back |
| `ApprovalPages.PrintUndoesParse` | packages/shared/src/agent/governance/http-codec.ts:346 | Printing a parsed cursor gives it back |
| `ResultPages.PagesTileTheArtifact` | packages/shared/src/agent/plugins/host-operations-codec.ts:56-62 | Followed artifact pages tile the content without gap or overlap and end at its end |
| `ResultPages.PagesRunOut` | packages/shared/src/agent/plugins/host-operations-codec.ts:56-62 | From any offset there are at most as many pages as bytes left, or one |
| `ResultPages.GenuinePagesFit` | packages/shared/src/agent/plugins/host-operations-codec.ts:65-85 | No genuine page of a captured result is refused, although offsets count code points and sizes count bytes |
| `ResultPages.GenuineOffsetsContinue` | packages/shared/src/agent/plugins/host-operations-codec.ts:71-78 | The offset a genuine captured page gives is that of the genuine page after it |
| `ResultPages.CapturedPagesConcatenate` | packages/shared/src/agent/plugins/host-operations-codec.ts:65-85 | Genuine pages of a capture, followed by their offsets, concatenate to it, and there are at most as many as it has code points, or one when it is empty |
| `ResultPages.LostEndGoesUnnoticedExactlyAfterTheFirstPage` | packages/shared/src/agent/plugins/host-operations-codec.ts:79-81 | A last page that drops the rest of a capture is accepted if and only if it is not the first page |
| `ResultPages.CapturedPagesRunOut` | packages/shared/src/agent/plugins/host-operations-codec.ts:65-85 | Whatever accepted captured pages hold, each starts after the code points before it, none reaches beyond the stated size, and they run out |
| `ResultPages.PointsAreUnitsLessSecondHalves` | packages/shared/src/agent/plugins/host-operations-codec.ts:65-78 | Offsets of captured pages count every code unit but the second half of a surrogate pair |

## Left out

- Startup: `listenHttp`, `openHttpListener` and `createApp` up to the point where the listener accepts.
- HttpListeners.HttpListener.Close: closing the bindings, the retired bindings and the two servers is one outcome, clean or not; the order of those closes is not modelled.
- HttpListeners.HttpListener.AdmitRequest: the business handler is a task that ends at some event; what it answers is not modelled.
- Lifecycles.Lifecycle.ContinueShutdown: failures of the single steps are collected by the application and thrown at the end; they do not change the order of the steps, and the thrown value is not modelled.
- WebSocketChannels.WebSocketChannel.OnMessage: the content of a message and the diagnostic log are not modelled; sizes and kinds are.
- Sending over a WebSocket and its output budgets: single comparisons without state of their own.
- Raw WebSocket sessions: they appear only as tasks that end.
- LatestValueSavers.LatestValueSaver.OnSaveSettled: callbacks that call back into the saver are not modelled. A `save` that throws before returning a promise is a save that settles in the next event.
- CommandDuplexes.MachineCommandDuplex.ContinueRead: sources that `close()` lets flow and a source that yields something other than bytes are not modelled.
- CommandDuplexes.MachineCommandDuplex.Close: closing the command, letting the sources flow and waiting for the channel and the tasks are not modelled.
- InstallPlans.CheckClosure: the version range test is a parameter, and the shapes of the packages are decoded elsewhere.
- StructuralEquality.EqualMeansSameCanonicalForm: arrays with holes and records with hidden properties are outside the trees.
- AgentFailures.GroupingDoesNotMatter: groups are not empty, since an empty aggregate is a class of its own; causes and messages are not modelled.
- SealedBytes.Sealer.Decode: a box that fails with something other than its two named failures (`unavailable`) is not modelled; a failing key derivation is.
- WheelSteps.WheelStepAccumulator.Consume: floating-point rounding and deltas that are not finite are not modelled; the cap is an integer.
- ApprovalPages.ReadPage: the fields of an approval other than its sequence are not modelled.
- `isAgentStorageStatementFailure`, the other field decoders, the denylist, path canonicalisation and the browser snapshot check: they would add only easy members.
- Durations: 16 ms, 5 s, 10 s and 30 s are events that may come at any time.
- Logging and diagnostics.
