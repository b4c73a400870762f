# Verified model of xmlrpc_extended

A Dafny model of the two XML-RPC front ends of this repository and proofs of what they promise:

* `ThreadPoolXMLRPCServer` (`src/xmlrpc_extended/server.py`): admission by a counting semaphore,
  overload policies, execution by a thread pool, activity counters, shutdown.
* `XMLRPCASGIApp` (`src/xmlrpc_extended/asgi.py`): an event loop with a pool that is made lazily or at
  startup and removed at shutdown, body reading, dispatch and responses.

`dafny verify dfyconfig.toml` checks everything.

## How it is built

**The threaded server** is modelled twice, and the two are tied together.

* `Requests`, `Protocol`: a concurrent system in which every semaphore operation, counter update,
  enqueue, dequeue and connection shutdown is a step of its own. Each request has a program counter for
  its `process_request` call and one for its worker. A run is a sequence of steps, so a statement about
  all runs is a statement about all interleavings of any number of callers, workers and shutdown calls.
  `Invariant` is what every step keeps; `Laws`, `Drain`, `Quiescence` and `Admission` are what follows;
  `Witnesses` holds concrete runs for what does not hold.
* `Server` (with `Tracker` and `Sockets`): the same code as an object with fields that its methods
  update. Every method's contract says that the method, run without interference, is a run of
  `Protocol`, through the named steps in the named order.
* `StatsLock` takes the counter updates apart into loads and stores under the lock and shows that
  `Protocol` may treat them as atomic; `Snapshots` and `TrackedServer` put the two together.

**The ASGI app** likewise: `AsgiHttp` is a sequential reference for one HTTP call, `AsgiLoop` the event
loop interleaved at every await with worker threads beside it, `AsgiLaws` its invariant, `AsgiTheorems`,
`AsgiShutdown` and `AsgiProgress` the results, `AsgiApp` the object whose methods are runs of the loop.

**Bytes**: `Octets`, `Framing` (the hand-written responses against a parser for RFC 9112) and
`ContentLength` (`int()` on a header value and the decision of `do_POST`).

## Assumptions

* The executor is FIFO, uses at most `max_workers` threads, runs what is queued after a shutdown and
  refuses later submits. A `submit` that raises has queued nothing; this is the parameter
  `atomicSubmit`, and `Laws.CapacityHoldsIffSubmitIsAtomic` shows that the permit bound needs it.
  `submit` raises nothing but `RuntimeError`.
* The semaphore's operations are atomic. Which of several blocked callers gets a permit is left open.
* Handlers end, in any way; they do not shut down the server or app they run in, and a handler in a
  pool does not wait for the event loop. A peer stops sending at some point, or a receive timeout ends
  the drain.
* The XML codec, `resolve_dotted_attribute` and the handlers are arbitrary functions or outcomes.

## Where the code differs from its description

* `queued` keeps every failed submit and `active` every abnormal worker exit for ever
  (`Laws.GaugesExactIffNothingRaised`, `Laws.DriftNeverHeals`, `Witnesses.FailedSubmitStaysQueued`,
  `Witnesses.AbnormalExitStaysActive`); the documentation describes both as current numbers.
* `server_close` does not drain after an earlier `shutdown_executor(wait=False)`
  (`Drain.CloseAfterUnwaitedShutdownDoesNotDrain`, `Drain.ReturnMeansDrainedIffShutdownWaits`).
* A startup that finds a pool set leaves that pool behind, and nothing else does
  (`AsgiTheorems.NothingOrphanedIffStartupsFindNoPool`, `AsgiTheorems.LateStartupOrphansPool`).
* A wrong path is answered with 404 whatever the method (`AsgiHttp.StatusExact`), although
  `docs/user-guide/asgi.md:180` lists 405 for every method other than POST.
* A synchronous `_dispatch` hook runs in the default pool, so shutdown does not wait for it
  (`AsgiTheorems.ShutdownDoesNotWaitForHooks`); where there is none to call, it does wait for every
  thread, unless a pool was left behind (`AsgiShutdown.ThreadsDrainedIffNoSyncHook`).

## Model

| member | source | states |
|---|---|---|
| `Admission.ServerRefinesController` | src/xmlrpc_extended/server.py:350-397 | Refinement: the visible trace of every interleaved run (any number of callers, workers and shutdown calls, every exception edge) is a run of an atomic controller with one number `outstanding`, which admits a non-blocking arrival iff outstanding < max_workers + max_pending; the controller ends in the abstraction of the server's state, so outstanding = capacity - semaphore value |
| `Admission.AdmittedAndLeftOnce` | src/xmlrpc_extended/server.py:353-380 | On every run of the controller a request is admitted, turned away and released at most once each, exactly as its status says |
| `Admission.OutstandingIsExact` | src/xmlrpc_extended/server.py:306 | On every run of the controller `outstanding` is the number of requests inside and never exceeds the capacity |
| `Admission.StepSimulates` | src/xmlrpc_extended/server.py:350-397 | Each single step of the server is one step of the controller or none |
| `Admission.AdmittedIffRoom` | src/xmlrpc_extended/server.py:382-386 | In a reachable state a caller at the semaphore can get in iff fewer than max_workers + max_pending requests are inside (counted over their program counters), and can be turned away iff exactly that many are and the policy is not BLOCK |
| `Admission.OutstandingCountsInside` | src/xmlrpc_extended/server.py:306 | In every reachable state the permits in use are exactly the requests inside, and at most the capacity |
| `Admission.EachAdmissionIsReturnedOnce` | src/xmlrpc_extended/server.py:357-380 | In every run a permit is returned at most as often as it was taken, at most once per request, and exactly as often once the request is over |
| `Invariant.StepKeeps` | src/xmlrpc_extended/server.py:350-397 | Every step of every thread keeps the joint invariant of semaphore, queue, counters, program counters and shutdown state |
| `Invariant.RunKeeps` | src/xmlrpc_extended/server.py:350-465 | So does every run from a state where it holds |
| `Laws.PermitConservation` | src/xmlrpc_extended/server.py:353-380 | In every reachable state: semaphore value + permits of callers + queued tasks + permits of workers = capacity, plus one for each submit that queued and then raised; without such submits the semaphore never exceeds the capacity |
| `Laws.CapacityHoldsIffSubmitIsAtomic` | src/xmlrpc_extended/server.py:357-367 | The capacity bounds the semaphore in all reachable states if and only if a submit that raises has queued nothing |
| `Witnesses.LateFailureMakesPermit` | src/xmlrpc_extended/server.py:357-380 | Otherwise a run exists that ends with capacity + 1 permits |
| `Laws.ExactCounters` | src/xmlrpc_extended/server.py:364-380 | In every reachable state `queued` = requests recorded as submitted and not yet as started + all failed submits; `active` = requests in tasks + all abnormal exits; neither is negative, and each is the plain count iff nothing failed that way |
| `Laws.DriftNeverHeals` | src/xmlrpc_extended/server.py:364-380 | No step takes a failed submit or an abnormal exit back out of the counters |
| `Laws.GaugesExactIffNothingRaised` | src/xmlrpc_extended/server.py:364-380 | Over every run: `queued` is the number of requests on their way to a worker iff no submit of the run has raised without having queued anything, and `active` the number in tasks iff no worker of the run has left by an exception in its except block or by a non-Exception |
| `Laws.DriftCountsRaises` | src/xmlrpc_extended/server.py:357-380 | The two drifts are exactly the numbers of submits that raised without having queued anything and of abnormal worker exits in the run |
| `Witnesses.FailedSubmitStaysQueued` | src/xmlrpc_extended/server.py:357-367 | For every configuration: one failed submit, all work done, and `queued` is 1 |
| `Witnesses.AbnormalExitStaysActive` | src/xmlrpc_extended/server.py:375-380 | For every configuration: one abnormal worker exit, all work done, and `active` is 1 |
| `Laws.ArrivalConservation` | src/xmlrpc_extended/server.py:350-397 | In every reachable state the number of process_request calls = the five cumulative counters + in progress + failed submits + abnormal exits + settimeout failures; only the configured policy's rejection counter is ever non-zero, and none under BLOCK |
| `Laws.SnapshotAddsUp` | src/xmlrpc_extended/server.py:111-121 | At every moment each public number counts what its name says (queued, active, completed, errored, and the rejections under the configured policy), and the seven add up to the calls that have recorded a submission or a rejection |
| `TrackedServer.StatsAddUp` | src/xmlrpc_extended/server.py:111-121 | Over every run of server and tracker together, with loads and stores under the lock inside each recording and any thread running in between: what stats() returns is the counters at one moment of the run, not before any update finished when it began; so its numbers are not negative and add up |
| `TrackedServer.TrackerFollowsServer` | src/xmlrpc_extended/server.py:70-121 | In every such run the updates in the order of the lock are exactly the records of a run of the protocol |
| `TrackedServer.RecordingNeverBlocksItsThread` | src/xmlrpc_extended/server.py:80-109 | When a recording may release the lock, the step that waited for it is still possible |
| `Snapshots.ReturnedStatsAddUp` | src/xmlrpc_extended/server.py:111-121 | The same for any tracker run whose finished updates, in the order of the lock, are assumed to be a first part of the records of a protocol run |
| `Laws.CumulativeCountersGrow` | src/xmlrpc_extended/server.py:41-56 | The cumulative counters never shrink over any continuation of a run |
| `Laws.NoSpuriousRejection` | src/xmlrpc_extended/server.py:353-355 | A rejection happens only while exactly max_workers + max_pending permits are in use, and never under BLOCK |
| `Laws.ConcurrencyBounds` | src/xmlrpc_extended/server.py:306-307 | At most max_workers handlers run at once; the work queue holds at most max_pending tasks plus one for each worker without a permit; it holds at most max_pending iff at least max_workers permits are in the semaphore, with callers or with workers |
| `Witnesses.LingeringWorkerLetsQueueGrow` | src/xmlrpc_extended/server.py:379-380 | "All workers busy" does not bound the queue by max_pending: for every configuration a run exists with all workers busy and max_workers + max_pending tasks queued, because a worker past its release is busy until it is back in the pool |
| `Laws.FirstInFirstOut` | src/xmlrpc_extended/server.py:364-367 | Tasks are picked up in submission order, each once, and whoever is about to be queued has at most capacity - 1 admitted requests before it |
| `Laws.ConnectionsShutDown` | src/xmlrpc_extended/server.py:357-397 | Rejected, refused, completed and errored requests have had their connection shut down at least once |
| `Drain.DrainOnClose` | src/xmlrpc_extended/server.py:456-465 | When any shutdown_executor call has returned and the call that shut the executor down waits, the queue is empty, no worker is in a task and every task ever queued has been run |
| `Drain.ReturnMeansDrainedIffShutdownWaits` | src/xmlrpc_extended/server.py:456-465 | A returned shutdown_executor or server_close call means a drained server in all reachable states if and only if the call that shut the executor down waits |
| `Drain.CloseAfterUnwaitedShutdownDoesNotDrain` | src/xmlrpc_extended/server.py:456-461 | For every configuration there is a run in which server_close returns undrained after an earlier shutdown with wait=False |
| `Drain.QueueInputsFrozen` | src/xmlrpc_extended/server.py:456-461 | Nothing is queued after the executor is shut down, in any continuation |
| `Drain.LateCallersAreReleased` | src/xmlrpc_extended/server.py:357-362 | A call that is too late for the executor ends without a permit, never reaches a worker, and leaves its connection shut down unless it left by an exception of settimeout, of sending or of that shutdown |
| `Quiescence.BlockedCallerHasHelper` | src/xmlrpc_extended/server.py:382-386 | Deadlock freedom: while a caller waits on the exhausted semaphore, a worker or another permit holder can take a step in which nothing fails, shutdowns in progress or not |
| `Quiescence.SingleAcceptThreadIsHelpedByWorker` | src/xmlrpc_extended/server.py:382-386 | With a single accept thread it is a worker that can move |
| `Quiescence.StuckOnlyWhenSettled` | src/xmlrpc_extended/server.py:350-465 | A reachable state in which no thread can move without something failing has all calls over, all tasks run, all shutdown calls returned, the lock free and every permit back |
| `Quiescence.CountersAtRest` | src/xmlrpc_extended/server.py:80-97 | At rest `queued` is the number of failed submits, `active` the number of abnormal exits, and the seven counters with the settimeout failures add up to the arrivals |
| `Quiescence.InternalStepsDecrease` | src/xmlrpc_extended/server.py:350-397 | Every step of every thread strictly decreases a weighted sum over program counters |
| `Quiescence.RunsAreLinear` | src/xmlrpc_extended/server.py:350-397 | So every run has at most 16 steps per request and 6 per shutdown call, and with finitely many calls comes to rest |
| `StatsLock.ProgramMeaning` | src/xmlrpc_extended/server.py:80-121 | The loads, stores and reads inside the lock, uninterrupted, do what the atomic record or snapshot does |
| `StatsLock.UpdatesAreAtomic` | src/xmlrpc_extended/server.py:70-109 | For any interleaving of loads, stores and reads of any number of threads: the fields are the atomic effect of the finished calls whenever the lock is free, and one thread at most is inside |
| `StatsLock.SnapshotIsOneInstant` | src/xmlrpc_extended/server.py:111-121 | Every returned snapshot equals all seven counters at one instant between its own start and end |
| `StatsLock.LaterSnapshotsNeverShrink` | src/xmlrpc_extended/server.py:331-348 | A snapshot that starts after another has returned shows no smaller cumulative counter |
| `Tracker.StatsTracker.RecordSubmitted` | src/xmlrpc_extended/server.py:80-82 | The new counters are the old ones with the submission recorded |
| `Tracker.StatsTracker.RecordStarted` | src/xmlrpc_extended/server.py:84-87 | One less queued, one more active |
| `Tracker.StatsTracker.RecordCompleted` | src/xmlrpc_extended/server.py:89-92 | One less active, one more completed |
| `Tracker.StatsTracker.RecordErrored` | src/xmlrpc_extended/server.py:94-97 | One less active, one more errored |
| `Tracker.StatsTracker.RecordRejectedClose` | src/xmlrpc_extended/server.py:99-101 | One more rejection under CLOSE |
| `Tracker.StatsTracker.RecordRejectedFault` | src/xmlrpc_extended/server.py:103-105 | One more rejection under FAULT |
| `Tracker.StatsTracker.RecordRejected503` | src/xmlrpc_extended/server.py:107-109 | One more rejection under HTTP_503 |
| `Tracker.StatsTracker.Snapshot` | src/xmlrpc_extended/server.py:111-121 | Publishes the counters under their public names |
| `Settings.Resolve` | src/xmlrpc_extended/server.py:281-305 | The constructor accepts exactly the documented arguments, the policy by its text; max_pending defaults to max_workers and counts on top of it, so every accepted configuration has capacity at least 1 |
| `Server.ThreadPoolServer.constructor` | src/xmlrpc_extended/server.py:306-310 | A new server stands for the initial state of the protocol, with all permits available |
| `Server.ThreadPoolServer.ProcessRequest` | src/xmlrpc_extended/server.py:350-362 | Which ending happens when; the permit, the queue, the counters, the connection and what the client reads afterwards: the policy's response if it was refused, and not a byte otherwise; and the code takes the protocol's steps in the protocol's order |
| `Server.ThreadPoolServer.AdmitOrReject` | src/xmlrpc_extended/server.py:353-362 | The same after settimeout |
| `Server.ThreadPoolServer.SubmitOrGiveBack` | src/xmlrpc_extended/server.py:357-362 | A failed submit gives the permit back before the connection is shut down |
| `Server.ThreadPoolServer.GiveBack` | src/xmlrpc_extended/server.py:358-362 | The except block: release, then shut down |
| `Server.ThreadPoolServer.SubmitRequest` | src/xmlrpc_extended/server.py:364-367 | Records first, then submits; the record stays when submit raises |
| `Server.ThreadPoolServer.AcquireCapacity` | src/xmlrpc_extended/server.py:382-386 | Takes a permit iff one is there; without one waits under BLOCK and fails otherwise |
| `Server.ThreadPoolServer.RejectRequest` | src/xmlrpc_extended/server.py:388-397 | Counts under the policy, answers, shuts the connection down, in that order; what a parser under RFC 9112 reads from the bytes sent is, under FAULT, status 200 with the three fields and the payload, under HTTP_503, status 503 with its four fields and body, each with nothing left over, and under CLOSE nothing is sent |
| `Server.ThreadPoolServer.CountAndAnswer` | src/xmlrpc_extended/server.py:389-396 | The counter and the response of each policy, the response as a parser reads it |
| `Server.AnswerExact` | src/xmlrpc_extended/server.py:389-396 | What a client reads under each policy |
| `Server.ThreadPoolServer.SendFaultResponse` | src/xmlrpc_extended/server.py:399-429 | Sends the whole FAULT response, half-closes and drains; gives up silently when a socket call fails, raises only when the payload cannot be built |
| `Server.ThreadPoolServer.SendUnavailableResponse` | src/xmlrpc_extended/server.py:431-454 | The same for the HTTP_503 response |
| `Sockets.Connection.Drain` | src/xmlrpc_extended/server.py:424-429 | The drain loop consumes received data up to and including the first end of file, error or timeout, and nothing after it |
| `Sockets.Connection.HalfCloseAndDrain` | src/xmlrpc_extended/server.py:420-429 | Drains only if the half-close and the timeout setting succeed |
| `Server.ThreadPoolServer.PickUp` | src/xmlrpc_extended/server.py:307 | A worker takes the oldest task, and no other; one step of the protocol |
| `Server.ThreadPoolServer.ProcessRequestWorker` | src/xmlrpc_extended/server.py:369-380 | For every combination of endings of finish_request, both shutdowns and handle_error: the permit comes back exactly once, each counter moves as the outcome says (neither completed nor errored after an abnormal exit), and the steps are the protocol's in its order |
| `Server.ThreadPoolServer.RunTask` | src/xmlrpc_extended/server.py:370-378 | The worker before its finally block |
| `Server.ThreadPoolServer.ShutServed` | src/xmlrpc_extended/server.py:373-378 | The worker after finish_request has returned |
| `Server.ThreadPoolServer.ServeAlone` | src/xmlrpc_extended/server.py:350-380 | The whole life of a request through all these methods: whatever raises in the worker, the permit is back, the queue empty and the worker free |
| `Server.ThreadPoolServer.HandleFailure` | src/xmlrpc_extended/server.py:375-378 | The except block: an error is recorded iff handle_error and the second shutdown return |
| `Server.ThreadPoolServer.ShutdownExecutor` | src/xmlrpc_extended/server.py:456-461 | Returns at once when already closed, otherwise shuts the executor down and sets the flag only after a waiting join has succeeded |
| `Server.ThreadPoolServer.ServerClose` | src/xmlrpc_extended/server.py:463-465 | Closes the listening socket only after shutdown_executor has returned; when it did the shutdown itself, everything is drained |
| `Framing.FaultResponseRoundTrip` | src/xmlrpc_extended/server.py:409-412 | For every payload, parsing the FAULT response under RFC 9112 gives status 200, Content-Type text/xml, the payload's length, Connection close and exactly the payload, with nothing left over |
| `Framing.UnavailableResponseRoundTrip` | src/xmlrpc_extended/server.py:432-440 | Parsing the HTTP_503 response gives status 503, Content-Type text/plain, Content-Length 19, Retry-After 1, Connection close and the body Service Unavailable, with nothing left over |
| `Framing.ResponseRoundTrip` | src/xmlrpc_extended/server.py:409-412 | For every well-formed response and whatever follows it: printing and parsing gives the response back and leaves the rest untouched |
| `Framing.LineEnds` | src/xmlrpc_extended/server.py:411 | Lines end with the bytes 13 and 10 |
| `Octets.DecimalRoundTrip` | src/xmlrpc_extended/server.py:411 | Reading a printed length gives the length, for all natural numbers |
| `Octets.ValueRoundTrip` | src/xmlrpc_extended/server.py:411 | Printing the value of a digit string without superfluous zeros gives the string |
| `ContentLength.PyIntReadsLengths` | src/xmlrpc_extended/server.py:172-175 | On every Content-Length value that section 8.6 of RFC 9110 allows, int() gives the decimal value, or refuses it for having more digits than the interpreter accepts |
| `ContentLength.PyIntExact` | src/xmlrpc_extended/server.py:172-175 | int() reads a header value as n iff the value spells n: white space, a sign or none, digits with single underscores between them, white space, and no more digits than the interpreter accepts |
| `ContentLength.NumeralExact` | src/xmlrpc_extended/server.py:173 | The numerals of that grammar are runs of digits with one underscore between two runs |
| `ContentLength.FirstByteExact` | src/xmlrpc_extended/server.py:173 | In front of a length int() accepts exactly the six white-space bytes, a sign or another digit |
| `ContentLength.ChunkedExact` | src/xmlrpc_extended/server.py:163 | A coding is taken for chunked iff it is that word in any case |
| `ContentLength.DecisionsExact` | src/xmlrpc_extended/server.py:163-185 | For all headers: 501 iff chunked, else 411 iff there is no length, else forwarded iff the value spells a number from 0 to max_request_size, 413 iff a larger one, 400 iff none or only a negative one |
| `ContentLength.ForwardedIsLengthIffPlain` | src/xmlrpc_extended/server.py:172-185 | A forwarded value is a length under section 8.6 of RFC 9110 iff it has no blank, no sign and no underscore |
| `ContentLength.ValidLengthsDecided` | src/xmlrpc_extended/server.py:163-185 | On those values do_POST forwards iff the number is readable and at most max_request_size, answers 413 iff readable and larger, and 400 iff unreadable |
| `ContentLength.PrintedLengthRead` | src/xmlrpc_extended/server.py:172-175 | A length printed by a truthful client is read back |
| `ContentLength.PaddedAndSigned` | src/xmlrpc_extended/server.py:172-175 | White space around a length and a plus sign do not change what int() reads, a minus sign negates it, and white space alone is refused |
| `ContentLength.PaddedLengthsDecided` | src/xmlrpc_extended/server.py:172-183 | So such a value is decided like the bare length, and a negative number is answered with 400 |
| `ContentLength.OtherLengthsForwarded` | src/xmlrpc_extended/server.py:172-185 | So not every forwarded value is a length: a header with `1_0` is forwarded |
| `ContentLength.SeparatedTen` | src/xmlrpc_extended/server.py:172-175 | Such a value is `1_0`, which int() reads as 10 |
| `AsgiHttp.ReadBody` | src/xmlrpc_extended/asgi.py:249-266 | The loop returns the bytes up to the first event without more_body, or is still waiting if there is none |
| `AsgiHttp.ChunkingInvariance` | src/xmlrpc_extended/asgi.py:258-266 | Of any stream of events, with body or more_body present or left to their defaults, exactly the bytes up to the first event without more_body are read, and nothing that follows |
| `AsgiHttp.CompleteIffEnds` | src/xmlrpc_extended/asgi.py:258-266 | A body is complete iff some event does not announce more |
| `AsgiHttp.ChunkingDoesNotMatter` | src/xmlrpc_extended/asgi.py:234-247 | So any two event streams that carry the same bytes have the same fate |
| `AsgiHttp.PlacementIndependence` | src/xmlrpc_extended/asgi.py:336-365 | Apps that differ only in which handlers are async choose the same handler with the same arguments and build the same response from the same handler outcome |
| `AsgiHttp.StatusExact` | src/xmlrpc_extended/asgi.py:218-247 | The status of every response: 404 iff the path is wrong, 405 iff only the method is, 413 iff the body is too large, else 200; 405 and no other carries allow: POST, 200 is XML and the rest plain text |
| `AsgiHttp.PostExact` | src/xmlrpc_extended/asgi.py:219 | A method is taken for POST iff it is given and is that word in any case |
| `AsgiHttp.HandlerAsked` | src/xmlrpc_extended/asgi.py:336-365 | Which handler is asked, with which arguments and where: the registered function, else _dispatch, else the attribute, with exactly the parameters of the call (and the name for _dispatch); a coroutine on the loop, another function in the pool, another _dispatch in the default pool; one is asked iff one of the three exists |
| `AsgiHttp.RoutePrecedence` | src/xmlrpc_extended/asgi.py:336-357 | The instance cannot influence a registered name, an instance with _dispatch is never searched for attributes, and a method is answered as unsupported iff neither knows it (or the search itself raised that fault) |
| `AsgiHttp.OversizedIff413` | src/xmlrpc_extended/asgi.py:236-238 | On an accepted POST the answer is 413 iff the body exceeds the limit |
| `AsgiHttp.FrontEndsAgreeOnSize` | src/xmlrpc_extended/server.py:181-183 | With a truthful Content-Length the threaded front end answers 413 iff the ASGI app does, however the body is chunked, unless the length is unreadable for int() |
| `AsgiLaws.StepKeeps` | src/xmlrpc_extended/asgi.py:185-393 | Every step at every await, of the loop or of a worker, keeps the joint invariant of pools, lifespan calls and HTTP calls |
| `AsgiLaws.RunKeeps` | src/xmlrpc_extended/asgi.py:185-393 | So the invariant holds after every run |
| `AsgiTheorems.PoolLifecycle` | src/xmlrpc_extended/asgi.py:192-205 | Pools made = pools shut down + the one that is set + startups that found one set |
| `AsgiTheorems.StartupFirstLeavesNoOrphans` | src/xmlrpc_extended/asgi.py:194-198 | If the one startup comes before any HTTP call, as the ASGI lifespan protocol orders it, no pool is ever left behind |
| `AsgiTheorems.LateStartupOrphansPool` | src/xmlrpc_extended/asgi.py:194-198 | A startup after a request has made a pool leaves two pools alive |
| `AsgiTheorems.NothingOrphanedIffStartupsFindNoPool` | src/xmlrpc_extended/asgi.py:194-198 | Over every run: no pool is left behind iff every startup of the run finds no pool set |
| `AsgiTheorems.OrphansAreLateStartups` | src/xmlrpc_extended/asgi.py:194-198 | The number of pools left behind is the number of startups that found one set |
| `AsgiTheorems.OrphansStay` | src/xmlrpc_extended/asgi.py:194-205 | No later step shuts such a pool down |
| `AsgiTheorems.PoolConcurrency` | src/xmlrpc_extended/asgi.py:363-382 | In every run at most max_workers * (orphaned pools + the one that is set) handlers run in the app's pools at once; without orphaned pools, max_workers |
| `AsgiTheorems.PoolBoundIsReached` | src/xmlrpc_extended/asgi.py:194-198 | That bound is tight: for every k a run exists with k orphaned pools in which max_workers * (k + 1) handlers run at once |
| `AsgiTheorems.OrderedLifespanIsSafe` | src/xmlrpc_extended/asgi.py:192-205 | In the order of the ASGI lifespan protocol every pool is shut down or set, and at most max_workers handlers run in pools |
| `AsgiTheorems.NoSubmitToDeadPool` | src/xmlrpc_extended/asgi.py:362-365 | run_in_executor is only ever called on the pool that is set, which has not been shut down |
| `AsgiTheorems.ShutdownCompleteMeansDrained` | src/xmlrpc_extended/asgi.py:200-205 | lifespan.shutdown.complete is only sent when every handler ever submitted to the pool that was shut down has finished |
| `AsgiShutdown.ShutdownDrainsExactly` | src/xmlrpc_extended/asgi.py:200-205 | Exactly which handlers a lifespan shutdown waits for, whether it finds a pool set or not: no shutdown of any run leaves a handler unfinished in a place (loop, pool, default pool) iff the place is the pool and no startup has orphaned one, or no request can ask for a handler there |
| `AsgiShutdown.ThreadsDrainedIffNoSyncHook` | src/xmlrpc_extended/asgi.py:200-205 | Without orphaned pools, no shutdown leaves a handler running in any thread iff there is no synchronous _dispatch that an acceptable body can reach |
| `AsgiShutdown.DefaultPoolAskedIff` | src/xmlrpc_extended/asgi.py:336-344 | The default pool is asked iff the instance has a synchronous _dispatch and some body of acceptable size calls an unregistered method |
| `AsgiShutdown.PoolIsDrained` | src/xmlrpc_extended/asgi.py:200-205 | Without orphaned pools no handler is unfinished in the app's pools when a shutdown goes on to its reply, also one that finds no pool |
| `AsgiTheorems.ShutdownDoesNotWaitForHooks` | src/xmlrpc_extended/asgi.py:344 | A sync _dispatch hook runs in the default pool and can outlive lifespan.shutdown.complete |
| `AsgiTheorems.BlockedLoopCanProceed` | src/xmlrpc_extended/asgi.py:201-203 | While shutdown(wait=True) blocks the event loop, a worker can move or the shutdown can return |
| `AsgiProgress.BlockedLoopUsesUpWork` | src/xmlrpc_extended/asgi.py:201-203 | Each such step uses up work, so the loop gets free |
| `AsgiProgress.StepsUseUpWork` | src/xmlrpc_extended/asgi.py:185-430 | Every step of the loop and of every worker strictly decreases a measure over all calls and lifespan calls |
| `AsgiProgress.RunsAreLinear` | src/xmlrpc_extended/asgi.py:185-430 | So the steps of a run are bounded linearly in the calls, body events and lifespan events that came in |
| `AsgiProgress.StuckOnlyWhenSettled` | src/xmlrpc_extended/asgi.py:185-430 | A reachable state in which nothing can move has a free loop, every HTTP call answered, failed or waiting for its client, and every lifespan call waiting for an event or over |
| `AsgiTheorems.ResponsesFollowReference` | src/xmlrpc_extended/asgi.py:211-247 | In every run a finished call has sent the response of the sequential reference for its request and handler outcome; a call that left by its own exception has sent nothing |
| `AsgiTheorems.AllOrNothing` | src/xmlrpc_extended/asgi.py:399-430 | If receive and send do not fail, a finished call has sent nothing, or one start message and one body message whose content-length reads as the body's length |
| `AsgiTheorems.ClientsReadFaults` | src/xmlrpc_extended/asgi.py:283-314 | In every run, a client whose decoder undoes the codec reads fault -32700 for an unreadable body, -32601 for an unknown method, a Fault of the handler or of the attribute search with its own code, fault 1 for any other exception of these or of dumping, and never reads a dumped result as a fault |
| `AsgiTheorems.ClientsReadResults` | src/xmlrpc_extended/asgi.py:294-314 | In every run, a client whose decoder undoes the codec reads the very value that the handler returned |
| `AsgiTheorems.HandlersGetTheirArguments` | src/xmlrpc_extended/asgi.py:336-365 | In every run, the handler called for a request is the one named by its body, with exactly the parameters that were sent, and it is awaited on the loop, in a pool or in the default pool as its kind says |
| `AsgiTheorems.HandledCallsAnsweredIffEncodable` | src/xmlrpc_extended/asgi.py:294-314 | In every run, a call whose handler is over is answered iff its answer can be dumped and encoded, as long as receive and send work |
| `AsgiTheorems.SentExact` | src/xmlrpc_extended/asgi.py:218-247 | In every run, the two messages of a finished call: status 404, 405, 413 or 200 by path, method and size, its content-type, its content-length, allow: POST under 405 only, and the texts of the three errors |
| `AsgiTheorems.PlacementDoesNotShow` | src/xmlrpc_extended/asgi.py:359-365 | Across any two runs of apps that differ only in where handlers run, the same request and handler outcome give identical messages |
| `AsgiApp.SendHttpResponse` | src/xmlrpc_extended/asgi.py:399-430 | http.response.start with the status, content-type, content-length and the extra headers, then http.response.body with the body; or the first of them, or nothing, when send raises |
| `AsgiApp.XmlRpcApp.constructor` | src/xmlrpc_extended/asgi.py:147-151 | A new app has no pool |
| `AsgiApp.XmlRpcApp.GetExecutor` | src/xmlrpc_extended/asgi.py:367-382 | Returns the pool that is set, or makes one; never a pool that has been shut down; the app and its pools then match the state after EnsurePool |
| `AsgiApp.XmlRpcApp.Dispatch` | src/xmlrpc_extended/asgi.py:234-247 | From the last body event to the next await, for every body and route: one step of the loop; exactly when a synchronous function is called, the pool set afterwards has one more unfinished handler |
| `AsgiApp.XmlRpcApp.RunInExecutor` | src/xmlrpc_extended/asgi.py:362-365 | _get_executor and run_in_executor with nothing in between: the pool accepts the handler, and it is one step of the loop |
| `AsgiApp.XmlRpcApp.HandlerEnds` | src/xmlrpc_extended/asgi.py:365 | A pool thread ends a handler: one unfinished handler less, one step of the loop |
| `AsgiApp.XmlRpcApp.StopWaiting` | src/xmlrpc_extended/asgi.py:384-393 | The rest of a shutdown that had to wait: the pool is forgotten once its handlers are over |
| `AsgiApp.CloseAroundHandler` | src/xmlrpc_extended/asgi.py:384-393 | On any app with a handler running in its pool, close() does not return; when that handler ends it returns iff it was the last one, and only then is the pool forgotten |
| `AsgiApp.XmlRpcApp.Close` | src/xmlrpc_extended/asgi.py:384-393 | Shuts the pool down, waits for its handlers and only then forgets it |
| `AsgiApp.XmlRpcApp.Startup` | src/xmlrpc_extended/asgi.py:194-199 | A new pool replaces whatever is set, then the reply |
| `AsgiApp.XmlRpcApp.ShutdownPool` | src/xmlrpc_extended/asgi.py:200-205 | Shut down, wait, forget, reply, in that order |
| `AsgiApp.XmlRpcApp.HandleLifespan` | src/xmlrpc_extended/asgi.py:185-205 | Answers each startup up to the first shutdown with lifespan.startup.complete, then the shutdown with lifespan.shutdown.complete, which ends it; the number of orphaned pools is exact |

## Left out

- Server.ThreadPoolServer.ProcessRequest: one call without interference; a blocked acquire is reported as an outcome, and what other threads do meanwhile is in `Protocol`
- Server.ThreadPoolServer.AdmitOrReject: one call without interference, as above
- Server.ThreadPoolServer.AcquireCapacity: under BLOCK the code waits until it can return True; the method reports that it would wait, and `Quiescence.BlockedCallerHasHelper` says that somebody can then move
- Server.ThreadPoolServer.ProcessRequestWorker: one task without interference, as above
- Server.ThreadPoolServer.ShutdownExecutor: called with the lock free, a join that cannot finish yet is reported as an outcome; waiting for the lock is in `Protocol`
- Server.ThreadPoolServer.ServerClose: as ShutdownExecutor
- AsgiApp.XmlRpcApp.GetExecutor: a part of one step of the loop, so it states no run of its own; `Dispatch` does
- AsgiApp.XmlRpcApp.HandleLifespan: the events of one call back to back; other coroutines between them are in `AsgiLoop`
- ContentLength.PyIntReadsLengths: header values are taken as ASCII text; the two Latin-1 blanks that `int()` also strips are not modelled
- AsgiHttp.PostExact: methods are taken as ASCII text; `upper()` of other letters is not modelled
- Quiescence.RunsAreLinear: counts steps, not time, and a blocked caller's turn depends on the scheduler
- The FIFO order inside the app's own pools, which no property here needs
- Cancellation of an HTTP call's coroutine by the ASGI server
- `StopIteration` from a handler, which a future cannot carry
- KeyboardInterrupt in the accept thread or in a shutdown call
- Sockets, TLS, the operating system's backlog and real time
- Logging, the `__call__` scope dispatch and the dynamic handler class of `_build_request_handler`
- The Python standard library behind `SimpleXMLRPCServer`, XML marshalling and `system.multicall`
- `client.py` and `multiprocess.py`, thin wrappers without state
