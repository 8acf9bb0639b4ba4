# ProcHerd, verified model

ProcHerd runs a command under a detached supervisor. The supervisor owns the child and its process tree, drains its
output into a bounded log, tracks readiness, holds port and directory leases, and keeps the run's state in one JSON
document that is replaced atomically. Any number of short-lived clients observe a run only through that document and
through the lock file the supervisor holds. This project models those parts in Dafny 4.11 and proves what the design
promises of them. `dafny verify dfyconfig.toml` checks everything.

## Layout

- `Model` holds the durable data: statuses, readiness, leases, cleanup, log summary, run state.
- `Logs` has `LogWriter` as a class and `ReadLogs` as a loop, each tied to a specification by value. `LogPaging` says
  what a page contains of a file that a writer filled. `LogPipeline` interleaves two capture threads, the 64-slot
  channel, the supervisor and a paging client, and states the theorems over every interleaving. `Channel` is the
  receiving end as a class, for the supervisor's code.
- `Readiness` has `ReadinessTracker` as a class, the exactness of its bounded tails and the fairness of its probes;
  `HttpStatus` has `read_http_status`. `Evidence` joins readiness to the log: it hears exactly what the log keeps.
- `Placeholders` compares one-name-at-a-time replacement with a single pass. `Leases` has the port registry and the
  lease allocation as classes.
- `SupervisorTrace` is the automaton of what a supervisor may do in sight of others, and what every trace it accepts
  guarantees. `Passes` says, without the loop, what has to come of the passes of a control loop: when a stop begins,
  what the document then tells, when it is forced. `Supervisor` follows the supervisor's code method by method; every
  execution's trace is accepted, and every document it leaves tells its passes.
- `Protocol` interleaves any number of runs: supervisors moving by that same automaton and crashing anywhere, clients
  that read and probe, `gc`, and the registry under its own lock. `Guarantees` is what follows for observers, `Races`
  where an observation misleads and exactly when it cannot. `Simulation` shows that what the supervisor's code and the
  registry's methods promise are runs of `Protocol`. `Cli` has the polling loops of `wait`, `stop`, `start` and `gc`.
- `WindowsDetach` round-trips quoting against `CommandLineToArgvW`; `Ulid` is the identifier encoding and its order.

Whatever the operating system, a clock or a peer decides is an arbitrary value: an assignment from `*`, a method
parameter, or an action of a step system. A supervisor crash is an action of `Protocol`; in `Supervisor` it is a
control loop cut after any number of passes.

## Where the code and its documents disagree

- `docs/CONTRACT.md` says that a terminal result can still be read after the supervisor has exited. After a supervisor
  failure it may not be: the failed state keeps the last persisted log summary, and records beyond it make every read
  an integrity error. `LogPipeline.FailedLogMayBeUnreadable` is such a run, `LogPipeline.WhenPagesAreRead` the exact
  condition.
- The observer's comment in `src/cli.rs` pairs an inactive lock with a fresh state. That is sound if and only if the
  first read already saw a status other than `created` (`Races.FreeLockMeansEnded`): before the supervisor takes its
  lock for the first time, a free lock says nothing. `Races.FalseOrphan` and `Races.EndSeenTooEarly` are the two races.
  `gc` is not affected, because it probes twice (`Guarantees.RemovedRunsAreOver`).
- `start` can report that a supervisor exited which did not, in two ways. It reads `created`, finds the lock free, and
  by its second read the supervisor has come and brought the child up (`Races.StartMissesItsSupervisor`). Or another
  client's probe, which holds the lock it probes, is what it saw as active (`Races.StartMayBeFooled`). The verdict can
  be relied on if and only if the first read of its last look was not `created` (`Races.StartVerdictIsExact`).
- The line of an HTTP response must be UTF-8, although section 4 of RFC 9112 allows other bytes in a reason phrase: a
  server that answers `200` with a Latin-1 phrase is never seen as ready (`HttpStatus.LatinReasonIsRefused`). The exact
  condition is `HttpStatus.StatusLineIsUnderstood`.
- Replacing one name after another is not always a single pass. An opener that is not closed before the next brace can
  be completed by a replaced value (`Placeholders.NestedOpenerDiffers`, for every such name
  `Placeholders.NestedNamesDiffer`), and a directory whose own path opens a placeholder is refused where the pass
  accepts it (`Placeholders.OpenerInPathDiffers`). `Placeholders.AgreementIsExact` says on which arguments the two
  agree, `Placeholders.OpensNowhereIsExact` for which directories.
- `Running` is persisted before the log file is created, so a live run can briefly have no log to read
  (`LogPipeline.RunningRunMayHaveNoLog`).

## Model

| member | source | states |
|---|---|---|
| Logs.LogWriter.Record | src/logs.rs:76-116 | Recording a chunk digests all of it, keeps what the byte budget lets through in one record with its time, stream and cursor, counts the rest as dropped; a failed write advances neither cursor nor counters |
| Logs.LogWriter.CapturableBytes | src/logs.rs:118-125 | The bytes offered to readiness are exactly those that recording will keep |
| Logs.LogWriter.Finish | src/logs.rs:131-137 | Either flushing or syncing fails and there is no summary, or the final summary carries the digest of everything digested; nothing else changes |
| Logs.WriterKeepsThePrefix | src/logs.rs:76-125 | For every chunk sequence: the first min(total, budget) bytes in arrival order, non-empty records numbered from 1, a prefix of each stream, captured plus dropped equal to the total |
| Logs.RecordedIsFaithful | src/logs.rs:76-116 | One more chunk keeps all of the above |
| Logs.WrittenLineFits | src/logs.rs:22-24 | Every line written from an 8 KiB chunk stays under the reader's 32 KiB, with the base64 of section 4 of RFC 4648 and any cursor and timestamp |
| Logs.ReadLogs | src/logs.rs:140-248 | The line-by-line scan returns the page or the error that the declarative reading of the file gives; a limit is bad exactly outside 1 to 1000, and a file that is not there is an empty page before the run is running and not found after |
| LogPaging.AnswersAgree | src/logs.rs:140-248 | That reading is a function: a request and a file have one answer |
| LogPaging.PageContinues | src/logs.rs:159-248 | On a file a writer filled, whose durable summary may lag, a page continues the wanted records without gap or repeat and says truthfully whether covered ones remain |
| LogPaging.LaggingTerminalReads | src/logs.rs:196-214 | A terminal run with a lagging summary can be paged exactly when the summary covers the file or the page overflows first |
| LogPaging.PagesAreSound | src/logs.rs:159-248 | On any file, damaged or not: the records of a page ascend strictly, lie after the cursor and below the durable boundary, match the stream, fit the limit, and each stands on a whole line of the known schema whose data is as long as it says; the page repeats the durable counters |
| LogPipeline.NothingIsLost | src/logs.rs:32-56 | Over every interleaving each stream's bytes are recorded, in flight, queued (at most 64 chunks) or in hand, in order; Exited and Stopped runs digested every byte read, and the captured ones are the first up to the budget, the rest counted as dropped |
| LogPipeline.FinishNeedsADrainedChannel | src/supervisor.rs:245-253 | The step that ends a run is enabled exactly when no thread can send any more and everything sent was received |
| LogPipeline.ThreadsFeedTheChannel | src/logs.rs:32-56 | What was sent only grows, and not at all once both threads are gone: the behaviour that the receiver class assumes |
| Channel.Receiver.Receive | src/supervisor.rs:400-427 | Chunks come in the order sent, whatever the threads do in between; disconnected means that all were received and none will come |
| LogPipeline.PagesJoinUp | src/logs.rs:140-248 | What a paging client has received is a prefix of the final filtered log, whatever the limits and the interleaving, and all of it after a terminal page without more, of a failed run as well |
| LogPipeline.EvidenceIsRetained | src/supervisor.rs:434-447 | In a run that Exited or Stopped every ready log check's literal is in the retained bytes of the one stream it names |
| LogPipeline.WhenPagesAreRead | src/logs.rs:150-214 | Exactly when a request succeeds, over every reachable file, summary and status |
| LogPipeline.FailedLogMayBeUnreadable | src/supervisor.rs:453-481 | A run whose failure keeps an old summary, so that its log is refused |
| LogPipeline.RunningRunMayHaveNoLog | src/supervisor.rs:163-177 | A run persisted as running before its log file exists |
| LogPipeline.EveryRunIsSteady | src/logs.rs:101-108 | Conservation, a written file, a durable cursor that lags and never leads, exact readiness and a client in step hold at every point of every run |
| LogPipeline.TerminalStays | src/supervisor.rs:268-269 | A terminal document is never replaced |
| LogPipeline.LogIsFinal | src/supervisor.rs:253-269 | Once the supervisor has let go of the channel the log file does not change |
| Readiness.ReadinessTracker.ObserveLog | src/readiness.rs:96-150 | One chunk does what the value form does and reports exactly whether the state changed; the theorems below say what that comes to over every run |
| Readiness.ReadinessTracker.Poll | src/readiness.rs:152-189 | One poll does what the value form does and reports exactly whether the state changed; the theorems below say what that comes to over every run |
| Readiness.ReadyMeansAllReady | src/readiness.rs:215-225 | Over every sequence of output and polls: ready if and only if there are checks and every one is ready, each then with its evidence; pending only while some check waits; no check turns into another |
| Readiness.EveryReadyCheckWasFound | src/readiness.rs:113-189 | A log check is ready only by output and any other only by a poll whose probe reported something, at that event's time and with what it showed; a port-lease check never |
| Readiness.DeadlineIsKept | src/readiness.rs:156-163 | The deadline counts from the creation: a run still pending has seen no poll at or after it, one that timed out has, and a ready one became so at the time of one of its events |
| Readiness.ProbesKeepTheirDistance | src/readiness.rs:164-170 | Two polls that were let through lie at least 50 ms apart, and a poll in time that comes 50 ms after all earlier ones is let through |
| Readiness.StreamingSearchIsExact | src/readiness.rs:96-150 | While readiness is pending, for every chunking, interleaving and polling, a log check is ready exactly when its literal occurs in the whole of what one stream was fed, though at most 1023 bytes of a stream are kept |
| Readiness.ObserveTracks | src/readiness.rs:113-147 | One chunk keeps the search exact and the trimmed tail long enough |
| Readiness.MatchAcross | src/readiness.rs:109-147 | A match in the whole stream is one in the old bytes or one in tail plus chunk |
| Readiness.ProbesAreFair | src/readiness.rs:164-212 | A waiting check is probed within as many probing polls as there are checks, from any point of any run, whatever log chunks and throttled polls lie between them, even as others become ready |
| Readiness.SuccessfulProbesSuffice | src/readiness.rs:152-189 | Where every probe succeeds, a check that can be probed is ready by the time as many polls have probed as there are checks, from any point of any run |
| Readiness.ProbeComesCloser | src/readiness.rs:200-212 | Every probe of another check brings the round-robin index strictly closer |
| Evidence.ListensToChunk | src/supervisor.rs:434-447 | Feeding readiness the capturable bytes and then recording the chunk keeps what was heard equal to what is retained |
| Evidence.HeardIsRetained | src/readiness.rs:121-129 | So every ready log check rests on retained bytes of the stream its evidence names |
| HttpStatus.ReadHttpStatus | src/readiness.rs:278-303 | Any split of the response into reads gives the status of the first line of its first 1024 bytes |
| HttpStatus.StatusIsExact | src/readiness.rs:293-302 | Every line is taken for a code if and only if it is UTF-8 and its first two fields are a protocol that begins with HTTP/1. and a number of 16 bits, which is the code |
| HttpStatus.Utf8IsExact | src/readiness.rs:293-296 | Bytes pass for UTF-8 if and only if they are the encoding, by section 3 of RFC 3629, of some scalar values |
| HttpStatus.StatusLineIsUnderstood | src/readiness.rs:293-302 | A status line of section 4 of RFC 9112 with a reason phrase of up to 1009 bytes is taken for its code if and only if the phrase is UTF-8, whatever headers follow |
| HttpStatus.LatinReasonIsRefused | src/readiness.rs:296 | A 200 response with a one-byte Latin-1 reason phrase is not understood |
| Placeholders.ReplacePlaceholders | src/leases.rs:412-439 | The two loops compute the replacement of all names one after another, and refuse a result with an opener left |
| Placeholders.ReplacementIsSimultaneous | src/leases.rs:412-439 | With values that open no placeholder, whatever surrounds them, and openers closed before the next brace, that equals one left-to-right pass, errors included |
| Placeholders.AgreementIsExact | src/leases.rs:412-439 | Over all arguments: the two agree if and only if every opener is closed before the next brace or the replacement is refused; an argument with any other opener is refused by the pass |
| Placeholders.OpensNowhereIsExact | src/leases.rs:412-439 | Over all absolute directories: the two agree on every argument with closed openers if and only if the path opens no placeholder |
| Placeholders.OrderDoesNotMatter | src/leases.rs:412-439 | The outcome of the successive replacement, errors included, does not depend on the order of the names |
| Placeholders.NestedOpenerDiffers | src/leases.rs:412-439 | An argument with a nested opener on which the two differ, with ports that a bind can return |
| Placeholders.NestedNamesDiffer | src/leases.rs:412-439 | For every name that another name's port completes, around which nothing else opens: the code fills the nested argument, the pass refuses it |
| Placeholders.OpenerInPathDiffers | src/leases.rs:412-439 | A directory whose path contains an opener is refused where the pass accepts it |
| Leases.ValidateNames | src/leases.rs:368-392 | Accepts exactly valid and pairwise different names |
| Placeholders.NamesAreSpelled | src/leases.rs:383-392 | A name is valid exactly if it has 1 to 32 of the letters a to z, digits, underscores and hyphens, and starts with a letter |
| Leases.CanonicalIsEncoded | src/store.rs:235-249 | A run identifier is canonical exactly if it is run_ and what some timestamp of 48 bits and randomness of 80 bits encode to |
| Leases.PortRegistry.ReservePorts | src/leases.rs:232-307 | All or nothing: a failure leaves the registry as it was; success keeps exactly the entries found active, each once and in order, and adds one entry per name, in order, with ports no other entry has. It is an integrity error exactly on an invalid registry, and succeeds whenever the first binds find free ports and the write does |
| Leases.KeptIsFiltered | src/leases.rs:309-313 | Pruning drops every entry whose supervisor was found inactive, and no other |
| Leases.PortRegistry.TryBinds | src/leases.rs:247-262 | Binds give the first port that no entry has; it gives up only after 128 that are taken, and a failing bind is an error |
| Leases.PortRegistry.Release | src/leases.rs:213-223 | Removes exactly the run's own entries, the others staying in order, or, failing, nothing |
| Leases.ReservationIsFramed | src/leases.rs:241-277 | A reservation keeps ports distinct, loses no entry of an active run and adds none of another run |
| Leases.LeaseAllocation.ReleaseRegistry | src/leases.rs:213-230 | Succeeds exactly if it has before or the registry is valid and can be written; idempotent, so that dropping the allocation may repeat it |
| Leases.LeaseAllocation.Release | src/leases.rs:123-133 | Marks every lease released exactly when the registry release succeeded |
| Leases.LeaseAllocation.Handoff | src/leases.rs:99-113 | Closes the listeners and stamps exactly the leases under whose name a port is reserved |
| Leases.LeaseAllocation.RecordSpawn | src/leases.rs:115-121 | Every handed-off lease gets the time from handoff to spawn, saturating at zero; others stay |
| Leases.LeaseAllocation.PopulateState | src/leases.rs:135-211 | Each lease gets the port or path reserved under its own name, each argument its full replacement, each leased-port check becomes a probe of that port, and nothing else changes; what a placeholder or a check is told reads back as the port in the lease's own field; it fails exactly on an argument, lease or check that cannot be filled |
| Leases.DecimalSpells | src/leases.rs:144 | The text of a port denotes that port when read from the left, and has no leading zero |
| Leases.SpellingIsUnique | src/leases.rs:144 | No other text does |
| Leases.PortsAreTold | src/leases.rs:135-206 | Per lease one text that spells the port in the document stands for its placeholder and in the address of every check for it |
| Leases.LeasedPortIsPassed | src/leases.rs:197-199 | End to end: where a lease's placeholder stands in an argument without other braces, the child finds the port of that lease in decimal |
| Leases.ByNameIsSorted | src/leases.rs:141-145 | The pairs are gone through in ascending order of their names, each as often as it was given |
| Leases.Acquire | src/leases.rs:68-93 | Success leaves the pruned registry plus fresh entries for exactly the names asked for, which are valid and pairwise different, and tells every port; a failure after the reservation leaves none of the run's entries if either release worked; with valid names, directories, a sound registry, free ports and a document that can be filled it succeeds |
| Leases.LeaseValuesAreInert | src/leases.rs:141-158 | Ports are digits and directories absolute, so lease values meet the replacement theorem's condition if no directory's path opens a placeholder |
| Leases.LeaseSubsAreDistinct | src/leases.rs:368-392 | Names that pass validation give one pattern per port and directory, all different |
| Leases.ArgumentsAreFilledInOnePass | src/leases.rs:135-199 | End to end: with validated names and paths that open nothing, every sealed argument the allocation fills is what one left-to-right pass gives |
| SupervisorTrace.KillComesFirst | src/supervisor.rs:236-254 | After a spawn no registry release, terminal state or lock release comes without a tree kill in between |
| SupervisorTrace.ReleaseComesFirst | src/leases.rs:226-230 | After a reservation neither a terminal state nor the lock's release comes before a release was tried |
| SupervisorTrace.StatusMovesForward | src/supervisor.rs:105-269 | Every persisted document is coherent, its readiness included, follows the lifecycle's order, and none follows a terminal one |
| SupervisorTrace.TerminalIsLast | src/supervisor.rs:268-269 | Only the lock's release follows a terminal state |
| SupervisorTrace.SpawnComesFirst | src/supervisor.rs:133-166 | No running, stopping, exited or stopped state without an earlier spawn |
| SupervisorTrace.LockSpansTheTrace | src/supervisor.rs:72-79 | Everything happens between one taking and at most one release of the lock |
| SupervisorTrace.StopsAreAnnounced | src/supervisor.rs:192-268 | A Stopped document comes after a persisted Stopping one, an Exited document never does |
| SupervisorTrace.EndingsAgree | src/supervisor.rs:255-268 | Over every trace: a failure record iff Failed iff the reason is a failed spawn or supervisor; otherwise Stopped iff a stop was requested iff the reason is a request or the runtime limit iff Stopping was persisted before; readiness settled, leases released |
| Passes.PassStaysInStep | src/supervisor.rs:192-234 | One pass over the stop logic keeps the document in step: the first pass that asks begins the stop and is the one named, and it is forced exactly when a pass sees its grace over |
| Passes.InStepIsTold | src/supervisor.rs:192-234 | So a live document tells exactly whether and which pass asked, and the tree was killed if and only if that stop was forced |
| Passes.EndIsTold | src/supervisor.rs:255-268 | And a final one tells Stopped with that reason if and only if some pass asked |
| Supervisor.Supervise | src/supervisor.rs:72-79 | Every execution, with errors anywhere, has an accepted trace and changes the registry only as its trace says; it ends with the lock free. The document tells the first stop its passes asked for, or that none did, and the exit they saw. Success leaves an Exited or Stopped document with the final summary of every chunk the threads ever sent, readiness as the polls and the retained log make it, and no registry entry; an error leaves a Failed document, unless it can no longer be read or written; where nothing fails the only error is output that does not end |
| Supervisor.Supervisor.SuperviseLocked | src/supervisor.rs:81-286 | The whole supervised body, up to what it still owns; a success has drained the closed channel, and the document tells the passes |
| Supervisor.Supervisor.RunChild | src/supervisor.rs:168-286 | From the running child on, the same, with readiness counted from the document the child was started with |
| Supervisor.Supervisor.WindUp | src/supervisor.rs:72-79 | Drops what is owned, records an error, frees the lock, in this order |
| Supervisor.Supervisor.Prepare | src/supervisor.rs:90-114 | Shows the starting state, the reservation if ports were asked for, and the leased state, in this order; succeeds if nothing fails and the leases can be had |
| Supervisor.Supervisor.Launch | src/supervisor.rs:116-166 | A successful startup shows exactly starting, leases, leased, the child, running; the reserved listeners are closed before the child is spawned, and the gaps are stamped |
| Supervisor.Supervisor.SpawnFails | src/supervisor.rs:135-154 | A failed spawn is recorded only once the leases are back, and then exactly so |
| Supervisor.Supervisor.ChildSpawned | src/supervisor.rs:156-166 | Deadline and handoff gaps count from one spawn time; running is the only state then persisted |
| Supervisor.Supervisor.ControlLoop | src/supervisor.rs:177-286 | Over any number of passes: the run stops if and only if some pass had a request or was past the deadline, the first of them naming reason, time and grace; the tree is killed if and only if that stop was forced; the first pass without the child ends the run with its exit; every pass polls readiness once and drains a batch or the channel; the document is less than a quarter second old; it fails only if its last pass does |
| Supervisor.Supervisor.OnePass | src/supervisor.rs:182-285 | One pass keeps all that, or ends the run |
| Supervisor.Supervisor.LookAfterChild | src/supervisor.rs:236-285 | The end of a pass: a child that is gone ends the run with its exit, one that is there leaves a document less than a quarter second old |
| Supervisor.Supervisor.Observe | src/supervisor.rs:183-190 | Drains up to a full batch, polls readiness exactly once, and persists whenever either changed it, so that memory and disk agree |
| Supervisor.Supervisor.RecordChunk | src/supervisor.rs:434-447 | Readiness observes exactly the bytes then retained |
| Supervisor.Supervisor.DrainAvailable | src/supervisor.rs:374-398 | At most 64 chunks a pass, all recorded in order; saturated exactly at 64 |
| Supervisor.Supervisor.DrainUntilClosed | src/supervisor.rs:400-427 | Success means that both threads are gone and every chunk they sent was received, and leaves a log faithful to all of them; where nothing fails it succeeds exactly if it finds the channel closed, and is a drain timeout otherwise |
| Supervisor.Supervisor.SealLog | src/supervisor.rs:252-253 | Fails exactly if the log cannot be finished; else readiness is settled, the summary final and its evidence retained |
| Supervisor.Supervisor.BeginStop | src/supervisor.rs:192-223 | A stop begins exactly on a valid request or else on a passed deadline, is persisted with its origin and grace, and takes its reason from it; on Unix its own deadline is the grace period from now, on Windows it is already forced and says so; a request that fails validation is an error |
| Supervisor.Supervisor.RequestStop | src/supervisor.rs:294-325 | Windows kills the tree at once and records the force; Unix signals it and sets the deadline to now plus the grace period, unforced |
| Supervisor.Supervisor.EnforceStop | src/supervisor.rs:224-234 | Forces exactly once the grace period is over, attempts the kill before saying so, and persists it |
| Supervisor.Supervisor.AttendToStop | src/supervisor.rs:192-234 | A stop is never taken back, keeps its reason, and every change to it is persisted |
| Supervisor.Supervisor.KillLeftovers | src/supervisor.rs:236-244 | Kills the rest of the tree before the child is disarmed, and records forcing only during a stop |
| Supervisor.Supervisor.DrainDeadChild | src/supervisor.rs:238-253 | The channel is closed and empty, the drained log is final over all that was sent, readiness is settled, and its evidence retained |
| Supervisor.Supervisor.Conclude | src/supervisor.rs:254-269 | The end is persisted only after the leases were released, as Stopped or Exited according to the stop in progress |
| Supervisor.Supervisor.FinishRun | src/supervisor.rs:236-269 | Ends with that status, reason, exit code and time, and a final log of everything sent, or persists nothing; where nothing fails it ends the run exactly if the channel is found closed |
| Supervisor.Supervisor.MaybeSnapshot | src/supervisor.rs:271-277 | Exactly if 250 ms have passed since the last write: a document that differs only in summary and time |
| Supervisor.Supervisor.DropOwned | src/supervisor.rs:519-525 | Dropping kills a child still owned, then gives leases back, in this order |
| Supervisor.Supervisor.MarkSupervisorFailed | src/supervisor.rs:453-482 | Writes exactly when the document is live, readable and writable: a failure record with the old log summary, in which exactly the leases acquired and not yet released get their release time. A terminal document is never overwritten |
| Supervisor.OwnedChild.Disarm | src/supervisor.rs:514-516 | Takes the child out; every later use needs a present child, and the proofs show that none comes |
| Protocol.RunStep | src/supervisor.rs:72-79 | Whatever anyone does, a run moves only forward, stays as it is once its supervisor ended, and a lock leaves its holder only by that holder's own step or crash |
| Protocol.RegistryStaysOk | src/leases.rs:281-307 | Reservations, releases and crashes keep ports distinct and the entries of every holding run listed |
| Protocol.OthersKeepTheirs | src/leases.rs:309-337 | Pruning drops no entry of a run that holds its ports, although probes are interleaved with everything else |
| Protocol.ReservationPrunes | src/leases.rs:309-337 | Of the entries a reservation found it leaves none whose probe in that reservation reported its lock free, and every other one |
| Protocol.ProbeTellsTheLock | src/leases.rs:315-337 | A probe reports an entry in use exactly while anybody holds its run's lock, and leaves a free lock free |
| Protocol.UseStaysOk | src/leases.rs:309-337 | While the registry is locked no probe has reported a holding run inactive |
| Protocol.ObserversStayOk | src/cli.rs:622-644 | What each observer knows between its steps stays true |
| Protocol.StepStaysSane | src/store.rs:116-129 | Every step of every participant keeps the whole system's invariant |
| Guarantees.PortsAreExclusive | src/leases.rs:232-337 | In every reachable state registry ports are distinct and no two holding supervisors share a port |
| Guarantees.OrphansNeverReturn | src/cli.rs:622-644 | A live status with a lock found free after the supervisor had taken it: it has ended and no step of it ever follows |
| Guarantees.TerminalViewsAreFinal | src/cli.rs:622-644 | A terminal view is the final document; its supervisor touches state, log and registry no more, and has ended if the lock was found free after it was taken; Exited and Stopped runs have no registry entry |
| Guarantees.StepStaysCoherent | src/cli.rs:622-644 | Whatever anyone does, every document on disk and in any client's hands is coherent |
| Guarantees.WaitForExitIsFinal | src/cli.rs:700-709 | A view that satisfies `wait --for exit` is final, and settled unless the run was first read as created |
| Guarantees.WaitForReadyIsReady | src/cli.rs:676-698 | A view that satisfies `wait --for ready` shows every check ready with its evidence, of a run that was active or has ended |
| Guarantees.StopReturnsTheFinalState | src/cli.rs:764-782 | However long `stop` polls a terminal run, it returns the terminal document it read first; if its last look was inactive and did not read created first, the supervisor has ended |
| Guarantees.RemovedRunsAreOver | src/store.rs:150-167 | A run that `gc` removed was terminal and its supervisor had ended |
| Guarantees.RunsAdvance | src/supervisor.rs:72-79 | Over every run of the system a supervised run only moves forward |
| Guarantees.EndedIsSilent | src/supervisor.rs:72-79 | After the supervisor ended no step of it occurs |
| Guarantees.TerminalIsQuiet | src/supervisor.rs:72-79 | After a terminal document only its end remains |
| Races.FreeLockMeansEnded | src/cli.rs:630-642 | A free lock proves the supervisor ended, for live and terminal views alike, if and only if the status read first was not created |
| Races.FalseOrphan | src/cli.rs:630-642 | A healthy new run reported as an orphan |
| Races.EndSeenTooEarly | src/cli.rs:630-642 | A run reported terminal and inactive while its supervisor holds the lock |
| Races.StartVerdictIsExact | src/cli.rs:549-598 | Over every run of the system and all looks of one client: the conclusion of `start` that its supervisor exited is always right for a last look that read status s first if and only if s is not created |
| Races.StartMissesItsSupervisor | src/cli.rs:574-578 | With no other client: `start` concludes an exit of a supervisor that holds its lock with the child running |
| Races.StartMayBeFooled | src/cli.rs:592-598 | Another client's probe, seen as the supervisor: `start` concludes an exit before the supervisor took its lock |
| Simulation.EveryTraceHappens | src/supervisor.rs:72-79 | From every world in which the run was just launched and nobody uses the registry, whatever its supervisor's code does is a run of the system that ends with that trace's phase, with the entries it reserved, and with the registry that `Supervise` promises |
| Simulation.ReservationHappens | src/leases.rs:232-307 | From every world in which the run may reserve, what `ReservePorts` promises, for the flags the probes report, is a run of the system: lock, one probe per entry, commit |
| Simulation.ReleaseHappens | src/leases.rs:213-223 | From every world in which the run may release, what `Release` promises is a run of the system |
| Cli.Wait | src/cli.rs:646-719 | The first look that decides, decides; success, each error and the timeout happen exactly then. Success means a process for running, ready readiness for ready, and an inactive terminal run for exit |
| Cli.JudgeIsExact | src/cli.rs:664-709 | When a view satisfies each condition, is orphaned, has no readiness to wait for, or has lost it: readiness_failed exactly on a timeout or failure, or a terminal run still pending |
| Cli.Stop | src/cli.rs:755-823 | A request is written exactly for a live run under an active supervisor within the allowed grace; the first look that ends the polling fixes the answer, and there is no other |
| Cli.StopAnswerIsExact | src/cli.rs:764-823 | Which looks end the polling, and exactly when the answer is success, orphaned or a timeout |
| Cli.StopSucceedsInactive | src/cli.rs:764-823 | A successful answer is an inactive look, terminal unless the run was terminal before |
| Cli.AwaitStartup | src/cli.rs:549-614 | The first look that ends startup fixes success, each rejection and the timeout, exactly then; a stop is written exactly on a timeout during startup, if it can be |
| Cli.StartAnswerIsExact | src/cli.rs:549-614 | Which looks end startup, and exactly when the answer is success, start_failed, supervisor_exit or a timeout |
| Cli.StartSucceedsWell | src/cli.rs:549-614 | Success is past startup, not failed, and active exactly when not terminal |
| Cli.CollectGarbage | src/cli.rs:847-905 | Succeeds if and only if every run loads and every due removal works; then every entry tells the truth about its run and exactly the terminal, inactive runs not younger than asked were removed, else the first that did not pass gives the error and only due runs before it were removed |
| WindowsDetach.AppendQuoted | src/windows_detach.rs:89-122 | The loop with its pending-backslash counter emits the quoted form |
| WindowsDetach.QuotingRoundTrip | src/windows_detach.rs:89-122 | Every argument is read back as itself by the rules of CommandLineToArgvW |
| WindowsDetach.ArgumentsRoundTrip | src/windows_detach.rs:89-122 | So is every list of arguments |
| WindowsDetach.BuildCommandLine | src/windows_detach.rs:59-70 | Fails exactly on an embedded NUL, else program, `__supervise`, `--run-dir` and the directory, NUL-terminated |
| WindowsDetach.CommandLineRoundTrip | src/windows_detach.rs:59-70 | The supervisor sees exactly these four if and only if the program's path has no quote and, where it needs quoting, no backslash at its end |
| Ulid.EncodeUlid | benchmarks/generate_store.py:24-30 | The text denotes timestamp and randomness in base 32 |
| Ulid.AlphabetIsCrockfords | benchmarks/generate_store.py:13 | The digits and the capital letters, in order, without I, L, O and U |
| Ulid.FirstDigitDecides | src/store.rs:235-249 | 26 digits encode a timestamp and randomness exactly if the first is below 8 |
| Ulid.OrderIsNumeric | benchmarks/generate_store.py:13-30 | Texts of one length compare as the numbers they denote, and differ when these do |
| Ulid.UlidsOrderByTime | benchmarks/generate_store.py:24-30 | Timestamp and randomness can be read back, and texts compare as these pairs do |
| Ulid.ReversedSortIsNewestFirst | src/store.rs:131-148 | The reversed sort of run names lists newest first |

## Left out

- Processes, signals, Job Objects, sockets, file modes, symlink checks, fsync and JSON text: each is an atomic step or
  an arbitrary outcome. A write that fails after its atomic rename took effect is not modelled.
- SHA-256 and base64: constructors over the bytes, with the length formula of padded base64.
- Clocks: arbitrary readings, not related to one another; several readings within one step are one. Nothing is claimed
  about readiness being reached before its deadline.
- Machine widths: log counters saturate at 64 bits as in the source; elsewhere integers are unbounded, and the log
  budget is taken below 2^64 - 1, as the command line enforces far lower.
- Supervisor.Supervisor.ControlLoop: covers any number of passes but not that the loop ends, which the child decides.
- Supervisor.Supervisor.Launch: which of the startup's steps fails decides the kind in the failure record, and nothing
  is stated about that kind.
- Supervisor.Supervise: covers errors anywhere and cuts between passes; crashes at any other point are steps of
  `Protocol`, and unwinding from a panic is not modelled.
- Protocol: a run has one supervisor, since only its `start` launches one; probes of a live run's lock never fail with
  an I/O error, which `run_supervisor_active` would report as inactive.
- LogPipeline.PagesJoinUp: one client with one fixed stream filter; further clients do not interact with it.
- LogPipeline.NothingIsLost: stated for the chunk sizes the capture threads produce; a read error ends a thread just as
  the end of its stream does.
- Leases.LeaseAllocation.PopulateState: leaves out the environment variable names and values, their sorting and
  deduplication, and paths that are not UTF-8.
- Placeholders.ReplacementIsSimultaneous: the form without the Windows path-separator normalisation.
- Leases.LeaseValuesAreInert: directories as Unix writes them, from `/` on; Windows drive paths are not covered.
- Simulation.EveryTraceHappens: for one supervisor moving while the rest of the world is at rest; how supervisors that
  move at the same time interleave is what `Protocol` itself takes in.
- WindowsDetach.BuildCommandLine: the process creation call around it.
- Cli.AwaitStartup: the part of `start` after the launch; argument checks and the creation of the run come before it,
  and the launch failure is a step of `Protocol`.
- Lease names per kind are bounded when requests are checked; the bound plays no part in any property here.
- Probing itself (`probe_tcp`, `probe_http`, `probe_file`, address and URL checks) is an arbitrary report.
- Rendering, schemas, completions, argument parsing, duration parsing, owner tokens and the benchmark evaluation.
