/**
 * The supervisor of one run. Its control flow is followed method by method, and everything it does that others can
 * see goes on a trace. An automaton says which traces are right; that every execution's trace is one is proved here,
 * and what a right trace implies is proved in `SupervisorTrace`.
 */
module Supervisor {
  import opened Wrappers
  import opened Model
  import opened SupervisorTrace
  import opened Passes
  import Channel
  import Evidence
  import Logs
  import Readiness
  import Leases

  const LOG_DRAIN_BATCH_CHUNKS: nat := 64
  const SNAPSHOT_INTERVAL: nat := 250

  datatype Failure = Failure(kind: string)

  datatype Outcome = Finished | Errored(failure: Failure) | StillRunning

  datatype Killed = Signalled | Gone | KillFailed

  /**
   * What the system answers while a supervisor starts up: the directories it creates, what the probes of the
   * registry's entries report, what binds return, and whether the child can be spawned. `works`: every document can be
   * read and is the right one, and no other system call fails.
   */
  datatype Boot = Boot(
    paths: Option<seq<string>>,
    probed: seq<bool>,
    binds: seq<Leases.Bind>,
    spawns: bool,
    works: bool)

  /** `OwnedChild`: the child until it is disarmed; dropping it while present kills the tree. */
  class OwnedChild {
    var present: bool

    constructor ()
      ensures present
    {
      present := true;
    }

    /** The `expect` on the child: never reached without one. */
    method AsMut()
      requires present
    {
    }

    method Disarm()
      modifies this
      ensures !present
    {
      present := false;
    }
  }

  class Supervisor {
    const registry: Leases.PortRegistry
    const runId: string
    const spec: Spec
    const created: RunState
    var durable: RunState
    var trace: seq<Event>
    var child: OwnedChild?
    var leases: Leases.LeaseAllocation?
    ghost var heard: Readiness.Fed
    ghost var began: ReadinessState
    ghost var stimuli: seq<Readiness.Stimulus>
    ghost const before: seq<Leases.Entry>
    ghost var active: seq<bool>
    ghost var added: seq<Leases.Entry>

    constructor (registry: Leases.PortRegistry, runId: string, spec: Spec, created: RunState)
      ensures this.registry == registry && this.spec == spec && this.created == created && this.runId == runId
      ensures durable == created && trace == [] && child == null && leases == null
      ensures heard == Readiness.Fed([], []) && stimuli == [] && before == registry.entries && |active| == |before|
    {
      this.registry, this.runId, this.spec, this.created := registry, runId, spec, created;
      durable, trace, child, leases := created, [], null, null;
      heard, began, stimuli, before := Readiness.Fed([], []), created.readiness, [], registry.entries;
      active, added := seq(|registry.entries|, _ => false), [];
    }

    ghost function Here(): Phase
      reads this`trace
    {
      PhaseAfter(created, trace)
    }

    ghost predicate NothingOwned()
      reads this`child, this`leases, child, leases
    {
      (child == null || !child.present) && (leases == null || leases.registryReleased)
    }

    /** The registry is as the trace says, for the flags the probes reported and the entries they left room for. */
    ghost predicate RegistryFits(reserved: bool, released: bool)
      reads this`active, this`added, registry`entries
    {
      && |active| == |before|
      && registry.entries == Leases.RegistryAfter(before, active, added, runId, reserved, released)
      && (reserved ==>
            spec.portNames != [] && Leases.Fresh(added, Leases.Kept(before, active), runId, spec.portNames))
    }

    /** The trace is right so far, and what is owned agrees with it. */
    ghost predicate Valid()
      reads this`trace, this`durable, this`child, this`leases, this`active, this`added, child, leases, registry
    {
      && Accepts(created, trace)
      && Here().durable == durable
      && Here().lock.Held?
      && (Here().spawned <==> child != null)
      && (child != null && !child.present ==> Here().killed)
      && (Here().reserved ==> leases != null || Here().releaseTried)
      && (leases != null ==>
            && leases.registry == registry && leases.runId == runId
            && (leases.registryReleased ==> Here().released && Leases.NoneOf(registry.entries, runId)))
      && (Here().released ==> Here().releaseTried && (leases == null || leases.registryReleased))
      && RegistryFits(Here().reserved, Here().released)
      && (durable.status.IsTerminal() ==> NothingOwned())
    }

    method Emit(e: Event)
      requires Accepts(created, trace) && Allowed(Here(), e)
      modifies this`trace
      ensures trace == old(trace) + [e]
      ensures Accepts(created, trace) && Here() == Next(old(Here()), e)
    {
      trace := trace + [e];
      assert trace[..|trace| - 1] == old(trace);
    }

    /** `persist_state`: an atomic replacement that may fail. */
    method Persist(state: RunState, writes: bool) returns (ok: bool)
      requires Valid() && Allowed(Here(), Persisted(state)) && (state.status.IsTerminal() ==> NothingOwned())
      modifies this`trace, this`durable
      ensures Valid()
      ensures Here() == if ok then old(Here()).(durable := state) else old(Here())
      ensures durable == if ok then state else old(durable)
      ensures trace == if ok then old(trace) + [Persisted(state)] else old(trace)
      ensures ok == writes
    {
      ok := writes;
      if ok {
        Emit(Persisted(state));
        durable := state;
      }
    }

    /** A system call, which may fail in whatever does not work. */
    method Try(works: bool) returns (ok: bool)
      ensures works ==> ok
    {
      ok := *;
      ok := ok || works;
    }

    method Now() returns (now: nat)
    {
      now := *;
    }

    // ----- the child

    /** `start_kill_tolerant`: an attempt, whatever comes of it. */
    method StartKillTolerant(works: bool) returns (killed: Killed)
      requires Valid() && child != null && child.present
      modifies this`trace
      ensures Valid() && Here() == old(Here()).(killed := true)
      ensures works ==> !killed.KillFailed?
    {
      child.AsMut();
      Emit(KilledTree);
      var ok := Try(works);
      var signalled: bool := *;
      killed := if !ok then KillFailed else if signalled then Signalled else Gone;
    }

    /** Unix signals the group and leaves it the grace period; Windows kills the tree at once. */
    method RequestStop(state: RunState, grace: nat, reason: ExitReason, instant: nat, works: bool)
      returns (state': RunState, stopping: Option<StopInProgress>)
      requires Valid() && child != null && child.present && durable.status.IsLive()
      modifies this`trace
      ensures Valid()
      ensures Here() == if spec.windows then old(Here()).(killed := true) else old(Here())
      ensures works ==> stopping.Some?
      ensures stopping.Some? ==>
                stopping.value
                == StopInProgress(if spec.windows then instant else instant + grace, spec.windows, reason)
      ensures state' == state.(cleanup := state.cleanup.(
                descendantCleanup := true, forceUsed := state.cleanup.forceUsed || (spec.windows && stopping.Some?)))
    {
      hide PhaseAfter, Accepts, RegistryFits;
      child.AsMut();
      state' := state.(cleanup := state.cleanup.(descendantCleanup := true));
      if spec.windows {
        var killed := StartKillTolerant(works);
        if killed.KillFailed? {
          return state', None;
        }
        state' := state'.(cleanup := state'.cleanup.(forceUsed := true));
        return state', Some(StopInProgress(instant, true, reason));
      }
      var signalled := Try(works);
      if !signalled {
        return state', None;
      }
      return state', Some(StopInProgress(instant + grace, false, reason));
    }

    // ----- draining the log channel

    /** The log holds what it should of these chunks, and readiness has heard exactly what it holds. */
    ghost predicate Logging(readiness: ReadinessState, logs: Logs.LogWriter, tracker: Readiness.ReadinessTracker,
                            history: seq<Logs.Chunk>)
      reads this`heard, this`began, this`stimuli, logs, tracker
    {
      && spec.maxLogBytes < U64_MAX
      && Logs.Faithful(logs.View(), history, spec.maxLogBytes)
      && Evidence.Listening(tracker.View(), readiness, heard, logs.records)
      && Evidence.Stimulated(began, stimuli, tracker.View(), readiness, logs.records)
      && ReadinessAgrees(began)
    }

    lemma LoggingAgrees(readiness: ReadinessState, logs: Logs.LogWriter, tracker: Readiness.ReadinessTracker,
                        history: seq<Logs.Chunk>)
      requires Logging(readiness, logs, tracker, history)
      ensures ReadinessAgrees(readiness)
    {
      hide ReadinessAgrees, Evidence.Listening, Logs.Faithful;
      Readiness.RunAgrees(Readiness.NEW_TRACKER, began, stimuli);
    }

    lemma PollKeepsLogging(
      readiness: ReadinessState, logs: Logs.LogWriter, tracker: Readiness.ReadinessTracker, history: seq<Logs.Chunk>,
      pass: Pass)
      requires Logging(readiness, logs, tracker, history)
      ensures var (t, polled) := Readiness.Polled(
                tracker.View(), readiness, pass.polledAt, pass.pollInstant, pass.report);
              && Evidence.Listening(t, polled, heard, logs.records)
              && Evidence.Stimulated(began, stimuli + [PollOf(pass)], t, polled, logs.records)
              && ReadinessAgrees(polled)
      ensures Readiness.PollsOf(stimuli + [PollOf(pass)]) == Readiness.PollsOf(stimuli) + [PollOf(pass)]
    {
      hide ReadinessAgrees, Logs.Faithful, Readiness.Polled, Evidence.Listening, Readiness.PollsOf;
      Evidence.ListensThroughPoll(
        tracker.View(), readiness, heard, logs.records, pass.polledAt, pass.pollInstant, pass.report);
      Evidence.PollStimulates(
        began, stimuli, tracker.View(), readiness, logs.records, pass.polledAt, pass.pollInstant, pass.report);
      Readiness.RunAgrees(Readiness.NEW_TRACKER, began, stimuli + [PollOf(pass)]);
    }


    method ShowLog()
      requires Valid() && Here().spawned && durable.status.IsLive()
      modifies this`trace
      ensures Valid() && Here() == old(Here())
    {
      hide PhaseAfter, Accepts, RegistryFits, Coherent;
      Emit(WroteLog);
    }

    /** Readiness observes exactly the bytes the writer then retains; `fault` is an I/O error of the write. */
    method RecordChunk(
      state: RunState, logs: Logs.LogWriter, tracker: Readiness.ReadinessTracker, ghost history: seq<Logs.Chunk>,
      chunk: Logs.Chunk, observedAt: nat, recordedAt: nat, fault: Option<seq<Logs.Line>>)
      returns (state': RunState, changed: bool, ok: bool)
      requires Valid() && Here().spawned && durable.status.IsLive() && Logging(state.readiness, logs, tracker, history)
      modifies this`trace, this`heard, this`stimuli, logs, tracker
      ensures Valid() && Here() == old(Here())
      ensures (tracker.View(), state'.readiness)
           == Readiness.Observed(old(tracker.View()), state.readiness, chunk.stream,
                                 Logs.Capturable(old(logs.summary), chunk), observedAt)
      ensures state' == state.(readiness := state'.readiness)
      ensures changed <==> state' != state
      ensures ok <==> fault.None? || Logs.Capturable(old(logs.summary), chunk) == []
      ensures ok ==> logs.View() == Logs.Recorded(old(logs.View()), chunk, recordedAt)
      ensures ok ==> Logging(state'.readiness, logs, tracker, history + [chunk])
      ensures Readiness.PollsOf(stimuli) == old(Readiness.PollsOf(stimuli))
    {
      hide Evidence.Stimulated, Readiness.PollsOf;
      hide Logs.Faithful, Readiness.Observed, Logs.Recorded, PhaseAfter, Accepts, Evidence.Listening, RegistryFits;
      hide Coherent, ReadinessAgrees, Logs.Capturable, Valid;
      ghost var writer, listener := logs.View(), tracker.View();
      var bytes := logs.CapturableBytes(chunk);
      var readiness: ReadinessState;
      readiness, changed := tracker.ObserveLog(state.readiness, chunk.stream, bytes, observedAt);
      state' := state.(readiness := readiness);
      ok := logs.Record(chunk, recordedAt, fault);
      if ok {
        Logs.RecordedIsFaithful(writer, history, spec.maxLogBytes, chunk, recordedAt);
        Evidence.ListensToChunk(listener, state.readiness, heard, writer, chunk, observedAt, recordedAt);
        Evidence.ChunkStimulates(
          began, stimuli, listener, state.readiness, writer, chunk, observedAt, recordedAt);
        ShowLog();
        stimuli := stimuli + [Readiness.Feed(chunk.stream, bytes, observedAt)];
        heard := Evidence.HeardAlso(state.readiness, heard, chunk.stream, bytes);
      }
    }

    /** `drain_available`: a bounded batch, so that output cannot starve the rest of the control loop. */
    method DrainAvailable(
      state: RunState, logs: Logs.LogWriter, tracker: Readiness.ReadinessTracker, channel: Channel.Receiver,
      works: bool)
      returns (state': RunState, changed: bool, saturated: bool, ok: bool)
      requires Valid() && Here().spawned && durable.status.IsLive() && channel.Valid()
      requires Logging(state.readiness, logs, tracker, channel.Taken())
      modifies this`trace, this`heard, this`stimuli, logs, tracker, channel
      ensures Valid() && Here() == old(Here()) && channel.Valid()
      ensures state' == state.(readiness := state'.readiness)
      ensures !changed ==> state' == state
      ensures old(channel.taken) <= channel.taken <= old(channel.taken) + LOG_DRAIN_BATCH_CHUNKS
      ensures ok ==> Logging(state'.readiness, logs, tracker, channel.Taken())
      ensures ok ==> (saturated <==> channel.taken == old(channel.taken) + LOG_DRAIN_BATCH_CHUNKS)
      ensures ok && !saturated ==> channel.taken == |channel.sent|
      ensures Readiness.PollsOf(stimuli) == old(Readiness.PollsOf(stimuli))
      ensures works ==> ok
    {
      hide Readiness.PollsOf;
      hide Readiness.Observed, Logs.Recorded, PhaseAfter, Accepts, Logging, RegistryFits;
      state', changed, saturated, ok := state, false, false, true;
      for count := 0 to LOG_DRAIN_BATCH_CHUNKS
        invariant Valid() && Here() == old(Here()) && channel.Valid()
        invariant state' == state.(readiness := state'.readiness)
        invariant !changed ==> state' == state
        invariant channel.taken == old(channel.taken) + count
        invariant Readiness.PollsOf(stimuli) == old(Readiness.PollsOf(stimuli))
        invariant Logging(state'.readiness, logs, tracker, channel.Taken())
      {
        ghost var history := channel.Taken();
        var received := channel.Receive();
        if !received.Got? {
          return;
        }
        var observedAt, recordedAt := Now2();
        var fault := Fault(works);
        var one: bool;
        state', one, ok := RecordChunk(
          state', logs, tracker, history, received.chunk, observedAt, recordedAt, fault);
        changed := changed || one;
        if !ok {
          return;
        }
      }
      saturated := true;
    }

    /** What a failing write leaves in the file. */
    method Fault(works: bool) returns (fault: Option<seq<Logs.Line>>)
      ensures works ==> fault.None?
    {
      fault := *;
      if works {
        fault := None;
      }
    }

    method Now2() returns (a: nat, b: nat)
    {
      a, b := *, *;
    }

    /**
     * `drain_until_closed`: succeeds exactly when the channel is found closed and empty, by the deadline or at it.
     * `waits` is how many receives fit before the deadline; a chunk taken after it is an error, not a record.
     */
    method DrainUntilClosed(
      state: RunState, logs: Logs.LogWriter, tracker: Readiness.ReadinessTracker, channel: Channel.Receiver, waits: nat,
      works: bool)
      returns (state': RunState, failure: Option<Failure>)
      requires Valid() && Here().spawned && durable.status.IsLive() && channel.Valid()
      requires Logging(state.readiness, logs, tracker, channel.Taken())
      modifies this`trace, this`heard, this`stimuli, logs, tracker, channel
      ensures Valid() && Here() == old(Here()) && channel.Valid()
      ensures state' == state.(readiness := state'.readiness)
      ensures failure.None? ==> channel.Drained() && Logging(state'.readiness, logs, tracker, channel.Taken())
      ensures works ==> failure == if channel.closed then None else Some(Failure("log_drain_timeout"))
      ensures Readiness.PollsOf(stimuli) == old(Readiness.PollsOf(stimuli))
    {
      hide Readiness.Observed, Logs.Recorded, PhaseAfter, Accepts, Logging, RegistryFits, Readiness.PollsOf;
      state', failure := state, None;
      for wait := 0 to waits
        invariant Valid() && Here() == old(Here()) && channel.Valid()
        invariant state' == state.(readiness := state'.readiness)
        invariant Logging(state'.readiness, logs, tracker, channel.Taken())
        invariant Readiness.PollsOf(stimuli) == old(Readiness.PollsOf(stimuli))
      {
        ghost var history := channel.Taken();
        var received := channel.Receive();
        match received {
          case Got(chunk) =>
            var observedAt, recordedAt := Now2();
            var fault := Fault(works);
            var one: bool, ok: bool;
            state', one, ok := RecordChunk(state', logs, tracker, history, chunk, observedAt, recordedAt, fault);
            if !ok {
              return state', Some(Failure("io"));
            }
          case Empty =>
          case Disconnected =>
            return;
        }
      }
      var last := channel.Receive();
      if !last.Disconnected? {
        failure := Some(Failure("log_drain_timeout"));
      }
    }

    // ----- the control loop

    /** The state in memory while the child runs; the durable one may lag behind it. */
    ghost predicate InHand(state: RunState)
      reads this`durable
    {
      && Coherent(state) && (state.status.Running? || state.status.Stopping?)
      && durable.status == state.status
    }

    ghost predicate StopMatches(state: RunState, stopping: Option<StopInProgress>) {
      && (stopping.Some? <==> state.status.Stopping?)
      && (stopping.None? ==> state.limits.triggeredAt.None?)
      && (stopping.Some? ==>
            StopReason(stopping.value.reason)
            && (stopping.value.reason.RuntimeLimit? <==> state.limits.triggeredAt.Some?))
    }

    predicate Overdue(state: RunState, now: nat) {
      state.limits.deadlineAt.Some? && now >= state.limits.deadlineAt.value
    }

    /** What a stop request, or else the runtime limit, makes of a running state, before anything is signalled. */
    method NoteStop(state: RunState, pass: Pass) returns (state': RunState, reason: ExitReason)
      requires Coherent(state) && state.status.Running? && state.limits.triggeredAt.None?
      requires !pass.request.BadRequest?
      ensures if !pass.request.Request? && !Overdue(state, pass.now) then state' == state else
                && state' == state.(status := Stopping, updatedAt := pass.now, limits := state'.limits,
                                    cleanup := state'.cleanup)
                && state'.limits.deadlineAt == state.limits.deadlineAt
                && state'.cleanup.forceUsed == state.cleanup.forceUsed
                && state'.cleanup.descendantCleanup == state.cleanup.descendantCleanup
                && state'.cleanup.completedAt == state.cleanup.completedAt
                && ShowsStop(spec, state', pass) && reason == ReasonOf(pass)
    {
      state' := state;
      reason := if pass.request.Request? then StopRequested else RuntimeLimit;
      if pass.request.Request? {
        state' := state'.(
          status := Stopping, updatedAt := pass.now,
          cleanup := state'.cleanup.(requestedAt := Some(pass.request.requestedAt), grace := Some(pass.request.grace)));
      } else if Overdue(state', pass.now) {
        state' := state'.(
          status := Stopping, updatedAt := pass.now,
          limits := state'.limits.(triggeredAt := Some(pass.now)),
          cleanup := state'.cleanup.(requestedAt := Some(pass.now), grace := Some(spec.runtimeGrace)));
      }
    }

    lemma StoppingIsCoherent(before: RunState, after: RunState)
      requires Coherent(before) && before.status.Running? && after.cleanup.requestedAt.Some?
      requires after == before.(status := Stopping, updatedAt := after.updatedAt, limits := after.limits,
                                cleanup := after.cleanup)
      ensures Coherent(after)
    {
    }

    /**
     * A stop request, or else the runtime limit, starts a stop, which is persisted before anything else is done. A
     * request that does not carry the run's identity and token is an error.
     */
    method BeginStop(state: RunState, pass: Pass)
      returns (state': RunState, stopping: Option<StopInProgress>, ok: bool)
      requires Valid() && child != null && child.present && InHand(state) && StopMatches(state, None)
      modifies this`trace, this`durable
      ensures Valid()
      ensures pass.request.BadRequest? ==> !ok
      ensures pass.works && !pass.request.BadRequest? ==> ok
      ensures ok ==> InHand(state') && StopMatches(state', stopping)
      ensures ok ==> (stopping.Some? <==> pass.request.Request? || Overdue(state, pass.now))
      ensures ok && stopping.None? ==> state' == state && Here() == old(Here())
      ensures state' == state.(status := state'.status, updatedAt := state'.updatedAt, limits := state'.limits,
                               cleanup := state'.cleanup)
      ensures ok ==> StopStep(spec, pass, state, None, old(Here()).killed, state', stopping, Here().killed)
      ensures ok && stopping.Some? ==>
                durable == state' && state'.cleanup.descendantCleanup
                && state'.cleanup.forceUsed == (state.cleanup.forceUsed || spec.windows)
      ensures !ok || stopping.None? ==> durable == old(durable)
    {
      hide RegistryFits, PhaseAfter, Accepts, Coherent, Valid;
      state', stopping, ok := state, None, true;
      if pass.request.BadRequest? {
        return state', None, false;
      }
      var reason;
      state', reason := NoteStop(state, pass);
      if !pass.request.Request? && !Overdue(state, pass.now) {
        return;
      }
      state', stopping := RequestStop(state', state'.cleanup.grace.value, reason, pass.instant, pass.works);
      if stopping.None? {
        return state', None, false;
      }
      StoppingIsCoherent(state, state');
      var writes := Try(pass.works);
      assert Allowed(Here(), Persisted(state')) && durable.status.IsLive() by { MayStop(state'); }
      ok := Persist(state', writes);
    }

    lemma MayStop(state: RunState)
      requires Valid() && child != null && Coherent(state) && state.status.Stopping? && durable.status.Running?
      ensures Allowed(Here(), Persisted(state))
    {
      hide RegistryFits, PhaseAfter, Accepts, Coherent;
    }

    /** Once the grace period is over, a stop in progress kills the tree, and does so once. */
    method EnforceStop(state: RunState, stopping: StopInProgress, pass: Pass)
      returns (state': RunState, stopping': StopInProgress, ok: bool)
      requires Valid() && child != null && child.present && InHand(state) && StopMatches(state, Some(stopping))
      modifies this`trace, this`durable
      ensures Valid()
      ensures pass.works ==> ok
      ensures ok ==> InHand(state') && StopMatches(state', Some(stopping'))
      ensures ok ==> StopStep(
                spec, pass, state, Some(stopping), old(Here()).killed, state', Some(stopping'), Here().killed)
      ensures stopping' == stopping.(forceSent := stopping'.forceSent)
      ensures state' == state.(updatedAt := state'.updatedAt, cleanup := state'.cleanup)
      ensures stopping'.forceSent == stopping.forceSent ==>
                state' == state && durable == old(durable)
      ensures stopping'.forceSent != stopping.forceSent && ok ==> durable == state'
      ensures !ok ==> durable == old(durable)
    {
      hide RegistryFits;
      hide PhaseAfter, Accepts;
      state', stopping', ok := state, stopping, true;
      if !stopping.forceSent && pass.instant >= stopping.deadline {
        var killed := StartKillTolerant(pass.works);
        if killed.KillFailed? {
          return state', stopping', false;
        }
        stopping' := stopping.(forceSent := true);
        state' := state'.(
          updatedAt := pass.now,
          cleanup := state'.cleanup.(
            forceUsed := true,
            descendantCleanup := state'.cleanup.descendantCleanup || killed.Signalled?));
        var writes := Try(pass.works);
        ok := Persist(state', writes);
      }
    }

    /**
     * One pass over the stop logic: start one, or enforce the one in progress; a stop is never taken back. What it
     * changes is durable when it returns.
     */
    method AttendToStop(state: RunState, stopping: Option<StopInProgress>, pass: Pass)
      returns (state': RunState, stopping': Option<StopInProgress>, ok: bool)
      requires Valid() && child != null && child.present && InHand(state) && StopMatches(state, stopping)
      modifies this`trace, this`durable
      ensures Valid()
      ensures pass.works && (stopping.None? ==> !pass.request.BadRequest?) ==> ok
      ensures stopping.None? && pass.request.BadRequest? ==> !ok
      ensures ok ==> InHand(state') && StopMatches(state', stopping')
      ensures ok ==> StopStep(spec, pass, state, stopping, old(Here()).killed, state', stopping', Here().killed)
      ensures state' == state.(status := state'.status, updatedAt := state'.updatedAt, limits := state'.limits,
                               cleanup := state'.cleanup)
      ensures ok ==> state'.limits.deadlineAt == state.limits.deadlineAt
      ensures ok ==> if stopping' == stopping then state' == state else durable == state'
      ensures !ok || stopping' == stopping ==> durable == old(durable)
    {
      hide RegistryFits;
      hide PhaseAfter, Accepts;
      if stopping.None? {
        state', stopping', ok := BeginStop(state, pass);
      } else {
        var enforced;
        state', enforced, ok := EnforceStop(state, stopping.value, pass);
        stopping' := Some(enforced);
      }
    }

    /** The child was reaped: its process group may still hold others. */
    method KillLeftovers(state: RunState, stopping: Option<StopInProgress>, works: bool)
      returns (state': RunState, killed: Killed, ok: bool)
      requires Valid() && child != null && child.present && InHand(state) && StopMatches(state, stopping)
      modifies this`trace, child
      ensures Valid() && Here() == old(Here()).(killed := true)
      ensures InHand(state') && StopMatches(state', stopping)
      ensures ok <==> !killed.KillFailed?
      ensures works ==> ok
      ensures child.present <==> !ok
      ensures state' == if !killed.Signalled? then state else state.(cleanup := state.cleanup.(
                descendantCleanup := true, forceUsed := state.cleanup.forceUsed || stopping.Some?))
    {
      hide RegistryFits;
      hide PhaseAfter, Accepts;
      state', ok := state, false;
      killed := StartKillTolerant(works);
      if killed.KillFailed? {
        return;
      }
      if killed.Signalled? {
        state' := state'.(cleanup := state'.cleanup.(
                            descendantCleanup := true, forceUsed := state'.cleanup.forceUsed || stopping.Some?));
      }
      child.Disarm();
      ok := true;
    }

    /** The child was reaped: kill what is left of its tree and drain the log until both threads have closed it. */
    method DrainDeadChild(
      state: RunState, stopping: Option<StopInProgress>, logs: Logs.LogWriter, tracker: Readiness.ReadinessTracker,
      channel: Channel.Receiver, waits: nat, works: bool)
      returns (state': RunState, failure: Option<Failure>)
      requires Valid() && child != null && child.present && InHand(state) && StopMatches(state, stopping)
      requires channel.Valid() && Logging(state.readiness, logs, tracker, channel.Taken())
      modifies this`trace, this`heard, this`stimuli, logs, tracker, channel, child
      ensures Valid() && durable == old(durable) && channel.Valid()
      ensures works ==> failure == if channel.closed then None else Some(Failure("log_drain_timeout"))
      ensures Readiness.PollsOf(stimuli) == old(Readiness.PollsOf(stimuli))
      ensures failure.None? ==>
                && Here().killed && !child.present
                && InHand(state') && StopMatches(state', stopping)
                && !state'.readiness.status.Pending?
                && state' == state.(cleanup := state'.cleanup, readiness := state'.readiness, logs := logs.summary)
                && Ends(state.cleanup, state'.cleanup)
                && channel.Drained() && Logs.Final(logs.View(), channel.sent, spec.maxLogBytes)
                && Evidence.EvidenceRetained(state'.readiness, logs.records)
                && Evidence.Closed(began, stimuli, state'.readiness, logs.records)
    {
      hide RegistryFits, Readiness.PollsOf, Evidence.Closed, ReadinessAgrees;
      hide PhaseAfter, Accepts, Logging, Logs.Final, Evidence.EvidenceRetained, Readiness.ProcessExited;
      var killed, ok;
      state', killed, ok := KillLeftovers(state, stopping, works);
      if !ok {
        return state', Some(Failure("io"));
      }
      ghost var quiet := state';
      state', failure := DrainUntilClosed(state', logs, tracker, channel, waits, works);
      if failure.Some? {
        return;
      }
      assert channel.Taken() == channel.sent;
      LoggingAgrees(state'.readiness, logs, tracker, channel.Taken());
      StaysCoherent(quiet, state');
      ok := Try(works);
      state', ok := SealLog(state', logs, tracker, channel.Taken(), !ok);
      if !ok {
        failure := Some(Failure("io"));
      }
    }

    /** What the last pass may still change of the cleanup: descendants were found, and that may be a forced stop. */
    ghost predicate Ends(before: CleanupInfo, after: CleanupInfo) {
      && after.requestedAt == before.requestedAt && after.grace == before.grace
      && (before.forceUsed ==> after.forceUsed)
      && (before.descendantCleanup ==> after.descendantCleanup)
    }

    /** No more output can come: readiness is settled and the log's digests are taken, unless a sync fails. */
    method SealLog(
      state: RunState, logs: Logs.LogWriter, tracker: Readiness.ReadinessTracker, ghost history: seq<Logs.Chunk>,
      fault: bool)
      returns (state': RunState, ok: bool)
      requires Logging(state.readiness, logs, tracker, history) && Coherent(state) && state.status.IsLive()
      modifies logs
      ensures ok == !fault
      ensures ok ==>
                && state' == state.(readiness := Readiness.ProcessExited(state.readiness), logs := logs.summary)
                && !state'.readiness.status.Pending? && Coherent(state')
                && Logs.Final(logs.View(), history, spec.maxLogBytes)
                && Evidence.EvidenceRetained(state'.readiness, logs.records)
                && Evidence.Closed(began, stimuli, state'.readiness, logs.records)
    {
      hide Logs.Faithful, Logs.Final, Evidence.Listening, ReadinessAgrees;
      Evidence.HeardIsRetained(tracker.View(), state.readiness, heard, logs.records);
      Evidence.ExitCloses(began, stimuli, tracker.View(), state.readiness, logs.records);
      Readiness.ExitAgrees(state.readiness);
      hide Evidence.Stimulated, Evidence.Closed;
      Logs.FinishedIsFinal(logs.View(), history, spec.maxLogBytes);
      state' := state.(readiness := Readiness.ProcessExited(state.readiness));
      var summary := logs.Finish(fault);
      ok := summary.Some?;
      if ok {
        state' := state'.(logs := summary.value);
      }
    }

    /** Gives the leases back, and says so. */
    method ReleaseLeases(state: RunState, now: nat, writes: bool) returns (state': RunState, released: bool)
      requires Valid() && leases != null && Allowed(Here(), ReleasedPorts(true))
      modifies this`trace, leases`registryReleased, registry`entries
      ensures Valid() && leases.registryReleased == released
      ensures Here() == Next(old(Here()), ReleasedPorts(released))
      ensures state' == if released then state.(leases := Leases.AllReleased(state.leases, now)) else state
      ensures released ==> Leases.NoneOf(registry.entries, runId)
      ensures released <==> old(leases.registryReleased) || (registry.Sound(old(registry.entries)) && writes)
    {
      hide PhaseAfter, Accepts, Leases.RegistryAfter, Leases.Fresh, Leases.Kept, Leases.AllReleased, Coherent;
      hide Leases.ValidEntries, Leases.CanonicalRunId, Leases.ReleasedAt, Leases.Others;
      Leases.ReleasedRegistry(before, active, added, runId, Here().reserved, Here().released);
      state', released := leases.Release(state, now, writes);
      Emit(ReleasedPorts(released));
    }

    function Ended(state: RunState, stopping: Option<StopInProgress>, code: Option<int>, now: nat): RunState {
      state.(
        updatedAt := now,
        cleanup := state.cleanup.(completedAt := Some(now)),
        status := if stopping.Some? then Stopped else Exited,
        exit := Some(ExitInfo(code, if stopping.Some? then stopping.value.reason else ProcessExited)))
    }

    /** Releases the leases, then persists the end of the run. */
    method Conclude(state: RunState, stopping: Option<StopInProgress>, code: Option<int>, now: nat, works: bool)
      returns (failure: Option<Failure>)
      requires Valid() && Here().killed && InHand(state) && StopMatches(state, stopping)
      requires child != null && !child.present
      requires !state.readiness.status.Pending? && leases != null
      modifies this`trace, this`durable, leases`registryReleased, registry`entries
      ensures Valid()
      ensures works && registry.Sound(old(registry.entries)) ==> failure.None?
      ensures failure.None? ==>
                durable == Ended(state.(leases := Leases.AllReleased(state.leases, now)), stopping, code, now)
      ensures failure.None? ==> Leases.NoneOf(registry.entries, runId)
      ensures failure.Some? ==> durable == old(durable)
    {
      hide PhaseAfter, Accepts, RegistryFits, Leases.NoneOf, Leases.ValidEntries, ReadinessAgrees;
      var sound := registry.Sound(registry.entries);
      var writes := Try(works);
      var state', released := ReleaseLeases(state, now, writes);
      if !released {
        return Some(Failure(if sound then "io" else "integrity"));
      }
      assert PortsReleased(state'.leases);
      var persists := Try(works);
      var ok := Persist(Ended(state', stopping, code, now), persists);
      failure := if ok then None else Some(Failure("io"));
    }

    /**
     * The durable state of a run that ended well: both capture threads are gone and nothing they sent is left, its
     * summary is the final one of a log that kept all of it that fits, and its readiness rests on bytes of that log and
     * on the polls made.
     */
    ghost predicate SummaryIsFinal(logs: Logs.LogWriter, channel: Channel.Receiver)
      reads this, logs, channel
    {
      && channel.Drained()
      && durable.logs == logs.summary && Logs.Final(logs.View(), channel.sent, spec.maxLogBytes)
      && Evidence.EvidenceRetained(durable.readiness, logs.records)
      && Evidence.Closed(began, stimuli, durable.readiness, logs.records)
    }

    /** The first half of a pass: drain a batch, poll readiness, and persist if either changed it. */
    method Observe(
      state: RunState, logs: Logs.LogWriter, tracker: Readiness.ReadinessTracker, channel: Channel.Receiver, pass: Pass)
      returns (state': RunState, persisted: bool, ok: bool)
      requires Valid() && child != null && InHand(state) && durable == state && channel.Valid()
      requires Logging(state.readiness, logs, tracker, channel.Taken())
      modifies this`trace, this`durable, this`heard, this`stimuli, logs, tracker, channel
      ensures Valid() && channel.Valid()
      ensures state' == state.(readiness := state'.readiness, updatedAt := state'.updatedAt)
      ensures pass.works ==> ok
      ensures ok ==> InHand(state') && durable == state' && Logging(state'.readiness, logs, tracker, channel.Taken())
      ensures ok ==> Readiness.PollsOf(stimuli) == old(Readiness.PollsOf(stimuli)) + [PollOf(pass)]
      ensures ok ==>
                channel.taken == |channel.sent| || channel.taken == old(channel.taken) + LOG_DRAIN_BATCH_CHUNKS
      ensures old(channel.taken) <= channel.taken
      ensures ok && !persisted ==> state' == state
      ensures !ok ==> durable == old(durable)
      ensures Here().killed == old(Here()).killed
    {
      hide Valid, Coherent, Allowed, PhaseAfter, Accepts, Readiness.PollsOf, Evidence.Stimulated, ReadinessAgrees;
      hide Readiness.Observed, Readiness.Polled, Logs.Recorded, Logs.Faithful, Evidence.Listening, PollOf;
      ChildIsSpawned();
      var readinessChanged, saturated;
      persisted := false;
      state', readinessChanged, saturated, ok := DrainAvailable(state, logs, tracker, channel, pass.works);
      if !ok {
        return;
      }
      PollKeepsLogging(state'.readiness, logs, tracker, channel.Taken(), pass);
      var readiness, polled := tracker.Poll(state'.readiness, pass.polledAt, pass.pollInstant, pass.report);
      stimuli := stimuli + [PollOf(pass)];
      state' := state'.(readiness := readiness);
      if readinessChanged || polled {
        state' := state'.(updatedAt := pass.polledAt);
        StaysCoherent(state, state');
        MayGoOn(state');
        var writes := Try(pass.works);
        ok := Persist(state', writes);
        persisted := true;
      }
    }

    lemma ChildIsSpawned()
      requires Valid()
      ensures child != null <==> Here().spawned
    {
      hide RegistryFits, PhaseAfter, Accepts;
    }

    lemma MayGoOn(state: RunState)
      requires Valid() && child != null && InHand(state)
      ensures Allowed(Here(), Persisted(state))
    {
      hide RegistryFits, PhaseAfter, Accepts, Coherent;
    }

    /** The last pass: the child is gone, so its run ends. */
    method FinishRun(
      state: RunState, stopping: Option<StopInProgress>, code: Option<int>, logs: Logs.LogWriter,
      tracker: Readiness.ReadinessTracker, channel: Channel.Receiver, pass: Pass)
      returns (outcome: Outcome)
      requires Valid() && child != null && child.present && leases != null
      requires InHand(state) && StopMatches(state, stopping)
      requires channel.Valid() && Logging(state.readiness, logs, tracker, channel.Taken())
      modifies this`trace, this`durable, this`heard, this`stimuli, logs, tracker, channel, child
      modifies leases`registryReleased, registry`entries
      ensures Valid() && !outcome.StillRunning?
      ensures Readiness.PollsOf(stimuli) == old(Readiness.PollsOf(stimuli))
      ensures pass.works && registry.Sound(old(registry.entries)) ==>
                outcome == if channel.closed then Finished else Errored(Failure("log_drain_timeout"))
      ensures outcome.Finished? ==>
                && durable.status == (if stopping.Some? then Stopped else Exited)
                && durable.exit == Some(ExitInfo(code, if stopping.Some? then stopping.value.reason else ProcessExited))
                && durable.limits == state.limits && Ends(state.cleanup, durable.cleanup)
                && durable.updatedAt == pass.now && durable.cleanup.completedAt == Some(pass.now)
                && durable.leases == Leases.AllReleased(state.leases, pass.now)
                && SameCommand(state, durable)
                && SummaryIsFinal(logs, channel) && Leases.NoneOf(registry.entries, runId)
      ensures outcome.Errored? ==> durable == old(durable)
    {
      hide RegistryFits, Readiness.PollsOf, Evidence.Closed, Leases.AllReleased, Leases.NoneOf;
      hide PhaseAfter, Accepts, Logs.Faithful, Logs.Final, Logging, Evidence.EvidenceRetained, Coherent;
      var waits: nat := *;
      var state', failure := DrainDeadChild(state, stopping, logs, tracker, channel, waits, pass.works);
      if failure.Some? {
        return Errored(failure.value);
      }
      failure := Conclude(state', stopping, code, pass.now, pass.works);
      return if failure.None? then Finished else Errored(failure.value);
    }

    /** What a run was started with, and the processes it has. */
    ghost predicate SameCommand(before: RunState, after: RunState) {
      && after.args == before.args && after.supervisorPid == before.supervisorPid
      && after.processPid == before.processPid
    }

    ghost predicate AllAlive(passes: seq<Pass>) {
      forall j :: 0 <= j < |passes| ==> passes[j].waited.StillAlive?
    }

    /** What holds between two passes, `done` being those before: memory and disk agree, and both tell those passes. */
    ghost predicate Looping(
      start: RunState, state: RunState, stopping: Option<StopInProgress>, logs: Logs.LogWriter,
      tracker: Readiness.ReadinessTracker, channel: Channel.Receiver, done: seq<Pass>)
      reads this, child, leases, registry, logs, tracker, channel
    {
      && Valid() && child != null && child.present && leases != null
      && InHand(state) && StopMatches(state, stopping) && durable == state
      && channel.Valid() && Logging(state.readiness, logs, tracker, channel.Taken())
      && Readiness.PollsOf(stimuli) == PollsIn(done)
      && InStep(spec, state, stopping, Here().killed, done) && AllAlive(done)
      && state.limits.deadlineAt == start.limits.deadlineAt && SameCommand(start, state)
      && state.leases == start.leases
    }

    /** How a run that ended well looks, after these passes of its loop. */
    ghost predicate EndsWell(
      start: RunState, logs: Logs.LogWriter, channel: Channel.Receiver, passes: seq<Pass>)
      reads this, logs, channel, registry`entries
    {
      && (durable.status.Exited? || durable.status.Stopped?)
      && SummaryIsFinal(logs, channel) && Leases.NoneOf(registry.entries, runId)
      && Told(spec, durable, passes, true) && ChildSeen(durable, passes, true)
      && durable.limits.deadlineAt == start.limits.deadlineAt && SameCommand(start, durable)
      && Readiness.PollsOf(stimuli) == PollsIn(passes)
    }

    /**
     * One pass: drains a batch, polls readiness, attends to stops, and looks whether the child is gone. It goes on with
     * a document that lags behind by less than a quarter second, or ends the run.
     */
    method OnePass(
      ghost start: RunState, state: RunState, stopping: Option<StopInProgress>, lastStateWrite: nat,
      logs: Logs.LogWriter, tracker: Readiness.ReadinessTracker, channel: Channel.Receiver, pass: Pass,
      ghost done: seq<Pass>)
      returns (state': RunState, stopping': Option<StopInProgress>, lastStateWrite': nat, outcome: Outcome)
      requires Looping(start, state, stopping, logs, tracker, channel, done)
      modifies this`trace, this`durable, this`heard, this`stimuli, logs, tracker, channel, child
      modifies leases`registryReleased, registry`entries
      ensures Valid()
      ensures outcome.StillRunning? ==>
                && Looping(start, state', stopping', logs, tracker, channel, done + [pass])
                && registry.entries == old(registry.entries)
                && pass.instant < lastStateWrite' + 250
                && (channel.taken == |channel.sent| || channel.taken >= old(channel.taken) + 64)
                && channel.taken >= old(channel.taken)
      ensures outcome.Finished? ==> EndsWell(start, logs, channel, done + [pass])
      ensures !outcome.Finished? ==> durable.status.IsLive()
      ensures Smooth(pass) && registry.Sound(old(registry.entries)) && outcome.Errored? ==>
                outcome == Errored(Failure("log_drain_timeout")) && !channel.closed
    {
      hide PhaseAfter, Accepts, Coherent, Logging, Valid, InStep, StopStep, EndsWell, Leases.ValidEntries;
      hide Readiness.PollsOf, SameCommand, PollOf, AllAlive;
      var persisted, ok;
      state', persisted, ok := Observe(state, logs, tracker, channel, pass);
      stopping', lastStateWrite', outcome := stopping, lastStateWrite, StillRunning;
      if !ok {
        outcome := Errored(Failure("io"));
        return;
      }
      if persisted {
        lastStateWrite' := pass.pollInstant;
      }
      StaysInStep(state, state', stopping, Here().killed, done);
      ghost var observed, killed := state', Here().killed;
      state', stopping', ok := AttendToStop(state', stopping, pass);
      if !ok {
        outcome := Errored(Failure(if stopping.None? && pass.request.BadRequest? then "integrity" else "io"));
        return;
      }
      PassStaysInStep(spec, pass, observed, stopping, killed, state', stopping', Here().killed, done);
      PollsGrow(done, pass);
      assert SameCommand(start, state') by { SameCommandStays(start, state, state'); }
      state', lastStateWrite', outcome := LookAfterChild(
        start, state', stopping', lastStateWrite', logs, tracker, channel, pass, done);
    }

    /** The end of a pass: the child is gone and the run ends, or the summary so far may have to be made durable. */
    method LookAfterChild(
      ghost start: RunState, state: RunState, stopping: Option<StopInProgress>, lastStateWrite: nat,
      logs: Logs.LogWriter, tracker: Readiness.ReadinessTracker, channel: Channel.Receiver, pass: Pass,
      ghost done: seq<Pass>)
      returns (state': RunState, lastStateWrite': nat, outcome: Outcome)
      requires Valid() && child != null && child.present && leases != null
      requires InHand(state) && StopMatches(state, stopping) && durable == state
      requires channel.Valid() && Logging(state.readiness, logs, tracker, channel.Taken())
      requires Readiness.PollsOf(stimuli) == PollsIn(done + [pass])
      requires InStep(spec, state, stopping, Here().killed, done + [pass]) && AllAlive(done)
      requires state.limits.deadlineAt == start.limits.deadlineAt && SameCommand(start, state)
      requires state.leases == start.leases
      modifies this`trace, this`durable, this`heard, this`stimuli, logs, tracker, channel, child
      modifies leases`registryReleased, registry`entries
      ensures Valid()
      ensures outcome.StillRunning? ==>
                && Looping(start, state', stopping, logs, tracker, channel, done + [pass])
                && registry.entries == old(registry.entries)
                && pass.instant < lastStateWrite' + 250
                && channel.taken == old(channel.taken) && channel.sent == old(channel.sent)
      ensures outcome.Finished? ==> EndsWell(start, logs, channel, done + [pass])
      ensures !outcome.Finished? ==> durable.status.IsLive()
      ensures Smooth(pass) && registry.Sound(old(registry.entries)) && outcome.Errored? ==>
                outcome == Errored(Failure("log_drain_timeout")) && !channel.closed
    {
      hide PhaseAfter, Accepts, Coherent, Logging, Valid, InStep, Told, Leases.ValidEntries, SummaryIsFinal;
      hide Readiness.PollsOf, PollsIn, Leases.NoneOf, Leases.AllReleased;
      state', lastStateWrite', outcome := state, lastStateWrite, StillRunning;
      ghost var killed := Here().killed;
      child.AsMut();
      match pass.waited {
        case WaitFailed =>
          outcome := Errored(Failure("io"));
        case Reaped(code) =>
          outcome := FinishRun(state, stopping, code, logs, tracker, channel, pass);
          if outcome.Finished? {
            EndIsTold(spec, state, stopping, killed, done + [pass], durable);
          }
        case StillAlive =>
          var ok;
          state', lastStateWrite', ok := MaybeSnapshot(
            state, logs, lastStateWrite, pass.now, pass.instant, pass.works);
          if !ok {
            outcome := Errored(Failure("io"));
          }
          StaysInStep(state, state', stopping, killed, done + [pass]);
      }
    }

    lemma PollsGrow(done: seq<Pass>, pass: Pass)
      ensures PollsIn(done + [pass]) == PollsIn(done) + [PollOf(pass)]
    {
    }

    lemma SameCommandStays(start: RunState, before: RunState, after: RunState)
      requires SameCommand(start, before) && after.args == before.args
      requires after.supervisorPid == before.supervisorPid && after.processPid == before.processPid
      ensures SameCommand(start, after)
    {
    }

    /**
     * The main loop, cut after these passes: a longer run, or a crash, goes on from such a point. `passed` is how many
     * there were. The document it leaves tells the stops that the passes asked for and the exit they saw, its readiness
     * is what the polls of all the passes and the retained output make of it, and it lags behind by less than a quarter
     * second. It fails only where something in its last pass fails.
     */
    method ControlLoop(
      start: RunState, logs: Logs.LogWriter, tracker: Readiness.ReadinessTracker, channel: Channel.Receiver,
      passes: seq<Pass>)
      returns (outcome: Outcome, passed: nat, lastStateWrite: nat)
      requires Valid() && child != null && child.present && leases != null
      requires channel.Valid() && Logging(start.readiness, logs, tracker, channel.Taken())
      requires InHand(start) && start.status.Running? && start.limits.triggeredAt.None? && durable == start
      requires !Here().killed && Readiness.PollsOf(stimuli) == []
      modifies this`trace, this`durable, this`heard, this`stimuli, logs, tracker, channel, child
      modifies leases`registryReleased, registry`entries
      ensures Valid() && passed <= |passes|
      ensures outcome.Finished? ==> EndsWell(start, logs, channel, passes[..passed])
      ensures !outcome.Finished? ==> durable.status.IsLive()
      ensures outcome.StillRunning? ==>
                && passed == |passes| && Told(spec, durable, passes, false) && ChildSeen(durable, passes, false)
                && durable.limits.deadlineAt == start.limits.deadlineAt && SameCommand(start, durable)
                && durable.leases == start.leases && Readiness.PollsOf(stimuli) == PollsIn(passes)
                && Evidence.Stimulated(began, stimuli, tracker.View(), durable.readiness, logs.records)
                && (Here().killed <==> exists k: nat ::
                      FirstAsks(durable.limits.deadlineAt, passes, k) && Forced(spec, passes, k))
      ensures outcome.StillRunning? && passes != [] ==>
                && passes[|passes| - 1].instant < lastStateWrite + 250
                && (channel.taken == |channel.sent| || channel.taken >= old(channel.taken) + 64)
      ensures outcome.Errored? ==>
                && passed > 0
                && (Smooth(passes[passed - 1]) && registry.Sound(old(registry.entries)) ==>
                      outcome == Errored(Failure("log_drain_timeout")) && !channel.closed)
    {
      hide PhaseAfter, Accepts, Coherent, Looping, Valid, InStep, EndsWell, Leases.ValidEntries, InHand, Logging;
      hide Readiness.PollsOf, SameCommand, Told, ChildSeen, Evidence.Stimulated, Forced, FirstAsks;
      var state := start;
      var stopping: Option<StopInProgress> := None;
      lastStateWrite := Now();
      passed := 0;
      assert passes[..0] == [];
      assert Looping(start, state, stopping, logs, tracker, channel, passes[..passed]) by {
        StartsLooping(start, logs, tracker, channel);
      }
      while passed < |passes|
        invariant passed <= |passes|
        invariant Looping(start, state, stopping, logs, tracker, channel, passes[..passed])
        invariant registry.entries == old(registry.entries)
        invariant passed > 0 ==>
                    && passes[passed - 1].instant < lastStateWrite + 250
                    && (channel.taken == |channel.sent| || channel.taken >= old(channel.taken) + 64)
        invariant channel.taken >= old(channel.taken)
        invariant Valid() && child.present
      {
        assert passes[..passed + 1] == passes[..passed] + [passes[passed]];
        state, stopping, lastStateWrite, outcome := OnePass(
          start, state, stopping, lastStateWrite, logs, tracker, channel, passes[passed], passes[..passed]);
        passed := passed + 1;
        if !outcome.StillRunning? {
          return;
        }
        StillOwned(start, state, stopping, logs, tracker, channel, passes[..passed]);
      }
      assert passes[..|passes|] == passes;
      LoopTells(start, state, stopping, logs, tracker, channel, passes);
      return StillRunning, passed, lastStateWrite;
    }

    lemma StartsLooping(
      start: RunState, logs: Logs.LogWriter, tracker: Readiness.ReadinessTracker, channel: Channel.Receiver)
      requires Valid() && child != null && child.present && leases != null
      requires channel.Valid() && Logging(start.readiness, logs, tracker, channel.Taken())
      requires InHand(start) && start.status.Running? && start.limits.triggeredAt.None? && durable == start
      requires !Here().killed && Readiness.PollsOf(stimuli) == []
      ensures Looping(start, start, None, logs, tracker, channel, [])
    {
      hide PhaseAfter, Accepts, Valid, Logging, Coherent;
      NothingPassedYet(start);
    }

    lemma StillOwned(
      start: RunState, state: RunState, stopping: Option<StopInProgress>, logs: Logs.LogWriter,
      tracker: Readiness.ReadinessTracker, channel: Channel.Receiver, done: seq<Pass>)
      requires Looping(start, state, stopping, logs, tracker, channel, done)
      ensures Valid() && child != null && child.present && leases != null
    {
      hide PhaseAfter, Accepts, Valid, Logging, Coherent, InStep;
    }

    lemma LoopTells(
      start: RunState, state: RunState, stopping: Option<StopInProgress>, logs: Logs.LogWriter,
      tracker: Readiness.ReadinessTracker, channel: Channel.Receiver, done: seq<Pass>)
      requires Looping(start, state, stopping, logs, tracker, channel, done)
      ensures Told(spec, durable, done, false) && ChildSeen(durable, done, false) && durable.status.IsLive()
      ensures durable.limits.deadlineAt == start.limits.deadlineAt && SameCommand(start, durable)
      ensures durable.leases == start.leases && Readiness.PollsOf(stimuli) == PollsIn(done)
      ensures Evidence.Stimulated(began, stimuli, tracker.View(), durable.readiness, logs.records)
      ensures Here().killed <==> exists k: nat ::
                FirstAsks(durable.limits.deadlineAt, done, k) && Forced(spec, done, k)
    {
      hide PhaseAfter, Accepts, Valid, Coherent, InStep, Told, Logs.Faithful, Evidence.Listening, Evidence.Stimulated;
      hide Forced, FirstAsks, ReadinessAgrees;
      InStepIsTold(spec, state, stopping, Here().killed, done);
    }

    lemma NothingPassedYet(start: RunState)
      requires Coherent(start) && start.status.Running? && start.limits.triggeredAt.None?
      ensures InStep(spec, start, None, false, []) && PollsIn([]) == []
    {
    }

    lemma StaysInStep(
      before: RunState, after: RunState, stopping: Option<StopInProgress>, killed: bool, passes: seq<Pass>)
      requires InStep(spec, before, stopping, killed, passes)
      requires after.limits == before.limits && after.cleanup == before.cleanup
      ensures InStep(spec, after, stopping, killed, passes)
    {
      if stopping.Some? {
        var k: nat :| StopRuns(spec, before, stopping.value, killed, passes, k);
        assert StopRuns(spec, after, stopping.value, killed, passes, k);
      }
    }

    /** A quarter of a second after the last write, the summary so far is made durable. */
    method MaybeSnapshot(
      state: RunState, logs: Logs.LogWriter, lastStateWrite: nat, now: nat, instant: nat, works: bool)
      returns (state': RunState, lastStateWrite': nat, ok: bool)
      requires Valid() && child != null && InHand(state)
      modifies this`trace, this`durable
      ensures Valid() && InHand(state') && Here().killed == old(Here()).killed
      ensures works ==> ok
      ensures if instant >= lastStateWrite + 250 then
                && state' == state.(logs := logs.summary, updatedAt := now) && lastStateWrite' == instant
                && durable == (if ok then state' else old(durable))
              else ok && state' == state && lastStateWrite' == lastStateWrite && durable == old(durable)
    {
      hide Valid, Coherent, Allowed, PhaseAfter, Accepts;
      state', lastStateWrite', ok := state, lastStateWrite, true;
      if SatSub(instant, lastStateWrite) >= SNAPSHOT_INTERVAL {
        assert ReadinessAgrees(state.readiness) by { CoherentAgrees(state); }
        state' := state.(logs := logs.summary, updatedAt := now);
        StaysCoherent(state, state');
        MayGoOn(state');
        var writes := Try(works);
        ok := Persist(state', writes);
        lastStateWrite' := instant;
      }
    }

    // ----- start and end of the supervision

    method TakeLock()
      requires trace == [] && durable == created && child == null && leases == null
      requires before == registry.entries && |active| == |before|
      modifies this`trace
      ensures Valid() && trace == [TookLock]
    {
      Emit(TookLock);
    }

    /** Nothing was done yet but taking the lock. */
    ghost predicate JustLocked()
      reads this, child, leases, registry
    {
      && Valid() && trace == [TookLock] && durable == created && JustCreated(created)
      && child == null && leases == null
      && heard == Readiness.Fed([], []) && stimuli == [] && Evidence.Unheard(created.readiness.checks)
    }

    /** The state before the spawn: leases may be held, and no child exists. */
    ghost predicate Starting(state: RunState)
      reads this
    {
      && Coherent(state) && state.status.Starting? && state.limits == created.limits
      && Evidence.Unheard(state.readiness.checks)
      && !Here().spawned && !Here().killed && durable.status.Starting?
    }

    /** Nothing stands in the way of the leases asked for: valid names, room in a sound registry, documents that fit. */
    ghost predicate Obtainable(boot: Boot, entries: seq<Leases.Entry>)
      reads registry`known
      requires |boot.probed| == |entries|
    {
      && Leases.CanonicalRunId(runId) && Leases.ValidNames(spec.portNames) && Leases.ValidNames(spec.tempNames)
      && boot.paths.Some?
      && (spec.portNames != [] ==>
            && registry.Sound(entries)
            && Leases.BindsAreFree(boot.binds, Leases.Kept(entries, boot.probed), |spec.portNames|))
      && !Leases.Refused(created, spec.portNames, spec.tempNames)
    }

    /** The answers have the shape that the question gives them. */
    ghost predicate Answers(boot: Boot)
      reads registry`entries
    {
      && |boot.probed| == |registry.entries|
      && (boot.paths.Some? ==> |boot.paths.value| == |spec.tempNames|)
    }

    /** With no port requested the registry is not touched. */
    function LeaseEvents(): seq<Event> {
      if spec.portNames == [] then [] else [ReservedPorts]
    }

    /** What acquiring its leases makes of a state: leases filled in, arguments and probes told about them. */
    ghost predicate Leased(before: RunState, after: RunState, leases: Leases.LeaseAllocation) {
      && Leases.ValidNames(spec.portNames) && Leases.PortNames(leases.reserved) == spec.portNames
      && Leases.ValidNames(spec.tempNames) && Leases.Keys(leases.temps) == spec.tempNames
      && (exists at :: Leases.LeasesFilled(before.leases, after.leases, leases.reserved, leases.temps, at))
      && Leases.ArgumentsFilled(before.args, after.args, Leases.LeaseSubs(leases.reserved, leases.temps))
      && Leases.ChecksFilled(before.readiness.checks, after.readiness.checks, leases.reserved)
      && after == before.(leases := after.leases, args := after.args,
                          readiness := before.readiness.(checks := after.readiness.checks))
      && Leases.TellsPorts(before, after, Leases.LeaseSubs(leases.reserved, leases.temps))
    }

    lemma FilledAgrees(before: ReadinessState, after: ReadinessState, reserved: seq<Leases.ReservedPort>)
      requires ReadinessAgrees(before) && after == before.(checks := after.checks)
      requires Leases.ChecksFilled(before.checks, after.checks, reserved)
      ensures ReadinessAgrees(after)
    {
      forall i | 0 <= i < |after.checks|
        ensures after.checks[i].readyAt == before.checks[i].readyAt
        ensures after.checks[i].evidence == before.checks[i].evidence
      {
        assert Leases.CheckFilled(before.checks[i], after.checks[i], reserved);
      }
    }

    lemma FilledIsUnheard(before: seq<Check>, after: seq<Check>, reserved: seq<Leases.ReservedPort>)
      requires Evidence.Unheard(before) && Leases.ChecksFilled(before, after, reserved)
      ensures Evidence.Unheard(after)
    {
      forall i | 0 <= i < |after|
        ensures Readiness.Unready(after[i])
        ensures after[i].condition.Log? ==> 1 <= |after[i].condition.literal| <= Readiness.MAX_LOG_LITERAL_BYTES
      {
        assert Leases.CheckFilled(before[i], after[i], reserved) && Readiness.Unready(before[i]);
      }
    }

    /** Puts on the trace what acquiring the leases did to the registry, and takes over what was acquired. */
    method ShowLeases(
      allocation: Leases.LeaseAllocation?, reserved: bool, undone: Option<bool>, ghost probed: seq<bool>,
      ghost entries: seq<Leases.Entry>)
      requires Accepts(created, trace) && Here().durable == durable && durable.status.Starting?
      requires Here() == Phase(Held, durable, false, false, false, false, false)
      requires child == null && leases == null
      requires |probed| == |before|
      requires registry.entries == Leases.RegistryAfter(before, probed, entries, runId, reserved, undone == Some(true))
      requires reserved ==>
                 spec.portNames != [] && Leases.Fresh(entries, Leases.Kept(before, probed), runId, spec.portNames)
      requires allocation == null && reserved ==> undone.Some?
      requires allocation != null ==>
                 undone.None? && !allocation.registryReleased && allocation.registry == registry
                 && allocation.runId == runId
      modifies this`trace, this`leases, this`active, this`added
      ensures Valid() && !Here().spawned && !Here().killed && leases == allocation
      ensures allocation != null ==> !Here().releaseTried
      ensures trace == old(trace) + (if reserved then [ReservedPorts] else [])
                     + (if undone.Some? then [ReleasedPorts(undone.value)] else [])
    {
      hide PhaseAfter, Accepts, Leases.RegistryAfter, Leases.Fresh;
      active, added := probed, entries;
      if reserved {
        Emit(ReservedPorts);
      }
      if undone.Some? {
        Emit(ReleasedPorts(undone.value));
      }
      leases := allocation;
    }

    /** `LeaseAllocation::acquire` with what the system reports. */
    method AcquireLeases(state: RunState, boot: Boot) returns (state': RunState, failure: Option<Failure>)
      requires Valid() && Starting(state) && leases == null && Answers(boot)
      requires !Here().reserved && !Here().releaseTried
      modifies this`trace, this`leases, this`active, this`added, registry`entries
      ensures Valid() && durable == old(durable) && !Here().spawned
      ensures failure.None? ==>
                Starting(state') && leases != null && fresh(leases) && leases.listening && !Here().releaseTried
      ensures failure.None? ==> trace == old(trace) + LeaseEvents() && Leased(state, state', leases)
      ensures failure.Some? ==> leases == null
      ensures boot.works && SameDemands(created, state) && old(Obtainable(boot, registry.entries)) ==> failure.None?
    {
      hide PhaseAfter, Accepts, Leases.ArgumentsFilled, Leases.ChecksFilled, Leases.Fresh, Leases.RegistryAfter;
      hide Leases.LeasesFilled, Leases.ValidNames, Evidence.Unheard, Leases.BindsAreFree, Leases.CanonicalRunId;
      hide Leases.TellsPorts, Leases.ValidEntries, ReadinessAgrees, Leases.Kept, Leases.LeaseSubs, Leases.Refused;
      Leases.UntouchedRegistry(before, active, added, runId);
      SameRefusal(created, state, spec.portNames, spec.tempNames);
      var now := Now();
      var writes := Try(boot.works);
      var undoes := Try(boot.works);
      var dropUndoes := Try(boot.works);
      var allocation, reserved, undone, error;
      ghost var entries;
      allocation, state', reserved, undone, error, entries := Leases.Acquire(
        registry, runId, state, spec.portNames, spec.tempNames, boot.paths, boot.probed, boot.binds, now, writes,
        undoes, dropUndoes);
      ShowLeases(allocation, reserved, undone, boot.probed, entries);
      if allocation == null {
        return state', Some(Failure(KindOf(error)));
      }
      failure := None;
      FilledIsUnheard(state.readiness.checks, state'.readiness.checks, allocation.reserved);
      FilledAgrees(state.readiness, state'.readiness, allocation.reserved);
    }

    function KindOf(error: Leases.LeaseError): string {
      match error
      case Io => "io"
      case Integrity => "integrity"
      case NoFreePort => "port_lease"
      case InvalidName => "usage"
      case BadArgument => "usage"
    }

    ghost predicate SameDemands(a: RunState, b: RunState) {
      a.leases == b.leases && a.args == b.args && a.readiness == b.readiness
    }

    lemma SameRefusal(a: RunState, b: RunState, portNames: seq<string>, tempNames: seq<string>)
      ensures SameDemands(a, b) ==>
                (Leases.Refused(a, portNames, tempNames) <==> Leases.Refused(b, portNames, tempNames))
    {
      hide Leases.LeaseSubs, Leases.PortNames, Leases.Keys;
      if SameDemands(a, b) {
        assert forall r: seq<Leases.ReservedPort>, t: seq<(string, string)> ::
            Leases.Unfillable(a, r, t) <==> Leases.Unfillable(b, r, t);
      }
    }

    /** The child could not be started: the failure is recorded once the leases are back. */
    method SpawnFails(state: RunState, works: bool) returns (failure: Failure)
      requires Valid() && Starting(state) && leases != null
      modifies this`trace, this`durable, leases`registryReleased, registry`entries
      ensures Valid() && Here().spawned == old(Here().spawned)
      ensures durable == old(durable) || exists now: nat, releasedAt: nat ::
                && durable == state.(
                     status := Failed, updatedAt := now, exit := Some(ExitInfo(None, ExitReason.SpawnFailed)),
                     failure := Some(FailureInfo("process_spawn")),
                     leases := Leases.AllReleased(state.leases, releasedAt))
                && Leases.NoneOf(registry.entries, runId)
      ensures works && registry.Sound(old(registry.entries)) ==>
                durable.status.Failed? && failure == Failure("process_spawn")
      ensures durable.status.Starting? || durable.status.Failed?
    {
      hide PhaseAfter, Accepts, RegistryFits, Leases.NoneOf, Evidence.Unheard, Leases.ValidEntries, ReadinessAgrees;
      var now, finishedAt := Now2();
      var kind := "process_spawn";
      var state' := state.(
        status := Failed, updatedAt := now, exit := Some(ExitInfo(None, ExitReason.SpawnFailed)),
        failure := Some(FailureInfo(kind)));
      var sound := registry.Sound(registry.entries);
      var writes := Try(works);
      var released;
      state', released := ReleaseLeases(state', finishedAt, writes);
      if !released {
        return Failure(if sound then "io" else "integrity");
      }
      assert PortsReleased(state'.leases);
      var persists := Try(works);
      var ok := Persist(state', persists);
      failure := Failure(if ok then kind else "io");
    }

    /** The runtime deadline and the handoff gaps are counted from the moment of the spawn. */
    ghost predicate CountsFrom(before: RunState, after: RunState, spawnedAt: nat) {
      && after.limits == before.limits.(
           deadlineAt := if spec.maxRuntime.Some? then Some(SatAdd(spawnedAt, spec.maxRuntime.value)) else None)
      && |after.leases.ports| == |before.leases.ports|
      && forall i :: 0 <= i < |before.leases.ports| ==>
           after.leases.ports[i] == Leases.SpawnRecorded(before.leases.ports[i], spawnedAt)
    }

    method AdoptChild()
      requires Valid() && Allowed(Here(), Spawned) && child == null && leases != null && !leases.listening
      modifies this`trace, this`child
      ensures Valid() && Here() == old(Here()).(spawned := true)
      ensures child != null && fresh(child) && child.present
      ensures trace == old(trace) + [Spawned]
    {
      hide PhaseAfter, Accepts;
      var owned := new OwnedChild();
      Emit(Spawned);
      child := owned;
    }

    /** From the spawned child to the first persisted `Running`. */
    method ChildSpawned(state: RunState, works: bool) returns (state': RunState, ok: bool)
      requires Valid() && Starting(state) && leases != null && !Here().releaseTried && child == null
      requires !leases.listening
      requires created.limits.triggeredAt.None?
      modifies this`trace, this`durable, this`child
      ensures state'.readiness == state.readiness
      ensures Valid() && child != null && fresh(child) && child.present
      ensures ok ==> InHand(state')
      ensures state'.status.Running? && state'.limits.triggeredAt.None?
      ensures exists spawnedAt :: CountsFrom(state, state', spawnedAt)
      ensures if ok then durable == state' else durable == old(durable)
      ensures trace == old(trace) + [Spawned] + (if ok then [Persisted(state')] else [])
      ensures works ==> ok
      ensures !Here().killed
    {
      hide RegistryFits;
      hide PhaseAfter, Accepts;
      AdoptChild();
      var spawnedAt, now := Now2();
      state' := leases.RecordSpawn(state, spawnedAt);
      var deadline := if spec.maxRuntime.Some? then Some(SatAdd(spawnedAt, spec.maxRuntime.value)) else None;
      state' := state'.(limits := state'.limits.(deadlineAt := deadline));
      child.AsMut();
      var pid: nat := *;
      state' := state'.(status := Running, updatedAt := now, processPid := Some(pid));
      assert CountsFrom(state, state', spawnedAt);
      hide CountsFrom, Evidence.Unheard, PortsReleased, NothingHeld;
      var writes := Try(works);
      ok := Persist(state', writes);
    }

    /** Every successful startup shows exactly this: starting, leases, starting with leases, the child, running. */
    function StartupTrace(starting: RunState, leased: RunState, running: RunState): seq<Event> {
      [TookLock, Persisted(starting)] + LeaseEvents() + [Persisted(leased), Spawned, Persisted(running)]
    }

    /** The listeners were closed at one moment and the child was spawned at another, and the leases show both. */
    ghost predicate HandsOver(leased: RunState, running: RunState, leases: Leases.LeaseAllocation) {
      && |running.leases.ports| == |leased.leases.ports|
      && exists handoffAt: nat, spawnedAt: nat {:trigger Shows(leased, running, leases, handoffAt, spawnedAt)} ::
           Shows(leased, running, leases, handoffAt, spawnedAt)
    }

    ghost predicate Shows(
      leased: RunState, running: RunState, leases: Leases.LeaseAllocation, handoffAt: nat, spawnedAt: nat)
    {
      && |running.leases.ports| == |leased.leases.ports|
      && forall i :: 0 <= i < |leased.leases.ports| ==>
           running.leases.ports[i]
           == Leases.SpawnRecorded(Leases.HandedOff(leased.leases.ports[i], leases.reserved, handoffAt), spawnedAt)
    }

    lemma HandoverCounts(
      leased: RunState, handed: RunState, running: RunState, leases: Leases.LeaseAllocation, handoffAt: nat)
      requires |handed.leases.ports| == |leased.leases.ports|
      requires forall i :: 0 <= i < |leased.leases.ports| ==>
                 handed.leases.ports[i] == Leases.HandedOff(leased.leases.ports[i], leases.reserved, handoffAt)
      requires exists spawnedAt :: CountsFrom(handed, running, spawnedAt)
      ensures HandsOver(leased, running, leases)
    {
      var spawnedAt :| CountsFrom(handed, running, spawnedAt);
      assert Shows(leased, running, leases, handoffAt, spawnedAt);
    }

    ghost predicate StartsUp(starting: RunState, leased: RunState, leases: Leases.LeaseAllocation) {
      && starting == created.(status := RunStatus.Starting, updatedAt := starting.updatedAt,
                              supervisorPid := starting.supervisorPid)
      && starting.supervisorPid.Some?
      && Leased(starting, leased, leases)
    }

    /** `supervise_locked` up to the leases; no child exists yet. */
    method Prepare(boot: Boot) returns (state: RunState, failure: Option<Failure>, ghost starting: RunState)
      requires JustLocked() && Answers(boot)
      modifies this`trace, this`durable, this`leases, this`active, this`added, registry`entries
      ensures Valid() && durable.status.IsLive()
      ensures leases == null || fresh(leases)
      ensures failure.None? ==> Starting(state) && leases != null && !Here().releaseTried && durable == state
      ensures failure.None? ==>
                && trace == [TookLock, Persisted(starting)] + LeaseEvents() + [Persisted(state)]
                && StartsUp(starting, state, leases)
      ensures boot.works && old(Obtainable(boot, registry.entries)) ==> failure.None?
    {
      hide RegistryFits, ReadinessAgrees, Obtainable;
      hide PhaseAfter, Accepts, Leased, Evidence.Unheard;
      PhaseOfJustLocked();
      state := durable;
      starting := state;
      var ok := Try(boot.works);
      if !ok {
        return state, Some(Failure("integrity")), starting;
      }
      var now, pid := Now2();
      state := state.(status := RunStatus.Starting, updatedAt := now, supervisorPid := Some(pid));
      starting := state;
      var first := Try(boot.works);
      var second := Try(boot.works);
      ok := Persist(state, first);
      if !ok {
        return state, Some(Failure("io")), starting;
      }
      state, failure := AcquireLeases(state, boot);
      if failure.Some? {
        return;
      }
      ok := Persist(state, second);
      failure := if ok then None else Some(Failure("io"));
    }

    /** `supervise_locked` up to the running child. */
    method Launch(boot: Boot) returns (state: RunState, failure: Option<Failure>)
      requires JustLocked() && Answers(boot)
      modifies this`trace, this`durable, this`child, this`leases, this`active, this`added, registry`entries
      ensures Valid()
      ensures leases == null || fresh(leases)
      ensures child == null || fresh(child)
      ensures failure.None? ==>
                && child != null && child.present && leases != null
                && InHand(state) && state.status.Running? && state.limits.triggeredAt.None?
                && Evidence.Unheard(state.readiness.checks) && !Here().killed
      ensures if failure.None? then durable == state else durable.status.IsLive() || durable.status.Failed?
      ensures failure.None? ==> !leases.listening
      ensures failure.None? ==> exists starting, leased ::
                && trace == StartupTrace(starting, leased, state) && StartsUp(starting, leased, leases)
                && HandsOver(leased, state, leases)
      ensures boot.works && boot.spawns && old(Obtainable(boot, registry.entries)) ==> failure.None?
    {
      hide RegistryFits, ReadinessAgrees, Obtainable;
      hide PhaseAfter, Accepts, StartsUp, Evidence.Unheard, PortsReleased, NothingHeld, HandsOver, CountsFrom;
      ghost var starting;
      state, failure, starting := Prepare(boot);
      if failure.Some? {
        return;
      }
      ghost var leased := state;
      var now := Now();
      state := leases.Handoff(state, now);
      ghost var handed := state;
      if !boot.spawns {
        var failed := SpawnFails(state, boot.works);
        return state, Some(failed);
      }
      var ok;
      state, ok := ChildSpawned(state, boot.works);
      HandoverCounts(leased, handed, state, leases, now);
      assert ok ==> trace == StartupTrace(starting, leased, state) && StartsUp(starting, leased, leases);
      failure := if ok then None else Some(Failure("io"));
    }

    lemma FoundAsBefore()
      requires JustLocked()
      ensures registry.entries == before
    {
      PhaseOfJustLocked();
      Leases.UntouchedRegistry(before, active, added, runId);
    }

    lemma PhaseOfJustLocked()
      requires JustLocked()
      ensures Here() == Phase(Held, created, false, false, false, false, false)
    {
      assert trace[..0] == [];
    }

    /** What is known of a run after these passes: how it ended, or that it goes on, and what its document tells. */
    ghost predicate Supervised(
      outcome: Outcome, logs: Logs.LogWriter?, channel: Channel.Receiver, passes: seq<Pass>)
      reads this, logs, channel, registry`entries
    {
      && (outcome.Finished? ==>
            && (durable.status.Exited? || durable.status.Stopped?)
            && logs != null && SummaryIsFinal(logs, channel) && Leases.NoneOf(registry.entries, runId))
      && (!outcome.Errored? ==>
            && Told(spec, durable, passes, outcome.Finished?) && ChildSeen(durable, passes, outcome.Finished?)
            && Evidence.Unheard(began.checks) && Readiness.PollsOf(stimuli) == PollsIn(passes))
    }

    /** From the running child on: opens its log and goes round the control loop. */
    method RunChild(state: RunState, works: bool, passes: seq<Pass>)
      returns (outcome: Outcome, logs: Logs.LogWriter?, channel: Channel.Receiver, passed: nat)
      requires Valid() && child != null && child.present && leases != null && spec.maxLogBytes < U64_MAX
      requires InHand(state) && state.status.Running? && state.limits.triggeredAt.None? && durable == state
      requires Evidence.Unheard(state.readiness.checks) && !Here().killed && heard == Readiness.Fed([], [])
      modifies this`trace, this`durable, this`heard, this`stimuli, this`began, child
      modifies leases`registryReleased, registry`entries
      ensures Valid() && passed <= |passes| && Supervised(outcome, logs, channel, passes[..passed])
      ensures !outcome.Finished? ==> durable.status.IsLive()
      ensures outcome.StillRunning? ==> passed == |passes|
      ensures works && (forall j :: 0 <= j < |passes| ==> Smooth(passes[j]))
              && registry.Sound(old(registry.entries)) && outcome.Errored? ==>
                outcome == Errored(Failure("log_drain_timeout")) && !channel.closed
    {
      hide PhaseAfter, Accepts, Logs.Faithful, Logs.Final, Evidence.Listening, Evidence.Unheard, RegistryFits, Valid;
      hide Evidence.EvidenceRetained, Coherent, Told, ChildSeen, Evidence.Stimulated, Smooth;
      hide Evidence.Closed, Readiness.PollsOf, Leases.ValidEntries, Leases.NoneOf, PollsIn, Forced, FirstAsks;
      logs, passed := null, 0;
      channel := new Channel.Receiver();
      var creates := Try(works);
      if !creates {
        return Errored(Failure("io")), null, channel, 0;
      }
      logs := new Logs.LogWriter(spec.maxLogBytes);
      assert channel.Taken() == [] && Logs.Faithful(logs.View(), [], spec.maxLogBytes) by {
        Logs.WriterKeepsThePrefix(spec.maxLogBytes, [], []);
      }
      var tracker := new Readiness.ReadinessTracker();
      began, stimuli := state.readiness, [];
      Evidence.NothingStimulates(began);
      Evidence.ListensFromTheStart(state.readiness);
      assert ReadinessAgrees(began) by { CoherentAgrees(state); }
      var lastStateWrite;
      outcome, passed, lastStateWrite := ControlLoop(state, logs, tracker, channel, passes);
      assert passes[..|passes|] == passes;
    }

    /** `supervise_locked`; what it owns is still to be dropped. */
    method SuperviseLocked(boot: Boot, passes: seq<Pass>)
      returns (outcome: Outcome, logs: Logs.LogWriter?, channel: Channel.Receiver, passed: nat)
      requires JustLocked() && Answers(boot) && spec.maxLogBytes < U64_MAX
      modifies this`trace, this`durable, this`child, this`leases, this`active, this`added, this`heard, this`stimuli
      modifies this`began, registry`entries
      ensures Valid() && passed <= |passes| && Supervised(outcome, logs, channel, passes[..passed])
      ensures leases == null || fresh(leases)
      ensures child == null || fresh(child)
      ensures outcome.Errored? ==> durable.status.IsLive() || durable.status.Failed?
      ensures outcome.StillRunning? ==> durable.status.IsLive() && passed == |passes|
      ensures Undisturbed(boot, passes) && old(Obtainable(boot, registry.entries))
              && registry.Sound(old(registry.entries)) && outcome.Errored? ==>
                outcome == Errored(Failure("log_drain_timeout")) && !channel.closed
    {
      hide PhaseAfter, Accepts, Evidence.Unheard, RegistryFits, StartsUp, HandsOver, Coherent, Obtainable, Smooth;
      hide Leases.ValidEntries, Told, ChildSeen, SummaryIsFinal, Leases.NoneOf, Readiness.PollsOf, PollsIn;
      ghost var sound := Obtainable(boot, registry.entries) && registry.Sound(registry.entries);
      if sound {
        ObtainableNames(boot, registry.entries);
        FoundAsBefore();
      }
      var state, failure := Launch(boot);
      if failure.Some? {
        channel := new Channel.Receiver();
        return Errored(failure.value), null, channel, 0;
      }
      if sound {
        StaysSound();
      }
      hide Valid;
      outcome, logs, channel, passed := RunChild(state, boot.works, passes);
    }

    /** No system call fails, no request is refused, and the child can always be asked after. */
    ghost predicate Undisturbed(boot: Boot, passes: seq<Pass>) {
      boot.works && boot.spawns && forall j :: 0 <= j < |passes| ==> Smooth(passes[j])
    }

    lemma CoherentAgrees(state: RunState)
      requires Coherent(state)
      ensures ReadinessAgrees(state.readiness)
    {
    }

    lemma ObtainableNames(boot: Boot, entries: seq<Leases.Entry>)
      requires |boot.probed| == |entries| && Obtainable(boot, entries)
      ensures Leases.CanonicalRunId(runId) && Leases.ValidNames(spec.portNames)
    {
    }

    /** A sound registry is still sound after the run's own reservation. */
    lemma StaysSound()
      requires Valid() && registry.known && Leases.ValidEntries(before)
      requires Leases.CanonicalRunId(runId) && Leases.ValidNames(spec.portNames)
      ensures registry.Sound(registry.entries)
    {
      hide Accepts, PhaseAfter, Leases.Fresh, Leases.Kept, Leases.CanonicalRunId, Leases.ValidNames;
      hide Leases.RegistryAfter;
      Leases.SoundAfter(before, active, added, runId, spec.portNames, Here().reserved, Here().released);
    }

    /** `Drop` of the allocation, while it has not released yet. */
    method DropLeases(writes: bool)
      requires Valid() && leases != null && !leases.registryReleased && Allowed(Here(), ReleasedPorts(true))
      modifies this`trace, leases`registryReleased, registry`entries
      ensures Valid() && Here() == Next(old(Here()), ReleasedPorts(leases.registryReleased))
      ensures old(Leases.NoneOf(registry.entries, runId)) ==> Leases.NoneOf(registry.entries, runId)
    {
      hide PhaseAfter, Accepts, Leases.RegistryAfter, Leases.Fresh, Leases.Kept;
      Leases.ReleasedRegistry(before, active, added, runId, Here().reserved, Here().released);
      var released := leases.ReleaseRegistry(writes);
      Emit(ReleasedPorts(released));
    }

    /** The drops at the end of `supervise_locked`: the child's before the leases'. */
    method DropOwned()
      requires Valid()
      modifies this`trace, this`leases, child, leases, registry`entries
      ensures Valid() && durable == old(durable) && NothingOwned()
      ensures Here().spawned ==> Here().killed
      ensures Here().reserved ==> Here().releaseTried
      ensures old(Leases.NoneOf(registry.entries, runId)) ==> Leases.NoneOf(registry.entries, runId)
    {
      hide PhaseAfter, Accepts, RegistryFits, Leases.NoneOf;
      if child != null && child.present {
        Emit(KilledTree);
        child.Disarm();
      }
      if leases != null && !leases.registryReleased {
        var writes: bool := *;
        DropLeases(writes);
      }
      leases := null;
    }

    function Released(leases: LeaseState, at: nat): LeaseState {
      LeaseState(
        seq(|leases.ports|, i requires 0 <= i < |leases.ports| =>
              if leases.ports[i].acquiredAt.Some? && leases.ports[i].releasedAt.None?
              then leases.ports[i].(releasedAt := Some(at)) else leases.ports[i]),
        seq(|leases.temps|, i requires 0 <= i < |leases.temps| =>
              if leases.temps[i].acquiredAt.Some? && leases.temps[i].releasedAt.None?
              then leases.temps[i].(releasedAt := Some(at)) else leases.temps[i]))
    }

    /** `mark_supervisor_failed`: works on the durable state, never overwrites a terminal one, keeps its `logs`. */
    method MarkSupervisorFailed(failure: Failure, readable: bool, writes: bool)
      requires Valid() && (Here().spawned ==> Here().killed) && (Here().reserved ==> Here().releaseTried)
      requires NothingOwned() && Coherent(created)
      modifies this`trace, this`durable
      ensures Valid() && Here() == old(Here()).(durable := durable)
      ensures durable != old(durable) <==> readable && writes && old(durable.status.IsLive())
      ensures durable != old(durable) ==>
                && durable.status.Failed? && durable.failure == Some(FailureInfo(failure.kind))
                && durable.exit == Some(ExitInfo(None, SupervisorFailed))
                && durable.logs == old(durable.logs) && durable.readiness == old(durable.readiness)
                && durable.cleanup.completedAt == Some(durable.updatedAt)
                && durable.leases == Released(old(durable.leases), durable.updatedAt)
                && |durable.leases.ports| == |old(durable.leases.ports)|
                && (forall i :: 0 <= i < |durable.leases.ports| ==>
                      var lease := old(durable.leases.ports)[i];
                      durable.leases.ports[i]
                      == if lease.acquiredAt.Some? && lease.releasedAt.None?
                         then lease.(releasedAt := Some(durable.updatedAt)) else lease)
                && |durable.leases.temps| == |old(durable.leases.temps)|
                && (forall i :: 0 <= i < |durable.leases.temps| ==>
                      var lease := old(durable.leases.temps)[i];
                      durable.leases.temps[i]
                      == if lease.acquiredAt.Some? && lease.releasedAt.None?
                         then lease.(releasedAt := Some(durable.updatedAt)) else lease)
    {
      hide PhaseAfter, Accepts;
      if !readable || durable.status.IsTerminal() {
        return;
      }
      DurableIsCoherent(created, trace);
      hide ReadinessAgrees;
      var now := Now();
      var state := durable.(
        status := Failed, updatedAt := now, exit := Some(ExitInfo(None, SupervisorFailed)),
        failure := Some(FailureInfo(failure.kind)),
        cleanup := durable.cleanup.(completedAt := Some(now)),
        leases := Released(durable.leases, now));
      assert NothingHeld(state.leases);
      var ok := Persist(state, writes);
    }

    /** What `supervise` does after `supervise_locked`: an error is recorded if it can be, and the lock is freed. */
    method WindUp(outcome: Outcome, readable: bool, writes: bool)
      requires Valid() && Coherent(created)
      requires if outcome.Finished? then durable.status.IsTerminal()
               else durable.status.IsLive() || durable.status.Failed?
      modifies this`trace, this`durable, this`leases, child, leases, registry`entries
      ensures Accepts(created, trace) && Here().durable == durable && Here().lock.Freed?
      ensures RegistryFits(Here().reserved, Here().released)
      ensures outcome.Finished? ==> durable == old(durable)
      ensures old(Leases.NoneOf(registry.entries, runId)) ==> Leases.NoneOf(registry.entries, runId)
      ensures !outcome.Finished? ==> durable.status.IsLive() || durable.status.Failed?
      ensures outcome.Errored? && readable && writes ==> durable.status.Failed?
    {
      hide Accepts, PhaseAfter, Coherent, Leases.NoneOf, RegistryFits;
      DropOwned();
      if outcome.Errored? {
        MarkSupervisorFailed(outcome.failure, readable, writes);
      }
      Emit(FreedLock);
    }
  }

  /**
   * `supervise`: one supervisor from the lock to its release, or up to where its control loop is cut. `readable` and
   * `writes` say whether a failure can be recorded. Whatever else the system does, the trace is right and the registry
   * as the trace says; it ends with the lock free. The document tells the stops asked for in the passes and the exit
   * they saw. A success leaves a finished run whose threads have ended and all whose output was taken; an error leaves
   * a failure record; and where nothing fails the only error is output that does not end.
   */
  method Supervise(
    registry: Leases.PortRegistry, runId: string, spec: Spec, created: RunState, boot: Boot, passes: seq<Pass>,
    readable: bool, writes: bool)
    returns (trace: seq<Event>, durable: RunState, outcome: Outcome, logs: Logs.LogWriter?,
             channel: Channel.Receiver, passed: nat, ghost active: seq<bool>, ghost added: seq<Leases.Entry>,
             ghost began: ReadinessState, ghost stimuli: seq<Readiness.Stimulus>)
    requires JustCreated(created) && Evidence.Unheard(created.readiness.checks) && spec.maxLogBytes < U64_MAX
    requires |boot.probed| == |registry.entries| && (boot.paths.Some? ==> |boot.paths.value| == |spec.tempNames|)
    modifies registry`entries
    ensures Accepts(created, trace) && PhaseAfter(created, trace).durable == durable
    ensures !outcome.StillRunning? <==> PhaseAfter(created, trace).lock.Freed?
    ensures outcome.Finished? ==>
              && (durable.status.Exited? || durable.status.Stopped?)
              && channel.Drained()
              && logs != null && durable.logs == logs.summary
              && Logs.Final(logs.View(), channel.sent, spec.maxLogBytes)
              && Evidence.EvidenceRetained(durable.readiness, logs.records)
              && Evidence.Closed(began, stimuli, durable.readiness, logs.records)
              && Leases.NoneOf(registry.entries, runId)
    ensures passed <= |passes|
    ensures !outcome.Errored? ==>
              && Told(spec, durable, passes[..passed], outcome.Finished?)
              && ChildSeen(durable, passes[..passed], outcome.Finished?)
              && Evidence.Unheard(began.checks) && Readiness.PollsOf(stimuli) == PollsIn(passes[..passed])
    ensures outcome.StillRunning? ==> passed == |passes|
    ensures boot.works && boot.spawns && (forall j :: 0 <= j < |passes| ==> Smooth(passes[j]))
            && Leases.CanonicalRunId(runId) && Leases.ValidNames(spec.portNames) && Leases.ValidNames(spec.tempNames)
            && boot.paths.Some? && registry.Sound(old(registry.entries))
            && Leases.BindsAreFree(boot.binds, Leases.Kept(old(registry.entries), boot.probed), |spec.portNames|)
            && !Leases.Refused(created, spec.portNames, spec.tempNames)
            && outcome.Errored? ==>
              outcome == Errored(Failure("log_drain_timeout")) && !channel.closed
    ensures outcome.Errored? && readable && writes ==> durable.status.Failed?
    ensures !outcome.Finished? ==> durable.status.IsLive() || durable.status.Failed?
    ensures var p := PhaseAfter(created, trace);
            && |active| == |old(registry.entries)|
            && registry.entries
            == Leases.RegistryAfter(old(registry.entries), active, added, runId, p.reserved, p.released)
            && (p.reserved ==>
                  Leases.Fresh(added, Leases.Kept(old(registry.entries), active), runId, spec.portNames))
  {
    hide Accepts, PhaseAfter, Logs.Final, Logs.Faithful, Evidence.EvidenceRetained, Coherent, Evidence.Unheard;
    hide Leases.RegistryAfter, Leases.Fresh, Leases.Kept, Told, ChildSeen, Readiness.PollsOf, Evidence.Closed;
    hide Leases.CanonicalRunId, Leases.ValidNames, Leases.BindsAreFree, Leases.Refused, Leases.ValidEntries;
    var s := new Supervisor(registry, runId, spec, created);
    s.TakeLock();
    assert Coherent(created) by { CreatedIsCoherent(created); }
    outcome, logs, channel, passed := s.SuperviseLocked(boot, passes);
    if !outcome.StillRunning? {
      s.WindUp(outcome, readable, writes);
    }
    trace, durable, active, added, began, stimuli := s.trace, s.durable, s.active, s.added, s.began, s.stimuli;
  }

  lemma CreatedIsCoherent(created: RunState)
    requires JustCreated(created)
    ensures Coherent(created)
  {
  }
}
