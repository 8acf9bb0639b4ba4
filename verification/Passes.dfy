/** What the passes of a supervisor's control loop meet, and what has to come of it, told without the loop. */
module Passes {
  import opened Wrappers
  import opened Model
  import Readiness

  /** What the supervisor was launched with. */
  datatype Spec = Spec(
    maxLogBytes: nat,
    portNames: seq<string>,
    tempNames: seq<string>,
    maxRuntime: Option<nat>,
    runtimeGrace: nat,
    windows: bool)

  datatype StopRead = NoRequest | Request(requestedAt: nat, grace: nat) | BadRequest

  datatype Waited = StillAlive | Reaped(code: Option<int>) | WaitFailed

  datatype StopInProgress = StopInProgress(deadline: nat, forceSent: bool, reason: ExitReason)

  /**
   * One pass: the clocks of its readiness poll and what a probe reports, the stop request it would read, the clocks of
   * the rest, and what became of the child. `works`: no system call of the pass fails.
   */
  datatype Pass = Pass(
    polledAt: nat,
    pollInstant: nat,
    report: Option<string>,
    request: StopRead,
    now: nat,
    instant: nat,
    waited: Waited,
    works: bool)

  function PollOf(p: Pass): Readiness.Stimulus {
    Readiness.Poll(p.polledAt, p.pollInstant, p.report)
  }

  function PollsIn(passes: seq<Pass>): seq<Readiness.Stimulus> {
    seq(|passes|, i requires 0 <= i < |passes| => PollOf(passes[i]))
  }

  // ----- when a stop begins, what it shows and when it forces

  /** A pass that must begin a stop if none is in progress: it has a request, or the run's time is over. */
  ghost predicate Asks(deadline: Option<nat>, p: Pass) {
    p.request.Request? || (deadline.Some? && p.now >= deadline.value)
  }

  ghost predicate NobodyAsks(deadline: Option<nat>, passes: seq<Pass>) {
    forall j :: 0 <= j < |passes| ==> !Asks(deadline, passes[j])
  }

  ghost predicate FirstAsks(deadline: Option<nat>, passes: seq<Pass>, k: nat) {
    k < |passes| && Asks(deadline, passes[k]) && forall j :: 0 <= j < k ==> !Asks(deadline, passes[j])
  }

  function GraceOf(spec: Spec, p: Pass): nat {
    if p.request.Request? then p.request.grace else spec.runtimeGrace
  }

  function ReasonOf(p: Pass): ExitReason {
    if p.request.Request? then StopRequested else RuntimeLimit
  }

  /** Where the stop began, and its grace, stand in the document: a request's own, or the time the limit was hit. */
  ghost predicate ShowsStop(spec: Spec, state: RunState, p: Pass) {
    && state.cleanup.requestedAt == Some(if p.request.Request? then p.request.requestedAt else p.now)
    && state.cleanup.grace == Some(GraceOf(spec, p))
    && state.limits.triggeredAt == (if p.request.Request? then None else Some(p.now))
  }

  /** A stop that began in pass `k` has been forced: on Windows at once, else when a later pass saw its grace over. */
  ghost predicate Forced(spec: Spec, passes: seq<Pass>, k: nat)
    requires k < |passes|
  {
    spec.windows || exists m :: k < m < |passes| && passes[m].instant >= passes[k].instant + GraceOf(spec, passes[k])
  }

  /**
   * What a run's document says after these passes, whatever else happened in them; `ended` if the last of them found
   * the child gone. Nobody asked for a stop, or the first who did is the one it names.
   */
  ghost predicate Told(spec: Spec, state: RunState, passes: seq<Pass>, ended: bool) {
    var deadline := state.limits.deadlineAt;
    if NobodyAsks(deadline, passes) then
      && (if ended then state.status.Exited? else state.status.Running?)
      && state.cleanup.requestedAt.None? && state.limits.triggeredAt.None?
      && (ended ==> state.exit.Some? && state.exit.value.reason.ProcessExited?)
    else exists k: nat ::
      && FirstAsks(deadline, passes, k)
      && (if ended then state.status.Stopped? else state.status.Stopping?)
      && ShowsStop(spec, state, passes[k])
      && state.cleanup.descendantCleanup && (Forced(spec, passes, k) ==> state.cleanup.forceUsed)
      && (ended ==> state.exit.Some? && state.exit.value.reason == ReasonOf(passes[k]))
  }

  /** The child was there in every pass but the last one of a run that ended, which found it gone and with this code. */
  ghost predicate ChildSeen(state: RunState, passes: seq<Pass>, ended: bool) {
    && (forall j :: 0 <= j < |passes| - (if ended then 1 else 0) ==> passes[j].waited.StillAlive?)
    && (ended ==>
          && passes != [] && state.exit.Some?
          && passes[|passes| - 1].waited == Reaped(state.exit.value.code)
          && state.updatedAt == passes[|passes| - 1].now && state.cleanup.completedAt == Some(state.updatedAt))
  }

  /** Nothing went wrong in this pass but, perhaps, in ending the run. */
  ghost predicate Smooth(p: Pass) {
    p.works && !p.request.BadRequest? && !p.waited.WaitFailed?
  }

  // ----- the loop's own bookkeeping keeps to that

  ghost predicate StopRuns(
    spec: Spec, state: RunState, stop: StopInProgress, killed: bool, passes: seq<Pass>, k: nat)
  {
    && FirstAsks(state.limits.deadlineAt, passes, k)
    && ShowsStop(spec, state, passes[k])
    && stop.deadline == (if spec.windows then passes[k].instant else passes[k].instant + GraceOf(spec, passes[k]))
    && stop.reason == ReasonOf(passes[k])
    && (stop.forceSent <==> Forced(spec, passes, k))
    && (killed <==> Forced(spec, passes, k))
    && state.cleanup.descendantCleanup && (Forced(spec, passes, k) ==> state.cleanup.forceUsed)
  }

  /** State and stop in progress after these passes; `killed` says that the tree was killed in one of them. */
  ghost predicate InStep(
    spec: Spec, state: RunState, stopping: Option<StopInProgress>, killed: bool, passes: seq<Pass>)
  {
    match stopping
    case None =>
      && NobodyAsks(state.limits.deadlineAt, passes) && !killed
      && state.cleanup.requestedAt.None? && state.limits.triggeredAt.None?
    case Some(stop) => exists k: nat :: StopRuns(spec, state, stop, killed, passes, k)
  }

  /** What one pass over the stop logic does: begin a stop, enforce the one in progress, or neither. */
  ghost predicate StopStep(
    spec: Spec, p: Pass, state: RunState, stopping: Option<StopInProgress>, killed: bool,
    state': RunState, stopping': Option<StopInProgress>, killed': bool)
  {
    && state'.limits.deadlineAt == state.limits.deadlineAt
    && match stopping
       case None =>
         if !Asks(state.limits.deadlineAt, p) then
           stopping'.None? && state' == state && killed' == killed
         else
           && stopping' == Some(StopInProgress(
                if spec.windows then p.instant else p.instant + GraceOf(spec, p), spec.windows, ReasonOf(p)))
           && ShowsStop(spec, state', p) && state'.cleanup.descendantCleanup
           && (spec.windows ==> state'.cleanup.forceUsed) && killed' == (killed || spec.windows)
       case Some(stop) =>
         var due := !stop.forceSent && p.instant >= stop.deadline;
         && stopping' == Some(stop.(forceSent := stop.forceSent || due))
         && killed' == (killed || due)
         && state'.limits == state.limits
         && state'.cleanup.requestedAt == state.cleanup.requestedAt && state'.cleanup.grace == state.cleanup.grace
         && state'.cleanup.forceUsed == (state.cleanup.forceUsed || due)
         && (state.cleanup.descendantCleanup ==> state'.cleanup.descendantCleanup)
  }

  lemma PassStaysInStep(
    spec: Spec, p: Pass, state: RunState, stopping: Option<StopInProgress>, killed: bool,
    state': RunState, stopping': Option<StopInProgress>, killed': bool, passes: seq<Pass>)
    requires InStep(spec, state, stopping, killed, passes)
    requires StopStep(spec, p, state, stopping, killed, state', stopping', killed')
    ensures InStep(spec, state', stopping', killed', passes + [p])
  {
    var more, n := passes + [p], |passes|;
    assert more[n] == p && forall j :: 0 <= j < n ==> more[j] == passes[j];
    if stopping.None? {
      if Asks(state.limits.deadlineAt, p) {
        assert StopRuns(spec, state', stopping'.value, killed', more, n);
      }
    } else {
      var k: nat :| StopRuns(spec, state, stopping.value, killed, passes, k);
      if Forced(spec, passes, k) && !spec.windows {
        var m :| k < m < n && passes[m].instant >= passes[k].instant + GraceOf(spec, passes[k]);
        assert more[m] == passes[m];
      }
      ForcedGrows(spec, passes, p, k);
      assert StopRuns(spec, state', stopping'.value, killed', more, k);
    }
  }

  lemma ForcedGrows(spec: Spec, passes: seq<Pass>, p: Pass, k: nat)
    requires k < |passes|
    ensures Forced(spec, passes + [p], k) <==>
              Forced(spec, passes, k) || p.instant >= passes[k].instant + GraceOf(spec, passes[k])
  {
    var more, n := passes + [p], |passes|;
    assert more[n] == p;
    forall m | k < m < n ensures more[m] == passes[m] {
    }
    if Forced(spec, passes, k) && !spec.windows {
      var m :| k < m < n && passes[m].instant >= passes[k].instant + GraceOf(spec, passes[k]);
      assert more[m].instant >= more[k].instant + GraceOf(spec, more[k]);
    }
    if p.instant >= passes[k].instant + GraceOf(spec, passes[k]) {
      assert more[n].instant >= more[k].instant + GraceOf(spec, more[k]);
    }
  }

  /** So the document of a run that goes on tells its passes. */
  lemma InStepIsTold(
    spec: Spec, state: RunState, stopping: Option<StopInProgress>, killed: bool, passes: seq<Pass>)
    requires InStep(spec, state, stopping, killed, passes)
    requires if stopping.Some? then state.status.Stopping? else state.status.Running?
    ensures Told(spec, state, passes, false)
    ensures killed <==> exists k: nat :: FirstAsks(state.limits.deadlineAt, passes, k) && Forced(spec, passes, k)
  {
    if stopping.Some? {
      var k: nat :| StopRuns(spec, state, stopping.value, killed, passes, k);
      assert Asks(state.limits.deadlineAt, passes[k]);
      assert forall j: nat :: FirstAsks(state.limits.deadlineAt, passes, j) ==> j == k;
    }
  }

  /** And so does the document that a run ends with: of a stop it keeps all, except that it may be forced at the end. */
  lemma EndIsTold(
    spec: Spec, state: RunState, stopping: Option<StopInProgress>, killed: bool, passes: seq<Pass>, end: RunState)
    requires InStep(spec, state, stopping, killed, passes)
    requires end.limits == state.limits
    requires end.cleanup.requestedAt == state.cleanup.requestedAt && end.cleanup.grace == state.cleanup.grace
    requires state.cleanup.forceUsed ==> end.cleanup.forceUsed
    requires state.cleanup.descendantCleanup ==> end.cleanup.descendantCleanup
    requires end.exit.Some?
    requires if stopping.Some? then end.status.Stopped? && end.exit.value.reason == stopping.value.reason
             else end.status.Exited? && end.exit.value.reason.ProcessExited?
    ensures Told(spec, end, passes, true)
  {
    if stopping.Some? {
      var k: nat :| StopRuns(spec, state, stopping.value, killed, passes, k);
      assert Asks(end.limits.deadlineAt, passes[k]);
    }
  }
}
