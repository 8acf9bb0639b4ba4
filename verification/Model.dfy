/** The durable data of one run: the types of src/model.rs that the other modules work on. */
module Model {
  import opened Wrappers

  const U64_MAX: nat := 0xFFFF_FFFF_FFFF_FFFF

  type byte = x: int | 0 <= x < 256

  /** `u64::saturating_add`. */
  function SatAdd(a: nat, b: nat): nat {
    if a + b <= U64_MAX then a + b else U64_MAX
  }

  /** `u64::saturating_sub`. */
  function SatSub(a: nat, b: nat): nat {
    if b <= a then a - b else 0
  }

  datatype LogStream = Stdout | Stderr

  datatype RunStatus = Created | Starting | Running | Stopping | Exited | Failed | Stopped {
    predicate IsTerminal() {
      Exited? || Failed? || Stopped?
    }

    predicate IsLive() {
      Created? || Starting? || Running? || Stopping?
    }

    /** The position of a status in the lifecycle; the three terminal ones share the last. */
    function Rank(): nat {
      match this
      case Created => 0
      case Starting => 1
      case Running => 2
      case Stopping => 3
      case _ => 4
    }
  }

  /** SHA-256 as a free constructor over the bytes digested: the hash itself is not part of this model. */
  datatype Digest = Sha256(input: seq<byte>)

  datatype LogSummary = LogSummary(
    nextCursor: nat,
    capturedBytes: nat,
    droppedBytes: nat,
    maxBytes: nat,
    stdoutSha256: Option<Digest>,
    stderrSha256: Option<Digest>)

  function NewLogSummary(maxBytes: nat): LogSummary {
    LogSummary(1, 0, 0, maxBytes, None, None)
  }

  datatype ReadinessStatus = NotConfigured | Pending | Ready | TimedOut | ReadinessFailed

  datatype Condition =
    | Tcp(address: string)
    | Http(url: string)
    | File(path: string)
    | Log(literal: seq<byte>)
    | PortLease(name: string)

  /** What a satisfied check rests on: the stream a literal was seen on, or what a probe reported. */
  datatype Evidence = SeenOn(stream: LogStream, at: nat) | Probed(report: string)

  datatype Check = Check(condition: Condition, readyAt: Option<nat>, evidence: Option<Evidence>)

  datatype ReadinessState = ReadinessState(
    status: ReadinessStatus,
    deadlineAt: Option<nat>,
    readyAt: Option<nat>,
    failureReason: Option<string>,
    checks: seq<Check>)

  function NewReadiness(conditions: seq<Condition>, timeout: nat, createdAt: nat): ReadinessState {
    ReadinessState(
      if conditions == [] then NotConfigured else Pending,
      if conditions == [] then None else Some(SatAdd(createdAt, timeout)),
      None,
      None,
      seq(|conditions|, i requires 0 <= i < |conditions| => Check(conditions[i], None, None)))
  }

  /**
   * What every readiness record says of itself: it is ready exactly when there are checks and all of them are, and a
   * check is ready exactly when it has its evidence.
   */
  ghost predicate ReadinessAgrees(readiness: ReadinessState) {
    && (readiness.status.NotConfigured? <==> readiness.checks == [])
    && (readiness.status.Ready? <==>
          readiness.checks != []
          && forall i {:trigger readiness.checks[i]} :: 0 <= i < |readiness.checks| ==>
               readiness.checks[i].readyAt.Some?)
    && (readiness.status.Ready? <==> readiness.readyAt.Some?)
    && (readiness.status.TimedOut? || readiness.status.ReadinessFailed? <==> readiness.failureReason.Some?)
    && forall i {:trigger readiness.checks[i]} :: 0 <= i < |readiness.checks| ==>
         (readiness.checks[i].readyAt.Some? <==> readiness.checks[i].evidence.Some?)
  }

  datatype ExitReason = ProcessExited | SpawnFailed | StopRequested | RuntimeLimit | SupervisorFailed

  datatype ExitInfo = ExitInfo(code: Option<int>, reason: ExitReason)

  datatype FailureInfo = FailureInfo(kind: string)

  datatype PortLeaseState = PortLeaseState(
    name: string,
    port: Option<nat>,
    acquiredAt: Option<nat>,
    handoffAt: Option<nat>,
    handoffGap: Option<nat>,
    releasedAt: Option<nat>)

  datatype TempLeaseState = TempLeaseState(
    name: string,
    path: Option<string>,
    acquiredAt: Option<nat>,
    releasedAt: Option<nat>)

  datatype LeaseState = LeaseState(ports: seq<PortLeaseState>, temps: seq<TempLeaseState>)

  datatype CleanupInfo = CleanupInfo(
    requestedAt: Option<nat>,
    completedAt: Option<nat>,
    grace: Option<nat>,
    forceUsed: bool,
    descendantCleanup: bool)

  datatype RunLimits = RunLimits(
    maxRuntime: Option<nat>,
    deadlineAt: Option<nat>,
    grace: nat,
    triggeredAt: Option<nat>)

  datatype RunState = RunState(
    status: RunStatus,
    updatedAt: nat,
    args: seq<string>,
    supervisorPid: Option<nat>,
    processPid: Option<nat>,
    exit: Option<ExitInfo>,
    failure: Option<FailureInfo>,
    readiness: ReadinessState,
    leases: LeaseState,
    limits: RunLimits,
    cleanup: CleanupInfo,
    logs: LogSummary)
}
