/** What a supervisor does in sight of others, in what order it may do so, and what that order guarantees. */
module SupervisorTrace {
  import opened Wrappers
  import opened Model

  datatype Event =
    | TookLock
    | Persisted(state: RunState)
    | ReservedPorts
    | Spawned
    | WroteLog
    | KilledTree
    | ReleasedPorts(ok: bool)
    | FreedLock

  datatype Lock = NotYet | Held | Freed

  datatype Phase = Phase(
    lock: Lock,
    durable: RunState,
    reserved: bool,
    spawned: bool,
    killed: bool,
    releaseTried: bool,
    released: bool)

  ghost predicate PortsReleased(leases: LeaseState) {
    && (forall i {:trigger leases.ports[i]} :: 0 <= i < |leases.ports| ==> leases.ports[i].releasedAt.Some?)
    && (forall i {:trigger leases.temps[i]} :: 0 <= i < |leases.temps| ==> leases.temps[i].releasedAt.Some?)
  }

  /** No lease is left acquired. */
  ghost predicate NothingHeld(leases: LeaseState) {
    && (forall i {:trigger leases.ports[i]} :: 0 <= i < |leases.ports| ==>
          leases.ports[i].acquiredAt.Some? ==> leases.ports[i].releasedAt.Some?)
    && (forall i {:trigger leases.temps[i]} :: 0 <= i < |leases.temps| ==>
          leases.temps[i].acquiredAt.Some? ==> leases.temps[i].releasedAt.Some?)
  }

  predicate StopReason(reason: ExitReason) {
    reason.StopRequested? || reason.RuntimeLimit?
  }

  /** What every state document of a run satisfies. */
  ghost predicate Coherent(state: RunState) {
    && (state.status.Failed? <==> state.failure.Some?)
    && (state.status.IsTerminal() <==> state.exit.Some?)
    && (state.status.Failed? ==> state.exit.value.reason.SpawnFailed? || state.exit.value.reason.SupervisorFailed?)
    && (state.status.Exited? ==> state.exit.value.reason.ProcessExited?)
    && (state.status.Stopped? ==> StopReason(state.exit.value.reason))
    && (state.status.Stopped? ==> (state.exit.value.reason.RuntimeLimit? <==> state.limits.triggeredAt.Some?))
    && (!state.status.Failed? ==>
          (state.cleanup.requestedAt.Some? <==> state.status.Stopping? || state.status.Stopped?))
    && ReadinessAgrees(state.readiness)
    && (state.status.IsTerminal() ==> NothingHeld(state.leases))
    && (state.status.Exited? || state.status.Stopped? ==>
          !state.readiness.status.Pending? && PortsReleased(state.leases) && state.cleanup.completedAt.Some?)
  }

  predicate HasChild(status: RunStatus) {
    status.Running? || status.Stopping? || status.Exited? || status.Stopped?
  }

  /** The lifecycle: which status a state document may have after which. */
  predicate MayFollow(from: RunStatus, to: RunStatus) {
    match from
    case Created => to.Starting? || to.Failed?
    case Starting => to.Starting? || to.Running? || to.Failed?
    case Running => to.Running? || to.Stopping? || to.Exited? || to.Failed?
    case Stopping => to.Stopping? || to.Stopped? || to.Failed?
    case _ => false
  }

  ghost predicate Allowed(p: Phase, e: Event) {
    match e
    case TookLock => p.lock.NotYet?
    case Persisted(state) =>
      && p.lock.Held? && Coherent(state)
      && MayFollow(p.durable.status, state.status)
      && (HasChild(state.status) ==> p.spawned)
      && (state.status.IsTerminal() ==> (p.spawned ==> p.killed) && (p.reserved ==> p.releaseTried))
      && (state.status.Exited? || state.status.Stopped? ==> p.released)
    case ReservedPorts => p.lock.Held? && p.durable.status.IsLive() && !p.spawned && !p.reserved && !p.releaseTried
    case Spawned => p.lock.Held? && p.durable.status.IsLive() && !p.spawned && !p.releaseTried
    case WroteLog => p.lock.Held? && p.durable.status.IsLive() && p.spawned
    case KilledTree => p.lock.Held? && p.durable.status.IsLive() && p.spawned
    case ReleasedPorts(_) => p.lock.Held? && p.durable.status.IsLive() && (p.spawned ==> p.killed)
    case FreedLock => p.lock.Held? && (p.spawned ==> p.killed) && (p.reserved ==> p.releaseTried)
  }

  function Next(p: Phase, e: Event): Phase {
    match e
    case TookLock => p.(lock := Held)
    case Persisted(state) => p.(durable := state)
    case ReservedPorts => p.(reserved := true)
    case Spawned => p.(spawned := true)
    case WroteLog => p
    case KilledTree => p.(killed := true)
    case ReleasedPorts(ok) => p.(releaseTried := true, released := p.released || ok)
    case FreedLock => p.(lock := Freed)
  }

  function PhaseAfter(created: RunState, trace: seq<Event>): Phase {
    if trace == [] then Phase(NotYet, created, false, false, false, false, false)
    else Next(PhaseAfter(created, trace[..|trace| - 1]), trace[|trace| - 1])
  }

  ghost predicate Accepts(created: RunState, trace: seq<Event>) {
    trace == [] ||
    (Accepts(created, trace[..|trace| - 1]) && Allowed(PhaseAfter(created, trace[..|trace| - 1]), trace[|trace| - 1]))
  }

  /** The state `create_run` writes. */
  ghost predicate JustCreated(state: RunState) {
    && state.status.Created? && Coherent(state)
    && state.limits.triggeredAt.None? && state.limits.deadlineAt.None?
    && state.processPid.None?
    && (forall i {:trigger state.leases.ports[i]} :: 0 <= i < |state.leases.ports| ==>
          state.leases.ports[i].acquiredAt.None?)
  }

  /** A live document stays coherent when only its readiness, its log summary and its time change. */
  lemma StaysCoherent(before: RunState, after: RunState)
    requires Coherent(before) && before.status.IsLive() && ReadinessAgrees(after.readiness)
    requires after == before.(readiness := after.readiness, updatedAt := after.updatedAt, logs := after.logs)
    ensures Coherent(after)
  {
  }

  // ----- what a right trace guarantees

  /** Whatever was persisted last is coherent. */
  lemma {:induction false} DurableIsCoherent(created: RunState, trace: seq<Event>)
    requires Accepts(created, trace) && Coherent(created)
    ensures Coherent(PhaseAfter(created, trace).durable)
  {
    hide Coherent;
    if trace == [] {
    } else {
      DurableIsCoherent(created, trace[..|trace| - 1]);
    }
  }

  lemma {:induction false} PrefixAccepted(created: RunState, trace: seq<Event>, n: nat)
    requires Accepts(created, trace) && n <= |trace|
    ensures Accepts(created, trace[..n])
    decreases |trace|
  {
    if n < |trace| {
      PrefixAccepted(created, trace[..|trace| - 1], n);
      assert trace[..|trace| - 1][..n] == trace[..n];
    } else {
      assert trace[..n] == trace;
    }
  }

  /** The event at `n` was allowed where it happened. */
  lemma EventAllowed(created: RunState, trace: seq<Event>, n: nat)
    requires Accepts(created, trace) && n < |trace|
    ensures Accepts(created, trace[..n]) && Allowed(PhaseAfter(created, trace[..n]), trace[n])
    ensures PhaseAfter(created, trace[..n + 1]) == Next(PhaseAfter(created, trace[..n]), trace[n])
  {
    PrefixAccepted(created, trace, n + 1);
    assert trace[..n + 1][..n] == trace[..n];
  }

  /** `q` lies at or after `p`: facts only accumulate, and a terminal state does not change. */
  ghost predicate Advanced(p: Phase, q: Phase) {
    && p.durable.status.Rank() <= q.durable.status.Rank()
    && (p.durable.status.IsTerminal() ==> q.durable == p.durable)
    && (!p.lock.NotYet? ==> !q.lock.NotYet?)
    && (p.reserved ==> q.reserved) && (p.spawned ==> q.spawned) && (p.killed ==> q.killed)
    && (p.releaseTried ==> q.releaseTried) && (p.released ==> q.released)
  }

  lemma StepAdvances(p: Phase, e: Event)
    requires Allowed(p, e)
    ensures Advanced(p, Next(p, e)) && !p.lock.Freed?
  {
    hide Coherent;
  }

  lemma {:induction false} PhasesAdvance(created: RunState, trace: seq<Event>, i: nat, j: nat)
    requires Accepts(created, trace) && i <= j <= |trace|
    ensures Advanced(PhaseAfter(created, trace[..i]), PhaseAfter(created, trace[..j]))
    ensures PhaseAfter(created, trace[..i]).lock.Freed? ==> i == j
    decreases j
  {
    hide Coherent, Allowed, Next;
    if i == j {
    } else {
      PhasesAdvance(created, trace, i, j - 1);
      EventAllowed(created, trace, j - 1);
      StepAdvances(PhaseAfter(created, trace[..j - 1]), trace[j - 1]);
    }
  }

  /** A release that worked was tried. */
  lemma {:induction false} ReleasedWasTried(created: RunState, trace: seq<Event>)
    requires Accepts(created, trace)
    ensures PhaseAfter(created, trace).released ==> PhaseAfter(created, trace).releaseTried
  {
    if trace == [] {
    } else {
      ReleasedWasTried(created, trace[..|trace| - 1]);
    }
  }

  /** A kill is remembered exactly when it happened. */
  lemma {:induction false} KillIsOnTrace(created: RunState, trace: seq<Event>, n: nat) returns (k: nat)
    requires Accepts(created, trace) && n <= |trace| && PhaseAfter(created, trace[..n]).killed
    ensures k < n && trace[k].KilledTree? && PhaseAfter(created, trace[..k]).spawned
  {
    EventAllowed(created, trace, n - 1) by {
      assert trace[..0] == [];
    }
    if trace[n - 1].KilledTree? {
      k := n - 1;
    } else {
      k := KillIsOnTrace(created, trace, n - 1);
    }
  }

  lemma {:induction false} ReleaseIsOnTrace(created: RunState, trace: seq<Event>, n: nat) returns (k: nat)
    requires Accepts(created, trace) && n <= |trace| && PhaseAfter(created, trace[..n]).releaseTried
    ensures k < n && trace[k].ReleasedPorts?
  {
    EventAllowed(created, trace, n - 1) by {
      assert trace[..0] == [];
    }
    if trace[n - 1].ReleasedPorts? {
      k := n - 1;
    } else {
      k := ReleaseIsOnTrace(created, trace, n - 1);
    }
  }

  lemma {:induction false} SpawnIsOnTrace(created: RunState, trace: seq<Event>, n: nat) returns (k: nat)
    requires Accepts(created, trace) && n <= |trace| && PhaseAfter(created, trace[..n]).spawned
    ensures k < n && trace[k].Spawned?
  {
    EventAllowed(created, trace, n - 1) by {
      assert trace[..0] == [];
    }
    if trace[n - 1].Spawned? {
      k := n - 1;
    } else {
      k := SpawnIsOnTrace(created, trace, n - 1);
    }
  }

  /**
   * Cleanup order. After a spawn, no release of the registry, no terminal state and no release of the lock comes
   * without a tree kill in between.
   */
  lemma KillComesFirst(created: RunState, trace: seq<Event>, i: nat, j: nat)
    requires Accepts(created, trace) && i < j < |trace| && trace[i].Spawned?
    requires || trace[j].ReleasedPorts? || trace[j].FreedLock?
             || (trace[j].Persisted? && trace[j].state.status.IsTerminal())
    ensures exists k :: i < k < j && trace[k].KilledTree?
  {
    EventAllowed(created, trace, i);
    EventAllowed(created, trace, j);
    PhasesAdvance(created, trace, i + 1, j);
    var k := KillIsOnTrace(created, trace, j);
    if k <= i {
      PhasesAdvance(created, trace, k, i);
    }
  }

  /** Once ports are reserved, neither a terminal state nor the lock's release comes before a release was tried. */
  lemma ReleaseComesFirst(created: RunState, trace: seq<Event>, i: nat, j: nat)
    requires Accepts(created, trace) && i < j < |trace| && trace[i].ReservedPorts?
    requires trace[j].FreedLock? || (trace[j].Persisted? && trace[j].state.status.IsTerminal())
    ensures exists k :: i < k < j && trace[k].ReleasedPorts?
  {
    EventAllowed(created, trace, i);
    EventAllowed(created, trace, j);
    PhasesAdvance(created, trace, i + 1, j);
    var k := ReleaseIsOnTrace(created, trace, j);
    if k < i {
      EventAllowed(created, trace, k);
      PhasesAdvance(created, trace, k + 1, i);
    }
  }

  /** The persisted status only moves forward, nothing follows a terminal state, and each state is coherent. */
  lemma StatusMovesForward(created: RunState, trace: seq<Event>, i: nat, j: nat)
    requires Accepts(created, trace) && i < j < |trace| && trace[i].Persisted? && trace[j].Persisted?
    ensures trace[i].state.status.IsLive()
    ensures trace[i].state.status.Rank() <= trace[j].state.status.Rank()
    ensures Coherent(trace[i].state) && Coherent(trace[j].state)
    ensures var earlier, later := trace[i].state.status, trace[j].state.status;
            && (earlier.Starting? || earlier.Running? || earlier.Stopping?) && !later.Created?
            && (earlier.Running? || earlier.Stopping? ==> !later.Starting?)
            && (earlier.Stopping? ==> later.Stopping? || later.Stopped? || later.Failed?)
  {
    EventAllowed(created, trace, i);
    EventAllowed(created, trace, j);
    PhasesAdvance(created, trace, i + 1, j);
  }

  /** A state that shows a child, running or gone, is persisted only after a child was spawned. */
  lemma SpawnComesFirst(created: RunState, trace: seq<Event>, j: nat)
    requires Accepts(created, trace) && j < |trace| && trace[j].Persisted? && HasChild(trace[j].state.status)
    ensures exists i :: 0 <= i < j && trace[i].Spawned?
  {
    EventAllowed(created, trace, j);
    var i := SpawnIsOnTrace(created, trace, j);
  }

  /** Nothing but the release of the lock follows a terminal state. */
  lemma TerminalIsLast(created: RunState, trace: seq<Event>, i: nat, j: nat)
    requires Accepts(created, trace) && i < j < |trace| && trace[i].Persisted? && trace[i].state.status.IsTerminal()
    ensures trace[j].FreedLock? && j == |trace| - 1
  {
    EventAllowed(created, trace, i);
    EventAllowed(created, trace, j);
    PhasesAdvance(created, trace, i + 1, j);
    LockSpansTheTrace(created, trace, j);
  }

  /** Nothing is done before the lock is taken or after it is freed, and both happen at most once. */
  lemma LockSpansTheTrace(created: RunState, trace: seq<Event>, i: nat)
    requires Accepts(created, trace) && i < |trace|
    ensures trace[0].TookLock?
    ensures trace[i].TookLock? ==> i == 0
    ensures trace[i].FreedLock? ==> i == |trace| - 1
  {
    assert trace[..0] == [];
    EventAllowed(created, trace, 0);
    EventAllowed(created, trace, i);
    if i > 0 {
      PhasesAdvance(created, trace, 1, i);
    }
    if trace[i].FreedLock? {
      PhasesAdvance(created, trace, i + 1, |trace|);
      assert trace[..|trace|] == trace;
    }
  }

  /** The durable document is the one last persisted. */
  lemma {:induction false} DurableIsOnTrace(created: RunState, trace: seq<Event>, n: nat) returns (k: nat)
    requires Accepts(created, trace) && n <= |trace| && PhaseAfter(created, trace[..n]).durable != created
    ensures k < n && trace[k] == Persisted(PhaseAfter(created, trace[..n]).durable)
  {
    EventAllowed(created, trace, n - 1) by {
      assert trace[..0] == [];
    }
    if trace[n - 1].Persisted? {
      k := n - 1;
    } else {
      k := DurableIsOnTrace(created, trace, n - 1);
    }
  }

  /** A stop is announced: Stopped comes after a persisted Stopping, Exited never does. */
  lemma StopsAreAnnounced(created: RunState, trace: seq<Event>, j: nat)
    requires Accepts(created, trace) && created.status.Created?
    requires j < |trace| && trace[j].Persisted? && (trace[j].state.status.Exited? || trace[j].state.status.Stopped?)
    ensures trace[j].state.status.Stopped? <==>
              exists i :: 0 <= i < j && trace[i].Persisted? && trace[i].state.status.Stopping?
  {
    EventAllowed(created, trace, j);
    if trace[j].state.status.Stopped? {
      var i := DurableIsOnTrace(created, trace, j);
    } else {
      forall i | 0 <= i < j && trace[i].Persisted? ensures !trace[i].state.status.Stopping? {
        EventAllowed(created, trace, i);
        PhasesAdvance(created, trace, i + 1, j);
      }
    }
  }

  /** How a run ended, told every way it can be told, over every trace. */
  lemma EndingsAgree(created: RunState, trace: seq<Event>, j: nat)
    requires Accepts(created, trace) && created.status.Created?
    requires j < |trace| && trace[j].Persisted? && trace[j].state.status.IsTerminal()
    ensures var state := trace[j].state;
            && state.exit.Some?
            && (state.status.Failed? <==> state.failure.Some?)
            && (state.status.Failed? <==>
                  state.exit.value.reason.SpawnFailed? || state.exit.value.reason.SupervisorFailed?)
            && (!state.status.Failed? ==>
                  && (state.status.Stopped? <==> state.cleanup.requestedAt.Some?)
                  && (state.status.Stopped? <==> StopReason(state.exit.value.reason))
                  && (state.status.Stopped? <==>
                        exists i :: 0 <= i < j && trace[i].Persisted? && trace[i].state.status.Stopping?)
                  && !state.readiness.status.Pending? && PortsReleased(state.leases))
            && NothingHeld(state.leases)
  {
    EventAllowed(created, trace, j);
    if !trace[j].state.status.Failed? {
      StopsAreAnnounced(created, trace, j);
    }
  }
}
