/**
 * Any number of runs on one state root as interleaved steps: supervisors that may crash anywhere, `start`, clients
 * that read state documents and probe supervisor locks, and the port registry under its own lock.
 */
module Protocol {
  import opened Wrappers
  import opened Model
  import opened SupervisorTrace
  import opened Leases

  /** Who holds a run's `supervisor.lock`; a probe takes it too. */
  datatype Holder = Nobody | Supervisor | Client(client: nat) | Pruner(user: string)

  /** `phase.lock` is `Freed` once the supervisor has ended, however it did; `held` is what it reserved. */
  datatype Run = Run(launched: bool, phase: Phase, holder: Holder, held: seq<Entry>, removed: bool)

  /** Who is inside `update_registry`, and what the probes of `prune_stale` have reported so far. */
  datatype RegistryUse =
    | Unlocked
    | Reserving(user: string, active: seq<bool>, probing: bool)
    | Releasing(user: string)

  /** What `observe_state_and_activity` returns, with the status it read first. */
  datatype View = View(first: RunStatus, state: RunState, active: bool)

  /** `locked`: the supervisor had taken its lock when the probe was made. */
  datatype Observer =
    | Idle
    | Seen(id: string, first: RunState)
    | Probing(id: string, first: RunState, locked: bool)
    | Rereading(id: string, first: RunState, locked: bool)
    | Done(id: string, view: View, locked: bool)
    | Rechecking(id: string)
    | Rechecked(id: string)
    | Removing(id: string)

  datatype World = World(
    runs: map<string, Run>,
    registry: seq<Entry>,
    use: RegistryUse,
    observers: map<nat, Observer>)
  {
    function Observer(o: nat): Observer {
      if o in observers then observers[o] else Idle
    }
  }

  datatype Action =
    | Create(id: string, created: RunState)
    | Launch(id: string)
    | LaunchFails(id: string, failed: Option<RunState>)
    | Act(id: string, event: Event)
    | Crash(id: string)
    | LockRegistry(id: string, reserving: bool)
    | ProbeEntry(id: string)
    | EndProbe(id: string)
    | CommitReservation(id: string, names: seq<string>, added: seq<Entry>)
    | CommitRelease(id: string)
    | AbandonRegistry(id: string)
    | Read(o: nat, id: string)
    | Probe(o: nat)
    | Unlock(o: nat)
    | Reread(o: nat)
    | Recheck(o: nat)
    | Confirm(o: nat)
    | Remove(o: nat)
    | Leave(o: nat)

  const NOTHING := World(map[], [], Unlocked, map[])

  predicate Using(use: RegistryUse, id: string) {
    !use.Unlocked? && use.user == id
  }

  predicate Readable(w: World, id: string) {
    id in w.runs && !w.runs[id].removed
  }

  /** What `prune_stale` finds of an entry's lock: held by anyone, or free, or gone with its run. */
  predicate LockIsFree(w: World, id: string) {
    Readable(w, id) ==> w.runs[id].holder.Nobody?
  }

  ghost predicate Enabled(w: World, a: Action) {
    match a
    case Create(id, created) => id !in w.runs && JustCreated(created)
    case Launch(id) => id in w.runs && !w.runs[id].launched && w.runs[id].phase.lock.NotYet?
    case LaunchFails(id, failed) =>
      && id in w.runs && !w.runs[id].launched && w.runs[id].phase.lock.NotYet?
      && (failed.Some? ==> failed.value.status.Failed? && Coherent(failed.value))
    case Act(id, event) =>
      && id in w.runs && w.runs[id].launched && !Using(w.use, id) && Allowed(w.runs[id].phase, event)
      && !event.ReservedPorts? && event != ReleasedPorts(true)
      && (event.TookLock? ==> w.runs[id].holder.Nobody? && !w.runs[id].removed)
    case Crash(id) => id in w.runs && w.runs[id].launched && !w.runs[id].phase.lock.Freed?
    case LockRegistry(id, reserving) =>
      && id in w.runs && w.use.Unlocked?
      && Allowed(w.runs[id].phase, if reserving then ReservedPorts else ReleasedPorts(true))
    case ProbeEntry(id) =>
      && w.use.Reserving? && w.use.user == id && !w.use.probing && |w.use.active| < |w.registry|
    case EndProbe(id) => w.use.Reserving? && w.use.user == id && w.use.probing
    case CommitReservation(id, names, added) =>
      && w.use.Reserving? && w.use.user == id && !w.use.probing && |w.use.active| == |w.registry|
      && Fresh(added, Kept(w.registry, w.use.active), id, names)
    case CommitRelease(id) => w.use == Releasing(id)
    case AbandonRegistry(id) => Using(w.use, id) && (w.use.Reserving? ==> !w.use.probing)
    case Read(o, id) => w.Observer(o).Idle? && Readable(w, id)
    case Probe(o) => w.Observer(o).Seen? && Readable(w, w.Observer(o).id)
    case Unlock(o) => w.Observer(o).Probing? || w.Observer(o).Rechecking?
    case Reread(o) => w.Observer(o).Rereading? && Readable(w, w.Observer(o).id)
    case Recheck(o) =>
      && w.Observer(o).Done? && !w.Observer(o).view.active && w.Observer(o).view.state.status.IsTerminal()
      && Readable(w, w.Observer(o).id) && w.runs[w.Observer(o).id].holder.Nobody?
    case Confirm(o) =>
      && w.Observer(o).Rechecked? && Readable(w, w.Observer(o).id)
      && w.runs[w.Observer(o).id].phase.durable.status.IsTerminal()
    case Remove(o) => w.Observer(o).Removing? && Readable(w, w.Observer(o).id)
    case Leave(o) => !w.Observer(o).Idle?
  }

  // ----- the effect of each action

  function SetRun(w: World, id: string, run: Run): World {
    w.(runs := w.runs[id := run])
  }

  function SetHolder(w: World, id: string, holder: Holder): World {
    if id in w.runs then SetRun(w, id, w.runs[id].(holder := holder)) else w
  }

  function SetPhase(w: World, id: string, phase: Phase): World {
    if id in w.runs then SetRun(w, id, w.runs[id].(phase := phase)) else w
  }

  function SetObserver(w: World, o: nat, observer: Observer): World {
    w.(observers := w.observers[o := observer])
  }

  /** A holder lets go of a run's lock, or loses it because its process ended. */
  function LetGo(w: World, id: string, holder: Holder): World {
    if id in w.runs && w.runs[id].holder == holder then SetHolder(w, id, Nobody) else w
  }

  /** The run whose lock `prune_stale` is probing. */
  function Probee(w: World): string
    requires w.use.Reserving? && |w.use.active| < |w.registry|
  {
    w.registry[|w.use.active|].runId
  }

  function Apply(w: World, a: Action): World {
    match a
    case Create(id, created) =>
      SetRun(w, id, Run(false, PhaseAfter(created, []), Nobody, [], false))
    case Launch(id) => if id in w.runs then SetRun(w, id, w.runs[id].(launched := true)) else w
    case LaunchFails(id, failed) =>
      if id !in w.runs then w else
      var p := w.runs[id].phase;
      SetPhase(w, id, p.(lock := Lock.Freed, durable := if failed.Some? then failed.value else p.durable))
    case Act(id, event) => if id in w.runs then Acted(w, id, event) else w
    case Crash(id) => if id in w.runs then Crashed(w, id) else w
    case LockRegistry(id, reserving) => w.(use := if reserving then Reserving(id, [], false) else Releasing(id))
    case ProbeEntry(id) => if w.use.Reserving? && |w.use.active| < |w.registry| then EntryProbed(w) else w
    case EndProbe(id) =>
      if w.use.Reserving? && |w.use.active| < |w.registry| then
        LetGo(w, Probee(w), Pruner(id)).(use := w.use.(probing := false, active := w.use.active + [false]))
      else w
    case CommitReservation(id, names, added) =>
      if id in w.runs && w.use.Reserving? && |w.use.active| == |w.registry| then
        var run := w.runs[id];
        SetRun(w, id, run.(phase := Next(run.phase, ReservedPorts), held := added)).(
          registry := Kept(w.registry, w.use.active) + added, use := Unlocked)
      else w
    case CommitRelease(id) =>
      if id in w.runs then
        SetPhase(w, id, Next(w.runs[id].phase, ReleasedPorts(true))).(
          registry := Others(w.registry, id), use := Unlocked)
      else w
    case AbandonRegistry(id) => w.(use := Unlocked)
    case Read(o, id) => if id in w.runs then SetObserver(w, o, Seen(id, w.runs[id].phase.durable)) else w
    case Probe(o) => if w.Observer(o).Seen? && w.Observer(o).id in w.runs then Probed(w, o) else w
    case Unlock(o) => Unlocking(w, o)
    case Reread(o) =>
      var seen := w.Observer(o);
      if seen.Rereading? && seen.id in w.runs then
        SetObserver(w, o, Done(seen.id, View(seen.first.status, w.runs[seen.id].phase.durable, false), seen.locked))
      else w
    case Recheck(o) =>
      var done := w.Observer(o);
      if done.Done? then SetObserver(SetHolder(w, done.id, Client(o)), o, Rechecking(done.id)) else w
    case Confirm(o) => if w.Observer(o).Rechecked? then SetObserver(w, o, Removing(w.Observer(o).id)) else w
    case Remove(o) =>
      var removing := w.Observer(o);
      if removing.Removing? && removing.id in w.runs then
        SetObserver(SetRun(w, removing.id, w.runs[removing.id].(removed := true)), o, Idle)
      else w
    case Leave(o) =>
      var observer := w.Observer(o);
      SetObserver(
        if observer.Probing? || observer.Rechecking? then LetGo(w, observer.id, Client(o)) else w, o, Idle)
  }

  function Acted(w: World, id: string, event: Event): World
    requires id in w.runs
  {
    var next := w.runs[id].(phase := Next(w.runs[id].phase, event));
    SetRun(w, id, match event
                  case TookLock => next.(holder := Supervisor)
                  case FreedLock => next.(holder := Nobody)
                  case _ => next)
  }

  function Crashed(w: World, id: string): World
    requires id in w.runs
  {
    var ended := LetGo(SetPhase(w, id, w.runs[id].phase.(lock := Lock.Freed)), id, Supervisor);
    if !Using(w.use, id) then ended
    else if w.use.Reserving? && w.use.probing && |w.use.active| < |w.registry| then
      LetGo(ended, Probee(w), Pruner(id)).(use := Unlocked)
    else ended.(use := Unlocked)
  }

  function EntryProbed(w: World): World
    requires w.use.Reserving? && |w.use.active| < |w.registry|
  {
    var id := Probee(w);
    if !LockIsFree(w, id) then w.(use := w.use.(active := w.use.active + [true]))
    else if Readable(w, id) then SetHolder(w.(use := w.use.(probing := true)), id, Pruner(w.use.user))
    else w.(use := w.use.(active := w.use.active + [false]))
  }

  function Probed(w: World, o: nat): World
    requires w.Observer(o).Seen? && w.Observer(o).id in w.runs
  {
    var seen := w.Observer(o);
    var run := w.runs[seen.id];
    var locked := !run.phase.lock.NotYet?;
    if run.holder.Nobody? then SetObserver(SetHolder(w, seen.id, Client(o)), o, Probing(seen.id, seen.first, locked))
    else SetObserver(w, o, Done(seen.id, View(seen.first.status, seen.first, true), locked))
  }

  function Unlocking(w: World, o: nat): World {
    match w.Observer(o)
    case Probing(id, first, locked) =>
      SetObserver(
        LetGo(w, id, Client(o)), o,
        if first.status.IsLive() then Rereading(id, first, locked)
        else Done(id, View(first.status, first, false), locked))
    case Rechecking(id) => SetObserver(LetGo(w, id, Client(o)), o, Rechecked(id))
    case _ => w
  }

  ghost predicate Runs(w: World, actions: seq<Action>)
    decreases |actions|
  {
    actions == [] || (Enabled(w, actions[0]) && Runs(Apply(w, actions[0]), actions[1..]))
  }

  function RunAll(w: World, actions: seq<Action>): World
    decreases |actions|
  {
    if actions == [] then w else RunAll(Apply(w, actions[0]), actions[1..])
  }

  // ----- what holds in every world

  /** The run's ports are its own: reserved, not given back, and its supervisor is there. */
  predicate Holds(run: Run) {
    run.phase.lock.Held? && run.phase.reserved && !run.phase.released
  }

  ghost predicate RunOk(id: string, run: Run) {
    && (run.holder.Supervisor? <==> run.phase.lock.Held?)
    && (run.phase.lock.Held? ==> run.launched)
    && (!run.phase.durable.status.Created? ==> !run.phase.lock.NotYet?)
    && (run.removed ==> run.phase.lock.Freed? && run.phase.durable.status.IsTerminal())
    && (run.phase.durable.status.Exited? || run.phase.durable.status.Stopped? ==> run.phase.released)
    && (run.phase.released ==> run.phase.releaseTried)
    && (run.phase.lock.NotYet? ==> !run.phase.reserved)
    && DistinctPorts(run.held)
    && forall e :: e in run.held ==> e.runId == id
  }

  ghost predicate RunsOk(w: World) {
    forall id :: id in w.runs ==> RunOk(id, w.runs[id])
  }

  ghost predicate Registered(w: World, id: string)
    requires id in w.runs
  {
    && (Holds(w.runs[id]) ==> forall e :: e in w.runs[id].held ==> e in w.registry)
    && (w.runs[id].phase.released || !w.runs[id].phase.reserved ==> NoneOf(w.registry, id))
  }

  ghost predicate RegistryOk(w: World) {
    && DistinctPorts(w.registry)
    && (forall e :: e in w.registry ==> e.runId in w.runs)
    && forall id :: id in w.runs ==> Registered(w, id)
  }

  /** No probe has reported a run inactive that still holds ports. */
  ghost predicate ProbesOk(w: World, active: seq<bool>) {
    && |active| <= |w.registry|
    && forall i {:trigger active[i]} :: 0 <= i < |active| ==>
         w.registry[i].runId in w.runs && Holds(w.runs[w.registry[i].runId]) ==> active[i]
  }

  ghost predicate UseOk(w: World) {
    match w.use
    case Unlocked => true
    case Reserving(user, active, probing) =>
      && user in w.runs && Allowed(w.runs[user].phase, ReservedPorts) && ProbesOk(w, active)
      && (probing ==>
            |active| < |w.registry| && Probee(w) in w.runs && w.runs[Probee(w)].holder == Pruner(user))
    case Releasing(user) => user in w.runs && Allowed(w.runs[user].phase, ReleasedPorts(true))
  }

  ghost predicate SawFirst(run: Run, first: RunState) {
    && (!first.status.Created? ==> !run.phase.lock.NotYet?)
    && (first.status.IsTerminal() ==> run.phase.durable == first)
  }

  ghost predicate Over(run: Run) {
    run.phase.lock.Freed? && run.phase.durable.status.IsTerminal()
  }

  ghost predicate ObserverOk(w: World, o: nat, x: Observer) {
    (!x.Idle? ==> x.id in w.runs) &&
    match x
    case Idle => true
    case Seen(id, first) => SawFirst(w.runs[id], first)
    case Probing(id, first, locked) =>
      && SawFirst(w.runs[id], first) && w.runs[id].holder == Client(o)
      && (locked ==> w.runs[id].phase.lock.Freed?) && (!first.status.Created? ==> locked)
    case Rereading(id, first, locked) =>
      && SawFirst(w.runs[id], first) && first.status.IsLive()
      && (locked ==> w.runs[id].phase.lock.Freed?) && (!first.status.Created? ==> locked)
    case Done(id, view, locked) =>
      && (view.state.status.IsTerminal() ==>
            w.runs[id].phase.durable == view.state && !w.runs[id].phase.lock.NotYet?)
      && (!view.first.Created? ==> locked)
      && (!view.active && locked ==> w.runs[id].phase.lock.Freed? && w.runs[id].phase.durable == view.state)
    case Rechecking(id) => Over(w.runs[id]) && w.runs[id].holder == Client(o)
    case Rechecked(id) => Over(w.runs[id])
    case Removing(id) => Over(w.runs[id])
  }

  ghost predicate ObserversOk(w: World) {
    forall o: nat :: ObserverOk(w, o, w.Observer(o))
  }

  ghost predicate Sane(w: World) {
    RunsOk(w) && RegistryOk(w) && UseOk(w) && ObserversOk(w)
  }

  // ----- one run over one step

  /** A run never goes back, and one whose supervisor has ended does not move at all. */
  ghost predicate Later(before: Run, after: Run) {
    && Advanced(before.phase, after.phase)
    && (before.phase.lock.Freed? ==> after.phase == before.phase)
    && (before.launched ==> after.launched)
    && (before.removed ==> after.removed)
  }

  /** The step by which the holder of a lock lets go of it. */
  predicate LetsGo(a: Action, id: string, holder: Holder) {
    match holder
    case Nobody => true
    case Supervisor => a == Act(id, FreedLock) || a == Crash(id)
    case Client(o) => a == Unlock(o) || a == Leave(o)
    case Pruner(user) => a == EndProbe(user) || a == Crash(user)
  }

  ghost predicate StepOk(w: World, a: Action, w': World, id: string)
    requires id in w.runs
  {
    && id in w'.runs
    && Later(w.runs[id], w'.runs[id])
    && RunOk(id, w'.runs[id])
    && (w'.runs[id].holder == w.runs[id].holder || LetsGo(a, id, w.runs[id].holder))
  }

  predicate ByClient(a: Action) {
    a.Read? || a.Probe? || a.Unlock? || a.Reread? || a.Recheck? || a.Confirm? || a.Remove? || a.Leave?
  }

  predicate InRegistry(a: Action) {
    a.LockRegistry? || a.ProbeEntry? || a.EndProbe? || a.CommitReservation? || a.CommitRelease? || a.AbandonRegistry?
  }

  lemma LetGoStep(w: World, a: Action, id: string, other: string, holder: Holder)
    requires id in w.runs && RunOk(id, w.runs[id]) && !holder.Supervisor? && LetsGo(a, other, holder)
    ensures StepOk(w, a, LetGo(w, other, holder), id)
  {
    hide Coherent;
  }

  lemma RunStepByClient(w: World, a: Action, id: string)
    requires id in w.runs && RunOk(id, w.runs[id]) && Enabled(w, a) && ByClient(a)
    requires !a.Read? ==> ObserverOk(w, a.o, w.Observer(a.o))
    ensures StepOk(w, a, Apply(w, a), id)
  {
    hide Coherent, Allowed, DistinctPorts;
    if a.Unlock? || a.Leave? {
      if !w.Observer(a.o).Idle? {
        LetGoStep(w, a, id, w.Observer(a.o).id, Client(a.o));
      }
    }
  }

  lemma CommitStep(w: World, a: Action, id: string)
    requires id in w.runs && RunOk(id, w.runs[id]) && Enabled(w, a) && UseOk(w)
    requires a.CommitReservation? || a.CommitRelease?
    ensures StepOk(w, a, Apply(w, a), id)
  {
    hide Coherent, Kept, Others, ProbesOk;
  }

  lemma RunStepByRegistry(w: World, a: Action, id: string)
    requires id in w.runs && RunOk(id, w.runs[id]) && Enabled(w, a) && UseOk(w) && InRegistry(a)
    ensures StepOk(w, a, Apply(w, a), id)
  {
    if a.CommitReservation? || a.CommitRelease? {
      CommitStep(w, a, id);
    } else {
      EntryStep(w, a, id);
    }
  }

  lemma EntryStep(w: World, a: Action, id: string)
    requires id in w.runs && RunOk(id, w.runs[id]) && Enabled(w, a)
    requires a.LockRegistry? || a.ProbeEntry? || a.EndProbe? || a.AbandonRegistry?
    ensures StepOk(w, a, Apply(w, a), id)
  {
    hide Coherent, Allowed, DistinctPorts;
  }

  lemma ActStep(w: World, a: Action, id: string)
    requires id in w.runs && RunOk(id, w.runs[id]) && Enabled(w, a) && a.Act? && a.id == id
    ensures StepOk(w, a, Apply(w, a), id)
  {
    hide Coherent, DistinctPorts;
    StepAdvances(w.runs[id].phase, a.event);
  }

  lemma CrashStep(w: World, a: Action, id: string)
    requires id in w.runs && RunOk(id, w.runs[id]) && Enabled(w, a) && a.Crash?
    ensures StepOk(w, a, Apply(w, a), id)
  {
    hide Coherent, DistinctPorts, Allowed;
    var mid := LetGo(SetPhase(w, a.id, w.runs[a.id].phase.(lock := Lock.Freed)), a.id, Supervisor);
    assert StepOk(w, a, mid, id);
    if Using(w.use, a.id) && w.use.Reserving? && w.use.probing && |w.use.active| < |w.registry| {
      LetGoStep(mid, a, id, Probee(w), Pruner(a.id));
    }
  }

  lemma RunStepBySupervisor(w: World, a: Action, id: string)
    requires id in w.runs && RunOk(id, w.runs[id]) && Enabled(w, a) && !ByClient(a) && !InRegistry(a)
    ensures StepOk(w, a, Apply(w, a), id)
  {
    hide Coherent, DistinctPorts, Allowed;
    if a.Crash? {
      CrashStep(w, a, id);
    } else if a.Act? && a.id == id {
      ActStep(w, a, id);
    }
  }

  lemma RunStep(w: World, a: Action, id: string)
    requires RunsOk(w) && UseOk(w) && ObserversOk(w) && Enabled(w, a) && id in w.runs
    ensures StepOk(w, a, Apply(w, a), id)
  {
    hide Coherent, Allowed, StepOk, ObserverOk, RunOk, Apply, Enabled;
    if ByClient(a) {
      RunStepByClient(w, a, id);
    } else if InRegistry(a) {
      RunStepByRegistry(w, a, id);
    } else {
      RunStepBySupervisor(w, a, id);
    }
  }

  lemma RunsStayOk(w: World, a: Action)
    requires RunsOk(w) && UseOk(w) && ObserversOk(w) && Enabled(w, a)
    ensures RunsOk(Apply(w, a))
  {
    hide Coherent, Allowed, RunOk, ObserverOk, UseOk, Apply;
    forall id | id in Apply(w, a).runs ensures RunOk(id, Apply(w, a).runs[id]) {
      if id in w.runs {
        RunStep(w, a, id);
      } else {
        NewRun(w, a, id);
      }
    }
  }

  lemma OnlyCreateAdds(w: World, a: Action, id: string)
    requires Enabled(w, a) && !a.Create? && id !in w.runs
    ensures id !in Apply(w, a).runs
  {
    hide Coherent, Allowed, Fresh, Kept, Others;
    if ByClient(a) {
    } else if InRegistry(a) {
    }
  }

  lemma NewRun(w: World, a: Action, id: string)
    requires Enabled(w, a) && id !in w.runs && id in Apply(w, a).runs
    ensures a.Create? && RunOk(id, Apply(w, a).runs[id])
    ensures Apply(w, a).runs[id] == Run(false, PhaseAfter(a.created, []), Nobody, [], false)
  {
    if a.Create? {
      hide Coherent;
    } else {
      OnlyCreateAdds(w, a, id);
    }
  }

  // ----- observers

  lemma OthersLeaveObserver(w: World, a: Action, o: nat)
    requires Enabled(w, a) && (ByClient(a) ==> a.o != o)
    ensures Apply(w, a).Observer(o) == w.Observer(o)
  {
    hide Coherent, Allowed;
  }

  lemma ObserverKeeps(w: World, a: Action, w': World, o: nat, x: Observer)
    requires ObserverOk(w, o, x) && (ByClient(a) ==> a.o != o)
    requires !x.Idle? ==> StepOk(w, a, w', x.id)
    ensures ObserverOk(w', o, x)
  {
    hide RunOk, Coherent, Allowed;
  }

  lemma ObserverMoves(w: World, a: Action)
    requires RunsOk(w) && Enabled(w, a) && ByClient(a) && ObserverOk(w, a.o, w.Observer(a.o))
    ensures ObserverOk(Apply(w, a), a.o, Apply(w, a).Observer(a.o))
  {
    hide Coherent, Allowed, DistinctPorts;
    var x := w.Observer(a.o);
    if a.Probe? || a.Unlock? {
      ProbeMoves(w, a);
    } else if a.Read? {
      assert RunOk(a.id, w.runs[a.id]);
    } else {
      assert x.id in w.runs ==> RunOk(x.id, w.runs[x.id]);
    }
  }

  lemma ProbeMoves(w: World, a: Action)
    requires Enabled(w, a) && (a.Probe? || a.Unlock?) && ObserverOk(w, a.o, w.Observer(a.o))
    requires w.Observer(a.o).id in w.runs ==> RunOk(w.Observer(a.o).id, w.runs[w.Observer(a.o).id])
    ensures ObserverOk(Apply(w, a), a.o, Apply(w, a).Observer(a.o))
  {
    hide Coherent, Allowed, DistinctPorts;
  }

  lemma ObserversStayOk(w: World, a: Action)
    requires RunsOk(w) && UseOk(w) && ObserversOk(w) && Enabled(w, a)
    ensures ObserversOk(Apply(w, a))
  {
    hide Coherent, Allowed, ObserverOk, RunOk, UseOk, Apply, StepOk, Enabled;
    forall o: nat ensures ObserverOk(Apply(w, a), o, Apply(w, a).Observer(o)) {
      var x := w.Observer(o);
      assert ObserverOk(w, o, x);
      if ByClient(a) && a.o == o {
        ObserverMoves(w, a);
      } else {
        OthersLeaveObserver(w, a, o);
        if !x.Idle? {
          assert x.id in w.runs by { ObserverNamesARun(w, o); }
          RunStep(w, a, x.id);
        }
        ObserverKeeps(w, a, Apply(w, a), o, x);
      }
    }
  }

  lemma ObserverNamesARun(w: World, o: nat)
    requires ObserverOk(w, o, w.Observer(o)) && !w.Observer(o).Idle?
    ensures w.Observer(o).id in w.runs
  {
  }

  // ----- the registry

  ghost predicate NoNewPorts(w: World, w': World, id: string)
    requires id in w.runs && id in w'.runs
  {
    var r, r' := w.runs[id], w'.runs[id];
    && r'.held == r.held && (Holds(r') ==> Holds(r))
    && r'.phase.released == r.phase.released && r'.phase.reserved == r.phase.reserved
  }

  lemma ActTakesNoPorts(w: World, a: Action, id: string)
    requires Enabled(w, a) && id in w.runs && RunOk(id, w.runs[id]) && a.Act?
    ensures id in Apply(w, a).runs && NoNewPorts(w, Apply(w, a), id)
  {
    hide Coherent, DistinctPorts;
  }

  /** Nothing of a run but its lock and whether it is removed is a client's to change. */
  ghost predicate KeepsRun(w: World, w': World, id: string) {
    && id in w.runs && id in w'.runs
    && w'.runs[id].phase == w.runs[id].phase && w'.runs[id].held == w.runs[id].held
  }

  lemma LocksKeepRun(w: World, other: string, holder: Holder, id: string)
    requires id in w.runs
    ensures KeepsRun(w, SetHolder(w, other, holder), id) && KeepsRun(w, LetGo(w, other, holder), id)
  {
  }

  lemma ClientKeepsRun(w: World, a: Action, id: string)
    requires Enabled(w, a) && id in w.runs && ByClient(a)
    ensures KeepsRun(w, Apply(w, a), id)
  {
    var x := w.Observer(a.o);
    if a.Probe? || a.Recheck? || a.Unlock? || a.Leave? {
      if !x.Idle? {
        LocksKeepRun(w, x.id, Client(a.o), id);
      }
      hide SetHolder, LetGo, Coherent;
    } else {
      hide SetHolder, LetGo, Coherent;
    }
  }

  lemma ClientTakesNoPorts(w: World, a: Action, id: string)
    requires Enabled(w, a) && id in w.runs && ByClient(a)
    ensures id in Apply(w, a).runs && NoNewPorts(w, Apply(w, a), id)
  {
    ClientKeepsRun(w, a, id);
    hide Enabled, Apply;
  }

  lemma RegistryKeepsRun(w: World, a: Action, id: string)
    requires Enabled(w, a) && id in w.runs && InRegistry(a) && !a.CommitReservation? && !a.CommitRelease?
    ensures KeepsRun(w, Apply(w, a), id)
  {
    if w.use.Reserving? && |w.use.active| < |w.registry| {
      LocksKeepRun(w, Probee(w), Pruner(w.use.user), id);
      LocksKeepRun(w.(use := w.use.(probing := true)), Probee(w), Pruner(w.use.user), id);
    }
    hide SetHolder, LetGo, Coherent, Allowed, Fresh, Kept, Others;
  }

  lemma RegistryTakesNoPorts(w: World, a: Action, id: string)
    requires Enabled(w, a) && id in w.runs && InRegistry(a) && !a.CommitReservation? && !a.CommitRelease?
    ensures id in Apply(w, a).runs && NoNewPorts(w, Apply(w, a), id)
  {
    RegistryKeepsRun(w, a, id);
    hide Enabled, Apply;
  }

  lemma CrashTakesNoPorts(w: World, a: Action, id: string)
    requires Enabled(w, a) && id in w.runs && a.Crash?
    ensures id in Apply(w, a).runs && NoNewPorts(w, Apply(w, a), id)
  {
    hide Coherent, Allowed;
    assert id in Crashed(w, a.id).runs && Crashed(w, a.id).runs[id].held == w.runs[id].held;
    assert Crashed(w, a.id).runs[id].phase
        == if id == a.id then w.runs[id].phase.(lock := Lock.Freed) else w.runs[id].phase;
  }

  lemma LaunchTakesNoPorts(w: World, a: Action, id: string)
    requires Enabled(w, a) && id in w.runs && (a.Create? || a.Launch? || a.LaunchFails?)
    ensures id in Apply(w, a).runs && NoNewPorts(w, Apply(w, a), id)
  {
    hide Coherent, Allowed;
  }

  /** Only a commit gives a run ports. */
  lemma NoPortsButByCommit(w: World, a: Action, id: string)
    requires Enabled(w, a) && id in w.runs && RunOk(id, w.runs[id])
    requires !a.CommitReservation? && !a.CommitRelease?
    ensures id in Apply(w, a).runs && NoNewPorts(w, Apply(w, a), id)
  {
    hide Enabled, Apply, NoNewPorts, RunOk;
    if a.Act? {
      ActTakesNoPorts(w, a, id);
    } else if ByClient(a) {
      ClientTakesNoPorts(w, a, id);
    } else if InRegistry(a) {
      RegistryTakesNoPorts(w, a, id);
    } else if a.Crash? {
      CrashTakesNoPorts(w, a, id);
    } else {
      LaunchTakesNoPorts(w, a, id);
    }
  }

  lemma RegistryStaysOk(w: World, a: Action)
    requires RunsOk(w) && UseOk(w) && RegistryOk(w) && Enabled(w, a)
    ensures RegistryOk(Apply(w, a))
  {
    hide Coherent, Allowed, RunOk, UseOk, DistinctPorts, Apply, Registered;
    if a.CommitReservation? {
      ReservationStaysOk(w, a);
    } else if a.CommitRelease? {
      ReleaseStaysOk(w, a);
    } else {
      var w' := Apply(w, a);
      assert w'.registry == w.registry by { RegistryFrame(w, a); }
      forall e | e in w'.registry ensures e.runId in w'.runs {
        assert RunOk(e.runId, w.runs[e.runId]);
        NoPortsButByCommit(w, a, e.runId);
      }
      forall id | id in w'.runs ensures Registered(w', id) {
        if id in w.runs {
          assert RunOk(id, w.runs[id]) && Registered(w, id);
          NoPortsButByCommit(w, a, id);
          StillRegistered(w, w', id);
        } else {
          NewRun(w, a, id);
          NewIsRegistered(w', id);
        }
      }
    }
  }

  lemma RegistryFrame(w: World, a: Action)
    requires Enabled(w, a) && !a.CommitReservation? && !a.CommitRelease?
    ensures Apply(w, a).registry == w.registry
  {
    hide Coherent, Allowed;
  }

  lemma StillRegistered(w: World, w': World, id: string)
    requires id in w.runs && id in w'.runs && w'.registry == w.registry
    requires Registered(w, id) && NoNewPorts(w, w', id)
    ensures Registered(w', id)
  {
  }

  lemma NewIsRegistered(w: World, id: string)
    requires id in w.runs && w.runs[id].phase.lock.NotYet? && !w.runs[id].phase.released && NoneOf(w.registry, id)
    ensures Registered(w, id)
  {
  }

  lemma ReservationStaysOk(w: World, a: Action)
    requires RunsOk(w) && UseOk(w) && RegistryOk(w) && Enabled(w, a) && a.CommitReservation?
    ensures RegistryOk(Apply(w, a))
  {
    hide Coherent, Allowed, DistinctPorts, RunOk;
    var w', kept := Apply(w, a), Kept(w.registry, w.use.active);
    KeptStaysDistinct(w.registry, w.use.active);
    FreshStaysDistinct(a.added, kept, a.id, a.names);
    forall id | id in w'.runs ensures Registered(w', id) {
      assert Registered(w, id);
      if id == a.id {
        assert RunOk(id, w.runs[id]);
        OwnReservation(w, a);
      } else {
        OthersKeepTheirs(w, a, id);
      }
    }
  }

  lemma OwnReservation(w: World, a: Action)
    requires UseOk(w) && Enabled(w, a) && a.CommitReservation? && RunOk(a.id, w.runs[a.id])
    ensures a.id in w.runs && Registered(Apply(w, a), a.id)
  {
    hide Coherent, DistinctPorts, Fresh;
  }

  /** Pruning drops no entry of a run that holds its ports. */
  lemma OthersKeepTheirs(w: World, a: Action, id: string)
    requires UseOk(w) && Enabled(w, a) && a.CommitReservation? && id in w.runs && id != a.id
    requires Registered(w, id) && RunOk(id, w.runs[id])
    ensures Registered(Apply(w, a), id)
  {
    hide Coherent, DistinctPorts, Allowed;
    var w', kept := Apply(w, a), Kept(w.registry, w.use.active);
    if Holds(w.runs[id]) {
      forall e | e in w.runs[id].held ensures e in kept {
        var i :| 0 <= i < |w.registry| && w.registry[i] == e;
        assert w.use.active[i];
      }
    }
    if w.runs[id].phase.released || !w.runs[id].phase.reserved {
      forall e | e in w'.registry ensures e.runId != id {
        if e in a.added {
          var i :| 0 <= i < |a.added| && a.added[i] == e;
        }
      }
    }
  }

  /** Of the entries a reservation found it leaves none whose probe reported its lock free, and every other one. */
  lemma ReservationPrunes(w: World, a: Action, i: nat)
    requires Sane(w) && Enabled(w, a) && a.CommitReservation? && i < |w.registry|
    ensures w.use.Reserving? && |w.use.active| == |w.registry|
    ensures w.registry[i] in Apply(w, a).registry <==> w.use.active[i]
  {
    hide Coherent, RunsOk, ObserversOk;
    var e, kept := w.registry[i], Kept(w.registry, w.use.active);
    assert Apply(w, a).registry == kept + a.added;
    var at := KeptIsFiltered(w.registry, w.use.active);
    assert e !in a.added by {
      assert Registered(w, a.id);
      assert e.runId != a.id;
      forall k | 0 <= k < |a.added| ensures a.added[k] != e {
        assert a.added[k].runId == a.id;
      }
    }
    if e in kept {
      var j :| 0 <= j < |kept| && kept[j] == e;
      assert w.registry[at[j]] == e && w.use.active[at[j]];
      assert at[j] == i;
    }
  }

  lemma ReleaseStaysOk(w: World, a: Action)
    requires RunsOk(w) && UseOk(w) && RegistryOk(w) && Enabled(w, a) && a.CommitRelease?
    ensures RegistryOk(Apply(w, a))
  {
    hide Coherent, Allowed, DistinctPorts;
    var w' := Apply(w, a);
    OthersStayDistinct(w.registry, a.id);
    forall id | id in w'.runs ensures Registered(w', id) {
      assert Registered(w, id) && RunOk(id, w.runs[id]);
    }
  }

  // ----- the registry lock

  lemma ProbesStayOk(w: World, w': World, active: seq<bool>)
    requires ProbesOk(w, active) && w'.registry == w.registry
    requires forall id :: id in w.runs ==> id in w'.runs && NoNewPorts(w, w', id)
    requires forall id :: id in w'.runs && id !in w.runs ==> !Holds(w'.runs[id])
    ensures ProbesOk(w', active)
  {
    hide Holds;
    forall i | 0 <= i < |active| && w'.registry[i].runId in w'.runs && Holds(w'.runs[w'.registry[i].runId])
      ensures active[i]
    {
      assert w.registry[i].runId in w.runs;
    }
  }

  /** Whoever is in the registry does nothing else, so its phase stands still. */
  lemma UserStandsStill(w: World, a: Action, id: string)
    requires Enabled(w, a) && Using(w.use, id) && id in w.runs && RunOk(id, w.runs[id])
    requires w.runs[id].phase.lock.Held? && Using(Apply(w, a).use, id)
    ensures id in Apply(w, a).runs && Apply(w, a).runs[id].phase == w.runs[id].phase
  {
    hide Coherent, Allowed, DistinctPorts;
  }

  /**
   * What pruning learns of an entry: in use while anybody holds the lock of its run, and not if that lock is free or
   * gone with its run. The probe of a free lock takes it and gives it back.
   */
  lemma ProbeTellsTheLock(w: World, a: Action)
    requires Enabled(w, a) && a.ProbeEntry?
    ensures var id, probed := w.registry[|w.use.active|].runId, Apply(w, a);
            var there := id in w.runs && !w.runs[id].removed;
            if !there then probed == w.(use := w.use.(active := w.use.active + [false]))
            else if w.runs[id].holder != Nobody then probed == w.(use := w.use.(active := w.use.active + [true]))
            else
              && Enabled(probed, EndProbe(a.id)) && id in probed.runs && probed.runs[id].holder == Pruner(a.id)
              && Apply(probed, EndProbe(a.id)).use == w.use.(active := w.use.active + [false])
              && Apply(probed, EndProbe(a.id)).runs == w.runs
  {
    hide Coherent, Allowed, Fresh, Kept, Others;
    var id, probed := w.registry[|w.use.active|].runId, Apply(w, a);
    if id in w.runs && !w.runs[id].removed && w.runs[id].holder == Nobody {
      assert Apply(probed, EndProbe(a.id)).runs[id] == w.runs[id];
    }
  }

  lemma EntryProbeStaysOk(w: World, a: Action)
    requires RunsOk(w) && UseOk(w) && Enabled(w, a) && a.ProbeEntry?
    ensures UseOk(Apply(w, a))
  {
    hide Coherent, Allowed, DistinctPorts;
    var id := Probee(w);
    assert id in w.runs ==> RunOk(id, w.runs[id]);
    var w' := Apply(w, a);
    assert RunOk(a.id, w.runs[a.id]);
    forall i | 0 <= i < |w'.use.active| && w'.registry[i].runId in w'.runs && Holds(w'.runs[w'.registry[i].runId])
      ensures w'.use.active[i]
    {
      if i < |w.use.active| {
        assert w.use.active[i];
      }
    }
  }

  lemma EndProbeStaysOk(w: World, a: Action)
    requires RunsOk(w) && UseOk(w) && Enabled(w, a) && a.EndProbe?
    ensures UseOk(Apply(w, a))
  {
    hide Coherent, Allowed, DistinctPorts;
    var id := Probee(w);
    assert RunOk(id, w.runs[id]);
    var w' := Apply(w, a);
    forall i | 0 <= i < |w'.use.active| && w'.registry[i].runId in w'.runs && Holds(w'.runs[w'.registry[i].runId])
      ensures w'.use.active[i]
    {
      if i < |w.use.active| {
        assert w.use.active[i];
      }
    }
  }

  lemma UseFrame(w: World, a: Action)
    requires UseOk(w) && Enabled(w, a) && !a.LockRegistry? && !a.ProbeEntry? && !a.EndProbe?
    ensures Apply(w, a).use == w.use || Apply(w, a).use.Unlocked?
    ensures Apply(w, a).use == w.use && !w.use.Unlocked? ==>
              !a.CommitReservation? && !a.CommitRelease? && a != Crash(w.use.user)
  {
    hide Coherent, Allowed;
  }

  lemma UseStaysOk(w: World, a: Action)
    requires RunsOk(w) && UseOk(w) && ObserversOk(w) && Enabled(w, a)
    ensures UseOk(Apply(w, a))
  {
    hide Coherent, RunOk, ObserversOk, Apply, Enabled, ProbesOk, Holds, NoNewPorts, StepOk, Allowed;
    if a.ProbeEntry? {
      EntryProbeStaysOk(w, a);
    } else if a.EndProbe? {
      EndProbeStaysOk(w, a);
    } else if a.LockRegistry? {
      LockingStartsOk(w, a);
    } else {
      UseFrame(w, a);
      if !Apply(w, a).use.Unlocked? {
        UseContinues(w, a);
      }
    }
  }

  lemma LockingStartsOk(w: World, a: Action)
    requires Enabled(w, a) && a.LockRegistry?
    ensures UseOk(Apply(w, a))
  {
    hide Coherent;
  }

  lemma UseContinues(w: World, a: Action)
    requires RunsOk(w) && UseOk(w) && ObserversOk(w) && Enabled(w, a) && !w.use.Unlocked?
    requires Apply(w, a).use == w.use && !a.EndProbe? && !a.CommitReservation? && !a.CommitRelease?
    requires a != Crash(w.use.user)
    ensures UseOk(Apply(w, a))
  {
    hide Coherent, RunOk, ObserversOk, Apply, Enabled, ProbesOk, Holds, NoNewPorts;
    var w', user := Apply(w, a), w.use.user;
    assert RunOk(user, w.runs[user]);
    assert w.runs[user].phase.lock.Held? by { hide Coherent; }
    UserStandsStill(w, a, user);
    RegistryFrame(w, a);
    if w.use.Reserving? {
      forall id | id in w'.runs
        ensures id in w.runs ==> NoNewPorts(w, w', id)
        ensures id !in w.runs ==> !Holds(w'.runs[id])
      {
        if id in w.runs {
          assert RunOk(id, w.runs[id]);
          NoPortsButByCommit(w, a, id);
        } else {
          NewRun(w, a, id);
          NewHoldsNothing(w'.runs[id]);
        }
      }
      forall id | id in w.runs ensures id in w'.runs {
        RunStep(w, a, id);
      }
      ProbesStayOk(w, w', w.use.active);
      if w.use.probing {
        RunStep(w, a, Probee(w));
      }
    }
  }

  lemma NewHoldsNothing(run: Run)
    requires run.phase.lock.NotYet?
    ensures !Holds(run)
  {
  }

  lemma StepStaysSane(w: World, a: Action)
    requires Sane(w) && Enabled(w, a)
    ensures Sane(Apply(w, a))
  {
    hide RunsOk, RegistryOk, UseOk, ObserversOk, Apply, Enabled;
    RunsStayOk(w, a);
    RegistryStaysOk(w, a);
    UseStaysOk(w, a);
    ObserversStayOk(w, a);
  }
}
