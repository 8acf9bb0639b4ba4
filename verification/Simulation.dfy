/**
 * Why `Protocol` speaks of the supervisor's code: what the registry's methods promise is what its steps do, and every
 * trace a supervisor may leave is a run of it.
 */
module Simulation {
  import opened Wrappers
  import opened Model
  import opened SupervisorTrace
  import opened Leases
  import opened Protocol
  import opened Guarantees

  /** What probes of the entries' locks report while nobody moves. */
  function ProbeFlags(w: World): seq<bool> {
    seq(|w.registry|, i requires 0 <= i < |w.registry| => !LockIsFree(w, w.registry[i].runId))
  }

  /** `w` with run `id` in a phase, and the registry as the run's own reservation and release leave it. */
  function Progress(w: World, id: string, phase: Phase, added: seq<Entry>): World {
    var held := if phase.reserved then added else [];
    w.(runs := w.runs[id := Run(true, phase, if phase.lock.Held? then Holder.Supervisor else Nobody, held, false)],
       registry := RegistryAfter(w.registry, ProbeFlags(w), added, id, phase.reserved, phase.released))
  }

  /** Run `id` was just launched in `w`, and nobody is using the registry. */
  ghost predicate Ready(w: World, id: string, created: RunState) {
    && id in w.runs && w.runs[id] == Run(true, PhaseAfter(created, []), Nobody, [], false)
    && w.use == Unlocked && NoneOf(w.registry, id)
  }

  lemma EventActs(w: World, id: string, phase: Phase, added: seq<Entry>, e: Event)
    requires w.use == Unlocked && Allowed(phase, e) && !e.ReservedPorts? && e != ReleasedPorts(true)
    ensures Enabled(Progress(w, id, phase, added), Act(id, e))
    ensures Apply(Progress(w, id, phase, added), Act(id, e)) == Progress(w, id, Next(phase, e), added)
  {
    hide Coherent, RegistryAfter;
    var v := Progress(w, id, phase, added);
    assert Apply(v, Act(id, e)).runs == Progress(w, id, Next(phase, e), added).runs;
  }

  function ProbedTo(v: World, id: string, k: nat): World
    requires k <= |v.registry|
  {
    v.(use := Reserving(id, ProbeFlags(v)[..k], false))
  }

  /** One entry is probed, in one step or, if its lock is free and there, in two. */
  lemma OneEntryIsProbed(v: World, id: string, k: nat) returns (actions: seq<Action>)
    requires k < |v.registry|
    ensures Runs(ProbedTo(v, id, k), actions)
    ensures RunAll(ProbedTo(v, id, k), actions) == ProbedTo(v, id, k + 1)
  {
    hide Coherent, Allowed, Fresh, Kept, Others;
    var w, run := ProbedTo(v, id, k), v.registry[k].runId;
    var probed := Apply(w, ProbeEntry(id));
    assert Enabled(w, ProbeEntry(id));
    assert ProbeFlags(v)[..k + 1] == ProbeFlags(v)[..k] + [!LockIsFree(v, run)];
    if LockIsFree(v, run) && Readable(v, run) {
      assert probed == SetHolder(v, run, Pruner(id)).(use := Reserving(id, ProbeFlags(v)[..k], true));
      assert Enabled(probed, EndProbe(id));
      assert Apply(probed, EndProbe(id)).runs == v.runs;
      actions := [ProbeEntry(id), EndProbe(id)];
      RunsTwo(w, ProbeEntry(id), EndProbe(id));
    } else {
      actions := [ProbeEntry(id)];
      RunsOne(w, ProbeEntry(id));
    }
  }

  lemma {:induction false} EntriesAreProbed(v: World, id: string, k: nat) returns (actions: seq<Action>)
    requires k <= |v.registry|
    ensures Runs(ProbedTo(v, id, 0), actions)
    ensures RunAll(ProbedTo(v, id, 0), actions) == ProbedTo(v, id, k)
  {
    hide Enabled, Apply, ProbedTo;
    if k == 0 {
      actions := [];
    } else {
      actions := EntriesAreProbed(v, id, k - 1);
      var last := OneEntryIsProbed(v, id, k - 1);
      RunsJoin(ProbedTo(v, id, 0), actions, last);
      actions := actions + last;
    }
  }

  /**
   * `ReservePorts` happens: in every world in which a run may reserve, its whole contract, for the flags the probes
   * report and with the entries it adds, is what locking the registry, probing every entry and committing do.
   */
  lemma ReservationHappens(v: World, id: string, names: seq<string>, added: seq<Entry>) returns (actions: seq<Action>)
    requires id in v.runs && v.use == Unlocked && Allowed(v.runs[id].phase, ReservedPorts)
    requires Fresh(added, Kept(v.registry, ProbeFlags(v)), id, names)
    ensures Runs(v, actions)
    ensures RunAll(v, actions)
         == SetRun(v, id, v.runs[id].(phase := Next(v.runs[id].phase, ReservedPorts), held := added)).(
              registry := Kept(v.registry, ProbeFlags(v)) + added)
  {
    assert ProbeFlags(v)[..0] == [] && ProbeFlags(v)[..|v.registry|] == ProbeFlags(v);
    assert Enabled(v, LockRegistry(id, true)) && Apply(v, LockRegistry(id, true)) == ProbedTo(v, id, 0);
    var full, commit := ProbedTo(v, id, |v.registry|), CommitReservation(id, names, added);
    assert Enabled(full, commit);
    ghost var after := Apply(full, commit);
    assert after == SetRun(v, id, v.runs[id].(phase := Next(v.runs[id].phase, ReservedPorts), held := added)).(
                      registry := Kept(v.registry, ProbeFlags(v)) + added);
    hide Enabled, Apply, ProbedTo, Fresh, Kept, ProbeFlags, Allowed;
    RunsOne(v, LockRegistry(id, true));
    var probes := EntriesAreProbed(v, id, |v.registry|);
    RunsJoin(v, [LockRegistry(id, true)], probes);
    RunsSnoc(v, [LockRegistry(id, true)] + probes, commit);
    actions := [LockRegistry(id, true)] + probes + [commit];
  }

  /** And `Release` happens: it removes exactly the run's own entries. */
  lemma ReleaseHappens(v: World, id: string) returns (actions: seq<Action>)
    requires id in v.runs && v.use == Unlocked && Allowed(v.runs[id].phase, ReleasedPorts(true))
    ensures Runs(v, actions)
    ensures RunAll(v, actions)
         == SetPhase(v, id, Next(v.runs[id].phase, ReleasedPorts(true))).(registry := Others(v.registry, id))
  {
    hide Coherent, Others;
    var locked := v.(use := Releasing(id));
    assert Enabled(v, LockRegistry(id, false)) && Apply(v, LockRegistry(id, false)) == locked;
    assert Enabled(locked, CommitRelease(id));
    assert Apply(locked, CommitRelease(id))
        == SetPhase(v, id, Next(v.runs[id].phase, ReleasedPorts(true))).(registry := Others(v.registry, id));
    hide Enabled, Apply;
    actions := [LockRegistry(id, false), CommitRelease(id)];
    RunsTwo(v, LockRegistry(id, false), CommitRelease(id));
  }

  lemma FlagsStay(w: World, id: string, phase: Phase, added: seq<Entry>)
    requires NoneOf(w.registry, id) && !phase.reserved && !phase.released
    ensures Progress(w, id, phase, added).registry == w.registry
    ensures ProbeFlags(Progress(w, id, phase, added)) == ProbeFlags(w)
  {
    UntouchedRegistry(w.registry, ProbeFlags(w), added, id);
    hide RegistryAfter;
    var v := Progress(w, id, phase, added);
    forall i | 0 <= i < |w.registry| ensures ProbeFlags(v)[i] == ProbeFlags(w)[i] {
      assert w.registry[i] in w.registry;
    }
  }

  lemma ReleaseProgresses(w: World, id: string, phase: Phase, added: seq<Entry>)
    ensures var v := Progress(w, id, phase, added);
            && id in v.runs && v.runs[id].phase == phase
            && SetPhase(v, id, Next(phase, ReleasedPorts(true))).(registry := Others(v.registry, id))
            == Progress(w, id, Next(phase, ReleasedPorts(true)), added)
  {
    hide RegistryAfter, Others;
    var v, next := Progress(w, id, phase, added), Next(phase, ReleasedPorts(true));
    ReleasedRegistry(w.registry, ProbeFlags(w), added, id, phase.reserved, phase.released);
    assert SetPhase(v, id, next).runs == Progress(w, id, next, added).runs;
  }

  /**
   * Whatever a supervisor's code does in a world at rest, with the entries it reserved there, is a run of this system
   * that leaves the registry as `Supervise` promises; so what is proved of all worlds covers it.
   */
  lemma {:induction false} EveryTraceHappens(
    w: World, id: string, created: RunState, trace: seq<Event>, names: seq<string>, added: seq<Entry>)
    returns (actions: seq<Action>)
    requires Ready(w, id, created) && Accepts(created, trace)
    requires PhaseAfter(created, trace).reserved ==> Fresh(added, Kept(w.registry, ProbeFlags(w)), id, names)
    ensures Runs(w, actions) && RunAll(w, actions) == Progress(w, id, PhaseAfter(created, trace), added)
    decreases |trace|
  {
    hide Coherent, Enabled, Apply, Allowed, Next, Fresh, Kept, RegistryAfter, ProbeFlags, Progress, SetPhase;
    if trace == [] {
      actions := [];
      NothingHappenedYet(w, id, created, added);
    } else {
      var e, before := trace[|trace| - 1], trace[..|trace| - 1];
      var phase := PhaseAfter(created, before);
      StepAdvances(phase, e);
      ReleasedWasTried(created, before);
      actions := EveryTraceHappens(w, id, created, before, names, added);
      var more := EventHappens(w, id, phase, e, names, added);
      RunsJoin(w, actions, more);
      actions := actions + more;
    }
  }

  lemma NothingHappenedYet(w: World, id: string, created: RunState, added: seq<Entry>)
    requires Ready(w, id, created)
    ensures Progress(w, id, PhaseAfter(created, []), added) == w
  {
    UntouchedRegistry(w.registry, ProbeFlags(w), added, id);
    assert Progress(w, id, PhaseAfter(created, []), added).runs == w.runs;
  }

  lemma EventHappens(w: World, id: string, phase: Phase, e: Event, names: seq<string>, added: seq<Entry>)
    returns (actions: seq<Action>)
    requires w.use == Unlocked && NoneOf(w.registry, id) && Allowed(phase, e)
    requires phase.released ==> phase.releaseTried
    requires Next(phase, e).reserved ==> Fresh(added, Kept(w.registry, ProbeFlags(w)), id, names)
    ensures Runs(Progress(w, id, phase, added), actions)
    ensures RunAll(Progress(w, id, phase, added), actions) == Progress(w, id, Next(phase, e), added)
  {
    var v := Progress(w, id, phase, added);
    hide Coherent, Enabled, Apply, Fresh, Kept, RegistryAfter, ProbeFlags;
    if e.ReservedPorts? {
      FlagsStay(w, id, phase, added);
      actions := ReservationHappens(v, id, names, added);
      ReservedIsProgress(w, id, phase, added);
    } else if e == ReleasedPorts(true) {
      ReleaseProgresses(w, id, phase, added);
      actions := ReleaseHappens(v, id);
    } else {
      EventActs(w, id, phase, added, e);
      actions := [Act(id, e)];
      RunsOne(v, Act(id, e));
    }
  }

  lemma ReservedIsProgress(w: World, id: string, phase: Phase, added: seq<Entry>)
    requires NoneOf(w.registry, id) && Allowed(phase, ReservedPorts) && !phase.released
    ensures var v, next := Progress(w, id, phase, added), Next(phase, ReservedPorts);
            && id in v.runs
            && SetRun(v, id, v.runs[id].(phase := next, held := added)).(
                 registry := Kept(v.registry, ProbeFlags(v)) + added)
            == Progress(w, id, next, added)
  {
    FlagsStay(w, id, phase, added);
    var v, next := Progress(w, id, phase, added), Next(phase, ReservedPorts);
    assert SetRun(v, id, v.runs[id].(phase := next, held := added)).runs == Progress(w, id, next, added).runs;
  }

  /** Such a world exists for every run that `start` creates: for one, the world with that run alone. */
  lemma LaunchedRunIsReady(id: string, created: RunState) returns (actions: seq<Action>)
    requires JustCreated(created)
    ensures Runs(NOTHING, actions) && Ready(RunAll(NOTHING, actions), id, created)
  {
    hide JustCreated, Coherent;
    actions := [Create(id, created), Launch(id)];
    assert Enabled(NOTHING, Create(id, created)) && Enabled(Apply(NOTHING, Create(id, created)), Launch(id));
    RunsTwo(NOTHING, Create(id, created), Launch(id));
  }
}
