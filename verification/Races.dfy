/** Where clients conclude too much: interleavings in which an observation misleads, and exactly when it cannot. */
module Races {
  import opened Wrappers
  import opened Model
  import opened SupervisorTrace
  import opened Leases
  import opened Protocol
  import opened Guarantees
  import Cli

  // ----- the looks a client takes over a run of the system

  function NewLook(before: Observer, after: Observer): seq<(string, View)> {
    if !before.Done? && after.Done? then [(after.id, after.view)] else []
  }

  /** The observations client `o` completes, in order. */
  function Looks(w: World, actions: seq<Action>, o: nat): seq<(string, View)>
    decreases |actions|
  {
    if actions == [] then []
    else
      var w' := Apply(w, actions[0]);
      NewLook(w.Observer(o), w'.Observer(o)) + Looks(w', actions[1..], o)
  }

  lemma {:induction false} LooksSnoc(w: World, actions: seq<Action>, a: Action, o: nat)
    ensures Looks(w, actions + [a], o)
         == Looks(w, actions, o) + NewLook(RunAll(w, actions).Observer(o), Apply(RunAll(w, actions), a).Observer(o))
    decreases |actions|
  {
    hide Apply, NewLook;
    if actions == [] {
      assert (actions + [a])[1..] == [];
    } else {
      LooksSnoc(Apply(w, actions[0]), actions[1..], a, o);
      assert (actions + [a])[1..] == actions[1..] + [a];
    }
  }

  lemma DoneStays(w: World, a: Action, o: nat)
    requires Enabled(w, a) && w.Observer(o).Done? && Apply(w, a).Observer(o).Done?
    ensures Apply(w, a).Observer(o) == w.Observer(o)
  {
    hide Coherent, Allowed;
  }

  /** A client that has just looked shows its last look. */
  lemma {:induction false} LastLook(w: World, actions: seq<Action>, o: nat)
    requires Runs(w, actions) && RunAll(w, actions).Observer(o).Done?
    ensures var looks, x := Looks(w, actions, o), RunAll(w, actions).Observer(o);
            if looks == [] then w.Observer(o) == x else looks[|looks| - 1] == (x.id, x.view)
    decreases |actions|
  {
    hide Apply, Enabled;
    if actions == [] {
    } else {
      var w' := Apply(w, actions[0]);
      LastLook(w', actions[1..], o);
      if w.Observer(o).Done? && w'.Observer(o).Done? {
        DoneStays(w, actions[0], o);
      }
    }
  }

  // ----- a free lock

  /** Whoever reads `first` and then finds the lock free may conclude that the supervisor has ended. */
  ghost predicate Trustworthy(first: RunStatus, terminal: bool) {
    forall actions: seq<Action>, o: nat ::
      && Runs(NOTHING, actions) && Viewed(RunAll(NOTHING, actions), o, false, terminal)
      && RunAll(NOTHING, actions).Observer(o).view.first == first
      ==> Ended(RunAll(NOTHING, actions), RunAll(NOTHING, actions).Observer(o).id)
  }

  ghost predicate Ended(w: World, id: string) {
    id in w.runs && w.runs[id].phase.lock.Freed?
  }

  /**
   * The exact condition. A free lock proves that the supervisor has ended, for live and for terminal views, if and
   * only if the state read before the probe was no longer `created`.
   */
  lemma FreeLockMeansEnded(first: RunStatus, terminal: bool)
    ensures Trustworthy(first, terminal) <==> !first.Created?
  {
    hide Runs, RunAll, Ended;
    if first.Created? {
      if terminal {
        var actions := EndSeenTooEarly();
        assert !Trustworthy(first, terminal);
      } else {
        var actions := FalseOrphan();
        assert !Trustworthy(first, terminal);
      }
    } else {
      forall actions: seq<Action>, o: nat
        | Runs(NOTHING, actions) && Viewed(RunAll(NOTHING, actions), o, false, terminal)
          && RunAll(NOTHING, actions).Observer(o).view.first == first
        ensures Ended(RunAll(NOTHING, actions), RunAll(NOTHING, actions).Observer(o).id)
      {
        LateProbeIsRight(actions, o, terminal);
      }
    }
  }

  lemma LateProbeIsRight(actions: seq<Action>, o: nat, terminal: bool)
    requires Runs(NOTHING, actions) && Viewed(RunAll(NOTHING, actions), o, false, terminal)
    requires !RunAll(NOTHING, actions).Observer(o).view.first.Created?
    ensures Ended(RunAll(NOTHING, actions), RunAll(NOTHING, actions).Observer(o).id)
  {
    var w := RunAll(NOTHING, actions);
    EveryWorldIsSane(actions);
    assert ObserverOk(w, o, w.Observer(o));
  }

  // ----- what `start` makes of its looks

  /** The polls of `start` that gave these looks; only the last may be late, or it would not have gone on. */
  function Polls(looks: seq<(string, View)>, late: bool): seq<Cli.Look> {
    seq(|looks|, i requires 0 <= i < |looks| => Cli.Look(Ok(ViewOf(looks[i].1)), late && i == |looks| - 1))
  }

  /** The last of these polls is the one at which `start` ends, with this answer. */
  predicate EndsWith(polls: seq<Cli.Look>, answer: Cli.Outcome) {
    && polls != [] && !Cli.StartGoesOn(polls, |polls| - 1) && Cli.StartAnswer(polls, |polls| - 1) == answer
    && forall j :: 0 <= j < |polls| - 1 ==> Cli.StartGoesOn(polls, j)
  }

  /**
   * Over this run of the system client `o`, polling run `id` as `start` does, has just concluded that the supervisor
   * exited; `first` is the status its last look read first.
   */
  ghost predicate ConcludesExit(actions: seq<Action>, o: nat, id: string, late: bool, first: RunStatus) {
    && Runs(NOTHING, actions) && RunAll(NOTHING, actions).Observer(o).Done?
    && var looks := Looks(NOTHING, actions, o);
       && looks != [] && looks[|looks| - 1].1.first == first
       && (forall l :: l in looks ==> l.0 == id)
       && EndsWith(Polls(looks, late), Cli.Rejected("supervisor_exit"))
  }

  /** Whenever `start` concludes an exit from a look that read `first` first, the supervisor has ended. */
  ghost predicate ExitIsRight(first: RunStatus) {
    forall actions: seq<Action>, o: nat, id: string, late: bool ::
      ConcludesExit(actions, o, id, late, first) ==> Ended(RunAll(NOTHING, actions), id)
  }

  /** The exact condition: `start` is right about an exit if and only if its last look did not read `created` first. */
  lemma StartVerdictIsExact(first: RunStatus)
    ensures ExitIsRight(first) <==> !first.Created?
  {
    hide Runs, RunAll, Looks, Polls, EndsWith, Ended;
    if first.Created? {
      var actions := StartMissesItsSupervisor();
      assert ConcludesExit(actions, 0, ID, false, first);
    } else {
      forall actions: seq<Action>, o: nat, id: string, late: bool | ConcludesExit(actions, o, id, late, first)
        ensures Ended(RunAll(NOTHING, actions), id)
      {
        LateExitIsRight(actions, o, id, late, first);
      }
    }
  }

  lemma LateExitIsRight(actions: seq<Action>, o: nat, id: string, late: bool, first: RunStatus)
    requires ConcludesExit(actions, o, id, late, first) && !first.Created?
    ensures Ended(RunAll(NOTHING, actions), id)
  {
    hide Runs, RunAll, Looks;
    var looks, x := Looks(NOTHING, actions, o), RunAll(NOTHING, actions).Observer(o);
    LastLook(NOTHING, actions, o);
    assert looks[|looks| - 1] == (x.id, x.view) && x.id == id;
    ExitMeansOrphan(Polls(looks, late));
    LateProbeIsRight(actions, o, false);
  }

  lemma ExitMeansOrphan(polls: seq<Cli.Look>)
    requires EndsWith(polls, Cli.Rejected("supervisor_exit")) && polls[|polls| - 1].view.Ok?
    ensures polls[|polls| - 1].view.value.Orphaned()
  {
  }

  // ----- one run and two clients, `start` and another

  const ID := "run_0"

  /** The one run of `w`, and how far its two clients are. */
  ghost predicate Is(w: World, run: Run, start: Observer, other: Observer) {
    && w.runs == map[ID := run] && w.registry == [] && w.use == Unlocked
    && w.Observer(0) == start && w.Observer(1) == other
  }

  ghost predicate Reaches(
    actions: seq<Action>, run: Run, start: Observer, other: Observer, looks: seq<(string, View)>)
  {
    && Runs(NOTHING, actions) && Is(RunAll(NOTHING, actions), run, start, other)
    && Looks(NOTHING, actions, 0) == looks
  }

  /** One more step, of which it is known where it leads. */
  lemma Moves(
    actions: seq<Action>, run: Run, start: Observer, other: Observer, looks: seq<(string, View)>, a: Action,
    run': Run, start': Observer, other': Observer)
    requires Reaches(actions, run, start, other, looks)
    requires Enabled(RunAll(NOTHING, actions), a)
    requires Is(Apply(RunAll(NOTHING, actions), a), run', start', other')
    ensures Reaches(actions + [a], run', start', other', looks + NewLook(start, start'))
  {
    hide Enabled, Apply, Runs, RunAll, Looks;
    RunsSnoc(NOTHING, actions, a);
    LooksSnoc(NOTHING, actions, a, 0);
  }

  lemma Reading(w: World, run: Run, other: Observer)
    requires Is(w, run, Idle, other) && !run.removed
    ensures Enabled(w, Read(0, ID)) && Is(Apply(w, Read(0, ID)), run, Seen(ID, run.phase.durable), other)
  {
  }

  lemma ProbingFree(w: World, run: Run, first: RunState, other: Observer)
    requires Is(w, run, Seen(ID, first), other) && !run.removed && run.holder.Nobody?
    ensures Enabled(w, Protocol.Probe(0))
    ensures Is(Apply(w, Protocol.Probe(0)), run.(holder := Client(0)),
               Observer.Probing(ID, first, !run.phase.lock.NotYet?), other)
  {
  }

  lemma ProbingHeld(w: World, run: Run, first: RunState, other: Observer)
    requires Is(w, run, Seen(ID, first), other) && !run.removed && !run.holder.Nobody?
    ensures Enabled(w, Protocol.Probe(0))
    ensures Is(Apply(w, Protocol.Probe(0)), run,
               Done(ID, View(first.status, first, true), !run.phase.lock.NotYet?), other)
  {
  }

  lemma Unlocking0(w: World, run: Run, first: RunState, locked: bool, other: Observer)
    requires Is(w, run, Observer.Probing(ID, first, locked), other) && run.holder == Client(0) && first.status.IsLive()
    ensures Enabled(w, Unlock(0))
    ensures Is(Apply(w, Unlock(0)), run.(holder := Nobody), Rereading(ID, first, locked), other)
  {
  }

  lemma Rereading0(w: World, run: Run, first: RunState, locked: bool, other: Observer)
    requires Is(w, run, Rereading(ID, first, locked), other) && !run.removed
    ensures Enabled(w, Reread(0))
    ensures Is(Apply(w, Reread(0)), run, Done(ID, View(first.status, run.phase.durable, false), locked), other)
  {
  }

  lemma Leaving(w: World, run: Run, view: View, locked: bool, other: Observer)
    requires Is(w, run, Done(ID, view, locked), other)
    ensures Enabled(w, Leave(0)) && Is(Apply(w, Leave(0)), run, Idle, other)
  {
  }

  lemma Acting(w: World, run: Run, start: Observer, other: Observer, e: Event)
    requires Is(w, run, start, other) && run.launched && !run.removed && Allowed(run.phase, e)
    requires !e.ReservedPorts? && e != ReleasedPorts(true) && !e.FreedLock? && (e.TookLock? ==> run.holder.Nobody?)
    ensures Enabled(w, Act(ID, e))
    ensures Is(Apply(w, Act(ID, e)),
               run.(phase := Next(run.phase, e), holder := if e.TookLock? then Holder.Supervisor else run.holder),
               start, other)
  {
    hide Coherent;
  }

  lemma OtherReads(w: World, run: Run, start: Observer)
    requires Is(w, run, start, Idle) && !run.removed
    ensures Enabled(w, Read(1, ID)) && Is(Apply(w, Read(1, ID)), run, start, Seen(ID, run.phase.durable))
  {
  }

  lemma OtherProbes(w: World, run: Run, start: Observer, first: RunState)
    requires Is(w, run, start, Seen(ID, first)) && !run.removed && run.holder.Nobody?
    ensures Enabled(w, Protocol.Probe(1))
    ensures Is(Apply(w, Protocol.Probe(1)), run.(holder := Client(1)), start,
               Observer.Probing(ID, first, !run.phase.lock.NotYet?))
  {
  }

  lemma OtherUnlocks(w: World, run: Run, start: Observer, first: RunState, locked: bool)
    requires Is(w, run, start, Observer.Probing(ID, first, locked)) && run.holder == Client(1) && first.status.IsLive()
    ensures Enabled(w, Unlock(1))
    ensures Is(Apply(w, Unlock(1)), run.(holder := Nobody), start, Rereading(ID, first, locked))
  {
  }

  // ----- a young run

  function Sample(): RunState {
    RunState(
      Created, 0, [], None, None, None, None, NewReadiness([], 1, 0), LeaseState([], []),
      RunLimits(None, None, 0, None), CleanupInfo(None, None, None, false, false), NewLogSummary(1))
  }

  lemma SampleIsCreated()
    ensures JustCreated(Sample())
  {
  }

  /** Launched, but not yet scheduled. */
  function Young(): Run {
    Run(true, PhaseAfter(Sample(), []), Nobody, [], false)
  }

  lemma JustLaunched() returns (actions: seq<Action>)
    ensures Reaches(actions, Young(), Idle, Idle, [])
  {
    SampleIsCreated();
    hide JustCreated, Coherent;
    var create, launch := Create(ID, Sample()), Launch(ID);
    var w1 := Apply(NOTHING, create);
    assert Enabled(NOTHING, create) && Enabled(w1, launch);
    assert w1.Observer(0) == Idle && Is(Apply(w1, launch), Young(), Idle, Idle);
    hide Enabled, Apply, Is;
    actions := [create, launch];
    RunsTwo(NOTHING, create, launch);
    LooksSnoc(NOTHING, [], create, 0);
    LooksSnoc(NOTHING, [create], launch, 0);
    RunsOne(NOTHING, create);
    assert [] + [create] == [create] && [create] + [launch] == actions;
  }

  /** From an idle client to one that has found the lock free and is about to read again. */
  lemma LooksAtFreeLock(before: seq<Action>, run: Run, other: Observer, looks: seq<(string, View)>)
    returns (actions: seq<Action>)
    requires Reaches(before, run, Idle, other, looks)
    requires !run.removed && run.holder.Nobody? && run.phase.durable.status.IsLive()
    ensures Reaches(actions, run, Rereading(ID, run.phase.durable, !run.phase.lock.NotYet?), other, looks)
  {
    hide Enabled, Apply, Runs, RunAll, Looks, Is;
    var first, locked, held := run.phase.durable, !run.phase.lock.NotYet?, run.(holder := Client(0));
    var seen, probing := Seen(ID, first), Observer.Probing(ID, first, locked);
    Reading(RunAll(NOTHING, before), run, other);
    Moves(before, run, Idle, other, looks, Read(0, ID), run, seen, other);
    actions := before + [Read(0, ID)];
    ProbingFree(RunAll(NOTHING, actions), run, first, other);
    Moves(actions, run, seen, other, looks + [], Protocol.Probe(0), held, probing, other);
    actions := actions + [Protocol.Probe(0)];
    Unlocking0(RunAll(NOTHING, actions), held, first, locked, other);
    Moves(actions, held, probing, other, looks + [] + [], Unlock(0), run, Rereading(ID, first, locked), other);
    actions := actions + [Unlock(0)];
    assert looks + [] + [] + [] == looks && held.(holder := Nobody) == run;
  }

  lemma LooksAgain(
    before: seq<Action>, run: Run, first: RunState, locked: bool, other: Observer, looks: seq<(string, View)>)
    returns (actions: seq<Action>)
    requires Reaches(before, run, Rereading(ID, first, locked), other, looks) && !run.removed
    ensures var view := View(first.status, run.phase.durable, false);
            Reaches(actions, run, Done(ID, view, locked), other, looks + [(ID, view)])
  {
    hide Enabled, Apply, Runs, RunAll, Looks, Is;
    var done := Done(ID, View(first.status, run.phase.durable, false), locked);
    Rereading0(RunAll(NOTHING, before), run, first, locked, other);
    Moves(before, run, Rereading(ID, first, locked), other, looks, Reread(0), run, done, other);
    actions := before + [Reread(0)];
  }

  lemma Acts(before: seq<Action>, run: Run, start: Observer, other: Observer, looks: seq<(string, View)>, e: Event)
    returns (actions: seq<Action>)
    requires Reaches(before, run, start, other, looks) && run.launched && !run.removed && Allowed(run.phase, e)
    requires !e.ReservedPorts? && e != ReleasedPorts(true) && !e.FreedLock? && (e.TookLock? ==> run.holder.Nobody?)
    ensures Reaches(
              actions,
              run.(phase := Next(run.phase, e), holder := if e.TookLock? then Holder.Supervisor else run.holder),
              start, other, looks)
  {
    hide Enabled, Apply, Runs, RunAll, Looks, Is, Allowed;
    Acting(RunAll(NOTHING, before), run, start, other, e);
    var run' := run.(phase := Next(run.phase, e), holder := if e.TookLock? then Holder.Supervisor else run.holder);
    Moves(before, run, start, other, looks, Act(ID, e), run', start, other);
    actions := before + [Act(ID, e)];
    assert looks + [] == looks;
  }

  function Taken(): Run {
    Run(true, Next(PhaseAfter(Sample(), []), TookLock), Holder.Supervisor, [], false)
  }

  /** A client finds the lock of a new run free before its supervisor comes to take it; only then does it come. */
  lemma ProbedTooEarly() returns (actions: seq<Action>)
    ensures Reaches(actions, Taken(), Rereading(ID, Sample(), false), Idle, [])
  {
    hide Reaches;
    actions := JustLaunched();
    actions := LooksAtFreeLock(actions, Young(), Idle, []);
    actions := Acts(actions, Young(), Rereading(ID, Sample(), false), Idle, [], TookLock);
  }

  /** Such a client reports an orphan although a healthy supervisor holds the lock. */
  lemma FalseOrphan() returns (actions: seq<Action>)
    ensures Runs(NOTHING, actions) && Viewed(RunAll(NOTHING, actions), 0, false, false)
    ensures RunAll(NOTHING, actions).Observer(0).view.first.Created?
    ensures RunAll(NOTHING, actions).Observer(0).id == ID && !Ended(RunAll(NOTHING, actions), ID)
  {
    actions := ProbedTooEarly();
    actions := LooksAgain(actions, Taken(), Sample(), false, Idle, []);
    hide Runs, RunAll, Looks;
  }

  function SampleFailed(): RunState {
    Sample().(status := Failed, exit := Some(ExitInfo(None, SupervisorFailed)), failure := Some(FailureInfo("io")))
  }

  /** Or it reports a terminal, inactive run while the supervisor is still there. */
  lemma EndSeenTooEarly() returns (actions: seq<Action>)
    ensures Runs(NOTHING, actions) && Viewed(RunAll(NOTHING, actions), 0, false, true)
    ensures RunAll(NOTHING, actions).Observer(0).view.first.Created?
    ensures RunAll(NOTHING, actions).Observer(0).id == ID && !Ended(RunAll(NOTHING, actions), ID)
  {
    actions := ProbedTooEarly();
    assert Coherent(SampleFailed());
    hide Coherent, Runs, RunAll, Looks;
    actions := Acts(actions, Taken(), Rereading(ID, Sample(), false), Idle, [], Persisted(SampleFailed()));
    var failed := Taken().(phase := Next(Taken().phase, Persisted(SampleFailed())));
    actions := LooksAgain(actions, failed, Sample(), false, Idle, []);
  }

  // ----- how `start` is misled

  function SampleStarting(): RunState {
    Sample().(status := RunStatus.Starting)
  }

  function SampleRunning(): RunState {
    Sample().(status := RunStatus.Running, processPid := Some(1))
  }

  function Healthy(): Run {
    var taken := Taken();
    taken.(phase := Next(Next(Next(taken.phase, Persisted(SampleStarting())), Spawned), Persisted(SampleRunning())))
  }

  /** The supervisor that comes late brings the child up before the client reads again. */
  lemma ComesUpMeanwhile() returns (actions: seq<Action>)
    ensures Reaches(actions, Healthy(), Rereading(ID, Sample(), false), Idle, [])
  {
    var start := Rereading(ID, Sample(), false);
    assert Coherent(SampleStarting()) && Coherent(SampleRunning());
    hide Reaches, Coherent;
    actions := ProbedTooEarly();
    var run := Taken();
    actions := Acts(actions, run, start, Idle, [], Persisted(SampleStarting()));
    run := run.(phase := Next(run.phase, Persisted(SampleStarting())));
    actions := Acts(actions, run, start, Idle, [], Spawned);
    run := run.(phase := Next(run.phase, Spawned));
    actions := Acts(actions, run, start, Idle, [], Persisted(SampleRunning()));
  }

  /**
   * With nobody else around: `start` reads `created`, finds the lock free, its supervisor comes and brings the child
   * up, and the second read shows a running, inactive run. `start` reports an exit of a supervisor in good health.
   */
  lemma StartMissesItsSupervisor() returns (actions: seq<Action>)
    ensures ConcludesExit(actions, 0, ID, false, Created)
    ensures var w := RunAll(NOTHING, actions);
            && ID in w.runs && w.runs[ID].phase.lock.Held? && w.runs[ID].phase.durable.status.Running?
            && !Ended(w, ID)
  {
    actions := ComesUpMeanwhile();
    actions := LooksAgain(actions, Healthy(), Sample(), false, Idle, []);
    hide Runs, RunAll, Looks, EndsWith, Polls, Coherent;
    var looks := Looks(NOTHING, actions, 0);
    assert looks == [(ID, View(Created, SampleRunning(), false))];
    InactiveRunIsGivenUp();
  }

  lemma InactiveRunIsGivenUp()
    ensures EndsWith(Polls([(ID, View(Created, SampleRunning(), false))], false), Cli.Rejected("supervisor_exit"))
  {
  }

  /** Another client's probe is what `start` first takes for its supervisor; then both find the lock free. */
  lemma SeesAnothersProbe() returns (actions: seq<Action>)
    ensures var yes, no := View(Created, Sample(), true), View(Created, Sample(), false);
            Reaches(actions, Young(), Done(ID, no, false), Rereading(ID, Sample(), false), [(ID, yes), (ID, no)])
  {
    var first, run := Sample(), Young();
    var held, yes := run.(holder := Client(1)), View(Created, first, true);
    var probing, again := Observer.Probing(ID, first, false), Rereading(ID, first, false);
    actions := JustLaunched();
    hide Enabled, Apply, Runs, RunAll, Looks, Is;
    OtherReads(RunAll(NOTHING, actions), run, Idle);
    Moves(actions, run, Idle, Idle, [], Read(1, ID), run, Idle, Seen(ID, first));
    actions := actions + [Read(1, ID)];
    OtherProbes(RunAll(NOTHING, actions), run, Idle, first);
    Moves(actions, run, Idle, Seen(ID, first), [] + [], Protocol.Probe(1), held, Idle, probing);
    actions := actions + [Protocol.Probe(1)];
    Reading(RunAll(NOTHING, actions), held, probing);
    Moves(actions, held, Idle, probing, [] + [] + [], Read(0, ID), held, Seen(ID, first), probing);
    actions := actions + [Read(0, ID)];
    ProbingHeld(RunAll(NOTHING, actions), held, first, probing);
    Moves(actions, held, Seen(ID, first), probing, [] + [] + [] + [], Protocol.Probe(0), held,
          Done(ID, yes, false), probing);
    actions := actions + [Protocol.Probe(0)];
    assert [] + [] + [] + [] + [(ID, yes)] == [(ID, yes)];
    actions := TurnsInactive(actions, yes);
  }

  lemma TurnsInactive(before: seq<Action>, yes: View) returns (actions: seq<Action>)
    requires Reaches(before, Young().(holder := Client(1)), Done(ID, yes, false), Observer.Probing(ID, Sample(), false),
                     [(ID, yes)])
    ensures var no := View(Created, Sample(), false);
            Reaches(actions, Young(), Done(ID, no, false), Rereading(ID, Sample(), false), [(ID, yes), (ID, no)])
  {
    hide Enabled, Apply, Runs, RunAll, Looks, Is;
    var first, run, done := Sample(), Young(), Done(ID, yes, false);
    var held := run.(holder := Client(1));
    var probing, again := Observer.Probing(ID, first, false), Rereading(ID, first, false);
    OtherUnlocks(RunAll(NOTHING, before), held, done, first, false);
    Moves(before, held, done, probing, [(ID, yes)], Unlock(1), run, done, again);
    actions := before + [Unlock(1)];
    Leaving(RunAll(NOTHING, actions), run, yes, false, again);
    Moves(actions, run, done, again, [(ID, yes)] + [], Leave(0), run, Idle, again);
    actions := actions + [Leave(0)];
    assert [(ID, yes)] + [] + [] == [(ID, yes)];
    actions := LooksAtFreeLock(actions, run, again, [(ID, yes)]);
    actions := LooksAgain(actions, run, first, false, again, [(ID, yes)]);
    assert [(ID, yes)] + [(ID, View(Created, first, false))] == [(ID, yes), (ID, View(Created, first, false))];
  }

  /**
   * A held lock proves nothing: a concurrent probe holds it too. `start` sees its new run active, then inactive, and
   * reports an exit before the supervisor has even taken its lock; it is about to.
   */
  lemma StartMayBeFooled() returns (actions: seq<Action>)
    ensures ConcludesExit(actions, 0, ID, false, Created)
    ensures var w := RunAll(NOTHING, actions);
            && ID in w.runs && w.runs[ID].phase.lock.NotYet? && Enabled(w, Act(ID, TookLock))
            && !Ended(w, ID)
  {
    actions := SeesAnothersProbe();
    hide Runs, RunAll, Looks;
    var yes, no := View(Created, Sample(), true), View(Created, Sample(), false);
    var polls := Polls([(ID, yes), (ID, no)], false);
    assert Cli.StartGoesOn(polls, 0);
    assert polls[0].view.Ok? && polls[0].view.value.active;
    assert Cli.SeenActive(polls, 1);
    assert EndsWith(polls, Cli.Rejected("supervisor_exit"));
  }
}
