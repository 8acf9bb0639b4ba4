/** What clients may conclude from what they observe, over every interleaving of `Protocol`. */
module Guarantees {
  import opened Wrappers
  import opened Model
  import opened SupervisorTrace
  import opened Leases
  import opened Protocol
  import Cli

  lemma {:induction false} RunsSnoc(w: World, actions: seq<Action>, a: Action)
    requires Runs(w, actions) && Enabled(RunAll(w, actions), a)
    ensures Runs(w, actions + [a]) && RunAll(w, actions + [a]) == Apply(RunAll(w, actions), a)
    decreases |actions|
  {
    hide Enabled, Apply;
    if actions == [] {
      assert (actions + [a])[1..] == [];
    } else {
      RunsSnoc(Apply(w, actions[0]), actions[1..], a);
      assert (actions + [a])[1..] == actions[1..] + [a];
    }
  }

  lemma RunsOne(w: World, a: Action)
    requires Enabled(w, a)
    ensures Runs(w, [a]) && RunAll(w, [a]) == Apply(w, a)
  {
    hide Enabled, Apply;
    assert [a][1..] == [];
  }

  lemma RunsTwo(w: World, a: Action, b: Action)
    requires Enabled(w, a) && Enabled(Apply(w, a), b)
    ensures Runs(w, [a, b]) && RunAll(w, [a, b]) == Apply(Apply(w, a), b)
  {
    hide Enabled, Apply;
    RunsOne(Apply(w, a), b);
    assert [a, b][1..] == [b];
  }

  lemma {:induction false} RunsJoin(w: World, actions: seq<Action>, more: seq<Action>)
    requires Runs(w, actions) && Runs(RunAll(w, actions), more)
    ensures Runs(w, actions + more) && RunAll(w, actions + more) == RunAll(RunAll(w, actions), more)
    decreases |actions|
  {
    hide Enabled, Apply;
    if actions == [] {
      assert actions + more == more;
    } else {
      RunsJoin(Apply(w, actions[0]), actions[1..], more);
      assert (actions + more)[1..] == actions[1..] + more;
    }
  }

  lemma {:induction false} SaneFromHere(w: World, actions: seq<Action>)
    requires Sane(w) && Runs(w, actions)
    ensures Sane(RunAll(w, actions))
    decreases |actions|
  {
    hide Sane, Apply, Enabled;
    if actions == [] {
    } else {
      StepStaysSane(w, actions[0]);
      SaneFromHere(Apply(w, actions[0]), actions[1..]);
    }
  }

  lemma EveryWorldIsSane(actions: seq<Action>)
    requires Runs(NOTHING, actions)
    ensures Sane(RunAll(NOTHING, actions))
  {
    SaneFromHere(NOTHING, actions);
  }

  /**
   * In every reachable world the registry lists a port once, and no two supervisors that have reserved ports and not
   * yet given them back hold the same one.
   */
  lemma PortsAreExclusive(actions: seq<Action>, id1: string, id2: string, e1: Entry, e2: Entry)
    requires Runs(NOTHING, actions)
    requires var w := RunAll(NOTHING, actions);
             && id1 in w.runs && id2 in w.runs
             && Holds(w.runs[id1]) && Holds(w.runs[id2])
             && e1 in w.runs[id1].held && e2 in w.runs[id2].held && e1.port == e2.port
    ensures id1 == id2 && e1 == e2
    ensures DistinctPorts(RunAll(NOTHING, actions).registry)
  {
    hide Enabled, Apply;
    var w := RunAll(NOTHING, actions);
    EveryWorldIsSane(actions);
    assert Registered(w, id1) && Registered(w, id2);
    assert RunOk(id1, w.runs[id1]) && RunOk(id2, w.runs[id2]);
    var i :| 0 <= i < |w.registry| && w.registry[i] == e1;
    var j :| 0 <= j < |w.registry| && w.registry[j] == e2;
  }

  // ----- a run whose supervisor is done

  /** The steps of a run's supervisor, and of the `start` that launches it. */
  predicate ByRun(a: Action, id: string) {
    !ByClient(a) && a.id == id
  }

  lemma EndedDoesNothing(w: World, a: Action, id: string)
    requires Sane(w) && Enabled(w, a) && id in w.runs && w.runs[id].phase.lock.Freed?
    ensures !ByRun(a, id)
  {
    hide Coherent, RegistryOk, ObserversOk, RunsOk, ProbesOk;
  }

  lemma TerminalOnlyLetsGo(w: World, a: Action, id: string)
    requires Sane(w) && Enabled(w, a) && id in w.runs && w.runs[id].phase.durable.status.IsTerminal()
    requires ByRun(a, id)
    ensures a == Act(id, FreedLock) || a == Crash(id)
  {
    hide Coherent, RegistryOk, ObserversOk, ProbesOk;
    assert RunOk(id, w.runs[id]);
  }

  /** Over any run of the system a supervised run only moves forward. */
  lemma {:induction false} RunsAdvance(w: World, actions: seq<Action>, id: string)
    requires Sane(w) && Runs(w, actions) && id in w.runs
    ensures id in RunAll(w, actions).runs
    ensures Later(w.runs[id], RunAll(w, actions).runs[id])
    decreases |actions|
  {
    hide Apply, Enabled, RunsOk, RegistryOk, UseOk, ObserversOk;
    if actions == [] {
    } else {
      var w' := Apply(w, actions[0]);
      StepStaysSane(w, actions[0]);
      RunStep(w, actions[0], id);
      RunsAdvance(w', actions[1..], id);
    }
  }

  lemma {:induction false} EndedIsSilent(w: World, actions: seq<Action>, id: string)
    requires Sane(w) && Runs(w, actions) && id in w.runs && w.runs[id].phase.lock.Freed?
    ensures forall a :: a in actions ==> !ByRun(a, id)
    decreases |actions|
  {
    hide Apply, Enabled, Sane, ByRun;
    if actions == [] {
    } else {
      var w' := Apply(w, actions[0]);
      EndedDoesNothing(w, actions[0], id);
      StepStaysSane(w, actions[0]);
      RunsAdvance(w, [actions[0]], id) by {
        assert [actions[0]][1..] == [];
      }
      assert RunAll(w, [actions[0]]) == w' by {
        assert [actions[0]][1..] == [];
      }
      EndedIsSilent(w', actions[1..], id);
    }
  }

  lemma {:induction false} TerminalIsQuiet(w: World, actions: seq<Action>, id: string)
    requires Sane(w) && Runs(w, actions) && id in w.runs && w.runs[id].phase.durable.status.IsTerminal()
    ensures forall a :: a in actions && ByRun(a, id) ==> a == Act(id, FreedLock) || a == Crash(id)
    decreases |actions|
  {
    hide Apply, Enabled, Sane, ByRun;
    if actions == [] {
    } else {
      var a, w' := actions[0], Apply(w, actions[0]);
      if ByRun(a, id) {
        TerminalOnlyLetsGo(w, a, id);
      }
      StepStaysSane(w, a);
      RunsAdvance(w, [a], id) by {
        assert [a][1..] == [];
      }
      assert RunAll(w, [a]) == w' by {
        assert [a][1..] == [];
      }
      TerminalIsQuiet(w', actions[1..], id);
    }
  }

  // ----- what an observation says

  ghost predicate Viewed(w: World, o: nat, active: bool, terminal: bool) {
    && w.Observer(o).Done?
    && w.Observer(o).view.active == active
    && w.Observer(o).view.state.status.IsTerminal() == terminal
  }

  /** The run keeps this document, and no step of its supervisor comes any more. */
  ghost predicate Settled(w: World, id: string, state: RunState) {
    forall actions: seq<Action> :: Runs(w, actions) ==>
      && id in RunAll(w, actions).runs && RunAll(w, actions).runs[id].phase.durable == state
      && forall a :: a in actions ==> !ByRun(a, id)
  }

  /** The run keeps this document, and all its supervisor may still do is end. */
  ghost predicate IsFinal(w: World, id: string, state: RunState) {
    forall actions: seq<Action> :: Runs(w, actions) ==>
      && id in RunAll(w, actions).runs && RunAll(w, actions).runs[id].phase.durable == state
      && forall a :: a in actions && ByRun(a, id) ==> a == Act(id, FreedLock) || a == Crash(id)
  }

  lemma EndedIsSettled(w: World, id: string)
    requires Sane(w) && id in w.runs && w.runs[id].phase.lock.Freed?
    ensures Settled(w, id, w.runs[id].phase.durable)
  {
    hide Sane, ByRun;
    forall actions: seq<Action> | Runs(w, actions)
      ensures id in RunAll(w, actions).runs
      ensures RunAll(w, actions).runs[id].phase.durable == w.runs[id].phase.durable
      ensures forall a :: a in actions ==> !ByRun(a, id)
    {
      RunsAdvance(w, actions, id);
      EndedIsSilent(w, actions, id);
    }
  }

  lemma TerminalIsFinal(w: World, id: string)
    requires Sane(w) && id in w.runs && w.runs[id].phase.durable.status.IsTerminal()
    ensures IsFinal(w, id, w.runs[id].phase.durable)
  {
    hide Sane, ByRun;
    forall actions: seq<Action> | Runs(w, actions)
      ensures id in RunAll(w, actions).runs
      ensures RunAll(w, actions).runs[id].phase.durable == w.runs[id].phase.durable
      ensures forall a :: a in actions && ByRun(a, id) ==> a == Act(id, FreedLock) || a == Crash(id)
    {
      RunsAdvance(w, actions, id);
      TerminalIsQuiet(w, actions, id);
    }
  }

  /**
   * Orphan soundness. Once the supervisor had taken its lock before the probe, an observation of a live status with a
   * free lock means that the supervisor has ended without a terminal state and that none will ever be written.
   */
  lemma OrphansNeverReturn(actions: seq<Action>, o: nat)
    requires Runs(NOTHING, actions) && Viewed(RunAll(NOTHING, actions), o, false, false)
    requires RunAll(NOTHING, actions).Observer(o).locked
    ensures var w := RunAll(NOTHING, actions);
            var id := w.Observer(o).id;
            && id in w.runs && w.runs[id].phase.lock.Freed?
            && Settled(w, id, w.Observer(o).view.state)
  {
    hide Settled;
    var w := RunAll(NOTHING, actions);
    EveryWorldIsSane(actions);
    assert ObserverOk(w, o, w.Observer(o));
    EndedIsSettled(w, w.Observer(o).id);
  }

  /**
   * Finality. Whoever observes a terminal state holds the final document; its supervisor touches neither state nor
   * log nor registry again. With a free lock, probed after the supervisor had taken it, the supervisor has ended.
   */
  lemma TerminalViewsAreFinal(actions: seq<Action>, o: nat, active: bool)
    requires Runs(NOTHING, actions) && Viewed(RunAll(NOTHING, actions), o, active, true)
    ensures var w := RunAll(NOTHING, actions);
            var id, view := w.Observer(o).id, w.Observer(o).view;
            && IsFinal(w, id, view.state)
            && (!active && w.Observer(o).locked ==> Settled(w, id, view.state))
            && (id in w.runs && (view.state.status.Exited? || view.state.status.Stopped?) ==> NoneOf(w.registry, id))
  {
    hide Settled, IsFinal;
    var w := RunAll(NOTHING, actions);
    EveryWorldIsSane(actions);
    assert ObserverOk(w, o, w.Observer(o));
    var id := w.Observer(o).id;
    TerminalIsFinal(w, id);
    if !active && w.Observer(o).locked {
      EndedIsSettled(w, id);
    }
    assert RunOk(id, w.runs[id]) && Registered(w, id);
  }

  /** `gc` removes only runs that are terminal and whose supervisors have ended, and so removes nothing in use. */
  lemma RemovedRunsAreOver(actions: seq<Action>, id: string)
    requires Runs(NOTHING, actions)
    requires id in RunAll(NOTHING, actions).runs && RunAll(NOTHING, actions).runs[id].removed
    ensures Over(RunAll(NOTHING, actions).runs[id])
    ensures Settled(RunAll(NOTHING, actions), id, RunAll(NOTHING, actions).runs[id].phase.durable)
  {
    hide Settled;
    var w := RunAll(NOTHING, actions);
    EveryWorldIsSane(actions);
    assert RunOk(id, w.runs[id]);
    EndedIsSettled(w, id);
  }

  // ----- every document anyone reads is coherent

  ghost predicate HoldsCoherent(x: Observer) {
    match x
    case Seen(_, first) => Coherent(first)
    case Probing(_, first, _) => Coherent(first)
    case Rereading(_, first, _) => Coherent(first)
    case Done(_, view, _) => Coherent(view.state)
    case _ => true
  }

  ghost predicate AllCoherent(w: World) {
    && (forall id :: id in w.runs ==> Coherent(w.runs[id].phase.durable))
    && forall o: nat :: HoldsCoherent(w.Observer(o))
  }

  lemma NextCoherent(phase: Phase, e: Event)
    requires Coherent(phase.durable) && Allowed(phase, e)
    ensures Coherent(Next(phase, e).durable)
  {
    hide Coherent;
  }

  lemma ActedCoherent(w: World, a: Action, id: string)
    requires AllCoherent(w) && Enabled(w, a) && a.Act? && id in w.runs
    ensures id in Apply(w, a).runs && Coherent(Apply(w, a).runs[id].phase.durable)
  {
    hide Coherent, HoldsCoherent, Allowed, Next;
    NextCoherent(w.runs[a.id].phase, a.event);
  }

  lemma CrashedCoherent(w: World, a: Action, id: string)
    requires AllCoherent(w) && Enabled(w, a) && a.Crash? && id in w.runs
    ensures id in Apply(w, a).runs && Coherent(Apply(w, a).runs[id].phase.durable)
  {
    hide Coherent, HoldsCoherent;
    assert id in Crashed(w, a.id).runs
        && Crashed(w, a.id).runs[id].phase.durable == w.runs[id].phase.durable;
  }

  lemma LaunchedCoherent(w: World, a: Action, id: string)
    requires AllCoherent(w) && Enabled(w, a) && (a.Create? || a.Launch? || a.LaunchFails?) && id in Apply(w, a).runs
    ensures Coherent(Apply(w, a).runs[id].phase.durable)
  {
    hide Coherent, HoldsCoherent;
  }

  lemma RegistryCoherent(w: World, a: Action, id: string)
    requires AllCoherent(w) && Enabled(w, a) && InRegistry(a) && id in w.runs
    ensures id in Apply(w, a).runs && Coherent(Apply(w, a).runs[id].phase.durable)
  {
    hide Coherent, HoldsCoherent, Allowed, Fresh, Kept, Others;
    if !a.CommitReservation? && !a.CommitRelease? {
      RegistryKeepsRun(w, a, id);
      hide Enabled, Apply;
    }
  }

  lemma ClientCoherent(w: World, a: Action, id: string)
    requires AllCoherent(w) && Enabled(w, a) && ByClient(a) && id in w.runs
    ensures id in Apply(w, a).runs && Coherent(Apply(w, a).runs[id].phase.durable)
  {
    hide Coherent, HoldsCoherent, Enabled, Apply;
    ClientKeepsRun(w, a, id);
  }

  lemma ObserverCoherent(w: World, a: Action)
    requires AllCoherent(w) && Enabled(w, a) && ByClient(a)
    ensures HoldsCoherent(Apply(w, a).Observer(a.o))
  {
    hide Coherent, Allowed;
    assert HoldsCoherent(w.Observer(a.o));
  }

  lemma StepStaysCoherent(w: World, a: Action)
    requires AllCoherent(w) && Enabled(w, a)
    ensures AllCoherent(Apply(w, a))
  {
    hide Coherent, HoldsCoherent, Enabled, Apply;
    forall id | id in Apply(w, a).runs ensures Coherent(Apply(w, a).runs[id].phase.durable) {
      if a.Create? || a.Launch? || a.LaunchFails? {
        LaunchedCoherent(w, a, id);
      } else {
        if id !in w.runs {
          OnlyCreateAdds(w, a, id);
        } else if a.Act? {
          ActedCoherent(w, a, id);
        } else if a.Crash? {
          CrashedCoherent(w, a, id);
        } else if InRegistry(a) {
          RegistryCoherent(w, a, id);
        } else {
          ClientCoherent(w, a, id);
        }
      }
    }
    forall o: nat ensures HoldsCoherent(Apply(w, a).Observer(o)) {
      if ByClient(a) && a.o == o {
        ObserverCoherent(w, a);
      } else {
        OthersLeaveObserver(w, a, o);
        assert HoldsCoherent(w.Observer(o));
      }
    }
  }

  lemma {:induction false} CoherentFromHere(w: World, actions: seq<Action>)
    requires AllCoherent(w) && Runs(w, actions)
    ensures AllCoherent(RunAll(w, actions))
    decreases |actions|
  {
    hide AllCoherent, Apply, Enabled;
    if actions == [] {
    } else {
      StepStaysCoherent(w, actions[0]);
      CoherentFromHere(Apply(w, actions[0]), actions[1..]);
    }
  }

  /**
   * `wait --for ready` tells the truth: whatever else goes on, in the document it returns every check is ready and
   * names its evidence, and the run was active or has ended.
   */
  lemma WaitForReadyIsReady(actions: seq<Action>, o: nat)
    requires Runs(NOTHING, actions) && RunAll(NOTHING, actions).Observer(o).Done?
    requires Cli.Judge(Cli.UntilReady, ViewOf(RunAll(NOTHING, actions).Observer(o).view)).Satisfied?
    ensures var view := RunAll(NOTHING, actions).Observer(o).view;
            && (view.active || view.state.status.IsTerminal())
            && view.state.readiness.checks != []
            && forall i :: 0 <= i < |view.state.readiness.checks| ==>
                 && view.state.readiness.checks[i].readyAt.Some?
                 && view.state.readiness.checks[i].evidence.Some?
  {
    CoherentFromHere(NOTHING, actions);
    assert HoldsCoherent(RunAll(NOTHING, actions).Observer(o));
  }

  // ----- what the commands conclude

  /** Client `o` knows nothing of a finished run but its final document. */
  ghost predicate KnowsTheEnd(w: World, o: nat, id: string) {
    var x := w.Observer(o);
    && id in w.runs && w.runs[id].phase.durable.status.IsTerminal()
    && (x.Seen? || x.Probing? || x.Rereading? ==> x.id == id ==> x.first == w.runs[id].phase.durable)
    && (x.Done? ==> x.id == id ==> x.view.state == w.runs[id].phase.durable)
  }

  lemma StillKnowsTheEnd(w: World, a: Action, o: nat, id: string)
    requires Sane(w) && Enabled(w, a) && KnowsTheEnd(w, o, id)
    ensures KnowsTheEnd(Apply(w, a), o, id)
  {
    hide Coherent, Allowed, RunsOk, RegistryOk, UseOk, ObserversOk;
    RunStep(w, a, id);
    if ByClient(a) && a.o == o {
      OwnStepKnowsTheEnd(w, a, id);
    } else {
      OthersLeaveObserver(w, a, o);
    }
  }

  lemma OwnStepKnowsTheEnd(w: World, a: Action, id: string)
    requires Enabled(w, a) && ByClient(a) && KnowsTheEnd(w, a.o, id)
    requires id in Apply(w, a).runs && Apply(w, a).runs[id].phase.durable == w.runs[id].phase.durable
    ensures KnowsTheEnd(Apply(w, a), a.o, id)
  {
    hide Coherent, Allowed;
  }

  lemma {:induction false} AlwaysKnowsTheEnd(w: World, actions: seq<Action>, o: nat, id: string)
    requires Sane(w) && Runs(w, actions) && KnowsTheEnd(w, o, id)
    ensures KnowsTheEnd(RunAll(w, actions), o, id)
    decreases |actions|
  {
    hide Sane, Enabled, Apply, KnowsTheEnd;
    if actions == [] {
    } else {
      StillKnowsTheEnd(w, actions[0], o, id);
      StepStaysSane(w, actions[0]);
      AlwaysKnowsTheEnd(Apply(w, actions[0]), actions[1..], o, id);
    }
  }

  /** An inactive view whose first read was past `created` is of a run that stays as it is. */
  lemma InactiveIsSettled(w: World, o: nat)
    requires Sane(w)
    ensures var x := w.Observer(o);
            x.Done? && !x.view.active && !x.view.first.Created? ==> Settled(w, x.id, x.view.state)
  {
    hide Settled;
    var x := w.Observer(o);
    assert ObserverOk(w, o, x);
    if x.Done? && !x.view.active && !x.view.first.Created? {
      EndedIsSettled(w, x.id);
    }
  }

  lemma KnownEnd(w: World, o: nat, id: string)
    requires KnowsTheEnd(w, o, id) && w.Observer(o).Done? && w.Observer(o).id == id
    ensures w.Observer(o).view.state == w.runs[id].phase.durable
  {
  }

  function ViewOf(view: View): Cli.RunView {
    Cli.RunView(view.state, view.active)
  }

  /** A view that satisfies `wait --for exit` is final; unless the run was first read as `created`, it is settled. */
  lemma WaitForExitIsFinal(actions: seq<Action>, o: nat)
    requires Runs(NOTHING, actions) && RunAll(NOTHING, actions).Observer(o).Done?
    requires Cli.Judge(Cli.UntilExit, ViewOf(RunAll(NOTHING, actions).Observer(o).view)).Satisfied?
    ensures var w := RunAll(NOTHING, actions);
            var id, view := w.Observer(o).id, w.Observer(o).view;
            && IsFinal(w, id, view.state)
            && (!view.first.Created? ==> Settled(w, id, view.state))
  {
    hide Settled, IsFinal;
    var w := RunAll(NOTHING, actions);
    TerminalViewsAreFinal(actions, o, false);
    EveryWorldIsSane(actions);
    assert ObserverOk(w, o, w.Observer(o));
  }

  /**
   * `stop` on a run it first finds terminal: however long it polls for the lock, the document it returns in the end is
   * the terminal one it read first.
   */
  lemma StopReturnsTheFinalState(actions: seq<Action>, polls: seq<Action>, o: nat, id: string)
    requires Runs(NOTHING, actions) && Runs(RunAll(NOTHING, actions), polls)
    requires var first := RunAll(NOTHING, actions).Observer(o);
             first.Done? && first.id == id && first.view.state.status.IsTerminal()
    requires var last := RunAll(RunAll(NOTHING, actions), polls).Observer(o);
             last.Done? && last.id == id
    ensures var w := RunAll(RunAll(NOTHING, actions), polls);
            && w.Observer(o).view.state == RunAll(NOTHING, actions).Observer(o).view.state
            && IsFinal(w, id, w.Observer(o).view.state)
            && (!w.Observer(o).view.active && !w.Observer(o).view.first.Created? ==>
                  Settled(w, id, w.Observer(o).view.state))
  {
    hide IsFinal, Settled;
    var w := RunAll(NOTHING, actions);
    EveryWorldIsSane(actions);
    assert ObserverOk(w, o, w.Observer(o));
    assert KnowsTheEnd(w, o, id);
    hide Sane, KnowsTheEnd;
    RunsAdvance(w, polls, id);
    AlwaysKnowsTheEnd(w, polls, o, id);
    SaneFromHere(w, polls);
    TerminalIsFinal(RunAll(w, polls), id);
    KnownEnd(RunAll(w, polls), o, id);
    InactiveIsSettled(RunAll(w, polls), o);
  }
}
