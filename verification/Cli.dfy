/** The polling commands of src/cli.rs, each over the sequence of observations its polls made. */
module Cli {
  import opened Wrappers
  import opened Model

  const MAX_WAIT_MS: nat := 24 * 60 * 60 * 1000
  const MAX_STOP_GRACE_MS: nat := 5 * 60 * 1000

  datatype RunView = RunView(state: RunState, active: bool) {
    predicate Orphaned() {
      state.status.IsLive() && !active
    }

    predicate Over() {
      state.status.IsTerminal() && !active
    }
  }

  /** One poll: what `load_view` returned, and whether the deadline had passed when it was looked at. */
  datatype Look = Look(view: Result<RunView, string>, late: bool)

  datatype Outcome = Success(view: RunView) | Rejected(kind: string) | StillPolling

  predicate Loaded(looks: seq<Look>, k: nat) {
    k < |looks| && looks[k].view.Ok?
  }

  // ----- wait

  datatype WaitCondition = UntilRunning | UntilReady | UntilExit

  datatype Verdict = Satisfied | Refused(kind: string) | NotYet

  function Judge(condition: WaitCondition, view: RunView): Verdict {
    if view.Orphaned() then Refused("orphaned")
    else
      match condition
      case UntilRunning => if view.state.processPid.Some? then Satisfied else NotYet
      case UntilReady =>
        (match view.state.readiness.status
         case Ready => Satisfied
         case NotConfigured => Refused("usage")
         case TimedOut | ReadinessFailed => Refused("readiness_failed")
         case Pending => if view.state.status.IsTerminal() then Refused("readiness_failed") else NotYet)
      case UntilExit => if view.Over() then Satisfied else NotYet
  }

  /** What each condition asks for, and each way it can be out of reach; a view is one or the other, or neither yet. */
  lemma JudgeIsExact(condition: WaitCondition, view: RunView)
    ensures var status, readiness := view.state.status, view.state.readiness.status;
            var supervised := view.active || status.Exited? || status.Failed? || status.Stopped?;
            && (Judge(condition, view).Satisfied? <==>
                  match condition
                  case UntilRunning => supervised && view.state.processPid.Some?
                  case UntilReady => supervised && readiness.Ready?
                  case UntilExit => !view.active && (status.Exited? || status.Failed? || status.Stopped?))
            && (Judge(condition, view) == Refused("orphaned") <==> !supervised)
            && (Judge(condition, view) == Refused("usage") <==>
                  condition.UntilReady? && supervised && readiness.NotConfigured?)
            && (Judge(condition, view) == Refused("readiness_failed") <==>
                  && condition.UntilReady? && supervised
                  && (readiness.TimedOut? || readiness.ReadinessFailed?
                      || (readiness.Pending? && (status.Exited? || status.Failed? || status.Stopped?))))
            && (Judge(condition, view).Refused? ==>
                  Judge(condition, view).kind in {"orphaned", "usage", "readiness_failed"})
  {
  }

  predicate Undecided(condition: WaitCondition, look: Look) {
    look.view.Ok? && Judge(condition, look.view.value).NotYet? && !look.late
  }

  /** `wait`, cut when the observations run out: the first look that decides, decides. */
  method Wait(condition: WaitCondition, timeout: nat, looks: seq<Look>) returns (outcome: Outcome)
    ensures timeout == 0 || timeout > 86_400_000 ==> outcome == Rejected("usage")
    ensures outcome.StillPolling? <==>
              0 < timeout <= 86_400_000 && forall i :: 0 <= i < |looks| ==> Undecided(condition, looks[i])
    ensures outcome.Success? ==>
              exists k :: && 0 <= k < |looks| && looks[k].view == Ok(outcome.view)
                          && Judge(condition, outcome.view).Satisfied?
                          && forall j :: 0 <= j < k ==> Undecided(condition, looks[j])
    ensures outcome.StillPolling? ==> forall i :: 0 <= i < |looks| ==> looks[i].view.Ok? && !looks[i].late
    ensures outcome.Success? ==>
              var view := outcome.view;
              match condition
              case UntilRunning => view.state.processPid.Some? && (view.active || view.state.status.IsTerminal())
              case UntilReady => view.state.readiness.status.Ready? && (view.active || view.state.status.IsTerminal())
              case UntilExit => view.state.status.IsTerminal() && !view.active
    ensures outcome.Rejected? && 0 < timeout <= 86_400_000 ==>
              exists k :: && 0 <= k < |looks| && (forall j :: 0 <= j < k ==> Undecided(condition, looks[j]))
                          && match looks[k].view
                             case Err(kind) => outcome.kind == kind
                             case Ok(view) =>
                               if Judge(condition, view).Refused? then outcome.kind == Judge(condition, view).kind
                               else Judge(condition, view).NotYet? && looks[k].late && outcome.kind == "timeout"
  {
    if timeout == 0 || timeout > MAX_WAIT_MS {
      return Rejected("usage");
    }
    for i := 0 to |looks|
      invariant forall j :: 0 <= j < i ==> Undecided(condition, looks[j])
    {
      if looks[i].view.Err? {
        return Rejected(looks[i].view.error);
      }
      var view := looks[i].view.value;
      if view.Orphaned() {
        return Rejected("orphaned");
      }
      var satisfied := false;
      match condition {
        case UntilRunning => satisfied := view.state.processPid.Some?;
        case UntilReady =>
          match view.state.readiness.status {
            case Ready => satisfied := true;
            case NotConfigured => return Rejected("usage");
            case TimedOut => return Rejected("readiness_failed");
            case ReadinessFailed => return Rejected("readiness_failed");
            case Pending =>
              if view.state.status.IsTerminal() {
                return Rejected("readiness_failed");
              }
          }
        case UntilExit => satisfied := view.state.status.IsTerminal() && !view.active;
      }
      if satisfied {
        return Success(view);
      }
      if looks[i].late {
        return Rejected("timeout");
      }
    }
    return StillPolling;
  }

  // ----- stop

  /** `stop` looks again: at a live run after its request, or at a supervisor that is still there in time. */
  predicate StopGoesOn(looks: seq<Look>, k: nat)
    requires k < |looks|
  {
    && looks[k].view.Ok? && looks[k].view.value.active
    && ((k == 0 && looks[0].view.value.state.status.IsLive()) || !looks[k].late)
  }

  /** What `stop` makes of the look at which it ends, given how the first one went. */
  function StopAnswer(looks: seq<Look>, k: nat): Outcome
    requires k < |looks| && looks[0].view.Ok? && !StopGoesOn(looks, k)
  {
    match looks[k].view
    case Err(kind) => Rejected(kind)
    case Ok(view) =>
      if view.active then Rejected("timeout")
      else if looks[0].view.value.state.status.IsTerminal() || view.state.status.IsTerminal() then Success(view)
      else Rejected("orphaned")
  }

  /** The first look finds a live run under an active supervisor. */
  predicate CanBeStopped(looks: seq<Look>) {
    Loaded(looks, 0) && looks[0].view.value.state.status.IsLive() && looks[0].view.value.active
  }

  /**
   * `stop`, cut when the observations run out. `writes` says whether the owner token could be read and the request
   * written, which is tried exactly for a run that can be stopped. From then on the first look that ends it decides.
   */
  method Stop(grace: nat, looks: seq<Look>, writes: bool)
    returns (outcome: Outcome, requested: bool, alreadyTerminal: bool)
    ensures requested <==> grace <= 300_000 && CanBeStopped(looks) && writes
    ensures alreadyTerminal <==>
              grace <= 300_000 && Loaded(looks, 0) && looks[0].view.value.state.status.IsTerminal()
    ensures grace > 300_000 ==> outcome == Rejected("usage")
    ensures grace <= 300_000 && CanBeStopped(looks) && !writes ==> outcome == Rejected("io")
    ensures grace <= 300_000 && looks != [] && looks[0].view.Err? ==>
              outcome == Rejected(looks[0].view.error)
    ensures grace <= 300_000 && (looks == [] || looks[0].view.Ok?) && (CanBeStopped(looks) ==> writes) ==>
              if forall k :: 0 <= k < |looks| ==> StopGoesOn(looks, k) then outcome == StillPolling
              else exists k :: && 0 <= k < |looks| && !StopGoesOn(looks, k) && outcome == StopAnswer(looks, k)
                               && forall j :: 0 <= j < k ==> StopGoesOn(looks, j)
  {
    outcome, requested, alreadyTerminal := StillPolling, false, false;
    if grace > MAX_STOP_GRACE_MS {
      outcome := Rejected("usage");
      return;
    }
    if looks == [] {
      return;
    }
    if looks[0].view.Err? {
      outcome := Rejected(looks[0].view.error);
      return;
    }
    var view := looks[0].view.value;
    if view.state.status.IsTerminal() {
      alreadyTerminal := true;
      var k := 0;
      while view.active
        invariant k < |looks| && looks[k].view == Ok(view)
        invariant forall j :: 0 <= j < k ==> StopGoesOn(looks, j)
        decreases |looks| - k
      {
        if looks[k].late {
          assert !StopGoesOn(looks, k);
          outcome := Rejected("timeout");
          return;
        }
        k := k + 1;
        if k == |looks| {
          return;
        }
        if looks[k].view.Err? {
          assert !StopGoesOn(looks, k);
          outcome := Rejected(looks[k].view.error);
          return;
        }
        view := looks[k].view.value;
      }
      assert !StopGoesOn(looks, k);
      outcome := Success(view);
      return;
    }
    if !view.active {
      assert !StopGoesOn(looks, 0);
      outcome := Rejected("orphaned");
      return;
    }
    if !writes {
      outcome := Rejected("io");
      return;
    }
    requested := true;
    for k := 1 to |looks|
      invariant forall j :: 0 <= j < k ==> StopGoesOn(looks, j)
      invariant outcome.StillPolling?
    {
      if looks[k].view.Err? {
        assert !StopGoesOn(looks, k);
        outcome := Rejected(looks[k].view.error);
        return;
      }
      var view := looks[k].view.value;
      if view.state.status.IsTerminal() && !view.active {
        assert !StopGoesOn(looks, k);
        outcome := Success(view);
        return;
      }
      if !view.active {
        assert !StopGoesOn(looks, k);
        outcome := Rejected("orphaned");
        return;
      }
      if looks[k].late {
        assert !StopGoesOn(looks, k);
        outcome := Rejected("timeout");
        return;
      }
    }
  }

  /** Every answer of `stop` that is not a failing look's own, by the look at which it ends and the first one. */
  lemma StopAnswerIsExact(looks: seq<Look>, k: nat)
    requires k < |looks| && looks[0].view.Ok? && looks[k].view.Ok?
    ensures var first, view := looks[0].view.value.state.status, looks[k].view.value;
            var over := view.state.status.Exited? || view.state.status.Failed? || view.state.status.Stopped?;
            var wasOver := first.Exited? || first.Failed? || first.Stopped?;
            if StopGoesOn(looks, k) then view.active && (!looks[k].late || (k == 0 && !wasOver))
            else
              && (StopAnswer(looks, k) == Success(view) <==> !view.active && (over || wasOver))
              && (StopAnswer(looks, k) == Rejected("orphaned") <==> !view.active && !over && !wasOver)
              && (StopAnswer(looks, k) == Rejected("timeout") <==> view.active && looks[k].late)
  {
  }

  /** A success of `stop` is an inactive look, terminal unless the first one already was. */
  lemma StopSucceedsInactive(looks: seq<Look>, k: nat)
    requires k < |looks| && looks[0].view.Ok? && !StopGoesOn(looks, k) && StopAnswer(looks, k).Success?
    ensures looks[k].view == Ok(StopAnswer(looks, k).view) && !StopAnswer(looks, k).view.active
    ensures looks[0].view.value.state.status.IsTerminal() || StopAnswer(looks, k).view.Over()
  {
  }

  // ----- start, after the launch

  predicate InStartup(status: RunStatus) {
    status.Created? || status.Starting?
  }

  predicate SeenActive(looks: seq<Look>, k: nat) {
    exists j :: 0 <= j < k && j < |looks| && looks[j].view.Ok? && looks[j].view.value.active
  }

  /** `start` looks again: in startup, or at a terminal run whose supervisor is still there, and in time. */
  predicate StartGoesOn(looks: seq<Look>, k: nat)
    requires k < |looks|
  {
    && looks[k].view.Ok? && !looks[k].late
    && var view := looks[k].view.value;
       if InStartup(view.state.status) then view.active || !SeenActive(looks, k)
       else view.state.status.IsTerminal() && view.active
  }

  /** What `start` makes of the look at which it ends. */
  function StartAnswer(looks: seq<Look>, k: nat): Outcome
    requires k < |looks| && !StartGoesOn(looks, k)
  {
    match looks[k].view
    case Err(kind) => Rejected(kind)
    case Ok(view) =>
      if InStartup(view.state.status) then
        if !view.active && SeenActive(looks, k) then Rejected("supervisor_exit") else Rejected("timeout")
      else if view.state.status.IsTerminal() && view.active then Rejected("timeout")
      else if view.state.status.Failed? then Rejected("start_failed")
      else if view.Orphaned() then Rejected("supervisor_exit")
      else Success(view)
  }

  /** The polling loop of `start`, cut when the observations run out: the first look that ends it decides. */
  method AwaitStartup(looks: seq<Look>, writes: bool) returns (outcome: Outcome, requested: bool)
    ensures if forall k :: 0 <= k < |looks| ==> StartGoesOn(looks, k) then outcome == StillPolling && !requested
            else exists k :: && 0 <= k < |looks| && !StartGoesOn(looks, k) && outcome == StartAnswer(looks, k)
                             && (forall j :: 0 <= j < k ==> StartGoesOn(looks, j))
                             && (requested <==>
                                   writes && outcome == Rejected("timeout") && looks[k].view.Ok?
                                   && InStartup(looks[k].view.value.state.status))
  {
    outcome, requested := StillPolling, false;
    var activeSeen := false;
    for k := 0 to |looks|
      invariant activeSeen <==> SeenActive(looks, k)
      invariant forall j :: 0 <= j < k ==> StartGoesOn(looks, j)
      invariant outcome.StillPolling? && !requested
    {
      if looks[k].view.Err? {
        assert !StartGoesOn(looks, k);
        outcome := Rejected(looks[k].view.error);
        return;
      }
      var view := looks[k].view.value;
      activeSeen := activeSeen || view.active;
      assert activeSeen <==> SeenActive(looks, k + 1);
      if !InStartup(view.state.status) {
        if view.state.status.IsTerminal() && view.active {
          if looks[k].late {
            assert !StartGoesOn(looks, k);
            outcome := Rejected("timeout");
            return;
          }
        } else {
          assert !StartGoesOn(looks, k);
          if view.state.status.Failed? {
            outcome := Rejected("start_failed");
          } else if !view.active && !view.state.status.IsTerminal() {
            outcome := Rejected("supervisor_exit");
          } else {
            outcome := Success(view);
          }
          return;
        }
      } else {
        if activeSeen && !view.active {
          assert !StartGoesOn(looks, k);
          outcome := Rejected("supervisor_exit");
          return;
        }
        if looks[k].late {
          assert !StartGoesOn(looks, k);
          requested := writes;
          outcome := Rejected("timeout");
          return;
        }
      }
    }
  }

  /** Every answer of `start` that is not a failing look's own, by the look at which it ends and those before. */
  lemma StartAnswerIsExact(looks: seq<Look>, k: nat)
    requires k < |looks| && looks[k].view.Ok?
    ensures var view, late := looks[k].view.value, looks[k].late;
            var starting := view.state.status.Created? || view.state.status.Starting?;
            var up := view.state.status.Running? || view.state.status.Stopping?;
            var over := view.state.status.Exited? || view.state.status.Failed? || view.state.status.Stopped?;
            var seen := exists j :: 0 <= j < k && looks[j].view.Ok? && looks[j].view.value.active;
            if StartGoesOn(looks, k) then !late && if over then view.active else starting && (view.active || !seen)
            else
              && (StartAnswer(looks, k) == Success(view) <==>
                    if over then !view.active && !view.state.status.Failed? else up && view.active)
              && (StartAnswer(looks, k) == Rejected("start_failed") <==> view.state.status.Failed? && !view.active)
              && (StartAnswer(looks, k) == Rejected("supervisor_exit") <==>
                    !view.active && (up || (starting && seen)))
              && (StartAnswer(looks, k) == Rejected("timeout") <==>
                    late && if over then view.active else starting && (view.active || !seen))
  {
  }

  /** A success of `start` is past startup and not failed, over if terminal and active if not. */
  lemma StartSucceedsWell(looks: seq<Look>, k: nat)
    requires k < |looks| && !StartGoesOn(looks, k) && StartAnswer(looks, k).Success?
    ensures var view := StartAnswer(looks, k).view;
            && looks[k].view == Ok(view)
            && !InStartup(view.state.status) && !view.state.status.Failed?
            && (view.state.status.IsTerminal() <==> !view.active)
  {
  }

  // ----- gc

  datatype GcReason = SupervisorActive | NonTerminalOrOrphaned | YoungerThanThreshold | TerminalAndInactive

  datatype GcEntry =
    GcEntry(runId: string, status: RunStatus, age: nat, eligible: bool, reason: GcReason, deleted: bool)

  predicate Eligible(view: RunView, observedAt: nat, olderThan: nat) {
    view.Over() && SatSub(observedAt, view.state.updatedAt) >= olderThan
  }

  /** An entry tells the truth about its run, and is marked deleted exactly when deletion was due. */
  predicate Reports(entry: GcEntry, id: string, view: RunView, observedAt: nat, olderThan: nat, execute: bool) {
    && entry.runId == id && entry.status == view.state.status
    && entry.age == SatSub(observedAt, view.state.updatedAt)
    && (entry.eligible <==> Eligible(view, observedAt, olderThan))
    && (entry.reason.TerminalAndInactive? <==> entry.eligible)
    && (entry.reason.SupervisorActive? <==> view.active)
    && (entry.reason.NonTerminalOrOrphaned? <==> view.Orphaned())
    && (entry.deleted <==> execute && entry.eligible)
  }

  /** Run `i` loads, and if it is due for removal the removal succeeds. */
  predicate Passes(views: seq<Result<RunView, string>>, removes: seq<bool>, observedAt: nat, olderThan: nat,
                   execute: bool, i: int)
    requires 0 <= i < |views| == |removes|
  {
    views[i].Ok? && (execute && Eligible(views[i].value, observedAt, olderThan) ==> removes[i])
  }

  /** Run `i` is due for removal. */
  predicate Due(views: seq<Result<RunView, string>>, observedAt: nat, olderThan: nat, execute: bool, i: int)
    requires 0 <= i < |views|
  {
    execute && views[i].Ok? && Eligible(views[i].value, observedAt, olderThan)
  }

  /**
   * `gc` over the runs listed: `removes[i]` says whether `remove_terminal_run` succeeds on run `i`. It succeeds
   * exactly when every run loads and every removal due succeeds; else it ends at the first run that does not pass.
   * `removed` are the positions of the runs gone by then: all that were due before it ended.
   */
  method CollectGarbage(ids: seq<string>, views: seq<Result<RunView, string>>, removes: seq<bool>, observedAt: nat,
                        olderThan: nat, execute: bool)
    returns (result: Result<seq<GcEntry>, string>, removed: set<int>)
    requires |views| == |removes| == |ids|
    ensures result.Ok? <==> forall i :: 0 <= i < |ids| ==> Passes(views, removes, observedAt, olderThan, execute, i)
    ensures result.Ok? ==>
              && |result.value| == |ids|
              && (forall i :: 0 <= i < |ids| ==>
                    views[i].Ok? && Reports(result.value[i], ids[i], views[i].value, observedAt, olderThan, execute))
              && forall i :: i in removed <==> 0 <= i < |ids| && Due(views, observedAt, olderThan, execute, i)
    ensures result.Err? ==>
              exists k :: && 0 <= k < |ids| && !Passes(views, removes, observedAt, olderThan, execute, k)
                          && (forall j :: 0 <= j < k ==> Passes(views, removes, observedAt, olderThan, execute, j))
                          && result.error == (if views[k].Err? then views[k].error else "gc_live_run")
                          && forall i :: i in removed <==> 0 <= i < k && Due(views, observedAt, olderThan, execute, i)
    ensures forall i :: i in removed ==>
              && 0 <= i < |ids| && execute && removes[i] && views[i].Ok?
              && var view := views[i].value;
                 && (view.state.status.Exited? || view.state.status.Failed? || view.state.status.Stopped?)
                 && !view.active && (olderThan == 0 || view.state.updatedAt + olderThan <= observedAt)
    ensures result.Ok? && execute ==> forall i :: 0 <= i < |ids| ==>
              && views[i].Ok?
              && var view := views[i].value;
                 i in removed || view.active || view.state.updatedAt + olderThan > observedAt
                 || !(view.state.status.Exited? || view.state.status.Failed? || view.state.status.Stopped?)
  {
    removed := {};
    var entries: seq<GcEntry> := [];
    for i := 0 to |ids|
      invariant |entries| == i
      invariant forall j :: 0 <= j < i ==> Passes(views, removes, observedAt, olderThan, execute, j)
      invariant forall j :: 0 <= j < i ==>
                  views[j].Ok? && Reports(entries[j], ids[j], views[j].value, observedAt, olderThan, execute)
      invariant forall j :: j in removed <==> 0 <= j < i && Due(views, observedAt, olderThan, execute, j)
      invariant forall j :: j in removed ==> 0 <= j < i && removes[j]
    {
      if views[i].Err? {
        assert !Passes(views, removes, observedAt, olderThan, execute, i);
        return Err(views[i].error), removed;
      }
      var view := views[i].value;
      var age := SatSub(observedAt, view.state.updatedAt);
      var eligible, reason := true, TerminalAndInactive;
      if view.active {
        eligible, reason := false, SupervisorActive;
      } else if !view.state.status.IsTerminal() {
        eligible, reason := false, NonTerminalOrOrphaned;
      } else if age < olderThan {
        eligible, reason := false, YoungerThanThreshold;
      }
      var entry := GcEntry(ids[i], view.state.status, age, eligible, reason, false);
      if execute && eligible {
        if !removes[i] {
          assert !Passes(views, removes, observedAt, olderThan, execute, i);
          return Err("gc_live_run"), removed;
        }
        removed := removed + {i};
        entry := entry.(deleted := true);
      }
      entries := entries + [entry];
    }
    return Ok(entries), removed;
  }
}
