/** `ReadinessTracker`: literals searched across capture chunks with a bounded memory, and probes in turn. */
module Readiness {
  import opened Wrappers
  import opened Model

  const MAX_LOG_LITERAL_BYTES: nat := 1024
  const PROBE_INTERVAL: nat := 50

  /** The tracker by value; `lastProbe` is the instant of the last unthrottled poll, in milliseconds. */
  datatype Tracker = Tracker(
    lastProbe: Option<nat>,
    nextProbeIndex: nat,
    stdoutTail: seq<byte>,
    stderrTail: seq<byte>)
  {
    function Tail(stream: LogStream): seq<byte> {
      match stream
      case Stdout => stdoutTail
      case Stderr => stderrTail
    }

    function WithTail(stream: LogStream, tail: seq<byte>): Tracker {
      match stream
      case Stdout => this.(stdoutTail := tail)
      case Stderr => this.(stderrTail := tail)
    }
  }

  const NEW_TRACKER := Tracker(None, 0, [], [])

  predicate MatchAt(haystack: seq<byte>, needle: seq<byte>, i: int) {
    0 <= i <= |haystack| - |needle| && haystack[i..i + |needle|] == needle
  }

  predicate ContainsBytes(haystack: seq<byte>, needle: seq<byte>) {
    needle == [] || exists i :: 0 <= i <= |haystack| - |needle| && MatchAt(haystack, needle, i)
  }

  // ----- observe_log and poll by value

  predicate Unready(check: Check) {
    check.readyAt.None?
  }

  function ObservedCheck(check: Check, stream: LogStream, searchable: seq<byte>, now: nat): Check {
    if Unready(check) && check.condition.Log? && ContainsBytes(searchable, check.condition.literal) then
      check.(readyAt := Some(now), evidence := Some(SeenOn(stream, now)))
    else
      check
  }

  function ObservedChecks(checks: seq<Check>, stream: LogStream, searchable: seq<byte>, now: nat): seq<Check> {
    seq(|checks|, i requires 0 <= i < |checks| => ObservedCheck(checks[i], stream, searchable, now))
  }

  /** The longest proper prefix that a match of a still unready literal may have left behind. */
  function MaxTail(checks: seq<Check>): nat {
    if checks == [] then 0
    else
      var last := checks[|checks| - 1];
      var rest := MaxTail(checks[..|checks| - 1]);
      if Unready(last) && last.condition.Log? && SatSub(|last.condition.literal|, 1) > rest then
        SatSub(|last.condition.literal|, 1)
      else rest
  }

  function Suffix(bytes: seq<byte>, keep: nat): seq<byte> {
    bytes[|bytes| - Min(|bytes|, keep)..]
  }

  function FinishedIfReady(state: ReadinessState, now: nat): ReadinessState {
    if state.status.Pending? && forall i :: 0 <= i < |state.checks| ==> !Unready(state.checks[i]) then
      state.(status := Ready, readyAt := Some(now))
    else
      state
  }

  function Observed(t: Tracker, state: ReadinessState, stream: LogStream, bytes: seq<byte>, now: nat)
    : (Tracker, ReadinessState)
  {
    if !state.status.Pending? then (t, state)
    else
      var searchable := t.Tail(stream) + bytes;
      var checks := ObservedChecks(state.checks, stream, searchable, now);
      var keep := Min(MaxTail(checks), MAX_LOG_LITERAL_BYTES - 1);
      (t.WithTail(stream, Suffix(searchable, keep)), FinishedIfReady(state.(checks := checks), now))
  }

  predicate Probeable(check: Check) {
    Unready(check) && !check.condition.Log? && !check.condition.PortLease?
  }

  /** The index `offset` places after `start` on a cycle of `count`. */
  function Turn(start: nat, offset: nat, count: nat): nat
    requires count > 0
  {
    (start + offset) % count
  }

  /** The first probeable check at or cyclically after place `offset`. */
  function NextFrom(checks: seq<Check>, start: nat, offset: nat): (next: Option<nat>)
    requires offset <= |checks|
    ensures next.Some? ==>
              && next.value < |checks| && Probeable(checks[next.value])
              && exists k :: offset <= k < |checks| && next.value == Turn(start, k, |checks|)
                          && forall j :: offset <= j < k ==> !Probeable(checks[Turn(start, j, |checks|)])
    ensures next.None? ==> forall j :: offset <= j < |checks| ==> !Probeable(checks[Turn(start, j, |checks|)])
    decreases |checks| - offset
  {
    if offset == |checks| then None
    else if Probeable(checks[Turn(start, offset, |checks|)]) then Some(Turn(start, offset, |checks|))
    else NextFrom(checks, start, offset + 1)
  }

  function NextExternalCheck(t: Tracker, state: ReadinessState): Option<nat> {
    NextFrom(state.checks, t.nextProbeIndex, 0)
  }

  predicate TimeIsUp(state: ReadinessState, now: nat) {
    state.deadlineAt.Some? && now >= state.deadlineAt.value
  }

  predicate Throttled(t: Tracker, instant: nat) {
    t.lastProbe.Some? && SatSub(instant, t.lastProbe.value) < PROBE_INTERVAL
  }

  /** One poll; `report` is what the probe of the chosen check finds. */
  function Polled(t: Tracker, state: ReadinessState, now: nat, instant: nat, report: Option<string>)
    : (Tracker, ReadinessState)
  {
    if !state.status.Pending? then (t, state)
    else if TimeIsUp(state, now) then
      (t, state.(status := TimedOut, failureReason := Some("readiness_timeout")))
    else if Throttled(t, instant) then (t, state)
    else
      var t' := t.(lastProbe := Some(instant));
      match NextExternalCheck(t, state)
      case None => (t', FinishedIfReady(state, now))
      case Some(index) =>
        (t'.(nextProbeIndex := index + 1),
         if report.None? then state
         else
           var check := state.checks[index].(readyAt := Some(now), evidence := Some(Probed(report.value)));
           FinishedIfReady(state.(checks := state.checks[index := check]), now))
  }

  function ProcessExited(state: ReadinessState): ReadinessState {
    if state.status.Pending? then
      state.(status := ReadinessFailed, failureReason := Some("process_exited_before_ready"))
    else state
  }

  // ----- the tracker as the supervisor holds it

  class ReadinessTracker {
    var lastProbe: Option<nat>
    var nextProbeIndex: nat
    var stdoutTail: seq<byte>
    var stderrTail: seq<byte>

    function View(): Tracker
      reads this
    {
      Tracker(lastProbe, nextProbeIndex, stdoutTail, stderrTail)
    }

    constructor ()
      ensures View() == NEW_TRACKER
    {
      lastProbe, nextProbeIndex, stdoutTail, stderrTail := None, 0, [], [];
    }

    method ObserveLog(state: ReadinessState, stream: LogStream, bytes: seq<byte>, now: nat)
      returns (state': ReadinessState, changed: bool)
      modifies this
      ensures (View(), state') == Observed(old(View()), state, stream, bytes, now)
      ensures changed <==> state' != state
    {
      if !state.status.Pending? {
        return state, false;
      }
      var tail := match stream case Stdout => stdoutTail case Stderr => stderrTail;
      var searchable := tail + bytes;
      var checks := state.checks;
      changed := false;
      for i := 0 to |checks|
        invariant |checks| == |state.checks|
        invariant forall j :: 0 <= j < |checks| ==>
                    checks[j] == if j < i then ObservedCheck(state.checks[j], stream, searchable, now)
                                 else state.checks[j]
        invariant changed <==> checks != state.checks
      {
        if Unready(checks[i]) && checks[i].condition.Log? {
          if ContainsBytes(searchable, checks[i].condition.literal) {
            checks := checks[i := checks[i].(readyAt := Some(now), evidence := Some(SeenOn(stream, now)))];
            assert checks[i] != state.checks[i];
            changed := true;
          }
        }
      }
      assert checks == ObservedChecks(state.checks, stream, searchable, now);

      var keep := Min(|searchable|, Min(MaxTail(checks), MAX_LOG_LITERAL_BYTES - 1));
      var kept := searchable[|searchable| - keep..];
      match stream {
        case Stdout => stdoutTail := kept;
        case Stderr => stderrTail := kept;
      }
      state' := FinishedIfReady(state.(checks := checks), now);
      changed := changed || state'.status.Ready?;
    }

    /** `report` answers for whatever check the poll decides to probe. */
    method Poll(state: ReadinessState, now: nat, instant: nat, report: Option<string>)
      returns (state': ReadinessState, changed: bool)
      modifies this
      ensures (View(), state') == Polled(old(View()), state, now, instant, report)
      ensures changed <==> state' != state
    {
      if !state.status.Pending? {
        return state, false;
      }
      if TimeIsUp(state, now) {
        return state.(status := TimedOut, failureReason := Some("readiness_timeout")), true;
      }
      if Throttled(View(), instant) {
        return state, false;
      }
      var index := NextExternalCheck(View(), state);
      lastProbe := Some(instant);
      if index.None? {
        state' := FinishedIfReady(state, now);
        return state', state'.status.Ready?;
      }
      nextProbeIndex := index.value + 1;
      if report.Some? {
        var check := state.checks[index.value].(readyAt := Some(now), evidence := Some(Probed(report.value)));
        var updated := state.(checks := state.checks[index.value := check]);
        assert updated.checks[index.value] != state.checks[index.value];
        return FinishedIfReady(updated, now), true;
      }
      return state, false;
    }
  }

  // ----- the bounded tails lose nothing

  /** All bytes fed so far, stream by stream. */
  datatype Fed = Fed(stdout: seq<byte>, stderr: seq<byte>) {
    function On(stream: LogStream): seq<byte> {
      match stream
      case Stdout => stdout
      case Stderr => stderr
    }

    function Plus(stream: LogStream, bytes: seq<byte>): Fed {
      match stream
      case Stdout => this.(stdout := stdout + bytes)
      case Stderr => this.(stderr := stderr + bytes)
    }

    ghost predicate Shows(literal: seq<byte>) {
      ContainsBytes(stdout, literal) || ContainsBytes(stderr, literal)
    }
  }

  ghost predicate LiteralsBounded(checks: seq<Check>) {
    forall i {:trigger checks[i]} :: 0 <= i < |checks| && checks[i].condition.Log? ==>
      1 <= |checks[i].condition.literal| <= MAX_LOG_LITERAL_BYTES
  }

  /** Log checks are ready exactly when their literal is among the bytes fed, and name a stream that shows it. */
  ghost predicate Exact(checks: seq<Check>, fed: Fed) {
    forall i {:trigger checks[i]} :: 0 <= i < |checks| && checks[i].condition.Log? ==>
      && (!Unready(checks[i]) <==> fed.Shows(checks[i].condition.literal))
      && (!Unready(checks[i]) ==>
            && checks[i].evidence.Some? && checks[i].evidence.value.SeenOn?
            && ContainsBytes(fed.On(checks[i].evidence.value.stream), checks[i].condition.literal))
  }

  /** The kept tail is a suffix of the stream, long enough for any match of an unready literal to continue. */
  ghost predicate TailSuffices(tail: seq<byte>, fed: seq<byte>, checks: seq<Check>) {
    && |tail| <= |fed| && tail == fed[|fed| - |tail|..]
    && |tail| < MAX_LOG_LITERAL_BYTES
    && forall i {:trigger checks[i]} :: 0 <= i < |checks| && Unready(checks[i]) && checks[i].condition.Log? ==>
         |tail| >= Min(|fed|, |checks[i].condition.literal| - 1)
  }

  ghost predicate Tracks(t: Tracker, checks: seq<Check>, fed: Fed) {
    && LiteralsBounded(checks)
    && Exact(checks, fed)
    && TailSuffices(t.stdoutTail, fed.stdout, checks)
    && TailSuffices(t.stderrTail, fed.stderr, checks)
  }

  lemma SliceOfSuffix(front: seq<byte>, back: seq<byte>, i: nat, n: nat)
    requires i + n <= |back|
    ensures (front + back)[|front| + i..|front| + i + n] == back[i..i + n]
  {
  }

  /** A match in what follows the skipped bytes is a match in the whole, further on. */
  lemma MatchShifted(front: seq<byte>, back: seq<byte>, literal: seq<byte>, i: nat)
    requires i + |literal| <= |back|
    ensures MatchAt(front + back, literal, |front| + i) <==> MatchAt(back, literal, i)
  {
    SliceOfSuffix(front, back, i, |literal|);
  }

  lemma MatchInFront(front: seq<byte>, back: seq<byte>, literal: seq<byte>, i: nat)
    requires i + |literal| <= |front|
    ensures MatchAt(front + back, literal, i) <==> MatchAt(front, literal, i)
  {
    assert (front + back)[i..i + |literal|] == front[i..i + |literal|];
  }

  lemma MatchAcross(fed: seq<byte>, tail: seq<byte>, bytes: seq<byte>, literal: seq<byte>)
    requires literal != [] && |tail| <= |fed| && tail == fed[|fed| - |tail|..]
    requires |tail| >= Min(|fed|, |literal| - 1)
    ensures ContainsBytes(fed + bytes, literal) <==> ContainsBytes(fed, literal) || ContainsBytes(tail + bytes, literal)
  {
    hide MatchAt;
    var skipped := |fed| - |tail|;
    var front, back := fed[..skipped], tail + bytes;
    assert fed + bytes == front + back;
    if ContainsBytes(fed, literal) {
      var i :| 0 <= i <= |fed| - |literal| && MatchAt(fed, literal, i);
      MatchInFront(fed, bytes, literal, i);
    }
    if ContainsBytes(back, literal) {
      var i :| 0 <= i <= |back| - |literal| && MatchAt(back, literal, i);
      MatchShifted(front, back, literal, i);
    }
    if ContainsBytes(fed + bytes, literal) {
      var i :| 0 <= i <= |fed + bytes| - |literal| && MatchAt(fed + bytes, literal, i);
      if i + |literal| <= |fed| {
        MatchInFront(fed, bytes, literal, i);
      } else {
        MatchShifted(front, back, literal, i - skipped);
      }
    }
  }

  lemma ContainsInPrefix(prefix: seq<byte>, whole: seq<byte>, literal: seq<byte>)
    requires prefix <= whole && ContainsBytes(prefix, literal)
    ensures ContainsBytes(whole, literal)
  {
    if literal != [] {
      var i :| 0 <= i <= |prefix| - |literal| && MatchAt(prefix, literal, i);
      assert MatchAt(whole, literal, i);
    }
  }

  lemma {:induction false} MaxTailCovers(checks: seq<Check>, i: nat)
    requires i < |checks| && Unready(checks[i]) && checks[i].condition.Log?
    ensures MaxTail(checks) >= SatSub(|checks[i].condition.literal|, 1)
  {
    if i < |checks| - 1 {
      MaxTailCovers(checks[..|checks| - 1], i);
    }
  }

  lemma ObserveIsExact(checks: seq<Check>, tail: seq<byte>, fed: Fed, stream: LogStream, bytes: seq<byte>, now: nat)
    requires LiteralsBounded(checks) && Exact(checks, fed) && TailSuffices(tail, fed.On(stream), checks)
    ensures Exact(ObservedChecks(checks, stream, tail + bytes, now), fed.Plus(stream, bytes))
  {
    forall i | 0 <= i < |checks| && checks[i].condition.Log?
      ensures checks[i].condition.literal != []
      ensures Unready(checks[i]) ==>
                (ContainsBytes(fed.On(stream) + bytes, checks[i].condition.literal)
                 <==> ContainsBytes(tail + bytes, checks[i].condition.literal))
      ensures !Unready(checks[i]) ==>
                forall s :: ContainsBytes(fed.On(s), checks[i].condition.literal) ==>
                              ContainsBytes(fed.Plus(stream, bytes).On(s), checks[i].condition.literal)
    {
      var literal := checks[i].condition.literal;
      if Unready(checks[i]) {
        MatchAcross(fed.On(stream), tail, bytes, literal);
      } else {
        MatchAcross(fed.On(stream), fed.On(stream), bytes, literal);
      }
    }
  }

  /** Checks only leave the unready ones, so a tail that sufficed still does. */
  lemma TailStillSuffices(
    tail: seq<byte>, fed: seq<byte>, checks: seq<Check>, stream: LogStream, searchable: seq<byte>, now: nat)
    requires TailSuffices(tail, fed, checks)
    ensures TailSuffices(tail, fed, ObservedChecks(checks, stream, searchable, now))
  {
    var checks' := ObservedChecks(checks, stream, searchable, now);
    forall i | 0 <= i < |checks'| && Unready(checks'[i]) && checks'[i].condition.Log?
      ensures |tail| >= Min(|fed|, |checks'[i].condition.literal| - 1)
    {
      assert checks'[i] == checks[i];
    }
  }

  lemma SuffixOfSum(front: seq<byte>, tail: seq<byte>, bytes: seq<byte>, keep: nat)
    ensures var kept, whole := Suffix(tail + bytes, keep), front + tail + bytes;
            |kept| <= |whole| && kept == whole[|whole| - |kept|..]
  {
    assert front + tail + bytes == front + (tail + bytes);
  }

  lemma NewTailSuffices(tail: seq<byte>, fed: seq<byte>, bytes: seq<byte>, before: seq<Check>, checks: seq<Check>)
    requires LiteralsBounded(checks) && |checks| == |before|
    requires forall i :: 0 <= i < |checks| ==> Unready(checks[i]) ==> checks[i] == before[i]
    requires TailSuffices(tail, fed, before)
    ensures TailSuffices(
              Suffix(tail + bytes, Min(MaxTail(checks), MAX_LOG_LITERAL_BYTES - 1)), fed + bytes, checks)
  {
    var keep := Min(MaxTail(checks), MAX_LOG_LITERAL_BYTES - 1);
    var fed', kept := fed + bytes, Suffix(tail + bytes, keep);
    forall i | 0 <= i < |checks| && Unready(checks[i]) && checks[i].condition.Log?
      ensures |kept| >= Min(|fed'|, |checks[i].condition.literal| - 1)
    {
      MaxTailCovers(checks, i);
      assert Unready(before[i]);
    }
    SuffixOfSum(fed[..|fed| - |tail|], tail, bytes, keep);
    assert fed[..|fed| - |tail|] + tail == fed;
  }

  lemma ObserveTracks(t: Tracker, state: ReadinessState, fed: Fed, stream: LogStream, bytes: seq<byte>, now: nat)
    requires state.status.Pending? && Tracks(t, state.checks, fed)
    ensures var next := Observed(t, state, stream, bytes, now);
            Tracks(next.0, next.1.checks, fed.Plus(stream, bytes))
  {
    var searchable := t.Tail(stream) + bytes;
    var checks := ObservedChecks(state.checks, stream, searchable, now);
    ObserveIsExact(state.checks, t.Tail(stream), fed, stream, bytes, now);
    assert LiteralsBounded(checks);
    NewTailSuffices(t.Tail(stream), fed.On(stream), bytes, state.checks, checks);
    var other := if stream.Stdout? then Stderr else Stdout;
    TailStillSuffices(t.Tail(other), fed.On(other), state.checks, stream, searchable, now);
  }

  lemma PollTracks(t: Tracker, state: ReadinessState, fed: Fed, now: nat, instant: nat, report: Option<string>)
    requires Tracks(t, state.checks, fed)
    ensures var (t', state') := Polled(t, state, now, instant, report);
            Tracks(t', state'.checks, fed)
  {
  }

  // ----- whole runs

  datatype Stimulus =
    | Feed(stream: LogStream, bytes: seq<byte>, now: nat)
    | Poll(pollNow: nat, instant: nat, report: Option<string>)

  function Stepped(t: Tracker, state: ReadinessState, event: Stimulus): (Tracker, ReadinessState) {
    match event
    case Feed(stream, bytes, now) => Observed(t, state, stream, bytes, now)
    case Poll(now, instant, report) => Polled(t, state, now, instant, report)
  }

  function After(t: Tracker, state: ReadinessState, events: seq<Stimulus>): (Tracker, ReadinessState)
    decreases |events|
  {
    if events == [] then (t, state)
    else
      var (t', state') := Stepped(t, state, events[0]);
      After(t', state', events[1..])
  }

  /** What one event feeds to a stream. */
  function FedWith(e: Stimulus, stream: LogStream): seq<byte> {
    if e.Feed? && e.stream == stream then e.bytes else []
  }

  /** The bytes one stream was fed over a run, whatever the chunks they came in. */
  function FedOn(events: seq<Stimulus>, stream: LogStream): seq<byte> {
    if events == [] then []
    else
      FedWith(events[0], stream) + FedOn(events[1..], stream)
  }

  function FedBy(fed: Fed, events: seq<Stimulus>): Fed {
    Fed(fed.stdout + FedOn(events, Stdout), fed.stderr + FedOn(events, Stderr))
  }

  lemma FedOnFirst(events: seq<Stimulus>, stream: LogStream)
    requires events != []
    ensures FedOn(events, stream) == FedWith(events[0], stream) + FedOn(events[1..], stream)
  {
  }

  lemma {:induction false} FedOnSnoc(events: seq<Stimulus>, e: Stimulus, stream: LogStream)
    ensures FedOn(events + [e], stream) == FedOn(events, stream) + FedWith(e, stream)
  {
    FedOnFirst(events + [e], stream);
    if events == [] {
      assert (events + [e])[1..] == [];
      assert FedOn([], stream) == [];
      hide FedOn;
    } else {
      hide FedOn, FedWith;
      FedOnFirst(events, stream);
      FedOnSnoc(events[1..], e, stream);
      Regroup(FedWith(events[0], stream), FedOn(events[1..], stream), FedWith(e, stream));
      assert (events + [e])[1..] == events[1..] + [e];
    }
  }

  lemma Regroup(a: seq<byte>, b: seq<byte>, c: seq<byte>)
    ensures a + (b + c) == a + b + c
  {
  }

  /** The polls among the events of a run, in order. */
  function PollsOf(events: seq<Stimulus>): seq<Stimulus> {
    if events == [] then []
    else
      var last := events[|events| - 1];
      PollsOf(events[..|events| - 1]) + (if last.Poll? then [last] else [])
  }

  lemma PollsOfSnoc(events: seq<Stimulus>, e: Stimulus)
    ensures PollsOf(events + [e]) == PollsOf(events) + (if e.Poll? then [e] else [])
  {
    assert (events + [e])[..|events|] == events;
  }

  lemma FedByStep(fed: Fed, events: seq<Stimulus>)
    requires events != []
    ensures var fed' := if events[0].Feed? then fed.Plus(events[0].stream, events[0].bytes) else fed;
            FedBy(fed', events[1..]) == FedBy(fed, events)
  {
    var fed' := if events[0].Feed? then fed.Plus(events[0].stream, events[0].bytes) else fed;
    assert FedBy(fed', events[1..]).stdout == FedBy(fed, events).stdout;
    assert FedBy(fed', events[1..]).stderr == FedBy(fed, events).stderr;
  }

  lemma {:induction false} RunTracks(t: Tracker, state: ReadinessState, fed: Fed, events: seq<Stimulus>)
    requires Tracks(t, state.checks, fed)
    ensures var end := After(t, state, events);
            end.1.status.Pending? ==> state.status.Pending? && Tracks(end.0, end.1.checks, FedBy(fed, events))
    decreases |events|
  {
    if events == [] {
      assert FedBy(fed, events) == fed;
    } else if state.status.Pending? {
      var next := Stepped(t, state, events[0]);
      FedByStep(fed, events);
      match events[0]
      case Feed(stream, bytes, now) =>
        ObserveTracks(t, state, fed, stream, bytes, now);
        RunTracks(next.0, next.1, fed.Plus(stream, bytes), events[1..]);
      case Poll(now, instant, report) =>
        PollTracks(t, state, fed, now, instant, report);
        RunTracks(next.0, next.1, fed, events[1..]);
    } else {
      SettledStays(t, state, events);
    }
  }

  lemma {:induction false} SettledStays(t: Tracker, state: ReadinessState, events: seq<Stimulus>)
    requires !state.status.Pending?
    ensures After(t, state, events) == (t, state)
    decreases |events|
  {
    if events == [] {
    } else {
      SettledStays(t, state, events[1..]);
    }
  }

  /**
   * For every chunking and interleaving of both streams, and any polls in between: while readiness is pending, a
   * log check is ready exactly when its literal occurs in what one stream was fed, and never more than 1023 bytes
   * of a stream are remembered.
   */
  lemma StreamingSearchIsExact(conditions: seq<Condition>, timeout: nat, createdAt: nat, events: seq<Stimulus>)
    requires LiteralsBounded(NewReadiness(conditions, timeout, createdAt).checks)
    ensures var (t, state) := After(NEW_TRACKER, NewReadiness(conditions, timeout, createdAt), events);
            state.status.Pending? ==>
              && Exact(state.checks, FedBy(Fed([], []), events))
              && |t.stdoutTail| < MAX_LOG_LITERAL_BYTES && |t.stderrTail| < MAX_LOG_LITERAL_BYTES
  {
    var state := NewReadiness(conditions, timeout, createdAt);
    var nothing := Fed([], []);
    assert Tracks(NEW_TRACKER, state.checks, nothing);
    RunTracks(NEW_TRACKER, state, nothing, events);
  }

  // ----- what a run may end in

  lemma {:induction false} AfterSnoc(t: Tracker, state: ReadinessState, events: seq<Stimulus>, e: Stimulus)
    ensures var now := After(t, state, events);
            After(t, state, events + [e]) == Stepped(now.0, now.1, e)
    decreases |events|
  {
    hide Stepped;
    if events == [] {
      assert (events + [e])[1..] == [];
    } else {
      var next := Stepped(t, state, events[0]);
      AfterSnoc(next.0, next.1, events[1..], e);
      assert (events + [e])[1..] == events[1..] + [e];
    }
  }

  lemma StepAgrees(t: Tracker, state: ReadinessState, e: Stimulus)
    requires ReadinessAgrees(state)
    ensures var state' := Stepped(t, state, e).1;
            && ReadinessAgrees(state') && |state'.checks| == |state.checks|
            && forall i {:trigger state'.checks[i]} :: 0 <= i < |state.checks| ==>
                 && state'.checks[i].condition == state.checks[i].condition
                 && (state.checks[i].readyAt.Some? ==> state'.checks[i] == state.checks[i])
  {
    hide MaxTail, ContainsBytes, NextFrom;
  }

  lemma ExitAgrees(state: ReadinessState)
    requires ReadinessAgrees(state)
    ensures ReadinessAgrees(ProcessExited(state)) && !ProcessExited(state).status.Pending?
    ensures ProcessExited(state)
         == if !state.status.Pending? then state
            else state.(status := ReadinessFailed, failureReason := Some("process_exited_before_ready"))
  {
  }

  lemma {:induction false} RunAgrees(t: Tracker, state: ReadinessState, events: seq<Stimulus>)
    requires ReadinessAgrees(state)
    ensures var end := After(t, state, events).1;
            && ReadinessAgrees(end) && |end.checks| == |state.checks|
            && forall i {:trigger end.checks[i]} :: 0 <= i < |state.checks| ==>
                 && end.checks[i].condition == state.checks[i].condition
                 && (state.checks[i].readyAt.Some? ==> end.checks[i] == state.checks[i])
    decreases |events|
  {
    hide Stepped, ReadinessAgrees;
    if events == [] {
    } else {
      StepAgrees(t, state, events[0]);
      var next := Stepped(t, state, events[0]);
      RunAgrees(next.0, next.1, events[1..]);
    }
  }

  lemma NewAgrees(conditions: seq<Condition>, timeout: nat, createdAt: nat)
    ensures ReadinessAgrees(NewReadiness(conditions, timeout, createdAt))
  {
    var state := NewReadiness(conditions, timeout, createdAt);
    assert conditions != [] ==> state.checks[0].readyAt.None?;
  }

  /**
   * When a run becomes ready. Over every sequence of output and polls it is ready exactly when every one of its checks
   * is, each with its evidence; while it is pending some check still waits; and no check ever becomes another one.
   */
  lemma ReadyMeansAllReady(conditions: seq<Condition>, timeout: nat, createdAt: nat, events: seq<Stimulus>)
    ensures var end := After(NEW_TRACKER, NewReadiness(conditions, timeout, createdAt), events).1;
            && |end.checks| == |conditions|
            && (forall i :: 0 <= i < |conditions| ==> end.checks[i].condition == conditions[i])
            && (end.status.Ready? <==>
                  conditions != [] && forall i :: 0 <= i < |conditions| ==> end.checks[i].readyAt.Some?)
            && (end.status.Ready? ==> forall i :: 0 <= i < |conditions| ==> end.checks[i].evidence.Some?)
            && (end.status.Pending? ==> exists i :: 0 <= i < |conditions| && end.checks[i].readyAt.None?)
  {
    NewAgrees(conditions, timeout, createdAt);
    RunAgrees(NEW_TRACKER, NewReadiness(conditions, timeout, createdAt), events);
  }

  /** The wall-clock time an event reads. */
  function TimeOf(e: Stimulus): nat {
    match e
    case Feed(_, _, now) => now
    case Poll(now, _, _) => now
  }

  lemma StepAtDeadline(t: Tracker, state: ReadinessState, e: Stimulus)
    ensures var state' := Stepped(t, state, e).1;
            && state'.deadlineAt == state.deadlineAt
            && (state'.status.Pending? ==> state.status.Pending?)
            && (state'.status.Pending? && e.Poll? && state.deadlineAt.Some? ==> e.pollNow < state.deadlineAt.value)
            && (state'.status.TimedOut? && !state.status.TimedOut? ==>
                  && e.Poll? && state.deadlineAt.Some? && e.pollNow >= state.deadlineAt.value
                  && state'.failureReason == Some("readiness_timeout"))
            && (state'.status.Ready? && !state.status.Ready? ==> state'.readyAt == Some(TimeOf(e)))
            && (!state.status.Pending? ==> state' == state)
  {
    hide MaxTail, ContainsBytes, NextFrom;
  }

  lemma {:induction false} RunAtDeadline(t: Tracker, state: ReadinessState, events: seq<Stimulus>)
    ensures var end := After(t, state, events).1;
            && (end.status.Pending? ==> state.status.Pending?)
            && (end.status.Pending? && state.deadlineAt.Some? ==>
                  forall k :: 0 <= k < |events| && events[k].Poll? ==> events[k].pollNow < state.deadlineAt.value)
            && (end.status.TimedOut? && !state.status.TimedOut? ==>
                  && end.failureReason == Some("readiness_timeout")
                  && exists k :: 0 <= k < |events| && events[k].Poll? && state.deadlineAt.Some?
                              && events[k].pollNow >= state.deadlineAt.value)
            && (end.status.Ready? && !state.status.Ready? ==>
                  exists k :: 0 <= k < |events| && end.readyAt == Some(TimeOf(events[k])))
    decreases |events|
  {
    hide Stepped;
    if events == [] {
    } else {
      var next := Stepped(t, state, events[0]);
      StepAtDeadline(t, state, events[0]);
      RunAtDeadline(next.0, next.1, events[1..]);
      var end := After(t, state, events).1;
      if end.status.TimedOut? && !state.status.TimedOut? && !next.1.status.TimedOut? {
        var k :| 0 <= k < |events[1..]| && events[1..][k].Poll? && events[1..][k].pollNow >= state.deadlineAt.value;
        assert events[k + 1].Poll?;
      }
      if end.status.Ready? && !state.status.Ready? && !next.1.status.Ready? {
        var k :| 0 <= k < |events[1..]| && end.readyAt == Some(TimeOf(events[1..][k]));
        assert events[k + 1] == events[1..][k];
      } else if end.status.Ready? && !state.status.Ready? {
        SettledStays(next.0, next.1, events[1..]);
        assert end.readyAt == Some(TimeOf(events[0]));
      }
      if next.1.status.TimedOut? {
        SettledStays(next.0, next.1, events[1..]);
      }
      forall k | 0 <= k < |events| && events[k].Poll? && end.status.Pending? && state.deadlineAt.Some?
        ensures events[k].pollNow < state.deadlineAt.value
      {
        if k > 0 {
          assert events[1..][k - 1] == events[k];
        }
      }
    }
  }

  /**
   * The deadline counts from the creation: it is missed only at a poll at or after it, and every such poll sees it.
   * A run that became ready did so at one of its events.
   */
  lemma DeadlineIsKept(conditions: seq<Condition>, timeout: nat, createdAt: nat, events: seq<Stimulus>)
    requires conditions != [] && createdAt + timeout <= U64_MAX
    ensures var end := After(NEW_TRACKER, NewReadiness(conditions, timeout, createdAt), events).1;
            && (end.status.Pending? ==>
                  forall k :: 0 <= k < |events| && events[k].Poll? ==> events[k].pollNow < createdAt + timeout)
            && (end.status.TimedOut? ==>
                  && end.failureReason == Some("readiness_timeout")
                  && exists k :: 0 <= k < |events| && events[k].Poll? && events[k].pollNow >= createdAt + timeout)
            && (end.status.Ready? ==> exists k :: 0 <= k < |events| && end.readyAt == Some(TimeOf(events[k])))
  {
    RunAtDeadline(NEW_TRACKER, NewReadiness(conditions, timeout, createdAt), events);
  }

  // ----- what made a check ready

  /** This event made the check ready: output for a log check, a probe that reported something for any other. */
  ghost predicate Found(check: Check, e: Stimulus) {
    match e
    case Feed(stream, bytes, now) =>
      check.condition.Log? && check.readyAt == Some(now) && check.evidence == Some(SeenOn(stream, now))
    case Poll(now, instant, report) =>
      && !check.condition.Log? && !check.condition.PortLease? && report.Some?
      && check.readyAt == Some(now) && check.evidence == Some(Probed(report.value))
  }

  ghost predicate AllFound(checks: seq<Check>, events: seq<Stimulus>) {
    forall i {:trigger checks[i]} :: 0 <= i < |checks| && checks[i].readyAt.Some? ==>
      exists k :: 0 <= k < |events| && Found(checks[i], events[k])
  }

  lemma StepFinds(t: Tracker, state: ReadinessState, e: Stimulus, i: nat)
    requires i < |state.checks|
    ensures var state' := Stepped(t, state, e).1;
            && i < |state'.checks|
            && (state'.checks[i] != state.checks[i] ==> Found(state'.checks[i], e))
  {
    hide MaxTail, ContainsBytes;
  }

  /** Every ready check was found so by an event of the run, at its time, and its evidence is what that event showed. */
  lemma {:induction false} EveryReadyCheckWasFound(start: ReadinessState, events: seq<Stimulus>)
    requires ReadinessAgrees(start) && forall i :: 0 <= i < |start.checks| ==> Unready(start.checks[i])
    ensures AllFound(After(NEW_TRACKER, start, events).1.checks, events)
    decreases |events|
  {
    hide Stepped;
    if events == [] {
    } else {
      var n := |events| - 1;
      var before, e := events[..n], events[n];
      EveryReadyCheckWasFound(start, before);
      RunAgrees(NEW_TRACKER, start, before);
      var now := After(NEW_TRACKER, start, before);
      assert before + [e] == events;
      AfterSnoc(NEW_TRACKER, start, before, e);
      StepAgrees(now.0, now.1, e);
      var checks := After(NEW_TRACKER, start, events).1.checks;
      forall i | 0 <= i < |checks| && checks[i].readyAt.Some?
        ensures exists k :: 0 <= k < |events| && Found(checks[i], events[k])
      {
        StepFinds(now.0, now.1, e, i);
        if checks[i] == now.1.checks[i] {
          var k :| 0 <= k < |before| && Found(now.1.checks[i], before[k]);
          assert Found(checks[i], events[k]);
        } else {
          assert Found(checks[i], events[n]);
        }
      }
    }
  }

  // ----- how often probes come

  /** The last poll of a run that was not throttled, by its instant. */
  function LastProbe(start: ReadinessState, events: seq<Stimulus>): Option<nat> {
    After(NEW_TRACKER, start, events).0.lastProbe
  }

  lemma StepProbes(t: Tracker, state: ReadinessState, e: Stimulus)
    ensures var t' := Stepped(t, state, e).0;
            && (t'.lastProbe != t.lastProbe ==>
                  && e.Poll? && t'.lastProbe == Some(e.instant)
                  && (t.lastProbe.Some? ==> e.instant >= t.lastProbe.value + 50))
            && (e.Poll? && state.status.Pending? && Stepped(t, state, e).1.status != TimedOut
                && (t.lastProbe.Some? ==> e.instant >= t.lastProbe.value + 50) ==>
                  t'.lastProbe == Some(e.instant))
  {
    hide MaxTail, ContainsBytes, NextFrom;
  }

  /** Whatever was probed last was probed by some poll, and no poll probes before 50 ms are over. */
  lemma {:induction false} LastProbeWasAPoll(start: ReadinessState, events: seq<Stimulus>)
    ensures LastProbe(start, events).Some? ==>
              exists k :: 0 <= k < |events| && events[k].Poll? && LastProbe(start, events) == Some(events[k].instant)
    decreases |events|
  {
    hide Stepped;
    if events == [] {
    } else {
      var n := |events| - 1;
      LastProbeWasAPoll(start, events[..n]);
      var now := After(NEW_TRACKER, start, events[..n]);
      assert events[..n] + [events[n]] == events;
      AfterSnoc(NEW_TRACKER, start, events[..n], events[n]);
      StepProbes(now.0, now.1, events[n]);
      if now.0.lastProbe == LastProbe(start, events) && now.0.lastProbe.Some? {
        var k :| 0 <= k < n && events[..n][k].Poll? && LastProbe(start, events[..n]) == Some(events[..n][k].instant);
        assert events[k].Poll?;
      }
    }
  }

  lemma {:induction false} LastProbeOnlyGrows(start: ReadinessState, events: seq<Stimulus>, k: nat)
    requires k <= |events| && LastProbe(start, events[..k]).Some?
    ensures LastProbe(start, events).Some?
    ensures LastProbe(start, events).value >= LastProbe(start, events[..k]).value
    decreases |events|
  {
    hide Stepped;
    if k == |events| {
      assert events[..k] == events;
    } else {
      var n := |events| - 1;
      assert events[..n][..k] == events[..k];
      LastProbeOnlyGrows(start, events[..n], k);
      var now := After(NEW_TRACKER, start, events[..n]);
      assert events[..n] + [events[n]] == events;
      AfterSnoc(NEW_TRACKER, start, events[..n], events[n]);
      StepProbes(now.0, now.1, events[n]);
    }
  }

  /**
   * The throttle, from both sides. Two polls that were let through lie at least 50 ms apart; and a poll in time that
   * comes 50 ms after every earlier one is let through.
   */
  lemma ProbesKeepTheirDistance(start: ReadinessState, events: seq<Stimulus>, j: nat, k: nat)
    requires j < k < |events| && events[j].Poll? && events[k].Poll?
    ensures && LastProbe(start, events[..j + 1]) != LastProbe(start, events[..j])
            && LastProbe(start, events[..k + 1]) != LastProbe(start, events[..k]) ==>
              events[k].instant >= events[j].instant + 50
    ensures && After(NEW_TRACKER, start, events[..k]).1.status.Pending?
            && !After(NEW_TRACKER, start, events[..k + 1]).1.status.TimedOut?
            && (forall i :: 0 <= i < k && events[i].Poll? ==> events[k].instant >= events[i].instant + 50) ==>
              LastProbe(start, events[..k + 1]) == Some(events[k].instant)
  {
    hide Stepped;
    ProbeAt(start, events, j);
    ProbeAt(start, events, k);
    LastProbeWasAPoll(start, events[..k]);
    if LastProbe(start, events[..j + 1]) != LastProbe(start, events[..j]) {
      assert events[..k][..j + 1] == events[..j + 1];
      LastProbeOnlyGrows(start, events[..k], j + 1);
    }
  }

  lemma ProbeAt(start: ReadinessState, events: seq<Stimulus>, k: nat)
    requires k < |events|
    ensures var before, now := After(NEW_TRACKER, start, events[..k]), After(NEW_TRACKER, start, events[..k + 1]);
            && (now.0.lastProbe != before.0.lastProbe ==>
                  && events[k].Poll? && now.0.lastProbe == Some(events[k].instant)
                  && (before.0.lastProbe.Some? ==> events[k].instant >= before.0.lastProbe.value + 50))
            && (events[k].Poll? && before.1.status.Pending? && now.1.status != TimedOut
                && (before.0.lastProbe.Some? ==> events[k].instant >= before.0.lastProbe.value + 50) ==>
                  now.0.lastProbe == Some(events[k].instant))
  {
    hide Stepped;
    var before := After(NEW_TRACKER, start, events[..k]);
    assert events[..k] + [events[k]] == events[..k + 1];
    AfterSnoc(NEW_TRACKER, start, events[..k], events[k]);
    StepProbes(before.0, before.1, events[k]);
  }

  // ----- every probeable check gets its turn

  /** How far the round-robin index still has to travel to reach check `i`. */
  function Distance(next: nat, count: nat, i: nat): nat
    requires i < count
  {
    if next <= i then i - next else SatSub(i + count, next)
  }

  /** This step is a poll that gets as far as probing. */
  predicate ReachesProbe(t: Tracker, state: ReadinessState, e: Stimulus) {
    && e.Poll? && state.status.Pending? && !TimeIsUp(state, e.pollNow) && !Throttled(t, e.instant)
    && NextExternalCheck(t, state).Some?
  }

  /** How many polls of a run probe; the others are throttled, too late, or find readiness settled. */
  function ProbingPolls(t: Tracker, state: ReadinessState, events: seq<Stimulus>): nat
    decreases |events|
  {
    if events == [] then 0
    else
      var (t', state') := Stepped(t, state, events[0]);
      (if ReachesProbe(t, state, events[0]) then 1 else 0) + ProbingPolls(t', state', events[1..])
  }

  /** Check `i` is still to be probed, and readiness pending, whenever something happens. */
  ghost predicate Waits(t: Tracker, state: ReadinessState, events: seq<Stimulus>, i: nat)
    decreases |events|
  {
    events == [] ||
    var (t', state') := Stepped(t, state, events[0]);
    && state.status.Pending? && i < |state.checks| && Probeable(state.checks[i])
    && Waits(t', state', events[1..], i)
  }

  /** Some poll of a run probes check `i`. */
  ghost predicate Probes(t: Tracker, state: ReadinessState, events: seq<Stimulus>, i: nat)
    decreases |events|
  {
    events != [] &&
    var (t', state') := Stepped(t, state, events[0]);
    || (ReachesProbe(t, state, events[0]) && NextExternalCheck(t, state) == Some(i))
    || Probes(t', state', events[1..], i)
  }

  /** A probe of another check brings the index strictly closer to a check that is still waiting. */
  lemma ProbeComesCloser(t: Tracker, state: ReadinessState, i: nat)
    requires i < |state.checks| && Probeable(state.checks[i])
    requires t.nextProbeIndex <= |state.checks|
    ensures NextExternalCheck(t, state).Some?
    ensures var index := NextExternalCheck(t, state).value;
            && index < |state.checks|
            && (index != i ==>
                  Distance(index + 1, |state.checks|, i) < Distance(t.nextProbeIndex, |state.checks|, i))
  {
    var n, start := |state.checks|, t.nextProbeIndex;
    var d := Distance(start, n, i);
    TurnIs(start, d, n);
    assert Probeable(state.checks[Turn(start, d, n)]);
    var next := NextExternalCheck(t, state);
    assert next.Some?;
    var k :| 0 <= k < n && next.value == Turn(start, k, n)
          && forall j :: 0 <= j < k ==> !Probeable(state.checks[Turn(start, j, n)]);
    assert k <= d;
    TurnIs(start, k, n);
  }

  lemma TurnIs(start: nat, offset: nat, count: nat)
    requires start <= count && offset < count
    ensures Turn(start, offset, count) == if start + offset < count then start + offset else start + offset - count
  {
    var x := start + offset;
    if x >= count {
      assert x == 1 * count + (x - count);
    }
  }

  /** A step that does not probe leaves the turn where it is; no step changes the number of checks. */
  lemma TurnMovesByProbing(t: Tracker, state: ReadinessState, e: Stimulus)
    ensures var (t', state') := Stepped(t, state, e);
            && |state'.checks| == |state.checks|
            && t'.nextProbeIndex ==
                 if ReachesProbe(t, state, e) then NextExternalCheck(t, state).value + 1 else t.nextProbeIndex
  {
    hide NextFrom, MaxTail, ContainsBytes;
  }

  lemma {:induction false} ProbedWithinDistance(t: Tracker, state: ReadinessState, events: seq<Stimulus>, i: nat)
    requires i < |state.checks| && t.nextProbeIndex <= |state.checks|
    requires ProbingPolls(t, state, events) > Distance(t.nextProbeIndex, |state.checks|, i)
    requires Waits(t, state, events, i)
    ensures Probes(t, state, events, i)
    decreases |events|
  {
    hide Stepped, NextExternalCheck, Distance, ReachesProbe;
    if events == [] {
    } else {
      var next := Stepped(t, state, events[0]);
      TurnMovesByProbing(t, state, events[0]);
      if !ReachesProbe(t, state, events[0]) {
        ProbedWithinDistance(next.0, next.1, events[1..], i);
      } else {
        ProbeComesCloser(t, state, i);
        if NextExternalCheck(t, state) != Some(i) {
          ProbedWithinDistance(next.0, next.1, events[1..], i);
        }
      }
    }
  }

  lemma {:induction false} TurnStaysInRange(t: Tracker, state: ReadinessState, events: seq<Stimulus>)
    requires t.nextProbeIndex <= |state.checks|
    ensures var end := After(t, state, events);
            end.0.nextProbeIndex <= |end.1.checks| == |state.checks|
    decreases |events|
  {
    if events == [] {
    } else {
      var next := Stepped(t, state, events[0]);
      TurnStaysInRange(next.0, next.1, events[1..]);
    }
  }

  /**
   * Fairness, from any point of any run and whatever comes between: output, throttled polls, other checks becoming
   * ready. A check that goes on waiting is probed by the time as many polls have probed as there are checks.
   */
  lemma ProbesAreFair(start: ReadinessState, events: seq<Stimulus>, more: seq<Stimulus>, i: nat)
    requires var now := After(NEW_TRACKER, start, events);
             && i < |now.1.checks| <= ProbingPolls(now.0, now.1, more)
             && Waits(now.0, now.1, more, i)
    ensures var now := After(NEW_TRACKER, start, events);
            Probes(now.0, now.1, more, i)
  {
    var now := After(NEW_TRACKER, start, events);
    TurnStaysInRange(NEW_TRACKER, start, events);
    ProbedWithinDistance(now.0, now.1, more, i);
  }

  /** A probe that reports something makes its check ready, and with it nothing else that was not. */
  lemma ProbeSucceeds(t: Tracker, state: ReadinessState, e: Stimulus)
    requires ReachesProbe(t, state, e) && e.report.Some?
    ensures var index, checks := NextExternalCheck(t, state).value, Stepped(t, state, e).1.checks;
            && index < |state.checks| == |checks| && Found(checks[index], e)
            && forall i :: 0 <= i < |checks| && i != index ==> checks[i] == state.checks[i]
  {
  }

  lemma {:induction false} ReadyWithinDistance(t: Tracker, state: ReadinessState, events: seq<Stimulus>, i: nat)
    requires ReadinessAgrees(state) && i < |state.checks| && t.nextProbeIndex <= |state.checks|
    requires !state.checks[i].condition.Log? && !state.checks[i].condition.PortLease?
    requires Unready(state.checks[i]) ==>
               ProbingPolls(t, state, events) > Distance(t.nextProbeIndex, |state.checks|, i)
    requires forall e :: e in events && e.Poll? ==> e.report.Some?
    ensures var checks := After(t, state, events).1.checks;
            i < |checks| && !Unready(checks[i])
    decreases |events|
  {
    hide Stepped, ReachesProbe, ReadinessAgrees, NextExternalCheck, Distance;
    if !Unready(state.checks[i]) {
      RunAgrees(t, state, events);
    } else if events == [] {
    } else {
      var next := Stepped(t, state, events[0]);
      StepAgrees(t, state, events[0]);
      TurnMovesByProbing(t, state, events[0]);
      if ReachesProbe(t, state, events[0]) {
        ProbeComesCloser(t, state, i);
        OnlyPollsProbe(t, state, events[0]);
        ProbeSucceeds(t, state, events[0]);
      }
      ReadyWithinDistance(next.0, next.1, events[1..], i);
    }
  }

  lemma OnlyPollsProbe(t: Tracker, state: ReadinessState, e: Stimulus)
    requires ReachesProbe(t, state, e)
    ensures e.Poll? && NextExternalCheck(t, state).Some?
  {
  }

  /**
   * So where every probe succeeds, a check that can be probed is ready by the time as many polls have probed as there
   * are checks, from any point of any run.
   */
  lemma SuccessfulProbesSuffice(start: ReadinessState, events: seq<Stimulus>, more: seq<Stimulus>, i: nat)
    requires ReadinessAgrees(start) && i < |start.checks|
    requires !start.checks[i].condition.Log? && !start.checks[i].condition.PortLease?
    requires var now := After(NEW_TRACKER, start, events); ProbingPolls(now.0, now.1, more) >= |start.checks|
    requires forall e :: e in more && e.Poll? ==> e.report.Some?
    ensures var end := After(NEW_TRACKER, start, events + more).1;
            i < |end.checks| && end.checks[i].readyAt.Some? && end.checks[i].evidence.Some?
  {
    var now := After(NEW_TRACKER, start, events);
    RunAgrees(NEW_TRACKER, start, events);
    TurnStaysInRange(NEW_TRACKER, start, events);
    ReadyWithinDistance(now.0, now.1, more, i);
    RunAgrees(now.0, now.1, more);
    AfterJoin(NEW_TRACKER, start, events, more);
  }

  lemma {:induction false} AfterJoin(t: Tracker, state: ReadinessState, events: seq<Stimulus>, more: seq<Stimulus>)
    ensures var now := After(t, state, events);
            After(t, state, events + more) == After(now.0, now.1, more)
    decreases |events|
  {
    hide Stepped;
    if events == [] {
      assert events + more == more;
    } else {
      var next := Stepped(t, state, events[0]);
      AfterJoin(next.0, next.1, events[1..], more);
      assert (events + more)[1..] == events[1..] + more;
    }
  }
}
