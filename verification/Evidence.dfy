/** What readiness has heard against what the log retains: the supervisor feeds the one exactly what the other keeps. */
module Evidence {
  import opened Wrappers
  import opened Model
  import opened Logs
  import opened Readiness

  /** While readiness is pending it has heard all of the retained bytes; what it heard by then stays a prefix. */
  ghost predicate Listening(t: Tracker, state: ReadinessState, heard: Fed, records: seq<LogRecord>) {
    && Exact(state.checks, heard)
    && (state.status.Pending? ==> Tracks(t, state.checks, heard))
    && forall s :: heard.On(s) <= RetainedOn(records, s)
                && (state.status.Pending? ==> heard.On(s) == RetainedOn(records, s))
  }

  function HeardAlso(state: ReadinessState, heard: Fed, stream: LogStream, bytes: seq<byte>): Fed {
    if state.status.Pending? then heard.Plus(stream, bytes) else heard
  }

  lemma CommitKeeps(w: Writer, chunk: Chunk, now: nat, s: LogStream)
    ensures RetainedOn(Recorded(w, chunk, now).records, s)
         == RetainedOn(w.records, s) + (if chunk.stream == s then Capturable(w.summary, chunk) else [])
  {
    RecordsSnoc(w.records, RecordFor(w.summary, chunk, now));
    var kept := RetainedOn(w.records, s);
    assert kept + [] == kept;
  }

  lemma ListensToChunk(
    t: Tracker, state: ReadinessState, heard: Fed, w: Writer, chunk: Chunk, observedAt: nat, now: nat)
    requires Listening(t, state, heard, w.records)
    ensures var bytes := Capturable(w.summary, chunk);
            var (t', state') := Observed(t, state, chunk.stream, bytes, observedAt);
            Listening(t', state', HeardAlso(state, heard, chunk.stream, bytes), Recorded(w, chunk, now).records)
  {
    var bytes := Capturable(w.summary, chunk);
    hide Capturable, Recorded, RetainedOn, Exact, Tracks, ObservedChecks, MaxTail;
    if state.status.Pending? {
      ObserveTracks(t, state, heard, chunk.stream, bytes, observedAt);
      TracksExactly(Observed(t, state, chunk.stream, bytes, observedAt).0,
                    Observed(t, state, chunk.stream, bytes, observedAt).1.checks, heard.Plus(chunk.stream, bytes));
    }
    forall s
      ensures RetainedOn(w.records, s) <= RetainedOn(Recorded(w, chunk, now).records, s)
      ensures heard.Plus(chunk.stream, bytes).On(s) == heard.On(s) + (if chunk.stream == s then bytes else [])
      ensures RetainedOn(Recorded(w, chunk, now).records, s)
           == RetainedOn(w.records, s) + (if chunk.stream == s then bytes else [])
    {
      CommitKeeps(w, chunk, now, s);
      assert heard.On(s) + [] == heard.On(s);
    }
  }

  lemma TracksExactly(t: Tracker, checks: seq<Check>, heard: Fed)
    requires Tracks(t, checks, heard)
    ensures Exact(checks, heard)
  {
  }

  lemma ListensThroughPoll(
    t: Tracker, state: ReadinessState, heard: Fed, records: seq<LogRecord>, now: nat, instant: nat,
    report: Option<string>)
    requires Listening(t, state, heard, records)
    ensures var (t', state') := Polled(t, state, now, instant, report);
            Listening(t', state', heard, records)
  {
    hide RetainedOn, Exact, Tracks, MaxTail;
    if state.status.Pending? {
      PollTracks(t, state, heard, now, instant, report);
      TracksExactly(Polled(t, state, now, instant, report).0, Polled(t, state, now, instant, report).1.checks, heard);
    }
  }

  /** Before any output, of checks that are all waiting. */
  ghost predicate Unheard(checks: seq<Check>) {
    LiteralsBounded(checks) && forall i :: 0 <= i < |checks| ==> Unready(checks[i])
  }

  lemma ListensFromTheStart(state: ReadinessState)
    requires Unheard(state.checks)
    ensures Listening(NEW_TRACKER, state, Fed([], []), [])
  {
  }

  /** Every ready log check's literal is among the retained bytes of the stream its evidence names. */
  ghost predicate EvidenceRetained(state: ReadinessState, records: seq<LogRecord>) {
    forall i {:trigger state.checks[i]} :: 0 <= i < |state.checks| ==>
      var check := state.checks[i];
      check.condition.Log? && !Unready(check) ==>
      && check.evidence.Some? && check.evidence.value.SeenOn?
      && ContainsBytes(RetainedOn(records, check.evidence.value.stream), check.condition.literal)
  }

  lemma HeardIsRetained(t: Tracker, state: ReadinessState, heard: Fed, records: seq<LogRecord>)
    requires Listening(t, state, heard, records)
    ensures EvidenceRetained(state, records)
  {
    hide ContainsBytes, RetainedOn;
    forall i | 0 <= i < |state.checks| && state.checks[i].condition.Log? && !Unready(state.checks[i])
      ensures var check := state.checks[i];
              && check.evidence.Some? && check.evidence.value.SeenOn?
              && ContainsBytes(RetainedOn(records, check.evidence.value.stream), check.condition.literal)
    {
      var check := state.checks[i];
      var s := check.evidence.value.stream;
      ContainsInPrefix(heard.On(s), RetainedOn(records, s), check.condition.literal);
    }
  }

  // ----- everything readiness ever met

  /**
   * Tracker and readiness are what these events made of a readiness that began as `began`, and on each stream the
   * output among them is exactly what the log retains.
   */
  ghost predicate Stimulated(
    began: ReadinessState, stimuli: seq<Stimulus>, t: Tracker, state: ReadinessState, records: seq<LogRecord>)
  {
    (t, state) == After(NEW_TRACKER, began, stimuli) && forall s :: FedOn(stimuli, s) == RetainedOn(records, s)
  }

  lemma ChunkStimulates(
    began: ReadinessState, stimuli: seq<Stimulus>, t: Tracker, state: ReadinessState, w: Writer, chunk: Chunk,
    observedAt: nat, now: nat)
    requires Stimulated(began, stimuli, t, state, w.records)
    ensures var bytes := Capturable(w.summary, chunk);
            var (t', state') := Observed(t, state, chunk.stream, bytes, observedAt);
            && Stimulated(began, stimuli + [Feed(chunk.stream, bytes, observedAt)], t', state',
                          Recorded(w, chunk, now).records)
            && PollsOf(stimuli + [Feed(chunk.stream, bytes, observedAt)]) == PollsOf(stimuli)
  {
    var bytes := Capturable(w.summary, chunk);
    var e := Feed(chunk.stream, bytes, observedAt);
    hide Capturable, Recorded, RetainedOn, Observed, FedOn;
    AfterSnoc(NEW_TRACKER, began, stimuli, e);
    PollsOfSnoc(stimuli, e);
    forall s ensures FedOn(stimuli + [e], s) == RetainedOn(Recorded(w, chunk, now).records, s) {
      FedOnSnoc(stimuli, e, s);
      CommitKeeps(w, chunk, now, s);
    }
  }

  lemma PollStimulates(
    began: ReadinessState, stimuli: seq<Stimulus>, t: Tracker, state: ReadinessState, records: seq<LogRecord>,
    now: nat, instant: nat, report: Option<string>)
    requires Stimulated(began, stimuli, t, state, records)
    ensures var (t', state') := Polled(t, state, now, instant, report);
            && Stimulated(began, stimuli + [Poll(now, instant, report)], t', state', records)
            && PollsOf(stimuli + [Poll(now, instant, report)]) == PollsOf(stimuli) + [Poll(now, instant, report)]
  {
    var e := Poll(now, instant, report);
    hide RetainedOn, Polled, FedOn;
    AfterSnoc(NEW_TRACKER, began, stimuli, e);
    PollsOfSnoc(stimuli, e);
    forall s ensures FedOn(stimuli + [e], s) == RetainedOn(records, s) {
      FedOnSnoc(stimuli, e, s);
      assert FedOn(stimuli, s) + [] == FedOn(stimuli, s);
    }
  }

  lemma NothingStimulates(began: ReadinessState)
    ensures Stimulated(began, [], NEW_TRACKER, began, []) && PollsOf([]) == []
  {
  }

  /** The readiness of a run that ended well: what these events made of it, settled by the exit. */
  ghost predicate Closed(
    began: ReadinessState, stimuli: seq<Stimulus>, state: ReadinessState, records: seq<LogRecord>)
  {
    && state == Readiness.ProcessExited(After(NEW_TRACKER, began, stimuli).1)
    && forall s :: FedOn(stimuli, s) == RetainedOn(records, s)
  }

  lemma ExitCloses(
    began: ReadinessState, stimuli: seq<Stimulus>, t: Tracker, state: ReadinessState, records: seq<LogRecord>)
    requires Stimulated(began, stimuli, t, state, records)
    ensures Closed(began, stimuli, Readiness.ProcessExited(state), records)
  {
  }
}
