/**
 * The log pipeline of one run as interleaved steps: two capture threads, the bounded channel, the supervisor that
 * drains it into the readiness tracker and the writer, its durable snapshots, and a client that pages the log.
 */
module LogPipeline {
  import opened Wrappers
  import opened Model
  import opened Logs
  import opened LogPaging
  import opened Readiness
  import Channel
  import Evidence

  /** A capture thread: all it has read, the chunk it is trying to send, and whether its pipe is still open. */
  datatype Reader = Reader(bytesRead: seq<byte>, hand: seq<byte>, open: bool)

  datatype Durable = Durable(status: RunStatus, logs: LogSummary)

  /** A client that pages with `next_after_cursor`; `view` is the state document its open request was made against. */
  datatype Client = Client(
    stream: Option<LogStream>,
    after: nat,
    received: seq<LogRecord>,
    view: Option<Durable>,
    finished: bool)

  /**
   * `receiving` holds until the supervisor drops its receiver; `torn` is a line only partly written; `inFlight` is a
   * chunk taken from the channel and not yet recorded; `history` and `heard` remember what was recorded and observed.
   */
  datatype Pipe = Pipe(
    stdout: Reader,
    stderr: Reader,
    queue: seq<Chunk>,
    receiving: bool,
    created: bool,
    writer: Writer,
    torn: seq<Line>,
    inFlight: Option<Chunk>,
    history: seq<Chunk>,
    tracker: Tracker,
    readiness: ReadinessState,
    heard: Fed,
    durable: Durable,
    client: Client)
  {
    function ReaderOf(stream: LogStream): Reader {
      match stream
      case Stdout => stdout
      case Stderr => stderr
    }

    function WithReader(stream: LogStream, reader: Reader): Pipe {
      match stream
      case Stdout => this.(stdout := reader)
      case Stderr => this.(stderr := reader)
    }

    function LogFile(): Option<seq<Line>> {
      if created then Some(LinesOf(writer.records) + torn) else None
    }
  }

  function Start(maxBytes: nat, readiness: ReadinessState, stream: Option<LogStream>): Pipe {
    Pipe(
      Reader([], [], true), Reader([], [], true), [], true, false, NewWriter(maxBytes), [], None, [],
      NEW_TRACKER, readiness, Fed([], []),
      Durable(Created, NewLogSummary(maxBytes)),
      Client(stream, 0, [], None, false))
  }

  datatype Move =
    | Read(stream: LogStream, bytes: seq<byte>)
    | Send(stream: LogStream)
    | Close(stream: LogStream)
    | PersistLive(status: RunStatus)
    | CreateLog
    | Snapshot
    | Probe(now: nat, instant: nat, report: Option<string>)
    | Take(now: nat)
    | Tear(partial: Line)
    | Commit(now: nat)
    | Finish(stopped: bool)
    | Fail(persisted: bool)
    | Open
    | Fetch(limit: nat, result: Result<Page, LogError>)

  function RequestOf(p: Pipe, limit: nat): Query
    requires p.client.view.Some?
  {
    Query(p.client.view.value.status, p.client.view.value.logs, p.client.after, limit, p.client.stream)
  }

  ghost predicate CanMove(p: Pipe, a: Move) {
    match a
    case Read(s, bytes) => p.ReaderOf(s).open && p.ReaderOf(s).hand == [] && 0 < |bytes| <= READ_CHUNK_BYTES
    case Send(s) => p.ReaderOf(s).hand != [] && (p.receiving ==> |p.queue| < Channel.LOG_CHANNEL_CAPACITY)
    case Close(s) => p.ReaderOf(s).open && p.ReaderOf(s).hand == []
    case PersistLive(status) => p.receiving && status.IsLive() && p.durable.status.Rank() <= status.Rank()
    case CreateLog => p.receiving && !p.created && p.durable.status.Running?
    case Snapshot => p.receiving && p.created && p.inFlight.None?
    case Probe(_, _, _) => p.receiving && p.created && p.inFlight.None?
    case Take(_) => p.receiving && p.created && p.inFlight.None? && p.queue != []
    case Tear(partial) =>
      && p.receiving && p.inFlight.Some? && Capturable(p.writer.summary, p.inFlight.value) != []
      && !partial.terminated && partial.length <= MAX_RECORD_LINE_BYTES
    case Commit(now) => p.receiving && p.inFlight.Some? && now <= U64_MAX
    case Finish(_) =>
      && p.receiving && p.created && p.inFlight.None? && p.queue == []
      && !p.stdout.open && !p.stderr.open && p.stdout.hand == p.stderr.hand == []
    case Fail(_) => p.receiving
    case Open => true
    case Fetch(limit, result) =>
      p.client.view.Some? && 1 <= limit <= MAX_PAGE && Answers(RequestOf(p, limit), p.LogFile(), result)
  }

  function Moved(p: Pipe, a: Move): Pipe {
    match a
    case Read(s, bytes) =>
      var r := p.ReaderOf(s);
      p.WithReader(s, r.(bytesRead := r.bytesRead + bytes, hand := bytes))
    case Send(s) =>
      var r := p.ReaderOf(s);
      if p.receiving then p.WithReader(s, r.(hand := [])).(queue := p.queue + [Chunk(s, r.hand)])
      else p.WithReader(s, r.(hand := [], open := false))
    case Close(s) => p.WithReader(s, p.ReaderOf(s).(open := false))
    case PersistLive(status) => p.(durable := p.durable.(status := status))
    case CreateLog => p.(created := true)
    case Snapshot => p.(durable := p.durable.(logs := p.writer.summary))
    case Probe(now, instant, report) =>
      var next := Polled(p.tracker, p.readiness, now, instant, report);
      p.(tracker := next.0, readiness := next.1)
    case Take(now) =>
      if p.queue == [] then p else
      var chunk := p.queue[0];
      var bytes := Capturable(p.writer.summary, chunk);
      var next := Observed(p.tracker, p.readiness, chunk.stream, bytes, now);
      p.(queue := p.queue[1..], inFlight := Some(chunk), tracker := next.0, readiness := next.1,
         heard := if p.readiness.status.Pending? then p.heard.Plus(chunk.stream, bytes) else p.heard)
    case Tear(partial) => p.(torn := [partial])
    case Commit(now) =>
      if p.inFlight.None? then p else
      p.(writer := Recorded(p.writer, p.inFlight.value, now),
         history := p.history + [p.inFlight.value], torn := [], inFlight := None)
    case Finish(stopped) =>
      p.(receiving := false,
         readiness := Readiness.ProcessExited(p.readiness),
         durable := Durable(if stopped then Stopped else Exited, Finished(p.writer)))
    case Fail(persisted) =>
      p.(receiving := false, queue := [],
         durable := if persisted then p.durable.(status := Failed) else p.durable)
    case Open => p.(client := p.client.(view := Some(p.durable)))
    case Fetch(limit, result) =>
      p.(client := Fetched(p.client, result))
  }

  function Fetched(c: Client, result: Result<Page, LogError>): Client {
    match result
    case Err(_) => c.(view := None)
    case Ok(page) =>
      c.(view := None,
         after := page.nextAfterCursor,
         received := c.received + page.records,
         finished := page.terminal && !page.hasMore)
  }

  ghost predicate Plays(p: Pipe, moves: seq<Move>)
    decreases |moves|
  {
    moves == [] || (CanMove(p, moves[0]) && Plays(Moved(p, moves[0]), moves[1..]))
  }

  function Played(p: Pipe, moves: seq<Move>): Pipe
    decreases |moves|
  {
    if moves == [] then p else Played(Moved(p, moves[0]), moves[1..])
  }

  // ----- conservation: what was read is recorded, in flight, queued or in hand, in that order

  ghost predicate Fits(chunk: Chunk) {
    0 < |chunk.bytes| <= READ_CHUNK_BYTES
  }

  function OnStream(chunk: Option<Chunk>, stream: LogStream): seq<byte> {
    if chunk.Some? && chunk.value.stream == stream then chunk.value.bytes else []
  }

  /** The bytes of a stream that have left its thread: recorded, then in flight, then queued. */
  function Sent(p: Pipe, stream: LogStream): seq<byte> {
    StreamBytes(p.history, stream) + OnStream(p.inFlight, stream) + StreamBytes(p.queue, stream)
  }

  ghost predicate ConservesOn(p: Pipe, stream: LogStream) {
    && |p.ReaderOf(stream).hand| <= READ_CHUNK_BYTES
    && (p.receiving ==> p.ReaderOf(stream).bytesRead == Sent(p, stream) + p.ReaderOf(stream).hand)
  }

  ghost predicate Conserves(p: Pipe) {
    && |p.queue| <= Channel.LOG_CHANNEL_CAPACITY
    && (forall i {:trigger p.queue[i]} :: 0 <= i < |p.queue| ==> Fits(p.queue[i]))
    && (p.inFlight.Some? ==> Fits(p.inFlight.value))
    && ConservesOn(p, Stdout)
    && ConservesOn(p, Stderr)
  }

  lemma QueueLast(queue: seq<Chunk>, stream: LogStream)
    requires queue != []
    ensures var n := |queue| - 1;
            StreamBytes(queue, stream) == StreamBytes(queue[..n], stream) + OnStream(Some(queue[n]), stream)
  {
  }

  lemma {:induction false} QueueHead(queue: seq<Chunk>, stream: LogStream)
    requires queue != []
    ensures StreamBytes(queue, stream) == OnStream(Some(queue[0]), stream) + StreamBytes(queue[1..], stream)
  {
    var n := |queue| - 1;
    QueueLast(queue, stream);
    if n == 0 {
      assert queue[..0] == [];
      assert queue[1..] == [];
    } else {
      hide StreamBytes;
      QueueHead(queue[..n], stream);
      QueueLast(queue[1..], stream);
      assert queue[..n][1..] == queue[1..][..n - 1];
    }
  }

  lemma StepConserves(p: Pipe, a: Move)
    requires Conserves(p) && CanMove(p, a)
    ensures Conserves(Moved(p, a))
  {
    hide Observed, Polled, Recorded, Finished, Fetched, Answers, Capturable, Sent;
    StepConservesOn(p, a, Stdout);
    StepConservesOn(p, a, Stderr);
  }

  lemma StepConservesOn(p: Pipe, a: Move, s: LogStream)
    requires Conserves(p) && CanMove(p, a)
    ensures ConservesOn(Moved(p, a), s)
  {
    hide Observed, Polled, Recorded, Finished, Fetched;
    var p' := Moved(p, a);
    if p.receiving && (a.Read? || a.Send?) {
      ThreadConserves(p, a, s);
    } else if a.Take? || a.Commit? {
      DrainConserves(p, a, s);
      assert p'.ReaderOf(s) == p.ReaderOf(s);
    } else if p'.receiving {
      assert Sent(p', s) == Sent(p, s);
    }
  }

  lemma ThreadConserves(p: Pipe, a: Move, s: LogStream)
    requires ConservesOn(p, s) && p.receiving && CanMove(p, a) && (a.Read? || a.Send?)
    ensures ConservesOn(Moved(p, a), s)
  {
    hide Observed, Polled, Recorded, Finished, StreamBytes;
    var hand, sent, p' := p.ReaderOf(s).hand, Sent(p, s), Moved(p, a);
    if a.Read? {
      assert Sent(p', s) == sent;
      if a.stream == s {
        assert sent + [] == sent;
      }
    } else {
      var chunk := Chunk(a.stream, p.ReaderOf(a.stream).hand);
      QueueLast(p'.queue, s);
      assert p'.queue[..|p.queue|] == p.queue;
      var front := StreamBytes(p.history, s) + OnStream(p.inFlight, s);
      SendExtends(front, StreamBytes(p.queue, s), OnStream(Some(chunk), s));
    }
  }

  lemma SendExtends(front: seq<byte>, queued: seq<byte>, more: seq<byte>)
    ensures front + (queued + more) == front + queued + more == front + queued + more + []
  {
  }

  lemma DrainConserves(p: Pipe, a: Move, s: LogStream)
    requires CanMove(p, a) && (a.Take? || a.Commit?)
    ensures Sent(Moved(p, a), s) == Sent(p, s)
  {
    hide Observed, Polled, Recorded, Finished, Fetched, StreamBytes, Capturable;
    if a.Take? {
      QueueHead(p.queue, s);
      assert Moved(p, a).history == p.history && OnStream(None, s) == [];
    } else {
      HistorySnoc(p.history, p.inFlight.value);
      assert Moved(p, a).queue == p.queue;
    }
  }

  // ----- the channel as the supervisor's code meets it

  /** All chunks the threads have sent. */
  function SentSoFar(p: Pipe): seq<Chunk> {
    p.history + (if p.inFlight.Some? then [p.inFlight.value] else []) + p.queue
  }

  /** Some thread still holds its sender: its pipe is open, or its last chunk is not sent yet. */
  predicate Sending(p: Pipe) {
    p.stdout.open || p.stderr.open || p.stdout.hand != [] || p.stderr.hand != []
  }

  /** Moves of the pipe change the channel only as `Channel.Receiver` says: it grows, and not once all have ended. */
  lemma ThreadsFeedTheChannel(p: Pipe, a: Move)
    requires CanMove(p, a) && p.receiving && !a.Fail?
    ensures SentSoFar(p) <= SentSoFar(Moved(p, a))
    ensures !Sending(p) ==> !Sending(Moved(p, a)) && SentSoFar(Moved(p, a)) == SentSoFar(p)
  {
    hide Observed, Polled, Recorded, Finished, Fetched, Capturable, Answers;
    FrameOfTheLog(p, a);
  }

  /**
   * The guard of `Finish` is what the code waits for: of a supervisor between two chunks, whose channel is this one,
   * the run may end well exactly when its receiver is drained.
   */
  lemma FinishNeedsADrainedChannel(p: Pipe, stopped: bool, sent: seq<Chunk>, taken: nat, open: bool)
    requires p.receiving && p.created && p.inFlight.None?
    requires sent == SentSoFar(p) && taken <= |sent| && p.history == sent[..taken] && open == Sending(p)
    ensures CanMove(p, Finish(stopped)) <==> !open && taken == |sent|
  {
    assert |sent| == |p.history| + |p.queue|;
  }

  // ----- the log file and the durable summary

  ghost predicate Written(p: Pipe, maxBytes: nat) {
    && Faithful(p.writer, p.history, maxBytes)
    && Clean(p.writer.records)
    && TornTail(p.torn)
    && (p.torn != [] ==> p.inFlight.Some?)
  }

  lemma RecordedIsClean(w: Writer, history: seq<Chunk>, maxBytes: nat, chunk: Chunk, now: nat)
    requires maxBytes < U64_MAX && now <= U64_MAX && Fits(chunk)
    requires Faithful(w, history, maxBytes) && Clean(w.records)
    ensures Faithful(Recorded(w, chunk, now), history + [chunk], maxBytes)
    ensures Clean(Recorded(w, chunk, now).records)
  {
    RecordedIsFaithful(w, history, maxBytes, chunk, now);
    WrittenLineFits(w.summary, chunk, now);
    assert Recorded(w, chunk, now).records == w.records
        || Recorded(w, chunk, now).records == w.records + [RecordFor(w.summary, chunk, now)];
  }

  lemma FrameOfTheLog(p: Pipe, a: Move)
    ensures var p' := Moved(p, a);
            && (!a.Commit? ==> p'.writer == p.writer && p'.history == p.history)
            && (!a.Commit? && !a.Tear? ==> p'.torn == p.torn)
            && (!a.Commit? && !a.Take? ==> p'.inFlight == p.inFlight)
            && (!a.CreateLog? ==> p'.created == p.created)
            && (!a.Send? && !a.Take? && !a.Fail? ==> p'.queue == p.queue)
            && (!a.Read? && !a.Send? && !a.Close? ==> p'.stdout == p.stdout && p'.stderr == p.stderr)
  {
    hide Observed, Polled, Recorded, Finished, Fetched, Capturable;
  }

  lemma FrameOfTheRest(p: Pipe, a: Move)
    ensures var p' := Moved(p, a);
            && (!a.Take? ==> p'.heard == p.heard)
            && (!a.Take? && !a.Probe? ==> p'.tracker == p.tracker)
            && (!a.Take? && !a.Probe? && !a.Finish? ==> p'.readiness == p.readiness)
            && (!a.PersistLive? && !a.Snapshot? && !a.Finish? && !a.Fail? ==> p'.durable == p.durable)
            && (!a.Finish? && !a.Fail? ==> p'.receiving == p.receiving)
            && (!a.Open? && !a.Fetch? ==> p'.client == p.client)
  {
    hide Observed, Polled, Recorded, Finished, Fetched, Capturable;
  }

  /** What each move leaves alone. */
  lemma Frame(p: Pipe, a: Move)
    ensures var p' := Moved(p, a);
            && (!a.Commit? ==> p'.writer == p.writer && p'.history == p.history)
            && (!a.Commit? && !a.Tear? ==> p'.torn == p.torn)
            && (!a.Commit? && !a.Take? ==> p'.inFlight == p.inFlight)
            && (!a.Take? ==> p'.heard == p.heard)
            && (!a.Take? && !a.Probe? ==> p'.tracker == p.tracker)
            && (!a.Take? && !a.Probe? && !a.Finish? ==> p'.readiness == p.readiness)
            && (!a.PersistLive? && !a.Snapshot? && !a.Finish? && !a.Fail? ==> p'.durable == p.durable)
            && (!a.Finish? && !a.Fail? ==> p'.receiving == p.receiving)
            && (!a.Open? && !a.Fetch? ==> p'.client == p.client)
            && (!a.CreateLog? ==> p'.created == p.created)
            && (!a.Send? && !a.Take? && !a.Fail? ==> p'.queue == p.queue)
            && (!a.Read? && !a.Send? && !a.Close? ==> p'.stdout == p.stdout && p'.stderr == p.stderr)
  {
    hide Moved;
    FrameOfTheLog(p, a);
    FrameOfTheRest(p, a);
  }

  lemma StepWrites(p: Pipe, a: Move, maxBytes: nat)
    requires maxBytes < U64_MAX && Conserves(p) && Written(p, maxBytes) && CanMove(p, a)
    ensures Written(Moved(p, a), maxBytes)
  {
    hide Observed, Polled, Recorded, Finished, Fetched, Faithful, Clean;
    if a.Commit? {
      RecordedIsClean(p.writer, p.history, maxBytes, p.inFlight.value, a.now);
    } else {
      Frame(p, a);
    }
  }

  predicate Succeeded(status: RunStatus) {
    status.Exited? || status.Stopped?
  }

  /** Everything read has been recorded and digested, and the durable summary is the writer's final one. */
  ghost predicate Drained(p: Pipe) {
    && p.created && p.inFlight.None? && p.torn == [] && p.queue == []
    && !p.stdout.open && !p.stderr.open && p.stdout.hand == p.stderr.hand == []
    && p.stdout.bytesRead == StreamBytes(p.history, Stdout)
    && p.stderr.bytesRead == StreamBytes(p.history, Stderr)
    && p.durable.logs == Finished(p.writer)
  }

  /** The durable cursor may lag behind the file and never leads it; it is exact once the run Exited or Stopped. */
  ghost predicate Lags(p: Pipe) {
    && 1 <= p.durable.logs.nextCursor <= |p.writer.records| + 1
    && (p.receiving ==> p.durable.status.IsLive())
    && (Succeeded(p.durable.status) ==> !p.receiving && Drained(p))
  }

  lemma StepLags(p: Pipe, a: Move)
    requires ConservesOn(p, Stdout) && ConservesOn(p, Stderr) && (p.torn != [] ==> p.inFlight.Some?)
    requires p.writer.summary.nextCursor == |p.writer.records| + 1
    requires Lags(p) && CanMove(p, a)
    ensures Lags(Moved(p, a))
    ensures p.durable.logs.nextCursor <= Moved(p, a).durable.logs.nextCursor
  {
    hide Observed, Polled, Fetched;
    Frame(p, a);
    if a.Finish? {
      assert Sent(p, Stdout) + [] == StreamBytes(p.history, Stdout);
      assert Sent(p, Stderr) + [] == StreamBytes(p.history, Stderr);
    }
  }

  // ----- readiness hears only what is retained

  function InFlightKept(p: Pipe, stream: LogStream): seq<byte> {
    if p.inFlight.Some? && p.inFlight.value.stream == stream then Capturable(p.writer.summary, p.inFlight.value) else []
  }

  ghost predicate HearsOn(p: Pipe, stream: LogStream) {
    var kept := RetainedOn(p.writer.records, stream) + InFlightKept(p, stream);
    p.heard.On(stream) <= kept && (p.readiness.status.Pending? ==> p.heard.On(stream) == kept)
  }

  ghost predicate Hears(p: Pipe) {
    && HearsOn(p, Stdout)
    && HearsOn(p, Stderr)
    && Exact(p.readiness.checks, p.heard)
    && (p.readiness.status.Pending? ==> Tracks(p.tracker, p.readiness.checks, p.heard))
  }

  lemma StepHearsOn(p: Pipe, a: Move, s: LogStream)
    requires HearsOn(p, s) && CanMove(p, a)
    ensures HearsOn(Moved(p, a), s)
  {
    hide Recorded, Finished, Fetched, RetainedOn, ObservedChecks, NextExternalCheck, MaxTail;
    Frame(p, a);
    var p' := Moved(p, a);
    var kept, kept' := RetainedOn(p.writer.records, s), RetainedOn(p'.writer.records, s);
    if a.Take? {
      assert kept + [] == kept;
      assert InFlightKept(p, s) == [];
    } else if a.Commit? {
      Evidence.CommitKeeps(p.writer, p.inFlight.value, a.now, s);
      assert InFlightKept(p', s) == [];
      assert kept' + [] == kept';
      assert kept' == kept + InFlightKept(p, s);
    } else {
      assert InFlightKept(p', s) == InFlightKept(p, s);
      assert p'.readiness.status.Pending? ==> p.readiness.status.Pending?;
    }
  }

  lemma StepHears(p: Pipe, a: Move)
    requires Hears(p) && CanMove(p, a)
    ensures Hears(Moved(p, a))
  {
    hide Recorded, Finished, Fetched, RetainedOn, Exact, Tracks, ObservedChecks, NextExternalCheck, MaxTail, HearsOn;
    StepHearsOn(p, a, Stdout);
    StepHearsOn(p, a, Stderr);
    if p.readiness.status.Pending? {
      match a
      case Take(now) =>
        var chunk := p.queue[0];
        ObserveTracks(p.tracker, p.readiness, p.heard, chunk.stream, Capturable(p.writer.summary, chunk), now);
      case Probe(now, instant, report) =>
        PollTracks(p.tracker, p.readiness, p.heard, now, instant, report);
      case _ =>
    }
  }

  // ----- the paging client

  ghost predicate KeepsPace(c: Client, durable: Durable, records: seq<LogRecord>) {
    && c.after < durable.logs.nextCursor <= |records| + 1
    && c.received == Wanted(records[..c.after], c.stream)
    && (c.view.Some? ==>
          && c.after < c.view.value.logs.nextCursor <= durable.logs.nextCursor
          && (c.view.value.status.IsTerminal() ==> c.view.value == durable))
    && (c.finished ==> durable.status.IsTerminal() && c.received == Wanted(records, c.stream))
  }

  ghost predicate Paged(p: Pipe) {
    KeepsPace(p.client, p.durable, p.writer.records)
  }

  lemma StepPages(p: Pipe, a: Move)
    requires Lags(p) && Paged(p) && CanMove(p, a)
    requires Lags(Moved(p, a)) && p.durable.logs.nextCursor <= Moved(p, a).durable.logs.nextCursor
    requires Clean(p.writer.records) && TornTail(p.torn)
    ensures Paged(Moved(p, a))
  {
    hide Observed, Polled, Finished, Wanted, Faithful, Clean, RecordFor, Drained;
    Frame(p, a);
    if a.Commit? {
      var records, records' := p.writer.records, Moved(p, a).writer.records;
      assert records'[..p.client.after] == records[..p.client.after];
    } else if a.Fetch? {
      assert Moved(p, a).client == Fetched(p.client, a.result);
      if p.created {
        FetchKeepsPace(p.client, p.durable, p.writer.records, p.torn, a.limit, a.result);
      } else {
        assert p.client.received + [] == p.client.received;
      }
    }
  }

  lemma FetchKeepsPace(
    c: Client, durable: Durable, records: seq<LogRecord>, torn: seq<Line>, limit: nat, result: Result<Page, LogError>)
    requires KeepsPace(c, durable, records) && Clean(records) && TornTail(torn)
    requires c.view.Some? && 1 <= limit <= MAX_PAGE
    requires Answers(Query(c.view.value.status, c.view.value.logs, c.after, limit, c.stream),
                     Some(LinesOf(records) + torn), result)
    ensures KeepsPace(Fetched(c, result), durable, records)
  {
    if result.Ok? {
      var q := Query(c.view.value.status, c.view.value.logs, c.after, limit, c.stream);
      PageJoins(q, records, torn, result.value, c.received);
    }
  }

  /** A page appended to what was received up to its request's cursor is what is wanted up to its own cursor. */
  lemma PageJoins(q: Query, records: seq<LogRecord>, torn: seq<Line>, page: Page, received: seq<LogRecord>)
    requires Clean(records) && TornTail(torn) && Covered(q) <= |records|
    requires 1 <= q.limit <= MAX_PAGE && q.after <= Covered(q)
    requires Answers(q, Some(LinesOf(records) + torn), Ok(page))
    requires received == Wanted(records[..q.after], q.stream)
    ensures page.nextAfterCursor <= Covered(q)
    ensures received + page.records == Wanted(records[..page.nextAfterCursor], q.stream)
    ensures !page.hasMore && q.status.IsTerminal() ==> received + page.records == Wanted(records, q.stream)
    ensures page.terminal == q.status.IsTerminal()
  {
    hide Answers, Wanted, Clean, TornTail;
    PageContinues(q, records, torn, Ok(page));
    assert records[..|records|] == records;
  }

  // ----- every run

  ghost predicate Steady(p: Pipe, maxBytes: nat) {
    Conserves(p) && Written(p, maxBytes) && Lags(p) && Hears(p) && Paged(p)
  }

  lemma StartIsSteady(
    maxBytes: nat, conditions: seq<Condition>, timeout: nat, createdAt: nat, stream: Option<LogStream>)
    requires maxBytes < U64_MAX && LiteralsBounded(NewReadiness(conditions, timeout, createdAt).checks)
    ensures Steady(Start(maxBytes, NewReadiness(conditions, timeout, createdAt), stream), maxBytes)
  {
    var p := Start(maxBytes, NewReadiness(conditions, timeout, createdAt), stream);
    assert Written(p, maxBytes) by { WriterKeepsThePrefix(maxBytes, [], []); }
    assert Hears(p) by {
      hide Faithful;
      assert Tracks(p.tracker, p.readiness.checks, p.heard);
    }
    hide Written, Hears, Faithful, Tracks;
  }

  lemma {:induction false} RunStaysSteady(p: Pipe, moves: seq<Move>, maxBytes: nat)
    requires maxBytes < U64_MAX && Steady(p, maxBytes) && Plays(p, moves)
    ensures Steady(Played(p, moves), maxBytes)
    decreases |moves|
  {
    if moves == [] {
    } else {
      hide Conserves, Hears, Paged, Moved, CanMove, Faithful;
      StepConserves(p, moves[0]);
      StepWrites(p, moves[0], maxBytes);
      StepLags(p, moves[0]);
      StepHears(p, moves[0]);
      StepPages(p, moves[0]);
      RunStaysSteady(Moved(p, moves[0]), moves[1..], maxBytes);
    }
  }

  lemma {:induction false} LogOnlyGrows(p: Pipe, moves: seq<Move>)
    requires Plays(p, moves)
    ensures p.writer.records <= Played(p, moves).writer.records
    ensures Played(p, moves).client.stream == p.client.stream
    decreases |moves|
  {
    hide Moved, CanMove;
    if moves == [] {
    } else {
      StepGrows(p, moves[0]);
      LogOnlyGrows(Moved(p, moves[0]), moves[1..]);
    }
  }

  lemma StepGrows(p: Pipe, a: Move)
    ensures p.writer.records <= Moved(p, a).writer.records
    ensures Moved(p, a).client.stream == p.client.stream
  {
    hide Observed, Polled, Finished;
    Frame(p, a);
  }

  // ----- what holds of every run

  lemma {:induction false} BytesSplitByStream(history: seq<Chunk>)
    ensures |AllBytes(history)| == |StreamBytes(history, Stdout)| + |StreamBytes(history, Stderr)|
  {
    if history == [] {
    } else {
      BytesSplitByStream(history[..|history| - 1]);
    }
  }

  lemma {:induction false} PlaysAppend(p: Pipe, moves: seq<Move>, more: seq<Move>)
    requires Plays(p, moves) && Plays(Played(p, moves), more)
    ensures Plays(p, moves + more) && Played(p, moves + more) == Played(Played(p, moves), more)
    decreases |moves|
  {
    if moves == [] {
      assert moves + more == more;
    } else {
      PlaysAppend(Moved(p, moves[0]), moves[1..], more);
      assert (moves + more)[1..] == moves[1..] + more;
    }
  }

  /** A run as `start` sets it up, for which every theorem below is stated. */
  ghost predicate Begins(p: Pipe, maxBytes: nat) {
    && maxBytes < U64_MAX
    && exists conditions: seq<Condition>, timeout: nat, createdAt: nat, stream: Option<LogStream> ::
         && LiteralsBounded(NewReadiness(conditions, timeout, createdAt).checks)
         && p == Start(maxBytes, NewReadiness(conditions, timeout, createdAt), stream)
  }

  lemma EveryRunIsSteady(p: Pipe, maxBytes: nat, moves: seq<Move>)
    requires Begins(p, maxBytes) && Plays(p, moves)
    ensures Steady(Played(p, moves), maxBytes)
  {
    var conditions, timeout, createdAt, stream :|
      && LiteralsBounded(NewReadiness(conditions, timeout, createdAt).checks)
      && p == Start(maxBytes, NewReadiness(conditions, timeout, createdAt), stream);
    StartIsSteady(maxBytes, conditions, timeout, createdAt, stream);
    RunStaysSteady(p, moves, maxBytes);
  }

  /**
   * Conservation. While the supervisor receives, each stream's bytes are recorded, in flight, queued or in hand, in
   * order, with at most 64 chunks queued. A run that Exited or Stopped has digested every byte read, retained the
   * first `maxBytes` of them in arrival order, and counted the rest as dropped.
   */
  lemma NothingIsLost(p: Pipe, maxBytes: nat, moves: seq<Move>)
    requires Begins(p, maxBytes) && Plays(p, moves)
    ensures var end := Played(p, moves);
            && |end.queue| <= Channel.LOG_CHANNEL_CAPACITY
            && (end.receiving ==>
                  && end.stdout.bytesRead == Sent(end, Stdout) + end.stdout.hand
                  && end.stderr.bytesRead == Sent(end, Stderr) + end.stderr.hand)
    ensures var end := Played(p, moves);
            var total := |end.stdout.bytesRead| + |end.stderr.bytesRead|;
            Succeeded(end.durable.status) ==>
              && end.durable.logs.stdoutSha256 == Some(Sha256(end.stdout.bytesRead))
              && end.durable.logs.stderrSha256 == Some(Sha256(end.stderr.bytesRead))
              && end.durable.logs.capturedBytes == Min(total, maxBytes) == |Retained(end.writer.records)|
              && end.durable.logs.droppedBytes == Min(total - Min(total, maxBytes), U64_MAX)
              && RetainedOn(end.writer.records, Stdout) <= end.stdout.bytesRead
              && RetainedOn(end.writer.records, Stderr) <= end.stderr.bytesRead
  {
    hide Plays, Played, Begins, Hears, Paged, StreamBytes, Retained, RetainedOn, WellNumbered, Clean;
    EveryRunIsSteady(p, maxBytes, moves);
    var end := Played(p, moves);
    BytesSplitByStream(end.history);
    assert ConservesOn(end, Stdout) && ConservesOn(end, Stderr);
  }

  /**
   * Gap-free paging. Whatever a client has received by some point is a prefix of the wanted records of any later
   * log, hence of the final one; it is all of them once its last page was of a terminal run, however it ended, and
   * had no more.
   */
  lemma PagesJoinUp(p: Pipe, maxBytes: nat, moves: seq<Move>, later: seq<Move>)
    requires Begins(p, maxBytes) && Plays(p, moves) && Plays(Played(p, moves), later)
    ensures var now, end := Played(p, moves), Played(Played(p, moves), later);
            && now.client.received <= Wanted(end.writer.records, end.client.stream)
            && (now.client.finished ==> now.client.received == Wanted(end.writer.records, end.client.stream))
  {
    hide Played, Plays, Begins, Written, Conserves, Hears, Drained;
    var now, end := Played(p, moves), Played(Played(p, moves), later);
    EveryRunIsSteady(p, maxBytes, moves);
    assert Paged(now) && Lags(now);
    LogOnlyGrows(now, later);
    var c, records := now.client, end.writer.records;
    assert now.writer.records[..c.after] == records[..c.after];
    WantedGrows(records, c.after, |records|, c.stream);
    assert records[..|records|] == records;
    if c.finished {
      LogIsFinal(now, later);
    }
  }

  lemma {:induction false} TerminalStays(p: Pipe, moves: seq<Move>)
    requires Lags(p) && p.durable.status.IsTerminal() && Plays(p, moves)
    ensures Played(p, moves).durable == p.durable
    decreases |moves|
  {
    hide Observed, Polled, Recorded, Fetched, Answers;
    if moves == [] {
    } else {
      Frame(p, moves[0]);
      assert Moved(p, moves[0]).durable == p.durable;
      assert Lags(Moved(p, moves[0]));
      TerminalStays(Moved(p, moves[0]), moves[1..]);
    }
  }

  lemma {:induction false} LogIsFinal(p: Pipe, moves: seq<Move>)
    requires !p.receiving && Plays(p, moves)
    ensures Played(p, moves).writer == p.writer && Played(p, moves).torn == p.torn
    decreases |moves|
  {
    hide Observed, Polled, Recorded, Fetched, Answers;
    if moves == [] {
    } else {
      Frame(p, moves[0]);
      LogIsFinal(Moved(p, moves[0]), moves[1..]);
    }
  }

  /** No evidence is claimed from dropped bytes: a ready literal is in the retained bytes of the stream it names. */
  lemma EvidenceIsRetained(p: Pipe, maxBytes: nat, moves: seq<Move>)
    requires Begins(p, maxBytes) && Plays(p, moves)
    requires Succeeded(Played(p, moves).durable.status)
    ensures var end := Played(p, moves);
            Evidence.EvidenceRetained(end.readiness, end.writer.records)
  {
    hide Plays, Played, Begins, Evidence.EvidenceRetained, Evidence.Listening;
    EveryRunIsSteady(p, maxBytes, moves);
    var end := Played(p, moves);
    HearingIsListening(end);
    Evidence.HeardIsRetained(end.tracker, end.readiness, end.heard, end.writer.records);
  }

  lemma HearingIsListening(p: Pipe)
    requires Hears(p) && p.inFlight.None?
    ensures Evidence.Listening(p.tracker, p.readiness, p.heard, p.writer.records)
  {
    hide RetainedOn, Exact, Tracks;
    forall s
      ensures p.heard.On(s) <= RetainedOn(p.writer.records, s)
      ensures p.readiness.status.Pending? ==> p.heard.On(s) == RetainedOn(p.writer.records, s)
    {
      assert HearsOn(p, s);
      assert RetainedOn(p.writer.records, s) + [] == RetainedOn(p.writer.records, s);
    }
  }

  /**
   * When a page can be read. Short of a Failed run a request fails exactly when the log file is not there yet and
   * the status it saw is past Starting; on a Failed run it also needs a summary that covers the file, or a page
   * that fills before the summary ends.
   */
  lemma WhenPagesAreRead(p: Pipe, maxBytes: nat, moves: seq<Move>, limit: nat, result: Result<Page, LogError>)
    requires Begins(p, maxBytes) && Plays(p, moves)
    requires CanMove(Played(p, moves), Fetch(limit, result))
    ensures var end := Played(p, moves);
            var q := RequestOf(end, limit);
            result.Ok? <==>
              if !end.created then q.status.Created? || q.status.Starting?
              else
                || !q.status.Failed?
                || (Covered(q) == |end.writer.records| && end.torn == [])
                || |Matches(q, LinesOf(end.writer.records)[..Min(Covered(q), |end.writer.records|)])| > limit
  {
    hide Plays, Played, Begins, Hears, Conserves, Counts, Wanted, Matches, Clean, StreamBytes, WellNumbered;
    EveryRunIsSteady(p, maxBytes, moves);
    var end := Played(p, moves);
    var q := RequestOf(end, limit);
    if end.created {
      PageContinues(q, end.writer.records, end.torn, result);
      if q.status.IsTerminal() {
        LaggingTerminalReads(q, end.writer.records, end.torn, result);
      }
    }
  }

  // ----- two runs on which a page is refused

  const ONE_RECORD := LogRecord(1, 1, Stdout, Base64([65]), 1)

  /**
   * CONTRACT.md says that a terminal result can still be read after the supervisor has exited. On this run it
   * cannot: one byte is recorded, the supervisor fails before a snapshot, and the failure keeps the old summary.
   */
  lemma FailedLogMayBeUnreadable(p: Pipe, result: Result<Page, LogError>)
    requires p == Start(10, NewReadiness([], 0, 0), None)
    ensures var moves :=
              [PersistLive(Running), CreateLog, Read(Stdout, [65]), Send(Stdout), Take(1), Commit(1), Fail(true), Open];
            && Plays(p, moves)
            && Played(p, moves).durable.status.Failed?
            && (CanMove(Played(p, moves), Fetch(10, result)) ==> result == Err(OutsideSummary(1)))
  {
    hide Moved, CanMove;
    var a0 := [PersistLive(Running), CreateLog, Read(Stdout, [65]), Send(Stdout)];
    var a1: seq<Move> := [Take(1), Commit(1), Fail(true), Open];
    OneByteIsSent(p);
    PlaysFour(p, a0);
    var p4 := Played(p, a0);
    OneByteIsTaken(p4);
    OneByteIsRecorded(Moved(p4, Take(1)));
    PlaysFour(p4, a1);
    PlaysAppend(p, a0, a1);
    assert a0 + a1
        == [PersistLive(Running), CreateLog, Read(Stdout, [65]), Send(Stdout), Take(1), Commit(1), Fail(true), Open];
    OneByteIsRefused(Played(p4, a1), result);
  }

  lemma OneByteIsSent(p: Pipe)
    requires p == Start(10, NewReadiness([], 0, 0), None)
    ensures CanMove(p, PersistLive(Running))
    ensures var p1 := Moved(p, PersistLive(Running));
            && CanMove(p1, CreateLog)
            && var p2 := Moved(p1, CreateLog);
               && CanMove(p2, Read(Stdout, [65]))
               && var p3 := Moved(p2, Read(Stdout, [65]));
                  && CanMove(p3, Send(Stdout))
                  && Moved(p3, Send(Stdout)) ==
                       p.(created := true, durable := p.durable.(status := Running),
                          stdout := Reader([65], [], true), queue := [Chunk(Stdout, [65])])
  {
  }

  lemma OneByteIsTaken(p: Pipe)
    requires var start := Start(10, NewReadiness([], 0, 0), None);
             p == start.(created := true, durable := start.durable.(status := Running),
                         stdout := Reader([65], [], true), queue := [Chunk(Stdout, [65])])
    ensures CanMove(p, Take(1))
    ensures Moved(p, Take(1)) == p.(queue := [], inFlight := Some(Chunk(Stdout, [65])))
  {
    var chunk := Chunk(Stdout, [65]);
    assert Capturable(p.writer.summary, chunk) == [65];
    assert !p.readiness.status.Pending?;
    assert Observed(p.tracker, p.readiness, Stdout, [65], 1) == (p.tracker, p.readiness);
  }

  lemma OneByteIsRecorded(p: Pipe)
    requires p.inFlight == Some(Chunk(Stdout, [65])) && p.queue == [] && p.created && p.receiving
    requires p.writer == NewWriter(10) && p.durable == Durable(Running, NewLogSummary(10))
    requires p.client == Client(None, 0, [], None, false)
    ensures CanMove(p, Commit(1))
    ensures var p2 := Moved(p, Commit(1));
            && CanMove(p2, Fail(true))
            && var p3 := Moved(p2, Fail(true));
               && CanMove(p3, Open)
               && var p4 := Moved(p3, Open);
                  && p4.created && p4.torn == [] && p4.writer.records == [ONE_RECORD]
                  && p4.durable == Durable(Failed, NewLogSummary(10))
                  && p4.client == Client(None, 0, [], Some(p4.durable), false)
  {
    assert Capturable(p.writer.summary, Chunk(Stdout, [65])) == [65];
    assert Recorded(p.writer, Chunk(Stdout, [65]), 1).records == [ONE_RECORD];
  }

  lemma OneByteIsRefused(p: Pipe, result: Result<Page, LogError>)
    requires p.created && p.torn == [] && p.writer.records == [ONE_RECORD]
    requires p.durable == Durable(Failed, NewLogSummary(10))
    requires p.client == Client(None, 0, [], Some(p.durable), false)
    ensures CanMove(p, Fetch(10, result)) ==> result == Err(OutsideSummary(1))
  {
    if CanMove(p, Fetch(10, result)) {
      var q, lines := RequestOf(p, 10), p.LogFile().value;
      U64Digits(1);
      assert lines == [LineOf(ONE_RECORD)];
      var n: nat :| EndsAt(q, lines, n, result);
      assert VerdictAt(q, lines, 0) == Fault(OutsideSummary(1));
      assert n == 0;
    }
  }

  lemma PlaysFour(p: Pipe, moves: seq<Move>)
    requires |moves| == 4
    requires CanMove(p, moves[0])
    requires CanMove(Moved(p, moves[0]), moves[1])
    requires CanMove(Moved(Moved(p, moves[0]), moves[1]), moves[2])
    requires CanMove(Moved(Moved(Moved(p, moves[0]), moves[1]), moves[2]), moves[3])
    ensures Plays(p, moves)
    ensures Played(p, moves) == Moved(Moved(Moved(Moved(p, moves[0]), moves[1]), moves[2]), moves[3])
  {
    hide Moved, CanMove;
    var p1 := Moved(p, moves[0]);
    var p2 := Moved(p1, moves[1]);
    var p3 := Moved(p2, moves[2]);
    assert Plays(p3, moves[1..][1..][1..]) && Played(p3, moves[1..][1..][1..]) == Moved(p3, moves[3]);
    assert Plays(p2, moves[1..][1..]) && Played(p2, moves[1..][1..]) == Moved(p3, moves[3]);
    assert Plays(p1, moves[1..]) && Played(p1, moves[1..]) == Moved(p3, moves[3]);
  }

  /** `Running` is persisted before the log file is created, so a live run can briefly have no log to read. */
  lemma RunningRunMayHaveNoLog(p: Pipe, result: Result<Page, LogError>)
    requires p == Start(10, NewReadiness([], 0, 0), None)
    ensures var moves := [PersistLive(Running), Open];
            && Plays(p, moves)
            && (CanMove(Played(p, moves), Fetch(10, result)) ==> result == Err(NotFound))
  {
    var moves: seq<Move> := [PersistLive(Running), Open];
    PlaysTwo(p, moves);
  }

  lemma PlaysTwo(p: Pipe, moves: seq<Move>)
    requires |moves| == 2 && CanMove(p, moves[0]) && CanMove(Moved(p, moves[0]), moves[1])
    ensures Plays(p, moves) && Played(p, moves) == Moved(Moved(p, moves[0]), moves[1])
  {
    hide Moved, CanMove;
    var p1 := Moved(p, moves[0]);
    assert Plays(p1, moves[1..]) && Played(p1, moves[1..]) == Moved(p1, moves[1]);
  }
}
