/** The log file of one run: `LogWriter`, which fills it under a byte budget, and `read_logs`, which pages it. */
module Logs {
  import opened Wrappers
  import opened Model

  const READ_CHUNK_BYTES: nat := 8 * 1024
  const MAX_RECORD_LINE_BYTES: nat := 32 * 1024
  const MAX_PAGE: nat := 1000

  datatype Chunk = Chunk(stream: LogStream, bytes: seq<byte>)

  /** Record data: base64 as a free constructor over the encoded bytes, or text that does not decode. */
  datatype Payload = Base64(bytes: seq<byte>) | Undecodable(length: nat)

  datatype LogRecord = LogRecord(cursor: nat, timestamp: nat, stream: LogStream, data: Payload, byteCount: nat)

  datatype Content = Malformed | Document(knownSchema: bool, record: LogRecord)

  /** One line of the file as the reader meets it; `terminated` says that it ends in a newline. */
  datatype Line = Line(length: nat, terminated: bool, content: Content)

  // ----- the bytes of a chunk history and of a record sequence

  function AllBytes(history: seq<Chunk>): seq<byte> {
    if history == [] then [] else AllBytes(history[..|history| - 1]) + history[|history| - 1].bytes
  }

  function StreamBytes(history: seq<Chunk>, stream: LogStream): seq<byte> {
    if history == [] then []
    else
      var last := history[|history| - 1];
      StreamBytes(history[..|history| - 1], stream) + (if last.stream == stream then last.bytes else [])
  }

  function Decoded(record: LogRecord): seq<byte> {
    if record.data.Base64? then record.data.bytes else []
  }

  function Retained(records: seq<LogRecord>): seq<byte> {
    if records == [] then [] else Retained(records[..|records| - 1]) + Decoded(records[|records| - 1])
  }

  function RetainedOn(records: seq<LogRecord>, stream: LogStream): seq<byte> {
    if records == [] then []
    else
      var last := records[|records| - 1];
      RetainedOn(records[..|records| - 1], stream) + (if last.stream == stream then Decoded(last) else [])
  }

  lemma HistorySnoc(history: seq<Chunk>, chunk: Chunk)
    ensures AllBytes(history + [chunk]) == AllBytes(history) + chunk.bytes
    ensures forall s :: StreamBytes(history + [chunk], s)
                     == StreamBytes(history, s) + (if chunk.stream == s then chunk.bytes else [])
  {
    assert (history + [chunk])[..|history|] == history;
  }

  lemma RecordsSnoc(records: seq<LogRecord>, record: LogRecord)
    ensures Retained(records + [record]) == Retained(records) + Decoded(record)
    ensures forall s :: RetainedOn(records + [record], s)
                     == RetainedOn(records, s) + (if record.stream == s then Decoded(record) else [])
  {
    assert (records + [record])[..|records|] == records;
  }

  // ----- the length of one written line

  /** The number of decimal digits of `n`. */
  function Digits(n: nat): nat {
    if n < 10 then 1 else 1 + Digits(n / 10)
  }

  /** The length of the padded base64 of section 4 of RFC 4648. */
  function Base64Length(count: nat): nat {
    (count + 2) / 3 * 4
  }

  function DataLength(data: Payload): nat {
    match data
    case Base64(bytes) => Base64Length(|bytes|)
    case Undecodable(length) => length
  }

  /** The length of the JSON document that serde writes for a record, with its newline. */
  function LineLength(record: LogRecord): nat {
    |"{\"schema_version\":\"procherd.log-record.v1\",\"cursor\":"| + Digits(record.cursor)
    + |",\"timestamp_ms\":"| + Digits(record.timestamp)
    + |",\"stream\":\"stdout\",\"encoding\":\"base64\",\"data\":\""| + DataLength(record.data)
    + |"\",\"byte_count\":"| + Digits(record.byteCount) + |"}\n"|
  }

  function LineOf(record: LogRecord): Line {
    Line(LineLength(record), true, Document(true, record))
  }

  function LinesOf(records: seq<LogRecord>): seq<Line> {
    seq(|records|, i requires 0 <= i < |records| => LineOf(records[i]))
  }

  lemma {:induction false} DigitsWithin(n: nat, bound: nat, width: nat)
    requires n < bound && bound == Power10(width) && width >= 1
    ensures Digits(n) <= width
    decreases width
  {
    if n >= 10 {
      assert width > 1;
      DigitsWithin(n / 10, Power10(width - 1), width - 1);
    }
  }

  function Power10(width: nat): nat {
    if width == 0 then 1 else 10 * Power10(width - 1)
  }

  lemma U64Digits(n: nat)
    requires n <= U64_MAX
    ensures Digits(n) <= 20
  {
    assert Power10(5) == 100_000;
    assert Power10(10) == 10_000_000_000;
    assert Power10(15) == 1_000_000_000_000_000;
    assert Power10(20) == 100_000_000_000_000_000_000;
    DigitsWithin(n, Power10(20), 20);
  }

  // ----- the writer

  /** A writer by value: its summary, the bytes each digest has taken in, and the complete lines it wrote. */
  datatype Writer = Writer(
    summary: LogSummary,
    stdoutDigest: seq<byte>,
    stderrDigest: seq<byte>,
    records: seq<LogRecord>)

  function NewWriter(maxBytes: nat): Writer {
    Writer(NewLogSummary(maxBytes), [], [], [])
  }

  /** What the byte budget still lets through of a chunk. */
  function Capturable(summary: LogSummary, chunk: Chunk): seq<byte> {
    chunk.bytes[..Min(|chunk.bytes|, SatSub(summary.maxBytes, summary.capturedBytes))]
  }

  function Digested(w: Writer, chunk: Chunk): Writer {
    match chunk.stream
    case Stdout => w.(stdoutDigest := w.stdoutDigest + chunk.bytes)
    case Stderr => w.(stderrDigest := w.stderrDigest + chunk.bytes)
  }

  function RecordFor(summary: LogSummary, chunk: Chunk, now: nat): LogRecord {
    var bytes := Capturable(summary, chunk);
    LogRecord(summary.nextCursor, now, chunk.stream, Base64(bytes), |bytes|)
  }

  /** The writer after a chunk was recorded without an I/O error. */
  function Recorded(w: Writer, chunk: Chunk, now: nat): Writer {
    var captured := |Capturable(w.summary, chunk)|;
    var s := w.summary.(droppedBytes := SatAdd(w.summary.droppedBytes, |chunk.bytes| - captured));
    if captured == 0 then
      Digested(w, chunk).(summary := s)
    else
      Digested(w, chunk).(
        summary := s.(
          nextCursor := SatAdd(s.nextCursor, 1),
          capturedBytes := SatAdd(s.capturedBytes, captured)),
        records := w.records + [RecordFor(w.summary, chunk, now)])
  }

  function Finished(w: Writer): LogSummary {
    w.summary.(
      stdoutSha256 := Some(Sha256(w.stdoutDigest)),
      stderrSha256 := Some(Sha256(w.stderrDigest)))
  }

  /**
   * `LogWriter`. The file is the complete lines of `records` followed by `debris`, whatever a failed write left.
   */
  class LogWriter {
    var summary: LogSummary
    var stdoutDigest: seq<byte>
    var stderrDigest: seq<byte>
    var records: seq<LogRecord>
    var debris: seq<Line>

    function View(): Writer
      reads this
    {
      Writer(summary, stdoutDigest, stderrDigest, records)
    }

    constructor (maxBytes: nat)
      ensures View() == NewWriter(maxBytes) && debris == []
    {
      summary := NewLogSummary(maxBytes);
      stdoutDigest, stderrDigest, records, debris := [], [], [], [];
    }

    /** `fault` is what a failing write leaves in the file: nothing, a torn line or a whole one. */
    method Record(chunk: Chunk, now: nat, fault: Option<seq<Line>>) returns (ok: bool)
      modifies this
      ensures ok == (fault.None? || Capturable(old(summary), chunk) == [])
      ensures ok ==> View() == Recorded(old(View()), chunk, now) && debris == old(debris)
      ensures ok ==>
                || records == old(records)
                || exists n: nat ::
                     && 0 < n <= |chunk.bytes|
                     && records == old(records) + [
                          LogRecord(old(summary.nextCursor), now, chunk.stream, Base64(chunk.bytes[..n]), n)]
      ensures !ok ==> View() == Digested(old(View()), chunk) && debris == old(debris) + fault.value
    {
      match chunk.stream {
        case Stdout => stdoutDigest := stdoutDigest + chunk.bytes;
        case Stderr => stderrDigest := stderrDigest + chunk.bytes;
      }
      var available := SatSub(summary.maxBytes, summary.capturedBytes);
      var captured := Min(|chunk.bytes|, available);
      var dropped := SatSub(|chunk.bytes|, captured);
      if captured > 0 {
        var bytes := chunk.bytes[..captured];
        var record := LogRecord(summary.nextCursor, now, chunk.stream, Base64(bytes), |bytes|);
        if fault.Some? {
          debris := debris + fault.value;
          return false;
        }
        records := records + [record];
        summary := summary.(nextCursor := SatAdd(summary.nextCursor, 1));
        summary := summary.(capturedBytes := SatAdd(summary.capturedBytes, record.byteCount));
      }
      summary := summary.(droppedBytes := SatAdd(summary.droppedBytes, dropped));
      return true;
    }

    method CapturableBytes(chunk: Chunk) returns (bytes: seq<byte>)
      ensures bytes == Capturable(summary, chunk)
    {
      var available := SatSub(summary.maxBytes, summary.capturedBytes);
      bytes := chunk.bytes[..Min(|chunk.bytes|, available)];
    }

    /** `fault` is a failing flush or sync, after which the digests are not taken. */
    method Finish(fault: bool) returns (final: Option<LogSummary>)
      modifies this
      ensures final == if fault then None else Some(Finished(old(View())))
      ensures View() == (if fault then old(View()) else old(View()).(summary := Finished(old(View()))))
      ensures debris == old(debris)
    {
      if fault {
        return None;
      }
      summary := summary.(stdoutSha256 := Some(Sha256(stdoutDigest)));
      summary := summary.(stderrSha256 := Some(Sha256(stderrDigest)));
      final := Some(summary);
    }
  }

  // ----- what the writer retains of an arbitrary chunk history

  ghost predicate WellNumbered(records: seq<LogRecord>) {
    forall i {:trigger records[i]} :: 0 <= i < |records| ==>
      && records[i].cursor == i + 1
      && records[i].data.Base64?
      && 0 < records[i].byteCount == |records[i].data.bytes|
  }

  /** The counters and digests a writer with budget `maxBytes` must show after the chunks of `history`. */
  ghost predicate Counts(w: Writer, history: seq<Chunk>, maxBytes: nat) {
    var total := |AllBytes(history)|;
    && w.summary.maxBytes == maxBytes
    && w.summary.capturedBytes == Min(total, maxBytes)
    && w.summary.droppedBytes == Min(total - Min(total, maxBytes), U64_MAX)
    && w.summary.stdoutSha256 == w.summary.stderrSha256 == None
    && w.stdoutDigest == StreamBytes(history, Stdout)
    && w.stderrDigest == StreamBytes(history, Stderr)
  }

  /** The records such a writer must have written. */
  ghost predicate Retains(w: Writer, history: seq<Chunk>, maxBytes: nat) {
    var total := |AllBytes(history)|;
    && w.summary.nextCursor == |w.records| + 1
    && |w.records| <= Min(total, maxBytes)
    && WellNumbered(w.records)
    && Retained(w.records) == AllBytes(history)[..Min(total, maxBytes)]
    && (forall s :: RetainedOn(w.records, s) <= StreamBytes(history, s))
    && (total <= maxBytes ==> forall s :: RetainedOn(w.records, s) == StreamBytes(history, s))
  }

  ghost predicate Faithful(w: Writer, history: seq<Chunk>, maxBytes: nat) {
    Counts(w, history, maxBytes) && Retains(w, history, maxBytes)
  }

  /** The writer of a run that ended well: faithful to every chunk, its digests in the final summary. */
  ghost predicate Final(w: Writer, history: seq<Chunk>, maxBytes: nat) {
    && w.summary == Finished(w)
    && Faithful(w.(summary := w.summary.(stdoutSha256 := None, stderrSha256 := None)), history, maxBytes)
  }

  lemma FinishedIsFinal(w: Writer, history: seq<Chunk>, maxBytes: nat)
    requires Faithful(w, history, maxBytes)
    ensures Final(w.(summary := Finished(w)), history, maxBytes)
  {
    assert w.summary.(stdoutSha256 := None, stderrSha256 := None) == w.summary;
  }

  /** What recording does to the fields that `Counts` speaks of. */
  lemma RecordedCounts(w: Writer, history: seq<Chunk>, maxBytes: nat, chunk: Chunk, now: nat)
    requires maxBytes < U64_MAX && Counts(w, history, maxBytes)
    ensures Counts(Recorded(w, chunk, now), history + [chunk], maxBytes)
  {
    HistorySnoc(history, chunk);
    hide AllBytes, StreamBytes;
  }

  lemma RecordedIsFaithful(w: Writer, history: seq<Chunk>, maxBytes: nat, chunk: Chunk, now: nat)
    requires maxBytes < U64_MAX
    requires Faithful(w, history, maxBytes)
    ensures Faithful(Recorded(w, chunk, now), history + [chunk], maxBytes)
  {
    RecordedCounts(w, history, maxBytes, chunk, now);
    RecordedRetains(w, history, maxBytes, chunk, now);
    hide Counts, Retains, Recorded;
  }

  lemma RecordedStaysNumbered(w: Writer, chunk: Chunk, now: nat)
    requires w.summary.nextCursor == |w.records| + 1 <= U64_MAX && WellNumbered(w.records)
    ensures WellNumbered(Recorded(w, chunk, now).records)
  {
  }

  lemma RecordedRetains(w: Writer, history: seq<Chunk>, maxBytes: nat, chunk: Chunk, now: nat)
    requires maxBytes < U64_MAX
    requires Faithful(w, history, maxBytes)
    ensures Retains(Recorded(w, chunk, now), history + [chunk], maxBytes)
  {
    var w' := Recorded(w, chunk, now);
    assert w.summary.nextCursor == |w.records| + 1 && |w.records| <= maxBytes;
    RecordedRetainsAll(w, history, maxBytes, chunk, now);
    RecordedStaysNumbered(w, chunk, now);
    forall s
      ensures RetainedOn(w'.records, s) <= StreamBytes(history + [chunk], s)
      ensures |AllBytes(history + [chunk])| <= maxBytes ==>
                RetainedOn(w'.records, s) == StreamBytes(history + [chunk], s)
    {
      RecordedRetainsOn(w, history, maxBytes, chunk, now, s);
    }
    hide Recorded, AllBytes, StreamBytes, Retained, RetainedOn, WellNumbered;
  }

  /** The budget's prefix of a longer history: the old prefix and what the budget still lets through. */
  lemma BudgetPrefix(all: seq<byte>, bytes: seq<byte>, maxBytes: nat)
    ensures (all + bytes)[..Min(|all + bytes|, maxBytes)]
         == all[..Min(|all|, maxBytes)] + bytes[..Min(|bytes|, SatSub(maxBytes, Min(|all|, maxBytes)))]
  {
  }

  lemma RecordedRetainsAll(w: Writer, history: seq<Chunk>, maxBytes: nat, chunk: Chunk, now: nat)
    requires maxBytes < U64_MAX
    requires w.summary.maxBytes == maxBytes && w.summary.capturedBytes == Min(|AllBytes(history)|, maxBytes)
    requires w.summary.nextCursor == |w.records| + 1 && |w.records| <= w.summary.capturedBytes
    requires Retained(w.records) == AllBytes(history)[..Min(|AllBytes(history)|, maxBytes)]
    ensures var total' := |AllBytes(history + [chunk])|;
            && Retained(Recorded(w, chunk, now).records) == AllBytes(history + [chunk])[..Min(total', maxBytes)]
            && |Recorded(w, chunk, now).records| <= Min(total', maxBytes)
            && Recorded(w, chunk, now).summary.nextCursor == |Recorded(w, chunk, now).records| + 1
  {
    HistorySnoc(history, chunk);
    RecordsSnoc(w.records, RecordFor(w.summary, chunk, now));
    BudgetPrefix(AllBytes(history), chunk.bytes, maxBytes);
    var kept, bytes := Retained(w.records), Capturable(w.summary, chunk);
    assert bytes == [] ==> kept + bytes == kept;
    hide AllBytes, StreamBytes, Retained, RetainedOn, Digested;
  }

  lemma RecordedRetainsOn(w: Writer, history: seq<Chunk>, maxBytes: nat, chunk: Chunk, now: nat, s: LogStream)
    requires maxBytes < U64_MAX
    requires w.summary.maxBytes == maxBytes && w.summary.capturedBytes == Min(|AllBytes(history)|, maxBytes)
    requires RetainedOn(w.records, s) <= StreamBytes(history, s)
    requires |AllBytes(history)| <= maxBytes ==> RetainedOn(w.records, s) == StreamBytes(history, s)
    ensures RetainedOn(Recorded(w, chunk, now).records, s) <= StreamBytes(history + [chunk], s)
    ensures |AllBytes(history + [chunk])| <= maxBytes ==>
              RetainedOn(Recorded(w, chunk, now).records, s) == StreamBytes(history + [chunk], s)
  {
    HistorySnoc(history, chunk);
    RecordsSnoc(w.records, RecordFor(w.summary, chunk, now));
    hide AllBytes, StreamBytes, Retained, RetainedOn;
    var given := StreamBytes(history, s);
    if Capturable(w.summary, chunk) == [] {
      assert Recorded(w, chunk, now).records == w.records;
      assert given <= StreamBytes(history + [chunk], s);
    } else {
      assert RetainedOn(w.records, s) == given;
    }
  }

  /** The writer after a whole chunk sequence, with the timestamps it read. */
  function RecordedAll(maxBytes: nat, history: seq<Chunk>, clock: seq<nat>): Writer
    requires |clock| == |history|
  {
    if history == [] then NewWriter(maxBytes)
    else
      var n := |history| - 1;
      Recorded(RecordedAll(maxBytes, history[..n], clock[..n]), history[n], clock[n])
  }

  lemma {:induction false} WriterKeepsThePrefix(maxBytes: nat, history: seq<Chunk>, clock: seq<nat>)
    requires |clock| == |history| && maxBytes < U64_MAX
    ensures Faithful(RecordedAll(maxBytes, history, clock), history, maxBytes)
  {
    if history == [] {
    } else {
      var n := |history| - 1;
      WriterKeepsThePrefix(maxBytes, history[..n], clock[..n]);
      RecordedIsFaithful(RecordedAll(maxBytes, history[..n], clock[..n]), history[..n], maxBytes, history[n], clock[n]);
      assert history[..n] + [history[n]] == history;
    }
  }

  /** Every line the writer produces from a capture chunk fits the reader's line limit. */
  lemma WrittenLineFits(summary: LogSummary, chunk: Chunk, now: nat)
    requires |chunk.bytes| <= READ_CHUNK_BYTES
    requires summary.nextCursor <= U64_MAX && now <= U64_MAX
    ensures LineLength(RecordFor(summary, chunk, now)) <= MAX_RECORD_LINE_BYTES
  {
    var record := RecordFor(summary, chunk, now);
    U64Digits(record.cursor);
    U64Digits(record.timestamp);
    U64Digits(record.byteCount);
  }

  // ----- the reader

  datatype LogError =
    | BadLimit
    | NotFound
    | LineTooLong
    | IncompleteRecord
    | InvalidRecord
    | UnsupportedSchema
    | NotMonotonic(cursor: nat)
    | OutsideSummary(cursor: nat)
    | InvalidBase64(cursor: nat)
    | WrongByteCount(cursor: nat)

  datatype Page = Page(
    afterCursor: nat,
    records: seq<LogRecord>,
    nextAfterCursor: nat,
    hasMore: bool,
    capturedBytes: nat,
    droppedBytes: nat,
    terminal: bool)

  /** One `logs` request, with the durable status and summary it was made against. */
  datatype Query = Query(
    status: RunStatus,
    logs: LogSummary,
    after: nat,
    limit: nat,
    stream: Option<LogStream>)

  predicate Selected(q: Query, record: LogRecord) {
    record.cursor > q.after && (q.stream.Some? ==> q.stream.value == record.stream)
  }

  datatype Verdict = Sound(record: LogRecord) | Boundary | Fault(error: LogError)

  /** How one line fares, given the cursor accepted before it. */
  function LineVerdict(q: Query, line: Line, previous: nat): Verdict {
    if line.length > MAX_RECORD_LINE_BYTES then Fault(LineTooLong)
    else if !line.terminated then
      if q.status.IsTerminal() then Fault(IncompleteRecord) else Boundary
    else match line.content
      case Malformed => Fault(InvalidRecord)
      case Document(known, record) =>
        if !known then Fault(UnsupportedSchema)
        else if record.cursor <= previous then Fault(NotMonotonic(record.cursor))
        else if record.cursor >= q.logs.nextCursor then
          if q.status.IsTerminal() then Fault(OutsideSummary(record.cursor)) else Boundary
        else if record.data.Undecodable? then Fault(InvalidBase64(record.cursor))
        else if record.byteCount == 0 || |record.data.bytes| != record.byteCount then
          Fault(WrongByteCount(record.cursor))
        else Sound(record)
  }

  function PreviousCursor(lines: seq<Line>, n: nat): nat
    requires n <= |lines|
  {
    if n == 0 || lines[n - 1].content.Malformed? then 0 else lines[n - 1].content.record.cursor
  }

  function VerdictAt(q: Query, lines: seq<Line>, n: nat): Verdict
    requires n < |lines|
  {
    LineVerdict(q, lines[n], PreviousCursor(lines, n))
  }

  ghost predicate SoundUpTo(q: Query, lines: seq<Line>, n: nat)
    requires n <= |lines|
  {
    forall i {:trigger VerdictAt(q, lines, i)} :: 0 <= i < n ==> VerdictAt(q, lines, i).Sound?
  }

  /** The selected records among the first lines of a file, in file order. */
  function Matches(q: Query, lines: seq<Line>): seq<LogRecord> {
    if lines == [] then []
    else
      var last := lines[|lines| - 1];
      Matches(q, lines[..|lines| - 1])
      + (if last.content.Document? && Selected(q, last.content.record) then [last.content.record] else [])
  }

  function PageOf(q: Query, records: seq<LogRecord>, hasMore: bool): Page {
    Page(
      q.after,
      records,
      if records == [] then q.after else records[|records| - 1].cursor,
      hasMore,
      q.logs.capturedBytes,
      q.logs.droppedBytes,
      q.status.IsTerminal())
  }

  /** Line `n` is where a scan ends: past the file, at a boundary or a fault, or where the page overflows. */
  ghost predicate EndsAt(q: Query, lines: seq<Line>, n: nat, result: Result<Page, LogError>) {
    && n <= |lines|
    && SoundUpTo(q, lines, n)
    && |Matches(q, lines[..n])| <= q.limit
    && if n < |lines| && VerdictAt(q, lines, n).Fault? then
         result == Err(VerdictAt(q, lines, n).error)
       else if n < |lines| && VerdictAt(q, lines, n).Sound? then
         && Selected(q, lines[n].content.record)
         && |Matches(q, lines[..n])| == q.limit
         && result == Ok(PageOf(q, Matches(q, lines[..n]), true))
       else
         result == Ok(PageOf(q, Matches(q, lines[..n]), false))
  }

  /** The answer to a query over a log file, which may not exist yet. */
  ghost predicate Answers(q: Query, file: Option<seq<Line>>, result: Result<Page, LogError>) {
    if q.limit == 0 || q.limit > MAX_PAGE then result == Err(BadLimit)
    else match file
      case None =>
        if q.status.Created? || q.status.Starting? then result == Ok(PageOf(q, [], false))
        else result == Err(NotFound)
      case Some(lines) => exists n: nat :: EndsAt(q, lines, n, result)
  }

  method ReadLogs(q: Query, file: Option<seq<Line>>) returns (result: Result<Page, LogError>)
    ensures Answers(q, file, result)
    ensures result == Err(BadLimit) <==> q.limit == 0 || q.limit > 1000
    ensures result == Err(NotFound) <==>
              1 <= q.limit <= 1000 && file.None? && !q.status.Created? && !q.status.Starting?
    ensures 1 <= q.limit <= 1000 && file.None? && (q.status.Created? || q.status.Starting?) ==>
              result.Ok? && result.value.records == [] && !result.value.hasMore
  {
    if q.limit == 0 || q.limit > MAX_PAGE {
      return Err(BadLimit);
    }
    var records: seq<LogRecord> := [];
    var hasMore := false;
    if file.None? {
      if !(q.status.Created? || q.status.Starting?) {
        return Err(NotFound);
      }
    } else {
      var lines := file.value;
      var previousCursor := 0;
      var n := 0;
      while n < |lines|
        invariant 0 <= n <= |lines| && !hasMore
        invariant SoundUpTo(q, lines, n)
        invariant previousCursor == PreviousCursor(lines, n)
        invariant records == Matches(q, lines[..n]) && |records| <= q.limit
      {
        var line := lines[n];
        assert VerdictAt(q, lines, n) == LineVerdict(q, line, previousCursor);
        assert lines[..n + 1][..n] == lines[..n];
        if line.length > MAX_RECORD_LINE_BYTES {
          result := Err(LineTooLong);
          assert EndsAt(q, lines, n, result);
          return;
        }
        if !line.terminated {
          if q.status.IsTerminal() {
            result := Err(IncompleteRecord);
            assert EndsAt(q, lines, n, result);
            return;
          }
          break;
        }
        if line.content.Malformed? {
          result := Err(InvalidRecord);
          assert EndsAt(q, lines, n, result);
          return;
        }
        var record := line.content.record;
        if !line.content.knownSchema {
          result := Err(UnsupportedSchema);
          assert EndsAt(q, lines, n, result);
          return;
        }
        if record.cursor == 0 || record.cursor <= previousCursor {
          result := Err(NotMonotonic(record.cursor));
          assert EndsAt(q, lines, n, result);
          return;
        }
        if record.cursor >= q.logs.nextCursor {
          if !q.status.IsTerminal() {
            break;
          }
          result := Err(OutsideSummary(record.cursor));
          assert EndsAt(q, lines, n, result);
          return;
        }
        previousCursor := record.cursor;
        if record.data.Undecodable? {
          result := Err(InvalidBase64(record.cursor));
          assert EndsAt(q, lines, n, result);
          return;
        }
        if record.byteCount == 0 || |record.data.bytes| != record.byteCount {
          result := Err(WrongByteCount(record.cursor));
          assert EndsAt(q, lines, n, result);
          return;
        }
        if Selected(q, record) {
          if |records| == q.limit {
            hasMore := true;
            break;
          }
          records := records + [record];
        }
        n := n + 1;
      }
      result := Ok(PageOf(q, records, hasMore));
      assert EndsAt(q, lines, n, result);
      return;
    }
    result := Ok(PageOf(q, records, hasMore));
  }
}
