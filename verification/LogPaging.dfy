/** What `read_logs` returns on files that a `LogWriter` filled, and how successive pages join up. */
module LogPaging {
  import opened Wrappers
  import opened Model
  import opened Logs

  /** The records of one stream, or all of them, in file order. */
  function Wanted(records: seq<LogRecord>, stream: Option<LogStream>): seq<LogRecord> {
    if records == [] then []
    else
      var last := records[|records| - 1];
      Wanted(records[..|records| - 1], stream)
      + (if stream.Some? && stream.value != last.stream then [] else [last])
  }

  lemma WantedSnoc(records: seq<LogRecord>, k: nat, stream: Option<LogStream>)
    requires k < |records|
    ensures Wanted(records[..k + 1], stream)
         == Wanted(records[..k], stream)
            + (if stream.Some? && stream.value != records[k].stream then [] else [records[k]])
  {
    assert records[..k + 1][..k] == records[..k];
  }

  /** A writer's records that every reader can take: numbered from 1, sized as they say, short enough. */
  ghost predicate Clean(records: seq<LogRecord>) {
    && WellNumbered(records)
    && forall i {:trigger records[i]} :: 0 <= i < |records| ==> LineLength(records[i]) <= MAX_RECORD_LINE_BYTES
  }

  /** What may follow the complete lines: nothing, or one line still being written. */
  ghost predicate TornTail(tail: seq<Line>) {
    tail == [] || (|tail| == 1 && !tail[0].terminated && tail[0].length <= MAX_RECORD_LINE_BYTES)
  }

  /** How many records the durable summary of a query covers. */
  function Covered(q: Query): nat {
    SatSub(q.logs.nextCursor, 1)
  }

  function LastCursor(q: Query, selected: seq<LogRecord>): nat {
    if selected == [] then q.after else selected[|selected| - 1].cursor
  }

  lemma MatchesLast(q: Query, lines: seq<Line>, record: LogRecord)
    requires lines != [] && lines[|lines| - 1].content == Document(true, record)
    ensures Matches(q, lines)
         == Matches(q, lines[..|lines| - 1]) + (if Selected(q, record) then [record] else [])
  {
  }

  lemma LinesAt(records: seq<LogRecord>, k: nat)
    requires k < |records|
    ensures |LinesOf(records)| == |records| && LinesOf(records)[k].content == Document(true, records[k])
    ensures LinesOf(records)[..k + 1][..k] == LinesOf(records)[..k]
  {
  }

  lemma NoMatchesYet(q: Query, lines: seq<Line>)
    ensures Matches(q, lines[..0]) == []
  {
  }

  lemma MatchesSnoc(q: Query, records: seq<LogRecord>, k: nat)
    requires k < |records|
    ensures LinesOf(records)[..k + 1][..k] == LinesOf(records)[..k]
    ensures Matches(q, LinesOf(records)[..k + 1])
         == Matches(q, LinesOf(records)[..k]) + (if Selected(q, records[k]) then [records[k]] else [])
  {
    LinesAt(records, k);
    MatchesLast(q, LinesOf(records)[..k + 1], records[k]);
  }

  lemma {:induction false} NothingUpToTheCursor(q: Query, records: seq<LogRecord>, k: nat)
    requires WellNumbered(records) && k <= |records| && k <= q.after
    ensures Matches(q, LinesOf(records)[..k]) == []
  {
    hide Matches, LinesOf;
    if k == 0 {
      NoMatchesYet(q, LinesOf(records));
    } else {
      NothingUpToTheCursor(q, records, k - 1);
      MatchesSnoc(q, records, k - 1);
    }
  }

  /** The matches of a scan continue the wanted records exactly where the request's cursor stands. */
  lemma {:induction false} MatchesContinue(q: Query, records: seq<LogRecord>, k: nat)
    requires WellNumbered(records) && q.after <= k <= |records|
    ensures var selected := Matches(q, LinesOf(records)[..k]);
            && q.after <= LastCursor(q, selected) <= k
            && Wanted(records[..k], q.stream) == Wanted(records[..q.after], q.stream) + selected
            && Wanted(records[..LastCursor(q, selected)], q.stream) == Wanted(records[..k], q.stream)
  {
    hide Matches, Wanted, LinesOf;
    if k > q.after {
      MatchesContinue(q, records, k - 1);
      MatchesSnoc(q, records, k - 1);
      WantedSnoc(records, k - 1, q.stream);
    } else {
      NothingUpToTheCursor(q, records, k);
    }
  }

  lemma WrittenLineIsSound(q: Query, records: seq<LogRecord>, tail: seq<Line>, i: nat)
    requires Clean(records) && i < |records|
    ensures var lines := LinesOf(records) + tail;
            && lines[i].content == Document(true, records[i])
            && VerdictAt(q, lines, i) ==
                 (if i < Covered(q) then Sound(records[i])
                  else if q.status.IsTerminal() then Fault(OutsideSummary(i + 1))
                  else Boundary)
  {
    var lines := LinesOf(records) + tail;
    assert lines[i] == LineOf(records[i]);
    if i > 0 {
      assert lines[i - 1] == LineOf(records[i - 1]);
    }
    assert PreviousCursor(lines, i) == i;
    assert records[i].cursor == i + 1;
  }

  /** Past the written records there is at most a torn line, which is not sound. */
  lemma TornIsNotSound(q: Query, records: seq<LogRecord>, tail: seq<Line>)
    requires TornTail(tail)
    ensures var lines := LinesOf(records) + tail;
            |lines| > |records| ==>
              VerdictAt(q, lines, |records|) == if q.status.IsTerminal() then Fault(IncompleteRecord) else Boundary
  {
    if tail != [] {
      assert (LinesOf(records) + tail)[|records|] == tail[0];
    }
  }

  lemma ScanStaysCovered(q: Query, records: seq<LogRecord>, tail: seq<Line>, n: nat, result: Result<Page, LogError>)
    requires Clean(records) && TornTail(tail) && Covered(q) <= |records|
    requires EndsAt(q, LinesOf(records) + tail, n, result)
    ensures n <= Covered(q)
    ensures (LinesOf(records) + tail)[..n] == LinesOf(records)[..n]
  {
    hide Matches, VerdictAt, LinesOf, Clean;
    var lines, m := LinesOf(records) + tail, Covered(q);
    TornIsNotSound(q, records, tail);
    if m < |records| {
      WrittenLineIsSound(q, records, tail, m);
    }
    assert |LinesOf(records)| == |records| by { LineCount(records); }
    assert m < |lines| ==> !VerdictAt(q, lines, m).Sound?;
    assert n <= m;
    assert lines[..n] == LinesOf(records)[..n];
  }

  lemma LineCount(records: seq<LogRecord>)
    ensures |LinesOf(records)| == |records|
  {
  }

  /** A scan of a writer's file ends by the durable boundary, and short of it only when the page is full. */
  lemma ScanStops(q: Query, records: seq<LogRecord>, tail: seq<Line>, result: Result<Page, LogError>) returns (n: nat)
    requires Clean(records) && TornTail(tail) && Covered(q) <= |records|
    requires 1 <= q.limit <= MAX_PAGE
    requires Answers(q, Some(LinesOf(records) + tail), result)
    ensures n <= Covered(q) && |Matches(q, LinesOf(records)[..n])| <= q.limit
    ensures result.Ok? ==> result.value == PageOf(q, Matches(q, LinesOf(records)[..n]), result.value.hasMore)
    ensures n < Covered(q) ==>
              result.Ok? && result.value.hasMore && |result.value.records| == q.limit && Selected(q, records[n])
    ensures n == Covered(q) ==> (result.Ok? ==> !result.value.hasMore)
    ensures n == Covered(q) ==>
              (result.Ok? <==> !q.status.IsTerminal() || (|records| == Covered(q) && tail == []))
  {
    hide Clean, Matches, LinesOf, VerdictAt, SoundUpTo;
    var lines := LinesOf(records) + tail;
    n :| EndsAt(q, lines, n, result);
    LineCount(records);
    ScanStaysCovered(q, records, tail, n, result);
    TornIsNotSound(q, records, tail);
    if n < |records| {
      WrittenLineIsSound(q, records, tail, n);
    }
  }

  /**
   * One page of a run whose durable summary covers `Covered(q)` of the written records. It succeeds while the run is
   * live, or when the summary covers the whole file; a page that succeeds continues the wanted records without gap
   * or repeat, and says truthfully whether more of the covered ones remain.
   */
  lemma PageContinues(q: Query, records: seq<LogRecord>, tail: seq<Line>, result: Result<Page, LogError>)
    requires Clean(records) && TornTail(tail) && Covered(q) <= |records|
    requires 1 <= q.limit <= MAX_PAGE && q.after <= Covered(q)
    requires Answers(q, Some(LinesOf(records) + tail), result)
    ensures !q.status.IsTerminal() || (Covered(q) == |records| && tail == []) ==> result.Ok?
    ensures result.Ok? ==>
              var page := result.value;
              && q.after <= page.nextAfterCursor <= Covered(q)
              && Wanted(records[..page.nextAfterCursor], q.stream)
              == Wanted(records[..q.after], q.stream) + page.records
              && (page.hasMore ==> q.after < page.nextAfterCursor && |page.records| == q.limit)
              && (page.hasMore <==>
                    Wanted(records[..page.nextAfterCursor], q.stream) != Wanted(records[..Covered(q)], q.stream))
              && page.terminal == q.status.IsTerminal()
              && (page.terminal && !page.hasMore ==> Covered(q) == |records|)
  {
    var n := ScanStops(q, records, tail, result);
    MatchesContinue(q, records, n);
    if n < Covered(q) {
      FullPageLeavesMore(q, records, n);
    }
  }

  /** When a scan stops at a selected record, the records up to the boundary are more than the page took. */
  lemma FullPageLeavesMore(q: Query, records: seq<LogRecord>, n: nat)
    requires WellNumbered(records) && n < Covered(q) <= |records| && Selected(q, records[n])
    requires |Matches(q, LinesOf(records)[..n])| > 0
    ensures q.after < LastCursor(q, Matches(q, LinesOf(records)[..n])) <= n
    ensures |Wanted(records[..n], q.stream)| < |Wanted(records[..Covered(q)], q.stream)|
  {
    MatchesContinue(q, records, n);
    MatchesLieAfter(q, records, n);
    WantedSnoc(records, n, q.stream);
    WantedGrows(records, n + 1, Covered(q), q.stream);
  }

  lemma {:induction false} MatchesLieAfter(q: Query, records: seq<LogRecord>, k: nat)
    requires WellNumbered(records) && k <= |records|
    ensures forall r :: r in Matches(q, LinesOf(records)[..k]) ==> q.after < r.cursor <= k
  {
    hide Matches, LinesOf;
    if k == 0 {
      NoMatchesYet(q, LinesOf(records));
    } else {
      MatchesLieAfter(q, records, k - 1);
      MatchesSnoc(q, records, k - 1);
      assert records[k - 1].cursor == k;
    }
  }

  lemma {:induction false} WantedGrows(records: seq<LogRecord>, i: nat, j: nat, stream: Option<LogStream>)
    requires i <= j <= |records|
    ensures Wanted(records[..i], stream) <= Wanted(records[..j], stream)
    decreases j
  {
    if i == j {
    } else {
      WantedGrows(records, i, j - 1, stream);
      WantedSnoc(records, j - 1, stream);
    }
  }

  /**
   * A terminal run whose durable summary may lag behind its file, as `mark_supervisor_failed` leaves it: a page
   * can be read exactly when the summary covers the whole file, or the page overflows before the summary ends.
   */
  lemma LaggingTerminalReads(q: Query, records: seq<LogRecord>, tail: seq<Line>, result: Result<Page, LogError>)
    requires Clean(records) && TornTail(tail) && Covered(q) <= |records|
    requires q.status.IsTerminal()
    requires 1 <= q.limit <= MAX_PAGE
    requires Answers(q, Some(LinesOf(records) + tail), result)
    ensures result.Ok? <==> || (Covered(q) == |records| && tail == [])
                            || |Matches(q, LinesOf(records)[..Covered(q)])| > q.limit
  {
    var n := ScanStops(q, records, tail, result);
    if n < Covered(q) {
      MatchesSnoc(q, records, n);
      MatchesGrow(q, records, n + 1, Covered(q));
    }
  }

  lemma {:induction false} MatchesGrow(q: Query, records: seq<LogRecord>, i: nat, j: nat)
    requires i <= j <= |records|
    ensures |Matches(q, LinesOf(records)[..i])| <= |Matches(q, LinesOf(records)[..j])|
    decreases j
  {
    hide Matches, LinesOf;
    if i == j {
    } else {
      MatchesGrow(q, records, i, j - 1);
      MatchesSnoc(q, records, j - 1);
    }
  }

  /** A line that a reader may take: terminated, short enough, of the known schema, and as long as it says. */
  ghost predicate Genuine(line: Line, record: LogRecord) {
    && line.terminated && line.length <= 32768 && line.content == Document(true, record)
    && record.data.Base64? && |record.data.bytes| == record.byteCount > 0
  }

  /** Record `r` is one that a request for what lies after `after` on `stream` is for, below the durable boundary. */
  ghost predicate AskedFor(q: Query, r: LogRecord) {
    && q.after < r.cursor < q.logs.nextCursor
    && (q.stream.Some? ==> r.stream == q.stream.value)
  }

  lemma SoundIsGenuine(q: Query, lines: seq<Line>, i: nat)
    requires i < |lines| && VerdictAt(q, lines, i).Sound?
    ensures lines[i].content.Document? && Genuine(lines[i], lines[i].content.record)
    ensures PreviousCursor(lines, i) < lines[i].content.record.cursor < q.logs.nextCursor
  {
  }

  lemma GenuineDocument(line: Line, record: LogRecord)
    requires Genuine(line, record)
    ensures line.content == Document(true, record)
  {
  }

  lemma {:induction false} MatchesAreSound(q: Query, lines: seq<Line>, n: nat)
    requires n <= |lines| && SoundUpTo(q, lines, n)
    ensures var records := Matches(q, lines[..n]);
            && (forall r :: r in records ==>
                  AskedFor(q, r) && r.cursor <= PreviousCursor(lines, n)
                  && exists k :: 0 <= k < n && Genuine(lines[k], r))
            && forall i, j :: 0 <= i < j < |records| ==> records[i].cursor < records[j].cursor
  {
    hide VerdictAt, Genuine;
    if n == 0 {
    } else {
      assert VerdictAt(q, lines, n - 1).Sound?;
      MatchesAreSound(q, lines, n - 1);
      SoundIsGenuine(q, lines, n - 1);
      assert lines[..n][..n - 1] == lines[..n - 1];
      var record, before := lines[n - 1].content.record, Matches(q, lines[..n - 1]);
      GenuineDocument(lines[n - 1], record);
      MatchesLast(q, lines[..n], record);
    }
  }

  /**
   * Whatever the file holds, damaged or not: the records of a page ascend strictly, lie after the request's cursor and
   * below the durable boundary, are of its stream, no more than its limit, and each stands on a whole, valid line.
   * The page says what the durable summary counts.
   */
  lemma PagesAreSound(q: Query, lines: seq<Line>, page: Page)
    requires Answers(q, Some(lines), Ok(page))
    ensures |page.records| <= q.limit <= 1000
    ensures forall r :: r in page.records ==>
              AskedFor(q, r) && exists k :: 0 <= k < |lines| && Genuine(lines[k], r)
    ensures forall i, j :: 0 <= i < j < |page.records| ==> page.records[i].cursor < page.records[j].cursor
    ensures page.nextAfterCursor
         == if page.records == [] then q.after else page.records[|page.records| - 1].cursor
    ensures page.afterCursor == q.after && (page.terminal <==> !q.status.IsLive())
    ensures page.capturedBytes == q.logs.capturedBytes && page.droppedBytes == q.logs.droppedBytes
  {
    hide VerdictAt, Genuine, AskedFor, Matches;
    var n: nat :| EndsAt(q, lines, n, Ok(page));
    MatchesAreSound(q, lines, n);
  }

  /** Reading an answer is a function of the request and the file: two answers agree. */
  lemma AnswersAgree(q: Query, file: Option<seq<Line>>, a: Result<Page, LogError>, b: Result<Page, LogError>)
    requires Answers(q, file, a) && Answers(q, file, b)
    ensures a == b
  {
    if 1 <= q.limit <= MAX_PAGE && file.Some? {
      var lines := file.value;
      var i: nat :| EndsAt(q, lines, i, a);
      var j: nat :| EndsAt(q, lines, j, b);
      if i < j {
        LaterScanOverflows(q, lines, i, j, a, b);
      } else if j < i {
        LaterScanOverflows(q, lines, j, i, b, a);
      }
    }
  }

  lemma LaterScanOverflows(
    q: Query, lines: seq<Line>, i: nat, j: nat, a: Result<Page, LogError>, b: Result<Page, LogError>)
    requires i < j && EndsAt(q, lines, i, a)
    ensures !EndsAt(q, lines, j, b)
  {
    if j <= |lines| && VerdictAt(q, lines, i).Sound? {
      assert lines[..i + 1][..i] == lines[..i];
      LineMatchesGrow(q, lines, i + 1, j);
    }
  }

  lemma {:induction false} LineMatchesGrow(q: Query, lines: seq<Line>, i: nat, j: nat)
    requires i <= j <= |lines|
    ensures |Matches(q, lines[..i])| <= |Matches(q, lines[..j])|
    decreases j
  {
    if i == j {
    } else {
      LineMatchesGrow(q, lines, i, j - 1);
      assert lines[..j][..j - 1] == lines[..j - 1];
    }
  }
}
