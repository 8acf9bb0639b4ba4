/** The supervisor's Windows command line, and `CommandLineToArgvW` reading it back. */
module WindowsDetach {
  import opened Wrappers

  type unit = x: int | 0 <= x < 0x1_0000

  const NUL: unit := 0
  const TAB: unit := 9
  const SPACE: unit := 32
  const QUOTE: unit := 34
  const BACKSLASH: unit := 92

  function Ascii(text: string): seq<unit>
    requires forall i :: 0 <= i < |text| ==> text[i] < 128 as char
  {
    seq(|text|, i requires 0 <= i < |text| => text[i] as int)
  }

  function Repeat(u: unit, count: nat): seq<unit> {
    seq(count, _ => u)
  }

  /** What `CommandLineToArgvW` takes for the end of an argument: a space or a tab. */
  predicate Blank(u: unit) {
    u == 32 || u == 9
  }

  predicate NeedsQuotes(argument: seq<unit>) {
    argument == []
    || exists i :: 0 <= i < |argument| && (argument[i] == SPACE || argument[i] == TAB || argument[i] == QUOTE)
  }

  // ----- quoting

  /** What the quoting loop emits for `argument` when `backslashes` of them are still pending. */
  function Escaped(argument: seq<unit>, backslashes: nat): seq<unit> {
    if argument == [] then Repeat(BACKSLASH, backslashes * 2) + [QUOTE]
    else if argument[0] == BACKSLASH then Escaped(argument[1..], backslashes + 1)
    else if argument[0] == QUOTE then
      Repeat(BACKSLASH, backslashes * 2 + 1) + [QUOTE] + Escaped(argument[1..], 0)
    else
      Repeat(BACKSLASH, backslashes) + [argument[0]] + Escaped(argument[1..], 0)
  }

  function Quoted(argument: seq<unit>): seq<unit> {
    if NeedsQuotes(argument) then [QUOTE] + Escaped(argument, 0) else argument
  }

  /** What the loop emits for one unit, and the backslashes pending after it. */
  function Emitted(u: unit, backslashes: nat): (seq<unit>, nat) {
    if u == BACKSLASH then ([], backslashes + 1)
    else if u == QUOTE then (Repeat(BACKSLASH, backslashes * 2 + 1) + [QUOTE], 0)
    else (Repeat(BACKSLASH, backslashes) + [u], 0)
  }

  lemma EscapedStep(argument: seq<unit>, i: nat, backslashes: nat)
    requires i < |argument|
    ensures var (units, pending) := Emitted(argument[i], backslashes);
            Escaped(argument[i..], backslashes) == units + Escaped(argument[i + 1..], pending)
  {
    assert argument[i..][0] == argument[i] && argument[i..][1..] == argument[i + 1..];
    assert [] + Escaped(argument[i + 1..], backslashes + 1) == Escaped(argument[i + 1..], backslashes + 1);
  }

  lemma Regroup(all: seq<unit>, before: seq<unit>, units: seq<unit>, rest: seq<unit>)
    requires before + (units + rest) == all
    ensures before + units + rest == all
  {
  }

  method AppendQuoted(output: seq<unit>, argument: seq<unit>) returns (result: seq<unit>)
    ensures result == output + Quoted(argument)
  {
    hide Escaped, Repeat;
    if !NeedsQuotes(argument) {
      return output + argument;
    }
    result := output + [QUOTE];
    var backslashes := 0;
    assert argument[0..] == argument;
    for i := 0 to |argument|
      invariant result + Escaped(argument[i..], backslashes) == output + Quoted(argument)
    {
      var u := argument[i];
      ghost var before, emitted := result, Emitted(u, backslashes);
      EscapedStep(argument, i, backslashes);
      Regroup(output + Quoted(argument), before, emitted.0, Escaped(argument[i + 1..], emitted.1));
      if u == BACKSLASH {
        backslashes := backslashes + 1;
        assert result == before + emitted.0;
      } else if u == QUOTE {
        result := result + Repeat(BACKSLASH, backslashes * 2 + 1);
        result := result + [QUOTE];
        backslashes := 0;
        assert result == before + emitted.0;
      } else {
        result := result + Repeat(BACKSLASH, backslashes);
        result := result + [u];
        backslashes := 0;
        assert result == before + emitted.0;
      }
    }
    EscapedEnds(argument, backslashes);
    result := result + Repeat(BACKSLASH, backslashes * 2);
    result := result + [QUOTE];
  }

  lemma EscapedEnds(argument: seq<unit>, backslashes: nat)
    ensures Escaped(argument[|argument|..], backslashes) == Repeat(BACKSLASH, backslashes * 2) + [QUOTE]
  {
  }

  // ----- CommandLineToArgvW

  /**
   * One argument after argv[0], from a unit that is not blank: the value it denotes and how much of the line is
   * left. `value` ends in `backslashes` pending backslashes; `quotes` is 1 inside a quoted part and 0 outside.
   */
  function Argument(line: seq<unit>, value: seq<unit>, backslashes: nat, quotes: nat): (r: (seq<unit>, seq<unit>))
    requires backslashes <= |value|
    ensures |r.1| <= |line|
    decreases |line|, 0
  {
    if line == [] then (value, [])
    else if quotes == 0 && Blank(line[0]) then (value, line)
    else if line[0] == BACKSLASH then Argument(line[1..], value + [BACKSLASH], backslashes + 1, quotes)
    else if line[0] == QUOTE then
      var halved := value[..|value| - (backslashes - backslashes / 2)];
      if backslashes % 2 == 0 then AfterQuote(line[1..], halved, quotes + 1)
      else AfterQuote(line[1..], value[..|value| - (backslashes / 2 + 1)] + [QUOTE], quotes)
    else Argument(line[1..], value + [line[0]], 0, quotes)
  }

  /** A run of quotes: every third one counted from the opening one is literal, a second one closes. */
  function AfterQuote(line: seq<unit>, value: seq<unit>, quotes: nat): (r: (seq<unit>, seq<unit>))
    ensures |r.1| <= |line|
    decreases |line|, 1
  {
    if line != [] && line[0] == QUOTE then
      if quotes + 1 == 3 then AfterQuote(line[1..], value + [QUOTE], 0)
      else AfterQuote(line[1..], value, quotes + 1)
    else Argument(line, value, 0, if quotes == 2 then 0 else quotes)
  }

  function SkipBlanks(line: seq<unit>): (rest: seq<unit>)
    ensures |rest| <= |line|
    ensures rest != [] ==> !Blank(rest[0])
  {
    if line != [] && Blank(line[0]) then SkipBlanks(line[1..]) else line
  }

  function Arguments(line: seq<unit>): seq<seq<unit>>
    decreases |line|
  {
    var rest := SkipBlanks(line);
    if rest == [] then []
    else
      var (value, after) := Argument(rest, [], 0, 0);
      if |after| < |rest| then [value] + Arguments(after) else [value]
  }

  /** argv[0] knows no escapes: it runs to the next quote if it starts with one, else to the next blank. */
  function UpToQuote(line: seq<unit>): (seq<unit>, seq<unit>) {
    if line == [] then ([], [])
    else if line[0] == QUOTE then ([], line[1..])
    else
      var (value, rest) := UpToQuote(line[1..]);
      ([line[0]] + value, rest)
  }

  function UpToBlank(line: seq<unit>): (seq<unit>, seq<unit>) {
    if line == [] || Blank(line[0]) then ([], line)
    else
      var (value, rest) := UpToBlank(line[1..]);
      ([line[0]] + value, rest)
  }

  function ProgramName(line: seq<unit>): (seq<unit>, seq<unit>) {
    if line != [] && line[0] == QUOTE then UpToQuote(line[1..]) else UpToBlank(line)
  }

  function CommandLineToArgv(line: seq<unit>): seq<seq<unit>> {
    var (program, rest) := ProgramName(line);
    [program] + Arguments(rest)
  }

  function BeforeNul(buffer: seq<unit>): seq<unit> {
    if buffer == [] || buffer[0] == NUL then [] else [buffer[0]] + BeforeNul(buffer[1..])
  }

  // ----- the round trip of one argument

  lemma RepeatMore(u: unit, count: nat)
    ensures Repeat(u, count + 1) == [u] + Repeat(u, count) == Repeat(u, count) + [u]
  {
  }

  /** Backslashes accumulate in the value, whatever follows. */
  lemma {:induction false} ReadBackslashes(count: nat, tail: seq<unit>, value: seq<unit>, backslashes: nat, quotes: nat)
    requires backslashes <= |value|
    ensures Argument(Repeat(BACKSLASH, count) + tail, value, backslashes, quotes)
         == Argument(tail, value + Repeat(BACKSLASH, count), backslashes + count, quotes)
    decreases count
  {
    var line := Repeat(BACKSLASH, count) + tail;
    if count == 0 {
      assert line == tail && value + Repeat(BACKSLASH, 0) == value;
    } else {
      RepeatMore(BACKSLASH, count - 1);
      assert line[0] == BACKSLASH && line[1..] == Repeat(BACKSLASH, count - 1) + tail;
      ReadBackslashes(count - 1, tail, value + [BACKSLASH], backslashes + 1, quotes);
      assert value + [BACKSLASH] + Repeat(BACKSLASH, count - 1) == value + Repeat(BACKSLASH, count);
    }
  }

  /** Doubled backslashes before the closing quote are read back single, and the quote ends the argument. */
  lemma ReadClosing(pending: nat, tail: seq<unit>, value: seq<unit>)
    requires tail == [] || Blank(tail[0])
    ensures Argument(Escaped([], pending) + tail, value, 0, 1) == (value + Repeat(BACKSLASH, pending), tail)
  {
    ReadBackslashes(pending * 2, [QUOTE] + tail, value, 0, 1);
    assert Escaped([], pending) + tail == Repeat(BACKSLASH, pending * 2) + ([QUOTE] + tail);
    var piled := value + Repeat(BACKSLASH, pending * 2);
    assert ([QUOTE] + tail)[1..] == tail;
    var read := value + Repeat(BACKSLASH, pending);
    assert piled[..|piled| - pending] == read;
    assert AfterQuote(tail, read, 2) == (read, tail);
  }

  /** One backslash more than double before a quote makes the quote literal. */
  lemma ReadLiteralQuote(pending: nat, rest: seq<unit>, value: seq<unit>)
    ensures Argument(Repeat(BACKSLASH, pending * 2 + 1) + ([QUOTE] + rest), value, 0, 1)
         == AfterQuote(rest, value + Repeat(BACKSLASH, pending) + [QUOTE], 1)
  {
    ReadBackslashes(pending * 2 + 1, [QUOTE] + rest, value, 0, 1);
    var piled := value + Repeat(BACKSLASH, pending * 2 + 1);
    assert ([QUOTE] + rest)[1..] == rest;
    assert piled[..|piled| - (pending + 1)] == value + Repeat(BACKSLASH, pending);
  }

  /** Backslashes before anything else stand for themselves. */
  lemma ReadPlain(pending: nat, u: unit, rest: seq<unit>, value: seq<unit>)
    requires u != BACKSLASH && u != QUOTE
    ensures Argument(Repeat(BACKSLASH, pending) + ([u] + rest), value, 0, 1)
         == Argument(rest, value + Repeat(BACKSLASH, pending) + [u], 0, 1)
  {
    ReadBackslashes(pending, [u] + rest, value, 0, 1);
    assert ([u] + rest)[1..] == rest;
  }

  /** The escaped form of an argument, read inside quotes, denotes the pending backslashes and the argument. */
  lemma {:induction false} ReadEscaped(argument: seq<unit>, pending: nat, tail: seq<unit>, value: seq<unit>)
    requires tail == [] || Blank(tail[0])
    ensures Argument(Escaped(argument, pending) + tail, value, 0, 1)
         == (value + Repeat(BACKSLASH, pending) + argument, tail)
    decreases |argument|, 0
  {
    hide Argument, AfterQuote;
    if argument == [] {
      ReadClosing(pending, tail, value);
      assert value + Repeat(BACKSLASH, pending) + argument == value + Repeat(BACKSLASH, pending);
    } else {
      var u, rest := argument[0], Escaped(argument[1..], 0) + tail;
      var read := value + Repeat(BACKSLASH, pending) + [u];
      assert read + argument[1..] == value + Repeat(BACKSLASH, pending) + argument;
      if u == BACKSLASH {
        ReadEscaped(argument[1..], pending + 1, tail, value);
        assert value + Repeat(BACKSLASH, pending + 1) == read;
      } else if u == QUOTE {
        ReadLiteralQuote(pending, rest, value);
        assert Escaped(argument, pending) + tail == Repeat(BACKSLASH, pending * 2 + 1) + ([QUOTE] + rest);
        ReadAfterEscapedQuote(argument[1..], tail, read);
      } else {
        ReadPlain(pending, u, rest, value);
        assert Escaped(argument, pending) + tail == Repeat(BACKSLASH, pending) + ([u] + rest);
        ReadEscaped(argument[1..], 0, tail, read);
        assert read + Repeat(BACKSLASH, 0) == read;
      }
    }
  }

  /** After an escaped quote the reader first counts a run of quotes; only the closing one can follow directly. */
  lemma ReadAfterEscapedQuote(argument: seq<unit>, tail: seq<unit>, value: seq<unit>)
    requires tail == [] || Blank(tail[0])
    ensures AfterQuote(Escaped(argument, 0) + tail, value, 1) == (value + argument, tail)
    decreases |argument|, 1
  {
    var line := Escaped(argument, 0) + tail;
    if argument == [] {
      assert line == [QUOTE] + tail;
      assert line[1..] == tail;
      assert AfterQuote(tail, value, 2) == (value, tail);
      assert value + argument == value;
    } else {
      EscapedStart(argument, 0);
      assert line[0] == Escaped(argument, 0)[0];
      ReadEscaped(argument, 0, tail, value);
      assert value + Repeat(BACKSLASH, 0) + argument == value + argument;
    }
  }

  lemma {:induction false} EscapedStart(argument: seq<unit>, pending: nat)
    requires argument != [] || pending > 0
    ensures Escaped(argument, pending) != [] && Escaped(argument, pending)[0] != QUOTE
    decreases |argument|
  {
    if argument != [] && argument[0] == BACKSLASH {
      EscapedStart(argument[1..], pending + 1);
    }
  }

  lemma {:induction false} ReadBare(argument: seq<unit>, tail: seq<unit>, value: seq<unit>, backslashes: nat)
    requires backslashes <= |value|
    requires tail == [] || Blank(tail[0])
    requires forall i :: 0 <= i < |argument| ==> !Blank(argument[i]) && argument[i] != QUOTE
    ensures Argument(argument + tail, value, backslashes, 0) == (value + argument, tail)
    decreases |argument|
  {
    if argument == [] {
      assert argument + tail == tail && value + argument == value;
    } else {
      assert (argument + tail)[1..] == argument[1..] + tail;
      assert value + [argument[0]] + argument[1..] == value + argument;
      ReadBare(argument[1..], tail, value + [argument[0]],
               if argument[0] == BACKSLASH then backslashes + 1 else 0);
    }
  }

  /** For every argument at all, `CommandLineToArgvW` reads the quoted form back as exactly that argument. */
  lemma QuotingRoundTrip(argument: seq<unit>, tail: seq<unit>)
    requires tail == [] || Blank(tail[0])
    ensures Argument(Quoted(argument) + tail, [], 0, 0) == (argument, tail)
  {
    hide AfterQuote, Escaped;
    if NeedsQuotes(argument) {
      var line := Quoted(argument) + tail;
      assert line[1..] == Escaped(argument, 0) + tail;
      assert line[0] == QUOTE;
      ReadAfterEscapedQuote(argument, tail, []);
      assert [] + argument == argument;
    } else {
      ReadBare(argument, tail, [], 0);
      assert [] + argument == argument;
    }
  }

  lemma QuotedStart(argument: seq<unit>)
    ensures Quoted(argument) != [] && !Blank(Quoted(argument)[0])
  {
  }

  /** A line of quoted arguments, each led by a space. */
  function Joined(arguments: seq<seq<unit>>): seq<unit> {
    if arguments == [] then [] else [SPACE] + Quoted(arguments[0]) + Joined(arguments[1..])
  }

  lemma {:induction false} ArgumentsRoundTrip(arguments: seq<seq<unit>>)
    ensures Arguments(Joined(arguments)) == arguments
    decreases |arguments|
  {
    if arguments == [] {
    } else {
      var line, rest := Joined(arguments), Quoted(arguments[0]) + Joined(arguments[1..]);
      QuotedStart(arguments[0]);
      assert line[1..] == rest;
      assert SkipBlanks(line) == rest;
      QuotingRoundTrip(arguments[0], Joined(arguments[1..]));
      ArgumentsRoundTrip(arguments[1..]);
    }
  }

  // ----- the whole command line

  datatype CommandLine = Line(buffer: seq<unit>) | ContainsNul

  const SUPERVISE := Ascii("__supervise")
  const RUN_DIR := Ascii("--run-dir")

  method BuildCommandLine(executable: seq<unit>, runDir: seq<unit>) returns (result: CommandLine)
    ensures result.ContainsNul? <==> NUL in executable || NUL in runDir
    ensures result.Line? ==>
              result.buffer == Quoted(executable) + Joined([SUPERVISE, RUN_DIR, runDir]) + [NUL]
  {
    hide Quoted, Joined, NeedsQuotes, Ascii;
    if NUL in executable {
      return ContainsNul;
    }
    var line := AppendQuoted([], executable);
    line := line + [SPACE];
    line := line + SUPERVISE;
    line := line + [SPACE];
    line := line + RUN_DIR;
    line := line + [SPACE];
    if NUL in runDir {
      return ContainsNul;
    }
    line := AppendQuoted(line, runDir);
    FixedArguments(runDir);
    assert line == Quoted(executable) + ([SPACE] + SUPERVISE + [SPACE] + RUN_DIR + [SPACE] + Quoted(runDir));
    line := line + [NUL];
    result := Line(line);
  }

  lemma PlainWord(text: string)
    requires text != ""
    requires forall i :: 0 <= i < |text| ==> '-' <= text[i] <= 'z'
    ensures Quoted(Ascii(text)) == Ascii(text)
  {
    forall i | 0 <= i < |text| ensures !Blank(Ascii(text)[i]) && Ascii(text)[i] != QUOTE {
      assert 45 <= text[i] as int;
    }
  }

  lemma FixedArguments(runDir: seq<unit>)
    ensures Joined([SUPERVISE, RUN_DIR, runDir])
         == [SPACE] + SUPERVISE + [SPACE] + RUN_DIR + [SPACE] + Quoted(runDir)
  {
    PlainWord("__supervise");
    PlainWord("--run-dir");
    hide Quoted, Ascii;
    assert [SUPERVISE, RUN_DIR, runDir][1..] == [RUN_DIR, runDir];
    assert [RUN_DIR, runDir][1..] == [runDir];
    assert Joined([runDir]) == [SPACE] + Quoted(runDir);
    assert Joined([RUN_DIR, runDir]) == [SPACE] + RUN_DIR + ([SPACE] + Quoted(runDir));
  }

  /** The executables whose quoted form argv[0], which knows no escapes, still reads back. */
  predicate PlainProgram(executable: seq<unit>) {
    && QUOTE !in executable
    && (NeedsQuotes(executable) && executable != [] ==> executable[|executable| - 1] != BACKSLASH)
  }

  /** The backslashes an argument without quotes ends in, `pending` ones before it included. */
  function Trailing(argument: seq<unit>, pending: nat): (count: nat)
    ensures count == 0 <==> if argument == [] then pending == 0 else argument[|argument| - 1] != BACKSLASH
  {
    if argument == [] then pending
    else Trailing(argument[1..], if argument[0] == BACKSLASH then pending + 1 else 0)
  }

  /** Without quotes inside, escaping only doubles the backslashes at the end. */
  lemma Doubled(count: nat)
    ensures Repeat(BACKSLASH, count * 2) == Repeat(BACKSLASH, count) + Repeat(BACKSLASH, count)
  {
  }

  lemma OneMore(argument: seq<unit>, count: nat)
    requires argument != [] && argument[0] == BACKSLASH
    ensures Repeat(BACKSLASH, count + 1) + argument[1..] == Repeat(BACKSLASH, count) + argument
  {
  }

  lemma Regrouped(before: seq<unit>, argument: seq<unit>, after: seq<unit>)
    requires argument != []
    ensures before + [argument[0]] + (Repeat(BACKSLASH, 0) + argument[1..] + after + [QUOTE])
         == before + argument + after + [QUOTE]
  {
    assert Repeat(BACKSLASH, 0) == [];
    assert argument == [argument[0]] + argument[1..];
  }

  lemma {:induction false} EscapedPlain(argument: seq<unit>, pending: nat)
    requires QUOTE !in argument
    ensures Escaped(argument, pending)
         == Repeat(BACKSLASH, pending) + argument + Repeat(BACKSLASH, Trailing(argument, pending)) + [QUOTE]
    decreases |argument|
  {
    hide Repeat;
    var slashes := Repeat(BACKSLASH, pending);
    if argument == [] {
      Doubled(pending);
      assert slashes + argument == slashes;
    } else {
      var rest, count := argument[1..], Trailing(argument, pending);
      if argument[0] == BACKSLASH {
        EscapedPlain(rest, pending + 1);
        OneMore(argument, pending);
      } else {
        EscapedPlain(rest, 0);
        Regrouped(slashes, argument, Repeat(BACKSLASH, count));
      }
    }
  }

  lemma {:induction false} UpToQuoteStops(text: seq<unit>, tail: seq<unit>)
    requires QUOTE !in text
    ensures UpToQuote(text + [QUOTE] + tail) == (text, tail)
  {
    var line := text + [QUOTE] + tail;
    if text == [] {
      assert line[1..] == tail;
    } else {
      assert line[1..] == text[1..] + [QUOTE] + tail;
      UpToQuoteStops(text[1..], tail);
      assert line[0] == text[0] && [text[0]] + text[1..] == text;
    }
  }

  lemma {:induction false} UpToQuoteHasNone(line: seq<unit>)
    ensures QUOTE !in UpToQuote(line).0
  {
    if line != [] && line[0] != QUOTE {
      UpToQuoteHasNone(line[1..]);
    }
  }

  lemma {:induction false} UpToBlankStops(text: seq<unit>, tail: seq<unit>)
    requires forall i :: 0 <= i < |text| ==> !Blank(text[i])
    requires tail == [] || Blank(tail[0])
    ensures UpToBlank(text + tail) == (text, tail)
  {
    if text == [] {
      assert text + tail == tail;
    } else {
      assert (text + tail)[1..] == text[1..] + tail;
      UpToBlankStops(text[1..], tail);
      assert (text + tail)[0] == text[0] && [text[0]] + text[1..] == text;
    }
  }

  lemma ProgramRoundTrip(executable: seq<unit>, tail: seq<unit>)
    requires tail == [] || Blank(tail[0])
    ensures PlainProgram(executable) ==> ProgramName(Quoted(executable) + tail) == (executable, tail)
    ensures !PlainProgram(executable) ==> ProgramName(Quoted(executable) + tail).0 != executable
  {
    hide Escaped, UpToQuote, UpToBlank;
    if NeedsQuotes(executable) {
      var line := Quoted(executable) + tail;
      assert line[0] == QUOTE && line[1..] == Escaped(executable, 0) + tail;
      if QUOTE in executable {
        UpToQuoteHasNone(line[1..]);
      } else {
        QuotedProgram(executable, tail);
      }
    } else {
      BareProgram(executable, tail);
    }
  }

  lemma BareProgram(executable: seq<unit>, tail: seq<unit>)
    requires !NeedsQuotes(executable) && (tail == [] || Blank(tail[0]))
    ensures PlainProgram(executable) && ProgramName(Quoted(executable) + tail) == (executable, tail)
  {
    hide UpToBlank, UpToQuote;
    UpToBlankStops(executable, tail);
    assert executable[0] != QUOTE;
    assert (executable + tail)[0] == executable[0];
  }

  lemma QuotedProgram(executable: seq<unit>, tail: seq<unit>)
    requires QUOTE !in executable
    ensures var program := UpToQuote(Escaped(executable, 0) + tail);
            if Trailing(executable, 0) == 0 then program == (executable, tail) else program.0 != executable
  {
    hide Escaped, UpToQuote;
    EscapedPlain(executable, 0);
    var extra := Repeat(BACKSLASH, Trailing(executable, 0));
    var text := executable + extra;
    assert Repeat(BACKSLASH, 0) + executable == executable;
    UpToQuoteStops(text, tail);
    assert extra == [] ==> text == executable;
    assert extra != [] ==> |text| != |executable|;
  }

  lemma {:induction false} EscapedUnits(argument: seq<unit>, pending: nat, u: unit)
    requires u != BACKSLASH && u != QUOTE && u !in argument
    ensures u !in Escaped(argument, pending)
    decreases |argument|
  {
    if argument == [] {
    } else {
      EscapedUnits(argument[1..], pending + 1, u);
      EscapedUnits(argument[1..], 0, u);
    }
  }

  lemma {:induction false} BeforeNulIsAll(line: seq<unit>)
    requires NUL !in line
    ensures BeforeNul(line + [NUL]) == line
  {
    if line == [] {
    } else {
      assert (line + [NUL])[1..] == line[1..] + [NUL];
      BeforeNulIsAll(line[1..]);
    }
  }

  /**
   * The supervisor sees exactly the arguments it was launched with, if and only if the executable's path has no
   * quote and, when it needs quoting, no backslash at its end; the run directory may be any path.
   */
  lemma CommandLineRoundTrip(executable: seq<unit>, runDir: seq<unit>, buffer: seq<unit>)
    requires NUL !in executable && NUL !in runDir
    requires buffer == Quoted(executable) + Joined([SUPERVISE, RUN_DIR, runDir]) + [NUL]
    ensures CommandLineToArgv(BeforeNul(buffer)) == [executable, Ascii("__supervise"), Ascii("--run-dir"), runDir]
       <==> PlainProgram(executable)
  {
    hide Quoted, Joined, ProgramName, Arguments, BeforeNul, PlainProgram, Ascii;
    var arguments := [SUPERVISE, RUN_DIR, runDir];
    LineHasNoNul(executable, runDir);
    BeforeNulIsAll(Quoted(executable) + Joined(arguments));
    FixedArguments(runDir);
    assert Joined(arguments)[0] == SPACE;
    ProgramRoundTrip(executable, Joined(arguments));
    ArgumentsRoundTrip(arguments);
    assert [executable] + arguments == [executable, SUPERVISE, RUN_DIR, runDir];
    assert CommandLineToArgv(BeforeNul(buffer))[0] == ProgramName(Quoted(executable) + Joined(arguments)).0;
  }

  lemma LineHasNoNul(executable: seq<unit>, runDir: seq<unit>)
    requires NUL !in executable && NUL !in runDir
    ensures NUL !in Quoted(executable) + Joined([SUPERVISE, RUN_DIR, runDir])
  {
    hide Joined, Escaped, NeedsQuotes;
    EscapedUnits(executable, 0, NUL);
    EscapedUnits(runDir, 0, NUL);
    FixedArguments(runDir);
    assert NUL !in Quoted(executable) && NUL !in Quoted(runDir);
    assert NUL !in SUPERVISE && NUL !in RUN_DIR;
  }
}
