/** `read_http_status`: one status code, however the response bytes arrive. */
module HttpStatus {
  import opened Wrappers
  import opened Model

  const MAX_HTTP_STATUS_BYTES: nat := 1024
  const READ_BUFFER_BYTES: nat := 128
  const NEWLINE: byte := 10

  // ----- the status line

  predicate Continuation(b: byte) {
    0x80 <= b <= 0xBF
  }

  /** How many bytes the first character takes, or 0 if they are not well-formed (section 4 of RFC 3629). */
  function CharWidth(b: seq<byte>): (width: nat)
    ensures width <= |b|
  {
    if b == [] then 0
    else if b[0] < 0x80 then 1
    else if |b| >= 2 && 0xC2 <= b[0] <= 0xDF && Continuation(b[1]) then 2
    else if |b| >= 3 && 0xE0 <= b[0] <= 0xEF && Continuation(b[1]) && Continuation(b[2])
         && (b[0] == 0xE0 ==> b[1] >= 0xA0) && (b[0] == 0xED ==> b[1] <= 0x9F) then 3
    else if |b| >= 4 && 0xF0 <= b[0] <= 0xF4 && Continuation(b[1]) && Continuation(b[2]) && Continuation(b[3])
         && (b[0] == 0xF0 ==> b[1] >= 0x90) && (b[0] == 0xF4 ==> b[1] <= 0x8F) then 4
    else 0
  }

  /** Well-formed UTF-8, which `str::from_utf8` demands. */
  predicate Utf8(b: seq<byte>) {
    b == [] || (CharWidth(b) != 0 && Utf8(b[CharWidth(b)..]))
  }

  predicate AsciiSpace(b: byte) {
    b == 32 || b == 9 || b == 10 || b == 12 || b == 13
  }

  function SkipSpaces(line: seq<byte>): seq<byte> {
    if line != [] && AsciiSpace(line[0]) then SkipSpaces(line[1..]) else line
  }

  /** The field a line starts with, up to the next ASCII whitespace. */
  function Field(line: seq<byte>): (field: seq<byte>)
    ensures field <= line
  {
    if line == [] || AsciiSpace(line[0]) then [] else [line[0]] + Field(line[1..])
  }

  function DecimalValue(digits: seq<byte>): Option<nat> {
    if digits == [] then Some(0)
    else
      var d := digits[|digits| - 1];
      var rest := DecimalValue(digits[..|digits| - 1]);
      if rest.Some? && 48 <= d <= 57 then Some(rest.value * 10 + (d - 48)) else None
  }

  /** `str::parse::<u16>`: an optional plus sign, at least one digit, at most 65535. */
  function ParseU16(text: seq<byte>): Option<nat> {
    var digits := if text != [] && text[0] == 43 then text[1..] else text;
    var value := DecimalValue(digits);
    if digits != [] && value.Some? && value.value <= 0xFFFF then value else None
  }

  const HTTP_1: seq<byte> := [72, 84, 84, 80, 47, 49, 46]

  function StatusOf(line: seq<byte>): Option<nat> {
    if !Utf8(line) then None
    else
      var start := SkipSpaces(line);
      var protocol := Field(start);
      if !(HTTP_1 <= protocol) then None
      else ParseU16(Field(SkipSpaces(start[|protocol|..])))
  }

  function FirstLine(bytes: seq<byte>): seq<byte> {
    if bytes == [] || bytes[0] == NEWLINE then [] else [bytes[0]] + FirstLine(bytes[1..])
  }

  // ----- well-formed UTF-8 is what encoding scalar values gives

  /** A Unicode scalar value: any code point but a surrogate. */
  predicate Scalar(c: nat) {
    c <= 0x10FFFF && !(0xD800 <= c <= 0xDFFF)
  }

  /** The encoding of section 3 of RFC 3629. */
  function Encoded(c: nat): seq<byte>
    requires Scalar(c)
  {
    if c < 0x80 then [c]
    else if c < 0x800 then [0xC0 + c / 0x40, 0x80 + c % 0x40]
    else if c < 0x1_0000 then [0xE0 + c / 0x40 / 0x40, 0x80 + c / 0x40 % 0x40, 0x80 + c % 0x40]
    else [0xF0 + c / 0x40 / 0x40 / 0x40, 0x80 + c / 0x40 / 0x40 % 0x40, 0x80 + c / 0x40 % 0x40, 0x80 + c % 0x40]
  }

  predicate AllScalars(cs: seq<nat>) {
    forall i :: 0 <= i < |cs| ==> Scalar(cs[i])
  }

  function EncodedAll(cs: seq<nat>): seq<byte>
    requires AllScalars(cs)
  {
    if cs == [] then [] else Encoded(cs[0]) + EncodedAll(cs[1..])
  }

  lemma EncodedIsOneChar(c: nat, rest: seq<byte>)
    requires Scalar(c)
    ensures CharWidth(Encoded(c) + rest) == |Encoded(c)|
  {
    var b := Encoded(c) + rest;
    assert forall i :: 0 <= i < |Encoded(c)| ==> b[i] == Encoded(c)[i];
  }

  /** A value with six more bits behind it. */
  function Shifted(high: int, low: byte): int {
    high * 0x40 + (low - 0x80)
  }

  lemma ShiftedBack(high: int, low: byte)
    requires Continuation(low)
    ensures Shifted(high, low) / 0x40 == high && 0x80 + Shifted(high, low) % 0x40 == low
  {
  }

  lemma TwoBytes(x: byte, y: byte) returns (c: nat)
    requires 0xC2 <= x <= 0xDF && Continuation(y)
    ensures Scalar(c) && Encoded(c) == [x, y]
  {
    c := Shifted(x - 0xC0, y);
    ShiftedBack(x - 0xC0, y);
  }

  lemma ThreeBytes(x: byte, y: byte, z: byte) returns (c: nat)
    requires 0xE0 <= x <= 0xEF && Continuation(y) && Continuation(z)
    requires (x == 0xE0 ==> y >= 0xA0) && (x == 0xED ==> y <= 0x9F)
    ensures Scalar(c) && Encoded(c) == [x, y, z]
  {
    var high := Shifted(x - 0xE0, y);
    ShiftedBack(x - 0xE0, y);
    assert 0x20 <= high < 0x400 && !(0x360 <= high < 0x380);
    c := Shifted(high, z);
    ShiftedBack(high, z);
  }

  lemma FourBytes(w: byte, x: byte, y: byte, z: byte) returns (c: nat)
    requires 0xF0 <= w <= 0xF4 && Continuation(x) && Continuation(y) && Continuation(z)
    requires (w == 0xF0 ==> x >= 0x90) && (w == 0xF4 ==> x <= 0x8F)
    ensures Scalar(c) && Encoded(c) == [w, x, y, z]
  {
    var higher := Shifted(w - 0xF0, x);
    ShiftedBack(w - 0xF0, x);
    assert 0x10 <= higher < 0x110;
    var high := Shifted(higher, y);
    ShiftedBack(higher, y);
    assert 0x400 <= high < 0x4400;
    c := Shifted(high, z);
    ShiftedBack(high, z);
  }

  lemma CharIsEncoded(b: seq<byte>) returns (c: nat)
    requires CharWidth(b) != 0
    ensures Scalar(c) && Encoded(c) == b[..CharWidth(b)]
  {
    var width := CharWidth(b);
    if width == 1 {
      c := b[0];
    } else if width == 2 {
      c := TwoBytes(b[0], b[1]);
    } else if width == 3 {
      c := ThreeBytes(b[0], b[1], b[2]);
    } else {
      c := FourBytes(b[0], b[1], b[2], b[3]);
    }
    hide Encoded, CharWidth, Scalar;
    assert b[..width] == if width == 1 then [b[0]] else if width == 2 then [b[0], b[1]]
                         else if width == 3 then [b[0], b[1], b[2]] else [b[0], b[1], b[2], b[3]];
  }

  lemma {:induction false} Utf8IsEncoded(b: seq<byte>) returns (cs: seq<nat>)
    requires Utf8(b)
    ensures AllScalars(cs) && EncodedAll(cs) == b
    decreases |b|
  {
    hide Encoded;
    if b == [] {
      cs := [];
    } else {
      var c := CharIsEncoded(b);
      var width := CharWidth(b);
      var rest := Utf8IsEncoded(b[width..]);
      cs := [c] + rest;
      assert cs[1..] == rest && b[..width] + b[width..] == b;
    }
  }

  lemma {:induction false} EncodingsAreUtf8(cs: seq<nat>)
    requires AllScalars(cs)
    ensures Utf8(EncodedAll(cs))
  {
    hide Encoded;
    if cs == [] {
    } else {
      EncodingsAreUtf8(cs[1..]);
      EncodedIsOneChar(cs[0], EncodedAll(cs[1..]));
      EncodedIsSomething(cs[0]);
      assert EncodedAll(cs)[|Encoded(cs[0])|..] == EncodedAll(cs[1..]);
    }
  }

  lemma EncodedIsSomething(c: nat)
    requires Scalar(c)
    ensures Encoded(c) != []
  {
  }

  /** Bytes pass for UTF-8 if and only if they are the encoding of some sequence of scalar values. */
  lemma Utf8IsExact(b: seq<byte>)
    ensures Utf8(b) <==> exists cs :: AllScalars(cs) && EncodedAll(cs) == b
  {
    if Utf8(b) {
      var cs := Utf8IsEncoded(b);
    }
    forall cs | AllScalars(cs) && EncodedAll(cs) == b ensures Utf8(b) {
      EncodingsAreUtf8(cs);
    }
  }

  // ----- exactly which lines are understood

  ghost predicate AllSpaces(bytes: seq<byte>) {
    forall i :: 0 <= i < |bytes| ==> bytes[i] in {9, 10, 12, 13, 32}
  }

  ghost predicate NoSpaces(bytes: seq<byte>) {
    forall i :: 0 <= i < |bytes| ==> bytes[i] !in {9, 10, 12, 13, 32}
  }

  /** The number that decimal digits denote, the most significant first. */
  function Denoted(digits: seq<byte>): int {
    if digits == [] then 0 else 10 * Denoted(digits[..|digits| - 1]) + (digits[|digits| - 1] as int - 48)
  }

  /** At least one decimal digit, perhaps after a plus sign, denoting a number of 16 bits. */
  ghost predicate Numeral(text: seq<byte>, code: nat) {
    exists digits :: (text == digits || text == [43] + digits) && DigitsOf(digits, code) && code < 65536
  }

  ghost predicate DigitsOf(digits: seq<byte>, code: nat) {
    digits != [] && (forall i :: 0 <= i < |digits| ==> 48 <= digits[i] <= 57) && Denoted(digits) == code
  }

  /** The line's first two fields: a protocol that begins with `HTTP/1.`, and a number. */
  ghost predicate Announces(
    line: seq<byte>, before: seq<byte>, protocol: seq<byte>, gap: seq<byte>, number: seq<byte>, rest: seq<byte>,
    code: nat)
  {
    && line == before + (protocol + (gap + (number + rest)))
    && AllSpaces(before) && AllSpaces(gap) && gap != [] && NoSpaces(protocol) && NoSpaces(number)
    && [72, 84, 84, 80, 47, 49, 46] <= protocol && Numeral(number, code)
    && (rest == [] || AllSpaces(rest[..1]))
  }

  lemma {:induction false} SpacesAreSkipped(before: seq<byte>, rest: seq<byte>)
    requires AllSpaces(before) && rest != [] && !AsciiSpace(rest[0])
    ensures SkipSpaces(before + rest) == rest
  {
    if before == [] {
      assert before + rest == rest;
    } else {
      assert (before + rest)[1..] == before[1..] + rest;
      SpacesAreSkipped(before[1..], rest);
    }
  }

  lemma {:induction false} SkippedAreSpaces(line: seq<byte>) returns (before: seq<byte>)
    ensures line == before + SkipSpaces(line) && AllSpaces(before)
    ensures SkipSpaces(line) != [] ==> !AsciiSpace(SkipSpaces(line)[0])
  {
    if line != [] && AsciiSpace(line[0]) {
      before := SkippedAreSpaces(line[1..]);
      before := [line[0]] + before;
    } else {
      before := [];
    }
  }

  lemma {:induction false} FieldIsUpToSpace(line: seq<byte>)
    ensures NoSpaces(Field(line))
    ensures var rest := line[|Field(line)|..]; rest == [] || AsciiSpace(rest[0])
  {
    if line == [] || AsciiSpace(line[0]) {
    } else {
      FieldIsUpToSpace(line[1..]);
      assert line[|Field(line)|..] == line[1..][|Field(line[1..])|..];
    }
  }

  lemma {:induction false} FieldIsFound(field: seq<byte>, rest: seq<byte>)
    requires NoSpaces(field) && (rest == [] || AsciiSpace(rest[0]))
    ensures Field(field + rest) == field
  {
    if field == [] {
      assert field + rest == rest;
    } else {
      assert (field + rest)[1..] == field[1..] + rest;
      FieldIsFound(field[1..], rest);
    }
  }

  lemma {:induction false} DecimalIsDenoted(digits: seq<byte>)
    ensures DecimalValue(digits).Some? <==> forall i :: 0 <= i < |digits| ==> 48 <= digits[i] <= 57
    ensures DecimalValue(digits).Some? ==> DecimalValue(digits).value == Denoted(digits)
  {
    if digits == [] {
    } else {
      var n := |digits| - 1;
      DecimalIsDenoted(digits[..n]);
      assert digits == digits[..n] + [digits[n]];
    }
  }

  lemma ParsedIsNumeral(text: seq<byte>, code: nat)
    ensures ParseU16(text) == Some(code) <==> Numeral(text, code)
  {
    var digits := if text != [] && text[0] == 43 then text[1..] else text;
    if ParseU16(text) == Some(code) {
      DecimalIsDenoted(digits);
      assert DigitsOf(digits, code) && (text == digits || text == [43] + digits);
    }
    forall ds | (text == ds || text == [43] + ds) && DigitsOf(ds, code) && code < 65536
      ensures ParseU16(text) == Some(code)
    {
      DecimalIsDenoted(ds);
      assert text == ds ==> text[0] != 43;
      assert ds == digits;
    }
  }

  lemma NumeralIsSomething(text: seq<byte>, code: nat)
    requires Numeral(text, code)
    ensures text != []
  {
  }

  lemma AnnouncedIsRead(
    before: seq<byte>, protocol: seq<byte>, gap: seq<byte>, number: seq<byte>, rest: seq<byte>, code: nat)
    requires var line := before + (protocol + (gap + (number + rest)));
             Utf8(line) && Announces(line, before, protocol, gap, number, rest, code)
    ensures StatusOf(before + (protocol + (gap + (number + rest)))) == Some(code)
  {
    hide Utf8, ParseU16, Numeral, Field, SkipSpaces;
    NumeralIsSomething(number, code);
    var tail, start := gap + (number + rest), protocol + (gap + (number + rest));
    assert start[0] == protocol[0] && (number + rest)[0] == number[0] && tail[0] == gap[0];
    SpacesAreSkipped(before, start);
    FieldIsFound(protocol, tail);
    assert start[|protocol|..] == tail;
    SpacesAreSkipped(gap, number + rest);
    assert rest != [] ==> rest[..1][0] == rest[0] ;
    FieldIsFound(number, rest);
    ParsedIsNumeral(number, code);
  }

  lemma ReadIsAnnounced(line: seq<byte>, code: nat)
    requires StatusOf(line) == Some(code)
    ensures exists before, protocol, gap, number, rest :: Announces(line, before, protocol, gap, number, rest, code)
  {
    hide Utf8, ParseU16, Numeral, Field, SkipSpaces;
    var before := SkippedAreSpaces(line);
    var start := SkipSpaces(line);
    var protocol := Field(start);
    FieldIsUpToSpace(start);
    var after := start[|protocol|..];
    var gap := SkippedAreSpaces(after);
    var second := SkipSpaces(after);
    var number := Field(second);
    FieldIsUpToSpace(second);
    var rest := second[|number|..];
    ParsedIsNumeral(number, code);
    NumeralIsSomething(number, code);
    assert line == before + (protocol + (gap + (number + rest)));
    assert gap == [] ==> after == second;
    assert gap != [] by {
      assert number[0] == second[0];
    }
    assert rest != [] ==> rest[..1] == [rest[0]];
    assert Announces(line, before, protocol, gap, number, rest, code);
  }

  /**
   * For every line: it is taken for a code if and only if it is UTF-8 and its first two fields are a protocol that
   * begins with `HTTP/1.` and a number of 16 bits, which is the code.
   */
  lemma StatusIsExact(line: seq<byte>, code: nat)
    ensures StatusOf(line) == Some(code) <==>
              Utf8(line)
              && exists before, protocol, gap, number, rest ::
                   Announces(line, before, protocol, gap, number, rest, code)
  {
    hide ParseU16, Field, SkipSpaces, Numeral, Announces;
    if StatusOf(line) == Some(code) {
      ReadIsAnnounced(line, code);
    }
    forall before, protocol, gap, number, rest
      | Utf8(line) && Announces(line, before, protocol, gap, number, rest, code)
      ensures StatusOf(line) == Some(code)
    {
      assert line == before + (protocol + (gap + (number + rest))) by {
        AnnouncedLine(line, before, protocol, gap, number, rest, code);
      }
      AnnouncedIsRead(before, protocol, gap, number, rest, code);
    }
  }

  lemma AnnouncedLine(
    line: seq<byte>, before: seq<byte>, protocol: seq<byte>, gap: seq<byte>, number: seq<byte>, rest: seq<byte>,
    code: nat)
    requires Announces(line, before, protocol, gap, number, rest, code)
    ensures line == before + (protocol + (gap + (number + rest)))
  {
  }

  // ----- reading it

  /** One read from the socket: at most `wanted` bytes arrive, or it fails. */
  datatype Arrival = Bytes(wanted: nat) | Broken

  /** What the whole response says: the first line of its first 1024 bytes. */
  function WholeResponseStatus(response: seq<byte>): Option<nat> {
    StatusOf(FirstLine(response[..Min(|response|, MAX_HTTP_STATUS_BYTES)]))
  }

  /**
   * `arrivals` says how the successive reads split the response; reads past its end fill the buffer. Any splitting
   * gives the status of the whole response, unless a read fails first.
   */
  method ReadHttpStatus(source: seq<byte>, arrivals: seq<Arrival>) returns (status: Option<nat>)
    ensures Broken !in arrivals ==> status == WholeResponseStatus(source)
    ensures status.Some? ==> status == WholeResponseStatus(source)
  {
    var response: seq<byte> := [];
    var taken := 0;
    while |response| < MAX_HTTP_STATUS_BYTES
      invariant response <= source && |response| <= MAX_HTTP_STATUS_BYTES
      invariant NEWLINE !in response
    {
      var remaining := MAX_HTTP_STATUS_BYTES - |response|;
      var readLimit := Min(remaining, READ_BUFFER_BYTES);
      var arrival := if taken < |arrivals| then arrivals[taken] else Bytes(readLimit);
      taken := taken + 1;
      if arrival.Broken? {
        return None;
      }
      var pending := |source| - |response|;
      var count := Min(Min(if arrival.wanted == 0 then 1 else arrival.wanted, readLimit), pending);
      if count == 0 {
        break;
      }
      response := source[..|response| + count];
      if NEWLINE in response {
        break;
      }
    }
    var visible := source[..Min(|source|, MAX_HTTP_STATUS_BYTES)];
    assert response <= visible;
    if NEWLINE in response {
      FirstLineOfPrefix(response, visible);
    } else {
      assert response == visible;
    }
    status := StatusOf(FirstLine(response));
  }

  lemma {:induction false} FirstLineOfPrefix(part: seq<byte>, whole: seq<byte>)
    requires part <= whole && NEWLINE in part
    ensures FirstLine(part) == FirstLine(whole)
  {
    if part[0] != NEWLINE {
      FirstLineOfPrefix(part[1..], whole[1..]);
    }
  }

  // ----- which status lines are understood

  /** A status line as section 4 of RFC 9112 writes it, short of its line feed; the reason may be any bytes. */
  function StatusLine(minor: byte, code: nat, reason: seq<byte>): seq<byte>
    requires 100 <= code <= 999
  {
    HTTP_1 + [minor, 32] + [48 + code / 100, 48 + code / 10 % 10, 48 + code % 10, 32] + reason + [13]
  }

  /** The longest reason phrase with which a status line and its line feed fit what is read. */
  const MAX_REASON_BYTES: nat := 1009

  /**
   * A status line that fits is taken for its code, whatever headers follow, if and only if its reason phrase is
   * UTF-8. The standard also allows other bytes there, and on those the answer is none.
   */
  lemma StatusLineIsUnderstood(minor: byte, code: nat, reason: seq<byte>, rest: seq<byte>)
    requires 48 <= minor <= 57 && 100 <= code <= 999
    requires NEWLINE !in reason && |reason| <= MAX_REASON_BYTES
    ensures WholeResponseStatus(StatusLine(minor, code, reason) + [NEWLINE] + rest)
         == if Utf8(reason) then Some(code) else None
  {
    hide StatusOf, Utf8, StatusLine, WholeResponseStatus;
    StatusLineFits(minor, code, reason);
    FirstVisibleLine(StatusLine(minor, code, reason), rest);
    StatusLineIsUtf8(minor, code, reason);
    if Utf8(reason) {
      StatusLineIsRead(minor, code, reason);
    } else {
      NotUtf8(StatusLine(minor, code, reason));
    }
  }

  lemma StatusLineFits(minor: byte, code: nat, reason: seq<byte>)
    requires 48 <= minor <= 57 && 100 <= code <= 999
    requires NEWLINE !in reason && |reason| <= MAX_REASON_BYTES
    ensures var line := StatusLine(minor, code, reason);
            NEWLINE !in line && |line| < MAX_HTTP_STATUS_BYTES
  {
  }

  lemma FirstVisibleLine(line: seq<byte>, rest: seq<byte>)
    requires NEWLINE !in line && |line| < MAX_HTTP_STATUS_BYTES
    ensures WholeResponseStatus(line + [NEWLINE] + rest) == StatusOf(line)
  {
    hide StatusOf, FirstLine;
    var response := line + [NEWLINE] + rest;
    var visible := response[..Min(|response|, MAX_HTTP_STATUS_BYTES)];
    assert line + [NEWLINE] <= visible;
    FirstLineOfPrefix(line + [NEWLINE], visible);
    LineEnds(line);
  }

  lemma NotUtf8(line: seq<byte>)
    requires !Utf8(line)
    ensures StatusOf(line) == None
  {
  }

  /** For example, a reason phrase in Latin-1: such a server never becomes ready. */
  lemma LatinReasonIsRefused(rest: seq<byte>)
    ensures WholeResponseStatus(StatusLine(49, 200, [0xE9]) + [NEWLINE] + rest) == None
  {
    assert !Utf8([0xE9]);
    StatusLineIsUnderstood(49, 200, [0xE9], rest);
  }

  lemma StatusLineIsRead(minor: byte, code: nat, reason: seq<byte>)
    requires 48 <= minor <= 57 && 100 <= code <= 999 && Utf8(reason)
    ensures StatusOf(StatusLine(minor, code, reason)) == Some(code)
  {
    hide Utf8, DecimalValue, ParseU16, StatusOf, Field, SkipSpaces, AsciiSpace;
    var digits: seq<byte> := [48 + code / 100, 48 + code / 10 % 10, 48 + code % 10];
    var end: seq<byte> := [32] + (reason + [13]);
    assert StatusLine(minor, code, reason) == HTTP_1 + [minor] + ([32] + (digits + end));
    StatusLineIsUtf8(minor, code, reason);
    FieldsAreFound(minor, digits, end);
    DigitsRead(code);
  }

  lemma FieldsAreFound(minor: byte, digits: seq<byte>, end: seq<byte>)
    requires 48 <= minor <= 57 && |digits| == 3 && (forall i :: 0 <= i < 3 ==> 48 <= digits[i] <= 57)
    requires end != [] && end[0] == 32
    requires Utf8(HTTP_1 + [minor] + ([32] + (digits + end)))
    ensures StatusOf(HTTP_1 + [minor] + ([32] + (digits + end))) == ParseU16(digits)
  {
    hide Utf8, DecimalValue, ParseU16, Field;
    var protocol, tail: seq<byte> := HTTP_1 + [minor], [32] + (digits + end);
    var line := protocol + tail;
    assert SkipSpaces(line) == line;
    FieldEnds(protocol, tail);
    assert line[|protocol|..] == tail;
    assert tail[1..] == digits + end;
    assert SkipSpaces(digits + end) == digits + end;
    assert SkipSpaces(tail) == digits + end;
    FieldEnds(digits, end);
  }

  lemma StatusLineIsUtf8(minor: byte, code: nat, reason: seq<byte>)
    requires 48 <= minor <= 57 && 100 <= code <= 999
    ensures Utf8(StatusLine(minor, code, reason)) <==> Utf8(reason)
  {
    var ascii: seq<byte> :=
      HTTP_1 + [minor, 32] + [48 + code / 100, 48 + code / 10 % 10, 48 + code % 10, 32];
    assert forall i :: 0 <= i < |ascii| ==> ascii[i] < 0x80;
    hide Utf8;
    ReturnChangesNothing(reason);
    AsciiThenUtf8(ascii, reason + [13]);
    assert StatusLine(minor, code, reason) == ascii + (reason + [13]);
  }

  /** A carriage return never completes a character, so bytes are UTF-8 with it exactly when they are without it. */
  lemma {:induction false} ReturnChangesNothing(bytes: seq<byte>)
    ensures Utf8(bytes + [13]) <==> Utf8(bytes)
    decreases |bytes|
  {
    var longer := bytes + [13];
    if bytes == [] {
      assert CharWidth(longer) == 1 && longer[1..] == [];
    } else {
      SameWidth(bytes);
      var width := CharWidth(bytes);
      if width != 0 {
        assert longer[width..] == bytes[width..] + [13];
        ReturnChangesNothing(bytes[width..]);
      }
    }
  }

  lemma SameWidth(bytes: seq<byte>)
    requires bytes != []
    ensures CharWidth(bytes + [13]) == CharWidth(bytes)
  {
    assert (bytes + [13])[|bytes|] == 13;
    assert forall i :: 0 <= i < |bytes| ==> (bytes + [13])[i] == bytes[i];
  }

  lemma DecimalLast(digits: seq<byte>)
    requires digits != []
    ensures var d, rest := digits[|digits| - 1], DecimalValue(digits[..|digits| - 1]);
            DecimalValue(digits) == if rest.Some? && 48 <= d <= 57 then Some(rest.value * 10 + (d - 48)) else None
  {
  }

  lemma DecimalSnoc(digits: seq<byte>, value: nat, digit: byte)
    requires DecimalValue(digits) == Some(value) && 48 <= digit <= 57
    ensures DecimalValue(digits + [digit]) == Some(value * 10 + (digit - 48))
  {
    hide DecimalValue;
    DecimalLast(digits + [digit]);
    assert (digits + [digit])[..|digits|] == digits;
  }

  lemma ThreeDigits(a: byte, b: byte, c: byte)
    requires 48 <= a <= 57 && 48 <= b <= 57 && 48 <= c <= 57
    ensures ParseU16([a, b, c]) == Some(((a - 48) * 10 + (b - 48)) * 10 + (c - 48))
  {
    assert DecimalValue([]) == Some(0);
    hide DecimalValue;
    DecimalSnoc([], 0, a);
    assert [] + [a] == [a];
    DecimalSnoc([a], a - 48, b);
    assert [a] + [b] == [a, b];
    DecimalSnoc([a, b], (a - 48) * 10 + (b - 48), c);
    assert [a, b] + [c] == [a, b, c];
  }

  lemma DigitsRead(code: nat)
    requires 100 <= code <= 999
    ensures ParseU16([48 + code / 100, 48 + code / 10 % 10, 48 + code % 10]) == Some(code)
  {
    hide ParseU16;
    DigitsAddUp(code);
    ThreeDigits(48 + code / 100, 48 + code / 10 % 10, 48 + code % 10);
  }

  lemma DigitsAddUp(code: nat)
    requires 100 <= code <= 999
    ensures 1 <= code / 100 <= 9 && (code / 100 * 10 + code / 10 % 10) * 10 + code % 10 == code
  {
    var tens := code / 10;
    assert code == tens * 10 + code % 10;
    assert tens == tens / 10 * 10 + tens % 10;
  }

  lemma {:induction false} LineEnds(line: seq<byte>)
    requires NEWLINE !in line
    ensures FirstLine(line + [NEWLINE]) == line
  {
    if line == [] {
    } else {
      assert (line + [NEWLINE])[1..] == line[1..] + [NEWLINE];
      LineEnds(line[1..]);
    }
  }

  lemma {:induction false} FieldEnds(field: seq<byte>, rest: seq<byte>)
    requires forall i :: 0 <= i < |field| ==> !AsciiSpace(field[i])
    requires rest != [] && AsciiSpace(rest[0])
    ensures Field(field + rest) == field
  {
    if field == [] {
      assert field + rest == rest;
    } else {
      assert (field + rest)[1..] == field[1..] + rest;
      FieldEnds(field[1..], rest);
    }
  }

  lemma {:induction false} AsciiThenUtf8(ascii: seq<byte>, rest: seq<byte>)
    requires forall i :: 0 <= i < |ascii| ==> ascii[i] < 0x80
    ensures Utf8(ascii + rest) == Utf8(rest)
  {
    if ascii == [] {
      assert ascii + rest == rest;
    } else {
      assert (ascii + rest)[1..] == ascii[1..] + rest;
      AsciiThenUtf8(ascii[1..], rest);
    }
  }
}
