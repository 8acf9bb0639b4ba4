/**
 * Lease placeholders in command arguments: `replace_placeholders` substitutes one name after another, and is
 * compared here with a single pass that substitutes all names at once.
 */
module Placeholders {
  import opened Wrappers

  const PORT_OPENER := "{port:"
  const TEMP_OPENER := "{temp:"

  /** A placeholder and the text it stands for. */
  datatype Sub = Sub(pattern: string, value: string)

  datatype UnknownPlaceholder = UnknownPlaceholder(argument: string)

  predicate ValidNameChar(c: char) {
    'a' <= c <= 'z' || '0' <= c <= '9' || c == '_' || c == '-'
  }

  /** `valid_name`: 1 to 32 lowercase letters, digits, underscores or hyphens, starting with a letter. */
  predicate ValidName(name: string) {
    1 <= |name| <= 32 && 'a' <= name[0] <= 'z' && forall i :: 0 <= i < |name| ==> ValidNameChar(name[i])
  }

  /** Which names are valid, spelled out letter by letter. */
  lemma NamesAreSpelled(name: string)
    ensures ValidName(name) <==>
              && 1 <= |name| <= 32 && name[0] in "abcdefghijklmnopqrstuvwxyz"
              && forall c :: c in name ==> c in "abcdefghijklmnopqrstuvwxyz0123456789_-"
  {
    LowercaseLetters();
    assert forall c: char :: c in "0123456789_-" <==> '0' <= c <= '9' || c == '_' || c == '-';
    assert forall i :: 0 <= i < |name| ==> name[i] in name;
    assert "abcdefghijklmnopqrstuvwxyz0123456789_-" == "abcdefghijklmnopqrstuvwxyz" + "0123456789_-";
    assert forall c: char :: ValidNameChar(c) <==> c in "abcdefghijklmnopqrstuvwxyz0123456789_-";
  }

  lemma LowercaseLetters()
    ensures forall c: char :: c in "abcdefghijklmnopqrstuvwxyz" <==> 'a' <= c <= 'z'
  {
    var letters := "abcdefghijklmnopqrstuvwxyz";
    forall c: char | 'a' <= c <= 'z' ensures c in letters {
      assert letters[c as int - 'a' as int] == c;
    }
  }

  function PortSub(name: string, value: string): Sub {
    Sub(PORT_OPENER + name + "}", value)
  }

  function TempSub(name: string, value: string): Sub {
    Sub(TEMP_OPENER + name + "}", value)
  }

  // ----- one name after another

  /** `str::replace`: every occurrence, left to right, without overlap. */
  function Replace(text: string, pattern: string, value: string): string
    requires pattern != ""
    decreases |text|
  {
    if text == "" then ""
    else if pattern <= text then value + Replace(text[|pattern|..], pattern, value)
    else [text[0]] + Replace(text[1..], pattern, value)
  }

  predicate Contains(text: string, part: string) {
    part <= text || (text != "" && Contains(text[1..], part))
  }

  predicate Patterned(subs: seq<Sub>) {
    forall i {:trigger subs[i]} :: 0 <= i < |subs| ==> subs[i].pattern != ""
  }

  function ReplaceAll(text: string, subs: seq<Sub>): string
    requires Patterned(subs)
  {
    if subs == [] then text
    else
      var last := subs[|subs| - 1];
      Replace(ReplaceAll(text, subs[..|subs| - 1]), last.pattern, last.value)
  }

  function Checked(argument: string, replaced: string): Result<string, UnknownPlaceholder> {
    if Contains(replaced, PORT_OPENER) || Contains(replaced, TEMP_OPENER) then Err(UnknownPlaceholder(argument))
    else Ok(replaced)
  }

  /** The substitutions the two loops go through: the ports by name, then the temporary directories. */
  function Subs(ports: seq<(string, string)>, temps: seq<(string, string)>): seq<Sub> {
    seq(|ports|, i requires 0 <= i < |ports| => PortSub(ports[i].0, ports[i].1))
    + seq(|temps|, i requires 0 <= i < |temps| => TempSub(temps[i].0, temps[i].1))
  }

  lemma SubsInOrder(ports: seq<(string, string)>, temps: seq<(string, string)>)
    ensures var subs := Subs(ports, temps);
            && |subs| == |ports| + |temps| && Patterned(subs)
            && (forall i :: 0 <= i < |ports| ==> subs[i] == PortSub(ports[i].0, ports[i].1))
            && (forall i :: 0 <= i < |temps| ==> subs[|ports| + i] == TempSub(temps[i].0, temps[i].1))
  {
  }

  lemma NothingReplaced(text: string, subs: seq<Sub>)
    requires Patterned(subs)
    ensures ReplaceAll(text, subs[..0]) == text
  {
  }

  lemma ReplaceNext(text: string, subs: seq<Sub>, i: nat)
    requires Patterned(subs) && i < |subs|
    ensures ReplaceAll(text, subs[..i + 1]) == Replace(ReplaceAll(text, subs[..i]), subs[i].pattern, subs[i].value)
  {
    assert subs[..i + 1][..i] == subs[..i];
  }

  method ReplacePlaceholders(argument: string, ports: seq<(string, string)>, temps: seq<(string, string)>)
    returns (result: Result<string, UnknownPlaceholder>)
    ensures result == Checked(argument, ReplaceAll(argument, Subs(ports, temps)))
  {
    hide Replace, Contains, ReplaceAll, Subs;
    ghost var subs := Subs(ports, temps);
    SubsInOrder(ports, temps);
    var replaced := argument;
    assert ReplaceAll(argument, subs[..0]) == argument by { NothingReplaced(argument, subs); }
    for i := 0 to |ports|
      invariant replaced == ReplaceAll(argument, subs[..i])
    {
      ReplaceNext(argument, subs, i);
      replaced := Replace(replaced, PORT_OPENER + ports[i].0 + "}", ports[i].1);
    }
    for i := 0 to |temps|
      invariant replaced == ReplaceAll(argument, subs[..|ports| + i])
    {
      ReplaceNext(argument, subs, |ports| + i);
      replaced := Replace(replaced, TEMP_OPENER + temps[i].0 + "}", temps[i].1);
    }
    assert subs[..|subs|] == subs;
    if Contains(replaced, PORT_OPENER) || Contains(replaced, TEMP_OPENER) {
      return Err(UnknownPlaceholder(argument));
    }
    return Ok(replaced);
  }

  // ----- all names at once

  predicate Opens(text: string) {
    PORT_OPENER <= text || TEMP_OPENER <= text
  }

  /** The substitution whose placeholder stands at the head of a text. */
  function Hit(text: string, subs: seq<Sub>): (hit: Option<Sub>)
    ensures hit.Some? ==> hit.value in subs && hit.value.pattern <= text
    ensures hit.None? ==> forall i :: 0 <= i < |subs| ==> !(subs[i].pattern <= text)
  {
    if subs == [] then None
    else
      var last := subs[|subs| - 1];
      if last.pattern <= text then Some(last) else Hit(text, subs[..|subs| - 1])
  }

  ghost predicate Placeholder(pattern: string) {
    exists name :: ValidName(name) && (pattern == PORT_OPENER + name + "}" || pattern == TEMP_OPENER + name + "}")
  }

  /** Distinct placeholders with valid names, as `validate_names` guarantees. */
  ghost predicate Distinct(subs: seq<Sub>) {
    && Patterned(subs)
    && (forall i {:trigger subs[i]} :: 0 <= i < |subs| ==> Placeholder(subs[i].pattern))
    && forall i, j :: 0 <= i < j < |subs| ==> subs[i].pattern != subs[j].pattern
  }

  /** What a single left-to-right pass writes: each placeholder's value, and every other character as it is. */
  function Text(text: string, subs: seq<Sub>): string
    requires Patterned(subs)
    decreases |text|
  {
    if text == "" then ""
    else
      var hit := Hit(text, subs);
      if hit.Some? then hit.value.value + Text(text[|hit.value.pattern|..], subs)
      else [text[0]] + Text(text[1..], subs)
  }

  /** The pass meets an opener that begins no known placeholder: an unknown name, or none that is terminated. */
  predicate MeetsUnknown(text: string, subs: seq<Sub>)
    requires Patterned(subs)
    decreases |text|
  {
    text != "" &&
    var hit := Hit(text, subs);
    if hit.Some? then MeetsUnknown(text[|hit.value.pattern|..], subs)
    else Opens(text) || MeetsUnknown(text[1..], subs)
  }

  function Simultaneous(argument: string, subs: seq<Sub>): Result<string, UnknownPlaceholder>
    requires Patterned(subs)
  {
    if MeetsUnknown(argument, subs) then Err(UnknownPlaceholder(argument)) else Ok(Text(argument, subs))
  }

  // ----- when they agree

  predicate NoBrace(text: string) {
    '{' !in text
  }

  /** No opener begins in the text, whatever text may follow it; other braces are harmless. */
  predicate OpensNowhere(text: string) {
    text == "" ||
    ((text[0] == '{' ==> !Opens(text) && !(text <= PORT_OPENER) && !(text <= TEMP_OPENER)) && OpensNowhere(text[1..]))
  }

  /** How every lease value starts, a decimal port or an absolute path: with no letter of an opener. */
  predicate StartsForeign(value: string) {
    value != "" && value[0] !in "port:em"
  }

  predicate Inert(value: string) {
    OpensNowhere(value) && StartsForeign(value)
  }

  ghost predicate AllInert(subs: seq<Sub>) {
    forall i {:trigger subs[i]} :: 0 <= i < |subs| ==> Inert(subs[i].value)
  }

  /** Up to the next opening brace, if there is one, a closing one comes first. */
  predicate ClosesFirst(text: string) {
    text == "" || text[0] == '}' || (text[0] != '{' && ClosesFirst(text[1..]))
  }

  /** Every placeholder opener is closed before the next opening brace. */
  predicate Sealed(argument: string) {
    argument == "" || ((Opens(argument) ==> ClosesFirst(argument[1..])) && Sealed(argument[1..]))
  }

  /** The shape shared by openers and placeholders: one opening brace, and at most a last closing one. */
  ghost predicate Tag(tag: string) {
    && Opens(tag)
    && (forall i {:trigger tag[i]} :: 1 <= i < |tag| ==> tag[i] != '{')
    && (forall i {:trigger tag[i]} :: 0 <= i < |tag| - 1 ==> tag[i] != '}')
  }

  lemma PlaceholdersAreTags(pattern: string)
    requires Placeholder(pattern)
    ensures Tag(pattern) && pattern != ""
    ensures pattern[0] == '{' && pattern[|pattern| - 1] == '}' && NoBrace(pattern[1..])
  {
    var name :| ValidName(name) && (pattern == PORT_OPENER + name + "}" || pattern == TEMP_OPENER + name + "}");
    assert forall i :: 0 <= i < |name| ==> ValidNameChar(name[i]);
  }

  /** Two placeholders at the head of one text are the same: each ends at its first closing brace. */
  lemma HitIsUnique(text: string, p: string, q: string)
    requires Placeholder(p) && Placeholder(q) && p <= text && q <= text
    ensures p == q
  {
    PlaceholdersAreTags(p);
    PlaceholdersAreTags(q);
    assert text[|p| - 1] == p[|p| - 1];
    assert text[|q| - 1] == q[|q| - 1];
  }

  lemma NoHitWithoutBrace(text: string, subs: seq<Sub>)
    requires Distinct(subs) && (text == "" || text[0] != '{')
    ensures Hit(text, subs).None?
  {
    var hit := Hit(text, subs);
    if hit.Some? {
      PlaceholdersAreTags(hit.value.pattern);
    }
  }

  lemma HeadOpensNothing(text: string, next: string)
    requires OpensNowhere(text) && text != ""
    ensures !Opens(text + next)
  {
    var whole := text + next;
    assert whole[0] == text[0];
    if text[0] == '{' && Opens(whole) {
      var opener := if PORT_OPENER <= whole then PORT_OPENER else TEMP_OPENER;
      OpenerSplits(text, next, opener);
    }
  }

  lemma OpenerSplits(text: string, next: string, opener: string)
    requires opener <= text + next
    ensures opener <= text || text <= opener
  {
    if |opener| <= |text| {
      assert (text + next)[..|opener|] == text[..|opener|];
    } else {
      assert (text + next)[..|text|] == text == opener[..|text|];
    }
  }

  lemma {:induction false} WithoutBraceOpensNowhere(text: string)
    requires NoBrace(text)
    ensures OpensNowhere(text)
  {
    if text == "" {
    } else {
      WithoutBraceOpensNowhere(text[1..]);
    }
  }

  lemma {:induction false} ReplaceSkips(prefix: string, text: string, pattern: string, value: string)
    requires pattern != "" && Opens(pattern) && OpensNowhere(prefix)
    ensures Replace(prefix + text, pattern, value) == prefix + Replace(text, pattern, value)
  {
    if prefix == "" {
      assert prefix + text == text;
    } else {
      assert (prefix + text)[1..] == prefix[1..] + text;
      HeadOpensNothing(prefix, text);
      OpensFurther(pattern, prefix + text);
      ReplaceSkips(prefix[1..], text, pattern, value);
    }
  }

  lemma OpensFurther(part: string, whole: string)
    requires Opens(part)
    ensures part <= whole ==> Opens(whole)
  {
  }

  /** Text without an opening brace is copied. */
  lemma {:induction false} TextSkips(prefix: string, text: string, subs: seq<Sub>)
    requires Patterned(subs) && Distinct(subs) && NoBrace(prefix)
    ensures Text(prefix + text, subs) == prefix + Text(text, subs)
  {
    hide Distinct, Placeholder, Hit;
    if prefix == "" {
      assert prefix + text == text;
    } else {
      var whole := prefix + text;
      assert whole[1..] == prefix[1..] + text;
      assert whole[0] == prefix[0] && prefix[0] in prefix;
      NoHitWithoutBrace(whole, subs);
      TextSkips(prefix[1..], text, subs);
      assert [prefix[0]] + prefix[1..] == prefix;
    }
  }

  /** A text cut at its next opening brace. */
  ghost predicate OneSegment(text: string, segment: string, rest: string) {
    && text == segment + rest
    && segment != "" && segment[0] == '{' && NoBrace(segment[1..])
    && (rest == "" || rest[0] == '{')
  }

  lemma OpenSegment(text: string) returns (segment: string, rest: string)
    requires text != "" && text[0] == '{' && Sealed(text)
    ensures OneSegment(text, segment, rest)
    ensures Opens(text) ==> rest == "" || '}' in segment
  {
    var k := 1;
    while k < |text| && text[k] != '{'
      invariant 1 <= k <= |text|
      invariant NoBrace(text[1..k])
      invariant ClosesFirst(text[1..]) ==> '}' in text[..k] || ClosesFirst(text[k..])
    {
      assert text[k..][1..] == text[k + 1..];
      assert text[1..k + 1] == text[1..k] + [text[k]];
      assert text[..k + 1] == text[..k] + [text[k]];
      k := k + 1;
    }
    segment, rest := text[..k], text[k..];
    assert segment[1..] == text[1..k];
  }

  /** What follows a segment cannot complete a tag that the segment begins. */
  ghost predicate Decided(segment: string, next: string, tag: string) {
    || next == ""
    || (exists i :: 0 <= i < |segment| && segment[i] == '}')
    || (|segment| >= |PORT_OPENER| && !Opens(segment))
    || (1 <= |segment| < |PORT_OPENER| && |segment| < |tag| && next[0] != tag[|segment|])
  }

  lemma SegmentDecides(segment: string, next: string, tag: string)
    requires Tag(tag) && Decided(segment, next, tag)
    ensures tag <= segment + next <==> tag <= segment
  {
    if tag <= segment + next && |tag| > |segment| {
      TagReachesOver(segment, next, tag);
    }
  }

  lemma TagReachesOver(segment: string, next: string, tag: string)
    requires Tag(tag) && tag <= segment + next && |tag| > |segment|
    ensures next != "" && tag[|segment|] == next[0]
    ensures forall i :: 0 <= i < |segment| ==> segment[i] != '}'
    ensures |segment| >= |PORT_OPENER| ==> Opens(segment)
  {
    var whole := segment + next;
    assert forall i :: 0 <= i < |segment| ==> segment[i] == whole[i] == tag[i];
    assert whole[|segment|] == next[0];
  }

  /** Substitution puts no new opener or placeholder behind an opening brace that stays. */
  lemma NoNewTag(text: string, subs: seq<Sub>, tag: string)
    requires Patterned(subs) && Distinct(subs) && AllInert(subs) && Sealed(text) && Tag(tag)
    requires text != "" && text[0] == '{'
    ensures tag <= [text[0]] + Text(text[1..], subs) <==> tag <= text
  {
    hide Text, Hit, Decided, Tag, Distinct, AllInert, ClosesFirst, OneSegment;
    var segment, rest := OpenSegment(text);
    SegmentIsDecided(text, segment, rest, subs, tag);
    SegmentDecides(segment, rest, tag);
    SegmentDecides(segment, Text(rest, subs), tag);
    SegmentIsWritten(text, segment, rest, subs);
  }

  lemma SegmentIsWritten(text: string, segment: string, rest: string, subs: seq<Sub>)
    requires Patterned(subs) && Distinct(subs) && OneSegment(text, segment, rest)
    ensures text == segment + rest && text != ""
    ensures [text[0]] + Text(text[1..], subs) == segment + Text(rest, subs)
  {
    hide Text, Hit, Distinct;
    assert text[1..] == segment[1..] + rest;
    TextSkips(segment[1..], rest, subs);
    assert [text[0]] + (segment[1..] + Text(rest, subs)) == segment + Text(rest, subs);
  }

  lemma SegmentIsDecided(text: string, segment: string, rest: string, subs: seq<Sub>, tag: string)
    requires Distinct(subs) && AllInert(subs) && Tag(tag)
    requires OneSegment(text, segment, rest)
    requires Opens(text) ==> rest == "" || '}' in segment
    ensures Decided(segment, rest, tag) && Decided(segment, Text(rest, subs), tag)
  {
    if rest != "" && |segment| < |PORT_OPENER| {
      NextIsForeign(rest, subs, tag, |segment|);
    } else if Opens(segment) {
      assert PORT_OPENER <= segment ==> PORT_OPENER <= text;
      assert TEMP_OPENER <= segment ==> TEMP_OPENER <= text;
    }
  }

  /** What follows an unfinished opener, whether a value or an opening brace, does not continue it. */
  lemma NextIsForeign(rest: string, subs: seq<Sub>, tag: string, at: nat)
    requires Distinct(subs) && AllInert(subs) && Tag(tag)
    requires rest != "" && rest[0] == '{' && 1 <= at < |PORT_OPENER|
    ensures at < |tag| && tag[at] != '{'
    ensures Text(rest, subs) != "" && Text(rest, subs)[0] != tag[at]
  {
    assert tag[at] in "port:em";
    var hit := Hit(rest, subs);
    if hit.Some? {
      assert Inert(hit.value.value);
    }
  }

  /** Replacing one more placeholder in what a pass wrote is a pass that knows one more placeholder. */
  lemma {:induction false} OneMore(text: string, subs: seq<Sub>, sub: Sub)
    requires Patterned(subs) && Patterned(subs + [sub])
    requires Distinct(subs) && AllInert(subs) && Distinct(subs + [sub]) && Sealed(text)
    requires Placeholder(sub.pattern) && sub.pattern != ""
    ensures Replace(Text(text, subs), sub.pattern, sub.value) == Text(text, subs + [sub])
    decreases |text|
  {
    hide Placeholder, Distinct, AllInert, Sealed, Tag;
    PlaceholdersAreTags(sub.pattern);
    assert (subs + [sub])[..|subs|] == subs && (subs + [sub])[|subs|] == sub;
    if text == "" {
    } else {
      var hit := Hit(text, subs);
      if hit.Some? {
        var rest := text[|hit.value.pattern|..];
        HitPattern(subs, hit.value);
        NewNameMisses(text, subs, sub, hit.value);
        SealedRest(text, |hit.value.pattern|);
        OneMore(rest, subs, sub);
        ReplaceSkips(hit.value.value, Text(rest, subs), sub.pattern, sub.value);
      } else if sub.pattern <= text {
        var rest := text[|sub.pattern|..];
        PatternIsCopied(text, subs, sub.pattern);
        SealedRest(text, |sub.pattern|);
        OneMore(rest, subs, sub);
        assert (sub.pattern + Text(rest, subs))[|sub.pattern|..] == Text(rest, subs);
      } else {
        SealedRest(text, 1);
        OneMore(text[1..], subs, sub);
        var written := [text[0]] + Text(text[1..], subs);
        assert written[1..] == Text(text[1..], subs);
        if text[0] == '{' {
          NoNewTag(text, subs, sub.pattern);
        }
      }
    }
  }

  lemma HitPattern(subs: seq<Sub>, sub: Sub)
    requires Distinct(subs) && AllInert(subs) && sub in subs
    ensures sub.pattern != "" && Placeholder(sub.pattern) && Opens(sub.pattern) && OpensNowhere(sub.value)
    ensures Patterned(subs)
  {
    var i :| 0 <= i < |subs| && subs[i] == sub;
    assert Inert(subs[i].value);
  }

  /** Where a known placeholder stands, no other one does. */
  lemma NewNameMisses(text: string, subs: seq<Sub>, sub: Sub, hit: Sub)
    requires Distinct(subs + [sub]) && Distinct(subs) && hit in subs && hit.pattern <= text
    ensures !(sub.pattern <= text)
  {
    var all := subs + [sub];
    var i :| 0 <= i < |subs| && subs[i] == hit;
    assert all[i] == hit && all[|subs|] == sub;
    if sub.pattern <= text {
      HitIsUnique(text, sub.pattern, hit.pattern);
    }
  }

  lemma DistinctInit(subs: seq<Sub>, sub: Sub)
    requires Distinct(subs + [sub]) && AllInert(subs + [sub])
    ensures Distinct(subs) && AllInert(subs)
    ensures Placeholder(sub.pattern) && sub.pattern != ""
  {
    var all := subs + [sub];
    assert all[|subs|] == sub;
    assert forall i :: 0 <= i < |subs| ==> all[i] == subs[i];
  }

  lemma {:induction false} SealedRest(text: string, k: nat)
    requires Sealed(text) && k <= |text|
    ensures Sealed(text[k..])
  {
    if k == 0 {
    } else {
      SealedRest(text[1..], k - 1);
      assert text[1..][k - 1..] == text[k..];
    }
  }

  lemma TextCopies(text: string, subs: seq<Sub>)
    requires Patterned(subs) && text != "" && Hit(text, subs).None?
    ensures Text(text, subs) == [text[0]] + Text(text[1..], subs)
  {
  }

  lemma HeadAndRest(text: string, head: string, written: string)
    requires head != "" && head <= text
    ensures text[1..] == head[1..] + text[|head|..]
    ensures [text[0]] + (head[1..] + written) == head + written
  {
    assert text == head + text[|head|..];
    assert head == [text[0]] + head[1..];
  }

  lemma PatternIsCopied(text: string, subs: seq<Sub>, pattern: string)
    requires Distinct(subs) && Placeholder(pattern) && pattern <= text && Hit(text, subs).None?
    ensures Text(text, subs) == pattern + Text(text[|pattern|..], subs)
  {
    PlaceholdersAreTags(pattern);
    hide Placeholder, Distinct, Tag, Hit, NoBrace, Text;
    TextCopies(text, subs);
    TextSkips(pattern[1..], text[|pattern|..], subs);
    HeadAndRest(text, pattern, Text(text[|pattern|..], subs));
  }

  lemma {:induction false} ReplaceAllIsText(text: string, subs: seq<Sub>)
    requires Distinct(subs) && AllInert(subs) && Sealed(text)
    ensures ReplaceAll(text, subs) == Text(text, subs)
  {
    if subs == [] {
      NothingToReplace(text);
    } else {
      var init, last := subs[..|subs| - 1], subs[|subs| - 1];
      assert init + [last] == subs;
      DistinctInit(init, last);
      OneMore(text, init, last);
      ReplaceAllIsText(text, init);
    }
  }

  lemma {:induction false} NothingToReplace(text: string)
    ensures Text(text, []) == text
  {
    if text == "" {
    } else {
      NothingToReplace(text[1..]);
    }
  }

  /** An opener is left in the written text exactly when the pass met an unknown one. */
  lemma {:induction false} OpenersLeft(text: string, subs: seq<Sub>, opener: string)
    requires Distinct(subs) && AllInert(subs) && Sealed(text) && Tag(opener) && opener[0] == '{'
    requires opener == PORT_OPENER || opener == TEMP_OPENER
    ensures Contains(Text(text, subs), opener) <==> MeetsOpener(text, subs, opener)
    decreases |text|
  {
    hide Distinct, AllInert, Sealed, Placeholder, Tag;
    if text == "" {
    } else {
      var hit := Hit(text, subs);
      if hit.Some? {
        var rest := text[|hit.value.pattern|..];
        HitPattern(subs, hit.value);
        SealedRest(text, |hit.value.pattern|);
        OpenersLeft(rest, subs, opener);
        ContainsSkips(hit.value.value, Text(rest, subs), opener);
      } else {
        SealedRest(text, 1);
        OpenersLeft(text[1..], subs, opener);
        var written := [text[0]] + Text(text[1..], subs);
        assert written[1..] == Text(text[1..], subs);
        if text[0] == '{' {
          NoNewTag(text, subs, opener);
        }
      }
    }
  }

  /** The pass copies this opener. */
  predicate MeetsOpener(text: string, subs: seq<Sub>, opener: string)
    requires Patterned(subs)
    decreases |text|
  {
    text != "" &&
    var hit := Hit(text, subs);
    if hit.Some? then MeetsOpener(text[|hit.value.pattern|..], subs, opener)
    else opener <= text || MeetsOpener(text[1..], subs, opener)
  }

  lemma {:induction false} MeetsEitherOpener(text: string, subs: seq<Sub>)
    requires Distinct(subs)
    ensures MeetsUnknown(text, subs) <==> MeetsOpener(text, subs, PORT_OPENER) || MeetsOpener(text, subs, TEMP_OPENER)
    decreases |text|
  {
    if text == "" {
    } else {
      var hit := Hit(text, subs);
      MeetsEitherOpener(if hit.Some? then text[|hit.value.pattern|..] else text[1..], subs);
    }
  }

  lemma {:induction false} ContainsSkips(prefix: string, text: string, part: string)
    requires part != "" && Opens(part) && OpensNowhere(prefix)
    ensures Contains(prefix + text, part) == Contains(text, part)
  {
    if prefix == "" {
      assert prefix + text == text;
    } else {
      assert (prefix + text)[1..] == prefix[1..] + text;
      HeadOpensNothing(prefix, text);
      ContainsSkips(prefix[1..], text, part);
    }
  }

  /**
   * One name after another gives what a single pass gives: the same text, and an error exactly when the argument
   * has an opener that begins no known placeholder.
   */
  lemma ReplacementIsSimultaneous(argument: string, subs: seq<Sub>)
    requires Distinct(subs) && AllInert(subs) && Sealed(argument)
    ensures Checked(argument, ReplaceAll(argument, subs)) == Simultaneous(argument, subs)
  {
    ReplaceAllIsText(argument, subs);
    OpenersLeft(argument, subs, PORT_OPENER);
    OpenersLeft(argument, subs, TEMP_OPENER);
    MeetsEitherOpener(argument, subs);
  }

  /** The single pass does not depend on the order of the names. */
  lemma {:induction false} PassIgnoresOrder(text: string, subs: seq<Sub>, reordered: seq<Sub>)
    requires Distinct(subs) && Distinct(reordered)
    requires forall sub :: sub in subs <==> sub in reordered
    ensures Text(text, subs) == Text(text, reordered)
    ensures MeetsUnknown(text, subs) == MeetsUnknown(text, reordered)
    decreases |text|
  {
    if text == "" {
    } else {
      SameHit(text, subs, reordered);
      SameHit(text, reordered, subs);
      var hit := Hit(text, subs);
      PassIgnoresOrder(if hit.Some? then text[|hit.value.pattern|..] else text[1..], subs, reordered);
    }
  }

  lemma SameHit(text: string, subs: seq<Sub>, reordered: seq<Sub>)
    requires Distinct(subs) && Distinct(reordered)
    requires forall sub :: sub in subs <==> sub in reordered
    ensures Hit(text, subs).Some? ==> Hit(text, reordered) == Hit(text, subs)
  {
    var hit, other := Hit(text, subs), Hit(text, reordered);
    if hit.Some? {
      assert hit.value in reordered;
      assert other.Some?;
      assert other.value in subs;
      HitIsUnique(text, hit.value.pattern, other.value.pattern);
    }
  }

  /** Nor, therefore, does the replacement of one name after another, on the arguments on which it is a pass. */
  lemma OrderDoesNotMatter(argument: string, subs: seq<Sub>, reordered: seq<Sub>)
    requires Distinct(subs) && Distinct(reordered) && AllInert(subs) && Sealed(argument)
    requires forall sub :: sub in subs <==> sub in reordered
    ensures Checked(argument, ReplaceAll(argument, subs)) == Checked(argument, ReplaceAll(argument, reordered))
  {
    forall i | 0 <= i < |reordered| ensures Inert(reordered[i].value) {
      assert reordered[i] in subs;
    }
    ReplacementIsSimultaneous(argument, subs);
    ReplacementIsSimultaneous(argument, reordered);
    PassIgnoresOrder(argument, subs, reordered);
  }

  // ----- exactly when they agree: the argument

  lemma {:induction false} ClosesAcross(prefix: string, text: string)
    requires NoBrace(prefix)
    ensures ClosesFirst(prefix + text) <==> '}' in prefix || ClosesFirst(text)
  {
    if prefix == "" {
      assert prefix + text == text;
    } else {
      assert (prefix + text)[1..] == prefix[1..] + text;
      assert prefix == [prefix[0]] + prefix[1..];
      ClosesAcross(prefix[1..], text);
    }
  }

  lemma {:induction false} SealedAcross(prefix: string, text: string)
    requires NoBrace(prefix)
    ensures Sealed(prefix + text) <==> Sealed(text)
  {
    if prefix == "" {
      assert prefix + text == text;
    } else {
      assert (prefix + text)[1..] == prefix[1..] + text;
      assert (prefix + text)[0] != '{';
      SealedAcross(prefix[1..], text);
    }
  }

  /** A placeholder at the head of a text closes its own opener, and what follows it is as sealed as the whole. */
  lemma PlaceholderIsSealed(text: string, pattern: string)
    requires Placeholder(pattern) && pattern <= text
    ensures text != "" && ClosesFirst(text[1..])
    ensures Sealed(text[1..]) <==> Sealed(text[|pattern|..])
  {
    PlaceholdersAreTags(pattern);
    var rest := text[|pattern|..];
    assert text[1..] == pattern[1..] + rest;
    assert pattern[1..][|pattern| - 2] == '}';
    ClosesAcross(pattern[1..], rest);
    SealedAcross(pattern[1..], rest);
  }

  /** The single pass refuses every argument with an opener that is not closed before the next brace. */
  lemma {:induction false} UnsealedIsRefused(argument: string, subs: seq<Sub>)
    requires Distinct(subs) && !Sealed(argument)
    ensures MeetsUnknown(argument, subs)
    decreases |argument|
  {
    var hit := Hit(argument, subs);
    if hit.Some? {
      PlaceholderIsSealed(argument, hit.value.pattern);
      UnsealedIsRefused(argument[|hit.value.pattern|..], subs);
    } else if Sealed(argument[1..]) {
      assert Opens(argument);
    } else {
      UnsealedIsRefused(argument[1..], subs);
    }
  }

  /**
   * For every argument: the two agree if and only if every opener is closed before the next brace, or the replacement
   * refuses the argument as well.
   */
  lemma AgreementIsExact(argument: string, subs: seq<Sub>)
    requires Distinct(subs) && AllInert(subs)
    ensures Checked(argument, ReplaceAll(argument, subs)) == Simultaneous(argument, subs)
       <==> Sealed(argument) || Checked(argument, ReplaceAll(argument, subs)).Err?
  {
    if Sealed(argument) {
      ReplacementIsSimultaneous(argument, subs);
    } else {
      UnsealedIsRefused(argument, subs);
    }
  }

  /** No match of a pattern starts in the head of a text. */
  lemma {:induction false} ReplaceMisses(head: string, tail: string, pattern: string, value: string)
    requires pattern != ""
    requires forall k {:trigger (head + tail)[k..]} :: 0 <= k < |head| ==> !(pattern <= (head + tail)[k..])
    ensures Replace(head + tail, pattern, value) == head + Replace(tail, pattern, value)
  {
    if head == "" {
      assert head + tail == tail;
    } else {
      var text := head + tail;
      assert text[0..] == text;
      assert text[1..] == head[1..] + tail;
      forall k {:trigger (head[1..] + tail)[k..]} | 0 <= k < |head[1..]|
        ensures !(pattern <= (head[1..] + tail)[k..])
      {
        assert text[k + 1..] == (head[1..] + tail)[k..];
      }
      ReplaceMisses(head[1..], tail, pattern, value);
      assert head == [head[0]] + head[1..];
    }
  }

  /** A closed placeholder does not reach over an opener that is still open. */
  lemma OpenMisses(head: string, tail: string, pattern: string, k: nat)
    requires Placeholder(pattern) && k < |head| && tail != "" && tail[0] == '{' && '}' !in head
    ensures !(pattern <= (head + tail)[k..])
  {
    PlaceholdersAreTags(pattern);
    var text, last := (head + tail)[k..], |pattern| - 1;
    if last < |head| - k {
      assert text[last] == head[k + last] && head[k + last] in head;
    } else {
      assert text[|head| - k] == '{' && pattern[1..][|head| - k - 1] in pattern[1..];
    }
  }

  lemma ReplaceHead(pattern: string, rest: string, value: string)
    requires pattern != ""
    ensures Replace(pattern + rest, pattern, value) == value + Replace(rest, pattern, value)
  {
    assert (pattern + rest)[|pattern|..] == rest;
  }

  /** Replacing the one placeholder of a text without any other opening brace. */
  lemma ReplaceOnly(before: string, pattern: string, after: string, value: string)
    requires Placeholder(pattern) && NoBrace(before) && NoBrace(after)
    ensures pattern != "" && Replace(before + (pattern + after), pattern, value) == before + (value + after)
  {
    PlaceholdersAreTags(pattern);
    WithoutBraceOpensNowhere(before);
    WithoutBraceOpensNowhere(after);
    hide Replace, NoBrace, Tag, OpensNowhere, Placeholder;
    ReplaceSkips(before, pattern + after, pattern, value);
    ReplaceHead(pattern, after, value);
    ReplaceSkips(after, "", pattern, value);
    assert after + "" == after && Replace("", pattern, value) == "" by { NothingToFind(pattern, value); }
  }

  lemma NothingToFind(pattern: string, value: string)
    requires pattern != ""
    ensures Replace("", pattern, value) == ""
  {
  }

  /** Replacing a placeholder that follows an open head, itself without a closing brace. */
  lemma ReplaceAfterOpen(head: string, pattern: string, tail: string, value: string)
    requires Placeholder(pattern) && '}' !in head && NoBrace(tail)
    ensures pattern != "" && Replace(head + (pattern + tail), pattern, value) == head + (value + tail)
  {
    PlaceholdersAreTags(pattern);
    var rest := pattern + tail;
    forall k {:trigger (head + rest)[k..]} | 0 <= k < |head| ensures !(pattern <= (head + rest)[k..]) {
      OpenMisses(head, rest, pattern, k);
    }
    ReplaceMisses(head, rest, pattern, value);
    ReplaceOnly("", pattern, tail, value);
    assert "" + rest == rest && "" + (value + tail) == value + tail;
  }

  /** An argument in which a placeholder stands inside an opener that is closed only after it. */
  function Nested(before: string, opener: string, start: string, name: string, end: string, after: string): string {
    before + (opener + start + (PORT_OPENER + name + "}" + (end + "}" + after)))
  }

  lemma NamesHaveNoBraces(start: string, port: string, end: string)
    requires ValidName(start + port + end)
    ensures NoBrace(start) && NoBrace(end) && '}' !in start && '}' !in end
  {
    var whole := start + port + end;
    assert forall i :: 0 <= i < |start| ==> whole[i] == start[i] && ValidNameChar(whole[i]);
    var at := |start + port|;
    assert forall i :: 0 <= i < |end| ==> whole[at + i] == end[i] && ValidNameChar(whole[at + i]);
  }

  lemma Regroup(opener: string, start: string, port: string, end: string, after: string)
    ensures opener + start + (port + (end + "}" + after)) == opener + (start + port + end) + "}" + after
  {
  }

  /** Replacing the inner placeholder completes the outer one. */
  lemma InnerCompletesOuter(
    before: string, opener: string, start: string, name: string, end: string, after: string, port: string)
    requires opener == PORT_OPENER || opener == TEMP_OPENER
    requires ValidName(name) && ValidName(start + port + end) && NoBrace(before) && NoBrace(after)
    ensures Replace(Nested(before, opener, start, name, end, after), PORT_OPENER + name + "}", port)
         == before + (opener + (start + port + end) + "}" + after)
  {
    var inner, tail := PORT_OPENER + name + "}", end + "}" + after;
    var head := opener + start;
    assert Placeholder(inner) && Opens(inner);
    NamesHaveNoBraces(start, port, end);
    WithoutBraceOpensNowhere(before);
    assert '}' !in opener && '}' !in head;
    hide Replace, Placeholder, OpensNowhere, ValidName, Opens;
    ReplaceAfterOpen(head, inner, tail, port);
    ReplaceSkips(before, head + (inner + tail), inner, port);
    Regroup(opener, start, port, end, after);
  }

  lemma ReplaceTwo(text: string, a: Sub, b: Sub)
    requires a.pattern != "" && b.pattern != ""
    ensures Patterned([a, b])
    ensures ReplaceAll(text, [a, b]) == Replace(Replace(text, a.pattern, a.value), b.pattern, b.value)
  {
    hide Replace;
    assert [a, b][..1] == [a] && [a][..0] == [];
    assert ReplaceAll(text, [a]) == Replace(text, a.pattern, a.value);
  }

  lemma NoOpenerWritten(before: string, value: string, after: string, opener: string)
    requires NoBrace(before) && NoBrace(after) && OpensNowhere(value)
    requires opener == PORT_OPENER || opener == TEMP_OPENER
    ensures !Contains(before + (value + after), opener)
  {
    WithoutBraceOpensNowhere(before);
    WithoutBraceOpensNowhere(after);
    ContainsSkips(before, value + after, opener);
    ContainsSkips(value, after, opener);
    ContainsSkips(after, "", opener);
    assert after + "" == after;
  }

  /**
   * A converse: whenever an opener and the beginning of a name directly precede a port's placeholder, and the rest of
   * the name and a closing brace follow it, then for every port there is a lease on which the two differ. The single
   * pass refuses the argument; the replacement completes the name with the port and accepts it. The two leases come in
   * the order the code takes them: always for a directory, and for two ports when `name` sorts first.
   */
  lemma NestedNamesDiffer(
    before: string, opener: string, start: string, name: string, end: string, after: string, port: string,
    value: string)
    requires opener == PORT_OPENER || opener == TEMP_OPENER
    requires ValidName(name) && ValidName(start + port + end) && start + port + end != name
    requires NoBrace(before) && NoBrace(after) && Inert(value)
    ensures var argument := Nested(before, opener, start, name, end, after);
            var subs := [PortSub(name, port), Sub(opener + (start + port + end) + "}", value)];
            && Distinct(subs) && !Sealed(argument)
            && Checked(argument, ReplaceAll(argument, subs)) == Ok(before + (value + after))
            && Simultaneous(argument, subs).Err?
  {
    var argument := Nested(before, opener, start, name, end, after);
    var inner, outer := PortSub(name, port), Sub(opener + (start + port + end) + "}", value);
    assert Placeholder(outer.pattern);
    hide Replace, Contains, Sealed, OpensNowhere, Placeholder, ValidName, MeetsUnknown, Nested, NoBrace;
    NestedIsDistinct(opener, start + port + end, name, inner, outer);
    NestedIsNotSealed(before, opener, start, name, end, after, port);
    InnerCompletesOuter(before, opener, start, name, end, after, port);
    ReplaceOnly(before, outer.pattern, after, value);
    ReplaceTwo(argument, inner, outer);
    UnsealedIsRefused(argument, [inner, outer]);
    NoOpenerWritten(before, value, after, PORT_OPENER);
    NoOpenerWritten(before, value, after, TEMP_OPENER);
  }

  lemma NestedIsDistinct(opener: string, whole: string, name: string, inner: Sub, outer: Sub)
    requires opener == PORT_OPENER || opener == TEMP_OPENER
    requires ValidName(name) && ValidName(whole) && whole != name
    requires inner.pattern == PORT_OPENER + name + "}" && outer.pattern == opener + whole + "}"
    ensures Distinct([inner, outer])
  {
    assert Placeholder(inner.pattern) && Placeholder(outer.pattern);
    if opener == PORT_OPENER {
      assert inner.pattern[|PORT_OPENER|..|inner.pattern| - 1] == name;
      assert outer.pattern[|PORT_OPENER|..|outer.pattern| - 1] == whole;
    } else {
      assert inner.pattern[1] == 'p' && outer.pattern[1] == 't';
    }
  }

  lemma NestedIsNotSealed(
    before: string, opener: string, start: string, name: string, end: string, after: string, port: string)
    requires opener == PORT_OPENER || opener == TEMP_OPENER
    requires ValidName(start + port + end) && NoBrace(before)
    ensures !Sealed(Nested(before, opener, start, name, end, after))
  {
    var inside := opener[1..] + start;
    var rest := PORT_OPENER + name + "}" + (end + "}" + after);
    var text := opener + start + rest;
    NamesHaveNoBraces(start, port, end);
    assert NoBrace(inside) && '}' !in inside;
    ClosesAcross(inside, rest);
    SealedAcross(before, text);
    hide NoBrace, ValidName;
    assert text == opener + (start + rest) && opener <= text;
    assert text[1..] == inside + rest;
    assert rest[0] == '{' && !ClosesFirst(rest);
    assert Opens(text) && !ClosesFirst(text[1..]);
  }

  /** For example, with a port that a bind to port 0 can return. */
  lemma NestedOpenerDiffers()
    ensures var argument, subs := "{port:x{port:a}}", Subs([("a", "49152"), ("x49152", "50000")], []);
            && Distinct(subs) && !Sealed(argument)
            && Checked(argument, ReplaceAll(argument, subs)) == Ok("50000")
            && Simultaneous(argument, subs).Err?
  {
    hide Checked, Simultaneous, ReplaceAll, Sealed, Distinct;
    assert "x" + "49152" + "" == "x49152";
    assert forall i :: 0 <= i < |"x49152"| ==> ValidNameChar("x49152"[i]);
    WithoutBraceOpensNowhere("50000");
    NestedNamesDiffer("", PORT_OPENER, "x", "a", "", "", "49152", "50000");
    assert Nested("", PORT_OPENER, "x", "a", "", "") == "{port:x{port:a}}";
    assert Subs([("a", "49152"), ("x49152", "50000")], []) == [PortSub("a", "49152"), PortSub("x49152", "50000")];
    assert PORT_OPENER + "x49152" + "}" == PORT_OPENER + ("x" + "49152" + "") + "}";
    assert "" + ("50000" + "") == "50000";
  }

  // ----- exactly when they agree: the values

  /** A directory whose own name holds an opener: the pass copies it, the replacement refuses what it wrote itself. */
  lemma OpenerInPathDiffers()
    ensures var argument, subs := "{temp:d}", [TempSub("d", "/x{port:y")];
            && Distinct(subs) && Sealed(argument) && !OpensNowhere(subs[0].value)
            && Checked(argument, ReplaceAll(argument, subs)).Err?
            && Simultaneous(argument, subs) == Ok("/x{port:y")
  {
    var value, sub := "/x{port:y", TempSub("d", "/x{port:y");
    assert value[1..][1..] == "{port:y" && PORT_OPENER <= value[1..][1..];
    assert Contains(value[1..][1..], PORT_OPENER) && !OpensNowhere(value[1..][1..]);
    assert Contains(value[1..], PORT_OPENER) && !OpensNowhere(value[1..]);
    assert Contains(value, PORT_OPENER) && value + "" == value;
    assert ValidName("d");
    assert sub.pattern + "" == "{temp:d}";
    OpeningValueDiffers("d", value, "");
  }

  /** A placeholder followed by text without any brace, and a value in or after which an opener arises. */
  lemma OpeningValueDiffers(name: string, value: string, tail: string)
    requires ValidName(name) && NoBrace(tail)
    requires Contains(value + tail, PORT_OPENER) || Contains(value + tail, TEMP_OPENER)
    ensures var sub := TempSub(name, value);
            var argument := sub.pattern + tail;
            && Distinct([sub]) && Sealed(argument)
            && Checked(argument, ReplaceAll(argument, [sub])).Err?
            && Simultaneous(argument, [sub]) == Ok(value + tail)
  {
    var sub := TempSub(name, value);
    var argument := sub.pattern + tail;
    assert Placeholder(sub.pattern);
    PlaceholdersAreTags(sub.pattern);
    assert Distinct([sub]);
    assert argument[|sub.pattern|..] == tail;
    hide Placeholder, ValidName, Replace, Contains, ClosesFirst, Tag;
    SealedTail(tail);
    PlaceholderIsSealed(argument, sub.pattern);
    ReplaceOnly("", sub.pattern, tail, value);
    assert "" + argument == argument && "" + (value + tail) == value + tail;
    assert [sub][..0] == [];
    assert ReplaceAll(argument, [sub]) == value + tail;
    assert Hit(argument, [sub]) == Some(sub);
    TailIsCopied(tail, [sub]);
  }

  lemma SealedTail(tail: string)
    requires NoBrace(tail)
    ensures Sealed(tail)
  {
    assert tail + "" == tail;
    SealedAcross(tail, "");
  }

  lemma {:induction false} TailIsCopied(tail: string, subs: seq<Sub>)
    requires Distinct(subs) && NoBrace(tail)
    ensures Text(tail, subs) == tail && !MeetsUnknown(tail, subs)
  {
    if tail == "" {
    } else {
      NoHitWithoutBrace(tail, subs);
      TailIsCopied(tail[1..], subs);
      assert tail == [tail[0]] + tail[1..];
    }
  }

  lemma {:induction false} PassSkips(prefix: string, text: string, subs: seq<Sub>)
    requires Distinct(subs) && NoBrace(prefix)
    ensures MeetsUnknown(prefix + text, subs) <==> MeetsUnknown(text, subs)
  {
    hide Distinct, Placeholder, Hit;
    if prefix == "" {
      assert prefix + text == text;
    } else {
      var whole := prefix + text;
      assert whole[1..] == prefix[1..] + text && whole[0] != '{';
      NoHitWithoutBrace(whole, subs);
      PassSkips(prefix[1..], text, subs);
    }
  }

  lemma KnownIsHit(sub: Sub, tail: string, subs: seq<Sub>)
    requires Distinct(subs) && sub in subs
    ensures Hit(sub.pattern + tail, subs) == Some(sub)
  {
    var hit := Hit(sub.pattern + tail, subs);
    var i :| 0 <= i < |subs| && subs[i] == sub;
    assert sub.pattern <= sub.pattern + tail;
    var j :| 0 <= j < |subs| && subs[j] == hit.value;
    HitIsUnique(sub.pattern + tail, sub.pattern, hit.value.pattern);
  }

  /** A known placeholder in otherwise brace-free text is where its value goes. */
  lemma KnownPlaceholderIsFilled(before: string, sub: Sub, tail: string, subs: seq<Sub>)
    requires Distinct(subs) && sub in subs && NoBrace(before) && NoBrace(tail)
    ensures Sealed(before + (sub.pattern + tail))
    ensures Simultaneous(before + (sub.pattern + tail), subs) == Ok(before + (sub.value + tail))
  {
    var i :| 0 <= i < |subs| && subs[i] == sub;
    var rest := sub.pattern + tail;
    assert Placeholder(sub.pattern);
    PlaceholdersAreTags(sub.pattern);
    hide Distinct, Placeholder, Hit, ClosesFirst, Tag;
    KnownIsHit(sub, tail, subs);
    assert rest[|sub.pattern|..] == tail && rest != "";
    TailIsCopied(tail, subs);
    SealedTail(tail);
    PlaceholderIsSealed(rest, sub.pattern);
    SealedAcross(before, rest);
    TextSkips(before, rest, subs);
    PassSkips(before, rest, subs);
  }

  /** A value that opens somewhere holds an opener, or ends in the beginning of one. */
  lemma {:induction false} SomewhereItOpens(value: string) returns (tail: string)
    requires !OpensNowhere(value)
    ensures NoBrace(tail)
    ensures Contains(value + tail, PORT_OPENER) || Contains(value + tail, TEMP_OPENER)
  {
    if OpensNowhere(value[1..]) {
      var opener :=
        if PORT_OPENER <= value || value <= PORT_OPENER then PORT_OPENER else TEMP_OPENER;
      if opener <= value {
        tail := "";
        assert value + tail == value;
      } else {
        tail := opener[|value|..];
        assert value + tail == opener;
        assert forall i :: 0 <= i < |tail| ==> tail[i] == opener[|value| + i];
      }
      assert opener <= value + tail;
    } else {
      tail := SomewhereItOpens(value[1..]);
      assert (value + tail)[1..] == value[1..] + tail;
    }
  }

  /**
   * For every directory value that starts like one: the two agree on all sealed arguments if and only if no opener
   * begins in the value. Other braces do no harm.
   */
  lemma OpensNowhereIsExact(name: string, value: string)
    requires ValidName(name) && StartsForeign(value)
    ensures Patterned([TempSub(name, value)])
    ensures OpensNowhere(value) <==>
              forall argument {:trigger Sealed(argument)} :: Sealed(argument) ==>
                Checked(argument, ReplaceAll(argument, [TempSub(name, value)]))
                == Simultaneous(argument, [TempSub(name, value)])
  {
    var subs := [TempSub(name, value)];
    assert Placeholder(subs[0].pattern);
    if OpensNowhere(value) {
      forall argument | Sealed(argument)
        ensures Checked(argument, ReplaceAll(argument, subs)) == Simultaneous(argument, subs)
      {
        ReplacementIsSimultaneous(argument, subs);
      }
    } else {
      var tail := SomewhereItOpens(value);
      OpeningValueDiffers(name, value, tail);
      var argument := subs[0].pattern + tail;
      assert Sealed(argument);
      assert Checked(argument, ReplaceAll(argument, subs)) != Simultaneous(argument, subs);
    }
  }
}
