/** `encode_ulid`, and why run directory names sorted as strings are sorted by time. */
module Ulid {
  import opened Wrappers

  const CROCKFORD_BASE32 := "0123456789ABCDEFGHJKMNPQRSTVWXYZ"
  const ULID_LENGTH: nat := 26
  const TIMESTAMPS: nat := 0x1_0000_0000_0000
  const RANDOMNESS: nat := 0x1_0000_0000_0000_0000_0000

  function Power32(exponent: nat): (p: nat)
    ensures p > 0
  {
    if exponent == 0 then 1 else 32 * Power32(exponent - 1)
  }

  lemma AlphabetAscends()
    ensures forall i, j :: 0 <= i < j < 32 ==> CROCKFORD_BASE32[i] < CROCKFORD_BASE32[j]
  {
  }

  /** The digits, then A to H, J and K, M and N, P to T, and V to Z. */
  lemma CrockfordsLetters(d: nat)
    requires d < 32
    ensures CROCKFORD_BASE32[d] as int
         == d + (if d < 10 then 48 else if d < 18 then 55 else if d < 20 then 56 else if d < 22 then 57
                 else if d < 27 then 58 else 59)
  {
  }

  /** Crockford's alphabet: the digits and the capital letters in order, without I, L, O and U. */
  lemma AlphabetIsCrockfords(c: char)
    ensures InAlphabet(c) <==> ('0' <= c <= '9' || 'A' <= c <= 'Z') && c !in "ILOU"
  {
    assert c in "ILOU" <==> c == 'I' || c == 'L' || c == 'O' || c == 'U';
    hide CROCKFORD_BASE32;
    var d := c as int - (if c <= '9' then 48 else if c < 'I' then 55 else if c < 'L' then 56 else if c < 'O' then 57
                         else if c < 'U' then 58 else 59);
    if 0 <= d < 32 {
      CrockfordsLetters(d);
    }
    if InAlphabet(c) {
      var e :| 0 <= e < 32 && CROCKFORD_BASE32[e] == c;
      CrockfordsLetters(e);
    }
  }

  predicate InAlphabet(c: char) {
    exists d :: 0 <= d < 32 && CROCKFORD_BASE32[d] == c
  }

  /** The value of a digit: its place in the alphabet. */
  function DigitOf(c: char): (digit: nat)
    requires InAlphabet(c)
    ensures digit < 32 && CROCKFORD_BASE32[digit] == c
  {
    AlphabetAscends();
    var d :| 0 <= d < 32 && CROCKFORD_BASE32[d] == c;
    d
  }

  predicate Base32(text: string) {
    forall i :: 0 <= i < |text| ==> InAlphabet(text[i])
  }

  /** The number a base-32 text denotes, most significant digit first. */
  function ValueOf(text: string): nat
    requires Base32(text)
  {
    if text == [] then 0 else DigitOf(text[0]) * Power32(|text| - 1) + ValueOf(text[1..])
  }

  lemma {:induction false} ValueWithin(text: string)
    requires Base32(text)
    ensures ValueOf(text) < Power32(|text|)
  {
    if text == [] {
    } else {
      ValueWithin(text[1..]);
      DigitShare(DigitOf(text[0]), 32, Power32(|text| - 1));
    }
  }

  lemma DigitShare(d: nat, e: nat, p: nat)
    requires d < e
    ensures d * p + p <= e * p
  {
    assert (e - d - 1) * p >= 0;
    assert e * p == d * p + p + (e - d - 1) * p;
  }

  method EncodeUlid(timestampMs: nat, randomness: nat) returns (encoded: string)
    requires timestampMs < TIMESTAMPS && randomness < RANDOMNESS
    ensures |encoded| == ULID_LENGTH && Base32(encoded)
    ensures ValueOf(encoded) == timestampMs * RANDOMNESS + randomness
  {
    var value: nat := timestampMs * RANDOMNESS + randomness;
    ghost var all := value;
    var digits := new char[ULID_LENGTH](_ => '0');
    var index := ULID_LENGTH;
    while index > 0
      invariant 0 <= index <= ULID_LENGTH
      invariant Base32(digits[index..])
      invariant all == value * Power32(ULID_LENGTH - index) + ValueOf(digits[index..])
    {
      ghost var suffix := digits[index..];
      index := index - 1;
      NextDigit(all, value, suffix);
      digits[index] := CROCKFORD_BASE32[value % 32];
      assert digits[index..] == [CROCKFORD_BASE32[value % 32]] + suffix;
      value := value / 32;
    }
    encoded := digits[..];
    assert digits[0..] == digits[..];
    NothingLeft(all, value, Power32(ULID_LENGTH), ValueOf(encoded));
  }

  /** Moving the lowest digit of what is left in front of the digits written keeps the whole. */
  lemma NextDigit(all: nat, value: nat, suffix: string)
    requires Base32(suffix) && all == value * Power32(|suffix|) + ValueOf(suffix)
    ensures var text := [CROCKFORD_BASE32[value % 32]] + suffix;
            Base32(text) && all == value / 32 * Power32(|text|) + ValueOf(text)
  {
    var text := [CROCKFORD_BASE32[value % 32]] + suffix;
    DigitOfPlace(value % 32);
    assert text[1..] == suffix;
    SplitDigit(value, Power32(|suffix|));
  }

  lemma NothingLeft(all: nat, value: nat, p: nat, written: nat)
    requires all == value * p + written && all < TIMESTAMPS * RANDOMNESS && p == Power32(26)
    ensures all == written
  {
    Power26();
    if value > 0 {
      DigitShare(0, value, p);
    }
  }

  lemma DigitOfPlace(d: nat)
    requires d < 32
    ensures InAlphabet(CROCKFORD_BASE32[d]) && DigitOf(CROCKFORD_BASE32[d]) == d
  {
    AlphabetAscends();
  }

  lemma SplitDigit(value: nat, p: nat)
    ensures value * p == value / 32 * (32 * p) + value % 32 * p
  {
    assert value == value / 32 * 32 + value % 32;
    assert (value / 32 * 32 + value % 32) * p == value / 32 * 32 * p + value % 32 * p;
  }

  lemma Power26()
    ensures Power32(26) == 4 * TIMESTAMPS * RANDOMNESS
  {
    assert Power32(6) == 0x4000_0000;
    assert Power32(12) == 0x1000_0000_0000_0000;
    assert Power32(19) == 0x8000_0000_0000_0000_0000_0000;
  }

  // ----- order

  /** The order of strings by characters, as `sort_unstable` uses it. */
  predicate Precedes(a: string, b: string) {
    b != [] && (a == [] || a[0] < b[0] || (a[0] == b[0] && Precedes(a[1..], b[1..])))
  }

  lemma HigherDigitWins(x: nat, y: nat, p: nat, v: nat, w: nat)
    requires x < y && v < p
    ensures x * p + v < y * p + w
  {
    DigitShare(x, y, p);
  }

  lemma DigitsCompare(c: char, d: char)
    requires InAlphabet(c) && InAlphabet(d)
    ensures c < d <==> DigitOf(c) < DigitOf(d)
    ensures c == d <==> DigitOf(c) == DigitOf(d)
  {
    AlphabetAscends();
  }

  /** On texts of one length the order of strings is the order of the numbers they denote. */
  lemma {:induction false} OrderIsNumeric(a: string, b: string)
    requires Base32(a) && Base32(b) && |a| == |b|
    ensures Precedes(a, b) <==> ValueOf(a) < ValueOf(b)
    ensures a == b <==> ValueOf(a) == ValueOf(b)
  {
    hide Power32, InAlphabet, DigitOf;
    if a == [] {
    } else {
      OrderIsNumeric(a[1..], b[1..]);
      ValueWithin(a[1..]);
      ValueWithin(b[1..]);
      DigitsCompare(a[0], b[0]);
      var x, y, p := DigitOf(a[0]), DigitOf(b[0]), Power32(|a| - 1);
      assert a == [a[0]] + a[1..] && b == [b[0]] + b[1..];
      if x < y {
        HigherDigitWins(x, y, p, ValueOf(a[1..]), ValueOf(b[1..]));
      } else if y < x {
        HigherDigitWins(y, x, p, ValueOf(b[1..]), ValueOf(a[1..]));
      }
    }
  }

  /** A text that `encode_ulid` gives for a timestamp and a random part. */
  predicate Encodes(text: string, timestampMs: nat, randomness: nat) {
    && |text| == ULID_LENGTH && Base32(text)
    && randomness < RANDOMNESS
    && ValueOf(text) == timestampMs * RANDOMNESS + randomness
  }

  /** A text of the right length is an encoding exactly when its number fits 128 bits, so by its first digit. */
  lemma FirstDigitDecides(text: string)
    requires |text| == ULID_LENGTH && Base32(text)
    ensures (exists t: nat, r: nat :: t < TIMESTAMPS && Encodes(text, t, r)) <==> '0' <= text[0] <= '7'
  {
    var value, p := ValueOf(text), Power32(25);
    ValueWithin(text[1..]);
    Power26();
    assert Power32(26) == 32 * p;
    assert 8 * p == TIMESTAMPS * RANDOMNESS;
    FirstDigits(text[0]);
    if DigitOf(text[0]) < 8 {
      DigitShare(DigitOf(text[0]), 8, p);
      assert Encodes(text, value / RANDOMNESS, value % RANDOMNESS);
    } else {
      DigitShare(7, DigitOf(text[0]), p);
      forall t: nat, r: nat | t < TIMESTAMPS ensures !Encodes(text, t, r) {
        DigitShare(t, TIMESTAMPS, RANDOMNESS);
      }
    }
  }

  lemma FirstDigits(c: char)
    requires InAlphabet(c)
    ensures DigitOf(c) < 8 <==> '0' <= c <= '7'
  {
    AlphabetAscends();
    assert CROCKFORD_BASE32[7] == '7' && CROCKFORD_BASE32[0] == '0';
    var d := DigitOf(c);
    assert d < 7 ==> CROCKFORD_BASE32[d] < '7';
  }

  /** The encoding can be undone, and strings compare as the pairs they encode. */
  lemma UlidsOrderByTime(a: string, t: nat, r: nat, b: string, u: nat, s: nat)
    requires Encodes(a, t, r) && Encodes(b, u, s)
    ensures t == ValueOf(a) / RANDOMNESS && r == ValueOf(a) % RANDOMNESS
    ensures Precedes(a, b) <==> t < u || (t == u && r < s)
    ensures a == b <==> t == u && r == s
  {
    OrderIsNumeric(a, b);
  }

  lemma {:induction false} PrefixKeepsOrder(prefix: string, a: string, b: string)
    ensures Precedes(prefix + a, prefix + b) <==> Precedes(a, b)
  {
    if prefix == [] {
      assert prefix + a == a && prefix + b == b;
    } else {
      assert (prefix + a)[1..] == prefix[1..] + a && (prefix + b)[1..] == prefix[1..] + b;
      PrefixKeepsOrder(prefix[1..], a, b);
    }
  }

  /** `list_run_ids` sorts and reverses: the runs come out newest first. */
  lemma ReversedSortIsNewestFirst(sorted: seq<string>, ids: seq<string>, ulids: seq<string>, stamps: seq<(nat, nat)>)
    requires |sorted| == |ids| == |ulids| == |stamps|
    requires forall i, j :: 0 <= i < j < |sorted| ==> !Precedes(sorted[j], sorted[i])
    requires forall i :: 0 <= i < |ids| ==> ids[i] == sorted[|sorted| - 1 - i]
    requires forall i :: 0 <= i < |ids| ==> ids[i] == "run_" + ulids[i] && Encodes(ulids[i], stamps[i].0, stamps[i].1)
    ensures forall i, j :: 0 <= i < j < |ids| ==>
              stamps[i].0 > stamps[j].0 || (stamps[i].0 == stamps[j].0 && stamps[i].1 >= stamps[j].1)
  {
    forall i, j | 0 <= i < j < |ids|
      ensures stamps[i].0 > stamps[j].0 || (stamps[i].0 == stamps[j].0 && stamps[i].1 >= stamps[j].1)
    {
      assert !Precedes(sorted[|sorted| - 1 - i], sorted[|sorted| - 1 - j]);
      PrefixKeepsOrder("run_", ulids[i], ulids[j]);
      UlidsOrderByTime(ulids[i], stamps[i].0, stamps[i].1, ulids[j], stamps[j].0, stamps[j].1);
    }
  }
}
