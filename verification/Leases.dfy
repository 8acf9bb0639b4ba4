/**
 * Port leases: the registry that all runs of a state root share, and the allocation one supervisor holds.
 * Each method runs under the registry lock, so it meets no concurrent change; `Protocol` interleaves many of them.
 */
module Leases {
  import opened Wrappers
  import opened Model
  import opened Placeholders
  import Ulid

  const MAX_ALLOCATION_ATTEMPTS: nat := 128

  datatype Entry = Entry(runId: string, name: string, port: nat, acquiredAt: nat)

  datatype ReservedPort = ReservedPort(name: string, port: nat, listening: bool)

  datatype LeaseError = Io | Integrity | NoFreePort | InvalidName | BadArgument

  /** `canonical_run_id` accepts exactly `run_` followed by a 26-character uppercase ULID that fits 128 bits. */
  predicate CanonicalRunId(runId: string) {
    && |runId| == 30 && runId[..4] == "run_"
    && Ulid.Base32(runId[4..]) && '0' <= runId[4] <= '7'
  }

  /** Those are the identifiers that a timestamp and randomness encode to. */
  lemma CanonicalIsEncoded(runId: string)
    ensures CanonicalRunId(runId) <==>
              && |runId| >= 4 && runId[..4] == "run_"
              && exists t: nat, r: nat :: t < Ulid.TIMESTAMPS && Ulid.Encodes(runId[4..], t, r)
  {
    if |runId| == 30 && Ulid.Base32(runId[4..]) {
      Ulid.FirstDigitDecides(runId[4..]);
    }
  }

  predicate DistinctNames(names: seq<string>) {
    forall i, j :: 0 <= i < j < |names| ==> names[i] != names[j]
  }

  predicate ValidNames(names: seq<string>) {
    (forall i :: 0 <= i < |names| ==> ValidName(names[i])) && DistinctNames(names)
  }

  lemma ValidAreDistinct(names: seq<string>)
    requires ValidNames(names)
    ensures DistinctNames(names)
  {
  }

  method ValidateNames(names: seq<string>) returns (ok: bool)
    ensures ok <==> ValidNames(names)
  {
    var unique: set<string> := {};
    for i := 0 to |names|
      invariant forall name :: name in unique <==> name in names[..i]
      invariant ValidNames(names[..i])
    {
      if !ValidName(names[i]) {
        return false;
      }
      if names[i] in unique {
        var j :| 0 <= j < i && names[..i][j] == names[i];
        assert names[j] == names[i];
        return false;
      }
      assert names[..i + 1] == names[..i] + [names[i]];
      unique := unique + {names[i]};
    }
    assert names[..|names|] == names;
    return true;
  }

  predicate ValidEntries(entries: seq<Entry>) {
    forall i :: 0 <= i < |entries| ==> CanonicalRunId(entries[i].runId) && ValidName(entries[i].name)
  }

  lemma ValidOneByOne(entries: seq<Entry>)
    ensures ValidEntries(entries) <==> forall e :: e in entries ==> CanonicalRunId(e.runId) && ValidName(e.name)
  {
    hide CanonicalRunId, ValidName;
    forall i | 0 <= i < |entries| ensures entries[i] in entries {
    }
  }

  // ----- registry contents

  /** The entries whose supervisor was found active: entry `i` is kept when `active[i]`. */
  function Kept(entries: seq<Entry>, active: seq<bool>): (kept: seq<Entry>)
    requires |active| == |entries|
    ensures forall e :: e in kept ==> e in entries
    ensures forall i :: 0 <= i < |entries| && active[i] ==> entries[i] in kept
  {
    if entries == [] then []
    else
      var n := |entries| - 1;
      Kept(entries[..n], active[..n]) + (if active[n] then [entries[n]] else [])
  }

  /**
   * `kept` is what a filter leaves of `entries`: exactly those whose flag is set, each once and in the old order.
   * `at` says where each was.
   */
  ghost predicate Filtered(entries: seq<Entry>, flags: seq<bool>, kept: seq<Entry>, at: seq<nat>) {
    && |flags| == |entries| && |at| == |kept|
    && (forall j {:trigger at[j]} :: 0 <= j < |at| ==>
          at[j] < |entries| && flags[at[j]] && kept[j] == entries[at[j]])
    && (forall j, k :: 0 <= j < k < |at| ==> at[j] < at[k])
    && (forall i {:trigger flags[i]} :: 0 <= i < |flags| && flags[i] ==> i in at)
  }

  ghost predicate IsFiltered(entries: seq<Entry>, flags: seq<bool>, kept: seq<Entry>) {
    exists at: seq<nat> :: Filtered(entries, flags, kept, at)
  }

  lemma FilterGrows(entries: seq<Entry>, flags: seq<bool>, kept: seq<Entry>, at: seq<nat>, n: nat)
    requires n < |entries| == |flags| && Filtered(entries[..n], flags[..n], kept, at)
    ensures flags[n] ==> Filtered(entries[..n + 1], flags[..n + 1], kept + [entries[n]], at + [n])
    ensures !flags[n] ==> Filtered(entries[..n + 1], flags[..n + 1], kept, at)
  {
    forall i | 0 <= i <= n && flags[i] ensures i in at + [n] && (i < n ==> i in at) {
      assert i < n ==> flags[..n][i];
    }
    forall j | 0 <= j < |at| ensures at[j] < n && flags[at[j]] && kept[j] == entries[at[j]] {
      assert flags[..n][at[j]] && entries[..n][at[j]] == entries[at[j]];
    }
  }

  /** Pruning drops every entry whose supervisor was found inactive, and nothing else. */
  lemma {:induction false} KeptIsFiltered(entries: seq<Entry>, active: seq<bool>) returns (at: seq<nat>)
    requires |active| == |entries|
    ensures Filtered(entries, active, Kept(entries, active), at)
  {
    if entries == [] {
      at := [];
    } else {
      var n := |entries| - 1;
      at := KeptIsFiltered(entries[..n], active[..n]);
      FilterGrows(entries, active, Kept(entries[..n], active[..n]), at, n);
      assert entries[..n + 1] == entries && active[..n + 1] == active;
      at := if active[n] then at + [n] else at;
    }
  }

  /** For each entry, whether it is another run's. */
  function OfOthers(entries: seq<Entry>, runId: string): seq<bool> {
    seq(|entries|, i requires 0 <= i < |entries| => entries[i].runId != runId)
  }

  lemma {:induction false} OthersAreFiltered(entries: seq<Entry>, runId: string) returns (at: seq<nat>)
    ensures Filtered(entries, OfOthers(entries, runId), Others(entries, runId), at)
  {
    if entries == [] {
      at := [];
    } else {
      var n := |entries| - 1;
      at := OthersAreFiltered(entries[..n], runId);
      assert OfOthers(entries, runId)[..n] == OfOthers(entries[..n], runId);
      FilterGrows(entries, OfOthers(entries, runId), Others(entries[..n], runId), at, n);
      assert entries[..n + 1] == entries && OfOthers(entries, runId)[..n + 1] == OfOthers(entries, runId);
      at := if entries[n].runId != runId then at + [n] else at;
    }
  }

  /** The entries of all runs but one, in order. */
  function Others(entries: seq<Entry>, runId: string): (others: seq<Entry>)
    ensures forall e :: e in others <==> e in entries && e.runId != runId
  {
    if entries == [] then []
    else
      var n := |entries| - 1;
      Others(entries[..n], runId) + (if entries[n].runId != runId then [entries[n]] else [])
  }

  predicate DistinctPorts(entries: seq<Entry>) {
    forall i, j :: 0 <= i < j < |entries| ==> entries[i].port != entries[j].port
  }

  ghost predicate PortAmong(port: nat, entries: seq<Entry>) {
    exists e :: e in entries && e.port == port
  }

  /** The new entries answer the requested names one for one, with ports no kept entry and no other new one has. */
  ghost predicate Fresh(added: seq<Entry>, kept: seq<Entry>, runId: string, names: seq<string>) {
    && |added| == |names|
    && (forall i {:trigger added[i]} :: 0 <= i < |added| ==> added[i].runId == runId && added[i].name == names[i])
    && DistinctPorts(added)
    && forall i {:trigger added[i]} :: 0 <= i < |added| ==> !PortAmong(added[i].port, kept)
  }

  lemma {:induction false} KeptStaysDistinct(entries: seq<Entry>, active: seq<bool>)
    requires |active| == |entries| && DistinctPorts(entries)
    ensures DistinctPorts(Kept(entries, active))
  {
    if entries == [] {
    } else {
      var n := |entries| - 1;
      KeptStaysDistinct(entries[..n], active[..n]);
      var rest := Kept(entries[..n], active[..n]);
      forall i | 0 <= i < |rest| ensures rest[i].port != entries[n].port {
        assert rest[i] in entries[..n];
      }
    }
  }

  lemma {:induction false} OthersStayDistinct(entries: seq<Entry>, runId: string)
    requires DistinctPorts(entries)
    ensures DistinctPorts(Others(entries, runId))
  {
    if entries == [] {
    } else {
      var n := |entries| - 1;
      OthersStayDistinct(entries[..n], runId);
      var rest := Others(entries[..n], runId);
      forall i | 0 <= i < |rest| ensures rest[i].port != entries[n].port {
        assert rest[i] in entries[..n];
      }
    }
  }

  lemma FreshStaysDistinct(added: seq<Entry>, kept: seq<Entry>, runId: string, names: seq<string>)
    requires DistinctPorts(kept) && Fresh(added, kept, runId, names)
    ensures DistinctPorts(kept + added)
  {
    forall i, j | 0 <= i < j < |kept + added|
      ensures (kept + added)[i].port != (kept + added)[j].port
    {
      if i < |kept| <= j {
        assert kept[i] in kept && added[j - |kept|] == (kept + added)[j];
      }
    }
  }

  // ----- the registry

  /** What a bind to port 0 of the loopback address returns. */
  datatype Bind = Bound(port: nat) | BindFailed

  /** The first `n` binds succeed on ports that nobody holds and that differ from one another. */
  ghost predicate BindsAreFree(binds: seq<Bind>, kept: seq<Entry>, n: nat) {
    && n <= |binds|
    && (forall i {:trigger binds[i]} :: 0 <= i < n ==> binds[i].Bound? && !PortAmong(binds[i].port, kept))
    && (forall i, j :: 0 <= i < j < n ==> binds[i] != binds[j])
  }

  /** `port-leases.json`; a registry that was never written is known and empty. */
  class PortRegistry {
    var known: bool
    var entries: seq<Entry>

    /** A registry with these entries can be worked on: its schema is known and every entry names a run and a lease. */
    predicate Sound(entries: seq<Entry>)
      reads this`known
    {
      known && ValidEntries(entries)
    }

    /** Binds until a port comes that no entry has, as often as it may; a bind that fails is an error. */
    method TryBinds(binds: seq<Bind>, start: nat, unavailable: set<nat>)
      returns (found: Result<nat, LeaseError>, next: nat)
      requires start <= |binds|
      ensures start <= next <= |binds| + 1
      ensures start < |binds| && binds[start].Bound? && binds[start].port !in unavailable ==>
                found == Ok(binds[start].port) && next == start + 1
      ensures match found
              case Ok(port) =>
                && start < next <= |binds| && binds[next - 1] == Bound(port) && port !in unavailable
                && AllTaken(binds, start, next - 1, unavailable)
              case Err(NoFreePort) => next == start + 128 <= |binds| && AllTaken(binds, start, next, unavailable)
              case Err(error) => error == Io && (next > |binds| || (start < next && binds[next - 1].BindFailed?))
    {
      next := start;
      for attempts := 0 to MAX_ALLOCATION_ATTEMPTS
        invariant next == start + attempts <= |binds|
        invariant AllTaken(binds, start, next, unavailable)
        invariant start < |binds| && binds[start].Bound? && binds[start].port !in unavailable ==> attempts == 0
      {
        var bind := if next < |binds| then binds[next] else BindFailed;
        next := next + 1;
        if bind.BindFailed? {
          return Err(Io), next;
        }
        if bind.port !in unavailable {
          return Ok(bind.port), next;
        }
      }
      return Err(NoFreePort), next;
    }

    /**
     * `active[i]` is what the probe of entry `i`'s supervisor lock reports, `binds` what the successive binds
     * return, and `writes` whether the atomic write succeeds.
     */
    method ReservePorts(runId: string, names: seq<string>, active: seq<bool>, binds: seq<Bind>, now: nat, writes: bool)
      returns (result: Result<seq<ReservedPort>, LeaseError>)
      requires |active| == |entries|
      modifies this`entries
      ensures names == [] ==> result == Ok([])
      ensures result.Err? || names == [] ==> entries == old(entries)
      ensures result == Err(Integrity) <==> names != [] && !(known && ValidEntries(old(entries)))
      ensures result == Err(Integrity) <==>
                && names != []
                && (!known || exists e :: e in old(entries) && !(CanonicalRunId(e.runId) && ValidName(e.name)))
      ensures result == Err(NoFreePort) ==> |binds| >= 128
      ensures known && ValidEntries(old(entries)) && writes
              && BindsAreFree(binds, Kept(old(entries), active), |names|) ==>
                && result.Ok? && |result.value| == |names|
                && forall i :: 0 <= i < |names| ==> result.value[i].port == binds[i].port
      ensures result.Ok? && names != [] ==>
                && known && ValidEntries(old(entries)) && writes
                && |result.value| == |names|
                && Kept(old(entries), active) <= entries
                && var added := entries[|Kept(old(entries), active)|..];
                   && entries == Kept(old(entries), active) + added
                   && Fresh(added, Kept(old(entries), active), runId, names)
                   && forall i :: 0 <= i < |names| ==>
                        result.value[i] == ReservedPort(names[i], added[i].port, true)
      ensures result.Ok? && names != [] ==>
                && |names| <= |entries|
                && IsFiltered(old(entries), active, entries[..|entries| - |names|])
                && forall i :: 0 <= i < |names| ==>
                     entries[|entries| - |names| + i] == Entry(runId, names[i], result.value[i].port, now)
    {
      hide PortAmong, CanonicalRunId, ValidName, ValidEntries, BindsAreFree, AllTaken, Filtered;
      if names == [] {
        return Ok([]);
      }
      ValidOneByOne(entries);
      if !known || !ValidEntries(entries) {
        return Err(Integrity);
      }
      var kept := Kept(entries, active);
      var unavailable := set e | e in kept :: e.port;
      PortsListed(kept);
      var added: seq<Entry> := [];
      var reserved: seq<ReservedPort> := [];
      var next := 0;
      for n := 0 to |names|
        invariant |added| == |reserved| == n && next <= |binds|
        invariant entries == old(entries)
        invariant Fresh(added, kept, runId, names[..n])
        invariant forall p :: p in unavailable <==> PortAmong(p, kept) || PortAmong(p, added)
        invariant forall i :: 0 <= i < n ==> reserved[i] == ReservedPort(names[i], added[i].port, true)
        invariant forall i :: 0 <= i < n ==> added[i] == Entry(runId, names[i], reserved[i].port, now)
        invariant BindsAreFree(binds, kept, |names|) ==>
                    next == n && InTurn(binds, added)
      {
        if BindsAreFree(binds, kept, |names|) {
          NextBindIsFree(binds, kept, |names|, added, n);
        }
        var found;
        found, next := TryBinds(binds, next, unavailable);
        if found.Err? {
          return Err(found.error);
        }
        FreshGrows(added, kept, runId, names, n, Entry(runId, names[n], found.value, now));
        if BindsAreFree(binds, kept, |names|) {
          InTurnGrows(binds, added, Entry(runId, names[n], found.value, now));
        }
        unavailable := unavailable + {found.value};
        added := added + [Entry(runId, names[n], found.value, now)];
        reserved := reserved + [ReservedPort(names[n], found.value, true)];
      }
      if !writes {
        return Err(Io);
      }
      assert names[..|names|] == names;
      entries := kept + added;
      assert entries[|kept|..] == added && entries[..|kept|] == kept;
      ghost var at := KeptIsFiltered(old(entries), active);
      return Ok(reserved);
    }

    /** Removes a run's own entries; a failure leaves the stored registry as it was. */
    method Release(runId: string, writes: bool) returns (ok: bool)
      modifies this`entries
      ensures ok <==> known && ValidEntries(old(entries)) && writes
      ensures entries == if ok then Others(old(entries), runId) else old(entries)
      ensures ok ==> IsFiltered(old(entries), OfOthers(old(entries), runId), entries)
    {
      if !known || !ValidEntries(entries) || !writes {
        return false;
      }
      ghost var at := OthersAreFiltered(entries, runId);
      entries := Others(entries, runId);
      return true;
    }
  }

  lemma PortsListed(kept: seq<Entry>)
    ensures forall p :: p in (set e | e in kept :: e.port) <==> PortAmong(p, kept) || PortAmong(p, [])
  {
  }

  ghost predicate AllTaken(binds: seq<Bind>, start: nat, end: nat, unavailable: set<nat>) {
    end <= |binds| && forall i :: start <= i < end ==> binds[i].Bound? && binds[i].port in unavailable
  }

  /** The first binds gave these entries their ports, one each. */
  ghost predicate InTurn(binds: seq<Bind>, added: seq<Entry>) {
    |added| <= |binds| && forall i :: 0 <= i < |added| ==> binds[i] == Bound(added[i].port)
  }

  lemma InTurnGrows(binds: seq<Bind>, added: seq<Entry>, entry: Entry)
    requires InTurn(binds, added) && |added| < |binds| && binds[|added|] == Bound(entry.port)
    ensures InTurn(binds, added + [entry])
  {
  }

  lemma NextBindIsFree(binds: seq<Bind>, kept: seq<Entry>, n: nat, added: seq<Entry>, k: nat)
    requires BindsAreFree(binds, kept, n) && |added| == k < n && InTurn(binds, added)
    ensures k < |binds| && binds[k].Bound?
    ensures !PortAmong(binds[k].port, kept) && !PortAmong(binds[k].port, added)
  {
  }

  lemma FreshGrows(added: seq<Entry>, kept: seq<Entry>, runId: string, names: seq<string>, n: nat, entry: Entry)
    requires n < |names| && Fresh(added, kept, runId, names[..n])
    requires entry.runId == runId && entry.name == names[n]
    requires !PortAmong(entry.port, kept) && !PortAmong(entry.port, added)
    ensures Fresh(added + [entry], kept, runId, names[..n + 1])
    ensures forall p :: PortAmong(p, added + [entry]) <==> PortAmong(p, added) || p == entry.port
  {
    var grown := added + [entry];
    forall i | 0 <= i < |added| ensures added[i].port != entry.port {
      assert added[i] in added;
    }
    forall p ensures PortAmong(p, grown) <==> PortAmong(p, added) || p == entry.port {
      assert entry in grown;
      if PortAmong(p, added) {
        var e :| e in added && e.port == p;
        assert e in grown;
      }
    }
    assert forall i :: 0 <= i < |added| ==> grown[i] == added[i];
  }

  /** A successful reservation keeps ports distinct and loses no entry of a run whose supervisor was found active. */
  lemma ReservationIsFramed(
    before: seq<Entry>, active: seq<bool>, added: seq<Entry>, runId: string, names: seq<string>)
    requires |active| == |before| && DistinctPorts(before)
    requires Fresh(added, Kept(before, active), runId, names)
    ensures var after := Kept(before, active) + added;
            && DistinctPorts(after)
            && (forall i :: 0 <= i < |before| && active[i] ==> before[i] in after)
            && (forall e :: e in after && e !in before ==> e.runId == runId && e.name in names)
  {
    KeptStaysDistinct(before, active);
    FreshStaysDistinct(added, Kept(before, active), runId, names);
    forall e | e in added ensures e.runId == runId && e.name in names {
      var i :| 0 <= i < |added| && added[i] == e;
    }
  }

  // ----- what a run makes of its leases

  function Decimal(n: nat): (text: string)
    ensures text != "" && forall i :: 0 <= i < |text| ==> '0' <= text[i] <= '9'
  {
    var digit := [(n % 10 + 48) as char];
    if n < 10 then digit else Decimal(n / 10) + digit
  }

  /** The number a text of decimal digits denotes, read from the left. */
  function DigitsValue(text: string): int {
    if text == "" then 0 else 10 * DigitsValue(text[..|text| - 1]) + (text[|text| - 1] as int - '0' as int)
  }

  /** The text is how `n` is written: digits only, denoting `n`, without a leading zero unless it is all there is. */
  ghost predicate Spells(text: string, n: nat) {
    && text != "" && (forall i :: 0 <= i < |text| ==> '0' <= text[i] <= '9')
    && DigitsValue(text) == n
    && (text[0] == '0' ==> |text| == 1)
  }

  /** The text of a number reads back as that number. */
  lemma {:induction false} DecimalSpells(n: nat)
    ensures Spells(Decimal(n), n)
    ensures n > 0 ==> Decimal(n)[0] != '0'
  {
    var digit := [(n % 10 + 48) as char];
    if n < 10 {
      assert Decimal(n) == digit && digit[..0] == "";
    } else {
      DecimalSpells(n / 10);
      assert Decimal(n)[..|Decimal(n)| - 1] == Decimal(n / 10);
    }
  }

  lemma {:induction false} DigitsDenote(text: string)
    requires forall i :: 0 <= i < |text| ==> '0' <= text[i] <= '9'
    ensures DigitsValue(text) >= 0
    ensures text != "" && text[0] != '0' ==> DigitsValue(text) > 0
  {
    if text == "" {
    } else {
      DigitsDenote(text[..|text| - 1]);
    }
  }

  /** And only one text is how a number is written. */
  lemma {:induction false} SpellingIsUnique(a: string, b: string, n: nat)
    requires Spells(a, n) && Spells(b, n)
    ensures a == b
  {
    var x, y := a[..|a| - 1], b[..|b| - 1];
    DigitsDenote(x);
    DigitsDenote(y);
    assert DigitsValue(x) == DigitsValue(y) == n / 10 && a[|a| - 1] == b[|b| - 1];
    if x != "" && y != "" {
      SpellingIsUnique(x, y, n / 10);
    }
    assert a == x + [a[|a| - 1]] && b == y + [b[|b| - 1]];
  }

  /** Insertion into a map ordered by key, as a `BTreeMap` collects its pairs. */
  function InsertByName(pairs: seq<(string, string)>, pair: (string, string)): (r: seq<(string, string)>)
    ensures forall p :: p in r <==> p in pairs || p == pair
  {
    if pairs == [] || Ulid.Precedes(pair.0, pairs[0].0) then [pair] + pairs
    else [pairs[0]] + InsertByName(pairs[1..], pair)
  }

  function ByName(pairs: seq<(string, string)>): (r: seq<(string, string)>)
    ensures forall p :: p in r <==> p in pairs
  {
    if pairs == [] then [] else InsertByName(ByName(pairs[..|pairs| - 1]), pairs[|pairs| - 1])
  }

  ghost predicate InOrder(pairs: seq<(string, string)>) {
    forall i, j :: 0 <= i < j < |pairs| ==> !Ulid.Precedes(pairs[j].0, pairs[i].0)
  }

  lemma {:induction false} InsertKeepsOrder(pairs: seq<(string, string)>, pair: (string, string))
    requires InOrder(pairs)
    ensures InOrder(InsertByName(pairs, pair)) && |InsertByName(pairs, pair)| == |pairs| + 1
  {
    if pairs == [] || Ulid.Precedes(pair.0, pairs[0].0) {
      forall j | 0 <= j < |pairs| && Ulid.Precedes(pair.0, pairs[0].0) ensures !Ulid.Precedes(pairs[j].0, pair.0) {
        OrderChains(pairs[j].0, pair.0, pairs[0].0);
      }
    } else {
      var rest := InsertByName(pairs[1..], pair);
      InsertKeepsOrder(pairs[1..], pair);
      forall j | 0 <= j < |rest| ensures !Ulid.Precedes(rest[j].0, pairs[0].0) {
        assert rest[j] in rest;
        if rest[j] in pairs[1..] {
          var k :| 0 <= k < |pairs[1..]| && pairs[1..][k] == rest[j];
          assert pairs[k + 1] == rest[j];
        }
      }
    }
  }

  lemma {:induction false} OrderChains(a: string, b: string, c: string)
    ensures Ulid.Precedes(a, b) && Ulid.Precedes(b, c) ==> Ulid.Precedes(a, c)
    ensures !Ulid.Precedes(a, a)
  {
    if a != "" {
      OrderChains(a[1..], if b == "" then "" else b[1..], if c == "" then "" else c[1..]);
    }
  }

  /** The names come in ascending order, as iterating over a `BTreeMap` gives them, and each as often as before. */
  lemma {:induction false} ByNameIsSorted(pairs: seq<(string, string)>)
    ensures InOrder(ByName(pairs)) && |ByName(pairs)| == |pairs|
  {
    if pairs == [] {
    } else {
      ByNameIsSorted(pairs[..|pairs| - 1]);
      InsertKeepsOrder(ByName(pairs[..|pairs| - 1]), pairs[|pairs| - 1]);
    }
  }

  function PortPairs(reserved: seq<ReservedPort>): seq<(string, string)> {
    seq(|reserved|, i requires 0 <= i < |reserved| => (reserved[i].name, Decimal(reserved[i].port)))
  }

  function FindReserved(reserved: seq<ReservedPort>, name: string): (r: Option<ReservedPort>)
    ensures r.Some? ==> r.value in reserved && r.value.name == name
    ensures r.None? ==> forall p :: p in reserved ==> p.name != name
  {
    if reserved == [] then None
    else if reserved[0].name == name then Some(reserved[0])
    else FindReserved(reserved[1..], name)
  }

  function FindPath(temps: seq<(string, string)>, name: string): (r: Option<string>)
    ensures r.Some? ==> (name, r.value) in temps
    ensures r.None? ==> forall p :: p in temps ==> p.0 != name
  {
    if temps == [] then None
    else if temps[0].0 == name then Some(temps[0].1)
    else FindPath(temps[1..], name)
  }

  /** A port lease carries the port reserved under its name. */
  ghost predicate PortFilled(before: PortLeaseState, after: PortLeaseState, reserved: seq<ReservedPort>, at: nat) {
    exists r :: r in reserved && r.name == before.name
             && after == before.(port := Some(r.port), acquiredAt := Some(at))
  }

  ghost predicate TempFilled(before: TempLeaseState, after: TempLeaseState, temps: seq<(string, string)>, at: nat) {
    exists t :: t in temps && t.0 == before.name
             && after == before.(path := Some(t.1), acquiredAt := Some(at))
  }

  /** A port lease condition becomes a probe of the leased port; any other condition stays. */
  ghost predicate CheckFilled(before: Check, after: Check, reserved: seq<ReservedPort>) {
    if before.condition.PortLease? then
      exists r :: r in reserved && r.name == before.condition.name
               && after == before.(condition := Tcp("127.0.0.1:" + Decimal(r.port)))
    else after == before
  }

  /** A check that waits for a port lease nobody reserved. */
  ghost predicate Unmatched(check: Check, reserved: seq<ReservedPort>) {
    check.condition.PortLease? && FindReserved(reserved, check.condition.name).None?
  }

  ghost predicate LeasesFilled(before: LeaseState, after: LeaseState, reserved: seq<ReservedPort>,
                               temps: seq<(string, string)>, at: nat) {
    && |after.ports| == |before.ports| && |after.temps| == |before.temps|
    && (forall i :: 0 <= i < |before.ports| ==> PortFilled(before.ports[i], after.ports[i], reserved, at))
    && (forall i :: 0 <= i < |before.temps| ==> TempFilled(before.temps[i], after.temps[i], temps, at))
  }

  ghost predicate ArgumentsFilled(before: seq<string>, after: seq<string>, subs: seq<Sub>)
    requires Patterned(subs)
  {
    && |after| == |before|
    && forall i {:trigger after[i]} :: 0 <= i < |before| ==>
         Checked(before[i], ReplaceAll(before[i], subs)) == Ok(after[i])
  }

  ghost predicate ChecksFilled(before: seq<Check>, after: seq<Check>, reserved: seq<ReservedPort>) {
    && |after| == |before|
    && forall i :: 0 <= i < |before| ==> CheckFilled(before[i], after[i], reserved)
  }

  function LeaseSubs(reserved: seq<ReservedPort>, temps: seq<(string, string)>): (subs: seq<Sub>)
    ensures Patterned(subs)
  {
    Subs(ByName(PortPairs(reserved)), ByName(temps))
  }

  /** No state document can be filled from these leases: a lease, a check or an argument asks for one not there. */
  ghost predicate Unfillable(state: RunState, reserved: seq<ReservedPort>, temps: seq<(string, string)>) {
    || (exists l :: l in state.leases.ports && FindReserved(reserved, l.name).None?)
    || (exists l :: l in state.leases.temps && FindPath(temps, l.name).None?)
    || (exists i :: 0 <= i < |state.args|
                 && Checked(state.args[i], ReplaceAll(state.args[i], LeaseSubs(reserved, temps))).Err?)
    || (exists c :: c in state.readiness.checks && Unmatched(c, reserved))
  }

  /** Leases of these names, whatever they stand for, cannot all be filled into the document. */
  ghost predicate Refused(state: RunState, portNames: seq<string>, tempNames: seq<string>) {
    exists reserved: seq<ReservedPort>, temps: seq<(string, string)> ::
      PortNames(reserved) == portNames && Keys(temps) == tempNames && Unfillable(state, reserved, temps)
  }

  /**
   * Whoever is told of a port lease is told the port in its own document, in decimal: the placeholder of its name
   * stands for it, and so does the address that a check for the lease now probes.
   */
  ghost predicate TellsPorts(before: RunState, after: RunState, subs: seq<Sub>) {
    && |after.readiness.checks| == |before.readiness.checks|
    && forall i :: 0 <= i < |after.leases.ports| ==> TellsPort(before, after, subs, after.leases.ports[i])
  }

  ghost predicate TellsPort(before: RunState, after: RunState, subs: seq<Sub>, lease: PortLeaseState)
    requires |after.readiness.checks| == |before.readiness.checks|
  {
    && lease.port.Some?
    && exists text :: Spells(text, lease.port.value) && TellsText(before, after, subs, lease.name, text)
  }

  ghost predicate TellsText(before: RunState, after: RunState, subs: seq<Sub>, name: string, text: string)
    requires |after.readiness.checks| == |before.readiness.checks|
  {
    && Sub("{port:" + name + "}", text) in subs
    && forall c :: 0 <= c < |before.readiness.checks| && before.readiness.checks[c].condition == PortLease(name) ==>
         after.readiness.checks[c].condition == Tcp("127.0.0.1:" + text)
  }

  lemma SameName(reserved: seq<ReservedPort>, r: ReservedPort, q: ReservedPort)
    requires DistinctNames(PortNames(reserved)) && r in reserved && q in reserved && r.name == q.name
    ensures r == q
  {
    var i :| 0 <= i < |reserved| && reserved[i] == r;
    var j :| 0 <= j < |reserved| && reserved[j] == q;
    assert PortNames(reserved)[i] == r.name && PortNames(reserved)[j] == q.name;
  }

  lemma PortIsSubstituted(reserved: seq<ReservedPort>, temps: seq<(string, string)>, r: ReservedPort)
    requires r in reserved
    ensures Sub("{port:" + r.name + "}", Decimal(r.port)) in LeaseSubs(reserved, temps)
  {
    var k :| 0 <= k < |reserved| && reserved[k] == r;
    var pairs := ByName(PortPairs(reserved));
    assert PortPairs(reserved)[k] in pairs;
    var i :| 0 <= i < |pairs| && pairs[i] == (r.name, Decimal(r.port));
    SubsInOrder(pairs, ByName(temps));
  }

  lemma PortsAreTold(
    before: RunState, after: RunState, reserved: seq<ReservedPort>, temps: seq<(string, string)>, at: nat)
    requires DistinctNames(PortNames(reserved))
    requires LeasesFilled(before.leases, after.leases, reserved, temps, at)
    requires ChecksFilled(before.readiness.checks, after.readiness.checks, reserved)
    ensures TellsPorts(before, after, LeaseSubs(reserved, temps))
  {
    hide LeaseSubs, Spells, Decimal;
    forall i | 0 <= i < |after.leases.ports|
      ensures TellsPort(before, after, LeaseSubs(reserved, temps), after.leases.ports[i])
    {
      assert PortFilled(before.leases.ports[i], after.leases.ports[i], reserved, at);
      var r :| r in reserved && r.name == before.leases.ports[i].name
            && after.leases.ports[i] == before.leases.ports[i].(port := Some(r.port), acquiredAt := Some(at));
      DecimalSpells(r.port);
      PortIsSubstituted(reserved, temps, r);
      forall c | 0 <= c < |before.readiness.checks| && before.readiness.checks[c].condition == PortLease(r.name)
        ensures after.readiness.checks[c].condition == Tcp("127.0.0.1:" + Decimal(r.port))
      {
        assert CheckFilled(before.readiness.checks[c], after.readiness.checks[c], reserved);
        var q :| q in reserved && q.name == r.name
              && after.readiness.checks[c].condition == Tcp("127.0.0.1:" + Decimal(q.port));
        SameName(reserved, r, q);
      }
      assert TellsText(before, after, LeaseSubs(reserved, temps), r.name, Decimal(r.port));
    }
  }

  function HandedOff(lease: PortLeaseState, reserved: seq<ReservedPort>, at: nat): PortLeaseState {
    if FindReserved(reserved, lease.name).Some? then lease.(handoffAt := Some(at)) else lease
  }

  function SpawnRecorded(lease: PortLeaseState, at: nat): PortLeaseState {
    if lease.handoffAt.Some? then lease.(handoffGap := Some(SatSub(at, lease.handoffAt.value))) else lease
  }

  function AllReleased(leases: LeaseState, at: nat): LeaseState {
    LeaseState(
      seq(|leases.ports|, i requires 0 <= i < |leases.ports| => leases.ports[i].(releasedAt := Some(at))),
      seq(|leases.temps|, i requires 0 <= i < |leases.temps| => leases.temps[i].(releasedAt := Some(at))))
  }

  /** Every lease is marked as released at this time, and nothing else about it changes. */
  ghost predicate ReleasedAt(before: LeaseState, after: LeaseState, at: nat) {
    && |after.ports| == |before.ports| && |after.temps| == |before.temps|
    && (forall i :: 0 <= i < |before.ports| ==> after.ports[i] == before.ports[i].(releasedAt := Some(at)))
    && (forall i :: 0 <= i < |before.temps| ==> after.temps[i] == before.temps[i].(releasedAt := Some(at)))
  }

  /** The leases one supervisor holds, with its right to release them once. */
  class LeaseAllocation {
    const registry: PortRegistry
    const runId: string
    const reserved: seq<ReservedPort>
    const temps: seq<(string, string)>
    var listening: bool
    var registryReleased: bool

    constructor (registry: PortRegistry, runId: string, reserved: seq<ReservedPort>, temps: seq<(string, string)>)
      ensures this.registry == registry && this.runId == runId && this.reserved == reserved && this.temps == temps
      ensures listening && !registryReleased
    {
      this.registry, this.runId, this.reserved, this.temps := registry, runId, reserved, temps;
      listening, registryReleased := true, false;
    }

    /** Idempotent: once it has succeeded it does nothing more, so `Drop` may repeat it. */
    method ReleaseRegistry(writes: bool) returns (ok: bool)
      modifies this`registryReleased, registry`entries
      ensures registryReleased == ok
      ensures ok <==> old(registryReleased) || (registry.Sound(old(registry.entries)) && writes)
      ensures registry.entries
           == if ok && !old(registryReleased) then Others(old(registry.entries), runId) else old(registry.entries)
    {
      if registryReleased {
        return true;
      }
      ok := registry.Release(runId, writes);
      if ok {
        registryReleased := true;
      }
    }

    method Release(state: RunState, now: nat, writes: bool) returns (state': RunState, ok: bool)
      modifies this`registryReleased, registry`entries
      ensures registryReleased == ok
      ensures ok <==> old(registryReleased) || (registry.Sound(old(registry.entries)) && writes)
      ensures registry.entries
           == if ok && !old(registryReleased) then Others(old(registry.entries), runId) else old(registry.entries)
      ensures state' == if ok then state.(leases := AllReleased(state.leases, now)) else state
      ensures ok ==> ReleasedAt(state.leases, state'.leases, now)
    {
      ok := ReleaseRegistry(writes);
      state' := if ok then state.(leases := AllReleased(state.leases, now)) else state;
    }

    method Handoff(state: RunState, now: nat) returns (state': RunState)
      modifies this`listening
      ensures !listening
      ensures |state'.leases.ports| == |state.leases.ports|
      ensures forall i :: 0 <= i < |state.leases.ports| ==>
                state'.leases.ports[i] == HandedOff(state.leases.ports[i], reserved, now)
      ensures forall i :: 0 <= i < |state.leases.ports| ==>
                var lease := state.leases.ports[i];
                if exists r :: r in reserved && r.name == lease.name
                then state'.leases.ports[i] == lease.(handoffAt := Some(now))
                else state'.leases.ports[i] == lease
      ensures state' == state.(leases := state.leases.(ports := state'.leases.ports))
    {
      listening := false;
      var ports := seq(|state.leases.ports|,
                       i requires 0 <= i < |state.leases.ports| => HandedOff(state.leases.ports[i], reserved, now));
      state' := state.(leases := state.leases.(ports := ports));
    }

    method RecordSpawn(state: RunState, now: nat) returns (state': RunState)
      ensures |state'.leases.ports| == |state.leases.ports|
      ensures forall i :: 0 <= i < |state.leases.ports| ==>
                state'.leases.ports[i] == SpawnRecorded(state.leases.ports[i], now)
      ensures forall i :: 0 <= i < |state.leases.ports| ==>
                var lease := state.leases.ports[i];
                match lease.handoffAt
                case None => state'.leases.ports[i] == lease
                case Some(at) =>
                  state'.leases.ports[i] == lease.(handoffGap := Some(if at <= now then now - at else 0))
      ensures state' == state.(leases := state.leases.(ports := state'.leases.ports))
    {
      var ports := seq(|state.leases.ports|,
                       i requires 0 <= i < |state.leases.ports| => SpawnRecorded(state.leases.ports[i], now));
      state' := state.(leases := state.leases.(ports := ports));
    }

    /** Fills in ports, paths, arguments and readiness probes; fails on a lease, argument or check it cannot fill. */
    method PopulateState(state: RunState, at: nat) returns (result: Result<RunState, LeaseError>)
      ensures result.Ok? ==>
                var state' := result.value;
                && LeasesFilled(state.leases, state'.leases, reserved, temps, at)
                && ArgumentsFilled(state.args, state'.args, LeaseSubs(reserved, temps))
                && ChecksFilled(state.readiness.checks, state'.readiness.checks, reserved)
                && state' == state.(leases := state'.leases, args := state'.args,
                                    readiness := state.readiness.(checks := state'.readiness.checks))
      ensures result.Ok? && DistinctNames(PortNames(reserved)) ==>
                TellsPorts(state, result.value, LeaseSubs(reserved, temps))
      ensures result.Err? <==> Unfillable(state, reserved, temps)
      ensures result.Err? ==>
                if result.error == BadArgument then
                  exists i :: 0 <= i < |state.args|
                           && Checked(state.args[i], ReplaceAll(state.args[i], LeaseSubs(reserved, temps))).Err?
                else
                  || (exists l :: l in state.leases.ports && FindReserved(reserved, l.name).None?)
                  || (exists l :: l in state.leases.temps && FindPath(temps, l.name).None?)
                  || (exists c :: c in state.readiness.checks && Unmatched(c, reserved))
    {
      hide ArgumentsFilled, LeaseSubs;
      var ports := FillPorts(state.leases.ports, at);
      if ports.Err? {
        return Err(ports.error);
      }
      var directories := FillTemps(state.leases.temps, at);
      if directories.Err? {
        return Err(directories.error);
      }
      var args := FillArguments(state.args);
      if args.Err? {
        return Err(args.error);
      }
      var checks := FillChecks(state.readiness.checks);
      if checks.Err? {
        return Err(checks.error);
      }
      var filled := state.(leases := LeaseState(ports.value, directories.value), args := args.value,
                           readiness := state.readiness.(checks := checks.value));
      if DistinctNames(PortNames(reserved)) {
        PortsAreTold(state, filled, reserved, temps, at);
      }
      return Ok(filled);
    }

    method FillPorts(leases: seq<PortLeaseState>, at: nat) returns (result: Result<seq<PortLeaseState>, LeaseError>)
      ensures result.Err? ==> result.error == Integrity
      ensures result.Err? <==> exists i :: 0 <= i < |leases| && FindReserved(reserved, leases[i].name).None?
      ensures result.Ok? ==>
                && |result.value| == |leases|
                && forall i :: 0 <= i < |leases| ==> PortFilled(leases[i], result.value[i], reserved, at)
    {
      var filled: seq<PortLeaseState> := [];
      for i := 0 to |leases|
        invariant |filled| == i
        invariant forall j :: 0 <= j < i ==> PortFilled(leases[j], filled[j], reserved, at)
        invariant forall j :: 0 <= j < i ==> FindReserved(reserved, leases[j].name).Some?
      {
        var r := FindReserved(reserved, leases[i].name);
        if r.None? {
          return Err(Integrity);
        }
        filled := filled + [leases[i].(port := Some(r.value.port), acquiredAt := Some(at))];
      }
      return Ok(filled);
    }

    method FillTemps(leases: seq<TempLeaseState>, at: nat) returns (result: Result<seq<TempLeaseState>, LeaseError>)
      ensures result.Err? ==> result.error == Integrity
      ensures result.Err? <==> exists i :: 0 <= i < |leases| && FindPath(temps, leases[i].name).None?
      ensures result.Ok? ==>
                && |result.value| == |leases|
                && forall i :: 0 <= i < |leases| ==> TempFilled(leases[i], result.value[i], temps, at)
    {
      var filled: seq<TempLeaseState> := [];
      for i := 0 to |leases|
        invariant |filled| == i
        invariant forall j :: 0 <= j < i ==> TempFilled(leases[j], filled[j], temps, at)
        invariant forall j :: 0 <= j < i ==> FindPath(temps, leases[j].name).Some?
      {
        var path := FindPath(temps, leases[i].name);
        if path.None? {
          return Err(Integrity);
        }
        assert (leases[i].name, path.value) in temps;
        filled := filled + [leases[i].(path := path, acquiredAt := Some(at))];
      }
      return Ok(filled);
    }

    method FillArguments(arguments: seq<string>) returns (result: Result<seq<string>, LeaseError>)
      ensures result.Ok? ==> ArgumentsFilled(arguments, result.value, LeaseSubs(reserved, temps))
      ensures result.Err? ==> result.error == BadArgument
      ensures result.Err? <==>
                exists i :: 0 <= i < |arguments|
                         && Checked(arguments[i], ReplaceAll(arguments[i], LeaseSubs(reserved, temps))).Err?
    {
      var filled: seq<string> := [];
      for i := 0 to |arguments|
        invariant ArgumentsFilled(arguments[..i], filled, LeaseSubs(reserved, temps))
      {
        var replaced := ReplacePlaceholders(arguments[i], ByName(PortPairs(reserved)), ByName(temps));
        if replaced.Err? {
          return Err(BadArgument);
        }
        filled := filled + [replaced.value];
      }
      assert arguments[..|arguments|] == arguments;
      assert forall i :: 0 <= i < |arguments| ==>
               Checked(arguments[i], ReplaceAll(arguments[i], LeaseSubs(reserved, temps))) == Ok(filled[i]);
      return Ok(filled);
    }

    method FillChecks(checks: seq<Check>) returns (result: Result<seq<Check>, LeaseError>)
      ensures result.Err? ==> result.error == Integrity
      ensures result.Err? <==> exists i :: 0 <= i < |checks| && Unmatched(checks[i], reserved)
      ensures result.Ok? ==> ChecksFilled(checks, result.value, reserved)
    {
      var filled: seq<Check> := [];
      for i := 0 to |checks|
        invariant ChecksFilled(checks[..i], filled, reserved)
        invariant forall j :: 0 <= j < i ==> !Unmatched(checks[j], reserved)
      {
        var check := checks[i];
        if check.condition.PortLease? {
          var r := FindReserved(reserved, check.condition.name);
          if r.None? {
            return Err(Integrity);
          }
          check := check.(condition := Tcp("127.0.0.1:" + Decimal(r.value.port)));
        }
        assert CheckFilled(checks[i], check, reserved);
        filled := filled + [check];
      }
      assert checks[..|checks|] == checks;
      return Ok(filled);
    }
  }

  ghost predicate NoneOf(entries: seq<Entry>, runId: string) {
    forall e :: e in entries ==> e.runId != runId
  }

  /** A registry as one run leaves it that found it as `before`, by whether it has reserved and released. */
  function RegistryAfter(
    before: seq<Entry>, active: seq<bool>, added: seq<Entry>, runId: string, reserved: bool, released: bool): seq<Entry>
    requires |active| == |before|
  {
    var held := if reserved then Kept(before, active) + added else before;
    if released then Others(held, runId) else held
  }

  lemma OthersLast(entries: seq<Entry>, runId: string)
    requires entries != []
    ensures var init, last := entries[..|entries| - 1], entries[|entries| - 1];
            Others(entries, runId) == Others(init, runId) + (if last.runId != runId then [last] else [])
  {
  }

  lemma LastOfAll(entries: seq<Entry>)
    requires entries != []
    ensures entries[..|entries| - 1] + [entries[|entries| - 1]] == entries
  {
  }

  lemma {:induction false} AllOfOthers(entries: seq<Entry>, runId: string)
    requires forall i :: 0 <= i < |entries| ==> entries[i].runId != runId
    ensures Others(entries, runId) == entries
  {
    if entries == [] {
    } else {
      AllOfOthers(entries[..|entries| - 1], runId);
      hide Others;
      OthersLast(entries, runId);
      LastOfAll(entries);
    }
  }

  lemma NothingToRemove(entries: seq<Entry>, runId: string)
    requires NoneOf(entries, runId)
    ensures Others(entries, runId) == entries
  {
    hide Others;
    forall i | 0 <= i < |entries| ensures entries[i].runId != runId {
      assert entries[i] in entries;
    }
    hide NoneOf;
    AllOfOthers(entries, runId);
  }

  lemma UntouchedRegistry(before: seq<Entry>, active: seq<bool>, added: seq<Entry>, runId: string)
    requires |active| == |before|
    ensures RegistryAfter(before, active, added, runId, false, false) == before
  {
  }

  /** Whether or not it was released before, a release leaves the registry without the run's entries. */
  lemma ReleasedRegistry(
    before: seq<Entry>, active: seq<bool>, added: seq<Entry>, runId: string, reserved: bool, released: bool)
    requires |active| == |before|
    ensures Others(RegistryAfter(before, active, added, runId, reserved, released), runId)
         == RegistryAfter(before, active, added, runId, reserved, true)
  {
    if released {
      NothingToRemove(RegistryAfter(before, active, added, runId, reserved, released), runId);
    }
  }

  /** A reservation or a release of a run with a canonical identifier and valid names leaves a valid registry. */
  lemma SoundAfter(
    before: seq<Entry>, active: seq<bool>, added: seq<Entry>, runId: string, names: seq<string>,
    reserved: bool, released: bool)
    requires |active| == |before| && ValidEntries(before) && CanonicalRunId(runId) && ValidNames(names)
    requires reserved ==> Fresh(added, Kept(before, active), runId, names)
    ensures ValidEntries(RegistryAfter(before, active, added, runId, reserved, released))
  {
    hide CanonicalRunId, ValidName;
    var held := if reserved then Kept(before, active) + added else before;
    forall e | e in held ensures CanonicalRunId(e.runId) && ValidName(e.name) {
      if reserved && e in added {
        var i :| 0 <= i < |added| && added[i] == e;
        assert ValidName(names[i]);
      } else {
        var i :| 0 <= i < |before| && before[i] == e;
      }
    }
    var after := RegistryAfter(before, active, added, runId, reserved, released);
    forall i | 0 <= i < |after| ensures CanonicalRunId(after[i].runId) && ValidName(after[i].name) {
      assert after[i] in after && after[i] in held;
    }
  }

  function PortNames(reserved: seq<ReservedPort>): seq<string> {
    seq(|reserved|, i requires 0 <= i < |reserved| => reserved[i].name)
  }

  function Keys(pairs: seq<(string, string)>): seq<string> {
    seq(|pairs|, i requires 0 <= i < |pairs| => pairs[i].0)
  }

  /**
   * `LeaseAllocation::acquire`. `paths` are the temporary directories created for the run, or none if creating them
   * failed, and `active` is what the probe of each entry's supervisor lock reports. A failure after the reservation
   * gives the ports back, once in its own right and again when the allocation is dropped; `undone` tells whether
   * either did.
   */
  method Acquire(
    registry: PortRegistry, runId: string, state: RunState, portNames: seq<string>, tempNames: seq<string>,
    paths: Option<seq<string>>, active: seq<bool>, binds: seq<Bind>, now: nat, writes: bool,
    undoes: bool, dropUndoes: bool)
    returns (allocation: LeaseAllocation?, state': RunState, reserved: bool, undone: Option<bool>, error: LeaseError,
             ghost added: seq<Entry>)
    requires |active| == |registry.entries|
    requires paths.Some? ==> |paths.value| == |tempNames|
    modifies registry`entries
    ensures registry.entries
         == RegistryAfter(old(registry.entries), active, added, runId, reserved, undone == Some(true))
    ensures reserved ==> portNames != [] && Fresh(added, Kept(old(registry.entries), active), runId, portNames)
    ensures allocation != null ==>
              && fresh(allocation) && allocation.registry == registry && allocation.runId == runId
              && !allocation.registryReleased && allocation.listening && undone.None?
              && reserved == (portNames != [])
              && ValidNames(portNames) && PortNames(allocation.reserved) == portNames
              && ValidNames(tempNames) && Keys(allocation.temps) == tempNames
              && LeasesFilled(state.leases, state'.leases, allocation.reserved, allocation.temps, now)
              && ArgumentsFilled(state.args, state'.args, LeaseSubs(allocation.reserved, allocation.temps))
              && ChecksFilled(state.readiness.checks, state'.readiness.checks, allocation.reserved)
              && state' == state.(leases := state'.leases, args := state'.args,
                                  readiness := state.readiness.(checks := state'.readiness.checks))
              && TellsPorts(state, state', LeaseSubs(allocation.reserved, allocation.temps))
    ensures allocation == null && reserved ==> undone.Some?
    ensures CanonicalRunId(runId) && ValidNames(portNames) && ValidNames(tempNames) && paths.Some?
            && (portNames != [] ==>
                  && registry.Sound(old(registry.entries)) && writes
                  && BindsAreFree(binds, Kept(old(registry.entries), active), |portNames|)) ==>
              allocation != null || Refused(state, portNames, tempNames)
  {
    hide LeasesFilled, ArgumentsFilled, ChecksFilled, Unfillable, TellsPorts, ValidNames, CanonicalRunId, BindsAreFree;
    hide Filtered, Fresh, LeaseSubs, OfOthers;
    allocation, state', reserved, undone, error := null, state, false, None, Integrity;
    added := [];
    if !CanonicalRunId(runId) {
      return;
    }
    var portsValid := ValidateNames(portNames);
    var tempsValid := ValidateNames(tempNames);
    if !portsValid || !tempsValid {
      error := InvalidName;
      return;
    }
    if paths.None? {
      error := Io;
      return;
    }
    ghost var kept := Kept(registry.entries, active);
    var ports := registry.ReservePorts(runId, portNames, active, binds, now, writes);
    if ports.Err? {
      error := ports.error;
      return;
    }
    reserved := portNames != [];
    added := if reserved then registry.entries[|kept|..] else [];
    var temps := seq(|tempNames|, i requires 0 <= i < |tempNames| => (tempNames[i], paths.value[i]));
    var candidate := new LeaseAllocation(registry, runId, ports.value, temps);
    assert PortNames(candidate.reserved) == portNames && Keys(candidate.temps) == tempNames;
    assert DistinctNames(PortNames(candidate.reserved)) by { ValidAreDistinct(portNames); }
    hide DistinctNames, PortNames, Keys;
    var populated := candidate.PopulateState(state, now);
    if populated.Err? {
      var ok := candidate.ReleaseRegistry(undoes);
      if !ok {
        ok := candidate.ReleaseRegistry(dropUndoes);
      }
      undone := Some(ok);
      error := populated.error;
      return;
    }
    allocation, state' := candidate, populated.value;
  }

  // ----- what the leases make of the arguments

  ghost predicate DistinctKeys(pairs: seq<(string, string)>) {
    forall i, j :: 0 <= i < j < |pairs| ==> pairs[i].0 != pairs[j].0
  }

  lemma {:induction false} InsertKeepsKeysDistinct(pairs: seq<(string, string)>, pair: (string, string))
    requires DistinctKeys(pairs) && forall p :: p in pairs ==> p.0 != pair.0
    ensures DistinctKeys(InsertByName(pairs, pair))
  {
    if pairs == [] || Ulid.Precedes(pair.0, pairs[0].0) {
    } else {
      var rest := InsertByName(pairs[1..], pair);
      InsertKeepsKeysDistinct(pairs[1..], pair);
      forall i | 0 <= i < |rest| ensures rest[i].0 != pairs[0].0 {
        assert rest[i] in rest;
        if rest[i] != pair {
          var j :| 0 <= j < |pairs[1..]| && pairs[1..][j] == rest[i];
          assert pairs[j + 1] == rest[i];
        }
      }
    }
  }

  lemma {:induction false} SortingKeepsKeysDistinct(pairs: seq<(string, string)>)
    requires DistinctKeys(pairs)
    ensures DistinctKeys(ByName(pairs))
  {
    if pairs == [] {
    } else {
      var n := |pairs| - 1;
      SortingKeepsKeysDistinct(pairs[..n]);
      forall p | p in ByName(pairs[..n]) ensures p.0 != pairs[n].0 {
        var j :| 0 <= j < n && pairs[..n][j] == p;
      }
      InsertKeepsKeysDistinct(ByName(pairs[..n]), pairs[n]);
    }
  }

  lemma PatternsDiffer(a: string, b: string, x: string, y: string)
    ensures PortSub(a, x).pattern != TempSub(b, y).pattern
    ensures a != b ==> PortSub(a, x).pattern != PortSub(b, y).pattern && TempSub(a, x).pattern != TempSub(b, y).pattern
  {
    assert PortSub(a, x).pattern[1] == 'p' && TempSub(b, y).pattern[1] == 't';
    var n := |PORT_OPENER|;
    assert PortSub(a, x).pattern[n..n + |a|] == a == TempSub(a, x).pattern[n..n + |a|];
    assert PortSub(b, y).pattern[n..n + |b|] == b == TempSub(b, y).pattern[n..n + |b|];
    assert |PortSub(a, x).pattern| == |TempSub(a, x).pattern| == n + |a| + 1;
    assert |PortSub(b, y).pattern| == |TempSub(b, y).pattern| == n + |b| + 1;
  }

  lemma SubsAreDistinct(ports: seq<(string, string)>, temps: seq<(string, string)>)
    requires DistinctKeys(ports) && DistinctKeys(temps)
    requires forall p :: p in ports || p in temps ==> ValidName(p.0)
    ensures Distinct(Subs(ports, temps))
  {
    var subs := Subs(ports, temps);
    SubsInOrder(ports, temps);
    hide Subs, PortSub, TempSub;
    forall i | 0 <= i < |subs| ensures Placeholder(subs[i].pattern) {
      if i < |ports| {
        assert ports[i] in ports;
        NamesPlaceholder(ports[i].0, ports[i].1);
      } else {
        assert temps[i - |ports|] in temps && subs[|ports| + (i - |ports|)] == subs[i];
        NamesPlaceholder(temps[i - |ports|].0, temps[i - |ports|].1);
      }
    }
    forall i, j | 0 <= i < j < |subs| ensures subs[i].pattern != subs[j].pattern {
      if j < |ports| {
        PatternsDiffer(ports[i].0, ports[j].0, ports[i].1, ports[j].1);
      } else {
        var t := temps[j - |ports|];
        assert subs[|ports| + (j - |ports|)] == TempSub(t.0, t.1);
        if i < |ports| {
          PatternsDiffer(ports[i].0, t.0, ports[i].1, t.1);
        } else {
          var u := temps[i - |ports|];
          assert subs[|ports| + (i - |ports|)] == TempSub(u.0, u.1);
          PatternsDiffer(u.0, t.0, u.1, t.1);
        }
      }
    }
  }

  lemma NamesPlaceholder(name: string, value: string)
    requires ValidName(name)
    ensures Placeholder(PortSub(name, value).pattern) && Placeholder(TempSub(name, value).pattern)
  {
  }

  /** Names that pass `validate_names` give distinct placeholders, in whatever order the maps list them. */
  lemma LeaseSubsAreDistinct(reserved: seq<ReservedPort>, temps: seq<(string, string)>)
    requires ValidNames(PortNames(reserved)) && ValidNames(Keys(temps))
    ensures Distinct(LeaseSubs(reserved, temps))
  {
    var ports := PortPairs(reserved);
    assert forall i :: 0 <= i < |reserved| ==> ports[i].0 == PortNames(reserved)[i];
    assert forall i :: 0 <= i < |temps| ==> temps[i].0 == Keys(temps)[i];
    SortingKeepsKeysDistinct(ports);
    SortingKeepsKeysDistinct(temps);
    SubsAreDistinct(ByName(ports), ByName(temps));
  }

  /** The directories' paths: absolute, and no opener begins in one. */
  ghost predicate PathsOpenNowhere(temps: seq<(string, string)>) {
    forall t :: t in temps ==> t.1 != "" && t.1[0] == '/' && OpensNowhere(t.1)
  }

  /** The ports are decimal and the directories absolute, so that only an opener in a path can disturb a replacement. */
  lemma LeaseValuesAreInert(reserved: seq<ReservedPort>, temps: seq<(string, string)>)
    requires PathsOpenNowhere(temps)
    ensures AllInert(LeaseSubs(reserved, temps))
  {
    var ports, paths := ByName(PortPairs(reserved)), ByName(temps);
    var subs := LeaseSubs(reserved, temps);
    forall i | 0 <= i < |subs| ensures Inert(subs[i].value) {
      if i < |ports| {
        assert ports[i] in PortPairs(reserved);
        var k :| 0 <= k < |reserved| && PortPairs(reserved)[k] == ports[i];
        assert '0' <= ports[i].1[0] <= '9';
        WithoutBraceOpensNowhere(ports[i].1);
      } else {
        assert paths[i - |ports|] in temps;
      }
    }
  }

  /**
   * End to end: with names as validated, and paths in which no opener begins, every argument whose openers are closed
   * before the next brace is filled as a single pass over it says.
   */
  lemma ArgumentsAreFilledInOnePass(
    before: seq<string>, after: seq<string>, reserved: seq<ReservedPort>, temps: seq<(string, string)>, i: nat)
    requires ValidNames(PortNames(reserved)) && ValidNames(Keys(temps)) && PathsOpenNowhere(temps)
    requires ArgumentsFilled(before, after, LeaseSubs(reserved, temps))
    requires i < |before| && Sealed(before[i])
    ensures i < |after| && Simultaneous(before[i], LeaseSubs(reserved, temps)) == Ok(after[i])
  {
    hide Simultaneous, Checked, ReplaceAll, Sealed;
    LeaseSubsAreDistinct(reserved, temps);
    LeaseValuesAreInert(reserved, temps);
    ReplacementIsSimultaneous(before[i], LeaseSubs(reserved, temps));
    assert Checked(before[i], ReplaceAll(before[i], LeaseSubs(reserved, temps))) == Ok(after[i]);
  }

  /**
   * The child that asks for a port of its own is told the port in its run's document: where the lease's placeholder
   * stands in an argument without other braces, the child finds that port in decimal.
   */
  lemma LeasedPortIsPassed(
    before: RunState, after: RunState, reserved: seq<ReservedPort>, temps: seq<(string, string)>, at: nat,
    l: nat, i: nat, front: string, back: string)
    requires ValidNames(PortNames(reserved)) && ValidNames(Keys(temps)) && PathsOpenNowhere(temps)
    requires LeasesFilled(before.leases, after.leases, reserved, temps, at)
    requires ArgumentsFilled(before.args, after.args, LeaseSubs(reserved, temps))
    requires l < |before.leases.ports| && i < |before.args| && NoBrace(front) && NoBrace(back)
    requires before.args[i] == front + ("{port:" + before.leases.ports[l].name + "}" + back)
    ensures l < |after.leases.ports| && after.leases.ports[l].port.Some? && i < |after.args|
    ensures exists text ::
              Spells(text, after.leases.ports[l].port.value) && after.args[i] == front + (text + back)
  {
    hide Simultaneous, Sealed, ArgumentsFilled, Spells, Decimal, LeaseSubs, PathsOpenNowhere;
    var subs, lease := LeaseSubs(reserved, temps), before.leases.ports[l];
    assert PortFilled(lease, after.leases.ports[l], reserved, at);
    var r :| r in reserved && r.name == lease.name
          && after.leases.ports[l] == lease.(port := Some(r.port), acquiredAt := Some(at));
    var sub := Sub("{port:" + r.name + "}", Decimal(r.port));
    PortIsSubstituted(reserved, temps, r);
    LeaseSubsAreDistinct(reserved, temps);
    KnownPlaceholderIsFilled(front, sub, back, subs);
    ArgumentsAreFilledInOnePass(before.args, after.args, reserved, temps, i);
    DecimalSpells(r.port);
  }
}
