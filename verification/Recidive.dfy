/**
 `recidive.RealService.Run`: counting repeat bans behind a cursor and escalating them.

 `valid` stands for `net.ParseIP(...) != nil`.  Times are integer nanoseconds; each ban is read with the clock value
 at which the source calls `time.Since` for it.
 */
module Recidive {
  import opened Orders

  const WINDOW := 7 * 24 * 3_600_000_000_000

  datatype Ban = Ban(ip: string, scenario: string, when: int)

  /** A ban as the loop meets it, with the clock at that moment. */
  datatype Read = Read(ban: Ban, at: int)

  datatype Record = Record(count: nat, lastSeen: int)

  /** recidivists.json: the cursor, if one was ever saved, and a record per address. */
  datatype Saved = Saved(cursor: Option<int>, records: map<string, Record>)

  predicate Countable(valid: string -> bool, ban: Ban) {
    ban.ip != "1.2.3.4" && valid(ban.ip) && !("recidivist-escalation" <= ban.scenario)
  }

  /** The escalation table: `{1: "24h"}`, and "168h" for any other count above one. */
  function EscalationFor(count: nat): Option<string> {
    if count == 2 then Some("24h") else if count > 1 then Some("168h") else None
  }

  /** What the loop does with one ban: the previous sighting, if any, and the escalation asked for. */
  datatype Counted = Counted(ip: string, when: int, at: int, previous: Option<int>, duration: Option<string>)

  datatype Acc = Acc(records: map<string, Record>, newCursor: int, log: seq<Counted>)

  function CountBan(acc: Acc, r: Read): Acc {
    var ban := r.ban;
    var existing := if ban.ip in acc.records then acc.records[ban.ip] else Record(0, 0);
    var base := if ban.ip in acc.records && r.at - existing.lastSeen > WINDOW then 0 else existing.count;
    var previous := if ban.ip in acc.records then Some(existing.lastSeen) else None;
    Acc(acc.records[ban.ip := Record(base + 1, ban.when)],
        if ban.when > acc.newCursor then ban.when else acc.newCursor,
        acc.log + [Counted(ban.ip, ban.when, r.at, previous, EscalationFor(base + 1))])
  }

  function Fold(valid: string -> bool, cursor: int, acc: Acc, entries: seq<Read>): Acc {
    if entries == [] then acc
    else
      var front, last := Fold(valid, cursor, acc, entries[..|entries| - 1]), entries[|entries| - 1];
      if last.ban.when > cursor && Countable(valid, last.ban) then CountBan(front, last) else front
  }

  /** A cycle: the clock when it starts, and the recent bans. */
  datatype Input = Input(now: int, entries: seq<Read>)

  function StartCursor(st: Saved, now: int): int { if st.cursor.Some? then st.cursor.value else now }

  function Scan(valid: string -> bool, st: Saved, input: Input): Acc {
    var cursor := StartCursor(st, input.now);
    Fold(valid, cursor, Acc(st.records, cursor, []), input.entries)
  }

  /** The saved state after a cycle whose save succeeds. */
  function After(valid: string -> bool, st: Saved, input: Input): Saved {
    var cursor, acc := StartCursor(st, input.now), Scan(valid, st, input);
    if acc.newCursor > cursor then Saved(Some(acc.newCursor), acc.records) else st
  }

  // ---------------------------------------------------------------- what one scan does

  ghost predicate ScanInv(
    valid: string -> bool, cursor: int, start: map<string, Record>, entries: seq<Read>, acc: Acc) {
    && acc.newCursor >= cursor
    && (acc.log == [] <==> acc.newCursor == cursor)
    && (acc.log == [] ==> acc.records == start)
    && (forall i :: 0 <= i < |acc.log| ==> cursor < acc.log[i].when <= acc.newCursor)
    && (acc.log != [] ==> exists i :: 0 <= i < |acc.log| && acc.log[i].when == acc.newCursor)
    && (acc.log == [] <==> forall i :: 0 <= i < |entries| ==>
       !(entries[i].ban.when > cursor && Countable(valid, entries[i].ban)))
  }

  lemma {:induction false} ScanFacts(valid: string -> bool, cursor: int, start: map<string, Record>, entries: seq<Read>)
    ensures ScanInv(valid, cursor, start, entries, Fold(valid, cursor, Acc(start, cursor, []), entries))
  {
    if entries != [] {
      var front, last := entries[..|entries| - 1], entries[|entries| - 1];
      ScanFacts(valid, cursor, start, front);
      assert forall i :: 0 <= i < |front| ==> front[i] == entries[i];
      if last.ban.when > cursor && Countable(valid, last.ban) {
        NewestCounted(Fold(valid, cursor, Acc(start, cursor, []), front), last, cursor);
      }
    }
  }

  lemma {:induction false} NewestCounted(acc: Acc, r: Read, cursor: int)
    requires acc.log == [] ==> acc.newCursor == cursor
    requires acc.log != [] ==> exists i :: 0 <= i < |acc.log| && acc.log[i].when == acc.newCursor
    requires r.ban.when > cursor
    ensures var next := CountBan(acc, r); exists i :: 0 <= i < |next.log| && next.log[i].when == next.newCursor
  {
    var next := CountBan(acc, r);
    if r.ban.when > acc.newCursor {
      assert next.log[|acc.log|].when == next.newCursor;
    } else {
      var i :| 0 <= i < |acc.log| && acc.log[i].when == acc.newCursor;
      assert next.log[i].when == next.newCursor;
    }
  }

  /** Everything counted lies after the old cursor and not after the new one. */
  lemma {:induction false} CountedBetweenCursors(valid: string -> bool, st: Saved, input: Input, i: nat)
    requires i < |Scan(valid, st, input).log|
    ensures After(valid, st, input).cursor.Some?
    ensures StartCursor(st, input.now) < Scan(valid, st, input).log[i].when <= After(valid, st, input).cursor.value
    ensures exists j :: 0 <= j < |Scan(valid, st, input).log|
              && Scan(valid, st, input).log[j].when == After(valid, st, input).cursor.value
  {
    ScanFacts(valid, StartCursor(st, input.now), st.records, input.entries);
  }

  // ---------------------------------------------------------------- runs

  /** The saved state before cycle `n`; `saves` tells which cycles' saves succeed. */
  ghost function StateAt(valid: string -> bool, st: Saved, inputs: seq<Input>, saves: seq<bool>, n: nat): Saved
    requires n <= |inputs| == |saves|
  {
    if n == 0 then st
    else
      var before := StateAt(valid, st, inputs, saves, n - 1);
      if saves[n - 1] then After(valid, before, inputs[n - 1]) else before
  }

  /** What cycle `n` counts, saved or not. */
  ghost function LogAt(valid: string -> bool, st: Saved, inputs: seq<Input>, saves: seq<bool>, n: nat): seq<Counted>
    requires n < |inputs| == |saves|
  {
    Scan(valid, StateAt(valid, st, inputs, saves, n), inputs[n]).log
  }

  lemma {:induction false} CursorGrows(
    valid: string -> bool, st: Saved, inputs: seq<Input>, saves: seq<bool>, m: nat, n: nat)
    requires m <= n <= |inputs| == |saves| && StateAt(valid, st, inputs, saves, m).cursor.Some?
    ensures StateAt(valid, st, inputs, saves, n).cursor.Some?
    ensures StateAt(valid, st, inputs, saves, m).cursor.value <= StateAt(valid, st, inputs, saves, n).cursor.value
    decreases n
  {
    if m < n { CursorGrows(valid, st, inputs, saves, m, n - 1); }
  }

  /** Once a cycle was saved, whatever a later cycle counts is newer than everything that cycle counted, whatever
      happens to the other saves.  (A listing that names a ban twice has it counted twice in one cycle.) */
  lemma {:induction false} NothingIsRecounted(
    valid: string -> bool, st: Saved, inputs: seq<Input>, saves: seq<bool>, m: nat, n: nat, i: nat, j: nat)
    requires m < n < |inputs| == |saves| && saves[m]
    requires i < |LogAt(valid, st, inputs, saves, m)| && j < |LogAt(valid, st, inputs, saves, n)|
    ensures LogAt(valid, st, inputs, saves, m)[i].when < LogAt(valid, st, inputs, saves, n)[j].when
  {
    CountedBetweenCursors(valid, StateAt(valid, st, inputs, saves, m), inputs[m], i);
    CountedBetweenCursors(valid, StateAt(valid, st, inputs, saves, n), inputs[n], j);
    CursorGrows(valid, st, inputs, saves, m + 1, n);
  }

  // ---------------------------------------------------------------- lost saves

  function BanOf(r: Read): Ban { r.ban }

  /** An address and the time of its ban. */
  datatype Sighting = Sighting(ip: string, when: int)

  function SightingOf(c: Counted): Sighting { Sighting(c.ip, c.when) }

  function Sightings(log: seq<Counted>): seq<Sighting> { MapSeq(SightingOf, log) }

  /** The sighting a scan from a cursor makes of a ban: none of one that is not after the cursor, not of an address, of
      the placeholder address, or an escalation of this service itself. */
  ghost function Sighted(valid: string -> bool, cursor: int): Ban -> Option<Sighting> {
    (ban: Ban) =>
      if ban.when > cursor && valid(ban.ip) && ban.ip != "1.2.3.4" && !("recidivist-escalation" <= ban.scenario)
      then Some(Sighting(ban.ip, ban.when)) else None
  }

  lemma {:induction false} FoldSights(
    valid: string -> bool, cursor: int, start: map<string, Record>, entries: seq<Read>)
    ensures Sightings(Fold(valid, cursor, Acc(start, cursor, []), entries).log) ==
            Collect(Sighted(valid, cursor), MapSeq(BanOf, entries))
  {
    if entries != [] {
      var n := |entries| - 1;
      FoldSights(valid, cursor, start, entries[..n]);
      var log, bans := Fold(valid, cursor, Acc(start, cursor, []), entries[..n]).log, MapSeq(BanOf, entries);
      assert bans[..n] == MapSeq(BanOf, entries[..n]) && bans[n] == entries[n].ban;
      assert forall c: Counted :: Sightings(log + [c]) == Sightings(log) + [SightingOf(c)];
    }
  }

  /** What every cycle of every run counts, saved or not: of the bans listed, in order and with repetitions, exactly
      those after its cursor that name a real address and are not escalations. */
  lemma {:induction false} CountedExactly(
    valid: string -> bool, st: Saved, inputs: seq<Input>, saves: seq<bool>, n: nat)
    requires n < |inputs| == |saves|
    ensures var before := StateAt(valid, st, inputs, saves, n);
            var cursor := if before.cursor.Some? then before.cursor.value else inputs[n].now;
            Sightings(LogAt(valid, st, inputs, saves, n)) ==
            Collect(Sighted(valid, cursor), MapSeq(BanOf, inputs[n].entries))
  {
    var before := StateAt(valid, st, inputs, saves, n);
    FoldSights(valid, StartCursor(before, inputs[n].now), before.records, inputs[n].entries);
  }

  /** A countable ban after the cursor is among those counted. */
  lemma {:induction false} CountableIsCounted(
    valid: string -> bool, cursor: int, start: map<string, Record>, entries: seq<Read>, i: nat)
    requires i < |entries| && entries[i].ban.when > cursor && Countable(valid, entries[i].ban)
    ensures var acc := Fold(valid, cursor, Acc(start, cursor, []), entries); acc.newCursor >= entries[i].ban.when
  {
    var n := |entries| - 1;
    if i < n { CountableIsCounted(valid, cursor, start, entries[..n], i); }
  }

  /** A cycle that finds nothing after its cursor counts nothing, whatever its records. */
  lemma {:induction false} NothingAfterCursor(
    valid: string -> bool, cursor: int, start: map<string, Record>, entries: seq<Read>)
    requires forall i :: 0 <= i < |entries| ==> !(entries[i].ban.when > cursor && Countable(valid, entries[i].ban))
    ensures Fold(valid, cursor, Acc(start, cursor, []), entries).log == []
  {
    ScanFacts(valid, cursor, start, entries);
  }

  ghost predicate CountsAfter(log: seq<Counted>, cursor: int) { exists i :: 0 <= i < |log| && log[i].when > cursor }

  ghost predicate ListsAfter(valid: string -> bool, bans: seq<Ban>, cursor: int) {
    exists i :: 0 <= i < |bans| && bans[i].when > cursor && valid(bans[i].ip) && bans[i].ip != "1.2.3.4"
      && !("recidivist-escalation" <= bans[i].scenario)
  }

  /** What a scan counts after a later time is what the listing holds after it. */
  lemma {:induction false} CountedIsListed(
    valid: string -> bool, cursor: int, start: map<string, Record>, entries: seq<Read>, later: int)
    requires cursor <= later
    ensures CountsAfter(Fold(valid, cursor, Acc(start, cursor, []), entries).log, later) <==>
            ListsAfter(valid, MapSeq(BanOf, entries), later)
  {
    if entries != [] {
      var n := |entries| - 1;
      var front, last := entries[..n], entries[n];
      CountedIsListed(valid, cursor, start, front, later);
      var bans, log := MapSeq(BanOf, front), Fold(valid, cursor, Acc(start, cursor, []), front).log;
      assert MapSeq(BanOf, entries) == bans + [last.ban];
      assert ListsAfter(valid, bans + [last.ban], later) <==>
             ListsAfter(valid, bans, later) || (last.ban.when > later && Countable(valid, last.ban)) by {
        ListsOneMore(valid, bans, last.ban, later);
      }
      if last.ban.when > cursor && Countable(valid, last.ban) {
        var counted := CountBan(Fold(valid, cursor, Acc(start, cursor, []), front), last).log;
        assert counted[..|log|] == log && counted[|log|].when == last.ban.when;
        CountsOneMore(log, counted[|log|], later);
        assert counted == log + [counted[|log|]];
      }
    }
  }

  lemma {:induction false} ListsOneMore(valid: string -> bool, bans: seq<Ban>, ban: Ban, later: int)
    ensures ListsAfter(valid, bans + [ban], later) <==>
            ListsAfter(valid, bans, later) || (ban.when > later && Countable(valid, ban))
  {
    var all := bans + [ban];
    assert all[|bans|] == ban && forall i :: 0 <= i < |bans| ==> all[i] == bans[i];
  }

  lemma {:induction false} CountsOneMore(log: seq<Counted>, c: Counted, later: int)
    ensures CountsAfter(log + [c], later) <==> CountsAfter(log, later) || c.when > later
  {
    var all := log + [c];
    assert all[|log|] == c && forall i :: 0 <= i < |log| ==> all[i] == log[i];
  }

  lemma {:induction false} ScanCountsExactly(valid: string -> bool, st: Saved, input: Input)
    ensures Scan(valid, st, input).log != [] <==>
            ListsAfter(valid, MapSeq(BanOf, input.entries), StartCursor(st, input.now))
  {
    var cursor := StartCursor(st, input.now);
    CountedIsListed(valid, cursor, st.records, input.entries, cursor);
    ScanFacts(valid, cursor, st.records, input.entries);
    var log := Scan(valid, st, input).log;
    if log != [] { assert log[0].when > cursor; }
  }

  /**
   The boundary, exactly: when the next cycle lists the same bans, it counts again if and only if the save failed and
   the cursor it starts from (the unchanged one, or its own clock when there is none) lies before some of what was
   counted.
   */
  lemma {:induction false} LostSaveRecounts(
    valid: string -> bool, st: Saved, inputs: seq<Input>, saves: seq<bool>, m: nat)
    requires m + 1 < |inputs| == |saves| && MapSeq(BanOf, inputs[m + 1].entries) == MapSeq(BanOf, inputs[m].entries)
    requires LogAt(valid, st, inputs, saves, m) != [] && inputs[m].now <= inputs[m + 1].now
    ensures LogAt(valid, st, inputs, saves, m + 1) != [] <==>
            && !saves[m]
            && CountsAfter(LogAt(valid, st, inputs, saves, m),
               StartCursor(StateAt(valid, st, inputs, saves, m), inputs[m + 1].now))
  {
    var before, first, second := StateAt(valid, st, inputs, saves, m), inputs[m], inputs[m + 1];
    if saves[m] {
      SavedListingIsDone(valid, before, first, second);
    } else {
      var later := StartCursor(before, second.now);
      ScanCountsExactly(valid, before, second);
      CountedIsListed(valid, StartCursor(before, first.now), before.records, first.entries, later);
    }
  }

  /** With a cursor, then, exactly when the save failed, and it counts the very same sightings. */
  lemma {:induction false} LostSaveRepeats(
    valid: string -> bool, st: Saved, inputs: seq<Input>, saves: seq<bool>, m: nat)
    requires m + 1 < |inputs| == |saves| && MapSeq(BanOf, inputs[m + 1].entries) == MapSeq(BanOf, inputs[m].entries)
    requires StateAt(valid, st, inputs, saves, m).cursor.Some? && LogAt(valid, st, inputs, saves, m) != []
    ensures LogAt(valid, st, inputs, saves, m + 1) != [] <==> !saves[m]
    ensures !saves[m] ==>
              Sightings(LogAt(valid, st, inputs, saves, m + 1)) == Sightings(LogAt(valid, st, inputs, saves, m))
  {
    var before, first, second := StateAt(valid, st, inputs, saves, m), inputs[m], inputs[m + 1];
    var cursor := before.cursor.value;
    if saves[m] {
      SavedListingIsDone(valid, before, first, second);
    } else {
      FoldSights(valid, cursor, before.records, second.entries);
      FoldSights(valid, cursor, before.records, first.entries);
      assert |Sightings(LogAt(valid, st, inputs, saves, m))| == |LogAt(valid, st, inputs, saves, m)|;
    }
  }

  /** After a saved cycle the same listing has nothing left to count. */
  lemma {:induction false} SavedListingIsDone(valid: string -> bool, before: Saved, first: Input, second: Input)
    requires MapSeq(BanOf, second.entries) == MapSeq(BanOf, first.entries) && Scan(valid, before, first).log != []
    ensures Scan(valid, After(valid, before, first), second).log == []
  {
    var cursor := StartCursor(before, first.now);
    ScanFacts(valid, cursor, before.records, first.entries);
    var after := After(valid, before, first);
    forall i | 0 <= i < |second.entries|
      ensures !(second.entries[i].ban.when > after.cursor.value && Countable(valid, second.entries[i].ban))
    {
      assert MapSeq(BanOf, second.entries)[i] == MapSeq(BanOf, first.entries)[i];
      assert first.entries[i].ban == second.entries[i].ban;
      if first.entries[i].ban.when > cursor && Countable(valid, first.entries[i].ban) {
        CountableIsCounted(valid, cursor, before.records, first.entries, i);
      }
    }
    NothingAfterCursor(valid, after.cursor.value, after.records, second.entries);
  }

  // ---------------------------------------------------------------- bootstrap

  ghost predicate FutureStamped(valid: string -> bool, input: Input) {
    exists i :: 0 <= i < |input.entries| &&
      var ban := input.entries[i].ban;
      ban.when > input.now && valid(ban.ip) && ban.ip != "1.2.3.4" && !("recidivist-escalation" <= ban.scenario)
  }

  /** Without a cursor a cycle does something exactly when some countable ban is stamped in the future. */
  lemma {:induction false} BootstrapNeedsTheFuture(valid: string -> bool, st: Saved, input: Input)
    requires st.cursor.None?
    ensures After(valid, st, input) != st <==> FutureStamped(valid, input)
    ensures !FutureStamped(valid, input) ==> Scan(valid, st, input).log == []
  {
    ScanFacts(valid, input.now, st.records, input.entries);
  }

  /** So a fresh installation never starts counting: in a run without future-stamped bans the state without a cursor is
      where it was, and nothing was ever counted. */
  lemma {:induction false} NeverBootstraps(
    valid: string -> bool, st: Saved, inputs: seq<Input>, saves: seq<bool>, n: nat)
    requires st.cursor.None? && n <= |inputs| == |saves|
    requires forall i :: 0 <= i < |inputs| ==> !FutureStamped(valid, inputs[i])
    ensures StateAt(valid, st, inputs, saves, n) == st
    ensures n < |inputs| ==> LogAt(valid, st, inputs, saves, n) == []
    decreases n
  {
    if n > 0 {
      NeverBootstraps(valid, st, inputs, saves, n - 1);
      BootstrapNeedsTheFuture(valid, st, inputs[n - 1]);
    }
    if n < |inputs| { BootstrapNeedsTheFuture(valid, st, inputs[n]); }
  }

  // ---------------------------------------------------------------- escalation

  /** How often an address has come back: first sighting, second, third or later. */
  datatype Stage = First | Second | Third

  function StageDuration(s: Stage): Option<string> {
    match s case First => None case Second => Some("24h") case Third => Some("168h")
  }

  /** What is known of an address: its last sighting and its stage. */
  datatype View = Unknown | Known(lastSeen: int, stage: Stage)

  function Advance(v: View, e: Counted): View {
    if v.Unknown? || e.at - v.lastSeen > 7 * 24 * 3_600_000_000_000 then Known(e.when, First)
    else Known(e.when, if v.stage == First then Second else Third)
  }

  /** The escalation language of one address: none, 24h, then 168h for ever, starting over after seven idle days; each
      sighting is measured against the one before it. */
  ghost predicate Escalates(v: View, log: seq<Counted>)
    decreases |log|
  {
    log == [] ||
    (var e, next := log[0], Advance(v, log[0]);
     && e.previous == (if v.Known? then Some(v.lastSeen) else None)
     && e.duration == StageDuration(next.stage)
     && Escalates(next, log[1..]))
  }

  ghost function Reached(v: View, log: seq<Counted>): (r: View)
    ensures log != [] ==> r.Known?
    decreases |log|
  {
    if log == [] then v else Reached(Advance(v, log[0]), log[1..])
  }

  lemma {:induction false} EscalatesAppend(v: View, a: seq<Counted>, b: seq<Counted>)
    ensures Escalates(v, a) && Escalates(Reached(v, a), b) ==> Escalates(v, a + b)
    ensures Reached(v, a + b) == Reached(Reached(v, a), b)
    decreases |a|
  {
    if a == [] {
      assert a + b == b;
    } else {
      assert (a + b)[0] == a[0] && (a + b)[1..] == a[1..] + b;
      EscalatesAppend(Advance(v, a[0]), a[1..], b);
    }
  }

  ghost function Only(log: seq<Counted>, ip: string): seq<Counted> {
    if log == [] then []
    else Only(log[..|log| - 1], ip) + if log[|log| - 1].ip == ip then [log[|log| - 1]] else []
  }

  lemma {:induction false} OnlyAppend(a: seq<Counted>, b: seq<Counted>, ip: string)
    ensures Only(a + b, ip) == Only(a, ip) + Only(b, ip)
    decreases |b|
  {
    if b == [] {
      assert a + b == a;
    } else {
      assert (a + b)[..|a + b| - 1] == a + b[..|b| - 1];
      OnlyAppend(a, b[..|b| - 1], ip);
    }
  }

  ghost function ViewOf(records: map<string, Record>, ip: string): View {
    if ip !in records then Unknown
    else Known(records[ip].lastSeen, if records[ip].count <= 1 then First else if records[ip].count == 2 then Second
      else Third)
  }

  /** Saved counts start at one. */
  ghost predicate Positive(records: map<string, Record>) { forall ip :: ip in records ==> records[ip].count >= 1 }

  ghost predicate Tracks(start: map<string, Record>, acc: Acc, ip: string) {
    && Positive(acc.records)
    && Escalates(ViewOf(start, ip), Only(acc.log, ip))
    && ViewOf(acc.records, ip) == Reached(ViewOf(start, ip), Only(acc.log, ip))
  }

  lemma {:induction false} OneMore(v: View, log: seq<Counted>, e: Counted)
    requires Escalates(v, log)
    requires e.previous == (if Reached(v, log).Known? then Some(Reached(v, log).lastSeen) else None)
    requires e.duration == StageDuration(Advance(Reached(v, log), e).stage)
    ensures Escalates(v, log + [e]) && Reached(v, log + [e]) == Advance(Reached(v, log), e)
  {
    var r := Reached(v, log);
    assert [e][1..] == [];
    assert Escalates(Advance(r, e), [e][1..]);
    assert Escalates(r, [e]);
    assert Reached(r, [e]) == Reached(Advance(r, e), [e][1..]) == Advance(r, e);
    EscalatesAppend(v, log, [e]);
  }

  lemma {:induction false} CountKeepsTrack(start: map<string, Record>, acc: Acc, r: Read, ip: string)
    requires Tracks(start, acc, ip)
    ensures Tracks(start, CountBan(acc, r), ip)
  {
    var next := CountBan(acc, r);
    var e := next.log[|next.log| - 1];
    assert next.log[..|next.log| - 1] == acc.log;
    if r.ban.ip == ip {
      OneMore(ViewOf(start, ip), Only(acc.log, ip), e);
      assert Only(next.log, ip) == Only(acc.log, ip) + [e];
    } else {
      assert Only(next.log, ip) == Only(acc.log, ip);
    }
  }

  lemma {:induction false} FoldKeepsTrack(
    valid: string -> bool, cursor: int, start: map<string, Record>, entries: seq<Read>, ip: string)
    requires Positive(start)
    ensures Tracks(start, Fold(valid, cursor, Acc(start, cursor, []), entries), ip)
  {
    if entries != [] {
      FoldKeepsTrack(valid, cursor, start, entries[..|entries| - 1], ip);
      CountKeepsTrack(start, Fold(valid, cursor, Acc(start, cursor, []), entries[..|entries| - 1]),
        entries[|entries| - 1], ip);
    }
  }

  /** Every sighting counted in those of the first `n` cycles that were saved. */
  ghost function SavedLog(valid: string -> bool, st: Saved, inputs: seq<Input>, saves: seq<bool>, n: nat): seq<Counted>
    requires n <= |inputs| == |saves|
  {
    if n == 0 then []
    else
      SavedLog(valid, st, inputs, saves, n - 1) + if saves[n - 1] then LogAt(valid, st, inputs, saves, n - 1) else []
  }

  /** What one cycle does to what is known of an address. */
  lemma {:induction false} CycleTracks(valid: string -> bool, st: Saved, input: Input, ip: string)
    requires Positive(st.records)
    ensures Positive(After(valid, st, input).records)
    ensures Escalates(ViewOf(st.records, ip), Only(Scan(valid, st, input).log, ip))
    ensures ViewOf(After(valid, st, input).records, ip) ==
            Reached(ViewOf(st.records, ip), Only(Scan(valid, st, input).log, ip))
  {
    var cursor := StartCursor(st, input.now);
    FoldKeepsTrack(valid, cursor, st.records, input.entries, ip);
    ScanFacts(valid, cursor, st.records, input.entries);
  }

  /** In any run, whichever saves succeed, the saved record of an address is where the saved sightings lead. */
  lemma {:induction false} RunTracks(
    valid: string -> bool, st: Saved, inputs: seq<Input>, saves: seq<bool>, n: nat, ip: string)
    requires Positive(st.records) && n <= |inputs| == |saves|
    ensures Positive(StateAt(valid, st, inputs, saves, n).records)
    ensures Escalates(ViewOf(st.records, ip), Only(SavedLog(valid, st, inputs, saves, n), ip))
    ensures ViewOf(StateAt(valid, st, inputs, saves, n).records, ip) ==
            Reached(ViewOf(st.records, ip), Only(SavedLog(valid, st, inputs, saves, n), ip))
    decreases n
  {
    if n > 0 {
      RunTracks(valid, st, inputs, saves, n - 1, ip);
      var earlier := SavedLog(valid, st, inputs, saves, n - 1);
      if saves[n - 1] {
        var log := LogAt(valid, st, inputs, saves, n - 1);
        CycleTracks(valid, StateAt(valid, st, inputs, saves, n - 1), inputs[n - 1], ip);
        OnlyAppend(earlier, log, ip);
        EscalatesAppend(ViewOf(st.records, ip), Only(earlier, ip), Only(log, ip));
      } else {
        assert earlier + [] == earlier;
      }
    }
  }

  /** Over any run each address escalates none, 24h, 168h, 168h, ... until seven idle days: the saved cycles together,
      and every cycle, saved or not, on top of the saved ones before it. */
  lemma {:induction false} EscalationLanguage(
    valid: string -> bool, st: Saved, inputs: seq<Input>, saves: seq<bool>, n: nat, ip: string)
    requires Positive(st.records) && n < |inputs| == |saves|
    ensures Escalates(ViewOf(st.records, ip),
                      Only(SavedLog(valid, st, inputs, saves, n), ip) + Only(LogAt(valid, st, inputs, saves, n), ip))
  {
    RunTracks(valid, st, inputs, saves, n, ip);
    CycleTracks(valid, StateAt(valid, st, inputs, saves, n), inputs[n], ip);
    EscalatesAppend(ViewOf(st.records, ip), Only(SavedLog(valid, st, inputs, saves, n), ip),
                    Only(LogAt(valid, st, inputs, saves, n), ip));
  }

  // ---------------------------------------------------------------- nothing is purged

  lemma {:induction false} ReachedLast(v: View, log: seq<Counted>)
    requires log != []
    ensures Reached(v, log).Known? && Reached(v, log).lastSeen == log[|log| - 1].when
    decreases |log|
  {
    if |log| == 1 {
      assert log[1..] == [];
    } else {
      ReachedLast(Advance(v, log[0]), log[1..]);
    }
  }

  /** A purge of entries older than the window is documented; none happens.  After any run an address has a record
      exactly if it had one before or was counted in a saved cycle, and the record dates from its last saved sighting.
      */
  lemma {:induction false} NothingIsPurged(
    valid: string -> bool, st: Saved, inputs: seq<Input>, saves: seq<bool>, n: nat, ip: string)
    requires Positive(st.records) && n <= |inputs| == |saves|
    ensures var records := StateAt(valid, st, inputs, saves, n).records;
            var log := Only(SavedLog(valid, st, inputs, saves, n), ip);
            && (ip in records <==> ip in st.records || log != [])
            && (ip in records ==> records[ip].lastSeen == if log == [] then st.records[ip].lastSeen
               else log[|log| - 1].when)
  {
    RunTracks(valid, st, inputs, saves, n, ip);
    var log := Only(SavedLog(valid, st, inputs, saves, n), ip);
    if log != [] { ReachedLast(ViewOf(st.records, ip), log); }
  }

  /** So no address is ever forgotten. */
  lemma {:induction false} RecordsNeverShrink(
    valid: string -> bool, st: Saved, inputs: seq<Input>, saves: seq<bool>, m: nat, n: nat)
    requires m <= n <= |inputs| == |saves|
    ensures StateAt(valid, st, inputs, saves, m).records.Keys <= StateAt(valid, st, inputs, saves, n).records.Keys
    decreases n
  {
    if m < n {
      RecordsNeverShrink(valid, st, inputs, saves, m, n - 1);
      var before := StateAt(valid, st, inputs, saves, n - 1);
      ScanKeepsRecords(valid, StartCursor(before, inputs[n - 1].now), before.records, inputs[n - 1].entries);
    }
  }

  lemma {:induction false} ScanKeepsRecords(
    valid: string -> bool, cursor: int, start: map<string, Record>, entries: seq<Read>)
    ensures start.Keys <= Fold(valid, cursor, Acc(start, cursor, []), entries).records.Keys
  {
    if entries != [] { ScanKeepsRecords(valid, cursor, start, entries[..|entries| - 1]); }
  }

  /** The saved records that the documented purge would remove at `now`. */
  ghost predicate Overdue(records: map<string, Record>, ip: string, now: int) {
    ip in records && now - records[ip].lastSeen > 7 * 24 * 3_600_000_000_000
  }

  /** Which ones they are, exactly: those whose last saved sighting, or record from before, is older than the window. */
  lemma {:induction false} OverdueExactly(
    valid: string -> bool, st: Saved, inputs: seq<Input>, saves: seq<bool>, n: nat, ip: string, now: int)
    requires Positive(st.records) && n <= |inputs| == |saves|
    ensures var log := Only(SavedLog(valid, st, inputs, saves, n), ip);
            Overdue(StateAt(valid, st, inputs, saves, n).records, ip, now) <==>
            if log == [] then Overdue(st.records, ip, now) else now - log[|log| - 1].when > 7 * 24 * 3_600_000_000_000
  {
    NothingIsPurged(valid, st, inputs, saves, n, ip);
  }

  /** A saved cycle, eight days after an address was last seen, that counts another address and keeps the first. */
  lemma {:induction false} OverdueRecordIsKept() returns (st: Saved, input: Input, now: int)
    ensures Scan(ip => true, st, input).log != [] && After(ip => true, st, input) != st
    ensures Overdue(After(ip => true, st, input).records, "198.51.100.7", now) && input.now == now
  {
    var day := WINDOW / 7;
    now := 108 * day;
    st := Saved(Some(100 * day), map["198.51.100.7" := Record(1, 100 * day)]);
    var read := Read(Ban("203.0.113.9", "ssh", 108 * day), 108 * day);
    input := Input(now, [read]);
    assert [read][..0] == [];
    var start := Acc(st.records, 100 * day, []);
    assert Fold(ip => true, 100 * day, start, []) == start;
    assert "203.0.113.9"[0] != "1.2.3.4"[0] && "ssh"[0] != "recidivist-escalation"[0];
    assert Scan(ip => true, st, input) == CountBan(start, read);
  }

  // ---------------------------------------------------------------- the service

  class Service {
    var saved: Saved

    constructor ()
      ensures saved == Saved(None, map[])
    {
      saved := Saved(None, map[]);
    }

    /** The counting loop of `Run`. */
    method CountBans(valid: string -> bool, cursor: int, known: map<string, Record>, entries: seq<Read>)
      returns (records: map<string, Record>, newCursor: int, changed: bool, escalated: seq<Counted>)
      ensures Acc(records, newCursor, escalated) == Fold(valid, cursor, Acc(known, cursor, []), entries)
      ensures changed <==> escalated != []
    {
      records, newCursor, changed, escalated := known, cursor, false, [];
      for i := 0 to |entries|
        invariant Acc(records, newCursor, escalated) == Fold(valid, cursor, Acc(known, cursor, []), entries[..i])
        invariant changed <==> escalated != []
      {
        assert entries[..i + 1][..i] == entries[..i];
        var ban := entries[i].ban;
        if !(ban.when > cursor) { continue; }
        if ban.ip == "1.2.3.4" || !valid(ban.ip) { continue; }
        if "recidivist-escalation" <= ban.scenario { continue; }
        if ban.when > newCursor { newCursor := ban.when; }
        var rec := Record(0, 0);
        var previous: Option<int> := None;
        if ban.ip in records {
          rec := records[ban.ip];
          previous := Some(rec.lastSeen);
          if entries[i].at - rec.lastSeen > WINDOW { rec := Record(0, 0); }
        }
        rec := Record(rec.count + 1, ban.when);
        changed := true;
        records := records[ban.ip := rec];
        escalated := escalated + [Counted(ban.ip, ban.when, entries[i].at, previous, EscalationFor(rec.count))];
      }
      assert entries[..|entries|] == entries;
    }

    method Run(valid: string -> bool, input: Input, saveOk: bool) returns (escalated: seq<Counted>)
      modifies this
      ensures escalated == Scan(valid, old(saved), input).log
      ensures saved == if saveOk then After(valid, old(saved), input) else old(saved)
    {
      if |input.entries| == 0 { return []; }
      var cursor := if saved.cursor.Some? then saved.cursor.value else input.now;
      var records, newCursor, changed;
      records, newCursor, changed, escalated := CountBans(valid, cursor, saved.records, input.entries);
      ScanFacts(valid, cursor, saved.records, input.entries);
      if (changed || newCursor > cursor) && saveOk {
        saved := Saved(if newCursor > cursor then Some(newCursor) else saved.cursor, records);
      }
    }
  }
}
