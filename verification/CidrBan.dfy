/**
 `cidrban.RealService.Run`: banning a /24 once two of its addresses are banned, for 24 hours.

 `cidr24` stands for `toCIDR24` ("" when the text is not an IPv4 address).  Times are integer nanoseconds.
 */
module CidrBan {
  import opened Orders

  const HOUR := 3_600_000_000_000
  const EXPIRY := 24 * HOUR
  const THRESHOLD := 2

  datatype Entry = Entry(bannedAt: int, ipCount: nat)

  type Tracked = map<string, Entry>

  /** One cycle: the recent bans, the /24 rules Cloudflare lists (none when the listing failed), the clock. */
  datatype Input = Input(bans: seq<string>, listed: Option<set<string>>, now: int)

  // ---------------------------------------------------------------- grouping

  predicate Counted(cidr24: string -> string, ip: string) { ip != "1.2.3.4" && cidr24(ip) != "" }

  /** The distinct addresses of a /24 among the bans, counted naively. */
  ghost function Members(cidr24: string -> string, bans: seq<string>, cidr: string): set<string> {
    set ip | ip in bans && Counted(cidr24, ip) && cidr24(ip) == cidr
  }

  ghost function Networks(cidr24: string -> string, bans: seq<string>): set<string> {
    set ip | ip in bans && Counted(cidr24, ip) :: cidr24(ip)
  }

  ghost predicate IsGrouping(cidr24: string -> string, bans: seq<string>, groups: map<string, set<string>>) {
    && groups.Keys == Networks(cidr24, bans)
    && forall c :: c in groups ==> groups[c] == Members(cidr24, bans, c)
  }

  /** The nested map of the source holds, for each /24, exactly the naive set of its addresses. */
  method GroupByNetwork(cidr24: string -> string, bans: seq<string>) returns (groups: map<string, set<string>>)
    ensures IsGrouping(cidr24, bans, groups)
  {
    groups := map[];
    for i := 0 to |bans|
      invariant IsGrouping(cidr24, bans[..i], groups)
    {
      var ip := bans[i];
      if ip == "1.2.3.4" { continue; }
      var c := cidr24(ip);
      if c == "" { continue; }
      if c !in groups { groups := groups[c := {}]; }
      groups := groups[c := groups[c] + {ip}];
    }
    assert bans[..|bans|] == bans;
  }

  // ---------------------------------------------------------------- one cycle

  ghost function Triggered(cidr24: string -> string, bans: seq<string>): set<string> {
    set c | c in Networks(cidr24, bans) && |Members(cidr24, bans, c)| >= THRESHOLD
  }

  predicate InCloudflare(input: Input, cidr: string) { input.listed.Some? && cidr in input.listed.value }

  /** The /24s for which the cycle calls `AddIPAccessRule`. */
  ghost function Adds(cidr24: string -> string, st: Tracked, input: Input): set<string> {
    set c | c in Triggered(cidr24, input.bans) && c !in st && !InCloudflare(input, c)
  }

  /** What the first loop leaves for a /24. */
  ghost function Updated(cidr24: string -> string, st: Tracked, input: Input, c: string): Option<Entry> {
    var count := |Members(cidr24, input.bans, c)|;
    if c in st then
      if c in Triggered(cidr24, input.bans) && InCloudflare(input, c) then Some(st[c].(ipCount := count))
        else Some(st[c])
    else if c in Triggered(cidr24, input.bans) then Some(Entry(input.now, count))
    else None
  }

  predicate Young(e: Entry, now: int) { now - e.bannedAt < EXPIRY }

  ghost function Grown(cidr24: string -> string, st: Tracked, input: Input): Tracked {
    map c | c in st.Keys + Triggered(cidr24, input.bans) && Updated(cidr24, st, input, c).Some? ::
      Updated(cidr24, st, input, c).value
  }

  ghost function Survivors(st: Tracked, now: int): Tracked { map c | c in st && Young(st[c], now) :: st[c] }

  ghost predicate Changed(cidr24: string -> string, st: Tracked, input: Input) {
    var grown := Grown(cidr24, st, input);
    grown.Keys != st.Keys || Survivors(grown, input.now).Keys != grown.Keys
  }

  /** The persisted state after a cycle whose save, if any, succeeds. */
  ghost function After(cidr24: string -> string, st: Tracked, input: Input): Tracked {
    if input.bans == [] || !Changed(cidr24, st, input) then st
    else Survivors(Grown(cidr24, st, input), input.now)
  }

  /** After any cycle that had bans to look at, every tracked /24 is younger than 24 hours. */
  lemma {:induction false} TrackedIsYoung(cidr24: string -> string, st: Tracked, input: Input, c: string)
    requires input.bans != [] && c in After(cidr24, st, input)
    ensures input.now - After(cidr24, st, input)[c].bannedAt < 24 * 3_600_000_000_000
  {
    var grown := Grown(cidr24, st, input);
    if !Changed(cidr24, st, input) {
      assert c in Survivors(grown, input.now).Keys;
    }
  }

  // ---------------------------------------------------------------- runs

  /** The saved state before cycle `n`; `saves` tells which cycles' saves succeed. */
  ghost function StateAt(cidr24: string -> string, st: Tracked, inputs: seq<Input>, saves: seq<bool>, n: nat): Tracked
    requires n <= |inputs| == |saves|
  {
    if n == 0 then st
    else
      var before := StateAt(cidr24, st, inputs, saves, n - 1);
      if saves[n - 1] then After(cidr24, before, inputs[n - 1]) else before
  }

  /** The add calls of cycle `n`; a cycle without bans returns at once. */
  ghost function AddsAt(
    cidr24: string -> string, st: Tracked, inputs: seq<Input>, saves: seq<bool>, n: nat): set<string>
    requires n < |inputs| == |saves|
  {
    if inputs[n].bans == [] then {} else Adds(cidr24, StateAt(cidr24, st, inputs, saves, n), inputs[n])
  }

  ghost predicate ClockAdvances(inputs: seq<Input>) {
    forall i, j :: 0 <= i < j < |inputs| ==> inputs[i].now <= inputs[j].now
  }

  /** A /24 added in a cycle `i` that was saved stays tracked, with that time, until 24 hours have passed, whatever
      happens to later saves. */
  lemma {:induction false} StaysTracked(
    cidr24: string -> string, st: Tracked, inputs: seq<Input>, saves: seq<bool>, i: nat, n: nat, c: string)
    requires ClockAdvances(inputs) && i < n <= |inputs| == |saves| && saves[i]
             && c in AddsAt(cidr24, st, inputs, saves, i)
    requires forall j :: i < j < n ==> inputs[j].now < inputs[i].now + 24 * 3_600_000_000_000
    ensures c in StateAt(cidr24, st, inputs, saves, n)
    ensures StateAt(cidr24, st, inputs, saves, n)[c].bannedAt == inputs[i].now
    decreases n
  {
    if n - 1 > i { StaysTracked(cidr24, st, inputs, saves, i, n - 1, c); }
  }

  /** Two add calls for one /24 are at least 24 hours apart, in every run in which the save of the first one
      succeeded. */
  lemma {:induction false} AddsAreSpaced(
    cidr24: string -> string, st: Tracked, inputs: seq<Input>, saves: seq<bool>, i: nat, j: nat, c: string)
    requires ClockAdvances(inputs) && i < j < |inputs| == |saves| && saves[i]
    requires c in AddsAt(cidr24, st, inputs, saves, i) && c in AddsAt(cidr24, st, inputs, saves, j)
    ensures inputs[j].now - inputs[i].now >= 24 * 3_600_000_000_000
  {
    if inputs[j].now < inputs[i].now + EXPIRY {
      forall k | i < k < j ensures inputs[k].now < inputs[i].now + EXPIRY { assert inputs[k].now <= inputs[j].now; }
      StaysTracked(cidr24, st, inputs, saves, i, j, c);
      assert false;
    }
  }

  lemma {:induction false} UnsavedIsForgotten(
    cidr24: string -> string, st: Tracked, inputs: seq<Input>, saves: seq<bool>, i: nat, j: nat)
    requires i <= j <= |inputs| == |saves| && forall k :: i <= k < j ==> !saves[k]
    ensures StateAt(cidr24, st, inputs, saves, j) == StateAt(cidr24, st, inputs, saves, i)
    decreases j
  {
    if i < j { UnsavedIsForgotten(cidr24, st, inputs, saves, i, j - 1); }
  }

  /** The /24 is over the threshold and not listed by Cloudflare in cycle `k`. */
  ghost predicate Wanted(cidr24: string -> string, inputs: seq<Input>, k: nat, c: string)
    requires k < |inputs|
  {
    && TwoBanned(cidr24, inputs[k].bans, c)
    && (inputs[k].listed.Some? ==> c !in inputs[k].listed.value)
  }

  lemma {:induction false} WantedIsAdded(
    cidr24: string -> string, st: Tracked, inputs: seq<Input>, saves: seq<bool>, k: nat, c: string)
    requires k < |inputs| == |saves| && Wanted(cidr24, inputs, k, c)
    ensures c in AddsAt(cidr24, st, inputs, saves, k) <==> c !in StateAt(cidr24, st, inputs, saves, k)
  {
    TriggeredExactly(cidr24, inputs[k].bans, c);
  }

  /** The boundary, exactly: while a /24 stays over the threshold, unlisted and under 24 hours old, a later cycle adds
      it again if and only if no save since the first add succeeded. */
  lemma {:induction false} AddedAgainExactly(
    cidr24: string -> string, st: Tracked, inputs: seq<Input>, saves: seq<bool>, i: nat, j: nat, c: string)
    requires ClockAdvances(inputs) && i < j < |inputs| == |saves|
    requires c in AddsAt(cidr24, st, inputs, saves, i) && forall k :: i <= k <= j ==> Wanted(cidr24, inputs, k, c)
    requires inputs[j].now < inputs[i].now + 24 * 3_600_000_000_000
    ensures c in AddsAt(cidr24, st, inputs, saves, j) <==> forall k :: i <= k < j ==> !saves[k]
  {
    WantedIsAdded(cidr24, st, inputs, saves, j, c);
    if forall k :: i <= k < j ==> !saves[k] {
      UnsavedIsForgotten(cidr24, st, inputs, saves, i, j);
    } else {
      var k := FirstSave(saves, i, j);
      UnsavedIsForgotten(cidr24, st, inputs, saves, i, k);
      WantedIsAdded(cidr24, st, inputs, saves, k, c);
      forall m | k < m < j ensures inputs[m].now < inputs[k].now + EXPIRY {
        assert inputs[m].now <= inputs[j].now && (i < k ==> inputs[i].now <= inputs[k].now);
      }
      StaysTracked(cidr24, st, inputs, saves, k, j, c);
    }
  }

  lemma {:induction false} FirstSave(saves: seq<bool>, i: nat, j: nat) returns (k: nat)
    requires i < j <= |saves| && !forall k :: i <= k < j ==> !saves[k]
    ensures i <= k < j && saves[k] && forall m :: i <= m < k ==> !saves[m]
    decreases j - i
  {
    if saves[i] { k := i; } else { k := FirstSave(saves, i + 1, j); }
  }

  /** So one lost save is enough: the very next cycle adds again if and only if the save failed. */
  lemma {:induction false} LostSaveAddsAgain(
    cidr24: string -> string, st: Tracked, inputs: seq<Input>, saves: seq<bool>, i: nat, c: string)
    requires ClockAdvances(inputs) && i + 1 < |inputs| == |saves|
    requires c in AddsAt(cidr24, st, inputs, saves, i) && Wanted(cidr24, inputs, i + 1, c)
    requires inputs[i + 1].now < inputs[i].now + 24 * 3_600_000_000_000
    ensures c in AddsAt(cidr24, st, inputs, saves, i + 1) <==> !saves[i]
  {
    AddedIffThreshold(cidr24, StateAt(cidr24, st, inputs, saves, i), inputs[i], c);
    AddedAgainExactly(cidr24, st, inputs, saves, i, i + 1, c);
  }

  /** Two different addresses of the /24 are banned, the placeholder address and texts that are no IPv4 address not
      counted. */
  ghost predicate TwoBanned(cidr24: string -> string, bans: seq<string>, c: string) {
    exists x, y :: x in bans && y in bans && x != y && x != "1.2.3.4" && y != "1.2.3.4"
      && c != "" && cidr24(x) == c && cidr24(y) == c
  }

  lemma {:induction false} TriggeredExactly(cidr24: string -> string, bans: seq<string>, c: string)
    ensures c in Triggered(cidr24, bans) <==> TwoBanned(cidr24, bans, c)
  {
    var m := Members(cidr24, bans, c);
    if c in Triggered(cidr24, bans) {
      var x :| x in m;
      assert |m - {x}| >= 1;
      var y :| y in m - {x};
    }
    if TwoBanned(cidr24, bans, c) {
      var x, y :|
        && x in bans && y in bans && x != y && x != "1.2.3.4" && y != "1.2.3.4"
        && c != "" && cidr24(x) == c && cidr24(y) == c;
      assert {x, y} <= m;
      assert m == {x, y} + (m - {x, y});
      assert c in Networks(cidr24, bans);
    }
  }

  /** A cycle adds a /24 exactly when two of its addresses are banned, it is not tracked and Cloudflare does not list
      it. */
  lemma {:induction false} AddedIffThreshold(cidr24: string -> string, st: Tracked, input: Input, c: string)
    ensures c in Adds(cidr24, st, input) <==>
            TwoBanned(cidr24, input.bans, c) && c !in st && (input.listed.Some? ==> c !in input.listed.value)
  {
    TriggeredExactly(cidr24, input.bans, c);
  }

  /**
   What is tracked after a saved cycle with bans, exactly: entries that were tracked and are under 24 hours old keep
   their time, new ones are dated now and count their banned addresses.  Counts of old entries are brought up to date
   where Cloudflare lists the /24, but only in a cycle that adds or drops some entry, since no other is saved.
   */
  lemma {:induction false} TrackedExactly(cidr24: string -> string, st: Tracked, input: Input, c: string)
    requires input.bans != []
    ensures var after := After(cidr24, st, input);
            var count := |set ip | ip in input.bans && ip != "1.2.3.4" && c != "" && cidr24(ip) == c|;
            && (c in after <==> if c in st then input.now - st[c].bannedAt < 24 * 3_600_000_000_000
                else TwoBanned(cidr24, input.bans, c))
            && (c in after && c !in st ==> after[c] == Entry(input.now, count))
            && (c in after && c in st ==>
                && after[c].bannedAt == st[c].bannedAt
                && after[c].ipCount ==
                   if after.Keys != st.Keys && TwoBanned(cidr24, input.bans, c)
                      && input.listed.Some? && c in input.listed.value
                   then count else st[c].ipCount)
  {
    TriggeredExactly(cidr24, input.bans, c);
    assert Members(cidr24, input.bans, c) == set ip | ip in input.bans && ip != "1.2.3.4" && c != "" && cidr24(ip) == c;
    ChangedMeansKeys(cidr24, st, input);
    if !Changed(cidr24, st, input) {
      var grown := Grown(cidr24, st, input);
      assert c in grown <==> c in st;
      assert c in grown <==> c in Survivors(grown, input.now);
    }
  }

  /** A cycle is saved exactly when it adds or drops an entry. */
  lemma {:induction false} ChangedMeansKeys(cidr24: string -> string, st: Tracked, input: Input)
    requires input.bans != []
    ensures Changed(cidr24, st, input) <==> After(cidr24, st, input).Keys != st.Keys
  {
    var grown := Grown(cidr24, st, input);
    if grown.Keys != st.Keys {
      assert st.Keys <= grown.Keys;
      var c :| c in grown && c !in st;
      assert grown[c].bannedAt == input.now;
      assert c in Survivors(grown, input.now);
    }
  }

  // ---------------------------------------------------------------- the service

  /** The first loop with the networks in `todo` still to come. */
  ghost function Partial(cidr24: string -> string, st: Tracked, input: Input, todo: set<string>): Tracked {
    map c | c in st.Keys + Triggered(cidr24, input.bans) && (c in st || c !in todo) ::
      if c in todo then st[c] else Updated(cidr24, st, input, c).value
  }

  lemma {:induction false} PartialEnd(cidr24: string -> string, st: Tracked, input: Input)
    ensures Partial(cidr24, st, input, {}) == Grown(cidr24, st, input)
  {}

  /** One turn of the first loop: the tracked networks after it, and whether it calls the banners. */
  function BanOne(state: Tracked, input: Input, cidr: string, count: nat): (Tracked, bool) {
    if count < THRESHOLD then (state, false)
    else if cidr in state then
      (if InCloudflare(input, cidr) then state[cidr := state[cidr].(ipCount := count)] else state, false)
    else (state[cidr := Entry(input.now, count)], !InCloudflare(input, cidr))
  }

  lemma {:induction false} BanOneIsAStep(
    cidr24: string -> string, st: Tracked, input: Input, todo: set<string>, c: string)
    requires c in todo && todo <= Networks(cidr24, input.bans)
    ensures var before := Partial(cidr24, st, input, todo);
            var (after, added) := BanOne(before, input, c, |Members(cidr24, input.bans, c)|);
            && after == Partial(cidr24, st, input, todo - {c})
            && (added <==> c in Adds(cidr24, st, input))
            && before.Keys <= after.Keys
  {}

  class Service {
    var saved: Tracked

    constructor ()
      ensures saved == map[]
    {
      saved := map[];
    }

    /** The first loop of `Run`, over the groups in arbitrary order. */
    method BanNetworks(cidr24: string -> string, input: Input, groups: map<string, set<string>>)
      returns (state: Tracked, adds: set<string>, changed: bool)
      requires IsGrouping(cidr24, input.bans, groups)
      ensures state == Grown(cidr24, saved, input) && adds == Adds(cidr24, saved, input)
      ensures changed <==> state.Keys != saved.Keys
    {
      state, adds := saved, {};
      var todo := groups.Keys;
      while todo != {}
        invariant todo <= groups.Keys && state == Partial(cidr24, saved, input, todo)
        invariant adds == Adds(cidr24, saved, input) - todo && saved.Keys <= state.Keys
        decreases |todo|
      {
        var cidr :| cidr in todo;
        BanOneIsAStep(cidr24, saved, input, todo, cidr);
        todo := todo - {cidr};
        var (after, added) := BanOne(state, input, cidr, |groups[cidr]|);
        state := after;
        if added { adds := adds + {cidr}; }
      }
      PartialEnd(cidr24, saved, input);
      changed := state.Keys != saved.Keys;
    }

    method ExpireOld(state: Tracked, now: int) returns (left: Tracked, changed: bool)
      ensures left == Survivors(state, now)
      ensures changed <==> left.Keys != state.Keys
    {
      left, changed := state, false;
      var todo := state.Keys;
      while todo != {}
        invariant todo <= state.Keys
        invariant left == map c | c in state && (c in todo || Young(state[c], now)) :: state[c]
        invariant changed <==> left.Keys != state.Keys
        decreases |todo|
      {
        var cidr :| cidr in todo;
        todo := todo - {cidr};
        if Young(state[cidr], now) { continue; }
        left := left - {cidr};
        changed := true;
      }
    }

    method Run(cidr24: string -> string, input: Input, saveOk: bool) returns (adds: set<string>)
      modifies this
      ensures adds == if input.bans == [] then {} else Adds(cidr24, old(saved), input)
      ensures saved == if saveOk then After(cidr24, old(saved), input) else old(saved)
    {
      if |input.bans| == 0 { return {}; }
      var groups := GroupByNetwork(cidr24, input.bans);
      var state, added, grew := BanNetworks(cidr24, input, groups);
      adds := added;
      var left, shrank := ExpireOld(state, input.now);
      if (grew || shrank) && saveOk { saved := left; }
    }
  }
}
